/** A finished response, told as one chat completion. */
module ChatCompletion {
  import opened Prelude
  import opened Json
  import Text

  datatype FinishReason = ToolCalls | ContentFilter | LengthLimit | Stop

  datatype ToolCall = ToolCall(id: string, name: string, arguments: string)

  datatype Completion = Completion(id: string, model: string, content: Option<string>, toolCalls: seq<ToolCall>,
                                   finish: FinishReason)

  /** How the reason texts of an upstream are classed; which words count is not modelled. */
  datatype Wordlist = Wordlist(isLength: string -> bool, isFilter: string -> bool)

  function Concat(parts: seq<string>): string {
    if parts == [] then "" else parts[0] + Concat(parts[1..])
  }

  function PartText(part: Value): string {
    if StringAt(part, "type") in {Some("output_text"), Some("input_text")} then StringAt(part, "text").UnwrapOr("")
    else ""
  }

  /** The text of one message item. */
  function ContentText(item: Value): string {
    var parts := ItemsAt(item, "content");
    Concat(seq(|parts|, i requires 0 <= i < |parts| => PartText(parts[i])))
  }

  predicate IsAssistant(item: Value) {
    StringAt(item, "role") == Some("assistant")
  }

  predicate IsCall(item: Value) {
    StringAt(item, "type") == Some("function_call")
  }

  function ContentTexts(items: seq<Value>): seq<string> {
    seq(|items|, i requires 0 <= i < |items| => ContentText(items[i]))
  }

  function TextOfItems(items: seq<Value>): string {
    Concat(ContentTexts(Filter(IsAssistant, items)))
  }

  function ResponseText(v: Value): string {
    TextOfItems(ItemsAt(v, "output"))
  }

  function CallOf(item: Value): ToolCall {
    ToolCall(StringAt(item, "call_id").UnwrapOr("call_proxy"), StringAt(item, "name").UnwrapOr("tool"),
             StringAt(item, "arguments").UnwrapOr(""))
  }

  function ResponseCalls(v: Value): seq<ToolCall> {
    var calls := Filter(IsCall, ItemsAt(v, "output"));
    seq(|calls|, i requires 0 <= i < |calls| => CallOf(calls[i]))
  }

  // ---- Why a response ended --------------------------------------------------------------------------

  function FieldOf(v: Option<Value>, key: string): Option<string> {
    if v.Some? && v.value.Object? then StringAt(v.value, key) else None
  }

  function ErrorCode(v: Value): Option<string> {
    var code := FieldOf(Get(v, "error"), "code");
    if code.Some? then code else FieldOf(Get(Root(v), "error"), "code")
  }

  function IncompleteReason(v: Value): Option<string> {
    FieldOf(Get(Root(v), "incomplete_details"), "reason")
  }

  predicate IsFiltered(v: Value, w: Wordlist) {
    || (ErrorCode(v).Some? && w.isFilter(ErrorCode(v).value))
    || (IncompleteReason(v).Some? && w.isFilter(IncompleteReason(v).value))
  }

  predicate IsIncomplete(v: Value) {
    StringAt(Root(v), "status").Some? && Text.ToAsciiLowercase(StringAt(Root(v), "status").value) == "incomplete"
  }

  predicate IsCutShort(v: Value, w: Wordlist) {
    if ErrorCode(v).Some? && w.isLength(ErrorCode(v).value) then true
    else if IsIncomplete(v) then IncompleteReason(v).None? || w.isLength(IncompleteReason(v).value)
    else StringAt(Root(v), "truncation").Some? && w.isLength(StringAt(Root(v), "truncation").value)
  }

  function FinishOf(v: Value, sawTool: bool, w: Wordlist): FinishReason {
    if sawTool then ToolCalls
    else if IsFiltered(v, w) then ContentFilter
    else if IsCutShort(v, w) then LengthLimit
    else Stop
  }

  /** The translation of a whole response at once. */
  function ToCompletion(v: Value, fallbackModel: string, w: Wordlist): Completion {
    var content, calls := ResponseText(v), ResponseCalls(v);
    Completion(StringAt(v, "id").UnwrapOr("chatcmpl_proxy"), StringAt(v, "model").UnwrapOr(fallbackModel),
               if content == "" then None else Some(content), calls, FinishOf(v, calls != [], w))
  }
}
