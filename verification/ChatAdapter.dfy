/** A streamed response, told as chat completion chunks while it arrives. */
module ChatAdapter {
  import opened Prelude
  import opened Json
  import opened ChatCompletion
  import Text

  /** What a record is about, taken from its event line or from its type. */
  datatype EventKind =
    Created | TextDelta | ItemAdded | ArgumentsDelta | ArgumentsDone | ItemDone | Completed | Failed | Other

  datatype Event = Event(kind: EventKind, value: Value)

  datatype Delta =
    | Role
    | Content(text: string)
    | OpenTool(index: nat, id: string, name: string, arguments: string)
    | ToolArguments(index: nat, arguments: string)
    | Finish(reason: FinishReason)

  datatype Chunk = Chunk(id: string, model: string, delta: Delta) | DoneMark | ErrorMark

  datatype Tool = Tool(outputIndex: Option<int>, callId: string, name: string, arguments: string, announced: bool)

  datatype Adapter = Adapter(
    chatId: string, model: string, emittedRole: bool, sawText: bool, sawTool: bool, finished: bool, tools: seq<Tool>)

  datatype Translation = Translation(adapter: Adapter, chunks: seq<Chunk>)

  function Fresh(chatId: string, model: string): Adapter {
    Adapter(chatId, model, false, false, false, false, [])
  }

  // ---- Finding the tool call an event belongs to ---------------------------------------------------------

  function FindCall(tools: seq<Tool>, callId: string): (i: nat)
    ensures i <= |tools|
    ensures i < |tools| ==> tools[i].callId == callId
    ensures forall j :: 0 <= j < i ==> tools[j].callId != callId
  {
    if tools == [] || tools[0].callId == callId then 0
    else
      var rest := FindCall(tools[1..], callId);
      assert forall j :: 1 <= j < |tools| ==> tools[j] == tools[1..][j - 1];
      rest + 1
  }

  function FindOutput(tools: seq<Tool>, outputIndex: int): (i: nat)
    ensures i <= |tools|
    ensures i < |tools| ==> tools[i].outputIndex == Some(outputIndex)
    ensures forall j :: 0 <= j < i ==> tools[j].outputIndex != Some(outputIndex)
  {
    if tools == [] || tools[0].outputIndex == Some(outputIndex) then 0
    else
      var rest := FindOutput(tools[1..], outputIndex);
      assert forall j :: 1 <= j < |tools| ==> tools[j] == tools[1..][j - 1];
      rest + 1
  }

  /** How an event names its tool call. */
  datatype Label = Label(outputIndex: Option<int>, callId: Option<string>, name: Option<string>)

  /** By call id first, then by output index; unknown calls go to the end. */
  function Located(tools: seq<Tool>, l: Label): (i: nat)
    ensures i <= |tools|
  {
    if l.callId.Some? && FindCall(tools, l.callId.value) < |tools| then FindCall(tools, l.callId.value)
    else if l.outputIndex.Some? then FindOutput(tools, l.outputIndex.value)
    else |tools|
  }

  /** The name given to a call that arrived without an id. */
  function ProxyId(index: nat): string {
    "call_proxy_" + Text.Decimal(index)
  }

  function Relabelled(t: Tool, l: Label, foundByCall: bool): Tool {
    t.(outputIndex := if foundByCall && l.outputIndex.Some? then l.outputIndex else t.outputIndex,
       callId := if !foundByCall then l.callId.UnwrapOr(t.callId) else t.callId,
       name := l.name.UnwrapOr(t.name))
  }

  function Ensured(tools: seq<Tool>, l: Label): (r: seq<Tool>)
    ensures |r| == if Located(tools, l) < |tools| then |tools| else |tools| + 1
  {
    var i := Located(tools, l);
    if i < |tools| then
      tools[i := Relabelled(tools[i], l, l.callId.Some? && FindCall(tools, l.callId.value) < |tools|)]
    else tools + [Tool(l.outputIndex, l.callId.UnwrapOr(ProxyId(i)), l.name.UnwrapOr("tool"), "", false)]
  }

  // ---- Arguments ---------------------------------------------------------------------------------------------

  /** What is stored, and what of it is still to be sent. */
  datatype Argued = Argued(stored: string, emitted: string)

  /** A delta is appended and sent; a final value replaces, and only what it adds is sent. */
  function Argue(stored: string, text: string, final: bool): Argued {
    if text == "" then Argued(stored, "")
    else if !final then Argued(stored + text, text)
    else Argued(text, if stored <= text then text[|stored|..] else text)
  }

  // ---- One event ----------------------------------------------------------------------------------------------

  function Say(a: Adapter, d: Delta): Chunk {
    Chunk(a.chatId, a.model, d)
  }

  function RoleChunks(a: Adapter): seq<Chunk> {
    if a.emittedRole then [] else [Say(a, Role)]
  }

  function OnCreated(a: Adapter, v: Value): Translation {
    var response := Get(v, "response");
    var named := a.(
      chatId := if response.Some? then StringAt(response.value, "id").UnwrapOr(a.chatId) else a.chatId,
      model := if response.Some? then StringAt(response.value, "model").UnwrapOr(a.model) else a.model);
    Translation(named.(emittedRole := true), RoleChunks(named))
  }

  function Speak(a: Adapter, text: string): Translation {
    if text == "" then Translation(a, [])
    else Translation(a.(emittedRole := true, sawText := true), RoleChunks(a) + [Say(a, Content(text))])
  }

  function OnTextDelta(a: Adapter, v: Value): Translation {
    var delta := StringAt(v, "delta").UnwrapOr("");
    Translation(a.(emittedRole := true, sawText := a.sawText || delta != ""),
                RoleChunks(a) + if delta == "" then [] else [Say(a, Content(delta))])
  }

  function LabelOf(holder: Value, v: Value): Label {
    Label(AsI64(Get(v, "output_index")), StringAt(holder, "call_id"), StringAt(holder, "name"))
  }

  /** The call is found or entered, announced if it was not, and given its arguments. */
  function OnTool(a: Adapter, l: Label, text: string, final: bool): Translation {
    var tools, i := Ensured(a.tools, l), Located(a.tools, l);
    var t := tools[i];
    var argued := Argue(t.arguments, text, final);
    Translation(
      a.(emittedRole := true, sawTool := true, tools := tools[i := t.(announced := true, arguments := argued.stored)]),
      RoleChunks(a)
      + (if t.announced then [] else [Say(a, OpenTool(i, t.callId, t.name, ""))])
      + (if argued.emitted == "" then [] else [Say(a, ToolArguments(i, argued.emitted))]))
  }

  /** An added call is announced with whatever arguments are stored; it brings none of its own. */
  function OnToolAdded(a: Adapter, l: Label): Translation {
    var tools, i := Ensured(a.tools, l), Located(a.tools, l);
    var t := tools[i];
    Translation(
      a.(emittedRole := true, sawTool := true, tools := tools[i := t.(announced := true)]),
      RoleChunks(a) + if t.announced then [] else [Say(a, OpenTool(i, t.callId, t.name, t.arguments))])
  }

  function ArgumentText(v: Value): string {
    var delta := StringAt(v, "delta");
    if delta.Some? then delta.value else StringAt(v, "arguments").UnwrapOr("")
  }

  function OnItemAdded(a: Adapter, v: Value): Translation {
    var item := Get(v, "item");
    if item.None? || !IsCall(item.value) then Translation(a, []) else OnToolAdded(a, LabelOf(item.value, v))
  }

  function OnItemDone(a: Adapter, v: Value): Translation {
    var item := Get(v, "item");
    if item.None? then Translation(a, [])
    else if IsCall(item.value) then
      OnTool(a, LabelOf(item.value, v), StringAt(item.value, "arguments").UnwrapOr(""), true)
    else if IsMessage(item.value) && !a.sawText then Speak(a, ContentText(item.value))
    else Translation(a, [])
  }

  predicate IsMessage(item: Value) {
    StringAt(item, "type") == Some("message")
  }

  function OnCompleted(a: Adapter, v: Value, w: Wordlist): Translation {
    var spoken := if a.sawText then Translation(a, []) else Speak(a, ResponseText(Root(v)));
    var a1 := spoken.adapter;
    Translation(a1.(finished := true), spoken.chunks + [Say(a1, Finish(FinishOf(Root(v), a1.sawTool, w))), DoneMark])
  }

  function OnFailed(a: Adapter, v: Value, w: Wordlist): Translation {
    if IsFiltered(Root(v), w) then OnTerminal(a, ContentFilter)
    else if IsCutShort(Root(v), w) then OnTerminal(a, LengthLimit)
    else Translation(a.(finished := true), [ErrorMark, DoneMark])
  }

  function OnTerminal(a: Adapter, reason: FinishReason): Translation {
    Translation(a.(finished := true, emittedRole := true), RoleChunks(a) + [Say(a, Finish(reason)), DoneMark])
  }

  function Translate(a: Adapter, e: Event, w: Wordlist): Translation {
    match e.kind
    case Created => OnCreated(a, e.value)
    case TextDelta => OnTextDelta(a, e.value)
    case ItemAdded => OnItemAdded(a, e.value)
    case ArgumentsDelta => OnTool(a, LabelOf(e.value, e.value), ArgumentText(e.value), false)
    case ArgumentsDone => OnTool(a, LabelOf(e.value, e.value), ArgumentText(e.value), true)
    case ItemDone => OnItemDone(a, e.value)
    case Completed => OnCompleted(a, e.value, w)
    case Failed => OnFailed(a, e.value, w)
    case Other => Translation(a, [])
  }

  function TranslateAll(a: Adapter, es: seq<Event>, w: Wordlist): Translation
    decreases |es|
  {
    if es == [] then Translation(a, [])
    else
      var first := Translate(a, es[0], w);
      var rest := TranslateAll(first.adapter, es[1..], w);
      Translation(rest.adapter, first.chunks + rest.chunks)
  }

  // ---- The adapter as it runs ---------------------------------------------------------------------------------

  class ChatStreamAdapter {
    var chatId: string
    var model: string
    var emittedRole: bool
    var sawText: bool
    var sawTool: bool
    var finished: bool
    var tools: seq<Tool>

    function Snapshot(): Adapter
      reads this
    {
      Adapter(chatId, model, emittedRole, sawText, sawTool, finished, tools)
    }

    constructor (id: string, fallbackModel: string)
      ensures Snapshot() == Fresh(id, fallbackModel)
    {
      chatId, model := id, fallbackModel;
      emittedRole, sawText, sawTool, finished, tools := false, false, false, false, [];
    }

    method EnsureToolCall(l: Label) returns (index: nat)
      modifies this`tools
      ensures index == Located(old(tools), l) && tools == Ensured(old(tools), l)
    {
      if l.callId.Some? {
        index := FindCall(tools, l.callId.value);
        if index < |tools| {
          if l.outputIndex.Some? {
            tools := tools[index := tools[index].(outputIndex := l.outputIndex)];
          }
          if l.name.Some? {
            tools := tools[index := tools[index].(name := l.name.value)];
          }
          return;
        }
      }
      if l.outputIndex.Some? {
        index := FindOutput(tools, l.outputIndex.value);
        if index < |tools| {
          if l.callId.Some? {
            tools := tools[index := tools[index].(callId := l.callId.value)];
          }
          if l.name.Some? {
            tools := tools[index := tools[index].(name := l.name.value)];
          }
          return;
        }
      }
      index := |tools|;
      tools := tools + [Tool(l.outputIndex, l.callId.UnwrapOr(ProxyId(index)), l.name.UnwrapOr("tool"), "", false)];
    }

    method EnsureRole() returns (chunks: seq<Chunk>)
      modifies this`emittedRole
      ensures emittedRole && chunks == RoleChunks(old(Snapshot()))
    {
      if emittedRole {
        return [];
      }
      emittedRole := true;
      chunks := [Chunk(chatId, model, Role)];
    }

    method TranslateTool(l: Label, text: string, final: bool) returns (chunks: seq<Chunk>)
      modifies this
      ensures Translation(Snapshot(), chunks) == OnTool(old(Snapshot()), l, text, final)
    {
      sawTool := true;
      chunks := EnsureRole();
      var index := EnsureToolCall(l);
      var t := tools[index];
      if !t.announced {
        chunks := chunks + [Chunk(chatId, model, OpenTool(index, t.callId, t.name, ""))];
      }
      var emitted, stored := "", t.arguments;
      if text != "" {
        emitted := if final && stored <= text then text[|stored|..] else text;
        stored := if final then text else stored + text;
      }
      tools := tools[index := t.(announced := true, arguments := stored)];
      if emitted != "" {
        chunks := chunks + [Chunk(chatId, model, ToolArguments(index, emitted))];
      }
    }

    method TranslateAdded(l: Label) returns (chunks: seq<Chunk>)
      modifies this
      ensures Translation(Snapshot(), chunks) == OnToolAdded(old(Snapshot()), l)
    {
      sawTool := true;
      chunks := EnsureRole();
      var index := EnsureToolCall(l);
      if !tools[index].announced {
        var t := tools[index];
        tools := tools[index := t.(announced := true)];
        chunks := chunks + [Chunk(chatId, model, OpenTool(index, t.callId, t.name, t.arguments))];
      }
    }

    method TranslateText(text: string) returns (chunks: seq<Chunk>)
      modifies this`emittedRole, this`sawText
      ensures Translation(Snapshot(), chunks) == Speak(old(Snapshot()), text)
    {
      if text == "" {
        return [];
      }
      sawText := true;
      chunks := EnsureRole();
      chunks := chunks + [Chunk(chatId, model, Content(text))];
    }

    method TranslateFailure(v: Value, w: Wordlist) returns (chunks: seq<Chunk>)
      modifies this
      ensures Translation(Snapshot(), chunks) == OnFailed(old(Snapshot()), v, w)
    {
      var response := Root(v);
      finished := true;
      if IsFiltered(response, w) || IsCutShort(response, w) {
        var reason := if IsFiltered(response, w) then ContentFilter else LengthLimit;
        chunks := EnsureRole();
        chunks := chunks + [Chunk(chatId, model, Finish(reason)), DoneMark];
      } else {
        chunks := [ErrorMark, DoneMark];
      }
    }

    /** One record in, the chunks it stands for out. */
    method TranslateRecord(e: Event, w: Wordlist) returns (chunks: seq<Chunk>)
      modifies this
      ensures Translation(Snapshot(), chunks) == Translate(old(Snapshot()), e, w)
    {
      var v := e.value;
      var item := Get(v, "item");
      chunks := [];
      match e.kind {
        case Created =>
          var response := Get(v, "response");
          if response.Some? {
            chatId := StringAt(response.value, "id").UnwrapOr(chatId);
            model := StringAt(response.value, "model").UnwrapOr(model);
          }
          chunks := EnsureRole();
        case TextDelta =>
          var delta := StringAt(v, "delta").UnwrapOr("");
          chunks := EnsureRole();
          if delta != "" {
            sawText := true;
            chunks := chunks + [Chunk(chatId, model, Content(delta))];
          }
        case ItemAdded =>
          if item.Some? && IsCall(item.value) {
            chunks := TranslateAdded(LabelOf(item.value, v));
          }
        case ArgumentsDelta => chunks := TranslateTool(LabelOf(v, v), ArgumentText(v), false);
        case ArgumentsDone => chunks := TranslateTool(LabelOf(v, v), ArgumentText(v), true);
        case ItemDone =>
          if item.Some? && IsCall(item.value) {
            chunks := TranslateTool(LabelOf(item.value, v), StringAt(item.value, "arguments").UnwrapOr(""), true);
          } else if item.Some? && IsMessage(item.value) && !sawText {
            chunks := TranslateText(ContentText(item.value));
          }
        case Completed =>
          if !sawText {
            chunks := TranslateText(ResponseText(Root(v)));
          }
          finished := true;
          chunks := chunks + [Chunk(chatId, model, Finish(FinishOf(Root(v), sawTool, w))), DoneMark];
        case Failed => chunks := TranslateFailure(v, w);
        case Other =>
      }
    }
  }
}
