/** The records the gateway keeps, publishes and replicates. */
module Models {
  import opened Prelude
  import Json

  type AccountId = string
  type PrincipalId = string
  type ThreadId = string
  type TenantId = string

  datatype RouteMode = Direct | Warp

  datatype Tenant = Tenant(id: TenantId, slug: string)

  datatype ApiKey = ApiKey(token: string, tenantId: TenantId)

  datatype Signals = Signals(
    quotaHeadroom: real, quotaHeadroom5h: real, quotaHeadroom7d: real,
    healthScore: real, egressStability: real, fairnessBias: real,
    inflight: nat, capacity: nat)

  datatype Account = Account(
    id: AccountId, tenantId: TenantId, displayLabel: string, models: seq<string>,
    currentMode: RouteMode, signals: Signals)

  datatype ManagedStatus = Active | Unavailable | Banned

  /** `managed` is absent for a credential the gateway does not refresh itself. */
  datatype Credential = Credential(accountId: AccountId, baseUrl: string, bearerToken: string,
                                   managed: Option<ManagedStatus>)

  datatype RouteState = RouteState(
    accountId: AccountId,
    routeMode: RouteMode,
    directCfStreak: nat,
    warpCfStreak: nat,
    cooldownLevel: nat,
    cooldownUntil: Option<Time>,
    cooldownReason: Option<string>,
    warpEnteredAt: Option<Time>,
    lastCfAt: Option<Time>,
    successStreak: nat,
    lastSuccessAt: Option<Time>)

  datatype Lease = Lease(
    principalId: PrincipalId, tenantId: TenantId, accountId: AccountId, accountLabel: string,
    model: string, reasoningEffort: Option<string>, routeMode: RouteMode,
    generation: nat, activeSubagents: nat, createdAt: Time, lastUsedAt: Time)

  datatype Incident = Incident(
    id: string, accountId: AccountId, accountLabel: string, routeMode: RouteMode,
    severity: string, happenedAt: Time, cooldownLevel: nat)

  datatype RequestLog = RequestLog(id: string, inputTokens: nat, cachedInputTokens: nat)

  datatype CacheMetrics = CacheMetrics(
    cachedTokens: nat, replayTokens: nat, staticPrefixTokens: nat,
    requestHitRatio: real, tokenHitRatio: real, prefixHitRatio: real, warmupRoi: real)

  datatype PendingTurn = PendingTurn(
    generation: nat, requestSummary: string, requestInputItems: seq<Json.Value>, createdAt: Time)

  datatype TurnOutcome = Pending | Success | Failed | Queue | Interrupted

  datatype Turn = Turn(
    generation: nat,
    requestSummary: string,
    responseSummary: Option<string>,
    requestInputItems: seq<Json.Value>,
    outcome: TurnOutcome,
    responseId: Option<string>,
    responseOutputItems: seq<Json.Value>,
    toolReplaySafe: bool,
    syntheticKind: Option<string>,
    createdAt: Time)

  datatype Context = Context(
    principalId: PrincipalId, model: string, workflowSpine: string,
    pendingTurn: Option<PendingTurn>, turns: seq<Turn>, updatedAt: Option<Time>)

  datatype Thread = Thread(
    threadId: ThreadId, tenantId: TenantId, principalId: PrincipalId,
    rootThreadId: ThreadId, parentThreadId: Option<ThreadId>,
    title: Option<string>, model: Option<string>, source: string, status: string,
    compactionSummary: Option<string>, lastCompactionAt: Option<Time>,
    createdAt: Time, updatedAt: Time)

  datatype Edge = Edge(parent: ThreadId, child: ThreadId, relation: string, createdAt: Time)
}
