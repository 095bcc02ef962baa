/** How an upstream answer can fail. */
module Upstream {

  datatype FailureKind = Cf | Auth | Quota | RateLimited | Capability | Length | Continuation | Generic

  /** Only these failures are worth another account. */
  predicate RequiresFailover(kind: FailureKind) {
    kind.Cf? || kind.Auth? || kind.Quota? || kind.RateLimited? || kind.Capability?
  }
}
