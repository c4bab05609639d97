/** Error kinds and the transient-or-fatal split the dispatch loops branch on. */
module Errors {

  datatype Kind =
    | Unknown | RateLimit | ServerError | Timeout | Network
    | Auth | Validation | BadRequest | Canceled

  /** A provider error carries a kind; any other error does not. */
  datatype Error =
    | Provider(kind: Kind, provider: string, model: string, msg: string)
    | Plain(msg: string)

  function KindOf(e: Error): Kind {
    if e.Provider? then e.kind else Unknown
  }

  predicate IsTransient(e: Error) {
    e.Provider? && (e.kind.RateLimit? || e.kind.ServerError? || e.kind.Timeout? || e.kind.Network?)
  }
}
