/** How an awaited call on a store, the broker or a handler ends. */
module Awaits {
  /** It returns, or it throws, with or without having taken effect. */
  datatype Await = Returns | Throws(applied: bool)

  predicate TookEffect(await: Await) {
    await.Returns? || await.applied
  }
}
