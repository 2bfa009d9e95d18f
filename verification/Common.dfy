/** Identifiers, Option and Result, shared by every service model. */
module Common {

  /** The services key everything by uuid; only equality of ids matters, so a natural stands for one. */
  type ItemId = nat
  type OrderId = nat
  type EventId = nat
  type UserId = nat

  datatype Option<+T> = None | Some(value: T)

  /** The HTTP-level refusals the services answer with. */
  datatype Error = BadRequest | NotFound | Conflict | Forbidden

  datatype Result<+T> = Ok(value: T) | Err(error: Error)

  function Max(a: int, b: int): int {
    if a >= b then a else b
  }

  function Min(a: int, b: int): int {
    if a <= b then a else b
  }
}
