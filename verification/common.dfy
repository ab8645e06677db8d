/** Identifiers, failure-carrying results and the numeric helpers that the
    storefront's JavaScript takes from `Math` (round half up, ceiling). */
module Common {

  /** Database identifiers are compared through their string form
      (`toString() === id`), so the model keeps them as strings. */
  type ProductId = string
  type UserId = string
  type OrderId = string

  datatype Option<+T> = None | Some(value: T)

  /** The failures the route handlers answer with, one per message. */
  datatype Error =
    | ProductNotFound     // 'Product not found'
    | InsufficientStock   // 'Insufficient stock'
    | CartNotFound        // 'Cart not found'
    | ItemNotFound        // 'Item not found in cart'
    | AlreadyReviewed     // 'Product already reviewed'
    | OrderNotFound       // 'Order not found'
    | NotAuthorized       // 'Not authorized'
    | ServerError         // an exception caught by the handler's catch block

  datatype Result<+T> = Ok(value: T) | Err(error: Error)

  function Min(a: int, b: int): int {
    if a <= b then a else b
  }

  function Max(a: int, b: int): int {
    if a >= b then a else b
  }

  /** `Math.round`: the nearest integer, halves rounded up. */
  function Round(x: real): (r: int)
    ensures x - 0.5 < r as real <= x + 0.5
  {
    (x + 0.5).Floor
  }

  /** `Math.ceil`: the least integer not below `x`. */
  function Ceil(x: real): (r: int)
    ensures x <= r as real < x + 1.0
  {
    -((-x).Floor)
  }

  lemma RoundMonotone(x: real, y: real)
    requires x <= y
    ensures Round(x) <= Round(y)
  {
  }

  /** Rounding leaves a whole number where it is. */
  lemma RoundWhole(n: int)
    ensures Round(n as real) == n
  {
  }
}
