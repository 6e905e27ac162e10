/**
 The −/+ quantity buttons. The cart page sends these values to the cart
 engine and the detail page stores them in its own quantity field.
 */
module Stepper {

  /** The "−" button: one less, but never below 1 (`Math.max(1, q - 1)`). */
  function StepDown(q: int): (r: int)
    ensures r >= 1
    ensures q >= 2 ==> r == q - 1
    ensures q <= 2 ==> r == 1
  {
    if q - 1 >= 1 then q - 1 else 1
  }

  /** The "+" button: one more, without an upper bound. */
  function StepUp(q: int): (r: int)
    ensures r == q + 1
    ensures q >= 0 ==> r >= 1
  {
    q + 1
  }

  /** On quantities of at least 1 the two buttons undo each other, except that − stops at 1. */
  lemma StepRoundTrip(q: int)
    requires q >= 1
    ensures StepDown(StepUp(q)) == q
    ensures q >= 2 ==> StepUp(StepDown(q)) == q
    ensures StepDown(q) <= q < StepUp(q)
  {
  }
}
