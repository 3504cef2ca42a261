/**
 Money in a private chat is stored as NUMERIC(12, 4): whole units of 0.0001 USD.
 Reported costs are exact; they are rounded up to the grid before being charged.
 */
module Money {

  /** ROUND_CEILING onto the grid, for a cost already expressed in grid units. */
  function Ceil(x: real): (n: int)
    ensures x <= n as real < x + 1.0
  {
    -((-x).Floor)
  }

  /**
   Rounding up cannot pass a bound that is itself on the grid, and rounding never
   hides a cost that did pass it.
   */
  lemma CeilAtGridBound(x: real, bound: int)
    ensures Ceil(x) <= bound <==> x <= bound as real
  {
    var n := Ceil(x);
    assert n > bound ==> n as real >= (bound + 1) as real;
  }

  /** A positive cost never rounds away, and a charge is zero only for a zero cost. */
  lemma CeilKeepsPositive(x: real)
    requires x >= 0.0
    ensures Ceil(x) >= 0
    ensures Ceil(x) == 0 <==> x == 0.0
  {
    CeilAtGridBound(x, 0);
    CeilAtGridBound(x, -1);
  }
}
