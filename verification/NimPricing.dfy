/** The NIM reservation made before a private-chat request, and the cost of its reply. */
module NimPricing {
  import opened Common

  datatype Refusal = Unavailable | BudgetExceeded

  /** Configured USD rates per million tokens, when present, and the completion limit. */
  datatype Pricing = Pricing(input: Option<real>, output: Option<real>, maxTokens: int)

  const FRAMING := 1024
  const MILLION := 1000000.0
  const GRID := 10000.0

  predicate Priced(p: Pricing) {
    p.input.Some? && p.output.Some? && p.input.value >= 0.0 && p.output.value >= 0.0
  }

  /**
   The max_tokens sent with a request of `bytes` encoded message bytes, for a remaining
   budget given in grid units of 0.0001 USD.
   */
  function MaxTokens(p: Pricing, bytes: nat, budget: int): Result<nat, Refusal> {
    if !Priced(p) then Err(Unavailable)
    else
      var remaining := Remaining(p, bytes, budget);
      if remaining <= 0.0 then Err(BudgetExceeded)
      else
        var limit := if p.output.value != 0.0 then Min(p.maxTokens, (remaining * MILLION / p.output.value).Floor)
                     else p.maxTokens;
        if limit < 1 then Err(BudgetExceeded) else Ok(limit)
  }

  /** USD left for output once the input reservation is taken off. */
  function Remaining(p: Pricing, bytes: nat, budget: int): real
    requires Priced(p)
  {
    budget as real / GRID - p.input.value * (bytes + FRAMING) as real / MILLION
  }

  function Min(a: int, b: int): int {
    if a <= b then a else b
  }

  /** The reported cost of a reply, in USD. */
  function Cost(p: Pricing, tokensIn: nat, tokensOut: nat): (usd: real)
    requires Priced(p)
    ensures usd >= 0.0
  {
    MulNonNegative(p.input.value, tokensIn as real);
    MulNonNegative(p.output.value, tokensOut as real);
    (p.input.value * tokensIn as real + p.output.value * tokensOut as real) / MILLION
  }

  lemma MulNonNegative(a: real, b: real)
    requires a >= 0.0 && b >= 0.0
    ensures a * b >= 0.0
  {
  }

  lemma MulMonotone(rate: real, a: real, b: real)
    requires rate >= 0.0 && a <= b
    ensures rate * a <= rate * b
  {
    MulNonNegative(rate, b - a);
    assert rate * b == rate * a + rate * (b - a);
  }

  lemma FloorQuotient(total: real, rate: real, n: int)
    requires rate > 0.0 && n <= (total / rate).Floor
    ensures rate * n as real <= total
  {
    MulMonotone(rate, n as real, total / rate);
    assert rate * (total / rate) == total;
  }

  /** A reply that stays within what was reserved for it. */
  predicate WithinReservation(bytes: nat, limit: nat, tokensIn: nat, tokensOut: nat) {
    tokensIn <= bytes + FRAMING && tokensOut <= limit
  }

  /** Reserving first means paying within budget: the cost of such a reply never passes it. */
  lemma ReservedReplyFitsBudget(p: Pricing, bytes: nat, budget: int, limit: nat, tokensIn: nat, tokensOut: nat)
    requires MaxTokens(p, bytes, budget) == Ok(limit)
    requires tokensIn <= bytes + 1024 && tokensOut <= limit
    ensures Priced(p) && limit <= p.maxTokens
    ensures Cost(p, tokensIn, tokensOut) == (p.input.value * tokensIn as real + p.output.value * tokensOut as real) / 1000000.0
    ensures Cost(p, tokensIn, tokensOut) * 10000.0 <= budget as real
  {
    hide Cost;
    var inRate, outRate := p.input.value, p.output.value;
    MulMonotone(inRate, tokensIn as real, (bytes + FRAMING) as real);
    MulMonotone(outRate, tokensOut as real, limit as real);
    LimitIsPaid(p, bytes, budget, limit);
    Balance(inRate * tokensIn as real, outRate * tokensOut as real, inRate * (bytes + FRAMING) as real, budget);
    CostIs(p, tokensIn, tokensOut);
  }

  /** What is left pays for as many output tokens as the request allows. */
  lemma LimitIsPaid(p: Pricing, bytes: nat, budget: int, limit: nat)
    requires MaxTokens(p, bytes, budget) == Ok(limit)
    ensures p.output.value * limit as real <= Remaining(p, bytes, budget) * MILLION
  {
    hide Remaining;
    if p.output.value != 0.0 {
      FloorQuotient(Remaining(p, bytes, budget) * MILLION, p.output.value, limit);
    }
  }

  lemma CostIs(p: Pricing, tokensIn: nat, tokensOut: nat)
    requires Priced(p)
    ensures Cost(p, tokensIn, tokensOut) * MILLION == p.input.value * tokensIn as real + p.output.value * tokensOut as real
  {
  }

  /** Input within its reservation and output within the rest come to at most the budget. */
  lemma Balance(input: real, output: real, reserved: real, budget: int)
    requires input <= reserved && output <= (budget as real / GRID - reserved / MILLION) * MILLION
    ensures (input + output) * GRID <= budget as real * MILLION
  {
  }

  /**
   When no request may be sent: without usable rates, or when the input reservation uses up the
   budget or leaves less than one output token costs, or the configured limit is below one.
   */
  lemma RefusedIff(p: Pricing, bytes: nat, budget: int)
    ensures MaxTokens(p, bytes, budget) == Err(Unavailable)
            <==> p.input.None? || p.output.None? || p.input.value < 0.0 || p.output.value < 0.0
    ensures Priced(p) ==>
              var left := budget as real / 10000.0 - p.input.value * (bytes + 1024) as real / 1000000.0;
              MaxTokens(p, bytes, budget) == Err(BudgetExceeded)
              <==> left <= 0.0 || p.maxTokens < 1 || p.output.value > left * 1000000.0
  {
    if Priced(p) && Remaining(p, bytes, budget) > 0.0 && p.output.value > 0.0 {
      OneFits(Remaining(p, bytes, budget) * MILLION, p.output.value);
    }
  }

  lemma OneFits(total: real, rate: real)
    requires rate > 0.0
    ensures (total / rate).Floor >= 1 <==> rate <= total
  {
    assert rate * (total / rate) == total;
    if rate <= total {
      StrictQuotientIf(total, rate);
    }
  }

  lemma StrictQuotientIf(total: real, rate: real)
    requires rate > 0.0 && rate <= total
    ensures total / rate >= 1.0
  {
    if total / rate < 1.0 {
      StrictQuotient(total, rate, 1.0);
    }
  }

  /**
   The limit is exact. When the price decides it, a reply that uses the whole input
   reservation and one output token more than the limit passes the budget.
   */
  lemma OneTokenOverPassesBudget(p: Pricing, bytes: nat, budget: int, limit: nat)
    requires MaxTokens(p, bytes, budget) == Ok(limit)
    requires p.output.value > 0.0 && limit < p.maxTokens
    ensures Cost(p, bytes + 1024, limit + 1) * 10000.0 > budget as real
  {
    var total := Remaining(p, bytes, budget) * MILLION;
    assert limit == (total / p.output.value).Floor;
    StrictQuotient(total, p.output.value, (limit + 1) as real);
  }

  lemma StrictQuotient(total: real, rate: real, n: real)
    requires rate > 0.0 && total / rate < n
    ensures total < rate * n
  {
    assert rate * (total / rate) == total;
  }
}
