/**
 The tool-calling NIM harness: before every turn it reserves the worst case of the next
 request against its budget. Amounts are USD.
 */
module NimHarness {
  import opened Common
  import opened Delegation

  const CONTEXT_LIMIT := 512000
  const FRAMING := 4096
  const MILLION := 1000000.0

  /** USD per million tokens, and the completion limit sent with every request. */
  datatype Rates = Rates(input: real, output: real, maxTokens: nat)

  predicate Valid(r: Rates) {
    r.input >= 0.0 && r.output >= 0.0
  }

  /** One turn: the encoded request size, the reply's usage if it reports one, and whether it ends the run. */
  datatype Turn = Turn(bytes: nat, usage: Option<(nat, nat)>, last: bool)

  function Reserve(r: Rates, bytes: nat): real {
    Cost(r, bytes + FRAMING, r.maxTokens)
  }

  function Cost(r: Rates, tokensIn: nat, tokensOut: nat): real {
    (r.input * tokensIn as real + r.output * tokensOut as real) / MILLION
  }

  /** A reply within what was reserved for its request. */
  predicate Honest(r: Rates, t: Turn) {
    t.usage.Some? ==> t.usage.value.0 <= t.bytes + 4096 && t.usage.value.1 <= r.maxTokens
  }

  lemma HonestCost(r: Rates, t: Turn)
    requires Valid(r) && t.usage.Some? && Honest(r, t)
    ensures 0.0 <= Cost(r, t.usage.value.0, t.usage.value.1) <= Reserve(r, t.bytes)
  {
    CostGrows(r, t.usage.value.0, t.usage.value.1, t.bytes + FRAMING, r.maxTokens);
  }

  lemma CostGrows(r: Rates, a: nat, b: nat, c: nat, d: nat)
    requires Valid(r) && a <= c && b <= d
    ensures 0.0 <= Cost(r, a, b) <= Cost(r, c, d)
  {
    Times(r.input, a as real, c as real);
    Times(r.output, b as real, d as real);
    Scaled(r.input * a as real, r.output * b as real, r.input * c as real, r.output * d as real);
  }

  lemma SumNext(reports: seq<real>, x: real)
    ensures Sum(reports + [x]) == Sum(reports) + x
    ensures (reports + [x])[..|reports|] == reports
    ensures Sum([]) == 0.0
  {
    SumAppend(reports, [x]);
    assert [x][..0] == [];
  }

  lemma Scaled(a: real, b: real, c: real, d: real)
    requires 0.0 <= a <= c && 0.0 <= b <= d
    ensures 0.0 <= (a + b) / MILLION <= (c + d) / MILLION
  {
  }

  lemma Times(rate: real, a: real, b: real)
    requires rate >= 0.0 && 0.0 <= a <= b
    ensures 0.0 <= rate * a <= rate * b
  {
  }

  /** What a turn reports; a reply without valid usage reports no cost. */
  function Reported(r: Rates, t: Turn): real {
    if t.usage.Some? then (r.input * t.usage.value.0 as real + r.output * t.usage.value.1 as real) / 1000000.0 else 0.0
  }

  /** The next request may be sent: it is small enough and its reservation fits what is left. */
  predicate Covered(r: Rates, budget: real, spent: real, t: Turn) {
    t.bytes <= 512000
    && spent + (r.input * (t.bytes + 4096) as real + r.output * r.maxTokens as real) / 1000000.0 <= budget
  }

  lemma CostIs(r: Rates, budget: real, spent: real, t: Turn)
    ensures Covered(r, budget, spent, t) <==> t.bytes <= CONTEXT_LIMIT && spent + Reserve(r, t.bytes) <= budget
    ensures Reported(r, t) == if t.usage.Some? then Cost(r, t.usage.value.0, t.usage.value.1) else 0.0
  {
  }

  /** Turn i was requested under its reservation and its report is what its usage costs. */
  ghost predicate Paid(r: Rates, budget: real, turns: seq<Turn>, reports: seq<real>, i: nat)
    requires i < |reports| <= |turns|
  {
    Covered(r, budget, Sum(reports[..i]), turns[i]) && reports[i] == Reported(r, turns[i])
  }

  /** A reply after which nothing more is requested. */
  predicate Ends(t: Turn, budget: real, spent: real) {
    t.usage.None? || t.last || spent > budget
  }

  /** Why the loop stops where it does: out of turns, refused, or ended by the last reply. */
  ghost predicate Stopped(r: Rates, budget: real, turns: seq<Turn>, limit: nat, reports: seq<real>) {
    var n := |reports|;
    && n <= |turns|
    && (n == limit || n == |turns| || !Covered(r, budget, Sum(reports), turns[n])
        || (n > 0 && Ends(turns[n - 1], budget, Sum(reports))))
    && forall i | 0 <= i < n - 1 :: turns[i].usage.Some? && !turns[i].last
  }

  /**
   The turn loop, as the usage reports it yields. Every request is made under a reservation that
   fits what is left. Honest replies never take the reported total past the budget; for any
   replies, all but the last report fit it.
   */
  method Run(r: Rates, budget: real, turns: seq<Turn>, limit: nat)
    returns (reports: seq<real>, completed: bool)
    requires Valid(r) && budget >= 0.0
    ensures |reports| <= limit && Stopped(r, budget, turns, limit, reports)
    ensures forall i | 0 <= i < |reports| :: Paid(r, budget, turns, reports, i)
    ensures forall i | 0 <= i < |reports| :: reports[i] >= 0.0
    ensures (forall i | 0 <= i < |turns| :: Honest(r, turns[i])) ==> Sum(reports) <= budget
    ensures reports != [] ==> Sum(reports[..|reports| - 1]) <= budget
    ensures completed <==> |reports| > 0 && turns[|reports| - 1].usage.Some? && turns[|reports| - 1].last && Sum(reports) <= budget
  {
    hide Cost, Sum, Covered, Reported, Reserve;
    SumNext([], 0.0);
    reports, completed := [], false;
    var spent := 0.0;
    var i := 0;
    while i < |turns| && i < limit
      invariant i <= |turns| && i <= limit && |reports| == i
      invariant spent == Sum(reports) && 0.0 <= spent <= budget
      invariant forall k | 0 <= k < |reports| :: reports[k] >= 0.0
      invariant forall k | 0 <= k < |reports| :: Paid(r, budget, turns, reports, k) && turns[k].usage.Some? && !turns[k].last
      invariant reports != [] ==> Sum(reports[..|reports| - 1]) <= budget
    {
      var t := turns[i];
      CostIs(r, budget, spent, t);
      if t.bytes > CONTEXT_LIMIT || spent + Reserve(r, t.bytes) > budget {
        return;
      }
      if t.usage.None? {
        // The usage event carries no cost, and the run fails right after it.
        SumNext(reports, 0.0);
        PaidNext(r, budget, turns, reports, 0.0);
        reports := reports + [0.0];
        return;
      }
      var cost := Cost(r, t.usage.value.0, t.usage.value.1);
      CostGrows(r, t.usage.value.0, t.usage.value.1, t.usage.value.0, t.usage.value.1);
      if Honest(r, t) {
        HonestCost(r, t);
      }
      SumNext(reports, cost);
      PaidNext(r, budget, turns, reports, cost);
      reports := reports + [cost];
      spent := spent + cost;
      if spent > budget {
        return;
      }
      if t.last {
        completed := true;
        return;
      }
      i := i + 1;
    }
  }

  lemma PaidNext(r: Rates, budget: real, turns: seq<Turn>, reports: seq<real>, x: real)
    requires |reports| < |turns| && forall k | 0 <= k < |reports| :: Paid(r, budget, turns, reports, k)
    requires Covered(r, budget, Sum(reports), turns[|reports|]) && x == Reported(r, turns[|reports|])
    ensures forall k | 0 <= k <= |reports| :: Paid(r, budget, turns, reports + [x], k)
  {
    hide Sum, Covered, Reported;
    forall k | 0 <= k <= |reports|
      ensures Paid(r, budget, turns, reports + [x], k)
    {
      assert (reports + [x])[..k] == reports[..k];
      if k < |reports| {
        assert Paid(r, budget, turns, reports, k);
      } else {
        assert reports[..k] == reports;
      }
    }
  }

  /**
   The whole chain: with honest replies the lead's passes and every specialist fit the shares
   they are given, so the run never takes its thread past the budget, rounding included.
   */
  method RunThread(t: Thread, r: Rates, first: seq<Turn>, second: seq<Turn>, specialists: seq<seq<Turn>>, revise: bool, ended: bool)
    returns (t': Thread, ghost reports: Reports)
    requires Valid(r)
    requires forall i | 0 <= i < |first| :: Honest(r, first[i])
    requires forall i | 0 <= i < |second| :: Honest(r, second[i])
    requires forall i, j | 0 <= i < |specialists| && 0 <= j < |specialists[i]| :: Honest(r, specialists[i][j])
    ensures reports.revise == revise && |reports.specialists| == |specialists|
    ensures Stopped(r, Half(t), first, 16, reports.first)
    ensures Stopped(r, Half(t) - Sum(reports.first), second, 16, reports.second)
    ensures forall i | 0 <= i < |specialists| :: Stopped(r, Half(t) / 3.0, specialists[i], 8, reports.specialists[i])
    ensures t.budget - t.spent >= 2500 && !ended ==> exists units, failure :: Costs(t, reports, units, failure) && t'.spent == t.spent + units
    ensures t.spent <= t'.spent
    ensures t.spent <= t.budget ==> t'.spent <= t'.budget == t.budget
  {
    var half := Half(t);
    var reported := [];
    for i := 0 to |specialists|
      invariant |reported| == i
      invariant forall k | 0 <= k < i :: Stopped(r, Half(t) / 3.0, specialists[k], 8, reported[k])
      invariant forall k | 0 <= k < i :: Sum(reported[k]) <= Allocation(half) && forall j | 0 <= j < |reported[k]| :: reported[k][j] >= 0.0
    {
      var spent, _ := Run(r, Allocation(half), specialists[i], 8);
      reported := reported + [spent];
    }
    var lead, _ := Run(r, half, first, 16);
    var revision, _ := Run(r, half - Sum(lead), second, 16);
    var all := Reports(lead, revise, revision, reported);
    reports := all;
    assert Fits(t, all);
    FittingRunStaysWithinBudget(t, all);
    hide Stopped, Costs;
    var charged, failure := ExecuteRun(t, all, ended);
    t' := charged;
  }
}
