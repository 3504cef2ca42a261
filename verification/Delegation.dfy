/**
 USD accounting of a case-thread run: half of the remaining budget for the lead, the other
 half in fixed thirds for up to three specialists, reservation before each NIM request, and
 one rounded charge to the thread. Amounts are USD; thread balances are in grid units.
 */
module Delegation {
  import opened Common
  import Money

  const GRID := 10000.0
  const MAX_CHILDREN := 3
  const ADMISSION := 2500

  datatype Failure = BudgetExceeded | Unavailable

  /** The amounts a provider reports, in order; a negative one is an invalid report. */
  function Sum(xs: seq<real>): real {
    if xs == [] then 0.0 else Sum(xs[..|xs| - 1]) + xs[|xs| - 1]
  }

  ghost predicate AtMost(xs: seq<real>, m: real) {
    forall i | 0 <= i < |xs| :: xs[i] <= m
  }

  lemma {:induction false} SumAppend(xs: seq<real>, ys: seq<real>)
    ensures Sum(xs + ys) == Sum(xs) + Sum(ys)
  {
    if ys == [] {
      assert xs + ys == xs;
    } else {
      assert (xs + ys)[..|xs + ys| - 1] == xs + ys[..|ys| - 1];
      SumAppend(xs, ys[..|ys| - 1]);
    }
  }

  // ---------------------------------------------------------------- one metered stream

  /**
   Following a provider's reports against a cap: every valid report counts, and the stream is
   abandoned at the first that is invalid or takes the total past the cap.
   */
  method Meter(reports: seq<real>, start: real, cap: real) returns (total: real, failure: Option<Failure>)
    ensures total == MeteredTotal(reports, start, cap)
    ensures failure == MeteredFailure(reports, start, cap)
  {
    total, failure := start, None;
    var i := 0;
    while i < |reports|
      invariant i <= |reports|
      invariant MeteredTotal(reports, start, cap) == MeteredTotal(reports[i..], total, cap)
      invariant MeteredFailure(reports, start, cap) == MeteredFailure(reports[i..], total, cap)
      invariant failure.None?
    {
      assert reports[i..][1..] == reports[i + 1..];
      if reports[i] < 0.0 {
        return total, Some(Unavailable);
      }
      total := total + reports[i];
      if total > cap {
        return total, Some(BudgetExceeded);
      }
      i := i + 1;
    }
  }

  function MeteredTotal(reports: seq<real>, start: real, cap: real): real {
    if reports == [] || reports[0] < 0.0 then start
    else if start + reports[0] > cap then start + reports[0]
    else MeteredTotal(reports[1..], start + reports[0], cap)
  }

  function MeteredFailure(reports: seq<real>, start: real, cap: real): Option<Failure> {
    if reports == [] then None
    else if reports[0] < 0.0 then Some(Unavailable)
    else if start + reports[0] > cap then Some(BudgetExceeded)
    else MeteredFailure(reports[1..], start + reports[0], cap)
  }

  /** A metered total passes its cap by at most one report, and by nothing if the reports fit. */
  lemma {:induction false} MeteredBound(reports: seq<real>, start: real, cap: real, m: real)
    requires start <= cap && m >= 0.0 && AtMost(reports, m)
    ensures start <= MeteredTotal(reports, start, cap) <= cap + m
    ensures MeteredFailure(reports, start, cap) != Some(BudgetExceeded) ==> MeteredTotal(reports, start, cap) <= cap
  {
    if reports != [] && reports[0] >= 0.0 && start + reports[0] <= cap {
      MeteredBound(reports[1..], start + reports[0], cap, m);
    }
  }

  lemma {:induction false} MeteredFits(reports: seq<real>, start: real, cap: real)
    requires forall i | 0 <= i < |reports| :: reports[i] >= 0.0
    requires start + Sum(reports) <= cap
    ensures MeteredTotal(reports, start, cap) == start + Sum(reports)
    ensures MeteredFailure(reports, start, cap).None?
  {
    if reports != [] {
      assert [reports[0]] + reports[1..] == reports;
      SumAppend([reports[0]], reports[1..]);
      assert [reports[0]][..0] == [];
      SumNonNegative(reports[1..]);
      MeteredFits(reports[1..], start + reports[0], cap);
    }
  }

  lemma {:induction false} SumNonNegative(xs: seq<real>)
    requires forall i | 0 <= i < |xs| :: xs[i] >= 0.0
    ensures Sum(xs) >= 0.0
  {
    if xs != [] {
      SumNonNegative(xs[..|xs| - 1]);
    }
  }

  // ---------------------------------------------------------------- specialists

  datatype Pool = Pool(children: nat, spent: real)

  const NO_CHILDREN := Pool(0, 0.0)

  function Allocation(pool: real): real {
    pool / 3.0
  }

  predicate Admits(p: Pool, pool: real) {
    p.children < MAX_CHILDREN && p.spent < pool && p.spent + Allocation(pool) <= pool
  }

  /** A specialist's own cost starts at zero and is capped by its fixed third. */
  function Delegate(p: Pool, pool: real, reports: seq<real>): Pool {
    if !Admits(p, pool) then p
    else Pool(p.children + 1, p.spent + MeteredTotal(reports, 0.0, Allocation(pool)))
  }

  class DelegationState {
    const workerPool: real
    var children: nat
    var spent: real

    function View(): Pool
      reads this
    {
      Pool(children, spent)
    }

    constructor (workerPool: real)
      ensures this.workerPool == workerPool && View() == NO_CHILDREN
    {
      this.workerPool, children, spent := workerPool, 0, 0.0;
    }

    method RunSpecialist(reports: seq<real>) returns (cost: real, failure: Option<Failure>)
      modifies this
      ensures View() == Delegate(old(View()), workerPool, reports)
      ensures cost == spent - old(spent)
      ensures failure == if Admits(old(View()), workerPool) then MeteredFailure(reports, 0.0, Allocation(workerPool))
                         else Some(BudgetExceeded)
    {
      if children >= MAX_CHILDREN || spent >= workerPool {
        return 0.0, Some(BudgetExceeded);
      }
      var allocation := workerPool / 3.0;
      if spent + allocation > workerPool {
        return 0.0, Some(BudgetExceeded);
      }
      children := children + 1;
      cost, failure := Meter(reports, 0.0, allocation);
      spent := spent + cost;
    }
  }

  /** All specialists of a run, in order. */
  function DelegateAll(pool: real, all: seq<seq<real>>): Pool
    decreases |all|
  {
    if all == [] then NO_CHILDREN else Delegate(DelegateAll(pool, all[..|all| - 1]), pool, all[|all| - 1])
  }

  /**
   Together the specialists never spend more than the pool plus one report, however many are
   asked for and whatever they report.
   */
  lemma {:induction false} PoolBound(pool: real, all: seq<seq<real>>, m: real)
    requires pool >= 0.0 && m >= 0.0 && forall i | 0 <= i < |all| :: AtMost(all[i], m)
    ensures var p := DelegateAll(pool, all); p.children <= MAX_CHILDREN && 0.0 <= p.spent <= pool + m
    decreases |all|
  {
    if all != [] {
      PoolBound(pool, all[..|all| - 1], m);
      MeteredBound(all[|all| - 1], 0.0, Allocation(pool), m);
    }
  }

  /** Specialists whose reports fit their third never exceed the pool at all. */
  lemma {:induction false} PoolFits(pool: real, all: seq<seq<real>>)
    requires pool >= 0.0
    requires forall i | 0 <= i < |all| :: Sum(all[i]) <= Allocation(pool) && forall j | 0 <= j < |all[i]| :: all[i][j] >= 0.0
    ensures 0.0 <= DelegateAll(pool, all).spent <= pool
    decreases |all|
  {
    if all != [] {
      var last := all[|all| - 1];
      PoolFits(pool, all[..|all| - 1]);
      MeteredFits(last, 0.0, Allocation(pool));
      SumNonNegative(last);
    }
  }

  // ---------------------------------------------------------------- the lead and the thread

  datatype Thread = Thread(budget: int, spent: int)

  /** budgets.remaining */
  function Remaining(t: Thread): int {
    if t.budget > t.spent then t.budget - t.spent else 0
  }

  /** Half of the remaining budget, in USD. */
  function Half(t: Thread): real {
    Remaining(t) as real / GRID / 2.0
  }

  /**
   Everything the providers of one run report: the lead's first pass, its single revision
   pass when the first answer failed verification, and each specialist it calls on the way.
   Lead and specialists charge separate counters, so their order among each other is free.
   */
  datatype Reports = Reports(first: seq<real>, revise: bool, second: seq<real>, specialists: seq<seq<real>>)

  /** The lead's cost: no pass starts without budget left, and a failed pass is not followed by another. */
  function LeadCost(half: real, r: Reports): real {
    if half <= 0.0 then 0.0
    else
      var cost := MeteredTotal(r.first, 0.0, half);
      if r.revise && MeteredFailure(r.first, 0.0, half).None? && cost < half then MeteredTotal(r.second, cost, half)
      else cost
  }

  /** How the lead ends: its first failure, or a revision for which nothing is left. */
  function LeadEnds(half: real, r: Reports): Option<Failure> {
    var cost, failure := MeteredTotal(r.first, 0.0, half), MeteredFailure(r.first, 0.0, half);
    if failure.Some? || !r.revise then failure
    else if half - cost <= 0.0 then Some(BudgetExceeded)
    else MeteredFailure(r.second, cost, half)
  }

  /** What the run charges its thread, in grid units: one ceiling over the whole cost. */
  function RunCharge(t: Thread, r: Reports): int {
    Money.Ceil((LeadCost(Half(t), r) + DelegateAll(Half(t), r.specialists).spent) * GRID)
  }

  function Charge(t: Thread, r: Reports): Thread {
    t.(spent := t.spent + RunCharge(t, r))
  }

  ghost predicate AllAtMost(r: Reports, m: real) {
    AtMost(r.first, m) && AtMost(r.second, m) && forall i | 0 <= i < |r.specialists| :: AtMost(r.specialists[i], m)
  }

  lemma LeadBound(half: real, r: Reports, m: real)
    requires half >= 0.0 && m >= 0.0 && AllAtMost(r, m)
    ensures 0.0 <= LeadCost(half, r) <= half + m
  {
    if half > 0.0 {
      MeteredBound(r.first, 0.0, half, m);
      var cost := MeteredTotal(r.first, 0.0, half);
      if cost < half {
        MeteredBound(r.second, cost, half, m);
      }
    }
  }

  /**
   If no single report exceeds m, the run charges its thread less than the remaining budget
   plus 2m plus one rounding unit, over both lead passes and all specialists.
   */
  lemma RunChargeBound(t: Thread, r: Reports, m: real)
    requires m >= 0.0 && AllAtMost(r, m)
    ensures 0 <= RunCharge(t, r)
    ensures RunCharge(t, r) as real < Remaining(t) as real + 2.0 * m * GRID + 1.0
  {
    LeadBound(Half(t), r, m);
    PoolBound(Half(t), r.specialists, m);
    var cost := LeadCost(Half(t), r) + DelegateAll(Half(t), r.specialists).spent;
    Money.CeilKeepsPositive(cost * GRID);
    assert cost <= Half(t) + Half(t) + 2.0 * m;
    assert cost * GRID <= (Half(t) + Half(t) + 2.0 * m) * GRID;
  }

  /** n equal reports, then others. */
  function Repeat(n: nat, x: real, rest: seq<real>): seq<real> {
    if n == 0 then rest else [x] + Repeat(n - 1, x, rest)
  }

  function Times(n: nat, x: real): real {
    if n == 0 then 0.0 else Times(n - 1, x) + x
  }

  lemma {:induction false} TimesIsProduct(n: nat, x: real)
    ensures Times(n, x) == n as real * x
  {
    if n > 0 {
      TimesIsProduct(n - 1, x);
      Distribute((n - 1) as real, x);
    }
  }

  lemma Distribute(a: real, x: real)
    ensures (a + 1.0) * x == a * x + x
  {
  }

  /** Equal reports that fit the cap are all taken. */
  lemma {:induction false} RepeatedReports(n: nat, x: real, rest: seq<real>, start: real, cap: real, m: real)
    requires 0.0 <= x <= m && AtMost(rest, m) && start + Times(n, x) <= cap
    ensures MeteredTotal(Repeat(n, x, rest), start, cap) == MeteredTotal(rest, start + Times(n, x), cap)
    ensures AtMost(Repeat(n, x, rest), m) && Times(n, x) >= 0.0
    decreases n
  {
    if n > 0 {
      assert Times(n, x) == Times(n - 1, x) + x;
      RepeatedReports(n - 1, x, rest, start + x, cap, m);
      assert Repeat(n, x, rest)[1..] == Repeat(n - 1, x, rest);
    }
  }

  /** Reports of at most m that use up a cap exactly, and then some more of them. */
  lemma FillThen(cap: real, m: real, rest: seq<real>) returns (reports: seq<real>)
    requires cap >= 0.0 && m > 0.0 && AtMost(rest, m)
    ensures MeteredTotal(reports, 0.0, cap) == MeteredTotal(rest, cap, cap) && AtMost(reports, m)
  {
    var n: nat, x := Parts(cap, m);
    reports := Repeat(n, x, rest);
    RepeatedReports(n, x, rest, 0.0, cap, m);
  }

  lemma Parts(cap: real, m: real) returns (n: nat, x: real)
    requires cap >= 0.0 && m > 0.0
    ensures 0.0 <= x <= m && Times(n, x) == cap
  {
    var q := cap / m;
    assert q * m == cap;
    assert q >= 0.0;
    n := q.Floor + 1;
    x := cap / n as real;
    assert n as real * x == cap;
    TimesIsProduct(n, x);
    assert x <= m by {
      if x > m {
        MoreThan(n as real, x, q, m);
      }
    }
  }

  lemma MoreThan(n: real, x: real, q: real, m: real)
    requires n > q >= 0.0 && x > m > 0.0
    ensures n * x > q * m
  {
    assert n * x > n * m;
    assert n * m > q * m;
  }

  /**
   The 2m are not slack: however small m is, some reports of at most m make a run cost exactly
   the remaining budget plus 2m.
   */
  lemma BoundIsReached(t: Thread, m: real)
    requires Remaining(t) > 0 && m > 0.0
    ensures exists r :: AllAtMost(r, m)
              && LeadCost(Half(t), r) + DelegateAll(Half(t), r.specialists).spent == Remaining(t) as real / GRID + 2.0 * m
  {
    var half := Half(t);
    var third := Allocation(half);
    var lead := FillThen(half, m, [m]);
    var part := FillThen(third, m, []);
    var last := FillThen(third, m, [m]);
    var ss := [part, part, last];
    var r := Reports(lead, false, [], ss);
    assert [m][1..] == [];
    assert MeteredTotal([m], half, half) == half + m;
    assert MeteredTotal([m], third, third) == third + m;
    assert ss[..2][..1] == [part] && ss[..1][..0] == [] && ss[..2] == [part, part];
    assert DelegateAll(half, ss[..1]) == Pool(1, third);
    assert DelegateAll(half, ss[..2]) == Pool(2, third + third);
    assert DelegateAll(half, ss) == Pool(3, third + third + third + m);
    assert AllAtMost(r, m);
  }

  /** Providers that keep to the budgets they are given. */
  ghost predicate Fits(t: Thread, r: Reports) {
    && (forall i | 0 <= i < |r.first| :: r.first[i] >= 0.0)
    && (forall i | 0 <= i < |r.second| :: r.second[i] >= 0.0)
    && Sum(r.first) <= Half(t)
    && Sum(r.second) <= Half(t) - Sum(r.first)
    && (forall i | 0 <= i < |r.specialists| ::
          Sum(r.specialists[i]) <= Allocation(Half(t)) && forall j | 0 <= j < |r.specialists[i]| :: r.specialists[i][j] >= 0.0)
  }

  /** Then the charge never exceeds what was left, rounding included, and the thread stays within budget. */
  lemma FittingRunStaysWithinBudget(t: Thread, r: Reports)
    requires Fits(t, r)
    ensures 0 <= RunCharge(t, r) <= Remaining(t)
    ensures t.spent <= t.budget ==> Charge(t, r).spent <= t.budget
  {
    PoolFits(Half(t), r.specialists);
    SumNonNegative(r.first);
    MeteredFits(r.first, 0.0, Half(t));
    MeteredFits(r.second, Sum(r.first), Half(t));
    SumNonNegative(r.second);
    var cost := LeadCost(Half(t), r) + DelegateAll(Half(t), r.specialists).spent;
    assert cost <= Half(t) + Half(t);
    assert cost * GRID <= (Half(t) + Half(t)) * GRID;
    Money.CeilKeepsPositive(cost * GRID);
    Money.CeilAtGridBound(cost * GRID, Remaining(t));
  }

  // ---------------------------------------------------------------- exactly what a run costs

  /**
   Of a stream metered from `start` against `cap` the first n reports count: all of them valid,
   none but the last past the cap, and then the stream ends, turns invalid or has passed its cap.
   */
  ghost predicate Counts(reports: seq<real>, start: real, cap: real, n: nat) {
    && n <= |reports|
    && (forall i | 0 <= i < n :: reports[i] >= 0.0)
    && (forall i | 0 < i < n :: start + Sum(reports[..i]) <= cap)
    && (n < |reports| ==> reports[n] < 0.0 || Passes(reports, start, cap, n))
  }

  /** The n-th report is the one that takes the total past the cap. */
  ghost predicate Passes(reports: seq<real>, start: real, cap: real, n: nat)
    requires n <= |reports|
  {
    n > 0 && start + Sum(reports[..n]) > cap
  }

  /** What becomes of a stream of which n reports counted. */
  ghost function StreamFailure(reports: seq<real>, start: real, cap: real, n: nat): Option<Failure>
    requires n <= |reports|
  {
    if Passes(reports, start, cap, n) then Some(BudgetExceeded) else if n < |reports| then Some(Unavailable) else None
  }

  lemma SumShift(reports: seq<real>, n: nat)
    requires reports != [] && n <= |reports| - 1
    ensures Sum(reports[..n + 1]) == reports[0] + Sum(reports[1..][..n])
  {
    assert reports[..n + 1] == [reports[0]] + reports[1..][..n];
    SumAppend([reports[0]], reports[1..][..n]);
    assert [reports[0]][..0] == [];
  }

  /** The meter's total and failure, told by how many reports counted. */
  lemma {:induction false} MeteredCounts(reports: seq<real>, start: real, cap: real) returns (n: nat)
    requires start <= cap
    ensures Counts(reports, start, cap, n)
    ensures MeteredTotal(reports, start, cap) == start + Sum(reports[..n])
    ensures MeteredFailure(reports, start, cap) == StreamFailure(reports, start, cap, n)
  {
    if reports == [] || reports[0] < 0.0 {
      n := 0;
    } else if start + reports[0] > cap {
      n := 1;
      SumShift(reports, 0);
    } else {
      var m := MeteredCounts(reports[1..], start + reports[0], cap);
      n := m + 1;
      SumShift(reports, m);
      forall i | 0 < i < n
        ensures start + Sum(reports[..i]) <= cap
      {
        SumShift(reports, i - 1);
      }
    }
  }

  /** Only one number of reports can count. */
  lemma CountsOnce(reports: seq<real>, start: real, cap: real, n: nat, m: nat)
    requires Counts(reports, start, cap, n) && Counts(reports, start, cap, m)
    ensures n == m
  {
    var atN, atM := start + Sum(reports[..n]), start + Sum(reports[..m]);
  }

  /** How many reports of each stream counted. */
  datatype Tally = Tally(first: nat, second: nat, specialists: seq<nat>)

  ghost predicate Fitting(r: Reports, y: Tally) {
    && y.first <= |r.first| && y.second <= |r.second| && |y.specialists| == |r.specialists|
    && forall i | 0 <= i < |r.specialists| :: y.specialists[i] <= |r.specialists[i]|
  }

  /** What the first n specialists spent. */
  ghost function SpentBy(r: Reports, y: Tally, n: nat): real
    requires Fitting(r, y) && n <= |r.specialists|
  {
    if n == 0 then 0.0 else SpentBy(r, y, n - 1) + Sum(r.specialists[n - 1][..y.specialists[n - 1]])
  }

  /** The specialist is one of the first three asked for, and its third of the pool is still there. */
  ghost predicate TakenOn(half: real, r: Reports, y: Tally, i: nat)
    requires Fitting(r, y) && i < |r.specialists|
  {
    i < 3 && SpentBy(r, y, i) < half && SpentBy(r, y, i) + half / 3.0 <= half
  }

  ghost predicate SpecialistCounts(half: real, r: Reports, y: Tally, i: nat)
    requires Fitting(r, y) && i < |r.specialists|
  {
    if TakenOn(half, r, y, i) then Counts(r.specialists[i], 0.0, half / 3.0, y.specialists[i]) else y.specialists[i] == 0
  }

  /** The answer is to be revised, the first pass went through, and budget is left. */
  ghost predicate Revises(half: real, r: Reports, y: Tally)
    requires Fitting(r, y)
  {
    r.revise && StreamFailure(r.first, 0.0, half, y.first).None? && Sum(r.first[..y.first]) < half
  }

  ghost predicate TallyOf(half: real, r: Reports, y: Tally) {
    && Fitting(r, y)
    && Counts(r.first, 0.0, half, y.first)
    && (if Revises(half, r, y) then Counts(r.second, Sum(r.first[..y.first]), half, y.second) else y.second == 0)
    && forall i | 0 <= i < |r.specialists| :: SpecialistCounts(half, r, y, i)
  }

  /** Everything that counted, in USD. */
  ghost function CountedCost(r: Reports, y: Tally): real
    requires Fitting(r, y)
  {
    Sum(r.first[..y.first]) + Sum(r.second[..y.second]) + SpentBy(r, y, |r.specialists|)
  }

  /** Whether the lead ends in a failure. */
  ghost function LeadFailure(half: real, r: Reports, y: Tally): Option<Failure>
    requires Fitting(r, y)
  {
    var first := StreamFailure(r.first, 0.0, half, y.first);
    if first.Some? || !r.revise then first
    else if Sum(r.first[..y.first]) >= half then Some(BudgetExceeded)
    else StreamFailure(r.second, Sum(r.first[..y.first]), half, y.second)
  }

  /**
   What a run of a thread with budget left costs and how its lead ends: each half of what is left
   meters its own streams, and the one charge is everything that counted, rounded up once.
   */
  ghost predicate Costs(t: Thread, r: Reports, units: int, failure: Option<Failure>) {
    var half := (t.budget - t.spent) as real / 20000.0;
    exists y :: TallyOf(half, r, y) && units == Money.Ceil(CountedCost(r, y) * 10000.0) && failure == LeadFailure(half, r, y)
  }

  lemma {:induction false} SpentByKept(r: Reports, y: Tally, k: nat, c: nat, n: nat)
    requires Fitting(r, y) && n <= k < |r.specialists| && c <= |r.specialists[k]|
    ensures SpentBy(r, y.(specialists := y.specialists[k := c]), n) == SpentBy(r, y, n)
    decreases n
  {
    if n > 0 {
      SpentByKept(r, y, k, c, n - 1);
    }
  }

  /** Admission by the pool's counters is admission by place and by what is left of the pool. */
  ghost predicate PoolIs(half: real, p: Pool, r: Reports, y: Tally, n: nat)
    requires Fitting(r, y) && n <= |r.specialists|
  {
    && p.spent == SpentBy(r, y, n) && p.children <= n && p.children <= 3
    && (p.children == n || p.children == 3 || p.spent >= half || p.spent + half / 3.0 > half)
  }

  lemma {:induction false} SpecialistTally(half: real, r: Reports, y: Tally, n: nat) returns (z: Tally)
    requires half >= 0.0 && Fitting(r, y) && n <= |r.specialists|
    ensures Fitting(r, z) && z.first == y.first && z.second == y.second
    ensures forall i | 0 <= i < n :: SpecialistCounts(half, r, z, i)
    ensures PoolIs(half, DelegateAll(half, r.specialists[..n]), r, z, n)
    decreases n
  {
    hide SpentBy, Counts, DelegateAll, Fitting;
    if n == 0 {
      z := y;
      EmptyPool(half, r, z);
    } else {
      var x := SpecialistTally(half, r, y, n - 1);
      z := NextSpecialist(half, r, x, n - 1);
    }
  }

  lemma EmptyPool(half: real, r: Reports, y: Tally)
    requires Fitting(r, y)
    ensures PoolIs(half, DelegateAll(half, r.specialists[..0]), r, y, 0)
  {
  }

  lemma NextSpecialist(half: real, r: Reports, x: Tally, k: nat) returns (z: Tally)
    requires half >= 0.0 && Fitting(r, x) && k < |r.specialists|
    requires forall i | 0 <= i < k :: SpecialistCounts(half, r, x, i)
    requires PoolIs(half, DelegateAll(half, r.specialists[..k]), r, x, k)
    ensures Fitting(r, z) && z.first == x.first && z.second == x.second
    ensures forall i | 0 <= i < k + 1 :: SpecialistCounts(half, r, z, i)
    ensures PoolIs(half, DelegateAll(half, r.specialists[..k + 1]), r, z, k + 1)
  {
    hide SpentBy, Counts;
    var p, reports := DelegateAll(half, r.specialists[..k]), r.specialists[k];
    DelegateNext(half, r.specialists, k);
    var c := 0;
    if Admits(p, half) {
      c := MeteredCounts(reports, 0.0, half / 3.0);
      CountsInRange(reports, 0.0, half / 3.0, c);
    }
    z := x.(specialists := x.specialists[k := c]);
    SpentByKept(r, x, k, c, k);
    assert TakenOn(half, r, z, k) <==> Admits(p, half);
    forall i | 0 <= i < k
      ensures SpecialistCounts(half, r, z, i)
    {
      SpentByKept(r, x, k, c, i);
      assert SpecialistCounts(half, r, x, i);
    }
    SpentNext(r, z, k);
  }

  lemma CountsInRange(reports: seq<real>, start: real, cap: real, n: nat)
    requires Counts(reports, start, cap, n)
    ensures n <= |reports|
  {
  }

  lemma SpentNext(r: Reports, y: Tally, k: nat)
    requires Fitting(r, y) && k < |r.specialists|
    ensures SpentBy(r, y, k + 1) == SpentBy(r, y, k) + Sum(r.specialists[k][..y.specialists[k]])
    ensures y.specialists[k] == 0 ==> Sum(r.specialists[k][..y.specialists[k]]) == 0.0
  {
  }

  lemma DelegateNext(pool: real, all: seq<seq<real>>, k: nat)
    requires k < |all|
    ensures DelegateAll(pool, all[..k + 1]) == Delegate(DelegateAll(pool, all[..k]), pool, all[k])
  {
    assert all[..k + 1][..k] == all[..k];
  }

  lemma LeadTally(half: real, r: Reports) returns (y: Tally)
    requires half > 0.0
    ensures Fitting(r, y) && Counts(r.first, 0.0, half, y.first)
    ensures if Revises(half, r, y) then Counts(r.second, Sum(r.first[..y.first]), half, y.second) else y.second == 0
    ensures LeadCost(half, r) == Sum(r.first[..y.first]) + Sum(r.second[..y.second])
    ensures LeadEnds(half, r) == LeadFailure(half, r, y)
  {
    var n := MeteredCounts(r.first, 0.0, half);
    var m := 0;
    y := Tally(n, m, seq(|r.specialists|, _ => 0));
    if Revises(half, r, y) {
      m := MeteredCounts(r.second, Sum(r.first[..n]), half);
      y := y.(second := m);
    }
  }

  /** Everything a run costs is what counted of its streams. */
  lemma RunTally(half: real, r: Reports) returns (y: Tally)
    requires half > 0.0
    ensures TallyOf(half, r, y)
    ensures LeadCost(half, r) + DelegateAll(half, r.specialists).spent == CountedCost(r, y)
    ensures LeadEnds(half, r) == LeadFailure(half, r, y)
  {
    hide Counts, SpentBy, DelegateAll, LeadCost, LeadEnds, Sum;
    var x := LeadTally(half, r);
    y := SpecialistTally(half, r, x, |r.specialists|);
    assert r.specialists[..|r.specialists|] == r.specialists;
  }

  lemma RunCosts(t: Thread, r: Reports)
    requires t.budget > t.spent
    ensures Costs(t, r, RunCharge(t, r), LeadEnds(Half(t), r))
  {
    hide TallyOf, CountedCost, LeadFailure, LeadEnds, LeadCost, DelegateAll;
    var half := Half(t);
    assert half == (t.budget - t.spent) as real / 20000.0;
    var y := RunTally(half, r);
  }

  // ---------------------------------------------------------------- runs that fit

  lemma {:induction false} PrefixSum(xs: seq<real>, n: nat)
    requires n <= |xs| && forall i | 0 <= i < |xs| :: xs[i] >= 0.0
    ensures Sum(xs[..n]) <= Sum(xs)
    decreases |xs|
  {
    if n < |xs| {
      assert xs[..|xs| - 1][..n] == xs[..n];
      PrefixSum(xs[..|xs| - 1], n);
    } else {
      assert xs[..n] == xs;
    }
  }

  /** Of a stream that fits its cap every report counts. */
  lemma AllCount(reports: seq<real>, start: real, cap: real, n: nat)
    requires Counts(reports, start, cap, n) && start + Sum(reports) <= cap
    requires forall i | 0 <= i < |reports| :: reports[i] >= 0.0
    ensures n == |reports| && Sum(reports[..n]) == Sum(reports) && StreamFailure(reports, start, cap, n).None?
  {
    PrefixSum(reports, n);
    assert reports[..|reports|] == reports;
  }

  function SumAll(xss: seq<seq<real>>): real {
    if xss == [] then 0.0 else SumAll(xss[..|xss| - 1]) + Sum(xss[|xss| - 1])
  }

  lemma {:induction false} AllSpecialistsCount(half: real, r: Reports, y: Tally, n: nat)
    requires half > 0.0 && Fitting(r, y) && n <= |r.specialists| <= 3
    requires forall i | 0 <= i < n :: SpecialistCounts(half, r, y, i)
    requires forall i | 0 <= i < |r.specialists| ::
               Sum(r.specialists[i]) <= half / 3.0 && forall j | 0 <= j < |r.specialists[i]| :: r.specialists[i][j] >= 0.0
    ensures SpentBy(r, y, n) == SumAll(r.specialists[..n]) <= n as real * (half / 3.0)
    decreases n
  {
    hide Counts, Sum;
    if n > 0 {
      AllSpecialistsCount(half, r, y, n - 1);
      assert SpecialistCounts(half, r, y, n - 1);
      assert TakenOn(half, r, y, n - 1) by {
        ThirdLeft(half, n - 1);
      }
      AllCount(r.specialists[n - 1], 0.0, half / 3.0, y.specialists[n - 1]);
      assert r.specialists[..n][..n - 1] == r.specialists[..n - 1];
    }
  }

  lemma ThirdLeft(half: real, n: nat)
    requires half > 0.0 && n < 3
    ensures n as real * (half / 3.0) < half && n as real * (half / 3.0) + half / 3.0 <= half
  {
    assert n == 0 || n == 1 || n == 2;
  }

  /**
   Providers that keep to their shares are paid in full: the charge is the ceiling of everything
   both lead passes and the at most three specialists report.
   */
  lemma FittingRunIsPaid(t: Thread, r: Reports, units: int, failure: Option<Failure>)
    requires t.budget > t.spent && Fits(t, r) && |r.specialists| <= 3 && Costs(t, r, units, failure)
    ensures var second := if r.revise && Sum(r.first) < Half(t) then Sum(r.second) else 0.0;
            units == Money.Ceil((Sum(r.first) + second + SumAll(r.specialists)) * 10000.0)
    ensures failure == if r.revise && Sum(r.first) >= Half(t) then Some(BudgetExceeded) else None
  {
    hide Counts, SpentBy, Sum;
    var half := Half(t);
    assert half == (t.budget - t.spent) as real / 20000.0;
    var y :| TallyOf(half, r, y) && units == Money.Ceil(CountedCost(r, y) * 10000.0) && failure == LeadFailure(half, r, y);
    AllCount(r.first, 0.0, half, y.first);
    if Revises(half, r, y) {
      AllCount(r.second, Sum(r.first), half, y.second);
    } else {
      NothingCounted(r.second);
    }
    AllSpecialistsCount(half, r, y, |r.specialists|);
    assert r.specialists[..|r.specialists|] == r.specialists;
  }

  lemma NothingCounted(reports: seq<real>)
    ensures Sum(reports[..0]) == 0.0
  {
  }

  /**
   One run of the case thread, from its admission to its terminal charge. `ended` says whether
   another path has made the run terminal by then; such a run is not charged any more.
   */
  method ExecuteRun(t: Thread, r: Reports, ended: bool) returns (t': Thread, failure: Option<Failure>)
    ensures Remaining(t) < ADMISSION ==> t' == t && failure == Some(BudgetExceeded)
    ensures Remaining(t) >= ADMISSION ==> t' == (if ended then t else Charge(t, r)) && failure == LeadEnds(Half(t), r)
    ensures if t.budget - t.spent < 2500 then t' == t && failure == Some(BudgetExceeded)
            else Costs(t, r, RunCharge(t, r), failure)
                 && t' == if ended then t else Thread(t.budget, t.spent + RunCharge(t, r))
  {
    if Remaining(t) < ADMISSION {
      return t, Some(BudgetExceeded);
    }
    RunCosts(t, r);
    var half := Half(t);
    var state := new DelegationState(half);
    for i := 0 to |r.specialists|
      invariant state.workerPool == half && state.View() == DelegateAll(half, r.specialists[..i])
    {
      assert r.specialists[..i + 1][..i] == r.specialists[..i];
      var _, _ := state.RunSpecialist(r.specialists[i]);
    }
    assert r.specialists[..|r.specialists|] == r.specialists;
    var cost;
    cost, failure := Meter(r.first, 0.0, half);
    if failure.None? && r.revise {
      if half - cost <= 0.0 {
        failure := Some(BudgetExceeded);
      } else {
        cost, failure := Meter(r.second, cost, half);
      }
    }
    t' := t;
    if !ended {
      t' := t.(spent := t.spent + Money.Ceil((cost + state.spent) * GRID));
    }
  }
}
