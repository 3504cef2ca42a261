/**
 The sliding-hour limiter of tool requests. Counters are rows of one case, read and
 inserted under the case lock; times are microseconds.
 */
module RateLimit {
  import opened Common

  const WINDOW := 3600000000

  /** A request as it is checked: its rate key, the clock, and the limit the policy gives the key. */
  datatype Request = Request(key: nat, at: int, limit: int)

  datatype Refusal = RateLimited | Duplicate

  /** Counter rows of a key with window_start >= from. Every row counts one request. */
  function CountSince(rows: seq<Request>, key: nat, from: int): nat {
    if rows == [] then 0
    else
      var last := rows[|rows| - 1];
      CountSince(rows[..|rows| - 1], key, from) + if last.key == key && last.at >= from then 1 else 0
  }

  /** Admitted requests of a key in the closed window [from, to]. */
  function CountIn(rows: seq<Request>, key: nat, from: int, to: int): nat {
    if rows == [] then 0
    else
      var last := rows[|rows| - 1];
      CountIn(rows[..|rows| - 1], key, from, to) + if last.key == key && from <= last.at <= to then 1 else 0
  }

  function CheckRefusal(rows: seq<Request>, q: Request): Option<Refusal> {
    if CountSince(rows, q.key, q.at - WINDOW) >= q.limit then Some(RateLimited)
    // The primary key of the table: two requests of a key cannot share an instant.
    else if exists i | 0 <= i < |rows| :: rows[i].key == q.key && rows[i].at == q.at then Some(Duplicate)
    else None
  }

  function Check(rows: seq<Request>, q: Request): seq<Request> {
    if CheckRefusal(rows, q).Some? then rows else rows + [q]
  }

  /** The admitted requests of a history, in the order of their checks. */
  function Admitted(history: seq<Request>): seq<Request>
    decreases |history|
  {
    if history == [] then []
    else Check(Admitted(history[..|history| - 1]), history[|history| - 1])
  }

  /** A window reaching back no further than `from` holds no more than was counted since `from`. */
  lemma {:induction false} WindowBelowSince(rows: seq<Request>, key: nat, since: int, from: int, to: int)
    requires since <= from
    ensures CountIn(rows, key, from, to) <= CountSince(rows, key, since)
  {
    if rows != [] {
      WindowBelowSince(rows[..|rows| - 1], key, since, from, to);
    }
  }

  /** The last admitted request of a key in a window. */
  function LastIn(rows: seq<Request>, key: nat, from: int, to: int): (last: Option<Request>)
    ensures last.None? <==> CountIn(rows, key, from, to) == 0
    ensures last.Some? ==> last.value in rows && last.value.key == key && from <= last.value.at <= to
  {
    if rows == [] then None
    else
      var n := |rows| - 1;
      if rows[n].key == key && from <= rows[n].at <= to then Some(rows[n]) else LastIn(rows[..n], key, from, to)
  }

  /**
   Every closed hour of any history holds at most as many admitted requests of a key as the
   limit in force at the last of them, wherever the window lies and however the clock moved.
   */
  lemma {:induction false} EveryWindowWithinLimit(history: seq<Request>, key: nat, from: int)
    ensures var rows := Admitted(history);
            var last := LastIn(rows, key, from, from + 3600000000);
            last.Some? ==> CountIn(rows, key, from, from + 3600000000) <= last.value.limit
    decreases |history|
  {
    hide CountIn, LastIn, CountSince;
    if history == [] {
      WindowNext([], Request(key, 0, 0), key, from, from + WINDOW);
    } else {
      var front := history[..|history| - 1];
      var q := history[|history| - 1];
      EveryWindowWithinLimit(front, key, from);
      var before := Admitted(front);
      WindowNext(before, q, key, from, from + WINDOW);
      if q.key == key && from <= q.at <= from + WINDOW {
        WindowBelowSince(before, key, q.at - WINDOW, from, from + WINDOW);
      }
    }
  }

  lemma WindowNext(rows: seq<Request>, q: Request, key: nat, from: int, to: int)
    ensures var here := q.key == key && from <= q.at <= to;
            && CountIn(rows + [q], key, from, to) == CountIn(rows, key, from, to) + (if here then 1 else 0)
            && LastIn(rows + [q], key, from, to) == (if here then Some(q) else LastIn(rows, key, from, to))
            && LastIn([], key, from, to).None?
  {
    assert (rows + [q])[..|rows|] == rows;
  }

  lemma {:induction false} AdmittedAreRequests(history: seq<Request>)
    ensures forall q | q in Admitted(history) :: q in history
    decreases |history|
  {
    if history != [] {
      AdmittedAreRequests(history[..|history| - 1]);
    }
  }

  /** With one fixed limit, no closed hour of the history holds more admitted requests than that. */
  lemma FixedLimit(history: seq<Request>, key: nat, limit: nat, from: int)
    requires forall q | q in history && q.key == key :: q.limit == limit
    ensures CountIn(Admitted(history), key, from, from + 3600000000) <= limit
  {
    EveryWindowWithinLimit(history, key, from);
    AdmittedAreRequests(history);
  }

  /**
   When a request is refused for its rate, whatever the order of the clock readings: when the
   closed hour up to it, together with the rows stamped later than it, holds the limit.
   Without such rows that is a full hour.
   */
  lemma RefusedOnlyWhenFull(rows: seq<Request>, q: Request)
    ensures var here, later := CountIn(rows, q.key, q.at - 3600000000, q.at), CountSince(rows, q.key, q.at + 1);
            && (CheckRefusal(rows, q) == Some(RateLimited) <==> here + later >= q.limit)
            && (later == 0 <==> forall i | 0 <= i < |rows| && rows[i].key == q.key :: rows[i].at <= q.at)
  {
    SinceSplits(rows, q.key, q.at - WINDOW, q.at);
    NoneLater(rows, q.key, q.at);
  }

  lemma {:induction false} SinceSplits(rows: seq<Request>, key: nat, from: int, to: int)
    requires from <= to
    ensures CountSince(rows, key, from) == CountIn(rows, key, from, to) + CountSince(rows, key, to + 1)
  {
    if rows != [] {
      SinceSplits(rows[..|rows| - 1], key, from, to);
    }
  }

  lemma {:induction false} NoneLater(rows: seq<Request>, key: nat, to: int)
    ensures CountSince(rows, key, to + 1) == 0 <==> forall i | 0 <= i < |rows| && rows[i].key == key :: rows[i].at <= to
  {
    if rows != [] {
      var n := |rows| - 1;
      NoneLater(rows[..n], key, to);
      assert forall i | 0 <= i < n :: rows[..n][i] == rows[i];
    }
  }

  /** The admitted requests of q's key that the check counts: those of the last hour, and any stamped later. */
  ghost function Recent(rows: seq<Request>, q: Request): set<nat> {
    set i | 0 <= i < |rows| && rows[i].key == q.key && rows[i].at >= q.at - 3600000000
  }

  lemma {:induction false} RecentCounted(rows: seq<Request>, q: Request)
    ensures CountSince(rows, q.key, q.at - WINDOW) == |Recent(rows, q)|
    decreases |rows|
  {
    if rows == [] {
      assert Recent(rows, q) == {};
    } else {
      var n: nat := |rows| - 1;
      RecentCounted(rows[..n], q);
      assert Recent(rows, q) == Recent(rows[..n], q) + if rows[n].key == q.key && rows[n].at >= q.at - 3600000000 then {n} else {};
    }
  }

  /**
   What one check does: it refuses when the counted requests reach the limit, or when the very
   instant is taken; any other request becomes a row, and nothing else changes.
   */
  lemma AdmittedIff(rows: seq<Request>, q: Request)
    ensures var taken := exists i :: 0 <= i < |rows| && rows[i].key == q.key && rows[i].at == q.at;
            && (CheckRefusal(rows, q) == Some(RateLimited) <==> |Recent(rows, q)| >= q.limit)
            && (CheckRefusal(rows, q) == Some(Duplicate) <==> |Recent(rows, q)| < q.limit && taken)
            && Check(rows, q) == if |Recent(rows, q)| < q.limit && !taken then rows + [q] else rows
  {
    RecentCounted(rows, q);
  }

  class Counters {
    var rows: seq<Request>

    constructor ()
      ensures rows == []
    {
      rows := [];
    }

    /** The rate part of a consuming policy check. */
    method Consume(q: Request) returns (refusal: Option<Refusal>)
      modifies this
      ensures refusal == CheckRefusal(old(rows), q)
      ensures rows == Check(old(rows), q)
    {
      var total := 0;
      for i := 0 to |rows|
        invariant total == CountSince(rows[..i], q.key, q.at - WINDOW)
      {
        assert rows[..i + 1][..i] == rows[..i];
        if rows[i].key == q.key && rows[i].at >= q.at - WINDOW {
          total := total + 1;
        }
      }
      assert rows[..|rows|] == rows;
      if total >= q.limit {
        return Some(RateLimited);
      }
      if exists i | 0 <= i < |rows| :: rows[i].key == q.key && rows[i].at == q.at {
        return Some(Duplicate);
      }
      rows := rows + [q];
      refusal := None;
    }
  }
}
