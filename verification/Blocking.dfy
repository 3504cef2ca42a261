/** Bounded candidate pairs of alias profiles: shared identifiers first, then compared profiles. */
module Blocking {

  datatype Profile = Profile(id: nat, fingerprints: set<nat>, contacts: set<nat>, wallets: set<nat>)

  /** The comparison of two profiles (image distance, name similarity, shared activity); earlier profile first. */
  datatype Rules = Rules(near: (Profile, Profile) -> bool)

  const Attributes: nat := 3

  function Keys(p: Profile, attribute: nat): set<nat> {
    if attribute == 0 then p.fingerprints else if attribute == 1 then p.contacts else p.wallets
  }

  /** tuple(sorted((a.id, b.id))). */
  function Pair(a: Profile, b: Profile): (nat, nat) {
    if a.id <= b.id then (a.id, b.id) else (b.id, a.id)
  }

  predicate Shares(a: Profile, b: Profile, attribute: nat) {
    Keys(a, attribute) * Keys(b, attribute) != {}
  }

  predicate Qualifies(rules: Rules, a: Profile, b: Profile) {
    a.fingerprints * b.fingerprints != {} || a.contacts * b.contacts != {} || a.wallets * b.wallets != {} || rules.near(a, b)
  }

  /** Profiles i < j with different ids qualify and form the pair. */
  predicate Witness(rules: Rules, ps: seq<Profile>, pair: (nat, nat), i: nat, j: nat) {
    i < j < |ps| && pair.0 < pair.1 && {pair.0, pair.1} == {ps[i].id, ps[j].id} && Qualifies(rules, ps[i], ps[j])
  }

  ghost predicate Sound(rules: Rules, ps: seq<Profile>, pairs: set<(nat, nat)>) {
    forall pair | pair in pairs :: exists i, j :: Witness(rules, ps, pair, i, j)
  }

  /** Nothing to add for profiles i and j. */
  predicate Covered(ps: seq<Profile>, pairs: set<(nat, nat)>, i: nat, j: nat)
    requires i < |ps| && j < |ps|
  {
    && (ps[i].id < ps[j].id ==> (ps[i].id, ps[j].id) in pairs)
    && (ps[j].id < ps[i].id ==> (ps[j].id, ps[i].id) in pairs)
  }

  /** All sharers of the attribute are in. */
  ghost predicate AttributeDone(ps: seq<Profile>, pairs: set<(nat, nat)>, attribute: nat) {
    forall i, j | 0 <= i < j < |ps| && Shares(ps[i], ps[j], attribute) :: Covered(ps, pairs, i, j)
  }

  /** While the search goes on there is room; when it stops for fullness there is none. */
  predicate Room(pairs: set<(nat, nat)>, maxPairs: int) {
    |pairs| < maxPairs || (maxPairs <= 0 && pairs == {})
  }

  predicate Full(pairs: set<(nat, nat)>, maxPairs: int) {
    |pairs| == maxPairs || (maxPairs <= 0 && |pairs| <= 1)
  }

  // ---------------------------------------------------------------- the index

  /** Positions below n whose profile has the key, in order. */
  function Holders(ps: seq<Profile>, attribute: nat, key: nat, n: nat): (held: seq<nat>)
    requires n <= |ps|
    ensures forall x | 0 <= x < |held| :: held[x] < n && key in Keys(ps[held[x]], attribute)
    ensures forall x, y | 0 <= x < y < |held| :: held[x] < held[y]
  {
    if n == 0 then [] else Holders(ps, attribute, key, n - 1) + if key in Keys(ps[n - 1], attribute) then [n - 1] else []
  }

  lemma {:induction false} HolderAt(ps: seq<Profile>, attribute: nat, key: nat, n: nat, i: nat) returns (x: nat)
    requires i < n <= |ps| && key in Keys(ps[i], attribute)
    ensures x < |Holders(ps, attribute, key, n)| && Holders(ps, attribute, key, n)[x] == i
    decreases n
  {
    if i == n - 1 {
      x := |Holders(ps, attribute, key, n - 1)|;
    } else {
      x := HolderAt(ps, attribute, key, n - 1, i);
    }
  }

  ghost predicate Indexed(ps: seq<Profile>, attribute: nat, index: map<nat, seq<nat>>, key: nat, n: nat)
    requires n <= |ps|
  {
    (if key in index then index[key] else []) == Holders(ps, attribute, key, n)
  }

  /** index[key].append(i) for each of the profile's keys. */
  function Extended(index: map<nat, seq<nat>>, keys: set<nat>, i: nat): map<nat, seq<nat>> {
    map key | key in index.Keys + keys :: (if key in index then index[key] else []) + if key in keys then [i] else []
  }

  lemma IndexedNext(ps: seq<Profile>, attribute: nat, index: map<nat, seq<nat>>, i: nat, next: nat)
    requires next == i + 1 <= |ps| && forall key :: Indexed(ps, attribute, index, key, i)
    ensures forall key :: Indexed(ps, attribute, Extended(index, Keys(ps[i], attribute), i), key, next)
  {
    var after := Extended(index, Keys(ps[i], attribute), i);
    forall key: nat
      ensures Indexed(ps, attribute, after, key, next)
    {
      assert Indexed(ps, attribute, index, key, i);
    }
  }

  method BuildIndex(ps: seq<Profile>, attribute: nat) returns (index: map<nat, seq<nat>>)
    ensures forall key :: Indexed(ps, attribute, index, key, |ps|)
  {
    index := map[];
    for i := 0 to |ps|
      invariant forall key :: Indexed(ps, attribute, index, key, i)
    {
      IndexedNext(ps, attribute, index, i, i + 1);
      index := Extended(index, Keys(ps[i], attribute), i);
    }
  }

  // ---------------------------------------------------------------- adding pairs

  /** add: the pair unless both profiles have one id; afterwards, is the limit reached? */
  method Add(ps: seq<Profile>, i: nat, j: nat, before: set<(nat, nat)>, maxPairs: int) returns (pairs: set<(nat, nat)>, full: bool)
    requires i < |ps| && j < |ps| && Room(before, maxPairs)
    ensures before <= pairs && Covered(ps, pairs, i, j)
    ensures forall pair | pair in pairs :: pair in before || (pair == Pair(ps[i], ps[j]) && ps[i].id != ps[j].id)
    ensures if full then Full(pairs, maxPairs) else Room(pairs, maxPairs)
  {
    pairs := before;
    if ps[i].id != ps[j].id {
      pairs := pairs + {Pair(ps[i], ps[j])};
    }
    full := |pairs| >= maxPairs;
  }

  /** combinations(index[key], 2). */
  method AddKey(rules: Rules, ps: seq<Profile>, attribute: nat, key: nat, held: seq<nat>, before: set<(nat, nat)>, maxPairs: int)
    returns (pairs: set<(nat, nat)>, full: bool)
    requires attribute < Attributes && held == Holders(ps, attribute, key, |ps|)
    requires Room(before, maxPairs) && Sound(rules, ps, before)
    ensures before <= pairs && Sound(rules, ps, pairs)
    ensures if full then Full(pairs, maxPairs) else Room(pairs, maxPairs)
    ensures !full ==> forall x, y | 0 <= x < y < |held| :: Covered(ps, pairs, held[x], held[y])
  {
    pairs, full := before, false;
    for x := 0 to |held|
      invariant before <= pairs && Sound(rules, ps, pairs) && Room(pairs, maxPairs)
      invariant Paired(ps, pairs, held, x)
    {
      for y := x + 1 to |held|
        invariant before <= pairs && Sound(rules, ps, pairs) && Room(pairs, maxPairs)
        invariant Paired(ps, pairs, held, x) && PairedUpto(ps, pairs, held, x, y)
      {
        hide Sound, Room, Full, Qualifies, Covered, Paired, PairedUpto;
        ghost var earlier := pairs;
        HoldersQualify(rules, ps, attribute, key, x, y);
        pairs, full := Add(ps, held[x], held[y], pairs, maxPairs);
        AddedSound(rules, ps, earlier, pairs, held[x], held[y]);
        PairedNext(ps, earlier, pairs, held, x, y);
        if full {
          return;
        }
      }
    }
  }

  /** Pairs of the first x positions with any later one are in. */
  ghost predicate Paired(ps: seq<Profile>, pairs: set<(nat, nat)>, held: seq<nat>, x: nat)
    requires forall h | 0 <= h < |held| :: held[h] < |ps|
  {
    forall u, v | 0 <= u < x && u < v < |held| :: Covered(ps, pairs, held[u], held[v])
  }

  ghost predicate PairedUpto(ps: seq<Profile>, pairs: set<(nat, nat)>, held: seq<nat>, x: nat, y: nat)
    requires (forall h | 0 <= h < |held| :: held[h] < |ps|) && x < |held| && y <= |held|
  {
    forall v | x < v < y :: Covered(ps, pairs, held[x], held[v])
  }

  lemma PairedNext(ps: seq<Profile>, before: set<(nat, nat)>, after: set<(nat, nat)>, held: seq<nat>, x: nat, y: nat)
    requires (forall h | 0 <= h < |held| :: held[h] < |ps|) && x < y < |held| && before <= after
    requires Paired(ps, before, held, x) && PairedUpto(ps, before, held, x, y) && Covered(ps, after, held[x], held[y])
    ensures Paired(ps, after, held, x) && PairedUpto(ps, after, held, x, y + 1)
  {
    forall u, v | 0 <= u < x && u < v < |held|
      ensures Covered(ps, after, held[u], held[v])
    {
      assert Covered(ps, before, held[u], held[v]);
    }
    forall v | x < v < y + 1
      ensures Covered(ps, after, held[x], held[v])
    {
      assert v < y ==> Covered(ps, before, held[x], held[v]);
    }
  }

  lemma HoldersQualify(rules: Rules, ps: seq<Profile>, attribute: nat, key: nat, x: nat, y: nat)
    requires attribute < Attributes && x < y < |Holders(ps, attribute, key, |ps|)|
    ensures var held := Holders(ps, attribute, key, |ps|); held[x] < held[y] && Qualifies(rules, ps[held[x]], ps[held[y]])
  {
    var held := Holders(ps, attribute, key, |ps|);
    assert key in Keys(ps[held[x]], attribute) * Keys(ps[held[y]], attribute);
  }

  lemma AddedSound(rules: Rules, ps: seq<Profile>, before: set<(nat, nat)>, after: set<(nat, nat)>, i: nat, j: nat)
    requires Sound(rules, ps, before) && i < j < |ps| && Qualifies(rules, ps[i], ps[j])
    requires forall pair | pair in after :: pair in before || (pair == Pair(ps[i], ps[j]) && ps[i].id != ps[j].id)
    ensures Sound(rules, ps, after)
  {
    forall pair | pair in after
      ensures exists u, v :: Witness(rules, ps, pair, u, v)
    {
      if pair !in before {
        assert Witness(rules, ps, pair, i, j);
      }
    }
  }

  /** All keys of one attribute; the order in which keys are visited is left open. */
  method AddAttribute(rules: Rules, ps: seq<Profile>, attribute: nat, before: set<(nat, nat)>, maxPairs: int)
    returns (pairs: set<(nat, nat)>, full: bool)
    requires attribute < Attributes && Room(before, maxPairs) && Sound(rules, ps, before)
    ensures before <= pairs && Sound(rules, ps, pairs)
    ensures if full then Full(pairs, maxPairs) else Room(pairs, maxPairs)
    ensures !full ==> AttributeDone(ps, pairs, attribute)
  {
    pairs, full := before, false;
    var index := BuildIndex(ps, attribute);
    var todo := index.Keys;
    forall key | key !in todo
      ensures KeyDone(ps, pairs, attribute, key)
    {
      assert Indexed(ps, attribute, index, key, |ps|);
    }
    while todo != {}
      invariant todo <= index.Keys
      invariant before <= pairs && Sound(rules, ps, pairs) && Room(pairs, maxPairs)
      invariant forall key | key !in todo :: KeyDone(ps, pairs, attribute, key)
      decreases |todo|
    {
      var key :| key in todo;
      ghost var earlier := pairs;
      assert Indexed(ps, attribute, index, key, |ps|);
      pairs, full := AddKey(rules, ps, attribute, key, index[key], pairs, maxPairs);
      if full {
        return;
      }
      KeysStayDone(ps, earlier, pairs, attribute, todo);
      todo := todo - {key};
    }
    AllKeysDone(ps, pairs, attribute);
  }

  lemma AllKeysDone(ps: seq<Profile>, pairs: set<(nat, nat)>, attribute: nat)
    requires forall key :: KeyDone(ps, pairs, attribute, key)
    ensures AttributeDone(ps, pairs, attribute)
  {
    forall i, j | 0 <= i < j < |ps| && Shares(ps[i], ps[j], attribute)
      ensures Covered(ps, pairs, i, j)
    {
      var key :| key in Keys(ps[i], attribute) * Keys(ps[j], attribute);
      var x := HolderAt(ps, attribute, key, |ps|, i);
      var y := HolderAt(ps, attribute, key, |ps|, j);
      assert KeyDone(ps, pairs, attribute, key);
    }
  }

  lemma KeysStayDone(ps: seq<Profile>, before: set<(nat, nat)>, after: set<(nat, nat)>, attribute: nat, todo: set<nat>)
    requires before <= after && forall key | key !in todo :: KeyDone(ps, before, attribute, key)
    ensures forall key | key !in todo :: KeyDone(ps, after, attribute, key)
  {
    forall key | key !in todo
      ensures KeyDone(ps, after, attribute, key)
    {
      KeyStaysDone(ps, before, after, attribute, key);
    }
  }

  ghost predicate KeyDone(ps: seq<Profile>, pairs: set<(nat, nat)>, attribute: nat, key: nat) {
    var held := Holders(ps, attribute, key, |ps|);
    forall x, y | 0 <= x < y < |held| :: Covered(ps, pairs, held[x], held[y])
  }

  lemma KeyStaysDone(ps: seq<Profile>, before: set<(nat, nat)>, after: set<(nat, nat)>, attribute: nat, key: nat)
    requires KeyDone(ps, before, attribute, key) && before <= after
    ensures KeyDone(ps, after, attribute, key)
  {
    var held := Holders(ps, attribute, key, |ps|);
    forall x, y | 0 <= x < y < |held|
      ensures Covered(ps, after, held[x], held[y])
    {
      assert Covered(ps, before, held[x], held[y]);
    }
  }

  lemma AttributeStaysDone(ps: seq<Profile>, before: set<(nat, nat)>, after: set<(nat, nat)>, attribute: nat)
    requires AttributeDone(ps, before, attribute) && before <= after
    ensures AttributeDone(ps, after, attribute)
  {
    forall i, j | 0 <= i < j < |ps| && Shares(ps[i], ps[j], attribute)
      ensures Covered(ps, after, i, j)
    {
      assert Covered(ps, before, i, j);
    }
  }

  // ---------------------------------------------------------------- comparing

  /** The number of pairs of n profiles. */
  function Choose2(n: nat): nat {
    if n == 0 then 0 else Choose2(n - 1) + n - 1
  }

  /** More pairs of n profiles than may be compared: twenty for each wanted pair, and at least ten thousand. */
  predicate TooMany(n: nat, maxPairs: int) {
    n * (n - 1) / 2 > maxPairs * 20 && n * (n - 1) / 2 > 10000
  }

  lemma {:induction false} Choose2Is(n: nat)
    ensures Choose2(n) == n * (n - 1) / 2
  {
    if n > 0 {
      Choose2Is(n - 1);
      assert n * (n - 1) == (n - 1) * (n - 2) + 2 * (n - 1);
    }
  }

  /** Pairs (u, v) visited before the one at (x, y). */
  function Visited(n: nat, x: nat): nat
    requires x <= n
  {
    if x == 0 then 0 else Visited(n, x - 1) + n - x
  }

  lemma {:induction false} VisitedAll(n: nat, x: nat)
    requires x <= n
    ensures Visited(n, x) + Choose2(n - x) == Choose2(n)
  {
    if x > 0 {
      VisitedAll(n, x - 1);
    }
  }

  function MaxComparisons(maxPairs: int): int {
    if maxPairs * 20 > 10000 then maxPairs * 20 else 10000
  }

  ghost predicate NearDone(rules: Rules, ps: seq<Profile>, pairs: set<(nat, nat)>, i: nat, j: nat)
    requires i < |ps| && j < |ps|
  {
    rules.near(ps[i], ps[j]) ==> Covered(ps, pairs, i, j)
  }

  ghost predicate RowsDone(rules: Rules, ps: seq<Profile>, pairs: set<(nat, nat)>, x: nat) {
    forall u, v | 0 <= u < x && u < v < |ps| :: NearDone(rules, ps, pairs, u, v)
  }

  ghost predicate RowDone(rules: Rules, ps: seq<Profile>, pairs: set<(nat, nat)>, x: nat, y: nat)
    requires x < |ps| && y <= |ps|
  {
    forall v | x < v < y :: NearDone(rules, ps, pairs, x, v)
  }

  lemma NearStaysDone(rules: Rules, ps: seq<Profile>, before: set<(nat, nat)>, after: set<(nat, nat)>, x: nat, y: nat)
    requires before <= after && x < |ps| && y <= |ps|
    requires RowsDone(rules, ps, before, x) && RowDone(rules, ps, before, x, y)
    ensures RowsDone(rules, ps, after, x) && RowDone(rules, ps, after, x, y)
  {
    forall u, v | 0 <= u < x && u < v < |ps|
      ensures NearDone(rules, ps, after, u, v)
    {
      assert NearDone(rules, ps, before, u, v);
    }
    forall v | x < v < y
      ensures NearDone(rules, ps, after, x, v)
    {
      assert NearDone(rules, ps, before, x, v);
    }
  }

  lemma NothingCompared(rules: Rules, ps: seq<Profile>, pairs: set<(nat, nat)>)
    ensures RowsDone(rules, ps, pairs, 0)
  {
  }

  lemma RowBegins(rules: Rules, ps: seq<Profile>, pairs: set<(nat, nat)>, x: nat)
    requires x < |ps|
    ensures RowDone(rules, ps, pairs, x, x + 1)
  {
  }

  lemma RowNext(rules: Rules, ps: seq<Profile>, pairs: set<(nat, nat)>, x: nat, y: nat)
    requires x < y < |ps| && RowDone(rules, ps, pairs, x, y) && NearDone(rules, ps, pairs, x, y)
    ensures RowDone(rules, ps, pairs, x, y + 1)
  {
  }

  lemma RowOver(rules: Rules, ps: seq<Profile>, pairs: set<(nat, nat)>, x: nat)
    requires x < |ps| && RowsDone(rules, ps, pairs, x) && RowDone(rules, ps, pairs, x, |ps|)
    ensures RowsDone(rules, ps, pairs, x + 1)
  {
  }

  lemma AllCompared(rules: Rules, ps: seq<Profile>, pairs: set<(nat, nat)>)
    requires RowsDone(rules, ps, pairs, |ps|)
    ensures forall i, j | 0 <= i < j < |ps| :: NearDone(rules, ps, pairs, i, j)
  {
  }

  method Compare(rules: Rules, ps: seq<Profile>, before: set<(nat, nat)>, maxPairs: int)
    returns (pairs: set<(nat, nat)>, truncated: bool)
    requires Room(before, maxPairs) && Sound(rules, ps, before)
    ensures before <= pairs && Sound(rules, ps, pairs)
    ensures truncated ==> Full(pairs, maxPairs) || (Room(pairs, maxPairs) && Choose2(|ps|) > MaxComparisons(maxPairs))
    ensures !truncated ==> Room(pairs, maxPairs) && Choose2(|ps|) <= MaxComparisons(maxPairs)
    ensures !truncated ==> forall i, j | 0 <= i < j < |ps| :: NearDone(rules, ps, pairs, i, j)
  {
    hide RowsDone, RowDone, Sound, Covered;
    pairs, truncated := before, false;
    var comparisons := 0;
    var n: nat := |ps|;
    NothingCompared(rules, ps, pairs);
    for x := 0 to n
      invariant before <= pairs && Sound(rules, ps, pairs) && Room(pairs, maxPairs)
      invariant comparisons == Visited(n, x) <= MaxComparisons(maxPairs)
      invariant RowsDone(rules, ps, pairs, x)
    {
      VisitedAll(n, x);
      RowBegins(rules, ps, pairs, x);
      for y := x + 1 to n
        invariant before <= pairs && Sound(rules, ps, pairs) && Room(pairs, maxPairs)
        invariant comparisons == Visited(n, x) + y - x - 1 <= MaxComparisons(maxPairs)
        invariant RowsDone(rules, ps, pairs, x) && RowDone(rules, ps, pairs, x, y)
      {
        comparisons := comparisons + 1;
        if comparisons > MaxComparisons(maxPairs) {
          assert Choose2(n - x) >= n - x - 1;
          return pairs, true;
        }
        if rules.near(ps[x], ps[y]) {
          ghost var earlier := pairs;
          var full;
          pairs, full := Add(ps, x, y, pairs, maxPairs);
          AddedSound(rules, ps, earlier, pairs, x, y);
          NearStaysDone(rules, ps, earlier, pairs, x, y);
          if full {
            return pairs, true;
          }
        }
        RowNext(rules, ps, pairs, x, y);
      }
      RowOver(rules, ps, pairs, x);
    }
    VisitedAll(n, n);
    AllCompared(rules, ps, pairs);
  }

  /**
   candidate_pairs. Every pair is justified; if the result is not marked truncated it holds
   every qualifying pair; and it is marked exactly when the pair limit was reached or there
   were more comparisons than allowed.
   */
  method CandidatePairs(rules: Rules, ps: seq<Profile>, maxPairs: int) returns (pairs: set<(nat, nat)>, truncated: bool)
    ensures Sound(rules, ps, pairs)
    ensures maxPairs >= 1 ==> |pairs| <= maxPairs
    ensures maxPairs <= 0 ==> |pairs| <= 1
    ensures !truncated ==> forall i, j | 0 <= i < j < |ps| && Qualifies(rules, ps[i], ps[j]) :: Covered(ps, pairs, i, j)
    ensures maxPairs >= 1 ==> (truncated <==> |pairs| == maxPairs || TooMany(|ps|, maxPairs))
  {
    Choose2Is(|ps|);
    pairs := {};
    for a := 0 to Attributes
      invariant Sound(rules, ps, pairs) && Room(pairs, maxPairs)
      invariant forall b | 0 <= b < a :: AttributeDone(ps, pairs, b)
    {
      ghost var earlier := pairs;
      var full;
      pairs, full := AddAttribute(rules, ps, a, pairs, maxPairs);
      if full {
        return pairs, true;
      }
      forall b | 0 <= b < a
        ensures AttributeDone(ps, pairs, b)
      {
        AttributeStaysDone(ps, earlier, pairs, b);
      }
    }
    ghost var shared := pairs;
    pairs, truncated := Compare(rules, ps, pairs, maxPairs);
    forall b: nat | b < Attributes
      ensures AttributeDone(ps, pairs, b)
    {
      AttributeStaysDone(ps, shared, pairs, b);
    }
    if !truncated {
      forall i, j | 0 <= i < j < |ps| && Qualifies(rules, ps[i], ps[j])
        ensures Covered(ps, pairs, i, j)
      {
        assert NearDone(rules, ps, pairs, i, j);
        assert AttributeDone(ps, pairs, 0) && AttributeDone(ps, pairs, 1) && AttributeDone(ps, pairs, 2);
      }
    }
  }
}
