/**
 Link candidates: one version chain per pair of subjects. Rescoring a pair with a changed
 feature digest inserts a new version that supersedes the previous one.
 */
module LinkCandidates {
  import opened Common

  datatype ReviewStatus = Pending | Accepted | Rejected

  datatype Candidate = Candidate(a: nat, b: nat, version: nat, supersedes: Option<nat>,
                                 digest: nat, score: nat, status: ReviewStatus)

  /** A pair as scored by one correlation run. */
  datatype Scored = Scored(a: nat, b: nat, digest: nat, score: nat)

  predicate OfPair(c: Candidate, a: nat, b: nat) {
    c.a == a && c.b == b
  }

  /** The pair's rows ordered by version, descending, limit one. */
  function Newest(cs: seq<Candidate>, a: nat, b: nat): (k: Option<nat>)
    ensures k.Some? ==> k.value < |cs| && OfPair(cs[k.value], a, b)
    ensures forall i | 0 <= i < |cs| && OfPair(cs[i], a, b) :: k.Some? && cs[i].version <= cs[k.value].version
  {
    if cs == [] then None
    else
      var n := |cs| - 1;
      var rest := Newest(cs[..n], a, b);
      if OfPair(cs[n], a, b) && (rest.None? || cs[n].version > cs[rest.value].version) then Some(n) else rest
  }

  /** latest_links: no row of the same pair has a greater version. */
  predicate IsLatestLink(cs: seq<Candidate>, i: nat)
    requires i < |cs|
  {
    !exists j :: 0 <= j < |cs| && OfPair(cs[j], cs[i].a, cs[i].b) && cs[j].version > cs[i].version
  }

  function NextVersion(cs: seq<Candidate>, a: nat, b: nat): nat {
    match Newest(cs, a, b)
    case None => 1
    case Some(k) => cs[k].version + 1
  }

  /** Rescoring one pair: unchanged features leave the table alone. */
  function Rescore(cs: seq<Candidate>, s: Scored): seq<Candidate> {
    var previous := Newest(cs, s.a, s.b);
    if previous.Some? && cs[previous.value].digest == s.digest then cs
    else cs + [Candidate(s.a, s.b, NextVersion(cs, s.a, s.b), previous, s.digest, s.score, Pending)]
  }

  function RescoreAll(cs: seq<Candidate>, scored: seq<Scored>): seq<Candidate>
    decreases |scored|
  {
    if scored == [] then cs
    else Rescore(RescoreAll(cs, scored[..|scored| - 1]), scored[|scored| - 1])
  }

  lemma NoneScored(cs: seq<Candidate>)
    ensures RescoreAll(cs, []) == cs
  {
  }

  lemma NextScored(cs: seq<Candidate>, scored: seq<Scored>, i: nat)
    requires i < |scored|
    ensures RescoreAll(cs, scored[..i + 1]) == Rescore(RescoreAll(cs, scored[..i]), scored[i])
  {
    assert scored[..i + 1][..i] == scored[..i];
  }

  /** Every row continues its pair's chain at the time it was inserted. */
  ghost predicate Versioned(cs: seq<Candidate>) {
    forall i | 0 <= i < |cs| :: Continues(cs, i)
  }

  ghost predicate Continues(cs: seq<Candidate>, i: nat)
    requires i < |cs|
  {
    && cs[i].supersedes == Newest(cs[..i], cs[i].a, cs[i].b)
    && cs[i].version == NextVersion(cs[..i], cs[i].a, cs[i].b)
  }

  /** The newest row is the last inserted one of its pair, with a version above all others. */
  lemma {:induction false} NewestIsLast(cs: seq<Candidate>, a: nat, b: nat, i: nat)
    requires Versioned(cs) && i < |cs| && OfPair(cs[i], a, b)
    ensures i <= Newest(cs, a, b).value
    ensures i < Newest(cs, a, b).value ==> cs[i].version < cs[Newest(cs, a, b).value].version
  {
    var n := |cs| - 1;
    assert Continues(cs, n);
    if i < n {
      VersionedPrefix(cs, n);
      NewestIsLast(cs[..n], a, b, i);
    }
  }

  lemma VersionedPrefix(cs: seq<Candidate>, n: nat)
    requires Versioned(cs) && n <= |cs|
    ensures Versioned(cs[..n])
  {
    forall i | 0 <= i < n
      ensures Continues(cs[..n], i)
    {
      assert cs[..n][..i] == cs[..i];
      assert Continues(cs, i);
    }
  }

  /** The two ways the source asks for current candidates agree. */
  lemma LatestLinkIsNewest(cs: seq<Candidate>, i: nat)
    requires Versioned(cs) && i < |cs|
    ensures IsLatestLink(cs, i) <==> Newest(cs, cs[i].a, cs[i].b) == Some(i)
  {
    NewestIsLast(cs, cs[i].a, cs[i].b, i);
    var k := Newest(cs, cs[i].a, cs[i].b).value;
    assert k != i ==> OfPair(cs[k], cs[i].a, cs[i].b) && cs[k].version > cs[i].version;
  }

  function CountPair(cs: seq<Candidate>, a: nat, b: nat): nat {
    if cs == [] then 0
    else CountPair(cs[..|cs| - 1], a, b) + if OfPair(cs[|cs| - 1], a, b) then 1 else 0
  }

  /** The versions of a pair are 1, 2, 3, ... in insertion order. */
  lemma {:induction false} VersionsCount(cs: seq<Candidate>, a: nat, b: nat)
    requires Versioned(cs)
    ensures NextVersion(cs, a, b) == CountPair(cs, a, b) + 1
  {
    if cs != [] {
      VersionedPrefix(cs, |cs| - 1);
      assert Continues(cs, |cs| - 1);
      VersionsCount(cs[..|cs| - 1], a, b);
    }
  }

  lemma RescoreKeepsVersions(cs: seq<Candidate>, s: Scored)
    requires Versioned(cs)
    ensures Versioned(Rescore(cs, s))
    ensures cs <= Rescore(cs, s)
    ensures forall a: nat, b: nat | a != s.a || b != s.b :: Newest(Rescore(cs, s), a, b) == Newest(cs, a, b)
    ensures Rescore(cs, s) != cs ==> Newest(Rescore(cs, s), s.a, s.b) == Some(|cs|)
  {
    var cs' := Rescore(cs, s);
    if cs' != cs {
      assert cs'[..|cs|] == cs;
      forall i | 0 <= i < |cs'|
        ensures Continues(cs', i)
      {
        assert cs'[..i] == cs[..i];
        assert i < |cs| ==> Continues(cs, i);
      }
    }
  }

  /** A review status plays no part in the version chain. */
  lemma {:induction false} StatusKeepsNewest(cs: seq<Candidate>, i: nat, status: ReviewStatus, a: nat, b: nat)
    requires i < |cs|
    ensures Newest(cs[i := cs[i].(status := status)], a, b) == Newest(cs, a, b)
  {
    var n := |cs| - 1;
    var cs' := cs[i := cs[i].(status := status)];
    if i < n {
      assert cs'[..n] == cs[..n][i := cs[i].(status := status)];
      StatusKeepsNewest(cs[..n], i, status, a, b);
    } else {
      assert cs'[..n] == cs[..n];
    }
  }

  lemma StatusKeepsVersions(cs: seq<Candidate>, i: nat, status: ReviewStatus)
    requires Versioned(cs) && i < |cs|
    ensures Versioned(cs[i := cs[i].(status := status)])
  {
    var cs' := cs[i := cs[i].(status := status)];
    forall k | 0 <= k < |cs|
      ensures Continues(cs', k)
    {
      assert Continues(cs, k);
      if i < k {
        assert cs'[..k] == cs[..k][i := cs[i].(status := status)];
        StatusKeepsNewest(cs[..k], i, status, cs[k].a, cs[k].b);
      } else {
        assert cs'[..k] == cs[..k];
      }
    }
  }
}
