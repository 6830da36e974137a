/** Port allocation: each site owns a base port `p` from
    `range(PORT_MIN, PORT_MAX, PORT_STEP)` and the block `p` (HTTP),
    `p + 1` (HTTPS), `p + 2` (database). */
module Ports {
  import opened Wrappers

  const PortMin: int := 10000
  const PortMax: int := 10100
  const PortStep: int := 3

  /** Python's `range(lo, hi, step)` for a positive step. */
  function Range(lo: int, hi: int, step: int): seq<int>
    requires step > 0
    decreases hi - lo
  {
    if lo >= hi then [] else [lo] + Range(lo + step, hi, step)
  }

  /** The base ports the allocator may hand out. */
  function Candidates(): seq<int> {
    Range(PortMin, PortMax, PortStep)
  }

  predicate IsCandidate(p: int) {
    PortMin <= p < PortMax && (p - PortMin) % PortStep == 0
  }

  /** A range has `ceil((hi - lo) / step)` elements: `n` of them with
      `(n - 1) * step < hi - lo <= n * step`. */
  lemma {:induction false} RangeLength(lo: int, hi: int, step: int)
    requires step > 0
    ensures lo >= hi ==> |Range(lo, hi, step)| == 0
    ensures lo < hi ==> (|Range(lo, hi, step)| - 1) * step < hi - lo <= |Range(lo, hi, step)| * step
    decreases hi - lo
  {
    if lo < hi {
      RangeLength(lo + step, hi, step);
      var n := |Range(lo + step, hi, step)|;
      assert |Range(lo, hi, step)| == n + 1;
      assert (n + 1) * step == n * step + step;
    }
  }

  /** The elements of a range are `lo + step * i`, in increasing order. */
  lemma {:induction false} RangeElements(lo: int, hi: int, step: int)
    requires step > 0
    ensures forall i :: 0 <= i < |Range(lo, hi, step)| ==> Range(lo, hi, step)[i] == lo + step * i
    decreases hi - lo
  {
    if lo < hi {
      RangeElements(lo + step, hi, step);
      var r := Range(lo, hi, step);
      forall i | 0 < i < |r|
        ensures r[i] == lo + step * i
      {
        assert r[i] == Range(lo + step, hi, step)[i - 1];
      }
    }
  }

  /** There are 34 candidates, `10000 + 3 * i`, and they are exactly the
      ports satisfying `IsCandidate`. */
  lemma CandidatesAre()
    ensures |Candidates()| == 34
    ensures forall i :: 0 <= i < 34 ==> Candidates()[i] == PortMin + PortStep * i
    ensures forall p :: p in Candidates() <==> IsCandidate(p)
  {
    CandidatesLength();
    RangeElements(PortMin, PortMax, PortStep);
    var c := Candidates();
    forall i | 0 <= i < |c|
      ensures IsCandidate(c[i])
    {
      CandidateAt(i);
    }
    forall p | IsCandidate(p)
      ensures p in c
    {
      CandidateIndex(p);
    }
  }

  lemma CandidatesLength()
    ensures |Candidates()| == 34
  {
    RangeLength(PortMin, PortMax, PortStep);
    var n := |Candidates()|;
    assert (n - 1) * 3 < 100 <= n * 3;
  }

  /** The `i`-th candidate is `10000 + 3 * i`, which is a candidate. */
  lemma CandidateAt(i: nat)
    requires i < |Candidates()|
    ensures Candidates()[i] == PortMin + PortStep * i
    ensures IsCandidate(Candidates()[i])
  {
    CandidatesLength();
    RangeElements(PortMin, PortMax, PortStep);
    assert (PortStep * i) % PortStep == 0;
  }

  /** Every candidate port sits at index `(p - 10000) / 3`. */
  lemma CandidateIndex(p: int)
    requires IsCandidate(p)
    ensures p in Candidates()
  {
    CandidatesLength();
    var q := p - PortMin;
    var i := q / 3;
    assert q == 3 * i + q % 3;
    assert 0 <= i < 34;
    CandidateAt(i);
  }

  /** The first element of `cands` that is not in `used`, or None when every
      one is used (`next(...)` raising StopIteration). */
  function FirstNotIn(cands: seq<int>, used: set<int>): (r: Option<nat>)
    ensures r.Some? ==> r.value < |cands| && cands[r.value] !in used
    ensures r.Some? ==> forall j :: 0 <= j < r.value ==> cands[j] in used
    ensures r.None? <==> forall j :: 0 <= j < |cands| ==> cands[j] in used
    decreases |cands|
  {
    if |cands| == 0 then None
    else if cands[0] !in used then Some(0)
    else
      match FirstNotIn(cands[1..], used)
      case None => None
      case Some(k) => Some(k + 1)
  }

  /** `find_unused_port` given the ports already held by sites: the least
      candidate not in `used`; None exactly when all 34 candidates are used. */
  function FindUnusedPort(used: set<int>): (r: Option<int>)
    ensures r.Some? ==> IsCandidate(r.value) && r.value !in used
    ensures r.Some? ==> forall q :: IsCandidate(q) && q < r.value ==> q in used
    ensures r.None? <==> forall q :: IsCandidate(q) ==> q in used
  {
    CandidatesAre();
    var c := Candidates();
    match FirstNotIn(c, used)
    case None => None
    case Some(k) =>
      assert forall q :: IsCandidate(q) && q < c[k] ==> q == c[(q - PortMin) / PortStep];
      Some(c[k])
  }

  /** With sites on 10000 and 10003 the next site gets 10006. */
  lemma ThirdSiteGets10006()
    ensures FindUnusedPort({10000, 10003}) == Some(10006)
  {
    var r := FindUnusedPort({10000, 10003});
    assert IsCandidate(10006);
    assert r.Some?;
    var p := r.value;
    assert p <= 10006;
    assert p >= 10006 by {
      assert forall q :: IsCandidate(q) && q < 10006 ==> q == 10000 || q == 10003;
    }
  }

  function HttpPort(base: int): int { base }
  function HttpsPort(base: int): int { base + 1 }
  function DbPort(base: int): int { base + 2 }

  /** The three ports a site listens on. */
  function Block(base: int): set<int> {
    {HttpPort(base), HttpsPort(base), DbPort(base)}
  }

  /** Because the step is 3, distinct base ports own disjoint blocks. */
  lemma BlocksDisjoint(p: int, q: int)
    requires IsCandidate(p) && IsCandidate(q) && p != q
    ensures Block(p) !! Block(q)
  {
    var a := (p - PortMin) / PortStep;
    var b := (q - PortMin) / PortStep;
    assert p == PortMin + PortStep * a;
    assert q == PortMin + PortStep * b;
    assert a != b;
    assert p - q >= 3 || q - p >= 3;
  }

  /** When every held base port is a candidate, the block of the port handed
      out overlaps none of the blocks already held. */
  lemma AllocatedBlockIsFree(used: set<int>)
    requires forall u :: u in used ==> IsCandidate(u)
    requires FindUnusedPort(used).Some?
    ensures forall u :: u in used ==> Block(u) !! Block(FindUnusedPort(used).value)
  {
    var p := FindUnusedPort(used).value;
    forall u | u in used
      ensures Block(u) !! Block(p)
    {
      BlocksDisjoint(u, p);
    }
  }

  /** Every block starts at or above PORT_MIN, and the last candidate's
      database port is PORT_MAX + 1, past the advertised range. */
  lemma BlockBounds(p: int)
    requires IsCandidate(p)
    ensures forall x :: x in Block(p) ==> PortMin <= x <= PortMax + 1
    ensures IsCandidate(PortMax - 1) && DbPort(PortMax - 1) == PortMax + 1
  {
  }
}
