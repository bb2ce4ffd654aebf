/**
 * Index vectors of the combination selector: one position per impression,
 * advanced like an odometer. Lexicographic order on vectors, the "bump"
 * that increments one position and resets the ones to its right, and a
 * mixed-radix rank that turns lexicographic progress into a decreasing
 * number.
 */
module Odometer {

  /** `make(ImpBidsIndex, n)`. */
  function Zeros(n: nat): (z: seq<int>)
    ensures |z| == n && forall k :: 0 <= k < n ==> z[k] == 0
  {
    seq(n, _ => 0)
  }

  /** Position `p` incremented, positions left of it kept, positions right of it reset to 0. */
  function Bump(s: seq<int>, p: nat): (r: seq<int>)
    requires p < |s|
    ensures |r| == |s|
    ensures forall k :: 0 <= k < p ==> r[k] == s[k]
    ensures r[p] == s[p] + 1
    ensures forall k :: p < k < |s| ==> r[k] == 0
  {
    s[..p] + [s[p] + 1] + Zeros(|s| - p - 1)
  }

  /** Strict lexicographic order, most significant position first. */
  predicate LexLess(v: seq<int>, w: seq<int>)
    decreases |v|
  {
    |v| > 0 && |w| > 0 && (v[0] < w[0] || (v[0] == w[0] && LexLess(v[1..], w[1..])))
  }

  predicate LexLeq(v: seq<int>, w: seq<int>) {
    v == w || LexLess(v, w)
  }

  /** Every entry of `v` lies in `[0, radix[k])`. */
  predicate Below(radix: seq<int>, v: seq<int>) {
    |v| == |radix| && forall k :: 0 <= k < |v| ==> 0 <= v[k] < radix[k]
  }

  /** A bump moves strictly forward. */
  lemma {:induction false} BumpAdvances(s: seq<int>, p: nat)
    requires p < |s|
    ensures LexLess(s, Bump(s, p))
    decreases p
  {
    if p > 0 {
      assert Bump(s, p)[1..] == Bump(s[1..], p - 1);
      BumpAdvances(s[1..], p - 1);
    }
  }

  lemma {:induction false} LexIrreflexive(v: seq<int>)
    ensures !LexLess(v, v)
    decreases |v|
  {
    if |v| > 0 {
      LexIrreflexive(v[1..]);
    }
  }

  lemma {:induction false} LexAsymmetric(v: seq<int>, w: seq<int>)
    requires LexLess(v, w)
    ensures !LexLess(w, v)
    decreases |v|
  {
    if v[0] == w[0] {
      LexAsymmetric(v[1..], w[1..]);
    }
  }

  lemma {:induction false} LexTransitive(u: seq<int>, v: seq<int>, w: seq<int>)
    requires LexLess(u, v) && LexLess(v, w)
    ensures LexLess(u, w)
    decreases |u|
  {
    if u[0] == v[0] && v[0] == w[0] {
      LexTransitive(u[1..], v[1..], w[1..]);
    }
  }

  /** Vectors of one length are totally ordered. */
  lemma {:induction false} LexTotal(v: seq<int>, w: seq<int>)
    requires |v| == |w|
    ensures v == w || LexLess(v, w) || LexLess(w, v)
    decreases |v|
  {
    if |v| > 0 && v[0] == w[0] {
      LexTotal(v[1..], w[1..]);
      if v[1..] == w[1..] {
        assert v == [v[0]] + v[1..] && w == [w[0]] + w[1..];
      }
    }
  }

  lemma LexLessThenLeq(u: seq<int>, v: seq<int>, w: seq<int>)
    ensures LexLess(u, v) && LexLeq(v, w) ==> LexLess(u, w)
  {
    if LexLess(u, v) && LexLess(v, w) {
      LexTransitive(u, v, w);
    }
  }

  /** No vector lies from `s` (inclusive) to `s` (exclusive). */
  lemma EmptyInterval(s: seq<int>)
    ensures forall w :: LexLeq(s, w) ==> !LexLess(w, s)
  {
    forall w | LexLeq(s, w) ensures !LexLess(w, s) {
      if w == s {
        LexIrreflexive(s);
      } else {
        LexAsymmetric(s, w);
      }
    }
  }

  /** The zero vector is at or below every vector of its length with non-negative entries. */
  lemma ZerosLeast(n: nat)
    ensures forall w :: |w| == n && (forall k :: 0 <= k < n ==> w[k] >= 0) ==> LexLeq(Zeros(n), w)
  {
    forall w | |w| == n && (forall k :: 0 <= k < n ==> w[k] >= 0) ensures LexLeq(Zeros(n), w) {
      NothingBelowZeros(w);
      LexTotal(w, Zeros(n));
    }
  }

  /** Nothing with non-negative entries lies below the zero vector. */
  lemma {:induction false} NothingBelowZeros(w: seq<int>)
    requires forall k :: 0 <= k < |w| ==> w[k] >= 0
    ensures !LexLess(w, Zeros(|w|))
    decreases |w|
  {
    if |w| > 0 {
      assert Zeros(|w|)[1..] == Zeros(|w| - 1);
      NothingBelowZeros(w[1..]);
    }
  }

  /**
   * The skip of a conflict-directed restart. Suppose every position in
   * `(p, b]` of `s` is at its last index. Then every in-range vector from `s`
   * up to (not including) the bump at `p` agrees with `s` on positions
   * `0 .. b`. With `p = -1` (nothing left to bump) this holds for every
   * in-range vector from `s` on.
   */
  lemma {:induction false} SkipKeepsPrefix(radix: seq<int>, s: seq<int>, p: int, b: int, w: seq<int>)
    requires |s| == |radix| && -1 <= p <= b < |s|
    requires forall q :: p < q <= b ==> s[q] == radix[q] - 1
    requires Below(radix, w)
    requires LexLeq(s, w)
    requires p >= 0 ==> LexLess(w, Bump(s, p))
    ensures w[..b + 1] == s[..b + 1]
    decreases |s|
  {
    if w != s {
      var s1, w1, r1 := s[1..], w[1..], radix[1..];
      assert Below(r1, w1);
      if s[0] < w[0] {
        if p == 0 {
          assert Bump(s, 0)[1..] == Zeros(|w1|);
          NothingBelowZeros(w1);
        }
      } else {
        if b > 0 {
          if p >= 1 {
            assert Bump(s, p)[1..] == Bump(s1, p - 1);
          }
          SkipKeepsPrefix(r1, s1, if p >= 1 then p - 1 else -1, b - 1, w1);
          assert w[..b + 1] == [w[0]] + w1[..b] && s[..b + 1] == [s[0]] + s1[..b];
        }
      }
    }
  }

  /** The number of vectors below `radix`: the product of the radices. */
  function Weight(radix: seq<int>): int
    decreases |radix|
  {
    if |radix| == 0 then 1 else radix[0] * Weight(radix[1..])
  }

  /** Mixed-radix value of `v`, most significant position first. */
  function Rank(radix: seq<int>, v: seq<int>): int
    requires |v| == |radix|
    decreases |v|
  {
    if |v| == 0 then 0 else v[0] * Weight(radix[1..]) + Rank(radix[1..], v[1..])
  }

  lemma MulMono(a: int, b: int, c: int)
    requires a <= b && c >= 0
    ensures a * c <= b * c
  {
  }

  /** The rank of a vector below `radix` lies in `[0, Weight(radix))`. */
  lemma {:induction false} RankBounds(radix: seq<int>, v: seq<int>)
    requires Below(radix, v)
    ensures 0 <= Rank(radix, v) < Weight(radix)
    decreases |v|
  {
    if |v| > 0 {
      var r1, v1 := radix[1..], v[1..];
      assert Below(r1, v1);
      RankBounds(r1, v1);
      var w := Weight(r1);
      assert Rank(radix, v) == v[0] * w + Rank(r1, v1);
      assert Weight(radix) == radix[0] * w;
      MulMono(0, v[0], w);
      MulMono(v[0] + 1, radix[0], w);
      assert (v[0] + 1) * w == v[0] * w + w;
    }
  }

  /** Lexicographic progress is rank progress. */
  lemma {:induction false} RankMonotone(radix: seq<int>, v: seq<int>, w: seq<int>)
    requires Below(radix, v) && Below(radix, w)
    requires LexLess(v, w)
    ensures Rank(radix, v) < Rank(radix, w)
    decreases |v|
  {
    var r1, v1, w1 := radix[1..], v[1..], w[1..];
    assert Below(r1, v1) && Below(r1, w1);
    var weight := Weight(r1);
    assert Rank(radix, v) == v[0] * weight + Rank(r1, v1);
    assert Rank(radix, w) == w[0] * weight + Rank(r1, w1);
    if v[0] < w[0] {
      RankBounds(r1, v1);
      RankBounds(r1, w1);
      MulMono(v[0] + 1, w[0], weight);
      assert (v[0] + 1) * weight == v[0] * weight + weight;
    } else {
      RankMonotone(r1, v1, w1);
    }
  }

  /**
   * An advance from `v` that bumps position `p`, where every position right
   * of `p` was at its last index, passes over no vector below `radix`: none
   * lies strictly between `v` and the bump, and with `p = -1` none lies above `v`.
   */
  lemma AdvanceSkipsNothing(radix: seq<int>, v: seq<int>, p: int)
    requires |v| == |radix| && -1 <= p < |v|
    requires forall q :: p < q < |v| ==> v[q] == radix[q] - 1
    ensures forall w :: Below(radix, w) && LexLess(v, w) ==> p >= 0 && LexLeq(Bump(v, p), w)
  {
    forall w | Below(radix, w) && LexLess(v, w) ensures p >= 0 && LexLeq(Bump(v, p), w) {
      if p >= 0 {
        LexTotal(w, Bump(v, p));
      }
      if p < 0 || LexLess(w, Bump(v, p)) {
        SkipKeepsPrefix(radix, v, p, |v| - 1, w);
        assert w == w[..|v|] && v == v[..|v|];
        LexIrreflexive(v);
      }
    }
  }
}
