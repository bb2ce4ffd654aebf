/**
 * The bid combination selector (combination_generator.go): one bid index
 * per impression, advanced like an odometer; every pair of the chosen bids
 * is checked with the comparator, through a cache keyed by the two
 * (impression, bid) positions; on a failing pair (i, j) the search restarts
 * by advancing position j.
 *
 * The bids and the comparator never change after `NewCombinations`, so they
 * are parameters here; the comparator is any deterministic function on an
 * abstract bid type. The object's mutable part is a `Selector`. A Go panic
 * (an index out of range) is the explicit outcome `Fault`.
 */
module Combinations {
  import opened Optional
  import opened Odometer
  import opened PairCache

  /**
   * What `validateAdPod` reports: every pair passed, or the first pair
   * (in scan order) whose bids are incompatible. `OutOfRange` marks the pair
   * at which Go indexes past a bid list and panics.
   */
  datatype Verdict = Passed | Conflict(i: int, j: int) | OutOfRange(i: int, j: int)

  /** The mutable fields of `Combinations`: the cache and `state`. */
  datatype Selector = Selector(cache: MapCache, started: bool, state: seq<int>, lastIndex: int)

  /**
   * `NewCombinations`: an empty cache and no index vector yet (`state` is
   * nil); the object invariant holds for whatever bids and comparator it is
   * given.
   */
  function NewCombinations<B>(ads: seq<seq<B>>, comp: (B, B) -> bool): (c: Selector)
    ensures ObjectInv(ads, comp, c) && !c.started && c.state == []
    ensures forall xImp, xIndex, yImp, yIndex :: Get(c.cache, xImp, xIndex, yImp, yIndex) == None
  {
    Selector(NewMapCache(), false, [], 0)
  }

  /** The number of bids of each impression. */
  function Sizes<B>(ads: seq<seq<B>>): (sizes: seq<int>)
    ensures |sizes| == |ads| && forall k :: 0 <= k < |ads| ==> sizes[k] == |ads[k]|
  {
    seq(|ads|, k requires 0 <= k < |ads| => |ads[k]|)
  }

  /** One more than each size: the as-written advance can overshoot a list by one. */
  function Radix<B>(ads: seq<seq<B>>): (radix: seq<int>)
    ensures |radix| == |ads| && forall k :: 0 <= k < |ads| ==> radix[k] == |ads[k]| + 1
  {
    seq(|ads|, k requires 0 <= k < |ads| => |ads[k]| + 1)
  }

  /** Position `k` of `v` picks an existing bid of impression `k`. */
  predicate PosInRange<B>(ads: seq<seq<B>>, v: seq<int>, k: int) {
    0 <= k < |v| && k < |ads| && 0 <= v[k] < |ads[k]|
  }

  /** Every position picks an existing bid. */
  predicate InRange<B>(ads: seq<seq<B>>, v: seq<int>) {
    Below(Sizes(ads), v)
  }

  /** The pair (a, b) of `v` picks existing bids that the comparator accepts. */
  predicate Fine<B>(ads: seq<seq<B>>, comp: (B, B) -> bool, v: seq<int>, a: int, b: int) {
    PosInRange(ads, v, a) && PosInRange(ads, v, b) && comp(ads[a][v[a]], ads[b][v[b]])
  }

  /** Every pair `a < b` of `v` is fine. */
  predicate AllCompatible<B>(ads: seq<seq<B>>, comp: (B, B) -> bool, v: seq<int>) {
    forall a, b :: 0 <= a < b < |v| ==> Fine(ads, comp, v, a, b)
  }

  /** A valid ad pod: an existing bid per impression, pairwise compatible. */
  predicate ValidPod<B>(ads: seq<seq<B>>, comp: (B, B) -> bool, v: seq<int>) {
    InRange(ads, v) && AllCompatible(ads, comp, v)
  }

  /**
   * The scan order of `validateAdPod`: by distance `y - x` first, then left
   * to right. `AtOrAfter` says the pair is not before the cursor (step, i).
   */
  predicate AtOrAfter(x: int, y: int, step: int, i: int) {
    y - x > step || (y - x == step && x >= i)
  }

  predicate ScannedBefore(x: int, y: int, a: int, b: int) {
    y - x < b - a || (y - x == b - a && x < a)
  }

  /**
   * The cache-free reference of `validateAdPod` from the cursor
   * (step, i): the first pair in scan order that is not fine, or `Passed`.
   */
  function FirstFailure<B>(ads: seq<seq<B>>, comp: (B, B) -> bool, v: seq<int>, step: int, i: int): (r: Verdict)
    requires |v| == |ads| && step >= 1 && i >= 0
    ensures r.Passed? <==> forall x, y :: 0 <= x < y < |v| && AtOrAfter(x, y, step, i) ==> Fine(ads, comp, v, x, y)
    ensures !r.Passed? ==>
      && 0 <= r.i < r.j < |v| && AtOrAfter(r.i, r.j, step, i) && !Fine(ads, comp, v, r.i, r.j)
      && forall x, y :: 0 <= x < y < |v| && AtOrAfter(x, y, step, i) && ScannedBefore(x, y, r.i, r.j) ==>
           Fine(ads, comp, v, x, y)
    ensures r.Conflict? ==> PosInRange(ads, v, r.i) && PosInRange(ads, v, r.j)
    ensures r.OutOfRange? ==> !PosInRange(ads, v, r.i) || !PosInRange(ads, v, r.j)
    decreases |v| - step, |v| - i
  {
    if step >= |v| then Passed
    else if i + step >= |v| then FirstFailure(ads, comp, v, step + 1, 0)
    else
      var j := i + step;
      assert AtOrAfter(i, j, step, i);
      if !PosInRange(ads, v, i) || !PosInRange(ads, v, j) then OutOfRange(i, j)
      else if !comp(ads[i][v[i]], ads[j][v[j]]) then Conflict(i, j)
      else FirstFailure(ads, comp, v, step, i + 1)
  }

  /** One step of the reference scan, at a pair inside the vector. */
  lemma FirstFailureUnfold<B>(ads: seq<seq<B>>, comp: (B, B) -> bool, v: seq<int>, step: int, i: int)
    requires |v| == |ads| && step >= 1 && i >= 0 && i + step < |v|
    ensures var j := i + step;
      FirstFailure(ads, comp, v, step, i) ==
        if !PosInRange(ads, v, i) || !PosInRange(ads, v, j) then OutOfRange(i, j)
        else if !comp(ads[i][v[i]], ads[j][v[j]]) then Conflict(i, j)
        else FirstFailure(ads, comp, v, step, i + 1)
  {
  }

  /**
   * Cache consistency: every stored entry names existing bids and holds the
   * comparator's answer for them.
   */
  ghost predicate CacheSound<B>(ads: seq<seq<B>>, comp: (B, B) -> bool, cache: MapCache) {
    forall x, xi, y, yi :: Get(cache, x, xi, y, yi).Some? ==>
      && 0 <= x < |ads| && 0 <= xi < |ads[x]| && 0 <= y < |ads| && 0 <= yi < |ads[y]|
      && Get(cache, x, xi, y, yi).value == comp(ads[x][xi], ads[y][yi])
  }

  /** Storing the comparator's answer for existing bids keeps the cache consistent. */
  lemma SetKeepsSound<B>(ads: seq<seq<B>>, comp: (B, B) -> bool, cache: MapCache, x: int, xi: int, y: int, yi: int)
    requires 0 <= x < |ads| && 0 <= xi < |ads[x]| && 0 <= y < |ads| && 0 <= yi < |ads[y]|
    ensures CacheSound(ads, comp, cache) ==> CacheSound(ads, comp, Set(cache, x, xi, y, yi, comp(ads[x][xi], ads[y][yi])))
  {
    var c' := Set(cache, x, xi, y, yi, comp(ads[x][xi], ads[y][yi]));
    forall a, ai, b, bi | CacheSound(ads, comp, cache) && Get(c', a, ai, b, bi).Some?
      ensures && 0 <= a < |ads| && 0 <= ai < |ads[a]| && 0 <= b < |ads| && 0 <= bi < |ads[b]|
              && Get(c', a, ai, b, bi).value == comp(ads[a][ai], ads[b][bi])
    {
      if (a, ai, b, bi) != (x, xi, y, yi) {
        SetLeavesOthers(cache, (x, xi, y, yi), (a, ai, b, bi), comp(ads[x][xi], ads[y][yi]));
      }
    }
  }

  /** What a consistent cache answers is the comparator's answer. */
  lemma GetSound<B>(ads: seq<seq<B>>, comp: (B, B) -> bool, cache: MapCache, x: int, xi: int, y: int, yi: int)
    ensures CacheSound(ads, comp, cache) && Get(cache, x, xi, y, yi).Some? ==>
      && 0 <= x < |ads| && 0 <= xi < |ads[x]| && 0 <= y < |ads| && 0 <= yi < |ads[y]|
      && Get(cache, x, xi, y, yi).value == comp(ads[x][xi], ads[y][yi])
  {
  }

  /**
   * The nested loops of `validateAdPod` from the cursor (step, i), with the
   * cache: a stored answer is used as is, a missing one is computed and
   * stored. With a consistent cache the verdict is the reference's and the
   * cache stays consistent.
   */
  function ValidateFrom<B>(ads: seq<seq<B>>, comp: (B, B) -> bool, cache: MapCache, v: seq<int>, step: int, i: int)
    : (r: (MapCache, Verdict))
    requires |v| == |ads| && step >= 1 && i >= 0
    ensures CacheSound(ads, comp, cache) ==>
      CacheSound(ads, comp, r.0) && r.1 == FirstFailure(ads, comp, v, step, i)
    decreases |v| - step, |v| - i
  {
    if step >= |v| then (cache, Passed)
    else if i + step >= |v| then ValidateFrom(ads, comp, cache, v, step + 1, 0)
    else
      var j := i + step;
      GetSound(ads, comp, cache, i, v[i], j, v[j]);
      FirstFailureUnfold(ads, comp, v, step, i);
      match Get(cache, i, v[i], j, v[j])
      case Some(value) =>
        if !value then (cache, Conflict(i, j)) else ValidateFrom(ads, comp, cache, v, step, i + 1)
      case None =>
        if !PosInRange(ads, v, i) || !PosInRange(ads, v, j) then (cache, OutOfRange(i, j))
        else
          var value := comp(ads[i][v[i]], ads[j][v[j]]);
          var cache' := Set(cache, i, v[i], j, v[j], value);
          SetKeepsSound(ads, comp, cache, i, v[i], j, v[j]);
          if !value then (cache', Conflict(i, j)) else ValidateFrom(ads, comp, cache', v, step, i + 1)
  }

  /** `validateAdPod(comb)`: the scan from distance 1, position 0. */
  function ValidateAdPod<B>(ads: seq<seq<B>>, comp: (B, B) -> bool, cache: MapCache, v: seq<int>): (r: (MapCache, Verdict))
    requires |v| == |ads|
    ensures CacheSound(ads, comp, cache) ==> CacheSound(ads, comp, r.0)
    ensures CacheSound(ads, comp, cache) ==> r.1 == FirstFailure(ads, comp, v, 1, 0)
    ensures CacheSound(ads, comp, cache) ==> (r.1.Passed? <==> AllCompatible(ads, comp, v))
    ensures CacheSound(ads, comp, cache) && r.1.Conflict? ==>
      PosInRange(ads, v, r.1.i) && PosInRange(ads, v, r.1.j) && !Fine(ads, comp, v, r.1.i, r.1.j)
  {
    ValidateFrom(ads, comp, cache, v, 1, 0)
  }

  /**
   * When the scan fails at (a, b), every pair scanned before it passed, and
   * those pairs touch every position up to `b`: so positions `0 .. b` pick
   * existing bids.
   */
  lemma FailurePrefixInRange<B>(ads: seq<seq<B>>, comp: (B, B) -> bool, v: seq<int>, a: int, b: int)
    requires |v| == |ads|
    requires FirstFailure(ads, comp, v, 1, 0) == Conflict(a, b)
    ensures forall k :: 0 <= k <= b ==> PosInRange(ads, v, k)
  {
    forall k | 0 <= k <= b ensures PosInRange(ads, v, k) {
      if k != a && k != b {
        assert AtOrAfter(k, k + 1, 1, 0) && ScannedBefore(k, k + 1, a, b);
      }
    }
  }

  /**
   * The conflict-directed restart skips no valid pod. If the pair (a, b) of
   * `s` fails and positions `p + 1 .. b` of `s` sit at their last bid, then
   * every in-range vector from `s` up to the bump at `p` keeps the bids
   * of `s` at `a` and `b`, so it fails too; with `p = -1` this covers every
   * in-range vector from `s` on.
   */
  lemma RestartSkipsNoValidPod<B>(ads: seq<seq<B>>, comp: (B, B) -> bool, s: seq<int>, a: int, b: int, p: int)
    requires |s| == |ads| && 0 <= a < b < |s| && !Fine(ads, comp, s, a, b)
    requires -1 <= p <= b && forall q :: p < q <= b ==> s[q] == |ads[q]| - 1
    ensures forall w :: InRange(ads, w) && LexLeq(s, w) && (p >= 0 ==> !LexLeq(Bump(s, p), w)) ==>
      !AllCompatible(ads, comp, w)
  {
    forall w | InRange(ads, w) && LexLeq(s, w) && (p >= 0 ==> !LexLeq(Bump(s, p), w))
      ensures !AllCompatible(ads, comp, w)
    {
      if p >= 0 {
        LexTotal(w, Bump(s, p));
      }
      SkipKeepsPrefix(Sizes(ads), s, p, b, w);
      assert w[a] == w[..b + 1][a] && w[b] == w[..b + 1][b];
      assert !Fine(ads, comp, w, a, b);
    }
  }

  /** The outcome of `getNextAdPodCombination`: a vector, nil, or a panic. */
  datatype Next = Yield(sel: Selector) | Nil(sel: Selector) | Panic

  /** The position the one-level carry increments, starting from `L`. */
  function CarryOnce<B>(ads: seq<seq<B>>, s: seq<int>, L: int): (p: int)
    requires 0 <= L < |s| && L < |ads|
    ensures p == L || (p == L - 1 && s[L] == |ads[L]| - 1)
  {
    if s[L] == |ads[L]| - 1 then L - 1 else L
  }

  /**
   * `getNextAdPodCombination` as written. The first call yields the zero
   * vector. Later calls increment position `lastIndex`, or the one to its
   * left when `lastIndex` sits at its last bid, and reset every position to
   * its right; the carry goes back one level only, and with nothing left of
   * it Go indexes `state[-1]` and panics. A negative `lastIndex` (only with
   * no impressions) gives nil. Every yield resets `lastIndex` to the last
   * position.
   */
  function GetNext<B>(ads: seq<seq<B>>, c: Selector): (r: Next)
    requires c.started ==> |c.state| == |ads|
    ensures !c.started ==> r == Yield(c.(started := true, state := Zeros(|ads|), lastIndex := |ads| - 1))
    ensures c.started && c.lastIndex < 0 ==> r == Nil(c)
    ensures r.Yield? ==> r.sel == c.(started := true, state := r.sel.state, lastIndex := |ads| - 1)
    ensures c.started && 0 <= c.lastIndex < |ads| ==>
      var p := CarryOnce(ads, c.state, c.lastIndex);
      (r.Panic? <==> p < 0) && (p >= 0 ==> r.sel.state == Bump(c.state, p))
  {
    if !c.started then
      Yield(c.(started := true, state := Zeros(|ads|), lastIndex := |ads| - 1))
    else if c.lastIndex < 0 then Nil(c)
    else if c.lastIndex >= |ads| then Panic
    else
      var p := CarryOnce(ads, c.state, c.lastIndex);
      if p < 0 then Panic
      else Yield(c.(state := Bump(c.state, p), lastIndex := |ads| - 1))
  }

  /** An advance moves strictly forward in lexicographic order. */
  lemma AdvanceMovesForward<B>(ads: seq<seq<B>>, c: Selector)
    requires c.started && |c.state| == |ads|
    ensures GetNext(ads, c).Yield? ==> LexLess(c.state, GetNext(ads, c).sel.state)
  {
    if GetNext(ads, c).Yield? {
      BumpAdvances(c.state, CarryOnce(ads, c.state, c.lastIndex));
    }
  }

  /** What `GetAdPod` returns: a pod, nil, or a panic. */
  datatype PodResult<B> = Pod(sel: Selector, bids: seq<B>) | NoPod(sel: Selector) | Fault

  /** `adpod[i] = Ads[i][val]` for every position. */
  function Select<B>(ads: seq<seq<B>>, v: seq<int>): (bids: seq<B>)
    requires InRange(ads, v)
    ensures |bids| == |ads| && forall k :: 0 <= k < |ads| ==> bids[k] == ads[k][v[k]]
  {
    seq(|v|, k requires 0 <= k < |v| => ads[k][v[k]])
  }

  /**
   * What holds between calls of `GetAdPod`: the cache is consistent and,
   * once started, the vector picks existing bids and `lastIndex` is the last
   * position.
   */
  ghost predicate ObjectInv<B>(ads: seq<seq<B>>, comp: (B, B) -> bool, c: Selector) {
    && CacheSound(ads, comp, c.cache)
    && (c.started ==> c.lastIndex == |ads| - 1 && InRange(ads, c.state))
  }

  /**
   * What holds of a freshly yielded vector inside the search loop: every
   * position is at most one past its last bid.
   */
  ghost predicate Yielded<B>(ads: seq<seq<B>>, comp: (B, B) -> bool, c: Selector) {
    c.started && c.lastIndex == |ads| - 1 && Below(Radix(ads), c.state) && CacheSound(ads, comp, c.cache)
  }

  /**
   * One as-written restart after the pair (a, b) of `s` fails: the advance
   * from `lastIndex = b` bumps a position at least 0, stays within one past
   * every list, raises the rank, and skips no valid pod.
   */
  lemma RestartStep<B>(ads: seq<seq<B>>, comp: (B, B) -> bool, s: seq<int>, a: int, b: int)
    requires Below(Radix(ads), s)
    requires FirstFailure(ads, comp, s, 1, 0) == Conflict(a, b)
    ensures var p := CarryOnce(ads, s, b);
      && 0 <= p
      && Below(Radix(ads), Bump(s, p))
      && Rank(Radix(ads), s) < Rank(Radix(ads), Bump(s, p)) < Weight(Radix(ads))
      && forall w :: InRange(ads, w) && LexLeq(s, w) && !LexLeq(Bump(s, p), w) ==> !AllCompatible(ads, comp, w)
  {
    var p := CarryOnce(ads, s, b);
    RestartBumpBelow(ads, comp, s, a, b);
    var s' := Bump(s, p);
    BumpAdvances(s, p);
    RankMonotone(Radix(ads), s, s');
    RankBounds(Radix(ads), s');
    RestartSkipsNoValidPod(ads, comp, s, a, b, p);
  }

  /** The position a restart bumps is in range, so the bump stays within one past every list. */
  lemma RestartBumpBelow<B>(ads: seq<seq<B>>, comp: (B, B) -> bool, s: seq<int>, a: int, b: int)
    requires Below(Radix(ads), s)
    requires FirstFailure(ads, comp, s, 1, 0) == Conflict(a, b)
    ensures var p := CarryOnce(ads, s, b); 0 <= p && Below(Radix(ads), Bump(s, p))
  {
    var p := CarryOnce(ads, s, b);
    FailurePrefixInRange(ads, comp, s, a, b);
    var s' := Bump(s, p);
    forall k | 0 <= k < |s'| ensures 0 <= s'[k] < Radix(ads)[k] {
      if k == p {
        assert PosInRange(ads, s, k);
      }
    }
  }

  /**
   * The `for nil != result` loop of `GetAdPod` from a yielded vector:
   * validate; on success select the bids (Go indexes them, so an
   * out-of-range vector panics there); on a failing pair (i, j) set
   * `lastIndex = j` and advance. A returned pod is valid and is the first
   * valid one from the starting vector on, in lexicographic order.
   */
  function Search<B>(ads: seq<seq<B>>, comp: (B, B) -> bool, c: Selector): (r: PodResult<B>)
    requires Yielded(ads, comp, c)
    ensures !r.NoPod?
    ensures r.Pod? ==>
      && ObjectInv(ads, comp, r.sel) && r.sel.started
      && ValidPod(ads, comp, r.sel.state) && r.bids == Select(ads, r.sel.state)
      && LexLeq(c.state, r.sel.state)
    ensures r.Pod? ==> forall w :: InRange(ads, w) && LexLeq(c.state, w) && LexLess(w, r.sel.state) ==>
      !AllCompatible(ads, comp, w)
    decreases Weight(Radix(ads)) - Rank(Radix(ads), c.state)
  {
    var (cache, verdict) := ValidateAdPod(ads, comp, c.cache, c.state);
    if verdict.OutOfRange? then Fault
    else if verdict.Passed? then
      if InRange(ads, c.state) then
        EmptyInterval(c.state);
        Pod(c.(cache := cache), Select(ads, c.state))
      else Fault
    else
      var n := GetNext(ads, c.(cache := cache, lastIndex := verdict.j));
      if !n.Yield? then Fault
      else
        RestartStep(ads, comp, c.state, verdict.i, verdict.j);
        BumpAdvances(c.state, CarryOnce(ads, c.state, verdict.j));
        var r := Search(ads, comp, n.sel);
        if r.Pod? then
          SkipThenSearch(ads, comp, c.state, n.sel.state, r.sel.state);
          r
        else r
  }

  /** A search whose in-range vector passes every pair returns that vector's bids. */
  lemma SearchPassed<B>(ads: seq<seq<B>>, comp: (B, B) -> bool, c: Selector)
    requires Yielded(ads, comp, c) && FirstFailure(ads, comp, c.state, 1, 0).Passed? && InRange(ads, c.state)
    ensures var r := Search(ads, comp, c); r.Pod? && r.sel.state == c.state && r.bids == Select(ads, c.state)
  {
  }

  /** A search whose vector names a missing bid panics. */
  lemma SearchOutOfRange<B>(ads: seq<seq<B>>, comp: (B, B) -> bool, c: Selector)
    requires Yielded(ads, comp, c) && FirstFailure(ads, comp, c.state, 1, 0).OutOfRange?
    ensures Search(ads, comp, c) == Fault
  {
  }

  /** A search whose vector fails a pair continues from the advance at that pair's right position. */
  lemma SearchConflict<B>(ads: seq<seq<B>>, comp: (B, B) -> bool, c: Selector)
    requires Yielded(ads, comp, c) && FirstFailure(ads, comp, c.state, 1, 0).Conflict?
    ensures var n := GetNext(ads, c.(cache := ValidateAdPod(ads, comp, c.cache, c.state).0,
                                     lastIndex := FirstFailure(ads, comp, c.state, 1, 0).j));
      && (n.Yield? ==> Yielded(ads, comp, n.sel))
      && Search(ads, comp, c) == if n.Yield? then Search(ads, comp, n.sel) else Fault
  {
    var f := FirstFailure(ads, comp, c.state, 1, 0);
    RestartStep(ads, comp, c.state, f.i, f.j);
  }

  /**
   * Chaining a skip with a search: if nothing valid lies in `[s, s')` and
   * nothing valid lies in `[s', t)`, nothing valid lies in `[s, t)`.
   */
  lemma SkipThenSearch<B>(ads: seq<seq<B>>, comp: (B, B) -> bool, s: seq<int>, s': seq<int>, t: seq<int>)
    requires LexLess(s, s') && LexLeq(s', t)
    requires forall w :: InRange(ads, w) && LexLeq(s, w) && !LexLeq(s', w) ==> !AllCompatible(ads, comp, w)
    requires forall w :: InRange(ads, w) && LexLeq(s', w) && LexLess(w, t) ==> !AllCompatible(ads, comp, w)
    ensures LexLess(s, t)
    ensures forall w :: InRange(ads, w) && LexLeq(s, w) && LexLess(w, t) ==> !AllCompatible(ads, comp, w)
  {
    LexLessThenLeq(s, s', t);
  }

  /**
   * `GetAdPod` as written. A returned pod is valid, its bids are the
   * selected ones, and no valid pod is passed over: the first call returns
   * the lexicographically least valid pod, and each later call the next one
   * after the previous pod. Nil comes back only with no impressions; running
   * out of combinations otherwise ends in `Fault` (see the findings).
   */
  function GetAdPod<B>(ads: seq<seq<B>>, comp: (B, B) -> bool, c: Selector): (r: PodResult<B>)
    requires ObjectInv(ads, comp, c)
    ensures r.Pod? ==>
      && ObjectInv(ads, comp, r.sel) && r.sel.started
      && ValidPod(ads, comp, r.sel.state) && r.bids == Select(ads, r.sel.state)
    ensures r.NoPod? ==> |ads| == 0 && c.started && r.sel == c
    ensures r.Pod? && !c.started ==>
      forall w :: InRange(ads, w) && LexLess(w, r.sel.state) ==> !AllCompatible(ads, comp, w)
    ensures r.Pod? && c.started ==>
      && LexLess(c.state, r.sel.state)
      && forall w :: InRange(ads, w) && LexLess(c.state, w) && LexLess(w, r.sel.state) ==> !AllCompatible(ads, comp, w)
  {
    var n := GetNext(ads, c);
    match n
    case Panic => Fault
    case Nil(sel) => NoPod(sel)
    case Yield(sel) =>
      if !c.started then
        ZerosLeast(|ads|);
        Search(ads, comp, sel)
      else
        var p := CarryOnce(ads, c.state, c.lastIndex);
        AdvanceSkipsNothing(Sizes(ads), c.state, p);
        BumpAdvances(c.state, p);
        var r := Search(ads, comp, sel);
        LexLessThenLeq(c.state, sel.state, if r.Pod? then r.sel.state else sel.state);
        r
  }

  /** The first call searches from the zero vector with the empty cache. */
  lemma FirstCallSearches<B>(ads: seq<seq<B>>, comp: (B, B) -> bool)
    ensures var c := NewCombinations(ads, comp);
      var c0 := c.(started := true, state := Zeros(|ads|), lastIndex := |ads| - 1);
      && Yielded(ads, comp, c0)
      && GetAdPod(ads, comp, c) == Search(ads, comp, c0)
  {
  }

  /**
   * The full carry the loop evidently intends (its `continue` is commented
   * out): the rightmost position at or left of `L` that is not at its last
   * bid, or -1 when every one of them is.
   */
  function Carry<B>(ads: seq<seq<B>>, s: seq<int>, L: int): (p: int)
    requires |s| == |ads| && -1 <= L < |s|
    ensures -1 <= p <= L
    ensures p >= 0 ==> s[p] != |ads[p]| - 1
    ensures forall q :: p < q <= L ==> s[q] == |ads[q]| - 1
    decreases L + 1
  {
    if L < 0 then -1
    else if s[L] == |ads[L]| - 1 then Carry(ads, s, L - 1)
    else L
  }

  /**
   * The search loop with the full carry: validate, and on a failing pair
   * (i, j) carry from `j`; running out of positions ends the search with
   * nothing. The result is the first valid vector from `s` on in
   * lexicographic order, and `None` exactly when there is none.
   */
  function SearchCorrected<B>(ads: seq<seq<B>>, comp: (B, B) -> bool, s: seq<int>): (r: Option<seq<int>>)
    requires InRange(ads, s)
    ensures r.Some? ==> ValidPod(ads, comp, r.value) && LexLeq(s, r.value)
    ensures r.Some? ==> forall w :: InRange(ads, w) && LexLeq(s, w) && LexLess(w, r.value) ==> !AllCompatible(ads, comp, w)
    ensures r.None? ==> forall w :: InRange(ads, w) && LexLeq(s, w) ==> !AllCompatible(ads, comp, w)
    decreases Weight(Sizes(ads)) - Rank(Sizes(ads), s)
  {
    var verdict := FirstFailure(ads, comp, s, 1, 0);
    if verdict.Passed? then
      EmptyInterval(s);
      Some(s)
    else if verdict.OutOfRange? then
      assert false;
      None
    else
      var p := Carry(ads, s, verdict.j);
      RestartSkipsNoValidPod(ads, comp, s, verdict.i, verdict.j, p);
      if p < 0 then None
      else
        var s' := Bump(s, p);
        assert InRange(ads, s');
        BumpAdvances(s, p);
        RankMonotone(Sizes(ads), s, s');
        RankBounds(Sizes(ads), s');
        var r := SearchCorrected(ads, comp, s');
        if r.Some? then
          SkipThenSearch(ads, comp, s, s', r.value);
          r
        else
          SkipThenNothing(ads, comp, s, s');
          r
  }

  /** If nothing valid lies in `[s, s')` nor from `s'` on, nothing valid lies from `s` on. */
  lemma SkipThenNothing<B>(ads: seq<seq<B>>, comp: (B, B) -> bool, s: seq<int>, s': seq<int>)
    requires forall w :: InRange(ads, w) && LexLeq(s, w) && !LexLeq(s', w) ==> !AllCompatible(ads, comp, w)
    requires forall w :: InRange(ads, w) && LexLeq(s', w) ==> !AllCompatible(ads, comp, w)
    ensures forall w :: InRange(ads, w) && LexLeq(s, w) ==> !AllCompatible(ads, comp, w)
  {
  }

  /**
   * The first pod with the full carry: the lexicographically least valid
   * vector, or `None` when no vector is valid (in particular when some
   * impression has no bids).
   */
  function FirstPodCorrected<B>(ads: seq<seq<B>>, comp: (B, B) -> bool): (r: Option<seq<int>>)
    ensures r.Some? ==> ValidPod(ads, comp, r.value)
    ensures r.Some? ==> forall w :: InRange(ads, w) && LexLess(w, r.value) ==> !AllCompatible(ads, comp, w)
    ensures r.None? ==> forall w :: InRange(ads, w) ==> !AllCompatible(ads, comp, w)
  {
    if exists k :: 0 <= k < |ads| && |ads[k]| == 0 then
      None
    else
      var z := Zeros(|ads|);
      ZerosLeast(|ads|);
      SearchCorrected(ads, comp, z)
  }

  /**
   * The next pod after `v` with the full carry: the least valid vector
   * strictly above `v`, or `None` when there is none.
   */
  function NextPodCorrected<B>(ads: seq<seq<B>>, comp: (B, B) -> bool, v: seq<int>): (r: Option<seq<int>>)
    requires InRange(ads, v)
    ensures r.Some? ==> ValidPod(ads, comp, r.value) && LexLess(v, r.value)
    ensures r.Some? ==> forall w :: InRange(ads, w) && LexLess(v, w) && LexLess(w, r.value) ==> !AllCompatible(ads, comp, w)
    ensures r.None? ==> forall w :: InRange(ads, w) && LexLess(v, w) ==> !AllCompatible(ads, comp, w)
  {
    var p := Carry(ads, v, |ads| - 1);
    AdvanceSkipsNothing(Sizes(ads), v, p);
    if p < 0 then None
    else
      var s' := Bump(v, p);
      assert InRange(ads, s');
      BumpAdvances(v, p);
      var r := SearchCorrected(ads, comp, s');
      LexLessThenLeq(v, s', if r.Some? then r.value else s');
      r
  }

  /** Two valid vectors that are each least valid in the same interval are equal. */
  lemma LeastValidUnique<B>(ads: seq<seq<B>>, comp: (B, B) -> bool, lo: seq<int>, x: seq<int>, y: seq<int>, strict: bool)
    requires ValidPod(ads, comp, x) && ValidPod(ads, comp, y)
    requires strict ==> LexLess(lo, x) && LexLess(lo, y)
    requires forall w :: InRange(ads, w) && (strict ==> LexLess(lo, w)) && LexLess(w, x) ==> !AllCompatible(ads, comp, w)
    requires forall w :: InRange(ads, w) && (strict ==> LexLess(lo, w)) && LexLess(w, y) ==> !AllCompatible(ads, comp, w)
    ensures x == y
  {
    LexTotal(x, y);
  }

  /**
   * Whenever the as-written `GetAdPod` returns a pod, it is the pod the
   * full-carry enumeration returns: the one-level carry only ever loses by
   * panicking, never by returning a different pod.
   */
  lemma GetAdPodAgrees<B>(ads: seq<seq<B>>, comp: (B, B) -> bool, c: Selector)
    requires ObjectInv(ads, comp, c)
    ensures var r := GetAdPod(ads, comp, c);
      r.Pod? ==> (if c.started then NextPodCorrected(ads, comp, c.state) else FirstPodCorrected(ads, comp)) == Some(r.sel.state)
  {
    var r := GetAdPod(ads, comp, c);
    if r.Pod? {
      var x := r.sel.state;
      if c.started {
        var y := NextPodCorrected(ads, comp, c.state);
        assert y.Some?;
        LeastValidUnique(ads, comp, c.state, x, y.value, true);
      } else {
        var y := FirstPodCorrected(ads, comp);
        assert y.Some?;
        LeastValidUnique(ads, comp, [], x, y.value, false);
      }
    }
  }
}
