/**
 * Concrete runs of the combination selector that show where the one-level
 * carry of `getNextAdPodCombination` departs from the enumeration it is
 * meant to perform, and one run where the conflict-directed restart works
 * as intended.
 */
module CombinationsExamples {
  import opened Optional
  import opened Odometer
  import opened Combinations

  /** Three impressions with bids 0 or 1, then 2, then 3. */
  function OvershootAds(): seq<seq<int>> {
    [[0, 1], [2], [3]]
  }

  /** Bid 0 may not be placed with bid 3; every other pair is fine. */
  function RejectZeroThree(): (int, int) -> bool {
    (x: int, y: int) => !(x == 0 && y == 3)
  }

  /** The scan of `[0, 0, 0]` fails at the pair (0, 2): bid 0 with bid 3. */
  lemma ZerosFailAtZeroTwo()
    ensures FirstFailure(OvershootAds(), RejectZeroThree(), [0, 0, 0], 1, 0) == Conflict(0, 2)
  {
    var ads, comp, z := OvershootAds(), RejectZeroThree(), [0, 0, 0];
    FirstFailureUnfold(ads, comp, z, 1, 0);
    FirstFailureUnfold(ads, comp, z, 1, 1);
    FirstFailureUnfold(ads, comp, z, 2, 0);
  }

  /** The scan of `[0, 1, 0]` meets position 1 past its only bid. */
  lemma OvershootOutOfRange()
    ensures FirstFailure(OvershootAds(), RejectZeroThree(), [0, 1, 0], 1, 0) == OutOfRange(0, 1)
  {
    FirstFailureUnfold(OvershootAds(), RejectZeroThree(), [0, 1, 0], 1, 0);
  }

  /** Every pair of `[1, 0, 0]` is compatible. */
  lemma OneZeroZeroPasses()
    ensures FirstFailure(OvershootAds(), RejectZeroThree(), [1, 0, 0], 1, 0) == Passed
  {
    var ads, comp, v := OvershootAds(), RejectZeroThree(), [1, 0, 0];
    FirstFailureUnfold(ads, comp, v, 1, 0);
    FirstFailureUnfold(ads, comp, v, 1, 1);
    FirstFailureUnfold(ads, comp, v, 2, 0);
    assert FirstFailure(ads, comp, v, 2, 1) == Passed;
  }

  /**
   * The first call fails the pair (0, 2) of `[0, 0, 0]`, restarts from
   * `lastIndex = 2`, carries once to position 1 (already at its last bid)
   * and indexes `Ads[1][1]`: a panic.
   */
  lemma OneLevelCarryPanics()
    ensures GetAdPod(OvershootAds(), RejectZeroThree(), NewCombinations(OvershootAds(), RejectZeroThree())) == Fault
  {
    FirstCallSearches(OvershootAds(), RejectZeroThree());
    assert Zeros(3) == [0, 0, 0];
    OvershootSearch();
  }

  /** The search from `[0, 0, 0]` restarts at `[0, 1, 0]` and panics there. */
  lemma OvershootSearch()
    ensures var c := NewCombinations(OvershootAds(), RejectZeroThree());
      Search(OvershootAds(), RejectZeroThree(), c.(started := true, state := [0, 0, 0], lastIndex := 2)) == Fault
  {
    var ads, comp := OvershootAds(), RejectZeroThree();
    var z := [0, 0, 0];
    FirstCallSearches(ads, comp);
    assert Zeros(3) == z;
    var c0 := NewCombinations(ads, comp).(started := true, state := z, lastIndex := 2);
    ZerosFailAtZeroTwo();
    SearchConflict(ads, comp, c0);
    var cache := ValidateAdPod(ads, comp, c0.cache, z).0;
    OvershootRestart(cache);
    OvershootOutOfRange();
    var n := GetNext(ads, c0.(cache := cache, lastIndex := 2));
    SearchOutOfRange(ads, comp, n.sel);
  }

  /** After the failure at (0, 2), the one-level carry bumps position 1 past its only bid. */
  lemma OvershootRestart(cache: PairCache.MapCache)
    ensures GetNext(OvershootAds(), Selector(cache, true, [0, 0, 0], 2)) == Yield(Selector(cache, true, [0, 1, 0], 2))
  {
    assert CarryOnce(OvershootAds(), [0, 0, 0], 2) == 1;
    assert Bump([0, 0, 0], 1) == [0, 1, 0];
  }

  /** The full carry from `[0, 0, 0]` reaches position 0 and finds the valid pod `[1, 0, 0]`. */
  lemma FullCarryFindsPod()
    ensures FirstPodCorrected(OvershootAds(), RejectZeroThree()) == Some([1, 0, 0])
  {
    var ads, comp := OvershootAds(), RejectZeroThree();
    var z := Zeros(3);
    assert z == [0, 0, 0];
    ZerosFailAtZeroTwo();
    assert Carry(ads, z, 2) == 0;
    var s2 := Bump(z, 0);
    assert s2 == [1, 0, 0];
    OneZeroZeroPasses();
    assert SearchCorrected(ads, comp, s2) == Some(s2);
    assert SearchCorrected(ads, comp, z) == Some(s2);
  }

  /**
   * With one impression holding one bid, the first call returns that bid;
   * the second finds position 0 at its last bid, steps `lastIndex` to -1
   * and indexes `state[-1]`: a panic where "no more pods" is meant.
   */
  lemma ExhaustionPanics(comp: (int, int) -> bool)
    ensures var r := GetAdPod([[7]], comp, NewCombinations([[7]], comp));
      && r.Pod? && r.bids == [7] && r.sel.state == [0]
      && GetAdPod([[7]], comp, r.sel) == Fault
    ensures NextPodCorrected([[7]], comp, [0]) == None
  {
    var ads: seq<seq<int>> := [[7]];
    assert Zeros(1) == [0];
    var r := GetAdPod(ads, comp, NewCombinations(ads, comp));
    assert r.Pod?;
  }

  /**
   * With no impressions the first call returns the empty pod and the
   * second returns nil.
   */
  lemma NoImpressions(comp: (int, int) -> bool)
    ensures var r := GetAdPod([], comp, NewCombinations([], comp));
      && r.Pod? && r.bids == []
      && GetAdPod([], comp, r.sel).NoPod?
  {
  }

  /** Bid 1 may not come first in any pair. */
  function RejectOneFirst(): (int, int) -> bool {
    (x: int, y: int) => x != 1
  }

  /**
   * `[0, 0]` fails at (0, 1) with position 1 at its last bid, so the
   * restart carries to position 0 and the next vector `[1, 0]` is the pod.
   */
  lemma RestartFindsPod()
    ensures var r := GetAdPod([[1, 2], [3]], RejectOneFirst(), NewCombinations([[1, 2], [3]], RejectOneFirst()));
      r.Pod? && r.bids == [2, 3]
  {
    FirstCallSearches([[1, 2], [3]], RejectOneFirst());
    assert Zeros(2) == [0, 0];
    RestartSearch();
  }

  /** The search from `[0, 0]` fails (0, 1), carries to position 0 and accepts `[1, 0]`. */
  lemma RestartSearch()
    ensures var c := NewCombinations([[1, 2], [3]], RejectOneFirst());
      var r := Search([[1, 2], [3]], RejectOneFirst(), c.(started := true, state := [0, 0], lastIndex := 1));
      r.Pod? && r.bids == [2, 3]
  {
    var ads: seq<seq<int>> := [[1, 2], [3]];
    var comp := RejectOneFirst();
    FirstCallSearches(ads, comp);
    assert Zeros(2) == [0, 0];
    var c0 := NewCombinations(ads, comp).(started := true, state := [0, 0], lastIndex := 1);
    ZeroZeroFails();
    SearchConflict(ads, comp, c0);
    var cache := ValidateAdPod(ads, comp, c0.cache, [0, 0]).0;
    RestartCarries(cache);
    var n := GetNext(ads, c0.(cache := cache, lastIndex := 1));
    OneZeroAccepted();
    SearchPassed(ads, comp, n.sel);
  }

  /** `[0, 0]` puts bid 1 first. */
  lemma ZeroZeroFails()
    ensures FirstFailure([[1, 2], [3]], RejectOneFirst(), [0, 0], 1, 0) == Conflict(0, 1)
  {
    FirstFailureUnfold([[1, 2], [3]], RejectOneFirst(), [0, 0], 1, 0);
  }

  /** `[1, 0]` picks bids 2 and 3, which are compatible. */
  lemma OneZeroAccepted()
    ensures FirstFailure([[1, 2], [3]], RejectOneFirst(), [1, 0], 1, 0) == Passed
    ensures InRange([[1, 2], [3]], [1, 0]) && Select([[1, 2], [3]], [1, 0]) == [2, 3]
  {
    FirstFailureUnfold([[1, 2], [3]], RejectOneFirst(), [1, 0], 1, 0);
  }

  /** Position 1 of `[0, 0]` is at its only bid, so the one-level carry bumps position 0. */
  lemma RestartCarries(cache: PairCache.MapCache)
    ensures GetNext([[1, 2], [3]], Selector(cache, true, [0, 0], 1)) == Yield(Selector(cache, true, [1, 0], 1))
  {
    var ads: seq<seq<int>> := [[1, 2], [3]];
    assert CarryOnce(ads, [0, 0], 1) == 0;
    assert Bump([0, 0], 0) == [1, 0];
  }
}
