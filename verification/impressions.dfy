/**
 * The pod slot planner (endpoints/openrtb2/ctv/impressions.go): from the
 * requested pod bounds and the impression's `VideoAdPod`, choose a number
 * of ad slots and a duration for each, filling the slots in rounds until
 * the requested pod maximum is reached, then keep the plan only if it meets
 * every bound.
 *
 * In Go `addTime` has a value receiver yet writes through the shared
 * `Slots` backing array and the `*int64` total, and `validateSlots` has a
 * pointer receiver; both are functions here that return the updated config.
 */
module Impressions {
  import opened Optional
  import opened DurationMath
  import opened AdPod

  /** One ad slot: `[2]int64{min, max}`. */
  datatype Slot = Slot(minDuration: int, maxDuration: int)

  /** `AdPodConfig`: the snapped bounds, the requested ones and the plan. */
  datatype AdPodConfig = AdPodConfig(
    minAds: int,
    maxAds: int,
    slotMinDuration: int,
    slotMaxDuration: int,
    podMinDuration: int,
    podMaxDuration: int,
    requestedPodMinDuration: int,
    requestedPodMaxDuration: int,
    requestedSlotMinDuration: int,
    slots: seq<Slot>,
    totalSlotTime: int,
    freeTime: int)

  /** A slot `validateSlots` drops: either of its durations is zero. */
  predicate IsZero(s: Slot) {
    s.minDuration == 0 || s.maxDuration == 0
  }

  /** The sum of the slots' maximum durations: the time the plan allocates. */
  function SumMax(slots: seq<Slot>): int
    decreases |slots|
  {
    if |slots| == 0 then 0 else slots[0].maxDuration + SumMax(slots[1..])
  }

  /** `n` snapped down as `getClosetFactorForMaxDuration` does. */
  function SnapDown(n: int): int {
    if LargestMultipleAtMost(n) == 0 then n else LargestMultipleAtMost(n)
  }

  /** The four fields the planner dereferences are present. */
  predicate HasPodFields(vPod: VideoAdPod) {
    vPod.minAds.Some? && vPod.maxAds.Some? && vPod.minDuration.Some? && vPod.maxDuration.Some?
  }

  /**
   * `init0`: copy the requested bounds and snap them to multiples of 5.
   * Equal pod bounds are both rounded to the nearest multiple; otherwise
   * the minimum is rounded up and the maximum down, with no repair when
   * they cross. Slot bounds are always rounded outward-in the same way.
   */
  function Init0(podMinDuration: int, podMaxDuration: int, vPod: VideoAdPod): (cfg: AdPodConfig)
    requires HasPodFields(vPod)
    ensures cfg.requestedPodMinDuration == podMinDuration && cfg.requestedPodMaxDuration == podMaxDuration
    ensures cfg.requestedSlotMinDuration == vPod.minDuration.value
    ensures cfg.minAds == vPod.minAds.value && cfg.maxAds == vPod.maxAds.value
    ensures podMinDuration == podMaxDuration ==>
      cfg.podMinDuration == cfg.podMaxDuration && cfg.podMaxDuration % MultipleOf == 0
      && (podMaxDuration >= 0 ==>
            2 * podMaxDuration - MultipleOf < 2 * cfg.podMaxDuration <= 2 * podMaxDuration + MultipleOf)
    ensures podMinDuration != podMaxDuration && podMinDuration >= 1 ==>
      cfg.podMinDuration == LeastMultipleAtLeast(podMinDuration)
    ensures podMinDuration != podMaxDuration ==> cfg.podMaxDuration == SnapDown(podMaxDuration)
    ensures vPod.minDuration.value >= 1 ==> cfg.slotMinDuration == LeastMultipleAtLeast(vPod.minDuration.value)
    ensures vPod.minDuration.value >= 0 ==> cfg.slotMinDuration >= MultipleOf
    ensures cfg.slotMaxDuration == SnapDown(vPod.maxDuration.value)
    ensures vPod.maxDuration.value >= 1 ==> cfg.slotMaxDuration >= 1
    ensures cfg.slots == [] && cfg.totalSlotTime == 0 && cfg.freeTime == 0
  {
    MinDurationIsLeastMultiple(podMinDuration);
    MinDurationIsLeastMultiple(vPod.minDuration.value);
    MaxDurationIsGreatestMultiple(podMaxDuration);
    MaxDurationIsGreatestMultiple(vPod.maxDuration.value);
    var podMin := if podMinDuration == podMaxDuration then ClosestFactor(podMinDuration)
                  else ClosestFactorForMinDuration(podMinDuration);
    var podMax := if podMinDuration == podMaxDuration then podMin
                  else ClosestFactorForMaxDuration(podMaxDuration);
    AdPodConfig(
      minAds := vPod.minAds.value,
      maxAds := vPod.maxAds.value,
      slotMinDuration := ClosestFactorForMinDuration(vPod.minDuration.value),
      slotMaxDuration := ClosestFactorForMaxDuration(vPod.maxDuration.value),
      podMinDuration := podMin,
      podMaxDuration := podMax,
      requestedPodMinDuration := podMinDuration,
      requestedPodMaxDuration := podMaxDuration,
      requestedSlotMinDuration := vPod.minDuration.value,
      slots := [],
      totalSlotTime := 0,
      freeTime := 0)
  }

  /**
   * `computeTotalAds`: as many slots as fit the snapped pod maximum with
   * either slot bound, raised to MinAds and then lowered to MaxAds.
   */
  function ComputeTotalAds(cfg: AdPodConfig): (totalAds: int)
    requires cfg.slotMaxDuration != 0 && cfg.slotMinDuration != 0
    ensures totalAds <= cfg.maxAds
    ensures cfg.minAds <= cfg.maxAds ==> cfg.minAds <= totalAds
    ensures cfg.minAds >= 1 && cfg.maxAds >= 1 ==> totalAds >= 1
    ensures var fit := Max(Quo(cfg.podMaxDuration, cfg.slotMaxDuration), Quo(cfg.podMaxDuration, cfg.slotMinDuration));
      && (cfg.minAds <= fit <= cfg.maxAds ==> totalAds == fit)
      && (fit > cfg.maxAds ==> totalAds == cfg.maxAds)
      && (fit < cfg.minAds <= cfg.maxAds ==> totalAds == cfg.minAds)
  {
    var maxAds := Quo(cfg.podMaxDuration, cfg.slotMaxDuration);
    var minAds := Quo(cfg.podMaxDuration, cfg.slotMinDuration);
    var totalAds := Max(minAds, maxAds);
    var raised := if totalAds < cfg.minAds then cfg.minAds else totalAds;
    if raised > cfg.maxAds then cfg.maxAds else raised
  }

  /**
   * `computeTimeForEachAdSlot`: the pod maximum shared evenly, clamped to
   * the slot bounds and rounded to a multiple of 5. The clamp to the slot
   * maximum comes last, so it wins whenever the snapped bounds cross.
   */
  function ComputeTimeForEachAdSlot(cfg: AdPodConfig, totalAds: int): (t: int)
    requires totalAds != 0
    ensures t % MultipleOf == 0
    ensures (cfg.slotMinDuration % MultipleOf == 0 && cfg.slotMaxDuration % MultipleOf == 0
             && cfg.slotMinDuration <= cfg.slotMaxDuration) ==> cfg.slotMinDuration <= t <= cfg.slotMaxDuration
    ensures cfg.slotMinDuration >= 1 && cfg.slotMaxDuration >= 1 ==> t >= 0
    ensures var even := Quo(cfg.podMaxDuration, totalAds);
      && (cfg.slotMinDuration <= even <= cfg.slotMaxDuration && even % MultipleOf == 0 ==> t == even)
      && (even < cfg.slotMinDuration <= cfg.slotMaxDuration && cfg.slotMinDuration % MultipleOf == 0
          ==> t == cfg.slotMinDuration)
      && (even < cfg.slotMinDuration <= cfg.slotMaxDuration && cfg.slotMinDuration % MultipleOf != 0
          ==> t == ClosestFactor(cfg.slotMinDuration))
      && (cfg.slotMinDuration <= even <= cfg.slotMaxDuration && even % MultipleOf != 0 ==> t == ClosestFactor(even))
    ensures cfg.slotMaxDuration < cfg.slotMinDuration || Quo(cfg.podMaxDuration, totalAds) > cfg.slotMaxDuration ==>
      t == if cfg.slotMaxDuration % MultipleOf == 0 then cfg.slotMaxDuration else ClosestFactor(cfg.slotMaxDuration)
  {
    var even := Quo(cfg.podMaxDuration, totalAds);
    var raised := if even < cfg.slotMinDuration then cfg.slotMinDuration else even;
    var clamped := if raised > cfg.slotMaxDuration then cfg.slotMaxDuration else raised;
    if !IsMultipleOf(clamped, MultipleOf) then
      RoundStaysBetween(clamped, cfg.slotMinDuration, cfg.slotMaxDuration);
      ClosestFactor(clamped)
    else clamped
  }

  /** Rounding to the closest multiple of 5 never crosses a multiple of 5. */
  lemma RoundStaysBetween(n: int, lo: int, hi: int)
    ensures lo % MultipleOf == 0 && hi % MultipleOf == 0 && lo <= n <= hi ==> lo <= ClosestFactor(n) <= hi
  {
    if lo % MultipleOf == 0 && hi % MultipleOf == 0 && lo <= n <= hi {
      var c := ClosestFactor(n);
      var qc, ql, qh := c / MultipleOf, lo / MultipleOf, hi / MultipleOf;
      assert c == MultipleOf * qc && lo == MultipleOf * ql && hi == MultipleOf * qh;
      assert 10 * qc > 10 * ql - 10 && 10 * qc < 10 * qh + 10;
      assert ql <= qc <= qh;
    }
  }

  /** `computeTimeLeastValue`: the next round's increment, at most 5. */
  function ComputeTimeLeastValue(time: int): (t: int)
    ensures t <= MultipleOf && t <= time
    ensures t == MultipleOf || t == time
  {
    if MultipleOf < time then MultipleOf else time
  }

  /** The slot can take `t` more seconds without passing the slot maximum. */
  predicate CanAdjust(cfg: AdPodConfig, s: Slot, t: int) {
    s.minDuration + t <= cfg.slotMaxDuration
  }

  /** The three conditions under which `addTime` grows a slot. */
  predicate Grows(cfg: AdPodConfig, s: Slot, t: int, total: int) {
    s.minDuration <= cfg.slotMaxDuration && CanAdjust(cfg, s, t) && total + t <= cfg.requestedPodMaxDuration
  }

  /**
   * A grown slot: the maximum takes `t`; the minimum takes `t` too, unless
   * `t` is exactly what separates the snapped pod maximum from the
   * requested one, in which case it is reset to the requested slot minimum.
   */
  function Grown(cfg: AdPodConfig, s: Slot, t: int): (g: Slot)
    ensures g.maxDuration == s.maxDuration + t
  {
    var min := if t == cfg.requestedPodMaxDuration - cfg.podMaxDuration then cfg.requestedSlotMinDuration
               else s.minDuration + t;
    Slot(min, s.maxDuration + t)
  }

  /** One slot's treatment by `addTime`, given the running total. */
  function Step(cfg: AdPodConfig, s: Slot, t: int, total: int): Slot {
    if Grows(cfg, s, t, total) then Grown(cfg, s, t) else s
  }

  /** `addTime` counts a slot as full when it reached the slot maximum or cannot take `t`. */
  predicate Full(cfg: AdPodConfig, before: Slot, after: Slot, t: int) {
    after.maxDuration == cfg.slotMaxDuration || !CanAdjust(cfg, before, t)
  }

  datatype ScanResult = ScanResult(slots: seq<Slot>, total: int, added: int, fullCount: nat)

  /**
   * The loop of `addTime` over `slots` in index order, with the running
   * `*TotalSlotTime` in `total`.
   */
  function Scan(cfg: AdPodConfig, slots: seq<Slot>, t: int, total: int): (r: ScanResult)
    ensures |r.slots| == |slots|
    ensures r.total == total + r.added
    ensures SumMax(r.slots) == SumMax(slots) + r.added
    ensures t >= 0 ==> r.added >= 0
    ensures total <= cfg.requestedPodMaxDuration ==> r.total <= cfg.requestedPodMaxDuration
    ensures forall i :: 0 <= i < |slots| ==>
      r.slots[i] == slots[i]
      || (r.slots[i] == Grown(cfg, slots[i], t)
          && slots[i].minDuration <= cfg.slotMaxDuration && CanAdjust(cfg, slots[i], t))
    ensures r.fullCount <= |slots|
    ensures r.fullCount == |slots| <==> forall i :: 0 <= i < |slots| ==> Full(cfg, slots[i], r.slots[i], t)
    decreases |slots|
  {
    if |slots| == 0 then ScanResult([], total, 0, 0)
    else
      var s := slots[0];
      var grows := Grows(cfg, s, t, total);
      var s' := Step(cfg, s, t, total);
      var rest := Scan(cfg, slots[1..], t, if grows then total + t else total);
      var out := [s'] + rest.slots;
      assert forall i :: 1 <= i < |slots| ==> out[i] == rest.slots[i - 1] && slots[i] == slots[1..][i - 1];
      ScanResult(out, rest.total, (if grows then t else 0) + rest.added,
                 (if Full(cfg, s, s', t) then 1 else 0) + rest.fullCount)
  }

  datatype AddResult = AddResult(config: AdPodConfig, added: int, allFull: bool)

  /**
   * `addTime(t)`: offer `t` seconds to every slot in turn. Returns the
   * updated config, the time actually added and whether every slot is full.
   */
  function AddTime(cfg: AdPodConfig, t: int): (r: AddResult)
    ensures r.config == cfg.(slots := r.config.slots, totalSlotTime := r.config.totalSlotTime)
    ensures |r.config.slots| == |cfg.slots|
    ensures r.config.totalSlotTime == cfg.totalSlotTime + r.added
    ensures SumMax(r.config.slots) == SumMax(cfg.slots) + r.added
    ensures t >= 0 ==> r.added >= 0
    ensures cfg.totalSlotTime <= cfg.requestedPodMaxDuration ==>
      r.config.totalSlotTime <= cfg.requestedPodMaxDuration
    ensures forall i :: 0 <= i < |cfg.slots| ==>
      r.config.slots[i] == cfg.slots[i]
      || (r.config.slots[i] == Grown(cfg, cfg.slots[i], t)
          && cfg.slots[i].minDuration <= cfg.slotMaxDuration && CanAdjust(cfg, cfg.slots[i], t))
    ensures r.allFull <==> forall i :: 0 <= i < |cfg.slots| ==> Full(cfg, cfg.slots[i], r.config.slots[i], t)
  {
    var sc := Scan(cfg, cfg.slots, t, cfg.totalSlotTime);
    AddResult(cfg.(slots := sc.slots, totalSlotTime := sc.total), sc.added, sc.fullCount == |cfg.slots|)
  }

  /**
   * A round makes progress: when `t >= 1` still fits under the requested
   * pod maximum, either some slot takes it or every slot is full.
   */
  lemma {:induction false} ScanProgress(cfg: AdPodConfig, slots: seq<Slot>, t: int, total: int)
    requires t >= 1 && total + t <= cfg.requestedPodMaxDuration
    ensures var r := Scan(cfg, slots, t, total); r.added >= t || r.fullCount == |slots|
    decreases |slots|
  {
    if |slots| > 0 {
      var s := slots[0];
      if !Grows(cfg, s, t, total) {
        ScanProgress(cfg, slots[1..], t, total);
      }
    }
  }

  /** `ScanProgress` for a whole `addTime` round. */
  lemma RoundProgress(cfg: AdPodConfig, t: int)
    ensures t >= 1 && cfg.totalSlotTime + t <= cfg.requestedPodMaxDuration ==>
      AddTime(cfg, t).added >= t || AddTime(cfg, t).allFull
  {
    if t >= 1 && cfg.totalSlotTime + t <= cfg.requestedPodMaxDuration {
      ScanProgress(cfg, cfg.slots, t, cfg.totalSlotTime);
    }
  }

  /** The measure that makes the fill loop terminate. */
  function FillRank(cfg: AdPodConfig, t: int, time: int): nat {
    if time < cfg.requestedPodMaxDuration && !(1 <= t <= cfg.requestedPodMaxDuration - time) then 1 else 0
  }

  /**
   * The `for time < RequestedPodMaxDuration` loop of `getImpressions`. The
   * first round uses the even share per slot; every later round uses
   * `min(5, RequestedPodMaxDuration - time)`, which is at least 1, and by
   * `ScanProgress` each such round adds at least that much or finds every
   * slot full, so the loop ends. Returns the config and the final `time`.
   */
  function Fill(cfg: AdPodConfig, t: int, time: int): (r: (AdPodConfig, int))
    requires cfg.totalSlotTime == time
    ensures r.0.totalSlotTime == r.1
    ensures r.0 == cfg.(slots := r.0.slots, totalSlotTime := r.0.totalSlotTime)
    ensures |r.0.slots| == |cfg.slots|
    ensures SumMax(r.0.slots) - r.1 == SumMax(cfg.slots) - time
    ensures time <= cfg.requestedPodMaxDuration ==> r.1 <= cfg.requestedPodMaxDuration
    ensures time >= cfg.requestedPodMaxDuration ==> r == (cfg, time)
    ensures SlotsInv(cfg.slots) && cfg.requestedSlotMinDuration >= 1 && (t >= 0 || time >= cfg.requestedPodMaxDuration)
      ==> SlotsInv(r.0.slots)
    decreases FillRank(cfg, t, time), cfg.requestedPodMaxDuration - time
  {
    if time >= cfg.requestedPodMaxDuration then (cfg, time)
    else
      var a := AddTime(cfg, t);
      var time' := time + a.added;
      var t' := ComputeTimeLeastValue(cfg.requestedPodMaxDuration - time');
      RoundKeepsInv(cfg, t);
      if a.allFull then (a.config, time')
      else
        RoundProgress(cfg, t);
        Fill(a.config, t', time')
  }

  /** `ScanKeepsInv` for a whole `addTime` round. */
  lemma RoundKeepsInv(cfg: AdPodConfig, t: int)
    ensures SlotsInv(cfg.slots) && t >= 0 && cfg.requestedSlotMinDuration >= 1 ==> SlotsInv(AddTime(cfg, t).config.slots)
  {
    if SlotsInv(cfg.slots) && t >= 0 && cfg.requestedSlotMinDuration >= 1 {
      ScanKeepsInv(cfg, cfg.slots, t, cfg.totalSlotTime);
    }
  }

  /**
   * The match-up override: when the increment is exactly what separates the
   * snapped pod maximum from the requested one, every slot that takes it has
   * its minimum reset to the requested slot minimum while its maximum still
   * grows by the increment.
   */
  lemma MatchUpOverride(cfg: AdPodConfig, t: int)
    requires t == cfg.requestedPodMaxDuration - cfg.podMaxDuration
    ensures var r := AddTime(cfg, t).config;
      forall i :: 0 <= i < |cfg.slots| ==>
        r.slots[i] == cfg.slots[i] || r.slots[i] == Slot(cfg.requestedSlotMinDuration, cfg.slots[i].maxDuration + t)
  {
  }

  /** A slot whose durations are sane: a positive maximum has a positive minimum. */
  predicate WellFormed(s: Slot) {
    s.minDuration >= 0 && s.maxDuration >= 0 && (s.maxDuration > 0 ==> s.minDuration > 0)
  }

  /**
   * The shape the fill keeps: slots are well formed, and once a slot has no
   * time every later slot equals it. So the slots `validateSlots` drops
   * form a suffix.
   */
  predicate SlotsInv(slots: seq<Slot>) {
    && (forall i :: 0 <= i < |slots| ==> WellFormed(slots[i]))
    && (forall i, j :: 0 <= i < j < |slots| && slots[i].maxDuration == 0 ==> slots[j] == slots[i])
  }

  /**
   * Equal slots are treated alike when nothing in the round changes the
   * running total before them.
   */
  lemma {:induction false} UniformScan(cfg: AdPodConfig, slots: seq<Slot>, s: Slot, t: int, total: int)
    requires forall i :: 0 <= i < |slots| ==> slots[i] == s
    requires t == 0 || !Grows(cfg, s, t, total)
    ensures forall i :: 0 <= i < |slots| ==> Scan(cfg, slots, t, total).slots[i] == Step(cfg, s, t, total)
    decreases |slots|
  {
    if |slots| > 0 {
      var tail := slots[1..];
      assert forall i :: 0 <= i < |tail| ==> tail[i] == s by {
        forall i | 0 <= i < |tail| ensures tail[i] == s {
          assert tail[i] == slots[i + 1];
        }
      }
      UniformScan(cfg, tail, s, t, total);
      ScanCons(cfg, slots, t, total);
      var rest := Scan(cfg, tail, t, total).slots;
      var out := Scan(cfg, slots, t, total).slots;
      assert out == [Step(cfg, s, t, total)] + rest;
      forall i | 0 <= i < |slots| ensures out[i] == Step(cfg, s, t, total) {
        if i > 0 {
          assert out[i] == rest[i - 1];
        }
      }
    }
  }

  /** A round's first slot takes its step, the rest continue from the updated total. */
  lemma ScanCons(cfg: AdPodConfig, slots: seq<Slot>, t: int, total: int)
    requires |slots| > 0
    ensures var total' := if Grows(cfg, slots[0], t, total) then total + t else total;
      Scan(cfg, slots, t, total).slots == [Step(cfg, slots[0], t, total)] + Scan(cfg, slots[1..], t, total').slots
  {
  }

  /** One slot's step keeps it well formed, for a non-negative increment. */
  lemma StepWellFormed(cfg: AdPodConfig, s: Slot, t: int, total: int)
    requires WellFormed(s) && t >= 0 && cfg.requestedSlotMinDuration >= 1
    ensures WellFormed(Step(cfg, s, t, total))
    ensures Step(cfg, s, t, total).maxDuration == 0 ==> s.maxDuration == 0 && (t == 0 || !Grows(cfg, s, t, total))
  {
  }

  /** One round keeps the slot shape, for a non-negative increment. */
  lemma {:induction false} ScanKeepsInv(cfg: AdPodConfig, slots: seq<Slot>, t: int, total: int)
    requires SlotsInv(slots) && t >= 0 && cfg.requestedSlotMinDuration >= 1
    ensures SlotsInv(Scan(cfg, slots, t, total).slots)
    decreases |slots|
  {
    if |slots| > 0 {
      var s := slots[0];
      var grows := Grows(cfg, s, t, total);
      var total' := if grows then total + t else total;
      var tail := slots[1..];
      assert SlotsInv(tail) by {
        forall i, j | 0 <= i < j < |tail| && tail[i].maxDuration == 0 ensures tail[j] == tail[i] {
          assert tail[i] == slots[i + 1] && tail[j] == slots[j + 1];
        }
      }
      ScanKeepsInv(cfg, tail, t, total');
      var rest := Scan(cfg, tail, t, total').slots;
      var out := Scan(cfg, slots, t, total).slots;
      var s' := Step(cfg, s, t, total);
      assert out == [s'] + rest;
      StepWellFormed(cfg, s, t, total);
      if s'.maxDuration == 0 {
        assert forall i :: 0 <= i < |tail| ==> tail[i] == s by {
          forall i | 0 <= i < |tail| ensures tail[i] == s {
            assert tail[i] == slots[i + 1];
          }
        }
        UniformScan(cfg, tail, s, t, total);
      }
      forall i | 0 <= i < |out| ensures WellFormed(out[i]) {
        if i > 0 {
          assert out[i] == rest[i - 1];
        }
      }
      forall i, j | 0 <= i < j < |out| && out[i].maxDuration == 0 ensures out[j] == out[i] {
        assert out[j] == rest[j - 1];
        if i > 0 {
          assert out[i] == rest[i - 1];
        }
      }
    }
  }

  /** `emptySlotCount`: how many slots `validateSlots` drops. */
  function ZeroCount(slots: seq<Slot>): (n: nat)
    ensures n <= |slots|
    decreases |slots|
  {
    if |slots| == 0 then 0 else (if IsZero(slots[0]) then 1 else 0) + ZeroCount(slots[1..])
  }

  /** The slots that are kept, in order. */
  function NonZero(slots: seq<Slot>): (kept: seq<Slot>)
    ensures |kept| == |slots| - ZeroCount(slots)
    ensures forall i :: 0 <= i < |kept| ==> !IsZero(kept[i]) && kept[i] in slots
    decreases |slots|
  {
    if |slots| == 0 then []
    else if IsZero(slots[0]) then NonZero(slots[1..])
    else [slots[0]] + NonZero(slots[1..])
  }

  /**
   * The obligation of `optimizedSlots[index] = slot`: every kept slot's
   * original index lies inside the shortened slice. Go panics otherwise.
   */
  predicate CompactionInRange(slots: seq<Slot>) {
    forall i :: 0 <= i < |slots| && !IsZero(slots[i]) ==> i < |slots| - ZeroCount(slots)
  }

  /**
   * The compaction as written: a slice of the kept count, each kept slot
   * written at its original index, the other positions left `{0, 0}`.
   */
  function Compact(slots: seq<Slot>): (out: seq<Slot>)
    requires CompactionInRange(slots)
    ensures |out| == |slots| - ZeroCount(slots)
  {
    seq(|slots| - ZeroCount(slots), k requires 0 <= k < |slots| - ZeroCount(slots) =>
      if IsZero(slots[k]) then Slot(0, 0) else slots[k])
  }

  /** With the zero slots all at the end, the counts and sums are those of the prefix. */
  lemma {:induction false} SuffixShape(slots: seq<Slot>, z: nat)
    requires z <= |slots|
    requires forall i :: 0 <= i < z ==> !IsZero(slots[i])
    requires forall i :: z <= i < |slots| ==> IsZero(slots[i]) && slots[i].maxDuration == 0
    ensures ZeroCount(slots) == |slots| - z
    ensures NonZero(slots) == slots[..z]
    ensures SumMax(slots) == SumMax(slots[..z])
    decreases |slots|
  {
    if |slots| > 0 {
      if z > 0 {
        SuffixShape(slots[1..], z - 1);
        assert slots[..z] == [slots[0]] + slots[1..][..z - 1];
      } else {
        SuffixShape(slots[1..], 0);
      }
    }
  }

  /**
   * Under the fill's slot shape the compaction stays in range and keeps
   * exactly the non-zero slots, in order, which carry all the allocated
   * time. So `TotalSlotTime`, which is not recomputed after the drop,
   * still equals the kept slots' sum.
   */
  lemma InvCompaction(slots: seq<Slot>)
    requires SlotsInv(slots)
    ensures CompactionInRange(slots)
    ensures Compact(slots) == NonZero(slots)
    ensures SumMax(NonZero(slots)) == SumMax(slots)
  {
    var z := FirstEmpty(slots);
    SuffixShape(slots, z);
  }

  /** The index of the first slot without time, or the length. */
  function FirstEmpty(slots: seq<Slot>): (z: nat)
    requires SlotsInv(slots)
    ensures z <= |slots|
    ensures forall i :: 0 <= i < z ==> !IsZero(slots[i])
    ensures forall i :: z <= i < |slots| ==> IsZero(slots[i]) && slots[i].maxDuration == 0
    decreases |slots|
  {
    if |slots| == 0 then 0
    else if slots[0].maxDuration == 0 then 0
    else
      var tail := slots[1..];
      assert SlotsInv(tail) by {
        forall i, j | 0 <= i < j < |tail| && tail[i].maxDuration == 0 ensures tail[j] == tail[i] {
          assert tail[i] == slots[i + 1] && tail[j] == slots[j + 1];
        }
      }
      1 + FirstEmpty(tail)
  }

  /** The plan meets every bound `validateSlots` checks. */
  predicate Accepted(cfg: AdPodConfig, count: int) {
    && cfg.minAds <= count <= cfg.maxAds
    && (cfg.requestedPodMinDuration == cfg.requestedPodMaxDuration ==>
          cfg.totalSlotTime == cfg.requestedPodMaxDuration)
    && cfg.requestedPodMinDuration <= cfg.totalSlotTime <= cfg.requestedPodMaxDuration
  }

  /**
   * `validateSlots`, all or nothing: an empty plan is left as it is;
   * otherwise the zero slots are dropped and the rest kept only if every
   * bound holds, else the plan is emptied and all the time is free.
   */
  function ValidateSlots(cfg: AdPodConfig): (r: AdPodConfig)
    requires CompactionInRange(cfg.slots)
    ensures |cfg.slots| == 0 ==> r == cfg
    ensures |cfg.slots| > 0 && Accepted(cfg, |Compact(cfg.slots)|) ==> r == cfg.(slots := Compact(cfg.slots))
    ensures |cfg.slots| > 0 && !Accepted(cfg, |Compact(cfg.slots)|) ==>
      r == cfg.(slots := [], freeTime := cfg.requestedPodMaxDuration)
  {
    if |cfg.slots| == 0 then cfg
    else
      var kept := Compact(cfg.slots);
      var returnEmptySlots :=
        || |kept| < cfg.minAds || |kept| > cfg.maxAds
        || (cfg.requestedPodMinDuration == cfg.requestedPodMaxDuration
            && cfg.totalSlotTime != cfg.requestedPodMaxDuration)
        || cfg.totalSlotTime < cfg.requestedPodMinDuration || cfg.totalSlotTime > cfg.requestedPodMaxDuration;
      if returnEmptySlots then cfg.(slots := [], freeTime := cfg.requestedPodMaxDuration)
      else cfg.(slots := kept)
  }

  /** What `getImpressions` needs to run to the validation step without panicking. */
  predicate PlanInputs(vPod: VideoAdPod) {
    && HasPodFields(vPod)
    && vPod.minAds.value >= 1 && vPod.maxAds.value >= 1
    && vPod.minDuration.value >= 0 && vPod.maxDuration.value >= 1
  }

  /** The number of slots and the first round's share, as `getImpressions` computes them. */
  function Setup(podMinDuration: int, podMaxDuration: int, vPod: VideoAdPod): (r: (AdPodConfig, int))
    requires PlanInputs(vPod)
    ensures r.0 == Init0(podMinDuration, podMaxDuration, vPod).(slots := r.0.slots)
    ensures |r.0.slots| >= 1 && forall i :: 0 <= i < |r.0.slots| ==> r.0.slots[i] == Slot(0, 0)
    ensures r.1 >= 0
  {
    var cfg := Init0(podMinDuration, podMaxDuration, vPod);
    var totalAds := ComputeTotalAds(cfg);
    var t := ComputeTimeForEachAdSlot(cfg, totalAds);
    (cfg.(slots := seq(totalAds, _ => Slot(0, 0))), t)
  }

  /** The slots after the fill loop, before validation, with the final `time`. */
  function Planned(podMinDuration: int, podMaxDuration: int, vPod: VideoAdPod): (r: (AdPodConfig, int))
    requires PlanInputs(vPod)
    ensures r.0.totalSlotTime == r.1 && SumMax(r.0.slots) == r.1
    ensures |r.0.slots| >= 1
    ensures r.0.requestedPodMaxDuration == podMaxDuration && r.0.requestedPodMinDuration == podMinDuration
    ensures r.0.minAds == vPod.minAds.value && r.0.maxAds == vPod.maxAds.value && r.0.freeTime == 0
    ensures 0 <= podMaxDuration ==> r.1 <= podMaxDuration
    ensures vPod.minDuration.value >= 1 ==> SlotsInv(r.0.slots)
  {
    var (cfg, t) := Setup(podMinDuration, podMaxDuration, vPod);
    ZeroSums(cfg.slots);
    Fill(cfg, t, 0)
  }

  lemma {:induction false} ZeroSums(slots: seq<Slot>)
    requires forall i :: 0 <= i < |slots| ==> slots[i] == Slot(0, 0)
    ensures SumMax(slots) == 0
    ensures SlotsInv(slots)
    decreases |slots|
  {
    if |slots| > 0 {
      ZeroSums(slots[1..]);
    }
  }

  /**
   * `getImpressions` on a validated `VideoAdPod`. Either no slot is
   * planned and the whole requested maximum is free time, or the count is
   * within [MinAds, MaxAds], every slot has time, the allocated time lies
   * within the requested pod bounds (exactly the maximum when the bounds
   * are equal) and equals the sum of the slots, and the free time is what
   * is left of the requested maximum.
   */
  function GetImpressions(podMinDuration: int, podMaxDuration: int, vPod: VideoAdPod): (r: AdPodConfig)
    requires Plannable(vPod)
    ensures r.requestedPodMinDuration == podMinDuration && r.requestedPodMaxDuration == podMaxDuration
    ensures r.slots == [] ==> r.freeTime == podMaxDuration
    ensures r.slots != [] ==>
      && vPod.minAds.value <= |r.slots| <= vPod.maxAds.value
      && podMinDuration <= r.totalSlotTime <= podMaxDuration
      && (podMinDuration == podMaxDuration ==> r.totalSlotTime == podMaxDuration)
      && r.totalSlotTime == SumMax(r.slots)
      && (forall i :: 0 <= i < |r.slots| ==> r.slots[i].minDuration > 0 && r.slots[i].maxDuration > 0)
      && r.freeTime == podMaxDuration - r.totalSlotTime
    ensures r.slots != [] ==> r.slots == NonZero(Planned(podMinDuration, podMaxDuration, vPod).0.slots)
  {
    var (cfg, time) := Planned(podMinDuration, podMaxDuration, vPod);
    InvCompaction(cfg.slots);
    var v := ValidateSlots(cfg);
    if cfg.requestedPodMaxDuration - time > 0 && |v.slots| > 0 then
      v.(freeTime := cfg.requestedPodMaxDuration - time)
    else v
  }
}
