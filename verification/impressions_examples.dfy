/**
 * Concrete plans of `getImpressions`, as impressions_test.go expects them,
 * together with the rounding of `init0`.
 */
module ImpressionsExamples {
  import opened Optional
  import opened AdPod
  import opened Impressions

  /** `newTestPod`: a `VideoAdPod` with the four planner fields present. */
  function TestPod(slotMin: int, slotMax: int, minAds: int, maxAds: int): (vPod: VideoAdPod)
    ensures HasPodFields(vPod)
    ensures slotMin >= 1 && slotMax >= 1 && minAds >= 1 && maxAds >= 1 ==> Plannable(vPod)
  {
    VideoAdPod(Some(minAds), Some(maxAds), Some(slotMin), Some(slotMax), None, None)
  }

  /** Equal pod bounds round to nearest; different ones round inward; slot bounds always inward. */
  lemma Init0Examples()
    ensures var c := Init0(126, 126, TestPod(1, 12, 7, 13));
      c.podMinDuration == 125 && c.podMaxDuration == 125 && c.slotMinDuration == 5 && c.slotMaxDuration == 10
    ensures var c := Init0(127, 128, TestPod(1, 12, 7, 13));
      c.podMinDuration == 130 && c.podMaxDuration == 125
    ensures var c := Init0(125, 125, TestPod(4, 4, 1, 1));
      c.slotMinDuration == 5 && c.slotMaxDuration == 4
    ensures Init0(134, 134, TestPod(60, 90, 2, 3)).podMaxDuration == 135
  {
  }

  /**
   * Pod bounds (1, 90), slot bounds (11, 15) and 2 to 8 ads: the slot
   * minimum snaps up to 15, so 90 / 15 = 6 slots of 15 seconds each.
   */
  lemma SixSlotsOfFifteen()
    ensures var cfg := Init0(1, 90, TestPod(11, 15, 2, 8));
      ComputeTotalAds(cfg) == 6 && ComputeTimeForEachAdSlot(cfg, 6) == 15
  {
    var cfg := Init0(1, 90, TestPod(11, 15, 2, 8));
    assert cfg.podMaxDuration == 90 && cfg.slotMinDuration == 15 && cfg.slotMaxDuration == 15;
    assert cfg.minAds == 2 && cfg.maxAds == 8;
  }

  /**
   * Slot bounds 11..14 snap to 15 and 10, which cross: the even share of 10
   * is raised to 15 and then lowered back to 10.
   */
  lemma CrossedSlotBounds()
    ensures var cfg := Init0(1, 20, TestPod(11, 14, 1, 2));
      && cfg.slotMinDuration == 15 && cfg.slotMaxDuration == 10
      && ComputeTotalAds(cfg) == 2 && ComputeTimeForEachAdSlot(cfg, 2) == 10
  {
    var cfg := Init0(1, 20, TestPod(11, 14, 1, 2));
    assert cfg.podMaxDuration == 20 && cfg.slotMinDuration == 15 && cfg.slotMaxDuration == 10;
    assert cfg.minAds == 1 && cfg.maxAds == 2;
  }

  /** Test case 4: one slot takes the whole pod. */
  lemma Case4()
    ensures var r := GetImpressions(1, 15, TestPod(1, 15, 1, 1));
      r.slots == [Slot(15, 15)] && r.freeTime == 0
  {
    Case4Planned();
    Case4Compact();
  }

  /** Test case 4 ends its fill with the one slot at 15 seconds. */
  lemma Case4Planned()
    ensures Planned(1, 15, TestPod(1, 15, 1, 1)) == (Case4Config([Slot(15, 15)], 15), 15)
  {
    Case4Setup();
    Case4Fill();
  }

  /** A filled slot survives the compaction of `validateSlots`. */
  lemma Case4Compact()
    ensures CompactionInRange([Slot(15, 15)]) && Compact([Slot(15, 15)]) == [Slot(15, 15)]
  {
    var filled := [Slot(15, 15)];
    assert !IsZero(filled[0]) && filled[1..] == [];
    assert ZeroCount(filled) == 0;
    var kept := Compact(filled);
    assert |kept| == 1 && kept[0] == filled[0];
  }

  /** The configuration of test case 4 with the given slots and running total. */
  function Case4Config(slots: seq<Slot>, total: int): AdPodConfig {
    AdPodConfig(1, 1, 5, 15, 5, 15, 1, 15, 1, slots, total, 0)
  }

  /** Test case 4 plans one slot and a first share of 15 seconds. */
  lemma Case4Setup()
    ensures Setup(1, 15, TestPod(1, 15, 1, 1)) == (Case4Config([Slot(0, 0)], 0), 15)
  {
    var cfg := Init0(1, 15, TestPod(1, 15, 1, 1));
    assert cfg == Case4Config([], 0);
    assert ComputeTotalAds(cfg) == 1;
    assert ComputeTimeForEachAdSlot(cfg, 1) == 15;
    var r := Setup(1, 15, TestPod(1, 15, 1, 1));
    assert |r.0.slots| == 1 && r.0.slots[0] == Slot(0, 0);
    assert r.0.slots == [Slot(0, 0)];
  }

  /** Test case 4's first round fills the one slot. */
  lemma Case4Fill()
    ensures Fill(Case4Config([Slot(0, 0)], 0), 15, 0) == (Case4Config([Slot(15, 15)], 15), 15)
  {
    var cfg := Case4Config([Slot(0, 0)], 0);
    assert Scan(cfg, [Slot(0, 0)], 15, 0).slots == [Slot(15, 15)];
  }

  /** Test case 18: a 4-second slot bound cannot fill 125 seconds, so nothing is planned. */
  lemma Case18()
    ensures var r := GetImpressions(125, 125, TestPod(4, 4, 1, 1));
      r.slots == [] && r.freeTime == 125
  {
  }

  /**
   * Outside the validated domain (a slot minimum of 0, which `Validate`
   * rejects) the match-up override writes a 0 minimum into a slot that holds
   * time. With pod bounds (1, 12), slot bounds (0, 10) and 1 to 2 ads the
   * fill ends with the slots below, and the compaction of `validateSlots`
   * would write the kept second slot at index 1 of a one-slot slice.
   */
  lemma ZeroSlotMinimumBreaksCompaction()
    ensures AddTime(ZeroMinConfig([Slot(5, 5), Slot(5, 5)], 10), 2).config.slots == [Slot(0, 7), Slot(5, 5)]
    ensures !CompactionInRange([Slot(0, 7), Slot(5, 5)])
  {
    assert Scan(ZeroMinConfig([Slot(5, 5), Slot(5, 5)], 10), [Slot(5, 5)], 2, 12) == ScanResult([Slot(5, 5)], 12, 0, 0);
    assert ZeroCount([Slot(0, 7), Slot(5, 5)]) == 1;
  }

  /** The configuration that plan reaches after its first round. */
  function ZeroMinConfig(slots: seq<Slot>, total: int): AdPodConfig {
    AdPodConfig(1, 2, 5, 10, 5, 10, 1, 12, 0, slots, total, 0)
  }
}
