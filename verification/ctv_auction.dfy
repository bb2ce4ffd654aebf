/**
 * The ad-pod slice of the CTV auction endpoint (ctv_auction.go): one
 * impression per planned slot, named `"<impid>_<seq>"`; the decoder that
 * maps a bid's impression ID back to the original impression and slot;
 * the filter that keeps a bid; and the placeholder pod generator that takes
 * the first three bids.
 *
 * Request objects are generic in the parts the slice never touches (`I`
 * for the rest of an impression, `V` for the rest of its video object), so
 * "copied unchanged" is a statement about equality of those parts.
 */
module CtvAuction {
  import opened Optional
  import opened Decimal
  import opened Impressions

  /** The video object of an impression: the four fields the slice rewrites, and the rest. */
  datatype Video<V> = Video(minDuration: int, maxDuration: int, sequence: int, maxExtended: int, rest: V)

  /** An `openrtb.Imp`: its ID, its optional video object, and the rest. */
  datatype Imp<I, V> = Imp(id: string, video: Option<Video<V>>, rest: I)

  /** `ImpAdPodConfig`: one slot of an impression's pod. */
  datatype ImpAdPodConfig = ImpAdPodConfig(impId: string, minDuration: int, maxDuration: int, sequenceNumber: int)

  /** A bid of the response, reduced to what the keep-filter reads. */
  datatype Bid = Bid(id: string, impId: string, price: real)

  /** `AdPodBid`: the bids collected for one original impression. */
  datatype AdPodBid = AdPodBid(originalImpId: string, seatName: string, bids: seq<Bid>)

  /** The separator between an impression ID and its slot number. */
  const Separator: char := '_'

  /** Go's `int8(n)` conversion: two's-complement truncation to 8 bits. */
  function Int8(n: int): (r: int)
    ensures -128 <= r <= 127
    ensures (r - n) % 256 == 0
  {
    (n + 128) % 256 - 128
  }

  /** `int8` keeps exactly the values it can represent. */
  lemma Int8Keeps(n: int)
    ensures Int8(n) == n <==> -128 <= n <= 127
  {
  }

  /**
   * `fmt.Sprintf("%s_%d", id, k)`: the ID, the separator, and the slot
   * number in decimal, which holds no separator.
   */
  function EncodeImpressionID(id: string, k: int): (r: string)
    ensures |r| > |id| + 1 && r[..|id|] == id && r[|id|] == Separator
    ensures Separator !in r[|id| + 1..]
    ensures ParseDecimal(r[|id| + 1..]) == Some(k)
  {
    var digits := IntToString(k);
    var r := id + [Separator] + digits;
    assert r[|id| + 1..] == digits;
    IntToStringRoundTrip(k);
    r
  }

  /** Splitting `a + "_" + b` with `b` free of the separator splits `a` and appends `b`. */
  lemma SplitAppend(a: string, b: string)
    requires Separator !in b
    ensures Split(a + [Separator] + b, Separator) == Split(a, Separator) + [b]
  {
    var parts := Split(a, Separator);
    var whole := parts + [b];
    JoinSnoc(parts, b, Separator);
    forall i | 0 <= i < |whole| ensures Separator !in whole[i] {
      if i < |parts| {
        assert whole[i] == parts[i];
      }
    }
    SplitJoin(whole, Separator);
  }

  /** A built ID splits into the pieces of the original ID followed by the slot number. */
  lemma EncodeSplits(id: string, k: int)
    ensures Split(EncodeImpressionID(id, k), Separator) == Split(id, Separator) + [IntToString(k)]
  {
    assert EncodeImpressionID(id, k) == id + [Separator] + IntToString(k);
    SplitAppend(id, IntToString(k));
  }

  /**
   * `decodeImpressionID`: split at every `_`; with no `_` the ID itself and
   * slot 1; otherwise the text before the first `_` and the decimal value
   * of the text after it, falling back to 1 when that is not an int64.
   */
  function DecodeImpressionID(id: string): (r: (string, int))
    ensures Separator !in r.0
    ensures |r.0| <= |id| && r.0 == id[..|r.0|]
    ensures Separator !in id ==> r == (id, 1)
    ensures Separator in id ==> r.0 == Split(id, Separator)[0]
    ensures Separator in id ==>
      && |Split(id, Separator)| >= 2
      && (Atoi(Split(id, Separator)[1]).Some? ==> r.1 == Atoi(Split(id, Separator)[1]).value)
      && (Atoi(Split(id, Separator)[1]).None? ==> r.1 == 1)
  {
    var values := Split(id, Separator);
    SplitFirstIsPrefix(id);
    if |values| == 1 then (values[0], 1)
    else
      var sequence := match Atoi(values[1]) case Some(n) => n case None => 1;
      (values[0], sequence)
  }

  /**
   * The slot is read from the second piece only: a piece that is not a
   * number gives slot 1, and pieces after the second are ignored.
   */
  lemma DecodeExamples()
    ensures DecodeImpressionID("a_x") == ("a", 1)
    ensures DecodeImpressionID("a_5_x") == ("a", 5)
  {
    SplitPieces();
    AtoiPieces();
  }

  /** The pieces of the two example IDs. */
  lemma SplitPieces()
    ensures Split("a_x", Separator) == ["a", "x"]
    ensures Split("a_5_x", Separator) == ["a", "5", "x"]
  {
    SplitTwo("a", "x");
    SplitThree();
  }

  /** "a_5_x" is "a_5" with one more piece appended. */
  lemma SplitThree()
    ensures Split("a_5_x", Separator) == ["a", "5", "x"]
  {
    var a5 := "a" + [Separator] + "5";
    SplitTwo("a", "5");
    SplitAppend(a5, "x");
    var id := a5 + [Separator] + "x";
    assert Split(id, Separator) == ["a", "5"] + ["x"];
    assert id == "a_5_x";
  }

  /** Two separator-free pieces joined by the separator split apart again. */
  lemma SplitTwo(a: string, b: string)
    requires Separator !in a && Separator !in b
    ensures Split(a + [Separator] + b, Separator) == [a, b]
  {
    SplitNoSeparator(a, Separator);
    SplitAppend(a, b);
  }

  /** `strconv.Atoi` rejects "x" and reads "5". */
  lemma AtoiPieces()
    ensures Atoi("x") == None && Atoi("5") == Some(5)
  {
    assert "5"[..0] == "";
    assert DigitsValue("5") == 5;
  }

  /** The first piece of a split is a prefix of the string. */
  lemma {:induction false} SplitFirstIsPrefix(s: string)
    ensures var p := Split(s, Separator)[0]; |p| <= |s| && p == s[..|p|]
    decreases |s|
  {
    if |s| > 0 {
      SplitFirstIsPrefix(s[1..]);
    }
  }

  /**
   * The round trip of the impression naming: an ID built for slot `k` of an
   * impression whose ID has no `_` decodes to that impression and slot.
   */
  lemma DecodeEncode(id: string, k: int)
    requires Separator !in id
    requires MinInt64 <= k <= MaxInt64
    ensures DecodeImpressionID(EncodeImpressionID(id, k)) == (id, k)
  {
    EncodeSplits(id, k);
    SplitNoSeparator(id, Separator);
    AtoiRoundTrip(k);
  }

  /**
   * With a `_` inside the impression ID the round trip fails: slot 1 of
   * impression `"a_b"` decodes to impression `"a"`.
   */
  lemma UnderscoreIdDoesNotRoundTrip()
    ensures DecodeImpressionID(EncodeImpressionID("a_b", 1)).0 == "a"
  {
    var e := EncodeImpressionID("a_b", 1);
    assert e[..1] == "a" && e[1] == Separator;
  }

  /**
   * `getAdPodImpsConfigs`, given the slot ranges planned for the
   * impression: one config per slot, in order, named for slot `i + 1`
   * with that slot's bounds and sequence number `int8(i + 1)`.
   */
  function GetAdPodImpsConfigs(impId: string, impRanges: seq<Slot>): (r: seq<ImpAdPodConfig>)
    ensures |r| == |impRanges|
    ensures forall i :: 0 <= i < |r| ==>
      && r[i].minDuration == impRanges[i].minDuration && r[i].maxDuration == impRanges[i].maxDuration
      && |r[i].impId| > |impId| && r[i].impId[..|impId|] == impId && r[i].impId[|impId|] == Separator
      && -128 <= r[i].sequenceNumber <= 127 && (r[i].sequenceNumber - (i + 1)) % 256 == 0
  {
    seq(|impRanges|, i requires 0 <= i < |impRanges| =>
      ImpAdPodConfig(EncodeImpressionID(impId, i + 1), impRanges[i].minDuration, impRanges[i].maxDuration, Int8(i + 1)))
  }

  /** Each config's ID decodes back to the impression and the config's position plus one. */
  lemma ConfigIdsDecode(impId: string, impRanges: seq<Slot>, i: int)
    requires Separator !in impId && 0 <= i < |impRanges| && i < MaxInt64
    ensures DecodeImpressionID(GetAdPodImpsConfigs(impId, impRanges)[i].impId) == (impId, i + 1)
  {
    assert GetAdPodImpsConfigs(impId, impRanges)[i].impId == EncodeImpressionID(impId, i + 1);
    DecodeEncode(impId, i + 1);
  }

  /** A config's sequence number is its slot number exactly for the first 127 slots. */
  lemma ConfigSequenceNumbers(impId: string, impRanges: seq<Slot>, i: int)
    requires 0 <= i < |impRanges|
    ensures i < 127 <==> GetAdPodImpsConfigs(impId, impRanges)[i].sequenceNumber == i + 1
  {
    assert GetAdPodImpsConfigs(impId, impRanges)[i].sequenceNumber == Int8(i + 1);
    Int8Keeps(i + 1);
  }

  /** The 128th slot's sequence number wraps to -128. */
  lemma SequenceNumberWraps(impId: string, impRanges: seq<Slot>)
    requires |impRanges| >= 128
    ensures GetAdPodImpsConfigs(impId, impRanges)[127].sequenceNumber == -128
  {
  }

  /**
   * `newImpression`: a copy of the impression under the config's ID whose
   * video object carries the config's bounds and sequence number with
   * `MaxExtended` cleared. Go dereferences the video object, so there must
   * be one.
   */
  function NewImpression<I, V>(imp: Imp<I, V>, config: ImpAdPodConfig): (r: Imp<I, V>)
    requires imp.video.Some?
    ensures r.id == config.impId && r.video.Some?
    ensures var v := r.video.value;
      v.minDuration == config.minDuration && v.maxDuration == config.maxDuration
      && v.sequence == config.sequenceNumber && v.maxExtended == 0
    ensures r.(id := imp.id, video := imp.video) == imp
    ensures r.video.value.(minDuration := imp.video.value.minDuration, maxDuration := imp.video.value.maxDuration,
                           sequence := imp.video.value.sequence, maxExtended := imp.video.value.maxExtended)
            == imp.video.value
  {
    var video := imp.video.value.(minDuration := config.minDuration, maxDuration := config.maxDuration,
                                  sequence := config.sequenceNumber, maxExtended := 0);
    imp.(id := config.impId, video := Some(video))
  }

  /** Building from a built impression with the same config changes nothing. */
  lemma NewImpressionIdempotent<I, V>(imp: Imp<I, V>, config: ImpAdPodConfig)
    requires imp.video.Some?
    ensures NewImpression(NewImpression(imp, config), config) == NewImpression(imp, config)
  {
  }

  /** The impressions built for one original impression, one per config, in order. */
  function PerImpression<I, V>(imp: Imp<I, V>, configs: seq<ImpAdPodConfig>): (r: seq<Imp<I, V>>)
    requires configs != [] ==> imp.video.Some?
    ensures |r| == |configs|
    ensures forall j :: 0 <= j < |configs| ==> r[j] == NewImpression(imp, configs[j])
  {
    seq(|configs|, j requires 0 <= j < |configs| => NewImpression(imp, configs[j]))
  }

  /** Every impression that has a config has a video object. */
  predicate VideoWhereConfigured<I, V>(imps: seq<Imp<I, V>>, configs: seq<seq<ImpAdPodConfig>>) {
    |configs| == |imps| && forall i :: 0 <= i < |imps| && configs[i] != [] ==> imps[i].video.Some?
  }

  /** The total number of configs. */
  function Total(configs: seq<seq<ImpAdPodConfig>>): (n: nat)
    decreases |configs|
  {
    if |configs| == 0 then 0 else Total(configs[..|configs| - 1]) + |configs[|configs| - 1]|
  }

  /** The reference for `createImpressions`: each impression's batch, in impression order. */
  function Expand<I, V>(imps: seq<Imp<I, V>>, configs: seq<seq<ImpAdPodConfig>>): (r: seq<Imp<I, V>>)
    requires VideoWhereConfigured(imps, configs)
    ensures |r| == Total(configs)
    decreases |imps|
  {
    if |imps| == 0 then []
    else
      var n := |imps| - 1;
      assert VideoWhereConfigured(imps[..n], configs[..n]);
      Expand(imps[..n], configs[..n]) + PerImpression(imps[n], configs[n])
  }

  /**
   * The layout of `createImpressions`: the `j`-th impression built for the
   * `i`-th original one sits after every impression built for the ones
   * before it.
   */
  lemma {:induction false} ExpandLayout<I, V>(imps: seq<Imp<I, V>>, configs: seq<seq<ImpAdPodConfig>>, i: int, j: int)
    requires VideoWhereConfigured(imps, configs)
    requires 0 <= i < |imps| && 0 <= j < |configs[i]|
    ensures Total(configs[..i]) + j < Total(configs)
    ensures Expand(imps, configs)[Total(configs[..i]) + j] == NewImpression(imps[i], configs[i][j])
    decreases |imps|
  {
    var n := |imps| - 1;
    assert VideoWhereConfigured(imps[..n], configs[..n]);
    if i < n {
      var front, k := configs[..n], Total(configs[..i]) + j;
      assert front[..i] == configs[..i];
      ExpandLayout(imps[..n], front, i, j);
      assert Expand(imps[..n], front)[k] == NewImpression(imps[i], configs[i][j]);
      ExpandFront(imps, configs, k);
    } else {
      assert i == n;
      ExpandLast(imps, configs, j);
    }
  }

  /** `Expand` keeps the impressions built for all but the last original one in front. */
  lemma ExpandFront<I, V>(imps: seq<Imp<I, V>>, configs: seq<seq<ImpAdPodConfig>>, k: int)
    requires VideoWhereConfigured(imps, configs) && |imps| > 0
    requires 0 <= k < Total(configs[..|imps| - 1])
    ensures var n := |imps| - 1;
      assert VideoWhereConfigured(imps[..n], configs[..n]);
      k < Total(configs) && Expand(imps, configs)[k] == Expand(imps[..n], configs[..n])[k]
  {
  }

  /** `Expand` puts the last original impression's batch at the end. */
  lemma ExpandLast<I, V>(imps: seq<Imp<I, V>>, configs: seq<seq<ImpAdPodConfig>>, j: int)
    requires VideoWhereConfigured(imps, configs) && |imps| > 0
    requires 0 <= j < |configs[|imps| - 1]|
    ensures var n := |imps| - 1;
      Total(configs[..n]) + j < Total(configs)
      && Expand(imps, configs)[Total(configs[..n]) + j] == NewImpression(imps[n], configs[n][j])
  {
    var n := |imps| - 1;
    assert configs[..n + 1] == configs;
  }

  /**
   * `createImpressions`: count the configs, then walk the impressions and
   * their configs in order, building one impression per config.
   */
  method CreateImpressions<I, V>(imps: seq<Imp<I, V>>, configs: seq<seq<ImpAdPodConfig>>) returns (r: seq<Imp<I, V>>)
    requires VideoWhereConfigured(imps, configs)
    ensures |r| == Total(configs)
    ensures r == Expand(imps, configs)
  {
    var impCount := 0;
    var k := 0;
    while k < |configs|
      invariant 0 <= k <= |configs|
      invariant impCount == Total(configs[..k])
    {
      assert configs[..k + 1][..k] == configs[..k];
      impCount := impCount + |configs[k]|;
      k := k + 1;
    }
    assert configs[..k] == configs;

    r := [];
    var index := 0;
    while index < |imps|
      invariant 0 <= index <= |imps|
      invariant VideoWhereConfigured(imps[..index], configs[..index])
      invariant r == Expand(imps[..index], configs[..index])
    {
      var batch: seq<Imp<I, V>> := [];
      var j := 0;
      while j < |configs[index]|
        invariant 0 <= j <= |configs[index]|
        invariant batch == PerImpression(imps[index], configs[index][..j])
      {
        batch := batch + [NewImpression(imps[index], configs[index][j])];
        j := j + 1;
      }
      assert configs[index][..j] == configs[index];
      assert imps[..index + 1][..index] == imps[..index];
      assert configs[..index + 1][..index] == configs[..index];
      r := r + batch;
      index := index + 1;
    }
    assert imps[..index] == imps && configs[..index] == configs;
    assert |r| == impCount;
  }

  /**
   * The keep-filter of `getBids`: a bid stays when it has an ID and a
   * non-zero price, its impression ID decodes to a known original
   * impression, and the decoded slot lies within that impression's configs.
   * A kept bid therefore names an existing slot of a known impression whose
   * ID begins the bid's impression ID.
   */
  function KeepBid(bid: Bid, impIndices: map<string, int>, configCounts: seq<int>): (keep: bool)
    requires forall id :: id in impIndices ==> 0 <= impIndices[id] < |configCounts|
    ensures keep ==> |bid.id| > 0 && bid.price != 0.0
    ensures keep ==> var (orig, k) := DecodeImpressionID(bid.impId);
      && orig in impIndices && Separator !in orig && bid.impId[..|orig|] == orig
      && 1 <= k <= configCounts[impIndices[orig]]
  {
    var (originalImpId, sequenceNumber) := DecodeImpressionID(bid.impId);
    && |bid.id| > 0 && bid.price != 0.0
    && originalImpId in impIndices
    && 1 <= sequenceNumber <= configCounts[impIndices[originalImpId]]
  }

  /**
   * The filter accepts exactly the bids aimed at a planned slot: a bid with
   * an ID and a non-zero price that names slot `k` of a known impression
   * (with no `_` in its ID) is kept if and only if that impression has at
   * least `k` configs.
   */
  lemma KeepBidForSlot(bid: Bid, impIndices: map<string, int>, configCounts: seq<int>, impId: string, k: int)
    requires forall id :: id in impIndices ==> 0 <= impIndices[id] < |configCounts|
    requires impId in impIndices && Separator !in impId
    requires 1 <= k <= MaxInt64
    requires bid.impId == EncodeImpressionID(impId, k) && |bid.id| > 0 && bid.price != 0.0
    ensures KeepBid(bid, impIndices, configCounts) <==> k <= configCounts[impIndices[impId]]
  {
    DecodeEncode(impId, k);
  }

  /** The number of bids a placeholder pod holds. */
  const PodSize: int := 3

  /**
   * `AdPodGenerator.GetAdPod`: the first three bids (all of them when there
   * are fewer), in their given order, under the same impression and seat.
   */
  method GetAdPod(bids: AdPodBid) returns (r: AdPodBid)
    ensures r.originalImpId == bids.originalImpId && r.seatName == bids.seatName
    ensures |r.bids| == if |bids.bids| < PodSize then |bids.bids| else PodSize
    ensures r.bids == bids.bids[..|r.bids|]
  {
    r := AdPodBid(bids.originalImpId, bids.seatName, []);
    var i := 0;
    while i < |bids.bids|
      invariant 0 <= i <= |bids.bids| && i <= PodSize
      invariant r.originalImpId == bids.originalImpId && r.seatName == bids.seatName
      invariant r.bids == bids.bids[..i]
    {
      if i >= PodSize {
        break;
      }
      r := r.(bids := r.bids + [bids.bids[i]]);
      i := i + 1;
    }
  }
}
