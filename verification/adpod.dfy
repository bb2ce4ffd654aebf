/**
 * The ad-pod request extensions (openrtb_ext/adpod.go): the per-impression
 * `VideoAdPod`, the request-level `ReqAdPodExt` and the `VideoExtension`
 * carried in `imp.video.ext`, with their validators, default rules and the
 * merge of an impression pod with its parent. Go's `*int` fields are
 * `Option<int>`; the Go methods that mutate through a pointer receiver are
 * functions returning the updated record.
 */
module AdPod {
  import opened Optional
  import opened DurationMath

  /** The validation errors, in the order of their declaration. */
  datatype AdPodError =
    | InvalidCrossPodAdvertiserExclusionPercent
    | InvalidCrossPodIABCategoryExclusionPercent
    | InvalidIABCategoryExclusionWindow
    | InvalidAdvertiserExclusionWindow
    | InvalidAdPodOffset
    | InvalidMinAds
    | InvalidMaxAds
    | InvalidMinDuration
    | InvalidMaxDuration
    | InvalidAdvertiserExclusionPercent
    | InvalidIABCategoryExclusionPercent
    | InvalidMinMaxAds
    | InvalidMinMaxDuration
  {
    /**
     * The position of the error in the declaration list. Every validator
     * checks in this order, so the lists it returns rise by rank.
     */
    function Rank(): nat {
      match this
      case InvalidCrossPodAdvertiserExclusionPercent => 0
      case InvalidCrossPodIABCategoryExclusionPercent => 1
      case InvalidIABCategoryExclusionWindow => 2
      case InvalidAdvertiserExclusionWindow => 3
      case InvalidAdPodOffset => 4
      case InvalidMinAds => 5
      case InvalidMaxAds => 6
      case InvalidMinDuration => 7
      case InvalidMaxDuration => 8
      case InvalidAdvertiserExclusionPercent => 9
      case InvalidIABCategoryExclusionPercent => 10
      case InvalidMinMaxAds => 11
      case InvalidMinMaxDuration => 12
    }

    /** The text of the Go error value. */
    function Message(): string {
      match this
      case InvalidCrossPodAdvertiserExclusionPercent =>
        "request.ext.adpod.crosspodexcladv must be a number between 0 and 100"
      case InvalidCrossPodIABCategoryExclusionPercent =>
        "request.ext.adpod.crosspodexcliabcat must be a number between 0 and 100"
      case InvalidIABCategoryExclusionWindow =>
        "request.ext.adpod.excliabcatwindow must be postive number"
      case InvalidAdvertiserExclusionWindow =>
        "request.ext.adpod.excladvwindow must be postive number"
      case InvalidAdPodOffset =>
        "request.imp.video.ext.offset must be postive number"
      case InvalidMinAds =>
        "request.imp.video.ext.adpod.minads must be positive number"
      case InvalidMaxAds =>
        "request.imp.video.ext.adpod.maxads must be positive number"
      case InvalidMinDuration =>
        "request.imp.video.ext.adpod.adminduration must be positive number"
      case InvalidMaxDuration =>
        "request.imp.video.ext.adpod.admaxduration must be positive number"
      case InvalidAdvertiserExclusionPercent =>
        "request.imp.video.ext.adpod.excladv must be number between 0 and 100"
      case InvalidIABCategoryExclusionPercent =>
        "request.imp.video.ext.adpod.excliabcat must be number between 0 and 100"
      case InvalidMinMaxAds =>
        "request.imp.video.ext.adpod.minads must be less than request.imp.video.ext.adpod.maxads"
      case InvalidMinMaxDuration =>
        "request.imp.video.ext.adpod.adminduration must be less than request.imp.video.ext.adpod.admaxduration"
    }
  }

  /** Pod parameters of one impression; every field may be absent. */
  datatype VideoAdPod = VideoAdPod(
    minAds: Option<int>,
    maxAds: Option<int>,
    minDuration: Option<int>,
    maxDuration: Option<int>,
    advertiserExclusionPercent: Option<int>,
    iabCategoryExclusionPercent: Option<int>)

  /** Pod parameters of the request: an embedded pod plus cross-pod rules. */
  datatype ReqAdPodExt = ReqAdPodExt(
    pod: VideoAdPod,
    crossPodAdvertiserExclusionPercent: Option<int>,
    crossPodIABCategoryExclusionPercent: Option<int>,
    iabCategoryExclusionWindow: Option<int>,
    advertiserExclusionWindow: Option<int>)

  /** `imp.video.ext`: an offset and an optional pod. */
  datatype VideoExtension = VideoExtension(offset: Option<int>, adPod: Option<VideoAdPod>)

  const EmptyPod := VideoAdPod(None, None, None, None, None, None)

  /** Errors come in strictly rising declaration order: no repeats, check order. */
  predicate InRankOrder(errs: seq<AdPodError>) {
    forall i, j :: 0 <= i < j < |errs| ==> errs[i].Rank() < errs[j].Rank()
  }

  predicate Positive(v: Option<int>) {
    v.None? || v.value > 0
  }

  predicate Percent(v: Option<int>) {
    v.None? || 0 <= v.value <= 100
  }

  predicate NotAbove(a: Option<int>, b: Option<int>) {
    a.None? || b.None? || a.value <= b.value
  }

  /** What the pod validator objects to, one error at a time. */
  predicate PodViolates(pod: VideoAdPod, e: AdPodError) {
    CountViolates(pod, e) || BoundViolates(pod, e)
  }

  /** The first four pod checks: counts and durations must be positive. */
  predicate CountViolates(pod: VideoAdPod, e: AdPodError) {
    || (e == InvalidMinAds && !Positive(pod.minAds))
    || (e == InvalidMaxAds && !Positive(pod.maxAds))
    || (e == InvalidMinDuration && !Positive(pod.minDuration))
    || (e == InvalidMaxDuration && !Positive(pod.maxDuration))
  }

  /** The last four pod checks: percents in range, minimums not above maximums. */
  predicate BoundViolates(pod: VideoAdPod, e: AdPodError) {
    || (e == InvalidAdvertiserExclusionPercent && !Percent(pod.advertiserExclusionPercent))
    || (e == InvalidIABCategoryExclusionPercent && !Percent(pod.iabCategoryExclusionPercent))
    || (e == InvalidMinMaxAds && !NotAbove(pod.minAds, pod.maxAds))
    || (e == InvalidMinMaxDuration && !NotAbove(pod.minDuration, pod.maxDuration))
  }

  /** What the request-level validator objects to, beyond the embedded pod. */
  predicate ReqViolates(ext: ReqAdPodExt, e: AdPodError) {
    || (e == InvalidCrossPodAdvertiserExclusionPercent && !Percent(ext.crossPodAdvertiserExclusionPercent))
    || (e == InvalidCrossPodIABCategoryExclusionPercent && !Percent(ext.crossPodIABCategoryExclusionPercent))
    || (e == InvalidIABCategoryExclusionWindow && ext.iabCategoryExclusionWindow.Some?
        && ext.iabCategoryExclusionWindow.value < 0)
    || (e == InvalidAdvertiserExclusionWindow && ext.advertiserExclusionWindow.Some?
        && ext.advertiserExclusionWindow.value < 0)
  }

  /** Go's `if failed { err = append(err, e) }`, for an error ranked after all so far. */
  function Check(errs: seq<AdPodError>, failed: bool, e: AdPodError): (r: seq<AdPodError>)
    requires InRankOrder(errs)
    requires forall i :: 0 <= i < |errs| ==> errs[i].Rank() < e.Rank()
    ensures InRankOrder(r)
    ensures forall x :: x in r <==> x in errs || (failed && x == e)
    ensures forall i :: 0 <= i < |r| ==> r[i].Rank() <= e.Rank()
  {
    if failed then errs + [e] else errs
  }

  /**
   * `(*VideoAdPod).Validate`: each error exactly when its check fails, in
   * check order; the list is empty exactly when every check passes.
   */
  function ValidatePod(pod: VideoAdPod): (errs: seq<AdPodError>)
    ensures forall e :: e in errs <==> PodViolates(pod, e)
    ensures InRankOrder(errs)
  {
    ValidatePodAfter([], pod)
  }

  /** The pod checks, appended to errors that all rank below them. */
  function ValidatePodAfter(errs: seq<AdPodError>, pod: VideoAdPod): (r: seq<AdPodError>)
    requires InRankOrder(errs)
    requires forall i :: 0 <= i < |errs| ==> errs[i].Rank() < InvalidMinAds.Rank()
    ensures forall e :: e in r <==> e in errs || PodViolates(pod, e)
    ensures InRankOrder(r)
  {
    var e4 := CountChecks(errs, pod);
    var e5 := Check(e4, !Percent(pod.advertiserExclusionPercent), InvalidAdvertiserExclusionPercent);
    var e6 := Check(e5, !Percent(pod.iabCategoryExclusionPercent), InvalidIABCategoryExclusionPercent);
    var e7 := Check(e6, !NotAbove(pod.minAds, pod.maxAds), InvalidMinMaxAds);
    Check(e7, !NotAbove(pod.minDuration, pod.maxDuration), InvalidMinMaxDuration)
  }

  function CountChecks(errs: seq<AdPodError>, pod: VideoAdPod): (r: seq<AdPodError>)
    requires InRankOrder(errs)
    requires forall i :: 0 <= i < |errs| ==> errs[i].Rank() < InvalidMinAds.Rank()
    ensures forall e :: e in r <==> e in errs || CountViolates(pod, e)
    ensures forall i :: 0 <= i < |r| ==> r[i].Rank() <= InvalidMaxDuration.Rank()
    ensures InRankOrder(r)
  {
    var e1 := Check(errs, !Positive(pod.minAds), InvalidMinAds);
    var e2 := Check(e1, !Positive(pod.maxAds), InvalidMaxAds);
    var e3 := Check(e2, !Positive(pod.minDuration), InvalidMinDuration);
    Check(e3, !Positive(pod.maxDuration), InvalidMaxDuration)
  }

  /**
   * `(*ReqAdPodExt).Validate`: a nil extension has no errors; otherwise the
   * cross-pod checks, then the embedded pod's errors.
   */
  function ValidateReq(ext: Option<ReqAdPodExt>): (errs: seq<AdPodError>)
    ensures ext.None? ==> errs == []
    ensures ext.Some? ==> forall e :: e in errs <==> ReqViolates(ext.value, e) || PodViolates(ext.value.pod, e)
    ensures InRankOrder(errs)
  {
    match ext
    case None => []
    case Some(x) =>
      var e1 := Check([], !Percent(x.crossPodAdvertiserExclusionPercent), InvalidCrossPodAdvertiserExclusionPercent);
      var e2 := Check(e1, !Percent(x.crossPodIABCategoryExclusionPercent), InvalidCrossPodIABCategoryExclusionPercent);
      var e3 := Check(e2, x.iabCategoryExclusionWindow.Some? && x.iabCategoryExclusionWindow.value < 0,
        InvalidIABCategoryExclusionWindow);
      var e4 := Check(e3, x.advertiserExclusionWindow.Some? && x.advertiserExclusionWindow.value < 0,
        InvalidAdvertiserExclusionWindow);
      ValidatePodAfter(e4, x.pod)
  }

  /**
   * `(*VideoExtension).Validate`: a negative offset, then the pod's errors
   * when a pod is present.
   */
  function ValidateExtension(ext: VideoExtension): (errs: seq<AdPodError>)
    ensures forall e :: e in errs <==>
      (e == InvalidAdPodOffset && ext.offset.Some? && ext.offset.value < 0)
      || (ext.adPod.Some? && PodViolates(ext.adPod.value, e))
    ensures ext.adPod.None? ==> |errs| <= 1
    ensures InRankOrder(errs)
  {
    var e1 := Check([], ext.offset.Some? && ext.offset.value < 0, InvalidAdPodOffset);
    if ext.adPod.Some? then ValidatePodAfter(e1, ext.adPod.value) else e1
  }

  /** An absent field takes `default`; a present one is kept. */
  function OrDefault(v: Option<int>, default: int): (r: Option<int>)
    ensures r.Some?
    ensures v.Some? ==> r == v
    ensures v.None? ==> r.value == default
  {
    Some(v.GetOr(default))
  }

  /**
   * `(*VideoAdPod).SetDefaultValue`: absent MinAds, MaxAds and the two
   * exclusion percents become 2, 3, 100 and 100. Durations are left alone.
   */
  function SetDefaultPod(pod: VideoAdPod): (r: VideoAdPod)
    ensures r.minAds == Some(pod.minAds.GetOr(2)) && r.maxAds == Some(pod.maxAds.GetOr(3))
    ensures r.advertiserExclusionPercent == Some(pod.advertiserExclusionPercent.GetOr(100))
    ensures r.iabCategoryExclusionPercent == Some(pod.iabCategoryExclusionPercent.GetOr(100))
    ensures r.minDuration == pod.minDuration && r.maxDuration == pod.maxDuration
  {
    pod.(minAds := OrDefault(pod.minAds, 2),
         maxAds := OrDefault(pod.maxAds, 3),
         advertiserExclusionPercent := OrDefault(pod.advertiserExclusionPercent, 100),
         iabCategoryExclusionPercent := OrDefault(pod.iabCategoryExclusionPercent, 100))
  }

  /**
   * `(*ReqAdPodExt).SetDefaultValue`: the pod defaults, then 100, 100, 0, 0
   * for the absent cross-pod percents and exclusion windows.
   */
  function SetDefaultReq(ext: ReqAdPodExt): (r: ReqAdPodExt)
    ensures r.pod == SetDefaultPod(ext.pod)
    ensures r.crossPodAdvertiserExclusionPercent == Some(ext.crossPodAdvertiserExclusionPercent.GetOr(100))
    ensures r.crossPodIABCategoryExclusionPercent == Some(ext.crossPodIABCategoryExclusionPercent.GetOr(100))
    ensures r.iabCategoryExclusionWindow == Some(ext.iabCategoryExclusionWindow.GetOr(0))
    ensures r.advertiserExclusionWindow == Some(ext.advertiserExclusionWindow.GetOr(0))
  {
    ReqAdPodExt(
      SetDefaultPod(ext.pod),
      OrDefault(ext.crossPodAdvertiserExclusionPercent, 100),
      OrDefault(ext.crossPodIABCategoryExclusionPercent, 100),
      OrDefault(ext.iabCategoryExclusionWindow, 0),
      OrDefault(ext.advertiserExclusionWindow, 0))
  }

  /**
   * `(*VideoExtension).SetDefaultValue`: offset 0 when absent, a fresh
   * empty pod when absent, then the pod defaults.
   */
  function SetDefaultExtension(ext: VideoExtension): (r: VideoExtension)
    ensures r.offset == Some(ext.offset.GetOr(0))
    ensures r.adPod == Some(SetDefaultPod(ext.adPod.GetOr(EmptyPod)))
  {
    VideoExtension(OrDefault(ext.offset, 0), Some(SetDefaultPod(ext.adPod.GetOr(EmptyPod))))
  }

  /** Applying the defaults twice is the same as applying them once. */
  lemma SetDefaultIdempotent(pod: VideoAdPod, req: ReqAdPodExt, ext: VideoExtension)
    ensures SetDefaultPod(SetDefaultPod(pod)) == SetDefaultPod(pod)
    ensures SetDefaultReq(SetDefaultReq(req)) == SetDefaultReq(req)
    ensures SetDefaultExtension(SetDefaultExtension(ext)) == SetDefaultExtension(ext)
  {
  }

  /**
   * The pod defaults never introduce an error of their own except the
   * MinAds/MaxAds ordering one: a present MinAds above the default 3 is
   * then reported.
   */
  lemma SetDefaultAddsOnlyMinMaxAds(pod: VideoAdPod)
    ensures forall e :: e in ValidatePod(SetDefaultPod(pod)) ==> e in ValidatePod(pod) || e == InvalidMinMaxAds
    ensures ValidatePod(SetDefaultPod(VideoAdPod(Some(5), None, None, None, None, None))) == [InvalidMinMaxAds]
    ensures ValidatePod(VideoAdPod(Some(5), None, None, None, None, None)) == []
  {
  }

  /**
   * `(*VideoAdPod).SetDefaultAdDurations`: an absent MinDuration becomes
   * half the pod minimum and an absent MaxDuration half the pod maximum,
   * both with Go's truncating division; present values are untouched.
   */
  function SetDefaultAdDurations(pod: VideoAdPod, podMinDuration: int, podMaxDuration: int): (r: VideoAdPod)
    ensures pod.minDuration.Some? ==> r.minDuration == pod.minDuration
    ensures pod.maxDuration.Some? ==> r.maxDuration == pod.maxDuration
    ensures pod.minDuration.None? && podMinDuration >= 0 ==>
      r.minDuration.Some? && 0 <= 2 * r.minDuration.value <= podMinDuration < 2 * r.minDuration.value + 2
    ensures pod.maxDuration.None? && podMaxDuration >= 0 ==>
      r.maxDuration.Some? && 0 <= 2 * r.maxDuration.value <= podMaxDuration < 2 * r.maxDuration.value + 2
    ensures pod.minDuration.None? && podMinDuration < 0 ==>
      r.minDuration.Some? && podMinDuration <= 2 * r.minDuration.value < podMinDuration + 2
    ensures pod.maxDuration.None? && podMaxDuration < 0 ==>
      r.maxDuration.Some? && podMaxDuration <= 2 * r.maxDuration.value < podMaxDuration + 2
    ensures r.(minDuration := pod.minDuration, maxDuration := pod.maxDuration) == pod
  {
    pod.(minDuration := OrDefault(pod.minDuration, Quo(podMinDuration, 2)),
         maxDuration := OrDefault(pod.maxDuration, Quo(podMaxDuration, 2)))
  }

  /**
   * `(*VideoAdPod).Merge`: the parent's value fills only an absent MinAds,
   * MaxAds or exclusion percent (it may itself be absent); durations and
   * present fields are never changed.
   */
  function Merge(pod: VideoAdPod, parent: VideoAdPod): (r: VideoAdPod)
    ensures r.minAds == (if pod.minAds.Some? then pod.minAds else parent.minAds)
    ensures r.maxAds == (if pod.maxAds.Some? then pod.maxAds else parent.maxAds)
    ensures r.advertiserExclusionPercent ==
      (if pod.advertiserExclusionPercent.Some? then pod.advertiserExclusionPercent else parent.advertiserExclusionPercent)
    ensures r.iabCategoryExclusionPercent ==
      (if pod.iabCategoryExclusionPercent.Some? then pod.iabCategoryExclusionPercent else parent.iabCategoryExclusionPercent)
    ensures r.minDuration == pod.minDuration && r.maxDuration == pod.maxDuration
  {
    pod.(minAds := if pod.minAds.None? then parent.minAds else pod.minAds,
         maxAds := if pod.maxAds.None? then parent.maxAds else pod.maxAds,
         advertiserExclusionPercent :=
           if pod.advertiserExclusionPercent.None? then parent.advertiserExclusionPercent else pod.advertiserExclusionPercent,
         iabCategoryExclusionPercent :=
           if pod.iabCategoryExclusionPercent.None? then parent.iabCategoryExclusionPercent else pod.iabCategoryExclusionPercent)
  }

  /**
   * Merging is idempotent, a fully present pod ignores its parent, and
   * merging with a parent that has no fields changes nothing.
   */
  lemma MergeProperties(pod: VideoAdPod, parent: VideoAdPod)
    ensures Merge(Merge(pod, parent), parent) == Merge(pod, parent)
    ensures (pod.minAds.Some? && pod.maxAds.Some? && pod.advertiserExclusionPercent.Some?
             && pod.iabCategoryExclusionPercent.Some?) ==> Merge(pod, parent) == pod
    ensures Merge(pod, EmptyPod) == pod
  {
  }

  /**
   * The four fields the pod planner dereferences are present and at least
   * one, as a successful `ValidatePod` guarantees once they are present.
   */
  predicate Plannable(pod: VideoAdPod) {
    && pod.minAds.Some? && pod.minAds.value >= 1
    && pod.maxAds.Some? && pod.maxAds.value >= 1
    && pod.minDuration.Some? && pod.minDuration.value >= 1
    && pod.maxDuration.Some? && pod.maxDuration.value >= 1
  }

  /**
   * After both default rules, a pod that passes validation can be handed
   * to the planner: the defaults make the four fields present and the
   * validator makes them positive.
   */
  lemma DefaultedValidPodIsPlannable(pod: VideoAdPod, podMinDuration: int, podMaxDuration: int)
    ensures var p := SetDefaultAdDurations(SetDefaultPod(pod), podMinDuration, podMaxDuration);
      ValidatePod(p) == [] <==>
        (Plannable(p) && NotAbove(p.minAds, p.maxAds) && NotAbove(p.minDuration, p.maxDuration)
         && Percent(p.advertiserExclusionPercent) && Percent(p.iabCategoryExclusionPercent))
  {
    var p := SetDefaultAdDurations(SetDefaultPod(pod), podMinDuration, podMaxDuration);
    if ValidatePod(p) == [] {
      assert !PodViolates(p, InvalidMinAds) && !PodViolates(p, InvalidMaxAds);
      assert !PodViolates(p, InvalidMinDuration) && !PodViolates(p, InvalidMaxDuration);
      assert !PodViolates(p, InvalidMinMaxAds) && !PodViolates(p, InvalidMinMaxDuration);
      assert !PodViolates(p, InvalidAdvertiserExclusionPercent) && !PodViolates(p, InvalidIABCategoryExclusionPercent);
    }
  }
}
