# CTV ad-pod planning and selection, modelled in Dafny

This project models the ad-pod core of a prebid-server fork's CTV endpoint.
An ad pod is a commercial break of several video ads. The request states
the pod's minimum and maximum length, the number of ads it may hold, and
the minimum and maximum length of each ad. The server does four things
with that:

- **Validates the pod parameters and fills in defaults.** This is
  `openrtb_ext/adpod.go`: the three `Validate` methods, the three
  `SetDefaultValue` methods, `SetDefaultAdDurations` and `Merge`. Optional
  integers are `Option<int>`.
- **Plans the slots.** This is `endpoints/openrtb2/ctv/impressions.go`:
  - `init0` snaps the bounds to multiples of 5;
  - `computeTotalAds` picks the slot count;
  - `computeTimeForEachAdSlot` picks the base time;
  - the `addTime` loop spreads the pod's time over the slots;
  - `validateSlots` drops empty slots and rejects plans outside the bounds.
- **Expands and decodes impressions.** This is a slice of
  `endpoints/openrtb2/ctv_auction.go`. Each slot becomes its own impression,
  named `"<impid>_<seq>"`. A bid's impression ID is decoded back to the
  original impression and slot, and bids are filtered on that. A
  placeholder pod generator takes the first three bids.
- **Selects a combination of bids, one per impression, that are pairwise
  compatible.** This is `endpoints/openrtb2/ctv/combination_generator.go`
  with its comparator cache `map_cache.go`. The selector is an odometer
  over index vectors. It checks pairs by distance and, on the first
  failing pair, restarts from that pair's right position.

Modules, one per file:

| module | file | models |
|---|---|---|
| `Optional` | optional.dfy | Go's nil-able values |
| `Decimal` | decimal.dfy | `%d`, `strconv.Atoi`, `strings.Split` on one character |
| `DurationMath` | duration_math.dfy | the integer helpers of the planner |
| `AdPod` | adpod.dfy | validation, defaults and merge of pod parameters |
| `Impressions` | impressions.dfy | the slot planner |
| `ImpressionsExamples` | impressions_examples.dfy | concrete plans from the planner's tests |
| `PairCache` | map_cache.dfy | the comparator cache |
| `Odometer` | odometer.dfy | index vectors: lexicographic order, bump, mixed-radix rank |
| `Combinations` | combinations.dfy | the combination selector, as written and corrected |
| `CombinationsExamples` | combinations_examples.dfy | concrete runs of the selector |
| `CtvAuction` | ctv_auction.dfy | impression expansion, ID codec, keep-filter, first-three pod |

Modelling conventions:

- Go panics (nil dereference, index out of range) are explicit outcomes.
  The selector returns `Fault` where Go would panic. Elsewhere the Go
  precondition becomes a `requires`.
- The bid comparator is a parameter `comp: (B, B) -> bool` over an
  abstract bid type.
- Request objects carry type parameters for the parts the code never
  touches. "Copied unchanged" is then an equality of those parts.

## Model

| member | source | states |
|---|---|---|
| DurationMath.Quo | endpoints/openrtb2/ctv/impressions.go:102-115 | Go's int64 division truncates toward zero for every combination of signs: the remainder a − q·b has the dividend's sign and is smaller than the divisor in magnitude; for a positive divisor the quotient lies between 0 and the dividend |
| DurationMath.Max | endpoints/openrtb2/ctv/impressions.go:277-288 | the result is one of the two inputs and at least both |
| DurationMath.ClosestFactor | endpoints/openrtb2/ctv/impressions.go:297-299 | `math.Round(n/5)*5` is a multiple of 5 within 2.5 of n, with ties going away from zero |
| DurationMath.ClosestFactorOdd | endpoints/openrtb2/ctv/impressions.go:297-299 | rounding is symmetric: negating the input negates the factor |
| DurationMath.ClosestFactorNear | endpoints/openrtb2/ctv/impressions.go:297-299 | the closest factor lies less than 5 below its input, and a multiple of 5 is kept as it is |
| DurationMath.IsMultipleOfExact | endpoints/openrtb2/ctv/impressions.go:291-293 | `isMultipleOf(n, 5)` holds exactly when the closest factor of n is n itself |
| DurationMath.NextMultiple | endpoints/openrtb2/ctv/impressions.go:314-316 | adding 5 leaves the remainder modulo 5 unchanged, so stepping up by 5 from a multiple of 5 lands on one |
| DurationMath.ClosestFactorForMinDuration | endpoints/openrtb2/ctv/impressions.go:304-320 | the result is a multiple of 5, at least n, and less than n + 5 unless it is 5 |
| DurationMath.MinDurationIsLeastMultiple | endpoints/openrtb2/ctv/impressions.go:304-320 | for n ≥ 1 the result is the least multiple of 5 not below n; n = 0 gives 5 |
| DurationMath.StepPast | endpoints/openrtb2/ctv/impressions.go:330-337 | the stepping loop ends on the first multiple of 5 above n; it terminates because n is not a multiple |
| DurationMath.ClosestFactorForMaxDuration | endpoints/openrtb2/ctv/impressions.go:325-349 | the result never exceeds n; it is n itself or a non-zero multiple of 5 within 5 of n |
| DurationMath.MaxDurationIsGreatestMultiple | endpoints/openrtb2/ctv/impressions.go:325-349 | the result is the greatest multiple of 5 not above n, except that 1..4 come back unchanged |
| DurationMath.RoundingExamples | endpoints/openrtb2/ctv/impressions.go:297-349 | concrete roundings: 1→5, 4→5, 8→10, 11→15, 127→130 upward; 4→4, 128→125 downward; 126→125, 134→135 nearest |
| Impressions.Init0 | endpoints/openrtb2/ctv/impressions.go:37-56 | equal pod bounds round to nearest; unequal ones round min up and max down; slot bounds always round min up and max down |
| Impressions.ComputeTotalAds | endpoints/openrtb2/ctv/impressions.go:102-115 | with fit the larger of the two truncated fits (pod maximum over slot maximum, pod maximum over slot minimum): the count is fit when fit lies in [MinAds, MaxAds], MaxAds when fit exceeds it, and MinAds when fit falls short of it; so it lies in [MinAds, MaxAds] whenever MinAds ≤ MaxAds |
| Impressions.ComputeTimeForEachAdSlot | endpoints/openrtb2/ctv/impressions.go:120-140 | with even the pod maximum divided by the ad count (truncated): when SlotMin ≤ SlotMax, the base time is even (or its closest factor when even is not a multiple of 5) if even lies in [SlotMin, SlotMax], and SlotMin (or its closest factor) if even falls below it; when even exceeds SlotMax, or the snapped bounds cross (SlotMax < SlotMin), the clamp to SlotMax comes last and wins, giving SlotMax or its closest factor; the base time is always a multiple of 5, and lies in [SlotMin, SlotMax] when both bounds are multiples of 5 and ordered |
| Impressions.RoundStaysBetween | endpoints/openrtb2/ctv/impressions.go:133-138 | rounding a duration that lies between two multiples of 5 to its closest factor stays between them, so the base time keeps within the slot bounds |
| Impressions.ComputeTimeLeastValue | endpoints/openrtb2/ctv/impressions.go:147-157 | the next offer is 5, or the remaining time when that is less |
| Impressions.Grown | endpoints/openrtb2/ctv/impressions.go:249-262 | a grown slot's maximum rises by exactly t |
| Impressions.Scan | endpoints/openrtb2/ctv/impressions.go:239-271 | the slot loop: each slot grows by exactly t or stays; the running total grows by the amount added and never passes the requested maximum; the full count equals the number of slots exactly when every slot is full |
| Impressions.AddTime | endpoints/openrtb2/ctv/impressions.go:234-274 | `addTime` changes only the slots and the total; the total and the slot sum grow by the returned amount; "all full" holds exactly when every slot is full or cannot take t |
| Impressions.ScanProgress | endpoints/openrtb2/ctv/impressions.go:239-271 | when t fits under the requested maximum, a round adds at least t or reports every slot full |
| Impressions.RoundProgress | endpoints/openrtb2/ctv/impressions.go:75-84 | the same for one `addTime` call, so the fill loop makes progress or stops |
| Impressions.Fill | endpoints/openrtb2/ctv/impressions.go:75-84 | the fill loop keeps the total equal to the slot sum and within the requested maximum, and keeps the empty slots at the end |
| Impressions.RoundKeepsInv | endpoints/openrtb2/ctv/impressions.go:234-274 | one round keeps the empty slots as an all-zero suffix |
| Impressions.MatchUpOverride | endpoints/openrtb2/ctv/impressions.go:254-257 | when the offer equals the match-up time, every growing slot's minimum becomes the requested slot minimum |
| Impressions.UniformScan | endpoints/openrtb2/ctv/impressions.go:239-271 | identical slots that cannot grow all end up identical |
| Impressions.StepWellFormed | endpoints/openrtb2/ctv/impressions.go:249-262 | one slot update keeps the slot well formed, and a slot without time stays untouched |
| Impressions.ScanKeepsInv | endpoints/openrtb2/ctv/impressions.go:239-271 | the slot loop keeps the empty slots as an all-zero suffix |
| Impressions.ZeroCount | endpoints/openrtb2/ctv/impressions.go:176-182 | at most all slots are counted empty |
| Impressions.NonZero | endpoints/openrtb2/ctv/impressions.go:166-219 | the kept slots are the non-empty ones, taken from the input, one fewer per empty slot |
| Impressions.Compact | endpoints/openrtb2/ctv/impressions.go:184-193 | the shortened slice has one entry fewer per empty slot |
| Impressions.SuffixShape | endpoints/openrtb2/ctv/impressions.go:184-193 | with the empty slots at the end, the kept slots are the prefix and carry the whole sum |
| Impressions.InvCompaction | endpoints/openrtb2/ctv/impressions.go:184-193 | under the fill's shape, writing kept slots by original index stays in range and gives exactly the non-empty slots with the whole sum |
| Impressions.FirstEmpty | endpoints/openrtb2/ctv/impressions.go:176-182 | every slot before it has time and every slot from it on is empty |
| Impressions.ValidateSlots | endpoints/openrtb2/ctv/impressions.go:166-219 | all or nothing: an empty plan stays; a plan within the count and time bounds keeps its non-empty slots; any other plan is emptied with all time free |
| Impressions.Setup | endpoints/openrtb2/ctv/impressions.go:66-74 | the snapped config with `totalAds` zero slots |
| Impressions.Planned | endpoints/openrtb2/ctv/impressions.go:64-84 | after the fill, the total equals the slot sum, does not exceed the requested maximum, and the empty slots form a suffix |
| Impressions.ZeroSums | endpoints/openrtb2/ctv/impressions.go:72-74 | fresh zero slots sum to 0 and have the suffix shape |
| Impressions.GetImpressions | endpoints/openrtb2/ctv/impressions.go:64-99 | either no slot and all time free, or a count in [MinAds, MaxAds] of slots with positive bounds whose sum is the allocated time, within the requested bounds, with the rest free |
| ImpressionsExamples.TestPod | endpoints/openrtb2/ctv/impressions_test.go:579-593 | the test fixture carries all four pod fields |
| ImpressionsExamples.Init0Examples | endpoints/openrtb2/ctv/impressions_test.go:275-321 | 126/126 snaps to 125/125, 127..128 to 130/125, slot 4..4 to 5/4, 134/134 to 135 |
| ImpressionsExamples.SixSlotsOfFifteen | endpoints/openrtb2/ctv/impressions_test.go:50-63 | a 1..90 pod with 11..15 slots and 2..8 ads: the slot minimum snaps to 15, so the planner counts 6 ads with a base time of 15 each |
| ImpressionsExamples.CrossedSlotBounds | endpoints/openrtb2/ctv/impressions.go:120-140 | slot bounds 11..14 snap to 15 and 10, which cross; with a 1..20 pod the planner counts 2 ads and the even share of 10 is raised to 15 and lowered back to 10 |
| ImpressionsExamples.Case4 | endpoints/openrtb2/ctv/impressions_test.go:81-95 | a 1..15 pod with 1..15 slots and one ad plans one 15/15 slot with nothing free |
| ImpressionsExamples.Case18 | endpoints/openrtb2/ctv/impressions_test.go:307-321 | a 125/125 pod with 4..4 slots plans nothing and leaves all 125 seconds free |
| ImpressionsExamples.ZeroSlotMinimumBreaksCompaction | endpoints/openrtb2/ctv/impressions.go:184-193 | with a zero slot minimum a middle slot can become {0, x}, and writing kept slots by original index then leaves the slice |
| PairCache.KeySplits | endpoints/openrtb2/ctv/map_cache.go:18-20 | the key splits at its colons into the four decimal renderings |
| PairCache.KeyInjective | endpoints/openrtb2/ctv/map_cache.go:18-20 | distinct position 4-tuples have distinct keys |
| PairCache.Set | endpoints/openrtb2/ctv/map_cache.go:22-24 | after a `Set`, `Get` on the same tuple returns the value |
| PairCache.Get | endpoints/openrtb2/ctv/map_cache.go:26-29 | `ok` holds exactly when the tuple's key is stored |
| PairCache.NewMapCache | endpoints/openrtb2/ctv/map_cache.go:12-16 | `Get` on a fresh cache reports every tuple absent |
| PairCache.SetLeavesOthers | endpoints/openrtb2/ctv/map_cache.go:22-29 | a `Set` leaves `Get` on every other tuple unchanged |
| PairCache.SetOverwrites | endpoints/openrtb2/ctv/map_cache.go:22-24 | a later `Set` on the same tuple replaces the earlier one |
| PairCache.KeysOrdered | endpoints/openrtb2/ctv/map_cache.go:18-20 | swapping the two positions gives a different key, so no symmetry of the comparator is assumed |
| PairCache.KeyExamples | endpoints/openrtb2/ctv/map_cache.go:18-20 | keys render as `"0:1:2:10"` and `"-1:0:3:7"` |
| Decimal.IntToString | endpoints/openrtb2/ctv_auction.go:430 | `%d` writes at least one character, only digits and a minus sign, and starts with a digit exactly when the number is non-negative |
| Decimal.IntToStringRoundTrip | endpoints/openrtb2/ctv_auction.go:430 | parsing what `%d` wrote gives the number back |
| Decimal.IntToStringInjective | endpoints/openrtb2/ctv/map_cache.go:19 | distinct numbers render differently |
| Decimal.Atoi | endpoints/openrtb2/ctv_auction.go:809 | `strconv.Atoi` accepts a string only as an optionally signed decimal in the int64 range, with the value it denotes; an in-form string outside the range is rejected |
| Decimal.AtoiRoundTrip | endpoints/openrtb2/ctv_auction.go:809 | `strconv.Atoi` reads back what `%d` wrote, for every int64 |
| Decimal.Split | endpoints/openrtb2/ctv_auction.go:805 | the pieces are separator-free, joined by the separator they give back the input, and there is one piece exactly when the separator is absent |
| Decimal.SplitJoin | endpoints/openrtb2/ctv_auction.go:805 | splitting a join of separator-free parts gives back the parts |
| Decimal.SplitNoSeparator | endpoints/openrtb2/ctv_auction.go:806-807 | a string without the separator splits into itself |
| Odometer.Bump | endpoints/openrtb2/ctv/combination_generator.go:45-48 | one position is incremented, the ones left of it are kept and the ones right of it are reset to 0 |
| Odometer.BumpAdvances | endpoints/openrtb2/ctv/combination_generator.go:45-48 | a bump moves strictly forward in lexicographic order |
| Odometer.LexTotal | endpoints/openrtb2/ctv/combination_generator.go:35-57 | vectors of one length are totally ordered |
| Odometer.SkipKeepsPrefix | endpoints/openrtb2/ctv/combination_generator.go:40-48 | every vector between a state and its bump agrees with the state up to the restart position |
| Odometer.RankMonotone | endpoints/openrtb2/ctv/combination_generator.go:84-91 | lexicographic progress raises the mixed-radix rank, so the search loop terminates |
| Odometer.AdvanceSkipsNothing | endpoints/openrtb2/ctv/combination_generator.go:40-48 | an advance past positions at their last index skips no vector |
| Combinations.FirstFailure | endpoints/openrtb2/ctv/combination_generator.go:60-79 | the cache-free scan by distance, then left index: it passes exactly when every pair is compatible, and otherwise names the first failing pair in scan order |
| Combinations.GetSound | endpoints/openrtb2/ctv/combination_generator.go:67 | a hit in a consistent cache is the comparator's answer for existing bids |
| Combinations.SetKeepsSound | endpoints/openrtb2/ctv/combination_generator.go:68-71 | storing the comparator's answer keeps the cache consistent |
| Combinations.ValidateFrom | endpoints/openrtb2/ctv/combination_generator.go:62-78 | with a consistent cache, the cached scan keeps it consistent and returns the cache-free verdict |
| Combinations.ValidateAdPod | endpoints/openrtb2/ctv/combination_generator.go:60-79 | valid exactly when every pair is compatible; a failing pair names existing bids that the comparator rejects |
| Combinations.FailurePrefixInRange | endpoints/openrtb2/ctv/combination_generator.go:62-75 | when the pair (i, j) fails, every position up to j picks an existing bid |
| Combinations.RestartSkipsNoValidPod | endpoints/openrtb2/ctv/combination_generator.go:89-90 | restarting from the failing pair's right position skips only vectors that contain that failing pair |
| Combinations.CarryOnce | endpoints/openrtb2/ctv/combination_generator.go:41-44 | the carry moves back one position only, and only when the position is at its last bid |
| Combinations.GetNext | endpoints/openrtb2/ctv/combination_generator.go:35-57 | first call gives the zero vector; with no impressions the next call gives nil; later calls bump the carried position, and panic exactly when the carry falls off the left end |
| Combinations.AdvanceMovesForward | endpoints/openrtb2/ctv/combination_generator.go:40-50 | every advance moves strictly forward |
| Combinations.Select | endpoints/openrtb2/ctv/combination_generator.go:97-99 | position k of the pod is bid `v[k]` of impression k |
| Combinations.RestartStep | endpoints/openrtb2/ctv/combination_generator.go:84-91 | an as-written restart bumps a valid position, overshoots a list by at most one, raises the rank and skips no valid pod |
| Combinations.RestartBumpBelow | endpoints/openrtb2/ctv/combination_generator.go:40-45 | the position a restart bumps exists, and the bumped vector is at most one past each list |
| Combinations.Search | endpoints/openrtb2/ctv/combination_generator.go:84-100 | the search loop never ends in nil; a pod it returns is valid, and no valid vector lies between the start and that pod |
| Combinations.SearchPassed | endpoints/openrtb2/ctv/combination_generator.go:87-100 | a vector whose bids all exist and whose pairs all pass ends the loop, and the pod is that vector's bids |
| Combinations.SearchOutOfRange | endpoints/openrtb2/ctv/combination_generator.go:60-79 | a vector that names a missing bid makes the validation inside the loop panic |
| Combinations.SearchConflict | endpoints/openrtb2/ctv/combination_generator.go:86-91 | a failing pair (i, j) sets `lastIndex` to j and the loop goes on from the next vector, or panics when the advance does |
| Combinations.SkipThenSearch | endpoints/openrtb2/ctv/combination_generator.go:84-91 | a skip followed by a search skips no valid pod |
| Combinations.GetAdPod | endpoints/openrtb2/ctv/combination_generator.go:82-101 | a pod is valid and keeps the object invariant; the first pod is the lexicographically least valid one; each later pod is the next valid one; nil comes only with no impressions |
| Combinations.NewCombinations | endpoints/openrtb2/ctv/combination_generator.go:25-32 | a new selector has not started, holds no index vector, knows no pair, and satisfies the object invariant for any bids and comparator |
| Combinations.FirstCallSearches | endpoints/openrtb2/ctv/combination_generator.go:82-91 | the first call of a new selector searches from the zero vector with an empty cache |
| Combinations.Carry | endpoints/openrtb2/ctv/combination_generator.go:40-44 | the full carry lands on the rightmost position that is not at its last bid |
| Combinations.SearchCorrected | endpoints/openrtb2/ctv/combination_generator.go:84-91 | with the full carry, the search returns the first valid vector from its start, or nothing exactly when none exists |
| Combinations.FirstPodCorrected | endpoints/openrtb2/ctv/combination_generator.go:82-101 | the first pod with the full carry is the least valid vector, or nothing when no vector is valid |
| Combinations.NextPodCorrected | endpoints/openrtb2/ctv/combination_generator.go:82-101 | the next pod with the full carry is the least valid vector above the previous one, or nothing when none is left |
| Combinations.LeastValidUnique | endpoints/openrtb2/ctv/combination_generator.go:82-101 | the least valid vector of an interval is unique |
| Combinations.GetAdPodAgrees | endpoints/openrtb2/ctv/combination_generator.go:82-101 | whenever the as-written selector returns a pod, the full-carry selector returns the same pod |
| CombinationsExamples.OneLevelCarryPanics | endpoints/openrtb2/ctv/combination_generator.go:40-45 | Ads [[0,1],[2],[3]] with bid 0 rejected next to bid 3: the first call panics |
| CombinationsExamples.OvershootSearch | endpoints/openrtb2/ctv/combination_generator.go:84-91 | for that input the loop fails [0,0,0] at (0, 2), moves to [0,1,0] and panics there |
| CombinationsExamples.OvershootRestart | endpoints/openrtb2/ctv/combination_generator.go:40-45 | with `lastIndex` 2 at [0,0,0], the one-level carry bumps position 1 past its only bid |
| CombinationsExamples.FullCarryFindsPod | endpoints/openrtb2/ctv/combination_generator.go:40-45 | for the same input the full carry reaches position 0 and finds the valid pod [1,0,0] |
| CombinationsExamples.ExhaustionPanics | endpoints/openrtb2/ctv/combination_generator.go:40-53 | with one impression holding one bid, the second call panics instead of returning nil |
| CombinationsExamples.NoImpressions | endpoints/openrtb2/ctv/combination_generator.go:36-38 | with no impressions the first call returns the empty pod and the second returns nil |
| CombinationsExamples.RestartFindsPod | endpoints/openrtb2/ctv/combination_generator.go:84-91 | a conflict at (0, 1) restarts at position 0 and finds the pod of bids 2 and 3 |
| CombinationsExamples.RestartSearch | endpoints/openrtb2/ctv/combination_generator.go:84-100 | the loop fails [0,0] at (0, 1), carries to position 0 and returns the bids of [1,0] |
| CombinationsExamples.RestartCarries | endpoints/openrtb2/ctv/combination_generator.go:40-45 | with position 1 at its only bid, the carry moves to position 0 and gives [1,0] |
| AdPod.Check | openrtb_ext/adpod.go:65-99 | one guarded append keeps the error list in declaration order and adds the error exactly when the check fails |
| AdPod.ValidatePod | openrtb_ext/adpod.go:65-99 | each pod error is reported exactly when its check fails, in check order |
| AdPod.ValidatePodAfter | openrtb_ext/adpod.go:65-99 | the pod errors appended after earlier ones: exactly the earlier ones plus the failing checks, still in order |
| AdPod.CountChecks | openrtb_ext/adpod.go:66-80 | the four positivity checks append exactly their failures, in order |
| AdPod.ValidateReq | openrtb_ext/adpod.go:102-131 | a nil extension has no errors; otherwise exactly the failing cross-pod checks, then the embedded pod's errors |
| AdPod.ValidateExtension | openrtb_ext/adpod.go:133-146 | a negative offset is reported, then the pod's errors when there is a pod |
| AdPod.OrDefault | openrtb_ext/adpod.go:148-169 | an absent field takes the default and a present one is kept |
| AdPod.SetDefaultPod | openrtb_ext/adpod.go:148-169 | absent MinAds, MaxAds and the two exclusion percents become 2, 3, 100 and 100, and the durations are untouched |
| AdPod.SetDefaultReq | openrtb_ext/adpod.go:171-195 | the pod defaults, then 100, 100, 0 and 0 for the absent cross-pod fields |
| AdPod.SetDefaultExtension | openrtb_ext/adpod.go:197-209 | offset 0 when absent, an empty pod when absent, then the pod defaults |
| AdPod.SetDefaultIdempotent | openrtb_ext/adpod.go:148-209 | applying the defaults twice is the same as applying them once |
| AdPod.SetDefaultAddsOnlyMinMaxAds | openrtb_ext/adpod.go:148-169 | defaults add no error except the MinAds/MaxAds ordering one, and MinAds 5 shows that one |
| AdPod.SetDefaultAdDurations | openrtb_ext/adpod.go:211-224 | an absent slot minimum or maximum becomes half the pod's, truncated toward zero: for a non-negative pod bound p the half h has 2h ≤ p < 2h + 2, for a negative one p ≤ 2h < p + 2; present durations and every other field are left as they are |
| AdPod.Merge | openrtb_ext/adpod.go:226-246 | the parent's value fills only an absent count or percent; durations and present fields are kept |
| AdPod.MergeProperties | openrtb_ext/adpod.go:226-246 | merging is idempotent, ignores the parent when every field is present, and merging with a parent that has no fields changes nothing |
| AdPod.DefaultedValidPodIsPlannable | openrtb_ext/adpod.go:65-99 | after both default rules, a pod passes validation exactly when the four fields the planner dereferences are present and at least 1, the minimums are not above the maximums and the percents are in range |
| CtvAuction.Int8 | endpoints/openrtb2/ctv_auction.go:433 | `int8(n)` lies in [-128, 127] and agrees with n modulo 256 |
| CtvAuction.Int8Keeps | endpoints/openrtb2/ctv_auction.go:433 | `int8` keeps a value exactly when the value fits in 8 bits |
| CtvAuction.EncodeImpressionID | endpoints/openrtb2/ctv_auction.go:430 | the ID is the impression ID, then `_`, then a separator-free decimal that parses to the slot number |
| CtvAuction.EncodeSplits | endpoints/openrtb2/ctv_auction.go:430 | a built ID splits into the pieces of the impression ID followed by the slot number |
| CtvAuction.DecodeImpressionID | endpoints/openrtb2/ctv_auction.go:804-814 | the decoded impression is the separator-free prefix before the first `_`; an ID without `_` decodes to itself and slot 1; otherwise the slot is `strconv.Atoi` of the second piece, or 1 when that piece is not an int64 |
| CtvAuction.DecodeExamples | endpoints/openrtb2/ctv_auction.go:804-814 | `"a_x"` decodes to ("a", 1), because `x` is not a number, and `"a_5_x"` decodes to ("a", 5), ignoring the third piece |
| CtvAuction.DecodeEncode | endpoints/openrtb2/ctv_auction.go:804-814 | round trip: an ID built for slot k of an impression without `_` decodes to that impression and k |
| CtvAuction.UnderscoreIdDoesNotRoundTrip | endpoints/openrtb2/ctv_auction.go:804-814 | an impression ID containing `_` loses its tail: slot 1 of `"a_b"` decodes to `"a"` |
| CtvAuction.GetAdPodImpsConfigs | endpoints/openrtb2/ctv_auction.go:424-437 | one config per slot range, in order, with that range's bounds, an ID that extends the impression ID with `_`, and sequence number i + 1 modulo 256 |
| CtvAuction.ConfigIdsDecode | endpoints/openrtb2/ctv_auction.go:430 | config i's ID decodes to the impression and slot i + 1 |
| CtvAuction.ConfigSequenceNumbers | endpoints/openrtb2/ctv_auction.go:433 | config i's sequence number is i + 1 exactly for the first 127 slots |
| CtvAuction.SequenceNumberWraps | endpoints/openrtb2/ctv_auction.go:433 | the 128th slot's sequence number wraps to -128 |
| CtvAuction.NewImpression | endpoints/openrtb2/ctv_auction.go:460-473 | the copy carries the config's ID, bounds and sequence number with MaxExtended 0; restoring those fields gives back the original impression |
| CtvAuction.NewImpressionIdempotent | endpoints/openrtb2/ctv_auction.go:460-473 | rebuilding a built impression with the same config changes nothing |
| CtvAuction.PerImpression | endpoints/openrtb2/ctv_auction.go:450-453 | one built impression per config, in config order |
| CtvAuction.Expand | endpoints/openrtb2/ctv_auction.go:440-457 | the reference output has as many impressions as there are configs in total |
| CtvAuction.ExpandLayout | endpoints/openrtb2/ctv_auction.go:446-454 | the j-th impression built for original impression i sits right after all the impressions built for earlier originals |
| CtvAuction.CreateImpressions | endpoints/openrtb2/ctv_auction.go:440-457 | the two loops produce exactly the reference expansion, whose length is the counted total |
| CtvAuction.KeepBidForSlot | endpoints/openrtb2/ctv_auction.go:489-501 | a bid with an ID and a price that names slot k of a known impression is kept exactly when that impression has at least k configs |
| CtvAuction.KeepBid | endpoints/openrtb2/ctv_auction.go:489-501 | a kept bid has an ID and a non-zero price, and its impression ID begins with the separator-free ID of a known impression whose configs include the decoded slot (1 ≤ slot ≤ count) |
| CtvAuction.GetAdPod | endpoints/openrtb2/ctv_auction.go:773-786 | the first min(3, n) bids, in order, under the same impression ID and seat |

## Left out

- The rounding factor is the package constant 5 (`multipleOf`). The helpers that take it as a parameter are stated for 5 only.
- Go's float64 detour in `math.Round` and `math.Mod` is not modelled. It is exact for the durations in question, below 2^53.
- int64 overflow of durations and counts is not modelled; integers are unbounded. The `int8` sequence number is the one truncation that matters, and it is modelled.
- Impressions.GetImpressions: requires the four pod fields present and at least 1. Validation with defaults guarantees this (AdPod.DefaultedValidPodIsPlannable), and the Go code dereferences and divides by them. A zero slot minimum is excluded; ImpressionsExamples.ZeroSlotMinimumBreaksCompaction shows what goes wrong then.
- Logging (`log.Printf`, `log.Println`) is left out; it has no effect on results.
- `ctv.GetImpressions`, the exported planner that `getAdPodImpsConfigs` calls, is not part of this model. CtvAuction.GetAdPodImpsConfigs takes the slot ranges as a parameter.
- `getAllAdPodImpsConfigs` is not modelled beyond its skip of impressions without video. CtvAuction.CreateImpressions requires a video object wherever configs exist.
- The rest of `getBids` is left out: grouping by original impression, the fixed seat name, and the float price sort. Only the keep-predicate is modelled.
- CtvAuction.KeepBid: bid prices are `real`, so NaN is not modelled.
- The `&bid` range-variable aliasing at ctv_auction.go:511 is left out.
- VAST creative stitching, the HTTP handler, JSON editing, stored requests, metrics and the auction itself are outside the modelled core.
- `adslot_combination_generator.go` is a stub that does not compile, with no logic to model.
- `get_impression_details.go`, `main.go` and `UOE-5066/main.go` are earlier float64 prototypes of the planner and are left out.
- `impressions_by_config.go` only wraps a planner that is not shown, and prints.
- `printCombination` is a debugging helper and is left out.
- Combinations.GetAdPod: the bid slice Go returns is reused between calls. Here each pod is a fresh value.
- Only a few of the planner's test cases are stated as example lemmas: case 2 up to the ad count and base time, case 4, the bounds of 16/17, case 18 and the 134-second pod. Larger plans exceed what the verifier evaluates cheaply.

## Findings

| source | as written | input that shows it | evidently intended | confidence | as-written member | corrected member |
|---|---|---|---|---|---|---|
| endpoints/openrtb2/ctv/combination_generator.go:40-45 | after a failing pair (i, j) the carry steps back one position only (the `continue` is commented out) and increments it even when it is already at its last bid; validation then indexes past that impression's bids and panics | Ads `[[0,1],[2],[3]]`, comparator rejecting bid 0 with bid 3: `[0,0,0]` fails at (0,2), the carry moves to position 1 and gives `[0,1,0]`, and `Ads[1][1]` panics | carry to the rightmost position not at its last bid; that reaches `[1,0,0]`, which is valid (CombinationsExamples.FullCarryFindsPod) | high (not executed) | CombinationsExamples.OneLevelCarryPanics | Combinations.SearchCorrected |
| endpoints/openrtb2/ctv/combination_generator.go:40-53 | when every combination is used up, the carry decrements `lastIndex` to -1 and then indexes `state[-1]`, so the `lastIndex < 0` nil return is unreachable with at least one impression | Ads `[[7]]`, any comparator: the first call returns bid 7, the second panics | return nil when no combination is left | high (not executed) | CombinationsExamples.ExhaustionPanics | Combinations.NextPodCorrected |
