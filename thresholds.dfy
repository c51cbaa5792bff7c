/**
 * A threshold set: seven classifier categories paired, by position, with
 * seven thresholds, and the scan that decides whether a classifier response
 * exceeds any of them (`ThresholdSet` in models/moderations_service_model.py).
 */
module Thresholds {
  import opened Wrappers

  /** The categories every threshold set scans, in scanning order. */
  const Categories: seq<string> :=
    ["hate", "hate/threatening", "self-harm", "sexual", "sexual/minors", "violence", "violence/graphic"]

  /** Category names and their thresholds; entry i of one goes with entry i of the other. */
  datatype ThresholdSet = ThresholdSet(keys: seq<string>, thresholds: seq<real>)

  /** The errors a scan can raise: an empty result list, or a category the scores lack. */
  datatype ScanError = NoResults | MissingCategory(category: string)

  /** One classifier result: a score per category name, and the classifier's own flag. */
  datatype Classification = Classification(categoryScores: map<string, real>, flagged: bool)

  /** A classifier response; only its first result is ever read. */
  datatype Response = Response(results: seq<Classification>)

  /** The number of (category, threshold) pairs a scan visits: pairing stops at the shorter list. */
  function Width(t: ThresholdSet): nat
  {
    if |t.keys| <= |t.thresholds| then |t.keys| else |t.thresholds|
  }

  /** The constructor: argument i is the threshold of `Categories[i]`. */
  function NewThresholdSet(h: real, hv: real, sh: real, s: real, sm: real, v: real, vg: real): (t: ThresholdSet)
    ensures Width(t) == |Categories| == 7
  {
    ThresholdSet(Categories, [h, hv, sh, s, sm, v, vg])
  }

  /** The threshold of the first pair at index `i` or later whose name is `category`. */
  function ThresholdFrom(t: ThresholdSet, category: string, i: nat): (r: Result<real, ScanError>)
    ensures r.Ok? ==> exists j :: i <= j < Width(t) && t.keys[j] == category && t.thresholds[j] == r.value
    ensures r.Err? ==> r.error == MissingCategory(category) && forall j :: i <= j < Width(t) ==> t.keys[j] != category
    decreases Width(t) - i
  {
    if i >= Width(t) then Err(MissingCategory(category))
    else if t.keys[i] == category then Ok(t.thresholds[i])
    else ThresholdFrom(t, category, i + 1)
  }

  /** Looks a category's threshold up by name. */
  function ThresholdOf(t: ThresholdSet, category: string): Result<real, ScanError>
  {
    ThresholdFrom(t, category, 0)
  }

  /** No category name occurs twice among the pairs. */
  predicate DistinctKeys(t: ThresholdSet)
  {
    forall a, b :: 0 <= a < b < Width(t) ==> t.keys[a] != t.keys[b]
  }

  /** With distinct names, looking up the name of pair i finds threshold i. */
  lemma DistinctKeysLookup(t: ThresholdSet, i: nat)
    requires DistinctKeys(t) && i < Width(t)
    ensures ThresholdOf(t, t.keys[i]) == Ok(t.thresholds[i])
  {
    var r := ThresholdOf(t, t.keys[i]);
    if r.Ok? {
      var j :| 0 <= j < Width(t) && t.keys[j] == t.keys[i] && t.thresholds[j] == r.value;
    }
  }

  /** Constructor argument i is the threshold of category i, looked up by name. */
  lemma PairsByPosition(h: real, hv: real, sh: real, s: real, sm: real, v: real, vg: real)
    ensures var t := NewThresholdSet(h, hv, sh, s, sm, v, vg);
      ThresholdOf(t, "hate") == Ok(h) &&
      ThresholdOf(t, "hate/threatening") == Ok(hv) &&
      ThresholdOf(t, "self-harm") == Ok(sh) &&
      ThresholdOf(t, "sexual") == Ok(s) &&
      ThresholdOf(t, "sexual/minors") == Ok(sm) &&
      ThresholdOf(t, "violence") == Ok(v) &&
      ThresholdOf(t, "violence/graphic") == Ok(vg)
  {
    var t := NewThresholdSet(h, hv, sh, s, sm, v, vg);
    assert DistinctKeys(t);
    DistinctKeysLookup(t, 0);
    DistinctKeysLookup(t, 1);
    DistinctKeysLookup(t, 2);
    DistinctKeysLookup(t, 3);
    DistinctKeysLookup(t, 4);
    DistinctKeysLookup(t, 5);
    DistinctKeysLookup(t, 6);
  }

  /**
   * The loop of `moderate` from pair `i` on: a category missing from the
   * scores raises, the first score strictly above its threshold answers
   * true, and running off the end answers false.
   */
  function ScanFrom(t: ThresholdSet, scores: map<string, real>, i: nat): Result<bool, ScanError>
    decreases Width(t) - i
  {
    if i >= Width(t) then Ok(false)
    else if t.keys[i] !in scores then Err(MissingCategory(t.keys[i]))
    else if scores[t.keys[i]] > t.thresholds[i] then Ok(true)
    else ScanFrom(t, scores, i + 1)
  }

  /** The whole scan, from the first pair. */
  function Scan(t: ThresholdSet, scores: map<string, real>): Result<bool, ScanError>
  {
    ScanFrom(t, scores, 0)
  }

  /** `moderate`: whether some score exceeds its threshold, with the classifier's flag passed through. */
  function Moderate(t: ThresholdSet, response: Response): (r: Result<(bool, bool), ScanError>)
    ensures |response.results| == 0 ==> r == Err(NoResults)
    ensures r.Ok? ==> |response.results| > 0 && r.value.1 == response.results[0].flagged
    ensures |response.results| > 0 ==>
      var scan := Scan(t, response.results[0].categoryScores);
      (r.Ok? <==> scan.Ok?) &&
      (r.Ok? ==> r.value.0 == scan.value) &&
      (r.Err? ==> r.error == scan.error)
  {
    if |response.results| == 0 then Err(NoResults)
    else
      var result := response.results[0];
      match Scan(t, result.categoryScores)
      case Ok(exceeded) => Ok((exceeded, result.flagged))
      case Err(e) => Err(e)
  }

  // Where a scan stops

  /** Pair j is present in the scores and does not exceed its threshold. */
  predicate Clear(t: ThresholdSet, scores: map<string, real>, j: nat)
  {
    j < Width(t) && t.keys[j] in scores && scores[t.keys[j]] <= t.thresholds[j]
  }

  /** Pair j is present in the scores and strictly exceeds its threshold. */
  predicate ExceedsAt(t: ThresholdSet, scores: map<string, real>, j: nat)
  {
    j < Width(t) && t.keys[j] in scores && scores[t.keys[j]] > t.thresholds[j]
  }

  /** Pair j names a category the scores lack. */
  predicate MissingAt(t: ThresholdSet, scores: map<string, real>, j: nat)
  {
    j < Width(t) && t.keys[j] !in scores
  }

  /** Every pair from i up to (not including) k is clear. */
  predicate ClearBetween(t: ThresholdSet, scores: map<string, real>, i: nat, k: nat)
  {
    forall j :: i <= j < k ==> Clear(t, scores, j)
  }

  /** Every category of the set has a score. */
  predicate AllPresent(t: ThresholdSet, scores: map<string, real>)
  {
    forall j :: 0 <= j < Width(t) ==> t.keys[j] in scores
  }

  /** A scan passes over clear pairs without effect. */
  lemma {:induction false} ScanFromSkipsClear(t: ThresholdSet, scores: map<string, real>, i: nat, k: nat)
    requires i <= k <= Width(t) && ClearBetween(t, scores, i, k)
    ensures ScanFrom(t, scores, i) == ScanFrom(t, scores, k)
    decreases k - i
  {
    if i < k {
      assert Clear(t, scores, i);
      ScanFromSkipsClear(t, scores, i + 1, k);
    }
  }

  /** Every outcome of a scan is explained by the pair it stopped at. */
  lemma {:induction false} ScanFromOutcome(t: ThresholdSet, scores: map<string, real>, i: nat)
    requires i <= Width(t)
    ensures ScanFrom(t, scores, i) == Ok(true) ==>
      exists k :: i <= k < Width(t) && ClearBetween(t, scores, i, k) && ExceedsAt(t, scores, k)
    ensures ScanFrom(t, scores, i).Err? ==>
      exists k :: i <= k < Width(t) && ClearBetween(t, scores, i, k) && MissingAt(t, scores, k) &&
        ScanFrom(t, scores, i).error == MissingCategory(t.keys[k])
    ensures ScanFrom(t, scores, i) == Ok(false) ==> ClearBetween(t, scores, i, Width(t))
    decreases Width(t) - i
  {
    if i == Width(t) {
    } else if MissingAt(t, scores, i) {
      assert ClearBetween(t, scores, i, i);
    } else if ExceedsAt(t, scores, i) {
      assert ClearBetween(t, scores, i, i);
    } else {
      assert Clear(t, scores, i);
      ScanFromOutcome(t, scores, i + 1);
      var r := ScanFrom(t, scores, i);
      assert r == ScanFrom(t, scores, i + 1);
      if r == Ok(true) {
        var k :| i + 1 <= k < Width(t) && ClearBetween(t, scores, i + 1, k) && ExceedsAt(t, scores, k);
        assert ClearBetween(t, scores, i, k);
      } else if r.Err? {
        var k :| i + 1 <= k < Width(t) && ClearBetween(t, scores, i + 1, k) && MissingAt(t, scores, k) &&
          r.error == MissingCategory(t.keys[k]);
        assert ClearBetween(t, scores, i, k);
      }
    }
  }

  /**
   * `moderate`'s loop, characterised: it answers true exactly when some pair
   * exceeds and every pair before it is present and clear; it raises exactly
   * when some category is missing and every pair before it is present and
   * clear, naming that category; it answers false exactly when every pair is
   * present and clear.
   */
  lemma ScanCharacterisation(t: ThresholdSet, scores: map<string, real>)
    ensures Scan(t, scores) == Ok(true) <==>
      exists k :: 0 <= k < Width(t) && ClearBetween(t, scores, 0, k) && ExceedsAt(t, scores, k)
    ensures Scan(t, scores).Err? <==>
      exists k :: 0 <= k < Width(t) && ClearBetween(t, scores, 0, k) && MissingAt(t, scores, k)
    ensures forall k :: 0 <= k < Width(t) && ClearBetween(t, scores, 0, k) && MissingAt(t, scores, k) ==>
      Scan(t, scores) == Err(MissingCategory(t.keys[k]))
    ensures Scan(t, scores) == Ok(false) <==> ClearBetween(t, scores, 0, Width(t))
  {
    ScanFromOutcome(t, scores, 0);
    forall k | 0 <= k <= Width(t) && ClearBetween(t, scores, 0, k)
      ensures Scan(t, scores) == ScanFrom(t, scores, k)
    {
      ScanFromSkipsClear(t, scores, 0, k);
    }
  }

  /** With every category scored from pair `i` on, the scan answers whether some later score exceeds. */
  lemma {:induction false} ScanFromOnCompleteScores(t: ThresholdSet, scores: map<string, real>, i: nat)
    requires AllPresent(t, scores)
    ensures ScanFrom(t, scores, i) == Ok(exists k :: i <= k < Width(t) && scores[t.keys[k]] > t.thresholds[k])
    decreases Width(t) - i
  {
    if i < Width(t) {
      assert t.keys[i] in scores;
      ScanFromOnCompleteScores(t, scores, i + 1);
      if scores[t.keys[i]] <= t.thresholds[i] {
        assert (exists k :: i <= k < Width(t) && scores[t.keys[k]] > t.thresholds[k]) ==
               (exists k :: i + 1 <= k < Width(t) && scores[t.keys[k]] > t.thresholds[k]);
      }
    }
  }

  /**
   * With every category scored, the scan answers whether some score strictly
   * exceeds its threshold; a score equal to its threshold never counts.
   */
  lemma ScanOnCompleteScores(t: ThresholdSet, scores: map<string, real>)
    requires AllPresent(t, scores)
    ensures Scan(t, scores) == Ok(exists k :: 0 <= k < Width(t) && scores[t.keys[k]] > t.thresholds[k])
  {
    ScanFromOnCompleteScores(t, scores, 0);
  }

  /** `moderate` on a response whose first result scores every category. */
  lemma ModerateOnCompleteScores(t: ThresholdSet, response: Response)
    requires |response.results| > 0 && AllPresent(t, response.results[0].categoryScores)
    ensures var scores := response.results[0].categoryScores;
      Moderate(t, response) ==
        Ok(((exists k :: 0 <= k < Width(t) && scores[t.keys[k]] > t.thresholds[k]), response.results[0].flagged))
  {
    ScanOnCompleteScores(t, response.results[0].categoryScores);
  }

  /** Two score maps agree on the categories of pairs 0 through k. */
  predicate AgreeThrough(t: ThresholdSet, scores: map<string, real>, other: map<string, real>, k: nat)
  {
    forall j :: 0 <= j <= k && j < Width(t) ==>
      (t.keys[j] in scores <==> t.keys[j] in other) &&
      (t.keys[j] in scores ==> scores[t.keys[j]] == other[t.keys[j]])
  }

  /**
   * The scan stops at the first exceeding pair and never reads a category
   * after it: any scores that agree up to that pair give the same answer,
   * even if later categories are missing.
   */
  lemma ScanIgnoresLaterCategories(t: ThresholdSet, scores: map<string, real>, other: map<string, real>, k: nat)
    requires k < Width(t) && ClearBetween(t, scores, 0, k) && ExceedsAt(t, scores, k)
    requires AgreeThrough(t, scores, other, k)
    ensures Scan(t, scores) == Ok(true) && Scan(t, other) == Ok(true)
  {
    assert ClearBetween(t, other, 0, k) by {
      forall j | 0 <= j < k ensures Clear(t, other, j) {
        assert Clear(t, scores, j);
      }
    }
    ScanFromSkipsClear(t, scores, 0, k);
    ScanFromSkipsClear(t, other, 0, k);
  }

  /** `hi` scores every category `lo` scores, each at least as high. */
  predicate ScoresAtLeast(hi: map<string, real>, lo: map<string, real>)
  {
    forall c :: c in lo ==> c in hi && lo[c] <= hi[c]
  }

  /** Raising scores never turns an exceeding scan into a clear one, nor a clear scan into an error. */
  lemma {:induction false} ScanFromMonotone(t: ThresholdSet, lo: map<string, real>, hi: map<string, real>, i: nat)
    requires ScoresAtLeast(hi, lo)
    ensures ScanFrom(t, lo, i) == Ok(true) ==> ScanFrom(t, hi, i) == Ok(true)
    ensures ScanFrom(t, lo, i) == Ok(false) ==> ScanFrom(t, hi, i).Ok?
    decreases Width(t) - i
  {
    if i < Width(t) && t.keys[i] in lo {
      ScanFromMonotone(t, lo, hi, i + 1);
    }
  }

  /** `lo` has the same categories as `hi`, and no threshold above `hi`'s. */
  predicate ThresholdsAtMost(lo: ThresholdSet, hi: ThresholdSet)
  {
    lo.keys == hi.keys && Width(lo) == Width(hi) &&
    forall j :: 0 <= j < Width(lo) ==> lo.thresholds[j] <= hi.thresholds[j]
  }

  /**
   * Scanning the same scores against lower thresholds: whatever exceeds the
   * higher set exceeds the lower one, a raise under the lower set is the same
   * raise under the higher set, and a clear scan under the lower set is clear
   * under the higher one.
   */
  lemma {:induction false} ScanFromLowerThresholds(lo: ThresholdSet, hi: ThresholdSet, scores: map<string, real>, i: nat)
    requires ThresholdsAtMost(lo, hi)
    ensures ScanFrom(hi, scores, i) == Ok(true) ==> ScanFrom(lo, scores, i) == Ok(true)
    ensures ScanFrom(lo, scores, i).Err? ==> ScanFrom(hi, scores, i) == ScanFrom(lo, scores, i)
    ensures ScanFrom(lo, scores, i) == Ok(false) ==> ScanFrom(hi, scores, i) == Ok(false)
    decreases Width(lo) - i
  {
    if i < Width(lo) && lo.keys[i] in scores && scores[lo.keys[i]] <= lo.thresholds[i] {
      ScanFromLowerThresholds(lo, hi, scores, i + 1);
    }
  }
}
