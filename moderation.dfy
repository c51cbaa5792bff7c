/**
 * The two-tier verdict of `Moderation.determine_moderation_result`
 * (models/moderations_service_model.py): a hard-coded warn set and a
 * hard-coded delete set, both scanned, with DELETE taking precedence.
 */
module Moderation {
  import opened Wrappers
  import opened Thresholds

  /** `ModerationResult`: what the worker does with a message. */
  datatype ModerationResult = None | Warn | Delete

  /** NONE < WARN < DELETE. */
  function Severity(v: ModerationResult): nat
  {
    match v
    case None => 0
    case Warn => 1
    case Delete => 2
  }

  /** The lower thresholds, above which an admin is warned. */
  const WarnSet: ThresholdSet := NewThresholdSet(0.005, 0.05, 0.05, 0.91, 0.1, 0.08, 0.1)

  /** The higher thresholds, above which the message is deleted. */
  const DeleteSet: ThresholdSet := NewThresholdSet(0.1, 0.1, 0.1, 0.95, 0.2, 0.6, 0.4)

  /** Scans the warn set, then the delete set (either may raise), then decides. */
  function DetermineModerationResult(response: Response): Result<ModerationResult, ScanError>
  {
    var warn := Moderate(WarnSet, response);
    if warn.Err? then Err(warn.error)
    else
      var delete := Moderate(DeleteSet, response);
      if delete.Err? then Err(delete.error)
      else if delete.value.0 then Ok(Delete)
      else if warn.value.0 then Ok(Warn)
      else Ok(None)
  }

  /** Every warn threshold is at most the delete threshold of the same category. */
  lemma WarnBelowDelete()
    ensures ThresholdsAtMost(WarnSet, DeleteSet)
    ensures WarnSet.keys == DeleteSet.keys == Categories
  {
  }

  /**
   * The verdict in terms of the two scans alone: DELETE exactly when the
   * delete set triggers, WARN exactly when it does not and the warn set does,
   * NONE exactly when the warn set finds every category clear, and an error
   * exactly when the delete scan raises, with the same error. Which set is
   * scanned first does not change any of this. An empty result list raises.
   */
  lemma DetermineCharacterisation(response: Response)
    ensures |response.results| == 0 ==> DetermineModerationResult(response) == Err(NoResults)
    ensures |response.results| > 0 ==>
      var scores := response.results[0].categoryScores;
      var r := DetermineModerationResult(response);
      (r == Ok(Delete) <==> Scan(DeleteSet, scores) == Ok(true)) &&
      (r == Ok(Warn) <==> Scan(DeleteSet, scores) == Ok(false) && Scan(WarnSet, scores) == Ok(true)) &&
      (r == Ok(None) <==> Scan(WarnSet, scores) == Ok(false)) &&
      (r.Err? <==> Scan(DeleteSet, scores).Err?) &&
      (r.Err? ==> r == Err(Scan(DeleteSet, scores).error))
  {
    if |response.results| > 0 {
      var scores := response.results[0].categoryScores;
      WarnBelowDelete();
      ScanFromLowerThresholds(WarnSet, DeleteSet, scores, 0);
    }
  }

  /**
   * When the classifier scores all seven categories, the verdict is DELETE iff
   * some score strictly exceeds its delete threshold, WARN iff none does but
   * some exceeds its warn threshold, and NONE iff every score is at most its
   * warn threshold.
   */
  lemma DetermineOnCompleteScores(response: Response)
    requires |response.results| > 0
    requires forall c :: c in Categories ==> c in response.results[0].categoryScores
    ensures var s := response.results[0].categoryScores;
      var r := DetermineModerationResult(response);
      r.Ok? &&
      (r.value == Delete <==> exists k :: 0 <= k < 7 && s[Categories[k]] > DeleteSet.thresholds[k]) &&
      (r.value == Warn <==>
        (forall k :: 0 <= k < 7 ==> s[Categories[k]] <= DeleteSet.thresholds[k]) &&
        (exists k :: 0 <= k < 7 && s[Categories[k]] > WarnSet.thresholds[k])) &&
      (r.value == None <==> forall k :: 0 <= k < 7 ==> s[Categories[k]] <= WarnSet.thresholds[k])
  {
    var s := response.results[0].categoryScores;
    WarnBelowDelete();
    assert AllPresent(WarnSet, s) by {
      forall j | 0 <= j < Width(WarnSet) ensures WarnSet.keys[j] in s {
        assert WarnSet.keys[j] == Categories[j];
      }
    }
    ScanOnCompleteScores(WarnSet, s);
    ScanOnCompleteScores(DeleteSet, s);
    DetermineCharacterisation(response);
  }

  /** A DELETE verdict means the warn set triggered as well. */
  lemma DeleteImpliesWarnTriggered(response: Response)
    requires DetermineModerationResult(response) == Ok(Delete)
    ensures Moderate(WarnSet, response) == Ok((true, response.results[0].flagged))
    ensures Moderate(DeleteSet, response) == Ok((true, response.results[0].flagged))
  {
    WarnBelowDelete();
    ScanFromLowerThresholds(WarnSet, DeleteSet, response.results[0].categoryScores, 0);
  }

  /**
   * Raising scores (any number of them, each by any amount) never lowers a
   * verdict in the order NONE < WARN < DELETE, nor turns it into an error.
   */
  lemma RaisingScoresNeverLowersVerdict(response: Response, raised: Response)
    requires |response.results| > 0 && |raised.results| > 0
    requires ScoresAtLeast(raised.results[0].categoryScores, response.results[0].categoryScores)
    requires DetermineModerationResult(response).Ok?
    ensures DetermineModerationResult(raised).Ok?
    ensures Severity(DetermineModerationResult(response).value) <= Severity(DetermineModerationResult(raised).value)
  {
    var lo := response.results[0].categoryScores;
    var hi := raised.results[0].categoryScores;
    ScanFromMonotone(WarnSet, lo, hi, 0);
    ScanFromMonotone(DeleteSet, lo, hi, 0);
    DetermineCharacterisation(response);
    DetermineCharacterisation(raised);
  }

  /** A response scoring every category zero except the given one. */
  function OnlyScore(category: string, score: real): map<string, real>
  {
    map c | c in Categories :: if c == category then score else 0.0
  }

  /** A hate score of 0.2 (above the delete threshold 0.1) is deleted. */
  lemma HateAboveDeleteThresholdDeletes(flagged: bool)
    ensures DetermineModerationResult(Response([Classification(OnlyScore("hate", 0.2), flagged)])) == Ok(Delete)
  {
    var response := Response([Classification(OnlyScore("hate", 0.2), flagged)]);
    DetermineOnCompleteScores(response);
    assert OnlyScore("hate", 0.2)[Categories[0]] > DeleteSet.thresholds[0];
  }

  /** A sexual score of 0.93 lies between its warn (0.91) and delete (0.95) thresholds: a warning. */
  lemma SexualBetweenThresholdsWarns(flagged: bool)
    ensures DetermineModerationResult(Response([Classification(OnlyScore("sexual", 0.93), flagged)])) == Ok(Warn)
  {
    var response := Response([Classification(OnlyScore("sexual", 0.93), flagged)]);
    var s := OnlyScore("sexual", 0.93);
    DetermineOnCompleteScores(response);
    assert s[Categories[3]] > WarnSet.thresholds[3];
    assert forall k :: 0 <= k < 7 ==> s[Categories[k]] <= DeleteSet.thresholds[k];
  }

  /** Scores exactly at their warn thresholds do not trigger: the comparison is strict. */
  lemma ScoresAtWarnThresholdsAreNone(flagged: bool)
    ensures var s := map["hate" := 0.005, "hate/threatening" := 0.05, "self-harm" := 0.05, "sexual" := 0.91,
                         "sexual/minors" := 0.1, "violence" := 0.08, "violence/graphic" := 0.1];
      DetermineModerationResult(Response([Classification(s, flagged)])) == Ok(None)
  {
    var s := map["hate" := 0.005, "hate/threatening" := 0.05, "self-harm" := 0.05, "sexual" := 0.91,
                 "sexual/minors" := 0.1, "violence" := 0.08, "violence/graphic" := 0.1];
    assert forall k :: 0 <= k < 7 ==> Categories[k] in s && s[Categories[k]] <= WarnSet.thresholds[k];
    DetermineOnCompleteScores(Response([Classification(s, flagged)]));
  }

  /**
   * Both sets are scanned, so a category the warn scan never reaches can
   * still make the verdict raise: with only a hate score of 0.05 the warn
   * set triggers at hate, but the delete set finds hate clear and reaches the
   * missing hate/threatening.
   */
  lemma WarnTriggeredButVerdictRaises(flagged: bool)
    ensures var response := Response([Classification(map["hate" := 0.05], flagged)]);
      Moderate(WarnSet, response) == Ok((true, flagged)) &&
      DetermineModerationResult(response) == Err(MissingCategory("hate/threatening"))
  {
  }
}
