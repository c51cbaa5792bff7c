# Moderation worker: threshold verdicts and the queue loop

A Dafny model of the message-moderation core of a chat bot
(`models/moderations_service_model.py`). A classifier gives each message a score per harm category.
Two hard-coded threshold sets turn those scores into a verdict:
DELETE, WARN or NONE. A worker loop drains a queue of pending
moderations and acts on each one once it is due.

- `wrappers.dfy`: module `Wrappers`, a `Result` type for the exceptions the code raises.
- `thresholds.dfy`: module `Thresholds`. This is `ThresholdSet`: seven category names
  paired by position with seven thresholds. Its `moderate` loop is modelled as a
  recursive scan over the pair index, `ScanFrom`, which stops at the first missing
  category (raising `MissingCategory`) or at the first strictly exceeding score.
  `Moderate` reads the first classifier result; an empty result list raises `NoResults`.
- `moderation.dfy`: module `Moderation`. This is `ModerationResult`, the warn and delete
  sets with their constants, and `DetermineModerationResult`.
- `queue_worker.dfy`: module `QueueWorker`. This is one pass of
  `process_moderation_queue`'s loop: the value-level specification (`NextQueue`, `Effects`,
  `RunQueue`, `RunEffects`) and the class `ModerationWorker`. The class holds the queue and
  a log of completed platform calls. `Step` performs one pass in place, and `Run` performs
  a bounded number of passes.

Scores and thresholds are `real`: the code only compares them with `>`.
The clock, the classifier's reply and platform failures are parameters of each pass (`Tick`):
- `now` replaces `datetime.now()`;
- `reply` is the classifier's response, or `ClassifierFailed` when the request raises;
- `fault` names the platform call of the pass that raises, if any.

An exception ends the pass after the head item has already left the queue.
So the item is dropped, and only the calls made before the failing one appear in the log.

The model follows the code on these details:
- A pending item is processed only when `now > timestamp` (line 142).
  An item whose timestamp equals the current time goes back to the tail.
- The warn set is scanned before the delete set (lines 116-117). `DetermineCharacterisation`
  proves that the order changes nothing. Whenever the warn scan raises, the delete scan
  raises the same error.
- A missing category raises only if the scan reaches it before any exceedance (lines 47-49).
  For one set's scan, a category missing after the first exceeding one goes unread and raises nothing.
  The verdict scans both sets, so it still raises when the delete scan reaches the missing category
  before any delete threshold is exceeded. With only `hate: 0.05`, for example, the warn scan answers
  true but the verdict raises on `hate/threatening` (`WarnTriggeredButVerdictRaises`).
- A WARN verdict with no alert channel calls `send` on an absent channel (line 166).
  That raises, the error is swallowed, and no call is made.

## Model

| member | source | states |
|---|---|---|
| Thresholds.NewThresholdSet | models/moderations_service_model.py:23-41 | a new threshold set pairs exactly seven categories with seven thresholds |
| Thresholds.PairsByPosition | models/moderations_service_model.py:23-41 | looking up each category name in a new set gives the constructor argument in the same position (hate, hate/threatening, self-harm, sexual, sexual/minors, violence, violence/graphic) |
| Thresholds.DistinctKeysLookup | models/moderations_service_model.py:24-41 | when category names are distinct, looking up the name of pair i yields threshold i |
| Thresholds.Moderate | models/moderations_service_model.py:43-50 | an empty result list raises; otherwise the answer is the scan's answer for the first result and an error is the scan's error (the missing category it stopped at), and the second component is that result's `flagged` value, whatever the scores |
| Thresholds.ScanCharacterisation | models/moderations_service_model.py:47-50 | the scan answers true iff some pair exceeds strictly and every earlier pair is present and at most its threshold; it raises iff some category is missing and every earlier pair is present and clear, and then names that category; it answers false iff every pair is present and clear |
| Thresholds.ScanFromSkipsClear | models/moderations_service_model.py:47-49 | present categories at or below their thresholds do not affect the scan's outcome |
| Thresholds.ScanFromOutcome | models/moderations_service_model.py:47-50 | every outcome of the scan is explained by the pair where it stopped |
| Thresholds.ScanFromOnCompleteScores | models/moderations_service_model.py:47-50 | when every category is scored, the scan from any pair answers whether some later score strictly exceeds its threshold |
| Thresholds.ScanOnCompleteScores | models/moderations_service_model.py:47-50 | when every category is scored, the scan answers whether some score strictly exceeds its threshold; equality never triggers |
| Thresholds.ModerateOnCompleteScores | models/moderations_service_model.py:43-50 | when the first result scores every category, `moderate` returns (some score strictly exceeds its threshold, `flagged`) |
| Thresholds.ScanIgnoresLaterCategories | models/moderations_service_model.py:47-49 | the scan stops at the first exceeding pair, so scores that agree up to it give true too, even when later categories are missing |
| Thresholds.ScanFromMonotone | models/moderations_service_model.py:47-49 | raising scores never turns an exceeding scan into a clear one, nor a clear scan into an error |
| Thresholds.ScanFromLowerThresholds | models/moderations_service_model.py:47-49 | against pointwise lower thresholds, whatever exceeds the higher set exceeds the lower one; a raise under the lower set is the same raise under the higher set; clear under the lower set is clear under the higher set |
| Moderation.WarnBelowDelete | models/moderations_service_model.py:113-114 | every warn threshold is at most the delete threshold of the same category, and both sets use the seven categories |
| Moderation.DetermineCharacterisation | models/moderations_service_model.py:112-124 | an empty result list raises `NoResults`; otherwise DELETE iff the delete scan triggers; WARN iff the delete scan is clear and the warn scan triggers; NONE iff the warn scan is clear; an error iff the delete scan raises, and then the same error |
| Moderation.DetermineOnCompleteScores | models/moderations_service_model.py:112-124 | with all seven categories scored: DELETE iff some score exceeds its delete threshold; WARN iff none does but some score exceeds its warn threshold; NONE iff every score is at most its warn threshold |
| Moderation.DeleteImpliesWarnTriggered | models/moderations_service_model.py:113-120 | a DELETE verdict means both the warn set and the delete set triggered |
| Moderation.RaisingScoresNeverLowersVerdict | models/moderations_service_model.py:113-124 | raising scores never lowers a verdict in the order NONE < WARN < DELETE, and never turns a verdict into an error |
| Moderation.HateAboveDeleteThresholdDeletes | models/moderations_service_model.py:114-120 | a hate score of 0.2 with every other score 0 is DELETE |
| Moderation.SexualBetweenThresholdsWarns | models/moderations_service_model.py:113-122 | a sexual score of 0.93 with every other score 0 is WARN |
| Moderation.ScoresAtWarnThresholdsAreNone | models/moderations_service_model.py:113-124 | scores exactly equal to the warn thresholds give NONE |
| Moderation.WarnTriggeredButVerdictRaises | models/moderations_service_model.py:116-117 | with only a hate score of 0.05, the warn scan answers true, but the delete scan finds hate clear and raises on the missing hate/threatening, so the verdict raises |
| QueueWorker.EmptyQueueIsIdle | models/moderations_service_model.py:134-136 | a pass over an empty queue leaves it empty and makes no call |
| QueueWorker.NotDueRotatesHead | models/moderations_service_model.py:139-178 | a head with `now <= timestamp` moves unchanged to the tail; length and multiset are preserved and no call is made |
| QueueWorker.DueHeadLeavesQueue | models/moderations_service_model.py:139-184 | a due head leaves the queue whatever the verdict or failure; the queue shrinks by one and keeps the rest in order |
| QueueWorker.EffectsArePlannedPrefix | models/moderations_service_model.py:143-184 | the calls a pass completes are a prefix of those its verdict plans, all about the head's message; a pass with calls had a due head and a verdict |
| QueueWorker.DeleteVerdictCalls | models/moderations_service_model.py:150-164 | DELETE without failure replies, deletes, then sends one alert exactly when a channel is configured; a deletion is always preceded by the reply; no admin buttons are attached |
| QueueWorker.WarnVerdictCalls | models/moderations_service_model.py:165-175 | WARN with a channel and no failure sends one alert and then attaches the admin buttons to it; without a channel nothing happens; the original message is never replied to or deleted |
| QueueWorker.NoCallsWithoutAction | models/moderations_service_model.py:143-184 | a NONE verdict, a failed classifier request or a malformed response makes no call |
| QueueWorker.RotateOneMore | models/moderations_service_model.py:177-178 | rotating a queue left by k and then moving the head to the tail rotates it by k + 1 |
| QueueWorker.NotDueRunRotates | models/moderations_service_model.py:131-178 | while no item is due, up to one pass per queued item, rotate the queue by the number of passes and make no call |
| QueueWorker.DeferredItemProcessedOnceDue | models/moderations_service_model.py:131-178 | after one full revolution with nothing due the queue is as it began, and a pass once the head is due removes it |
| QueueWorker.Kept | models/moderations_service_model.py:139-178 | the items put back by the first k passes are at most k |
| QueueWorker.RunQueueShape | models/moderations_service_model.py:139-184 | whatever is due, after k passes (k at most the queue length) the queue is the untouched suffix followed by the items of the first k positions that were not due at their pass, in order |
| QueueWorker.KeptStartsWithHead | models/moderations_service_model.py:142-178 | a head not due at the first pass is the first item put back |
| QueueWorker.DeferredHeadReturns | models/moderations_service_model.py:139-184 | a head not due at the first pass is back at the front, unchanged, after one pass per queued item, whatever became of the other items, and the next pass once it is due removes it |
| QueueWorker.RunNeverAddsItems | models/moderations_service_model.py:131-184 | a run of passes never adds items: the final queue's multiset is contained in the initial one |
| QueueWorker.ModerationWorker.constructor | models/moderations_service_model.py:128-130 | the worker starts with the given queue, an empty call log and the given alert-channel setting |
| QueueWorker.ModerationWorker.Call | models/moderations_service_model.py:152-175 | a platform call completes and is logged unless it is the call that fails |
| QueueWorker.ModerationWorker.Step | models/moderations_service_model.py:131-184 | one pass updates the queue to `NextQueue` of the old queue and appends `Effects` to the log |
| QueueWorker.ModerationWorker.Run | models/moderations_service_model.py:131-184 | a bounded run of passes leaves the queue at `RunQueue` and appends `RunEffects` to the log |

## Left out

- The embed builders `build_moderation_embed`, `build_admin_warning_message` and `build_admin_moderated_message` (lines 59-109). They only format chat embeds, so a logged call records just the message it concerns.
- `ModerationAdminView`, `DeleteMessageButton` and `TimeoutUserButton` (lines 187-274). These are interactive button callbacks. A WARN pass logs only that the view was attached (`AlertEditView`).
- The classifier request `model.send_moderations_request` (line 143). It is a network call; its reply is a parameter of each pass.
- The module-level `UsageService` and `Model` instances (lines 12-13). They are process-wide service handles with no bearing on the decisions.
- `asyncio.sleep` with `EMPTY_WAIT_TIME` and `PROCESS_WAIT_TIME` (lines 135, 181). Sleeps are timing only and are no-ops in the model. `datetime.now()` (line 142) is clock I/O and becomes the `now` parameter.
- The endless `while True` loop. `Run` models any finite number of passes.
- Concurrency between the worker and the button callbacks is not modelled.
- Run, RunQueue: items the producer enqueues between passes or during one are not modelled. The run lemmas (`RunQueueShape`, `NotDueRunRotates`, `DeferredHeadReturns`, `RunNeverAddsItems`) describe a queue that only the worker touches. In the program, each pass is `NextQueue` followed by the arrivals appended at the tail.
- The printed traceback (line 183) is diagnostic output.
- The unused `text` parameters of `moderate` and `determine_moderation_result` are dropped.
- Floating-point rounding is not modelled: scores and thresholds are exact reals.
- A response shaped otherwise than a list of results, each with `category_scores` and `flagged`, is not modelled. A missing top-level key would raise and drop the item, like any other failure.
