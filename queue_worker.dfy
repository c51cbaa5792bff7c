/**
 * One iteration, and a bounded run of iterations, of the moderation queue
 * worker `Moderation.process_moderation_queue`
 * (models/moderations_service_model.py). The queue holds pending
 * moderations; the platform calls the worker makes are appended to a log.
 * The clock, the classifier's answer and platform failures are parameters.
 */
module QueueWorker {
  import opened Wrappers
  import opened Thresholds
  import opened Moderation

  /** A chat message. Only its id matters here: the classifier's reply to its content is a parameter of each pass. */
  datatype Message = Message(id: nat, content: string)

  /** A queued `Moderation`: the message and the time after which it is due. */
  datatype Pending = Pending(message: Message, timestamp: real)

  /** The classifier's answer for the head message, or the exception its request raised. */
  datatype ClassifierReply = Replied(response: Response) | ClassifierFailed

  /** The platform calls one iteration can make, each about the moderated message. */
  datatype PlatformCall =
    | Reply(message: Message)          // reply with the "message was moderated" notice
    | DeleteMessage(message: Message)  // delete the original message
    | AlertSend(message: Message)      // post an embed in the alert channel
    | AlertEditView(message: Message)  // attach the admin buttons to that alert

  /** Whether a platform call raises: none does, or the one with this index in the iteration does. */
  datatype PlatformFault = NoFault | FailsAt(index: nat)

  /** The inputs of one iteration: the current time, the classifier's reply and platform failures. */
  datatype Tick = Tick(now: real, reply: ClassifierReply, fault: PlatformFault)

  /** A pending moderation is processed only once the clock is strictly past its timestamp. */
  predicate Due(p: Pending, now: real)
  {
    now > p.timestamp
  }

  /** The queue after one iteration: unchanged if empty, the head dropped if due, else rotated to the tail. */
  function NextQueue(q: seq<Pending>, now: real): seq<Pending>
  {
    if q == [] then q
    else if Due(q[0], now) then q[1..]
    else q[1..] + [q[0]]
  }

  /** The calls a verdict leads to when none of them fails. */
  function PlannedCalls(v: ModerationResult, m: Message, alertChannel: bool): seq<PlatformCall>
  {
    match v
    case Delete => [Reply(m), DeleteMessage(m)] + (if alertChannel then [AlertSend(m)] else [])
    case Warn => if alertChannel then [AlertSend(m), AlertEditView(m)] else []
    case None => []
  }

  /** The calls that complete: those before the first one that raises. */
  function Completed(calls: seq<PlatformCall>, fault: PlatformFault): seq<PlatformCall>
  {
    match fault
    case NoFault => calls
    case FailsAt(k) => if k < |calls| then calls[..k] else calls
  }

  /**
   * The calls one iteration completes. Nothing happens on an empty queue, on
   * a head that is not due, when the classifier request or the verdict
   * raises, or on a warning with no alert channel (sending to the absent
   * channel raises before any call is made).
   */
  function Effects(q: seq<Pending>, tick: Tick, alertChannel: bool): seq<PlatformCall>
  {
    if q == [] || !Due(q[0], tick.now) then []
    else match tick.reply
      case ClassifierFailed => []
      case Replied(response) =>
        match DetermineModerationResult(response)
        case Err(_) => []
        case Ok(v) => Completed(PlannedCalls(v, q[0].message, alertChannel), tick.fault)
  }

  /** The queue after the iterations of `ticks`, in order. */
  function RunQueue(q: seq<Pending>, ticks: seq<Tick>): seq<Pending>
  {
    if ticks == [] then q
    else NextQueue(RunQueue(q, ticks[..|ticks| - 1]), ticks[|ticks| - 1].now)
  }

  /** The calls completed by the iterations of `ticks`, in order. */
  function RunEffects(q: seq<Pending>, ticks: seq<Tick>, alertChannel: bool): seq<PlatformCall>
  {
    if ticks == [] then []
    else
      var before := ticks[..|ticks| - 1];
      RunEffects(q, before, alertChannel) + Effects(RunQueue(q, before), ticks[|ticks| - 1], alertChannel)
  }

  // One iteration

  /** On an empty queue an iteration changes nothing and calls nothing. */
  lemma EmptyQueueIsIdle(tick: Tick, alertChannel: bool)
    ensures NextQueue([], tick.now) == []
    ensures Effects([], tick, alertChannel) == []
  {
  }

  /**
   * A head that is not yet due (including one whose timestamp equals the
   * current time) moves unchanged to the tail: the queue keeps its length and
   * its items, and no call is made.
   */
  lemma NotDueRotatesHead(q: seq<Pending>, tick: Tick, alertChannel: bool)
    requires q != [] && tick.now <= q[0].timestamp
    ensures NextQueue(q, tick.now) == q[1..] + [q[0]]
    ensures |NextQueue(q, tick.now)| == |q|
    ensures multiset(NextQueue(q, tick.now)) == multiset(q)
    ensures Effects(q, tick, alertChannel) == []
  {
    assert q == [q[0]] + q[1..];
  }

  /**
   * A due head leaves the queue whatever the verdict and whether or not the
   * iteration fails: the queue loses exactly that one item and keeps the
   * rest in order.
   */
  lemma DueHeadLeavesQueue(q: seq<Pending>, tick: Tick)
    requires q != [] && Due(q[0], tick.now)
    ensures NextQueue(q, tick.now) == q[1..]
    ensures |NextQueue(q, tick.now)| == |q| - 1
    ensures multiset(NextQueue(q, tick.now)) + multiset{q[0]} == multiset(q)
  {
    assert q == [q[0]] + q[1..];
  }

  /** The calls an iteration completes are a prefix of those its verdict plans, all about the head's message. */
  lemma EffectsArePlannedPrefix(q: seq<Pending>, tick: Tick, alertChannel: bool)
    ensures var e := Effects(q, tick, alertChannel);
      e != [] ==>
        q != [] && Due(q[0], tick.now) && tick.reply.Replied? &&
        DetermineModerationResult(tick.reply.response).Ok? &&
        var planned := PlannedCalls(DetermineModerationResult(tick.reply.response).value, q[0].message, alertChannel);
        |e| <= |planned| && e == planned[..|e|] &&
        forall c :: c in e ==> c.message == q[0].message
  {
  }

  /**
   * DELETE replies to the message, then deletes it, then, only when an alert
   * channel is configured, posts one alert; a failing call cuts the sequence
   * short, so a deletion is always preceded by the reply.
   */
  lemma DeleteVerdictCalls(q: seq<Pending>, tick: Tick, alertChannel: bool)
    requires q != [] && Due(q[0], tick.now) && tick.reply.Replied?
    requires DetermineModerationResult(tick.reply.response) == Ok(Delete)
    ensures var m := q[0].message;
      var e := Effects(q, tick, alertChannel);
      (tick.fault == NoFault ==>
        e == [Reply(m), DeleteMessage(m)] + (if alertChannel then [AlertSend(m)] else [])) &&
      (DeleteMessage(m) in e ==> e[0] == Reply(m) && e[1] == DeleteMessage(m)) &&
      (AlertSend(m) in e ==> alertChannel && e == [Reply(m), DeleteMessage(m), AlertSend(m)]) &&
      (forall c :: c in e ==> !c.AlertEditView?)
  {
    var m := q[0].message;
    var e := Effects(q, tick, alertChannel);
    var planned := PlannedCalls(Delete, m, alertChannel);
    assert e == Completed(planned, tick.fault);
    if DeleteMessage(m) in e {
      assert |e| >= 2;
    }
    if AlertSend(m) in e {
      assert |e| == 3;
    }
  }

  /**
   * WARN never touches the original message: with an alert channel it posts
   * one alert and then attaches the admin buttons to it; without one the
   * send raises and nothing happens.
   */
  lemma WarnVerdictCalls(q: seq<Pending>, tick: Tick, alertChannel: bool)
    requires q != [] && Due(q[0], tick.now) && tick.reply.Replied?
    requires DetermineModerationResult(tick.reply.response) == Ok(Warn)
    ensures var m := q[0].message;
      var e := Effects(q, tick, alertChannel);
      (tick.fault == NoFault && alertChannel ==> e == [AlertSend(m), AlertEditView(m)]) &&
      (!alertChannel ==> e == []) &&
      (forall c :: c in e ==> !c.DeleteMessage? && !c.Reply?) &&
      (AlertEditView(m) in e ==> e == [AlertSend(m), AlertEditView(m)])
  {
    var m := q[0].message;
    var e := Effects(q, tick, alertChannel);
    if AlertEditView(m) in e {
      assert |e| == 2;
    }
  }

  /** NONE, a failed classifier request and a malformed response all make no call. */
  lemma NoCallsWithoutAction(q: seq<Pending>, tick: Tick, alertChannel: bool)
    requires q != [] && Due(q[0], tick.now)
    requires tick.reply.ClassifierFailed? ||
             (DetermineModerationResult(tick.reply.response) != Ok(Delete) &&
              DetermineModerationResult(tick.reply.response) != Ok(Warn))
    ensures Effects(q, tick, alertChannel) == []
  {
  }

  // Bounded runs

  /** No item of `q` is due at time `now`. */
  predicate NoneDueAt(q: seq<Pending>, now: real)
  {
    forall j :: 0 <= j < |q| ==> !Due(q[j], now)
  }

  /** No item of `q` is due at any tick of `ticks`. */
  predicate NoneDue(q: seq<Pending>, ticks: seq<Tick>)
  {
    forall i :: 0 <= i < |ticks| ==> NoneDueAt(q, ticks[i].now)
  }

  /** Rotating left by k - 1 and then moving the head to the tail rotates left by k. */
  lemma RotateOneMore(q: seq<Pending>, k: nat)
    requires 0 < k <= |q|
    ensures var r := q[k - 1..] + q[..k - 1];
      r != [] && r[0] == q[k - 1] && r[1..] + [r[0]] == q[k..] + q[..k]
  {
    var r := q[k - 1..] + q[..k - 1];
    assert r[1..] == q[k..] + q[..k - 1];
    assert q[..k] == q[..k - 1] + [q[k - 1]];
  }

  /**
   * While nothing is due, each iteration moves the head to the tail: after
   * k iterations the queue is rotated by k, and no call has been made.
   */
  lemma {:induction false} NotDueRunRotates(q: seq<Pending>, ticks: seq<Tick>, alertChannel: bool)
    requires |ticks| <= |q| && NoneDue(q, ticks)
    ensures RunQueue(q, ticks) == q[|ticks|..] + q[..|ticks|]
    ensures RunEffects(q, ticks, alertChannel) == []
  {
    if ticks != [] {
      var k := |ticks|;
      var before := ticks[..k - 1];
      var last := ticks[k - 1];
      assert NoneDue(q, before) by {
        forall i | 0 <= i < |before| ensures NoneDueAt(q, before[i].now) {
          assert before[i] == ticks[i];
        }
      }
      NotDueRunRotates(q, before, alertChannel);
      var r := RunQueue(q, before);
      RotateOneMore(q, k);
      assert NoneDueAt(q, last.now);
      assert !Due(q[k - 1], last.now);
      assert Effects(r, last, alertChannel) == [];
      assert NextQueue(r, last.now) == r[1..] + [r[0]];
    }
  }

  /**
   * A deferred item comes back: after one full revolution with nothing due,
   * the queue is as it started, and once the head's time has passed the next
   * iteration removes it.
   */
  lemma DeferredItemProcessedOnceDue(q: seq<Pending>, ticks: seq<Tick>, tick: Tick, alertChannel: bool)
    requires q != [] && |ticks| == |q| && NoneDue(q, ticks)
    requires Due(q[0], tick.now)
    ensures RunQueue(q, ticks) == q
    ensures RunQueue(q, ticks + [tick]) == q[1..]
    ensures RunEffects(q, ticks, alertChannel) == []
  {
    NotDueRunRotates(q, ticks, alertChannel);
    assert q[|ticks|..] + q[..|ticks|] == q;
    assert (ticks + [tick])[..|ticks|] == ticks;
  }

  /** The items of `q[..|ticks|]` that were not due at their own pass, in order: the ones put back at the tail. */
  function Kept(q: seq<Pending>, ticks: seq<Tick>): (r: seq<Pending>)
    requires |ticks| <= |q|
    ensures |r| <= |ticks|
  {
    if ticks == [] then []
    else
      var k := |ticks|;
      Kept(q, ticks[..k - 1]) + (if Due(q[k - 1], ticks[k - 1].now) then [] else [q[k - 1]])
  }

  /**
   * Whatever is due, pass i deals with the item originally at position i:
   * after k passes (k at most |q|) the untouched items come first, followed
   * by the ones that were put back, in their original order.
   */
  lemma {:induction false} RunQueueShape(q: seq<Pending>, ticks: seq<Tick>)
    requires |ticks| <= |q|
    ensures RunQueue(q, ticks) == q[|ticks|..] + Kept(q, ticks)
  {
    if ticks != [] {
      var k := |ticks|;
      var before := ticks[..k - 1];
      RunQueueShape(q, before);
      var r := RunQueue(q, before);
      assert r[0] == q[k - 1];
      assert r[1..] == q[k..] + Kept(q, before);
    }
  }

  /** When the first pass finds the head not due, that item heads what the passes put back. */
  lemma {:induction false} KeptStartsWithHead(q: seq<Pending>, ticks: seq<Tick>)
    requires 1 <= |ticks| <= |q| && !Due(q[0], ticks[0].now)
    ensures |Kept(q, ticks)| >= 1 && Kept(q, ticks)[0] == q[0]
  {
    if |ticks| > 1 {
      var before := ticks[..|ticks| - 1];
      assert before[0] == ticks[0];
      KeptStartsWithHead(q, before);
    }
  }

  /**
   * A deferred head comes back: after one pass per queued item, whatever
   * became of the others, it is at the front again, unchanged; and a pass
   * once it is due removes it.
   */
  lemma DeferredHeadReturns(q: seq<Pending>, ticks: seq<Tick>, tick: Tick)
    requires q != [] && |ticks| == |q| && !Due(q[0], ticks[0].now)
    ensures RunQueue(q, ticks) != [] && RunQueue(q, ticks)[0] == q[0]
    ensures Due(q[0], tick.now) ==> RunQueue(q, ticks + [tick]) == RunQueue(q, ticks)[1..]
  {
    RunQueueShape(q, ticks);
    KeptStartsWithHead(q, ticks);
    assert q[|ticks|..] == [];
    assert (ticks + [tick])[..|ticks|] == ticks;
  }

  /** A run never adds items to the queue; it only rotates and removes them. */
  lemma {:induction false} RunNeverAddsItems(q: seq<Pending>, ticks: seq<Tick>)
    ensures multiset(RunQueue(q, ticks)) <= multiset(q)
    ensures |RunQueue(q, ticks)| <= |q|
  {
    if ticks != [] {
      var before := ticks[..|ticks| - 1];
      var r := RunQueue(q, before);
      RunNeverAddsItems(q, before);
      if r != [] {
        if Due(r[0], ticks[|ticks| - 1].now) {
          DueHeadLeavesQueue(r, ticks[|ticks| - 1]);
        } else {
          NotDueRotatesHead(r, ticks[|ticks| - 1], false);
        }
      }
    }
  }

  /** The worker: the queue it drains, the calls it has made, and whether an alert channel is configured. */
  class ModerationWorker {
    var queue: seq<Pending>
    var log: seq<PlatformCall>
    const alertChannel: bool

    constructor (queue: seq<Pending>, alertChannel: bool)
      ensures this.queue == queue && log == [] && this.alertChannel == alertChannel
    {
      this.queue := queue;
      this.log := [];
      this.alertChannel := alertChannel;
    }

    /** Makes platform call number `index` of this iteration; it completes unless it is the one that fails. */
    method Call(call: PlatformCall, index: nat, fault: PlatformFault) returns (ok: bool)
      modifies this`log
      ensures ok <==> fault != FailsAt(index)
      ensures log == old(log) + (if ok then [call] else [])
    {
      ok := fault != FailsAt(index);
      if ok {
        log := log + [call];
      }
    }

    /**
     * One pass of the worker loop. A failure anywhere in a due item's
     * processing ends the pass with the item already taken off the queue.
     */
    method Step(tick: Tick)
      modifies this`queue, this`log
      ensures queue == NextQueue(old(queue), tick.now)
      ensures log == old(log) + Effects(old(queue), tick, alertChannel)
    {
      if |queue| == 0 {
        return;
      }
      var toModerate := queue[0];
      queue := queue[1..];
      if tick.now > toModerate.timestamp {
        if tick.reply.ClassifierFailed? {
          return;
        }
        var result := DetermineModerationResult(tick.reply.response);
        if result.Err? {
          return;
        }
        var m := toModerate.message;
        if result.value == Delete {
          var ok := Call(Reply(m), 0, tick.fault);
          if ok {
            ok := Call(DeleteMessage(m), 1, tick.fault);
          }
          if ok && alertChannel {
            ok := Call(AlertSend(m), 2, tick.fault);
          }
        } else if result.value == Warn {
          if alertChannel {
            var ok := Call(AlertSend(m), 0, tick.fault);
            if ok {
              ok := Call(AlertEditView(m), 1, tick.fault);
            }
          }
        }
      } else {
        queue := queue + [toModerate];
      }
    }

    /** A bounded stretch of the worker's endless loop: one pass per tick. */
    method Run(ticks: seq<Tick>)
      modifies this`queue, this`log
      ensures queue == RunQueue(old(queue), ticks)
      ensures log == old(log) + RunEffects(old(queue), ticks, alertChannel)
    {
      var i := 0;
      while i < |ticks|
        invariant 0 <= i <= |ticks|
        invariant queue == RunQueue(old(queue), ticks[..i])
        invariant log == old(log) + RunEffects(old(queue), ticks[..i], alertChannel)
      {
        assert ticks[..i + 1][..i] == ticks[..i];
        Step(ticks[i]);
        i := i + 1;
      }
      assert ticks[..i] == ticks;
    }
  }
}
