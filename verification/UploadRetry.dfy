/** What a cancelled run still does, and what every later retry does after a failure. */
module UploadRetry {
  import opened Options
  import opened UploadModel
  import opened UploadRuns
  import opened UploadSafety
  import opened UploadSerial

  // ---------- a run that is cancelled before its intent arrives ----------

  /** The aborted controller is held at most by a run that still waits for its intent. */
  ghost predicate NeverTransfers(w: World, controller: nat) {
    && controller < |w.zone.aborted| && w.zone.aborted[controller]
    && forall r <- w.runs :: Holding(w.runs[r]) && w.runs[r].controller == controller ==> w.runs[r].AwaitIntent?
  }

  lemma {:induction false} StartEachNeverTransfers(w: World, first: nat, files: seq<File>, c: nat)
    requires NeverTransfers(w, c)
    ensures NeverTransfers(StartEach(w, first, files), c)
    decreases |files|
  {
    if files != [] {
      StartEachNeverTransfers(if files[0].supported then StartIntentRun(w, first) else w, first + 1, files[1..], c);
    }
  }

  lemma TakeIntentNeverTransfers(w: World, r: nat, intent: Intent, unexpired: bool, key: string, c: nat)
    requires Linked(w) && NeverTransfers(w, c) && r in w.runs && w.runs[r].AwaitIntent?
    ensures NeverTransfers(TakeIntent(w, r, intent, unexpired, key), c)
  {
    TakeIntentKeepsAborts(w, r, intent, unexpired, key);
  }

  lemma EndTransferNeverTransfers(w: World, r: nat, c: nat)
    requires Linked(w) && NeverTransfers(w, c) && r in w.runs && w.runs[r].AwaitTransfer?
    ensures NeverTransfers(EndTransfer(w, r), c)
  {
    EndTransferKeepsAborts(w, r);
  }

  lemma FailTransferNeverTransfers(w: World, r: nat, failure: Failure, c: nat)
    requires Linked(w) && NeverTransfers(w, c) && r in w.runs && w.runs[r].AwaitTransfer?
    ensures NeverTransfers(FailTransfer(w, r, failure), c)
  {
    FailTransferKeepsAborts(w, r, failure);
  }

  lemma EndCompletionNeverTransfers(w: World, r: nat, reply: Reply, c: nat)
    requires Linked(w) && NeverTransfers(w, c) && r in w.runs && w.runs[r].AwaitCompletion?
    ensures NeverTransfers(EndCompletion(w, r, reply), c)
  {
    EndCompletionKeepsAborts(w, r, reply);
  }

  lemma RetryNeverTransfers(w: World, id: nat, unexpired: bool, c: nat)
    requires Linked(w) && NeverTransfers(w, c)
    ensures NeverTransfers(RetryItem(w, id, unexpired), c)
  {
    RetryKeepsAborts(w, id, unexpired);
  }

  lemma StepNeverTransfers(w: World, e: Event, c: nat)
    requires NeverTransfers(w, c)
    ensures NeverTransfers(Step(w, e), c)
  {
    if Enabled(w, e) {
      match e {
        case SelectFiles(files) => StartEachNeverTransfers(AppendFiles(w, files), |w.zone.items|, files, c);
        case IntentArrives(r, intent, unexpired, key) => TakeIntentNeverTransfers(w, r, intent, unexpired, key, c);
        case TransferSucceeds(r) => EndTransferNeverTransfers(w, r, c);
        case TransferFails(r, failure) => FailTransferNeverTransfers(w, r, failure, c);
        case CompletionReplies(r, reply) => EndCompletionNeverTransfers(w, r, reply, c);
        case Retry(id, unexpired) => RetryNeverTransfers(w, id, unexpired, c);
        case IntentRejected(_, _) =>
        case TransferProgress(_, _) =>
        case ResumeUrlArrives(_, _) =>
        case Unwind(_) =>
        case Cancel(_) =>
        case ServerCompletes(_, _) =>
      }
    }
  }

  lemma {:induction false} ExecNeverTransfers(w: World, events: seq<Event>, c: nat)
    requires NeverTransfers(w, c)
    ensures NeverTransfers(Exec(w, events), c)
    decreases |events|
  {
    if events != [] {
      StepNeverTransfers(w, events[0], c);
      ExecNeverTransfers(Step(w, events[0]), events[1..], c);
    }
  }

  /** A run that waits for its intent when its item is cancelled never transfers a byte, whenever the
      intent arrives and whatever else happens, provided that it is the item's newest run. */
  lemma CancelledBeforeIntent(w: World, id: nat, r: nat, after: seq<Event>)
    requires Reachable(w) && Enabled(w, Cancel(id))
    requires r in w.runs && w.runs[r].AwaitIntent? && w.runs[r].id == id && id in w.newest
    requires w.newest[id] == w.runs[r].controller
    ensures var v := Exec(Step(w, Cancel(id)), after);
            forall q <- v.runs :: v.runs[q].AwaitTransfer? ==> v.runs[q].controller != w.runs[r].controller
  {
    var c := w.runs[r].controller;
    assert Carries(w.runs[r], id, c);
    ControllersTrackNewestRun(w, id);
    ReachableInv(w);
    assert NeverTransfers(Step(w, Cancel(id)), c);
    ExecNeverTransfers(Step(w, Cancel(id)), after, c);
  }

  // ---------- log and issued intents only grow ----------

  ghost predicate Grows(w: World, v: World) {
    w.log <= v.log && forall i <- w.issued :: i in v.issued && v.issued[i] == w.issued[i]
  }

  lemma {:induction false} StartEachGrows(w: World, first: nat, files: seq<File>)
    ensures var v := StartEach(w, first, files); v.log == w.log && v.issued == w.issued
    decreases |files|
  {
    if files != [] {
      StartEachGrows(if files[0].supported then StartIntentRun(w, first) else w, first + 1, files[1..]);
    }
  }

  lemma StepGrows(w: World, e: Event)
    ensures Grows(w, Step(w, e))
  {
    if Enabled(w, e) {
      match e {
        case SelectFiles(files) => StartEachGrows(AppendFiles(w, files), |w.zone.items|, files);
        case _ =>
      }
    }
  }

  /** The intents of which a step starts a transfer are new ones, or those of the retried session. */
  lemma StartedByStep(w: World, e: Event, k: nat)
    requires |w.log| <= k < |Step(w, e).log| && Step(w, e).log[k].TransferStarted?
    ensures Enabled(w, e)
    ensures var i := Step(w, e).log[k].intentId;
            || (e.IntentArrives? && i == e.intent.intentId)
            || (e.Retry? && PlanRetry(w.zone, e.id, e.unexpired).ResumeTransfer?
                && i == w.zone.heap[w.zone.sessions[e.id]].intent.intentId)
  {
    match e {
      case SelectFiles(files) => StartEachGrows(AppendFiles(w, files), |w.zone.items|, files);
      case TransferSucceeds(r) => StartedByEnd(w, r, k);
      case _ =>
    }
  }

  lemma StartedByEnd(w: World, r: nat, k: nat)
    requires Enabled(w, TransferSucceeds(r)) && |w.log| <= k < |EndTransfer(w, r).log|
    ensures !EndTransfer(w, r).log[k].TransferStarted?
  {
  }

  // ---------- after a completion call ----------

  /** The transfers that started between the two worlds are of other items. */
  ghost predicate NoneStartsFor(w: World, v: World, id: nat) {
    && Grows(w, v)
    && forall k :: |w.log| <= k < |v.log| && v.log[k].TransferStarted?
         ==> v.log[k].intentId in v.issued && v.issued[v.log[k].intentId] != id
  }

  lemma NoneStartsForTwice(a: World, b: World, c: World, id: nat)
    requires NoneStartsFor(a, b, id) && NoneStartsFor(b, c, id)
    ensures NoneStartsFor(a, c, id)
  {
    forall k | |a.log| <= k < |c.log| && c.log[k].TransferStarted?
      ensures c.log[k].intentId in c.issued && c.issued[c.log[k].intentId] != id
    {
      if k < |b.log| { assert c.log[k] == b.log[k]; }
    }
  }

  lemma StepStartsNone(w: World, e: Event, id: nat, call: Call)
    requires Inv(w) && AllSerial(w) && call in w.log && CallFor(w, call, id)
    ensures NoneStartsFor(w, Step(w, e), id)
  {
    var v := Step(w, e);
    StepGrows(w, e);
    forall k | |w.log| <= k < |v.log| && v.log[k].TransferStarted?
      ensures v.log[k].intentId in v.issued && v.issued[v.log[k].intentId] != id
    {
      StartedByStep(w, e, k);
      if e.IntentArrives? {
        NoCallYet(w, e.run);
        IssuedOnArrival(w, e);
      } else {
        assert ItemSerial(w, e.id) && SessionOf(w, w.zone.sessions[e.id], e.id);
        NothingCalled(w, e.id, e.unexpired);
      }
    }
  }

  lemma IssuedOnArrival(w: World, e: Event)
    requires Enabled(w, e) && e.IntentArrives?
    ensures var v := Step(w, e); e.intent.intentId in v.issued && v.issued[e.intent.intentId] == w.runs[e.run].id
  {
  }

  lemma {:induction false} ExecStartsNone(w: World, events: seq<Event>, id: nat, call: Call)
    requires Inv(w) && AllSerial(w) && Serial(w, events) && call in w.log && CallFor(w, call, id)
    ensures var v := Exec(w, events); Inv(v) && AllSerial(v) && NoneStartsFor(w, v, id)
    decreases |events|
  {
    if events != [] {
      var next := Step(w, events[0]);
      StepStartsNone(w, events[0], id, call);
      StepKeepsInv(w, events[0]);
      StepSerial(w, events[0]);
      ExecStartsNone(next, events[1..], id, call);
      NoneStartsForTwice(w, next, Exec(w, events), id);
    }
  }

  /** A retry of an item for which completion was called only calls again, with that intent and key. */
  lemma RetryCallsAgain(w: World, id: nat, unexpired: bool, call: Call)
    requires Inv(w) && AllSerial(w) && Enabled(w, Retry(id, unexpired)) && call in w.log && CallFor(w, call, id)
    ensures PlanRetry(w.zone, id, unexpired) == CompleteAgain
    ensures Step(w, Retry(id, unexpired)).log == w.log + [CompletionCalled(call.intentId, call.key, FromRetry)]
  {
    assert ItemSerial(w, id) && AwaitsAnswer(w, id, call.intentId);
    var s :| BackedBy(w, call, s);
    assert s == w.zone.sessions[id];
  }

  /** In every run in which retries wait: once completion was called for an item, no transfer of that
      item ever starts again, and every later retry of it completes again with the same intent and key. */
  lemma CompletionIsNeverRestarted(before: seq<Event>, after: seq<Event>, id: nat, call: Call, unexpired: bool)
    requires Serial(Init(), before) && call in Exec(Init(), before).log && CallFor(Exec(Init(), before), call, id)
    requires Serial(Exec(Init(), before), after)
    ensures var w := Exec(Init(), before);
            var v := Exec(w, after);
            && NoneStartsFor(w, v, id)
            && (Enabled(v, Retry(id, unexpired)) ==>
                  && PlanRetry(v.zone, id, unexpired) == CompleteAgain
                  && Step(v, Retry(id, unexpired)).log
                     == v.log + [CompletionCalled(call.intentId, call.key, FromRetry)])
  {
    InitInv();
    ExecSerial(Init(), before);
    var w := Exec(Init(), before);
    ExecStartsNone(w, after, id, call);
    var v := Exec(w, after);
    if Enabled(v, Retry(id, unexpired)) { RetryCallsAgain(v, id, unexpired, call); }
  }

  // ---------- after a failure that kills the session ----------

  /** The session is no item's any more. */
  ghost predicate Unlisted(w: World, s: nat) {
    s < |w.zone.heap| && forall k <- w.zone.sessions :: w.zone.sessions[k] != s
  }

  lemma {:induction false} StartEachUnlisted(w: World, first: nat, files: seq<File>, s: nat)
    requires Unlisted(w, s)
    ensures var v := StartEach(w, first, files); Unlisted(v, s) && v.zone.heap == w.zone.heap
    decreases |files|
  {
    if files != [] {
      StartEachUnlisted(if files[0].supported then StartIntentRun(w, first) else w, first + 1, files[1..], s);
    }
  }

  lemma FailureKeepsHeap(z: Zone, id: nat, failure: Failure, controller: nat)
    requires controller < |z.aborted|
    ensures var v := DeleteController(HandleFailure(z, id, failure, controller), id, controller);
            v.sessions == z.sessions && v.heap == z.heap
  {
  }

  lemma FailTransferUnlisted(w: World, r: nat, failure: Failure, s: nat)
    requires Linked(w) && r in w.runs && w.runs[r].AwaitTransfer? && Unlisted(w, s)
    ensures var v := FailTransfer(w, r, failure); Unlisted(v, s) && v.zone.heap == w.zone.heap
  {
    var AwaitTransfer(id, _, c, _) := w.runs[r];
    FailureKeepsHeap(w.zone, id, failure, c);
    FailureKeepsHeap(w.zone.(sessions := w.zone.sessions - {id}), id, failure, c);
  }

  lemma EndTransferUnlisted(w: World, r: nat, s: nat)
    requires Linked(w) && r in w.runs && w.runs[r].AwaitTransfer? && Unlisted(w, s)
    ensures var v := EndTransfer(w, r); Unlisted(v, s) && v.zone.heap[s].intent == w.zone.heap[s].intent
  {
    var call := TransferFinished(w.zone.heap[w.runs[r].session].intent.intentId, w.runs[r].controller);
    FailTransferUnlisted(w.(log := w.log + [call]), r, AbortError, s);
  }

  lemma TakeIntentUnlisted(w: World, r: nat, intent: Intent, unexpired: bool, key: string, s: nat)
    requires Linked(w) && r in w.runs && w.runs[r].AwaitIntent? && Unlisted(w, s)
    ensures var v := TakeIntent(w, r, intent, unexpired, key); Unlisted(v, s) && v.zone.heap[s] == w.zone.heap[s]
  {
    FailureKeepsHeap(w.zone, w.runs[r].id, if unexpired then AbortError else ExpiredUpload, w.runs[r].controller);
  }

  lemma EndCompletionUnlisted(w: World, r: nat, reply: Reply, s: nat)
    requires Linked(w) && r in w.runs && w.runs[r].AwaitCompletion? && Unlisted(w, s)
    ensures var v := EndCompletion(w, r, reply); Unlisted(v, s) && v.zone.heap == w.zone.heap
  {
    match reply { case ReplyDuplicate(_) => case ReplyRegistered(_, _) => case ReplyInvalid => case ReplyError(_) => }
  }

  lemma StepUnlisted(w: World, e: Event, s: nat)
    requires Unlisted(w, s)
    ensures Unlisted(Step(w, e), s) && Step(w, e).zone.heap[s].intent == w.zone.heap[s].intent
  {
    if Enabled(w, e) {
      match e {
        case SelectFiles(files) => StartEachUnlisted(AppendFiles(w, files), |w.zone.items|, files, s);
        case IntentArrives(r, intent, unexpired, key) => TakeIntentUnlisted(w, r, intent, unexpired, key, s);
        case IntentRejected(r, failure) => FailureKeepsHeap(w.zone, w.runs[r].id, failure, w.runs[r].controller);
        case TransferSucceeds(r) => EndTransferUnlisted(w, r, s);
        case TransferFails(r, failure) => FailTransferUnlisted(w, r, failure, s);
        case CompletionReplies(r, reply) => EndCompletionUnlisted(w, r, reply, s);
        case TransferProgress(_, _) =>
        case ResumeUrlArrives(_, _) =>
        case Unwind(_) =>
        case Cancel(_) =>
        case Retry(_, _) =>
        case ServerCompletes(_, _) =>
      }
    }
  }

  /** No transfer of the intent started between the two worlds. */
  ghost predicate NoneStartsOf(w: World, v: World, intentId: nat) {
    && w.log <= v.log
    && forall k :: |w.log| <= k < |v.log| && v.log[k].TransferStarted? ==> v.log[k].intentId != intentId
  }

  lemma StepStartsOther(w: World, e: Event, s: nat)
    requires Inv(w) && Unlisted(w, s)
    ensures NoneStartsOf(w, Step(w, e), w.zone.heap[s].intent.intentId)
  {
    var v := Step(w, e);
    StepGrows(w, e);
    forall k | |w.log| <= k < |v.log| && v.log[k].TransferStarted?
      ensures v.log[k].intentId != w.zone.heap[s].intent.intentId
    {
      StartedByStep(w, e, k);
    }
  }

  lemma {:induction false} ExecStartsOther(w: World, events: seq<Event>, s: nat)
    requires Inv(w) && Unlisted(w, s)
    ensures Unlisted(Exec(w, events), s) && NoneStartsOf(w, Exec(w, events), w.zone.heap[s].intent.intentId)
    decreases |events|
  {
    if events != [] {
      var next := Step(w, events[0]);
      StepStartsOther(w, events[0], s);
      StepUnlisted(w, events[0], s);
      StepKeepsInv(w, events[0]);
      ExecStartsOther(next, events[1..], s);
      StartsOtherTwice(w, next, Exec(w, events), w.zone.heap[s].intent.intentId);
    }
  }

  lemma StartsOtherTwice(a: World, b: World, c: World, i: nat)
    requires NoneStartsOf(a, b, i) && NoneStartsOf(b, c, i)
    ensures NoneStartsOf(a, c, i)
  {
    forall k | |a.log| <= k < |c.log| && c.log[k].TransferStarted? ensures c.log[k].intentId != i {
      if k < |b.log| { assert c.log[k] == b.log[k]; }
    }
  }

  predicate Kills(w: World, r: nat, failure: Failure)
    requires Linked(w) && r in w.runs && w.runs[r].AwaitTransfer?
  {
    w.zone.heap[w.runs[r].session].intent.mode.Resumable? && IsTerminalSessionError(failure)
  }

  lemma KilledIsUnlisted(w: World, r: nat, failure: Failure)
    requires Base(w) && r in w.runs && w.runs[r].AwaitTransfer? && Kills(w, r, failure)
    ensures Unlisted(FailTransfer(w, r, failure), w.runs[r].session)
    ensures FailTransfer(w, r, failure).zone.heap == w.zone.heap && FailTransfer(w, r, failure).log == w.log
  {
    var AwaitTransfer(id, s, c, _) := w.runs[r];
    FailureKeepsHeap(w.zone.(sessions := w.zone.sessions - {id}), id, failure, c);
    assert SessionOf(w, s, id);
  }

  /** Under every interleaving: once an error has killed a resumable session, no transfer of its intent
      is ever started again. */
  lemma DeadSessionIsNeverResumed(w: World, r: nat, failure: Failure, after: seq<Event>)
    requires Reachable(w) && Enabled(w, TransferFails(r, failure)) && Kills(w, r, failure)
    ensures var dead := w.zone.heap[w.runs[r].session].intent.intentId;
            NoneStartsOf(w, Exec(Step(w, TransferFails(r, failure)), after), dead)
  {
    var v := Step(w, TransferFails(r, failure));
    ReachableInv(w);
    StepKeepsInv(w, TransferFails(r, failure));
    KilledIsUnlisted(w, r, failure);
    assert v.log == w.log && v.zone.heap == w.zone.heap;
    ExecStartsOther(v, after, w.runs[r].session);
  }
}
