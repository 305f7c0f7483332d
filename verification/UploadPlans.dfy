/** Between its retries an idle item keeps what its next retry will do; so the plan of a retry is fixed
    by the failure that ended the run before it, whatever else goes on meanwhile. */
module UploadPlans {
  import opened Options
  import opened UploadModel
  import opened UploadRuns
  import opened UploadSafety
  import opened UploadSerial
  import opened UploadRetry

  /** The item's session, if any, is the same and unchanged. */
  ghost predicate PlanKept(w: World, v: World, id: nat) {
    && (id in v.zone.sessions <==> id in w.zone.sessions)
    && (id in w.zone.sessions ==>
          && v.zone.sessions[id] == w.zone.sessions[id] < |w.zone.heap| <= |v.zone.heap|
          && v.zone.heap[w.zone.sessions[id]] == w.zone.heap[w.zone.sessions[id]])
  }

  /** Nobody works for the item; its plan is what it was, and unless it can be cancelled so is the item. */
  ghost predicate Rests(w: World, v: World, id: nat) {
    && id < |w.zone.items| <= |v.zone.items| && Idle(v, id) && PlanKept(w, v, id)
    && (!Cancellable(w.zone.items[id]) ==> v.zone.items[id] == w.zone.items[id])
  }

  lemma {:induction false} StartEachRests(w: World, first: nat, files: seq<File>, id: nat)
    requires Linked(w) && id < |w.zone.items| && id < first && first + |files| <= |w.zone.items| && Idle(w, id)
    requires forall k :: 0 <= k < |w.zone.items| ==> w.zone.items[k].id == k
    ensures Rests(w, StartEach(w, first, files), id)
    decreases |files|
  {
    if files != [] {
      var next := if files[0].supported then StartIntentRun(w, first) else w;
      StartEachRests(next, first + 1, files[1..], id);
    }
  }

  lemma TakeIntentRests(w: World, r: nat, intent: Intent, unexpired: bool, key: string, id: nat)
    requires Base(w) && id < |w.zone.items| && Idle(w, id) && r in w.runs && w.runs[r].AwaitIntent?
    ensures Rests(w, TakeIntent(w, r, intent, unexpired, key), id)
  {
    assert w.runs[r].id != id;
    FailureKeepsHeap(w.zone, w.runs[r].id, if unexpired then AbortError else ExpiredUpload, w.runs[r].controller);
  }

  lemma FailTransferRests(w: World, r: nat, failure: Failure, id: nat)
    requires Base(w) && id < |w.zone.items| && Idle(w, id) && r in w.runs && w.runs[r].AwaitTransfer?
    ensures Rests(w, FailTransfer(w, r, failure), id)
  {
    assert w.runs[r].id != id;
    FailTransferCloses(w, r, failure);
  }

  lemma CompleteTransferRests(w: World, r: nat, id: nat)
    requires Base(w) && id < |w.zone.items| && Idle(w, id) && r in w.runs && w.runs[r].AwaitTransfer?
    requires !w.zone.aborted[w.runs[r].controller]
    ensures Rests(w, EndTransfer(w, r), id)
  {
    var AwaitTransfer(k, s, c, _) := w.runs[r];
    assert k != id && SessionOf(w, s, k);
    TransferCompletedShape(w.zone, k, s, c);
  }

  lemma EndTransferRests(w: World, r: nat, id: nat)
    requires Base(w) && id < |w.zone.items| && Idle(w, id) && r in w.runs && w.runs[r].AwaitTransfer?
    ensures Rests(w, EndTransfer(w, r), id)
  {
    var AwaitTransfer(k, s, c, _) := w.runs[r];
    if w.zone.aborted[c] {
      FailTransferRests(w.(log := w.log + [TransferFinished(w.zone.heap[s].intent.intentId, c)]), r, AbortError, id);
    } else {
      CompleteTransferRests(w, r, id);
    }
  }

  lemma EndCompletionRests(w: World, r: nat, reply: Reply, id: nat)
    requires Base(w) && id < |w.zone.items| && Idle(w, id) && r in w.runs && w.runs[r].AwaitCompletion?
    ensures Rests(w, EndCompletion(w, r, reply), id)
  {
    assert w.runs[r].id != id;
    CompletionEndedShape(w.zone, w.runs[r].id, reply);
    SessionsAfterReply(w.zone, w.runs[r].id, reply);
  }

  lemma SessionsAfterReply(z: Zone, id: nat, reply: Reply)
    ensures var v := CompletionEnded(z, id, reply);
            v.heap == z.heap && (v.sessions == z.sessions || v.sessions == z.sessions - {id}) && |v.items| == |z.items|
  {
    match reply { case ReplyDuplicate(_) => case ReplyRegistered(_, _) => case ReplyInvalid => case ReplyError(_) => }
  }

  lemma RetryRests(w: World, k: nat, unexpired: bool, id: nat)
    requires Base(w) && id < |w.zone.items| && Idle(w, id) && k != id
    ensures Rests(w, RetryItem(w, k, unexpired), id)
  {
  }

  lemma StepRests(w: World, e: Event, id: nat)
    requires Base(w) && id < |w.zone.items| && Idle(w, id) && !Retries(e, id)
    ensures Rests(w, Step(w, e), id)
  {
    if Enabled(w, e) {
      match e {
        case SelectFiles(files) => StartEachRests(AppendFiles(w, files), |w.zone.items|, files, id);
        case IntentArrives(r, intent, unexpired, key) => TakeIntentRests(w, r, intent, unexpired, key, id);
        case IntentRejected(r, failure) => IntentRejectedRests(w, r, failure, id);
        case TransferSucceeds(r) => EndTransferRests(w, r, id);
        case TransferFails(r, failure) => FailTransferRests(w, r, failure, id);
        case CompletionReplies(r, reply) => EndCompletionRests(w, r, reply, id);
        case Retry(k, unexpired) => RetryRests(w, k, unexpired, id);
        case ResumeUrlArrives(r, url) => ResumeUrlRests(w, r, url, id);
        case TransferProgress(_, _) =>
        case Unwind(_) =>
        case Cancel(_) =>
        case ServerCompletes(_, _) =>
      }
    }
  }

  lemma IntentRejectedRests(w: World, r: nat, failure: Failure, id: nat)
    requires Base(w) && id < |w.zone.items| && Idle(w, id) && r in w.runs && w.runs[r].AwaitIntent?
    ensures Rests(w, Apply(w, IntentRejected(r, failure)), id)
  {
    FailureKeepsHeap(w.zone, w.runs[r].id, failure, w.runs[r].controller);
  }

  lemma ResumeUrlRests(w: World, r: nat, url: string, id: nat)
    requires Base(w) && id < |w.zone.items| && Idle(w, id) && r in w.runs && w.runs[r].AwaitTransfer?
    ensures Rests(w, Apply(w, ResumeUrlArrives(r, url)), id)
  {
    assert w.runs[r].id != id && SessionOf(w, w.runs[r].session, w.runs[r].id);
  }

  lemma {:induction false} ExecRests(w: World, events: seq<Event>, id: nat)
    requires Inv(w) && id < |w.zone.items| && Idle(w, id) && forall e <- events :: !Retries(e, id)
    ensures Inv(Exec(w, events)) && Rests(w, Exec(w, events), id)
    decreases |events|
  {
    if events != [] {
      assert !Retries(events[0], id) by { assert events[0] in events; }
      StepRests(w, events[0], id);
      StepKeepsInv(w, events[0]);
      ExecRests(Step(w, events[0]), events[1..], id);
    }
  }

  /** When the only run of an item fails in its transfer, the item rests. */
  lemma FailureLeavesIdle(w: World, r: nat, failure: Failure)
    requires Inv(w) && AllSerial(w) && r in w.runs && w.runs[r].AwaitTransfer?
    ensures var v, id := FailTransfer(w, r, failure), w.runs[r].id;
            && id < |v.zone.items| && Idle(v, id) && v.zone.heap == w.zone.heap
            && (if Kills(w, r, failure) then id !in v.zone.sessions else v.zone.sessions == w.zone.sessions)
  {
    var AwaitTransfer(id, s, c, _) := w.runs[r];
    assert ItemSerial(w, id) && Works(w.runs[r], id);
    FailTransferCloses(w, r, failure);
    FailureKeepsHeap(w.zone, id, failure, c);
    FailureKeepsHeap(w.zone.(sessions := w.zone.sessions - {id}), id, failure, c);
  }

  lemma SamePlan(w: World, v: World, id: nat, unexpired: bool)
    requires Linked(w) && Linked(v) && PlanKept(w, v, id)
    ensures PlanRetry(v.zone, id, unexpired) == PlanRetry(w.zone, id, unexpired)
  {
  }

  lemma PlanOfFailed(w: World, r: nat, failure: Failure, after: seq<Event>, unexpired: bool)
    requires Inv(w) && AllSerial(w) && r in w.runs && w.runs[r].AwaitTransfer? && Inv(FailTransfer(w, r, failure))
    requires forall e <- after :: !Retries(e, w.runs[r].id)
    ensures var v, id := Exec(FailTransfer(w, r, failure), after), w.runs[r].id;
            && Linked(v)
            && PlanRetry(v.zone, id, unexpired)
               == if Kills(w, r, failure) then StartOver else PlanRetry(w.zone, id, unexpired)
  {
    var failed, id := FailTransfer(w, r, failure), w.runs[r].id;
    FailureLeavesIdle(w, r, failure);
    ExecRests(failed, after, id);
    SamePlan(failed, Exec(failed, after), id, unexpired);
    if !Kills(w, r, failure) { SamePlan(w, failed, id, unexpired); }
  }

  /** In every run in which retries wait: after a failed transfer, whatever happens until the item is
      retried, that retry starts over if the error killed the session, and does what a retry would have
      done right at the failure if it did not. */
  lemma PlanAfterFailure(before: seq<Event>, r: nat, failure: Failure, after: seq<Event>, unexpired: bool)
    requires Serial(Init(), before) && Enabled(Exec(Init(), before), TransferFails(r, failure))
    requires forall e <- after :: !Retries(e, Exec(Init(), before).runs[r].id)
    ensures var w := Exec(Init(), before);
            var v, id := Exec(Step(w, TransferFails(r, failure)), after), w.runs[r].id;
            && Linked(v)
            && PlanRetry(v.zone, id, unexpired)
               == if Kills(w, r, failure) then StartOver else PlanRetry(w.zone, id, unexpired)
  {
    InitInv();
    ExecSerial(Init(), before);
    var w := Exec(Init(), before);
    StepKeepsInv(w, TransferFails(r, failure));
    PlanOfFailed(w, r, failure, after, unexpired);
  }

  lemma LostAnswerShown(w: World, r: nat, reply: Reply)
    requires Base(w) && r in w.runs && w.runs[r].AwaitCompletion? && (reply.ReplyInvalid? || reply.ReplyError?)
    ensures var v, id := EndCompletion(w, r, reply), w.runs[r].id;
            && id < |v.zone.items| && v.zone.items[id].status == Failed
            && v.zone.sessions == w.zone.sessions && v.zone.heap == w.zone.heap && v.log == w.log
            && (r in v.runs ==> v.runs[r].Unwinding?)
            && forall q <- v.runs :: q != r ==> q in w.runs && v.runs[q] == w.runs[q]
  {
    var id := w.runs[r].id;
    ShownAt(w.zone.items, id, ToFailed(ApiText(OtherError("UPLOAD_COMPLETION_INVALID_OUTCOME"))));
    if reply.ReplyError? { ShownAt(w.zone.items, id, ToFailed(ApiText(reply.failure))); }
  }

  lemma AnsweringPlan(w: World, r: nat, unexpired: bool)
    requires Inv(w) && AllSerial(w) && r in w.runs && w.runs[r].AwaitCompletion?
    ensures PlanRetry(w.zone, w.runs[r].id, unexpired) == CompleteAgain
    ensures forall q <- w.runs :: Works(w.runs[q], w.runs[r].id) ==> q == r
  {
    assert ItemSerial(w, w.runs[r].id) && Works(w.runs[r], w.runs[r].id) && InCompletion(w, w.runs[r].session);
  }

  lemma LostAnswerAt(w: World, r: nat, reply: Reply, unexpired: bool)
    requires Inv(w) && AllSerial(w) && r in w.runs && w.runs[r].AwaitCompletion?
    requires reply.ReplyInvalid? || reply.ReplyError?
    requires Linked(EndCompletion(w, r, reply))
    ensures var v, id := EndCompletion(w, r, reply), w.runs[r].id;
            && Enabled(v, Retry(id, unexpired)) && Idle(v, id) && PlanRetry(v.zone, id, unexpired) == CompleteAgain
  {
    AnsweringPlan(w, r, unexpired);
    LostAnswerShown(w, r, reply);
    SamePlan(w, EndCompletion(w, r, reply), w.runs[r].id, unexpired);
  }

  /** In every run in which retries wait: after a lost or unusable answer a retry is offered at once, it
      need not wait, and it completes again. */
  lemma LostAnswerCompletesAgain(before: seq<Event>, r: nat, reply: Reply, unexpired: bool)
    requires Serial(Init(), before) && Enabled(Exec(Init(), before), CompletionReplies(r, reply))
    requires reply.ReplyInvalid? || reply.ReplyError?
    ensures var w := Exec(Init(), before);
            var v, id := Step(w, CompletionReplies(r, reply)), w.runs[r].id;
            Enabled(v, Retry(id, unexpired)) && Idle(v, id) && PlanRetry(v.zone, id, unexpired) == CompleteAgain
  {
    InitInv();
    ExecSerial(Init(), before);
    var w := Exec(Init(), before);
    StepKeepsInv(w, CompletionReplies(r, reply));
    RepliesByEnd(w, r, reply);
    LostAnswerAt(w, r, reply, unexpired);
  }

  lemma RepliesByEnd(w: World, r: nat, reply: Reply)
    requires Enabled(w, CompletionReplies(r, reply))
    ensures Step(w, CompletionReplies(r, reply)) == EndCompletion(w, r, reply)
  {
  }
}
