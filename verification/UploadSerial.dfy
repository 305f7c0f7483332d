/** One intent per selected file, when a retry waits until the earlier run of the item has ended. */
module UploadSerial {
  import opened Options
  import opened UploadModel
  import opened UploadRuns
  import opened UploadSafety

  /** The run still has work to do for the item. */
  predicate Works(frame: Frame, id: nat) { !frame.Unwinding? && frame.id == id }

  ghost predicate Idle(w: World, id: nat) { forall r <- w.runs :: !Works(w.runs[r], id) }

  ghost predicate SerialStep(w: World, e: Event) { e.Retry? && Enabled(w, e) ==> Idle(w, e.id) }

  /** Every retry in the sequence waits until its item is idle. */
  ghost predicate Serial(w: World, events: seq<Event>)
    decreases |events|
  {
    events == [] || (SerialStep(w, events[0]) && Serial(Step(w, events[0]), events[1..]))
  }

  predicate CallFor(w: World, call: Call, id: nat) {
    call.CompletionCalled? && call.intentId in w.issued && w.issued[call.intentId] == id
  }

  predicate Settled(w: World, id: nat) {
    id < |w.zone.items| && (w.zone.items[id].status.Registered? || w.zone.items[id].status.Duplicate?)
  }

  /** A completion was called for and not answered: the session of that call is still the item's. */
  ghost predicate AwaitsAnswer(w: World, id: nat, intentId: nat) {
    && id in w.zone.sessions && w.zone.sessions[id] < |w.zone.heap|
    && w.zone.heap[w.zone.sessions[id]].intent.intentId == intentId
    && w.zone.heap[w.zone.sessions[id]].phase.CompletionPhase?
    && forall r <- w.runs :: Works(w.runs[r], id) ==> w.runs[r].AwaitCompletion?
  }

  predicate RunInStep(w: World, frame: Frame, id: nat) {
    && id < |w.zone.items|
    && (AtStage(frame, id, w.zone.items[id].status) || (w.zone.items[id].status.Cancelled? && !frame.AwaitCompletion?))
    && (frame.AwaitTransfer? || frame.AwaitCompletion? ==>
          id in w.zone.sessions && w.zone.sessions[id] == frame.session)
  }

  /** At most one run works for the item, at the stage shown, with the item's own session. */
  ghost predicate OneWorker(w: World, id: nat) {
    && (forall r, q :: r in w.runs && q in w.runs && Works(w.runs[r], id) && Works(w.runs[q], id) ==> r == q)
    && (forall r <- w.runs :: Works(w.runs[r], id) ==> RunInStep(w, w.runs[r], id))
  }

  /** All completion calls for the item name one intent. */
  ghost predicate NamesOneIntent(w: World, id: nat) {
    forall a, b :: a in w.log && b in w.log && CallFor(w, a, id) && CallFor(w, b, id) ==> a.intentId == b.intentId
  }

  /** Moreover, once there is one the item is settled or still being completed. */
  ghost predicate OneIntent(w: World, id: nat) {
    && (forall call <- w.log :: CallFor(w, call, id) ==> Settled(w, id) || AwaitsAnswer(w, id, call.intentId))
    && NamesOneIntent(w, id)
  }

  ghost predicate ItemSerial(w: World, id: nat) { OneWorker(w, id) && OneIntent(w, id) }

  ghost predicate AllSerial(w: World) { forall id: nat :: ItemSerial(w, id) }

  /** The server only registers what it was asked to complete, and each pair at most once. */
  ghost predicate DocumentsCalled(w: World) {
    && (forall d <- w.documents :: exists call <- w.log :: IsCompletion(call, d.intentId, d.key))
    && (forall k, j :: 0 <= k < j < |w.documents| ==> w.documents[k] != w.documents[j])
  }

  /** The other items do not notice the step. */
  ghost predicate OthersUnchanged(w: World, v: World, id: nat) {
    && (forall i <- v.issued :: (i in w.issued && v.issued[i] == w.issued[i]) || (i !in w.issued && v.issued[i] == id))
    && (forall i <- w.issued :: i in v.issued)
    && (forall k: nat :: k != id ==> (k in v.zone.sessions <==> k in w.zone.sessions))
    && (forall k: nat :: k != id && k in w.zone.sessions ==>
          && v.zone.sessions[k] == w.zone.sessions[k] && w.zone.sessions[k] < |w.zone.heap| <= |v.zone.heap|
          && v.zone.heap[w.zone.sessions[k]].intent == w.zone.heap[w.zone.sessions[k]].intent
          && v.zone.heap[w.zone.sessions[k]].phase == w.zone.heap[w.zone.sessions[k]].phase)
  }

  lemma ElsewhereWorker(w: World, v: World, r: nat, id: nat, k: nat)
    requires OneWorker(w, k) && k != id && OnlyRun(w, v, r, id) && OthersUnchanged(w, v, id)
    ensures OneWorker(v, k)
  {
  }

  lemma ElsewhereIntent(w: World, v: World, r: nat, id: nat, k: nat, more: seq<Call>)
    requires SessionsInv(w) && OneIntent(w, k) && k != id
    requires OnlyRun(w, v, r, id) && OthersUnchanged(w, v, id)
    requires v.log == w.log + more && forall call <- more :: call.CompletionCalled? ==> CallFor(v, call, id)
    ensures OneIntent(v, k)
  {
    forall call | call in v.log && CallFor(v, call, k) ensures call in w.log && CallFor(w, call, k) {
      if call in w.log {
        var s :| BackedBy(w, call, s);
      }
    }
  }

  lemma SerialAfter(w: World, v: World, r: nat, id: nat, more: seq<Call>)
    requires ControllersInv(w) && SessionsInv(w) && AllSerial(w)
    requires OnlyRun(w, v, r, id) && OthersUnchanged(w, v, id)
    requires v.log == w.log + more && forall call <- more :: call.CompletionCalled? ==> CallFor(v, call, id)
    requires ItemSerial(v, id)
    ensures AllSerial(v)
  {
    forall k: nat ensures ItemSerial(v, k) {
      if k != id {
        assert ItemSerial(w, k);
        ElsewhereWorker(w, v, r, id, k);
        ElsewhereIntent(w, v, r, id, k, more);
      }
    }
  }

  /** While an item has a run before its completion call, no completion was ever called for it. */
  lemma NoCallYet(w: World, r: nat)
    requires Inv(w) && AllSerial(w) && r in w.runs && Holding(w.runs[r])
    ensures forall call <- w.log :: !CallFor(w, call, w.runs[r].id)
  {
    var id := w.runs[r].id;
    assert ItemSerial(w, id) && Works(w.runs[r], id) && RunInStep(w, w.runs[r], id);
  }

  /** Calls that the log already holds are for the same item afterwards. */
  lemma CallsKept(w: World, v: World, id: nat, call: Call)
    requires SessionsInv(w) && call in w.log
    requires forall i <- w.issued :: i in v.issued && v.issued[i] == w.issued[i]
    ensures CallFor(v, call, id) <==> CallFor(w, call, id)
  {
    if call.CompletionCalled? {
      var s :| BackedBy(w, call, s);
    }
  }

  /** A run that holds its controller goes on, or ends, without calling for completion. */
  lemma HolderSerial(w: World, v: World, r: nat, id: nat, more: seq<Call>)
    requires Inv(w) && AllSerial(w) && OnlyRun(w, v, r, id) && OthersUnchanged(w, v, id)
    requires r in w.runs && Holding(w.runs[r])
    requires r in v.runs && Works(v.runs[r], id) ==> RunInStep(v, v.runs[r], id)
    requires v.log == w.log + more && NoCompletion(more)
    ensures AllSerial(v)
  {
    NoCallYet(w, r);
    assert ItemSerial(w, id);
    forall call | call in v.log && CallFor(v, call, id) ensures false {
      CallsKept(w, v, id, call);
    }
    SerialAfter(w, v, r, id, more);
  }

  /** An idle item for which nothing is being completed gets a new run. */
  lemma StarterSerial(w: World, v: World, id: nat, more: seq<Call>)
    requires ControllersInv(w) && SessionsInv(w) && AllSerial(w) && Idle(w, id) && OnlyRun(w, v, w.nextRun, id)
    requires OthersUnchanged(w, v, id)
    requires forall call <- w.log :: !CallFor(w, call, id)
    requires w.nextRun in v.runs && RunInStep(v, v.runs[w.nextRun], id)
    requires v.log == w.log + more && NoCompletion(more)
    ensures AllSerial(v)
  {
    forall call | call in v.log && CallFor(v, call, id) ensures false {
      CallsKept(w, v, id, call);
    }
    SerialAfter(w, v, w.nextRun, id, more);
  }

  lemma ListingSerial(w: World, files: seq<File>)
    requires Inv(w) && AllSerial(w)
    ensures AllSerial(AppendFiles(w, files))
    ensures forall id: nat :: |w.zone.items| <= id ==>
              Idle(AppendFiles(w, files), id) && forall call <- w.log :: !CallFor(w, call, id)
  {
    var v := AppendFiles(w, files);
    forall id: nat ensures ItemSerial(v, id) {
      assert ItemSerial(w, id);
    }
    forall id: nat | |w.zone.items| <= id ensures Idle(v, id) && forall call <- w.log :: !CallFor(w, call, id) {
      assert ItemSerial(w, id);
    }
  }

  lemma StartIntentRunSerial(w: World, id: nat)
    requires ControllersInv(w) && SessionsInv(w) && NoneStuckBut(w, id) && AllSerial(w) && Idle(w, id)
    requires id < |w.zone.items| && forall call <- w.log :: !CallFor(w, call, id)
    ensures AllSerial(StartIntentRun(w, id))
  {
    ShownAt(w.zone.items, id, ToRequesting);
    StarterSerial(w, StartIntentRun(w, id), id, []);
  }

  lemma SelectOneSerial(w: World, file: File)
    requires Inv(w) && AllSerial(w)
    ensures AllSerial(SelectOne(w, file))
  {
    ListingSerial(w, [file]);
    if file.supported {
      ListedButNotStarted(w, file);
      StartIntentRunSerial(AppendFiles(w, [file]), |w.zone.items|);
    }
  }

  lemma {:induction false} SelectEachSerial(w: World, files: seq<File>)
    requires Inv(w) && AllSerial(w)
    ensures AllSerial(SelectEach(w, files))
    decreases |files|
  {
    if files != [] {
      SelectOneKeepsInv(w, files[0]);
      SelectOneSerial(w, files[0]);
      SelectEachSerial(SelectOne(w, files[0]), files[1..]);
    }
  }

  /** A run that holds its controller ends, and its item is closed. */
  lemma CloserSerial(w: World, v: World, r: nat, id: nat)
    requires Inv(w) && AllSerial(w) && Closes(w, v, r, id) && Holding(w.runs[r]) && OnlyRun(w, v, r, id)
    requires forall i <- v.issued :: i in w.issued || v.issued[i] == id
    ensures AllSerial(v)
  {
    assert v.log == w.log + [];
    HolderSerial(w, v, r, id, []);
  }

  lemma IntentFailureSerial(w: World, issued: map<nat, nat>, r: nat, failure: Failure)
    requires Inv(w) && AllSerial(w) && r in w.runs && w.runs[r].AwaitIntent?
    requires forall i <- w.issued :: i in issued && issued[i] == w.issued[i]
    requires forall i <- issued :: i in w.issued || issued[i] == w.runs[r].id
    ensures AllSerial(Finish(w.(issued := issued), r,
                             IntentFailed(w.zone, w.runs[r].id, failure, w.runs[r].controller)))
  {
    var AwaitIntent(id, c) := w.runs[r];
    var v := Finish(w.(issued := issued), r, IntentFailed(w.zone, id, failure, c));
    IntentFailureCloses(w, issued, r, failure);
    ReleasingCloseMoves(w, v, r, id, c);
    CloserSerial(w, v, r, id);
  }

  lemma TakeIntentSerial(w: World, r: nat, intent: Intent, unexpired: bool, key: string)
    requires Inv(w) && AllSerial(w) && r in w.runs && w.runs[r].AwaitIntent? && intent.intentId !in w.issued
    ensures AllSerial(TakeIntent(w, r, intent, unexpired, key))
  {
    var AwaitIntent(id, c) := w.runs[r];
    if IntentRefused(w.zone, c, unexpired) {
      IntentFailureSerial(w, w.issued[intent.intentId := id], r, if unexpired then AbortError else ExpiredUpload);
    } else {
      ShownAt(w.zone.items, id, ToUploading);
      HolderSerial(w, TakeIntent(w, r, intent, unexpired, key), r, id, [TransferStarted(intent.intentId, None)]);
    }
  }

  lemma ProgressSerial(w: World, r: nat, percent: int)
    requires Inv(w) && AllSerial(w) && r in w.runs && w.runs[r].AwaitTransfer?
    ensures AllSerial(w.(zone := Show(w.zone, w.runs[r].id, Progress(percent))))
  {
    var id := w.runs[r].id;
    ShownAt(w.zone.items, id, Progress(percent));
    assert ItemSerial(w, id) && Works(w.runs[r], id);
    HolderSerial(w, w.(zone := Show(w.zone, id, Progress(percent))), r, id, []);
  }

  lemma ResumeUrlSerial(w: World, r: nat, url: string)
    requires Inv(w) && AllSerial(w) && r in w.runs && w.runs[r].AwaitTransfer?
    ensures AllSerial(Apply(w, ResumeUrlArrives(r, url)))
  {
    var id := w.runs[r].id;
    assert ItemSerial(w, id) && Works(w.runs[r], id);
    HolderSerial(w, Apply(w, ResumeUrlArrives(r, url)), r, id,
                 [UrlIssued(w.zone.heap[w.runs[r].session].intent.intentId, url)]);
  }

  lemma FailTransferSerial(w: World, r: nat, failure: Failure)
    requires Inv(w) && AllSerial(w) && r in w.runs && w.runs[r].AwaitTransfer?
    ensures AllSerial(FailTransfer(w, r, failure))
  {
    var AwaitTransfer(id, s, c, nested) := w.runs[r];
    var v := FailTransfer(w, r, failure);
    FailTransferCloses(w, r, failure);
    ReleasingCloseMoves(w, v, r, id, c);
    assert v.issued == w.issued;
    CloserSerial(w, v, r, id);
  }

  lemma NoteFinishedSerial(w: World, i: nat, c: nat)
    requires AllSerial(w)
    ensures AllSerial(w.(log := w.log + [TransferFinished(i, c)]))
  {
    var v := w.(log := w.log + [TransferFinished(i, c)]);
    forall id: nat ensures ItemSerial(v, id) {
      assert ItemSerial(w, id);
      assert forall call :: call in v.log && CallFor(v, call, id) ==> call in w.log && CallFor(w, call, id);
    }
  }

  lemma EndTransferSerial(w: World, r: nat)
    requires Inv(w) && AllSerial(w) && r in w.runs && w.runs[r].AwaitTransfer?
    ensures AllSerial(EndTransfer(w, r))
  {
    var AwaitTransfer(id, s, c, nested) := w.runs[r];
    var i := w.zone.heap[s].intent.intentId;
    if w.zone.aborted[c] {
      NoteFinishedKeepsInv(w, i, c);
      NoteFinishedSerial(w, i, c);
      FailTransferSerial(w.(log := w.log + [TransferFinished(i, c)]), r, AbortError);
    } else {
      CompletedSerial(w, r);
    }
  }

  /** The run calls for completion for the first time. */
  lemma CompletedSerial(w: World, r: nat)
    requires Inv(w) && AllSerial(w) && r in w.runs && w.runs[r].AwaitTransfer? && !w.zone.aborted[w.runs[r].controller]
    ensures AllSerial(EndTransfer(w, r))
  {
    var AwaitTransfer(id, s, c, nested) := w.runs[r];
    var Session(intent, key, _, _) := w.zone.heap[s];
    var v := EndTransfer(w, r);
    var more := [TransferFinished(intent.intentId, c), CompletionCalled(intent.intentId, key, v.runs[r].origin)];
    assert v.log == w.log + more;
    CompletedElsewhere(w, r);
    CompletedHere(w, r, more);
    SerialAfter(w, v, r, id, more);
  }

  lemma CompletedElsewhere(w: World, r: nat)
    requires Inv(w) && r in w.runs && w.runs[r].AwaitTransfer? && !w.zone.aborted[w.runs[r].controller]
    ensures OnlyRun(w, EndTransfer(w, r), r, w.runs[r].id) && OthersUnchanged(w, EndTransfer(w, r), w.runs[r].id)
  {
    var AwaitTransfer(id, s, c, nested) := w.runs[r];
    CompleteTransferReleases(w, r);
    TransferCompletedShape(w.zone, id, s, c);
    SessionElsewhere(w, id, s);
  }

  lemma CompletedHere(w: World, r: nat, more: seq<Call>)
    requires Inv(w) && AllSerial(w) && r in w.runs && w.runs[r].AwaitTransfer? && !w.zone.aborted[w.runs[r].controller]
    requires EndTransfer(w, r).log == w.log + more && |more| == 2 && !more[0].CompletionCalled?
    requires more[1].CompletionCalled? && more[1].intentId == w.zone.heap[w.runs[r].session].intent.intentId
    ensures ItemSerial(EndTransfer(w, r), w.runs[r].id)
  {
    var AwaitTransfer(id, s, c, nested) := w.runs[r];
    TransferCompletedShape(w.zone, id, s, c);
    NoCallYet(w, r);
    CompletedElsewhere(w, r);
    assert ItemSerial(w, id) && Works(w.runs[r], id) && RunInStep(w, w.runs[r], id);
    CompletedItem(w, EndTransfer(w, r), id, r, more);
  }

  lemma SessionElsewhere(w: World, id: nat, s: nat)
    requires SessionsInv(w) && SessionOf(w, s, id)
    ensures forall k: nat :: k != id && k in w.zone.sessions ==>
              w.zone.sessions[k] != s && w.zone.sessions[k] < |w.zone.heap|
  {
  }

  lemma CompletedItem(w: World, v: World, id: nat, r: nat, more: seq<Call>)
    requires ItemSerial(w, id) && OnlyRun(w, v, r, id) && id in w.zone.sessions && v.zone.sessions == w.zone.sessions
    requires r in w.runs && Works(w.runs[r], id) && v.issued == w.issued
    requires w.zone.sessions[id] < |v.zone.heap| && v.zone.heap[w.zone.sessions[id]].phase.CompletionPhase?
    requires v.zone.items[id].status == Verifying
    requires r in v.runs && v.runs[r].AwaitCompletion? && v.runs[r].session == w.zone.sessions[id]
    requires v.log == w.log + more && |more| == 2 && !more[0].CompletionCalled?
    requires more[1].CompletionCalled? && more[1].intentId == v.zone.heap[w.zone.sessions[id]].intent.intentId
    requires forall call <- w.log :: !CallFor(w, call, id)
    ensures ItemSerial(v, id)
  {
    forall call | call in v.log && CallFor(v, call, id) ensures call == more[1] {
      assert call in w.log ==> !CallFor(w, call, id);
    }
    assert AwaitsAnswer(v, id, more[1].intentId);
  }

  lemma EndCompletionSerial(w: World, r: nat, reply: Reply)
    requires Inv(w) && AllSerial(w) && r in w.runs && w.runs[r].AwaitCompletion?
    ensures AllSerial(EndCompletion(w, r, reply))
  {
    var id := w.runs[r].id;
    var v := EndCompletion(w, r, reply);
    CompletionCloses(w, r, reply);
    QuietCloseMoves(w, v, r, id);
    assert v.issued == w.issued && v.log == w.log + [];
    RunEnded(w, v, r, id);
    SerialAfter(w, v, r, id, []);
  }

  lemma RunEnded(w: World, v: World, r: nat, id: nat)
    requires ItemSerial(w, id) && Closes(w, v, r, id) && OnlyRun(w, v, r, id) && w.runs[r].AwaitCompletion?
    requires v.issued == w.issued && (Settled(v, id) || v.zone.sessions == w.zone.sessions)
    ensures ItemSerial(v, id)
  {
    assert RunInStep(w, w.runs[r], id);
    forall call | call in v.log && CallFor(v, call, id)
      ensures Settled(v, id) || AwaitsAnswer(v, id, call.intentId)
    {
      assert CallFor(w, call, id);
    }
  }

  lemma UnwindSerial(w: World, r: nat)
    requires Inv(w) && AllSerial(w) && r in w.runs && w.runs[r].Unwinding?
    ensures AllSerial(Apply(w, Unwind(r)))
  {
    UnwindChangesNothing(w, r);
    var v := Apply(w, Unwind(r));
    forall id: nat ensures ItemSerial(v, id) {
      assert ItemSerial(w, id);
    }
  }

  lemma CancelSerial(w: World, id: nat)
    requires Inv(w) && AllSerial(w) && Enabled(w, Cancel(id))
    ensures AllSerial(Cancelling(w, id))
  {
    var v := Cancelling(w, id);
    CancelOnlyItem(w, id);
    assert ItemSerial(w, id);
    CancelledItem(w, v, id);
    assert v.log == w.log + [];
    SerialAfter(w, v, w.nextRun, id, []);
  }

  lemma CancelledItem(w: World, v: World, id: nat)
    requires ItemSerial(w, id) && id < |w.zone.items| == |v.zone.items| && Cancellable(w.zone.items[id])
    requires v.zone.items[id].status == Cancelled
    requires v.runs == w.runs && v.issued == w.issued && v.log == w.log
    requires v.zone.heap == w.zone.heap && v.zone.sessions == w.zone.sessions
    ensures ItemSerial(v, id)
  {
    forall r | r in v.runs && Works(v.runs[r], id) ensures RunInStep(v, v.runs[r], id) {
      assert RunInStep(w, w.runs[r], id);
    }
    forall call | call in v.log && CallFor(v, call, id)
      ensures AwaitsAnswer(v, id, call.intentId)
    {
      assert CallFor(w, call, id);
    }
  }

  lemma RetrySerial(w: World, id: nat, unexpired: bool)
    requires Inv(w) && AllSerial(w) && Enabled(w, Retry(id, unexpired)) && Idle(w, id)
    ensures AllSerial(RetryItem(w, id, unexpired))
  {
    assert ItemSerial(w, id);
    match PlanRetry(w.zone, id, unexpired) {
      case CompleteAgain =>
        CompleteAgainSerial(w, id);
      case ResumeTransfer =>
        NothingCalled(w, id, unexpired);
        ResumeSerial(w, id);
      case StartOver =>
        NothingCalled(w, id, unexpired);
        StartIntentRunSerial(w, id);
    }
  }

  /** Unless a retry completes again, nothing was ever called for the item. */
  lemma NothingCalled(w: World, id: nat, unexpired: bool)
    requires Inv(w) && ItemSerial(w, id) && id < |w.zone.items| && Retryable(w.zone.items[id])
    requires !PlanRetry(w.zone, id, unexpired).CompleteAgain?
    ensures forall call <- w.log :: !CallFor(w, call, id)
  {
  }

  lemma ResumeSerial(w: World, id: nat)
    requires Inv(w) && AllSerial(w) && Idle(w, id) && id < |w.zone.items| && id in w.zone.sessions
    requires forall call <- w.log :: !CallFor(w, call, id)
    ensures AllSerial(ResumedTransfer(w, id))
  {
    var v := ResumedTransfer(w, id);
    ResumeMoves(w, id);
    StarterSerial(w, v, id, [v.log[|w.log|]]);
  }

  lemma CompleteAgainSerial(w: World, id: nat)
    requires Inv(w) && AllSerial(w) && Idle(w, id) && id < |w.zone.items| && Retryable(w.zone.items[id])
    requires id in w.zone.sessions && w.zone.heap[w.zone.sessions[id]].phase.CompletionPhase?
    ensures AllSerial(CompletedAgain(w, id))
  {
    var v := CompletedAgain(w, id);
    var call := v.log[|w.log|];
    CompletedAgainMoves(w, id, call);
    assert ItemSerial(w, id);
    CompletedAgainItem(w, v, id, call);
    SerialAfter(w, v, w.nextRun, id, [call]);
  }

  lemma CompletedAgainMoves(w: World, id: nat, call: Call)
    requires Base(w) && id < |w.zone.items| && id in w.zone.sessions
    requires w.zone.heap[w.zone.sessions[id]].phase.CompletionPhase? && call == CompletedAgain(w, id).log[|w.log|]
    ensures var v := CompletedAgain(w, id);
            && OnlyRun(w, v, w.nextRun, id) && OthersUnchanged(w, v, id)
            && v.log == w.log + [call] && CallFor(v, call, id)
            && w.nextRun in v.runs && RunInStep(v, v.runs[w.nextRun], id)
  {
    CompleteAgainMoves(w, id);
    ShownAt(w.zone.items, id, ToVerifying);
  }

  lemma CompletedAgainItem(w: World, v: World, id: nat, call: Call)
    requires ItemSerial(w, id) && Idle(w, id) && OnlyRun(w, v, w.nextRun, id) && !Settled(w, id)
    requires w.nextRun in v.runs && RunInStep(v, v.runs[w.nextRun], id) && v.runs[w.nextRun].AwaitCompletion?
    requires v.issued == w.issued && v.zone.sessions == w.zone.sessions && v.zone.heap == w.zone.heap
    requires v.zone.heap[v.zone.sessions[id]].phase.CompletionPhase?
    requires v.log == w.log + [call] && call.CompletionCalled?
    requires call.intentId == v.zone.heap[v.zone.sessions[id]].intent.intentId
    ensures ItemSerial(v, id)
  {
    forall c | c in v.log && CallFor(v, c, id) ensures c.intentId == call.intentId && AwaitsAnswer(v, id, c.intentId) {
      if c in w.log { assert CallFor(w, c, id); }
    }
  }

  lemma ServerSerial(w: World, documents: seq<Document>)
    requires AllSerial(w)
    ensures AllSerial(w.(documents := documents))
  {
    var v := w.(documents := documents);
    forall id: nat ensures ItemSerial(v, id) {
      assert ItemSerial(w, id);
    }
  }

  lemma StepSerial(w: World, e: Event)
    requires Inv(w) && AllSerial(w) && SerialStep(w, e)
    ensures AllSerial(Step(w, e))
  {
    if Enabled(w, e) {
      if OfRun(e) { RunEventSerial(w, e); } else { UserEventSerial(w, e); }
    }
  }

  lemma RunEventSerial(w: World, e: Event)
    requires Inv(w) && AllSerial(w) && Enabled(w, e) && OfRun(e)
    ensures AllSerial(Apply(w, e))
  {
    match e {
      case IntentArrives(r, intent, unexpired, key) => TakeIntentSerial(w, r, intent, unexpired, key);
      case IntentRejected(r, failure) => IntentFailureSerial(w, w.issued, r, failure);
      case TransferProgress(r, percent) => ProgressSerial(w, r, percent);
      case ResumeUrlArrives(r, url) => ResumeUrlSerial(w, r, url);
      case TransferSucceeds(r) => EndTransferSerial(w, r);
      case TransferFails(r, failure) => FailTransferSerial(w, r, failure);
      case CompletionReplies(r, reply) => EndCompletionSerial(w, r, reply);
      case Unwind(r) => UnwindSerial(w, r);
    }
  }

  lemma UserEventSerial(w: World, e: Event)
    requires Inv(w) && AllSerial(w) && SerialStep(w, e) && Enabled(w, e) && !OfRun(e)
    ensures AllSerial(Apply(w, e))
  {
    match e {
      case SelectFiles(files) => BatchIsOneByOne(w, files); SelectEachSerial(w, files);
      case Cancel(id) => CancelSerial(w, id);
      case Retry(id, unexpired) => RetrySerial(w, id, unexpired);
      case ServerCompletes(i, k) => ServerSerial(w, RegisterOnce(w.documents, i, k));
    }
  }

  lemma StepDocuments(w: World, e: Event)
    requires Inv(w) && DocumentsCalled(w)
    ensures DocumentsCalled(Step(w, e))
  {
    var v := Step(w, e);
    LogOnlyGrows(w, e);
    forall d | d in v.documents ensures exists call <- v.log :: IsCompletion(call, d.intentId, d.key) {
      if d in w.documents {
        var call :| call in w.log && IsCompletion(call, d.intentId, d.key);
        assert call in v.log;
      }
    }
  }

  lemma {:induction false} StartEachKeepsLog(w: World, first: nat, files: seq<File>)
    ensures StartEach(w, first, files).log == w.log && StartEach(w, first, files).documents == w.documents
    decreases |files|
  {
    if files != [] {
      StartEachKeepsLog(if files[0].supported then StartIntentRun(w, first) else w, first + 1, files[1..]);
    }
  }

  lemma LogOnlyGrows(w: World, e: Event)
    ensures forall call <- w.log :: call in Step(w, e).log
    ensures Step(w, e).documents == w.documents || (Enabled(w, e) && e.ServerCompletes?
              && Step(w, e).documents == RegisterOnce(w.documents, e.intentId, e.key))
  {
    if Enabled(w, e) {
      match e {
        case SelectFiles(files) => StartEachKeepsLog(AppendFiles(w, files), |w.zone.items|, files);
        case _ =>
      }
    }
  }

  lemma {:induction false} ExecSerial(w: World, events: seq<Event>)
    requires Inv(w) && AllSerial(w) && DocumentsCalled(w) && Serial(w, events)
    ensures var v := Exec(w, events); Inv(v) && AllSerial(v) && DocumentsCalled(v)
    decreases |events|
  {
    if events != [] {
      StepKeepsInv(w, events[0]);
      StepSerial(w, events[0]);
      StepDocuments(w, events[0]);
      ExecSerial(Step(w, events[0]), events[1..]);
    }
  }

  lemma DocumentsOfOneFile(w: World, j: nat, k: nat)
    requires SessionsInv(w) && AllSerial(w) && DocumentsCalled(w) && j < |w.documents| && k < |w.documents|
    ensures var a, b := w.documents[j].intentId, w.documents[k].intentId;
            a in w.issued && b in w.issued && (w.issued[a] == w.issued[b] ==> j == k)
  {
    assert w.documents[j] in w.documents && w.documents[k] in w.documents;
    var a :| a in w.log && IsCompletion(a, w.documents[j].intentId, w.documents[j].key);
    var b :| b in w.log && IsCompletion(b, w.documents[k].intentId, w.documents[k].key);
    var s, t :| BackedBy(w, a, s) && BackedBy(w, b, t);
    var id := w.issued[a.intentId];
    if id == w.issued[b.intentId] {
      assert ItemSerial(w, id) && CallFor(w, a, id) && CallFor(w, b, id);
      SameSessionSameKey(w, a, b);
    }
  }

  /** For every sequence of failures, lost answers, cancels and retries in which each retry waits for the
      item's earlier run to end, a file is completed under one intent only. */
  lemma OneIntentPerFile(events: seq<Event>, id: nat)
    requires Serial(Init(), events)
    ensures NamesOneIntent(Exec(Init(), events), id)
  {
    InitInv();
    ExecSerial(Init(), events);
    assert ItemSerial(Exec(Init(), events), id);
  }

  /** So a server that registers a completion once per intent and key holds at most one document for each
      selected file. */
  lemma OneDocumentPerFile(events: seq<Event>, j: nat, k: nat)
    requires Serial(Init(), events)
    requires j < |Exec(Init(), events).documents| && k < |Exec(Init(), events).documents|
    ensures var w := Exec(Init(), events);
            var a, b := w.documents[j].intentId, w.documents[k].intentId;
            a in w.issued && b in w.issued && (w.issued[a] == w.issued[b] ==> j == k)
  {
    InitInv();
    ExecSerial(Init(), events);
    DocumentsOfOneFile(Exec(Init(), events), j, k);
  }
}
