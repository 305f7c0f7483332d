/** What each step of an upload starts, in terms of the session, the log and the runs: what a retry does, and
    that it goes on from the last URL that the transport reported. */
module UploadResume {
  import opened Options
  import opened UploadModel
  import opened UploadRuns
  import opened UploadSafety
  import opened UploadSerial
  import opened UploadRetry
  import opened UploadPlans
  import opened UploadReports

  /** The item shows that it is being worked on. */
  predicate ShowsWork(item: Item, status: Status, progress: int) {
    item.status == status && item.progress == progress && item.error == None
  }

  /** The item's session, if it has one. */
  predicate Has(w: World, id: nat, session: Session) {
    id in w.zone.sessions && w.zone.sessions[id] < |w.zone.heap| && w.zone.heap[w.zone.sessions[id]] == session
  }

  /** A transfer of these bytes can be resumed: from a URL that was kept, while the intent is valid. */
  predicate CanResume(session: Session, unexpired: bool) {
    && session.phase == UploadPhase && session.intent.mode == Resumable && unexpired
    && session.resumeUrl != None && session.resumeUrl != Some("")
  }

  // ---------- the calls of a retry ----------

  lemma RetryCompletes(w: World, id: nat, unexpired: bool, session: Session)
    requires Base(w) && Enabled(w, Retry(id, unexpired)) && Has(w, id, session) && session.phase == CompletionPhase
    ensures var v := Step(w, Retry(id, unexpired));
            && v.log == w.log + [CompletionCalled(session.intent.intentId, session.key, FromRetry)]
            && w.nextRun in v.runs && v.runs[w.nextRun] == AwaitCompletion(id, w.zone.sessions[id], FromRetry)
            && v.zone.sessions == w.zone.sessions && v.zone.heap == w.zone.heap
            && id < |v.zone.items| && ShowsWork(v.zone.items[id], Verifying, 100)
  {
    ShownAt(w.zone.items, id, ToVerifying);
  }

  lemma RetryResumes(w: World, id: nat, unexpired: bool, session: Session)
    requires Base(w) && Enabled(w, Retry(id, unexpired)) && Has(w, id, session) && CanResume(session, unexpired)
    ensures var v := Step(w, Retry(id, unexpired));
            && v.log == w.log + [TransferStarted(session.intent.intentId, session.resumeUrl)]
            && w.nextRun in v.runs
            && v.runs[w.nextRun] == AwaitTransfer(id, w.zone.sessions[id], |w.zone.aborted|, false)
            && v.zone.sessions == w.zone.sessions && v.zone.heap == w.zone.heap
            && id < |v.zone.items| && ShowsWork(v.zone.items[id], Uploading, 0)
  {
    ShownAt(w.zone.items, id, ToUploading);
  }

  lemma RetryStartsAfresh(w: World, id: nat, unexpired: bool)
    requires Base(w) && Enabled(w, Retry(id, unexpired))
    requires forall session :: Has(w, id, session) ==>
               session.phase == UploadPhase && !CanResume(session, unexpired)
    ensures var v := Step(w, Retry(id, unexpired));
            && v.log == w.log && id !in v.zone.sessions
            && w.nextRun in v.runs && v.runs[w.nextRun] == AwaitIntent(id, |w.zone.aborted|)
            && id < |v.zone.items| && ShowsWork(v.zone.items[id], RequestingIntent, 0)
  {
    if id in w.zone.sessions { assert Has(w, id, w.zone.heap[w.zone.sessions[id]]); }
    ShownAt(w.zone.items, id, ToRequesting);
  }

  /** In every reachable world, what a retry that is offered does: it calls for completion again exactly if the
      item's session is in its completion phase; it transfers again, from the URL that was kept, exactly if
      the session can be resumed; and else it drops the session and asks for a new intent. */
  lemma RetryDoes(w: World, id: nat, unexpired: bool)
    requires Reachable(w) && Enabled(w, Retry(id, unexpired))
    ensures var v := Step(w, Retry(id, unexpired));
            && id < |v.zone.items|
            && (forall session :: Has(w, id, session) && session.phase == CompletionPhase ==>
                  && v.log == w.log + [CompletionCalled(session.intent.intentId, session.key, FromRetry)]
                  && ShowsWork(v.zone.items[id], Verifying, 100))
            && (forall session :: Has(w, id, session) && CanResume(session, unexpired) ==>
                  && v.log == w.log + [TransferStarted(session.intent.intentId, session.resumeUrl)]
                  && v.zone.sessions == w.zone.sessions && ShowsWork(v.zone.items[id], Uploading, 0))
            && ((forall session :: Has(w, id, session) ==>
                   session.phase == UploadPhase && !CanResume(session, unexpired)) ==>
                  && v.log == w.log && id !in v.zone.sessions && ShowsWork(v.zone.items[id], RequestingIntent, 0)
                  && w.nextRun in v.runs && v.runs[w.nextRun] == AwaitIntent(id, |w.zone.aborted|))
  {
    ReachableInv(w);
    if id in w.zone.sessions {
      var session := w.zone.heap[w.zone.sessions[id]];
      assert Has(w, id, session);
      if session.phase == CompletionPhase {
        RetryCompletes(w, id, unexpired, session);
      } else if CanResume(session, unexpired) {
        RetryResumes(w, id, unexpired, session);
      } else {
        RetryStartsAfresh(w, id, unexpired);
      }
    } else {
      RetryStartsAfresh(w, id, unexpired);
    }
  }

  // ---------- the calls of a run ----------

  /** An intent that arrives in time, for a run that was not aborted, opens a session of its own and starts its
      transfer from the beginning; any other one starts nothing. */
  lemma IntentStartsIffValid(w: World, r: nat, intent: Intent, unexpired: bool, key: string)
    requires Reachable(w) && Enabled(w, IntentArrives(r, intent, unexpired, key))
    ensures var v, id := Step(w, IntentArrives(r, intent, unexpired, key)), w.runs[r].id;
            if unexpired && !w.zone.aborted[w.runs[r].controller] then
              && v.log == w.log + [TransferStarted(intent.intentId, None)]
              && Has(v, id, Session(intent, key, UploadPhase, None))
              && r in v.runs && v.runs[r].AwaitTransfer? && v.runs[r].session == v.zone.sessions[id]
              && ShowsWork(v.zone.items[id], Uploading, 0)
            else v.log == w.log && v.zone.sessions == w.zone.sessions && r !in v.runs
  {
    ReachableInv(w);
    ShownAt(w.zone.items, w.runs[r].id, ToUploading);
    FailureKeepsHeap(w.zone, w.runs[r].id, if unexpired then AbortError else ExpiredUpload, w.runs[r].controller);
  }

  lemma FinishedTransfer(w: World, r: nat)
    requires Base(w) && r in w.runs && w.runs[r].AwaitTransfer? && !w.zone.aborted[w.runs[r].controller]
    ensures var AwaitTransfer(id, s, c, nested) := w.runs[r];
            var v, session := Step(w, TransferSucceeds(r)), w.zone.heap[s];
            && v.log == w.log + [TransferFinished(session.intent.intentId, c)]
                        + [CompletionCalled(session.intent.intentId, session.key,
                                            if nested then FromIntent(c) else FromResume(c))]
            && v.zone.heap == w.zone.heap[s := session.(phase := CompletionPhase)]
            && r in v.runs && v.runs[r].AwaitCompletion? && v.runs[r].session == s
            && id < |v.zone.items| && ShowsWork(v.zone.items[id], Verifying, 100)
  {
    ShownAt(w.zone.items, w.runs[r].id, ToVerifying);
  }

  lemma FinishedLate(w: World, r: nat)
    requires Base(w) && r in w.runs && w.runs[r].AwaitTransfer? && w.zone.aborted[w.runs[r].controller]
    ensures var v, i := Step(w, TransferSucceeds(r)), w.zone.heap[w.runs[r].session].intent.intentId;
            && v.log == w.log + [TransferFinished(i, w.runs[r].controller)] && v.zone.heap == w.zone.heap
  {
    var call := TransferFinished(w.zone.heap[w.runs[r].session].intent.intentId, w.runs[r].controller);
    FailedKeepsHeap(w.(log := w.log + [call]), r, AbortError);
  }

  /** A finished transfer is completed, with its session's intent and key, exactly if its run was not
      aborted. */
  lemma CompletionFollowsIffNotAborted(w: World, r: nat)
    requires Reachable(w) && Enabled(w, TransferSucceeds(r))
    ensures var AwaitTransfer(id, s, c, nested) := w.runs[r];
            var v, session := Step(w, TransferSucceeds(r)), w.zone.heap[s];
            var finished := w.log + [TransferFinished(session.intent.intentId, c)];
            if w.zone.aborted[c] then v.log == finished
            else
              && v.log == finished + [CompletionCalled(session.intent.intentId, session.key,
                                                       if nested then FromIntent(c) else FromResume(c))]
              && id < |v.zone.items| && ShowsWork(v.zone.items[id], Verifying, 100)
  {
    ReachableInv(w);
    if w.zone.aborted[w.runs[r].controller] { FinishedLate(w, r); } else { FinishedTransfer(w, r); }
  }

  /** A URL that the transport reports is kept exactly if its session is still the item's. */
  lemma UrlKeptIffCurrent(w: World, r: nat, url: string)
    requires Reachable(w) && Enabled(w, ResumeUrlArrives(r, url))
    ensures var v, s, id := Step(w, ResumeUrlArrives(r, url)), w.runs[r].session, w.runs[r].id;
            && v.zone.heap == (if id in w.zone.sessions && w.zone.sessions[id] == s
                               then w.zone.heap[s := w.zone.heap[s].(resumeUrl := Some(url))] else w.zone.heap)
            && v.zone.sessions == w.zone.sessions && v.zone.items == w.zone.items
  {
  }

  /** What the transport reports is shown by its item, and by no other. */
  lemma ProgressIsShown(w: World, r: nat, percent: int)
    requires Reachable(w) && Enabled(w, TransferProgress(r, percent))
    ensures var v, id := Step(w, TransferProgress(r, percent)), w.runs[r].id;
            && id < |v.zone.items| == |w.zone.items|
            && v.zone.items == w.zone.items[id := w.zone.items[id].(progress := percent)]
            && v.log == w.log && v.runs == w.runs
  {
    ReachableInv(w);
    ShownAt(w.zone.items, w.runs[r].id, Progress(percent));
  }

  // ---------- the key of a completion ----------

  /** The session's intent and key are those of an intent that arrived in time. */
  ghost predicate ArrivedIn(events: seq<Event>, intent: Intent, key: string) {
    exists e <- events :: e.IntentArrives? && e.intent == intent && e.key == key && e.unexpired
  }

  lemma {:induction false} StartEachKeepsHeap(w: World, first: nat, files: seq<File>)
    ensures StartEach(w, first, files).zone.heap == w.zone.heap
    decreases |files|
  {
    if files != [] {
      StartEachKeepsHeap(if files[0].supported then StartIntentRun(w, first) else w, first + 1, files[1..]);
    }
  }

  /** The sessions stay, each with its intent and key, and at most one more is opened, by an intent. */
  ghost predicate HeapFollows(w: World, v: World, e: Event) {
    && |w.zone.heap| <= |v.zone.heap| <= |w.zone.heap| + 1
    && (forall s :: 0 <= s < |w.zone.heap| ==>
          v.zone.heap[s].intent == w.zone.heap[s].intent && v.zone.heap[s].key == w.zone.heap[s].key)
    && (|v.zone.heap| > |w.zone.heap| ==>
          && e.IntentArrives? && e.unexpired
          && v.zone.heap[|w.zone.heap|].intent == e.intent && v.zone.heap[|w.zone.heap|].key == e.key)
  }

  lemma FailedKeepsHeap(w: World, r: nat, failure: Failure)
    requires Linked(w) && r in w.runs && w.runs[r].AwaitTransfer?
    ensures FailTransfer(w, r, failure).zone.heap == w.zone.heap
  {
    var AwaitTransfer(id, _, c, _) := w.runs[r];
    FailureKeepsHeap(w.zone, id, failure, c);
    FailureKeepsHeap(w.zone.(sessions := w.zone.sessions - {id}), id, failure, c);
  }

  lemma IntentHeapFollows(w: World, e: Event)
    requires Base(w) && Enabled(w, e) && (e.IntentArrives? || e.IntentRejected?)
    ensures HeapFollows(w, Step(w, e), e)
  {
    match e {
      case IntentArrives(r, _, unexpired, _) =>
        FailureKeepsHeap(w.zone, w.runs[r].id, if unexpired then AbortError else ExpiredUpload, w.runs[r].controller);
      case IntentRejected(r, failure) => FailureKeepsHeap(w.zone, w.runs[r].id, failure, w.runs[r].controller);
    }
  }

  lemma FinishHeapFollows(w: World, r: nat)
    requires Base(w) && r in w.runs && w.runs[r].AwaitTransfer?
    ensures HeapFollows(w, Step(w, TransferSucceeds(r)), TransferSucceeds(r))
  {
    if w.zone.aborted[w.runs[r].controller] { FinishedLate(w, r); } else { FinishedTransfer(w, r); }
  }

  lemma RetryKeepsHeap(w: World, id: nat, unexpired: bool)
    requires Linked(w)
    ensures RetryItem(w, id, unexpired).zone.heap == w.zone.heap
  {
  }

  lemma StepHeapFollows(w: World, e: Event)
    requires Base(w)
    ensures HeapFollows(w, Step(w, e), e)
  {
    if Enabled(w, e) {
      match e {
        case SelectFiles(files) => StartEachKeepsHeap(AppendFiles(w, files), |w.zone.items|, files);
        case IntentArrives(_, _, _, _) => IntentHeapFollows(w, e);
        case IntentRejected(_, _) => IntentHeapFollows(w, e);
        case TransferSucceeds(r) => FinishHeapFollows(w, r);
        case TransferFails(r, failure) => FailedKeepsHeap(w, r, failure);
        case CompletionReplies(r, reply) => CompletionEndedShape(w.zone, w.runs[r].id, reply);
        case Retry(id, unexpired) => RetryKeepsHeap(w, id, unexpired);
        case ResumeUrlArrives(_, _) =>
        case TransferProgress(_, _) =>
        case Unwind(_) =>
        case Cancel(_) =>
        case ServerCompletes(_, _) =>
      }
    }
  }

  /** So does every session. */
  ghost predicate AllArrived(events: seq<Event>, heap: seq<Session>) {
    forall s :: 0 <= s < |heap| ==> ArrivedIn(events, heap[s].intent, heap[s].key)
  }

  lemma ArrivedStep(w: World, before: seq<Event>, e: Event)
    requires AllArrived(before, w.zone.heap) && HeapFollows(w, Step(w, e), e)
    ensures AllArrived(before + [e], Step(w, e).zone.heap)
  {
    var v := Step(w, e);
    forall s | 0 <= s < |v.zone.heap| ensures ArrivedIn(before + [e], v.zone.heap[s].intent, v.zone.heap[s].key) {
      if s < |w.zone.heap| {
        assert ArrivedIn(before, w.zone.heap[s].intent, w.zone.heap[s].key);
        var f :| f in before && f.IntentArrives? && f.intent == w.zone.heap[s].intent && f.key == w.zone.heap[s].key
                 && f.unexpired;
        assert f in before + [e];
      } else {
        assert e in before + [e];
      }
    }
  }

  lemma ReachedBase(events: seq<Event>)
    ensures Base(Exec(Init(), events))
  {
    InitInv();
    ExecKeepsInv(Init(), events);
  }

  lemma {:induction false} HeapArrived(events: seq<Event>)
    ensures AllArrived(events, Exec(Init(), events).zone.heap)
    decreases |events|
  {
    if events != [] {
      var init, e := events[..|events| - 1], events[|events| - 1];
      HeapArrived(init);
      ReachedBase(init);
      StepHeapFollows(Exec(Init(), init), e);
      ArrivedStep(Exec(Init(), init), init, e);
      Last(events);
      assert init + [e] == events;
    }
  }

  lemma SessionOfCall(w: World, call: Call) returns (s: nat)
    requires Inv(w) && call in w.log && call.CompletionCalled?
    ensures s < |w.zone.heap| && w.zone.heap[s].intent.intentId == call.intentId && w.zone.heap[s].key == call.key
  {
    s :| BackedBy(w, call, s);
  }

  /** Over every run: a completion is called for with the key that came with its intent, which was valid. */
  lemma CompletionUsesItsKey(events: seq<Event>, call: Call)
    requires call in Exec(Init(), events).log && call.CompletionCalled?
    ensures exists e <- events ::
              e.IntentArrives? && e.intent.intentId == call.intentId && e.key == call.key && e.unexpired
  {
    InitInv();
    ExecKeepsInv(Init(), events);
    HeapArrived(events);
    var w := Exec(Init(), events);
    var s := SessionOfCall(w, call);
    assert ArrivedIn(events, w.zone.heap[s].intent, w.zone.heap[s].key);
  }

  // ---------- resuming from the last URL ----------

  /** The failures after which a resumable session is dead. */
  predicate Deadly(failure: Failure) {
    failure.StorageError?
    && (failure.status == 401 || failure.status == 403 || failure.status == 404 || failure.status == 410
        || failure.code == "TUS_OFFSET_INVALID" || failure.code == "TUS_LOCATION_INVALID")
  }

  lemma DeadlyIff(failure: Failure)
    ensures Deadly(failure) <==> IsTerminalSessionError(failure)
  {
  }

  /** As long as run r transfers, it does so for session s of the item, whose URL is kept. */
  ghost predicate KeepsUrl(w: World, r: nat, id: nat, s: nat, intent: Intent, url: string) {
    && r < w.nextRun && (r in w.runs ==> !w.runs[r].AwaitIntent?)
    && (r in w.runs && w.runs[r].AwaitTransfer? ==>
          && w.runs[r].id == id && w.runs[r].session == s && s < |w.zone.heap|
          && w.zone.heap[s].intent == intent && w.zone.heap[s].resumeUrl == Some(url))
  }

  /** The step does not touch a session that transfers, but for its URL. */
  ghost predicate LeavesTransfers(w: World, v: World, e: Event) {
    && w.nextRun <= v.nextRun && |w.zone.heap| <= |v.zone.heap|
    && (forall s :: 0 <= s < |w.zone.heap| ==> v.zone.heap[s].intent == w.zone.heap[s].intent)
    && (forall s :: 0 <= s < |w.zone.heap| && v.zone.heap[s].resumeUrl != w.zone.heap[s].resumeUrl ==>
          e.ResumeUrlArrives? && e.run in w.runs && w.runs[e.run].AwaitTransfer? && w.runs[e.run].session == s)
    && (forall q :: q in v.runs && q < w.nextRun && (v.runs[q].AwaitIntent? || v.runs[q].AwaitTransfer?) ==>
          q in w.runs && (w.runs[q].AwaitIntent? || v.runs[q] == w.runs[q]))
  }

  lemma {:induction false} StartEachLeaves(w: World, first: nat, files: seq<File>)
    ensures var v := StartEach(w, first, files);
            && w.nextRun <= v.nextRun && v.zone.heap == w.zone.heap
            && (forall q :: q < w.nextRun ==>
                  (q in v.runs <==> q in w.runs) && (q in w.runs ==> v.runs[q] == w.runs[q]))
    decreases |files|
  {
    if files != [] {
      StartEachLeaves(if files[0].supported then StartIntentRun(w, first) else w, first + 1, files[1..]);
    }
  }

  lemma FinishLeaves(w: World, r: nat)
    requires Base(w) && r in w.runs && w.runs[r].AwaitTransfer?
    ensures LeavesTransfers(w, Step(w, TransferSucceeds(r)), TransferSucceeds(r))
  {
    if w.zone.aborted[w.runs[r].controller] { FinishedLate(w, r); } else { FinishedTransfer(w, r); }
  }

  lemma IntentLeaves(w: World, e: Event)
    requires Base(w) && Enabled(w, e) && (e.IntentArrives? || e.IntentRejected?)
    ensures LeavesTransfers(w, Step(w, e), e)
  {
    match e {
      case IntentArrives(r, _, unexpired, _) =>
        FailureKeepsHeap(w.zone, w.runs[r].id, if unexpired then AbortError else ExpiredUpload, w.runs[r].controller);
      case IntentRejected(r, failure) => FailureKeepsHeap(w.zone, w.runs[r].id, failure, w.runs[r].controller);
    }
  }

  lemma FailLeaves(w: World, r: nat, failure: Failure)
    requires Base(w) && r in w.runs && w.runs[r].AwaitTransfer?
    ensures LeavesTransfers(w, Step(w, TransferFails(r, failure)), TransferFails(r, failure))
  {
    FailedKeepsHeap(w, r, failure);
  }

  lemma ReplyLeaves(w: World, r: nat, reply: Reply)
    requires Base(w) && r in w.runs && w.runs[r].AwaitCompletion?
    ensures LeavesTransfers(w, Step(w, CompletionReplies(r, reply)), CompletionReplies(r, reply))
  {
    CompletionEndedShape(w.zone, w.runs[r].id, reply);
  }

  lemma RetryLeaves(w: World, id: nat, unexpired: bool)
    requires Base(w) && Enabled(w, Retry(id, unexpired))
    ensures LeavesTransfers(w, Step(w, Retry(id, unexpired)), Retry(id, unexpired))
  {
    RetryKeepsHeap(w, id, unexpired);
  }

  lemma StepLeaves(w: World, e: Event)
    requires Base(w)
    ensures LeavesTransfers(w, Step(w, e), e)
  {
    if Enabled(w, e) {
      match e {
        case SelectFiles(files) => StartEachLeaves(AppendFiles(w, files), |w.zone.items|, files);
        case IntentArrives(_, _, _, _) => IntentLeaves(w, e);
        case IntentRejected(_, _) => IntentLeaves(w, e);
        case TransferSucceeds(r) => FinishLeaves(w, r);
        case TransferFails(r, failure) => FailLeaves(w, r, failure);
        case CompletionReplies(r, reply) => ReplyLeaves(w, r, reply);
        case Retry(id, unexpired) => RetryLeaves(w, id, unexpired);
        case ResumeUrlArrives(_, _) =>
        case TransferProgress(_, _) =>
        case Unwind(_) =>
        case Cancel(_) =>
        case ServerCompletes(_, _) =>
      }
    }
  }

  /** No other run of a serial world transfers for the session. */
  lemma OnlyTransfer(w: World, r: nat, q: nat)
    requires Inv(w) && AllSerial(w) && r in w.runs && q in w.runs
    requires w.runs[r].AwaitTransfer? && w.runs[q].AwaitTransfer? && w.runs[r].session == w.runs[q].session
    ensures r == q
  {
    assert SessionOf(w, w.runs[r].session, w.runs[r].id) && SessionOf(w, w.runs[q].session, w.runs[q].id);
    assert ItemSerial(w, w.runs[r].id) && Works(w.runs[r], w.runs[r].id) && Works(w.runs[q], w.runs[r].id);
  }

  lemma StepKeepsUrl(w: World, e: Event, r: nat, id: nat, s: nat, intent: Intent, url: string)
    requires Inv(w) && AllSerial(w) && KeepsUrl(w, r, id, s, intent, url) && !(e.ResumeUrlArrives? && e.run == r)
    ensures KeepsUrl(Step(w, e), r, id, s, intent, url)
  {
    var v := Step(w, e);
    StepLeaves(w, e);
    if r in v.runs && v.runs[r].AwaitTransfer? && v.zone.heap[s].resumeUrl != w.zone.heap[s].resumeUrl {
      OnlyTransfer(w, r, e.run);
    }
  }

  lemma {:induction false} ExecKeepsUrl(w: World, events: seq<Event>, r: nat, id: nat, s: nat, intent: Intent,
                                        url: string)
    requires Inv(w) && AllSerial(w) && DocumentsCalled(w) && Serial(w, events) && KeepsUrl(w, r, id, s, intent, url)
    requires forall e <- events :: !(e.ResumeUrlArrives? && e.run == r)
    ensures var v := Exec(w, events); Inv(v) && AllSerial(v) && KeepsUrl(v, r, id, s, intent, url)
    decreases |events|
  {
    if events != [] {
      assert events[0] in events;
      StepKeepsUrl(w, events[0], r, id, s, intent, url);
      StepKeepsInv(w, events[0]);
      StepSerial(w, events[0]);
      StepDocuments(w, events[0]);
      ExecKeepsUrl(Step(w, events[0]), events[1..], r, id, s, intent, url);
    }
  }

  /** The retry goes on from the URL under the same intent, or else it starts over. */
  ghost predicate GoesOn(w: World, id: nat, unexpired: bool, intentId: nat, url: string, same: bool) {
    var v := Step(w, Retry(id, unexpired));
    if same then v.log == w.log + [TransferStarted(intentId, Some(url))]
    else
      && v.log == w.log && id !in v.zone.sessions
      && w.nextRun in v.runs && v.runs[w.nextRun] == AwaitIntent(id, |w.zone.aborted|)
  }

  /** While a run transfers, its session is in the upload phase. */
  lemma TransfersUpload(w: World, r: nat)
    requires Inv(w) && AllSerial(w) && r in w.runs && w.runs[r].AwaitTransfer?
    ensures w.zone.heap[w.runs[r].session].phase == UploadPhase
    ensures w.runs[r].id in w.zone.sessions && w.zone.sessions[w.runs[r].id] == w.runs[r].session
  {
    var id, s := w.runs[r].id, w.runs[r].session;
    NoCallYet(w, r);
    assert SessionOf(w, s, id);
    assert ItemSerial(w, id) && Works(w.runs[r], id) && RunInStep(w, w.runs[r], id);
  }

  /** The item's session is there as it was, unless it is dead. */
  ghost predicate KeptUnless(w: World, id: nat, session: Session, dead: bool) {
    if dead then id !in w.zone.sessions else Has(w, id, session)
  }

  lemma FailedSession(w: World, r: nat, failure: Failure)
    requires Inv(w) && AllSerial(w) && r in w.runs && w.runs[r].AwaitTransfer?
    ensures var session := w.zone.heap[w.runs[r].session];
            KeptUnless(FailTransfer(w, r, failure), w.runs[r].id, session,
                       session.intent.mode == Resumable && Deadly(failure))
  {
    FailureLeavesIdle(w, r, failure);
    DeadlyIff(failure);
    TransfersUpload(w, r);
  }

  lemma RestedKeeps(w: World, v: World, id: nat, session: Session, dead: bool)
    requires Rests(w, v, id) && KeptUnless(w, id, session, dead)
    ensures KeptUnless(v, id, session, dead)
  {
  }

  /** Until it is retried, a failed item keeps its session as it was, unless the failure was deadly. */
  lemma RestedSession(w: World, r: nat, failure: Failure, after: seq<Event>)
    requires Inv(w) && AllSerial(w) && r in w.runs && w.runs[r].AwaitTransfer? && Inv(FailTransfer(w, r, failure))
    requires forall e <- after :: !Retries(e, w.runs[r].id)
    ensures var v, session := Exec(FailTransfer(w, r, failure), after), w.zone.heap[w.runs[r].session];
            && Inv(v)
            && KeptUnless(v, w.runs[r].id, session, session.intent.mode == Resumable && Deadly(failure))
  {
    var failed, session := FailTransfer(w, r, failure), w.zone.heap[w.runs[r].session];
    var dead := session.intent.mode == Resumable && Deadly(failure);
    FailureLeavesIdle(w, r, failure);
    ExecRests(failed, after, w.runs[r].id);
    FailedSession(w, r, failure);
    RestedKeeps(failed, Exec(failed, after), w.runs[r].id, session, dead);
  }

  lemma RetryOfRested(v: World, id: nat, unexpired: bool, session: Session, url: string, dead: bool)
    requires Base(v) && Enabled(v, Retry(id, unexpired))
    requires session.resumeUrl == Some(url) && session.phase == UploadPhase
    requires KeptUnless(v, id, session, session.intent.mode == Resumable && dead)
    ensures GoesOn(v, id, unexpired, session.intent.intentId, url,
                   session.intent.mode == Resumable && url != "" && unexpired && !dead)
  {
    if CanResume(session, unexpired) && !dead {
      RetryResumes(v, id, unexpired, session);
    } else {
      RetryStartsAfresh(v, id, unexpired);
    }
  }

  /** What a retry does after a failed transfer whose session had the URL: whatever happens in between. */
  lemma AfterFailure(w: World, r: nat, failure: Failure, after: seq<Event>, unexpired: bool, url: string)
    requires Inv(w) && AllSerial(w) && Enabled(w, TransferFails(r, failure))
    requires w.zone.heap[w.runs[r].session].resumeUrl == Some(url)
    requires forall e <- after :: !Retries(e, w.runs[r].id)
    requires Enabled(Exec(Step(w, TransferFails(r, failure)), after), Retry(w.runs[r].id, unexpired))
    ensures var id, intent := w.runs[r].id, w.zone.heap[w.runs[r].session].intent;
            GoesOn(Exec(Step(w, TransferFails(r, failure)), after), id, unexpired, intent.intentId, url,
                   intent.mode == Resumable && url != "" && unexpired && !Deadly(failure))
  {
    StepKeepsInv(w, TransferFails(r, failure));
    RestedSession(w, r, failure, after);
    TransfersUpload(w, r);
    RetryOfRested(Exec(FailTransfer(w, r, failure), after), w.runs[r].id, unexpired,
                  w.zone.heap[w.runs[r].session], url, Deadly(failure));
  }

  /** In every run in which retries wait: the last URL that the transport reported for a transfer is the one
      from which the next retry goes on, if the transfer failed without killing the session, the session is
      resumable and its intent is still valid; and else that retry starts over. */
  lemma RetryGoesOnFromLastUrl(before: seq<Event>, w: World, r: nat, url: string, between: seq<Event>, v: World,
                               failure: Failure, after: seq<Event>, u: World, unexpired: bool)
    requires Serial(Init(), before) && w == Exec(Init(), before) && Enabled(w, ResumeUrlArrives(r, url))
    requires Serial(Step(w, ResumeUrlArrives(r, url)), between) && v == Exec(Step(w, ResumeUrlArrives(r, url)), between)
    requires forall e <- between :: !(e.ResumeUrlArrives? && e.run == r)
    requires Enabled(v, TransferFails(r, failure)) && u == Exec(Step(v, TransferFails(r, failure)), after)
    requires forall e <- after :: !Retries(e, w.runs[r].id)
    requires Enabled(u, Retry(w.runs[r].id, unexpired))
    ensures var intent := w.zone.heap[w.runs[r].session].intent;
            GoesOn(u, w.runs[r].id, unexpired, intent.intentId, url,
                   intent.mode == Resumable && url != "" && unexpired && !Deadly(failure))
  {
    SerialWorld(before, w);
    FromLastUrl(w, r, url, between, v, failure, after, u, unexpired);
  }

  lemma SerialWorld(before: seq<Event>, w: World)
    requires Serial(Init(), before) && w == Exec(Init(), before)
    ensures Inv(w) && AllSerial(w) && DocumentsCalled(w)
  {
    InitInv();
    ExecSerial(Init(), before);
  }

  lemma FromLastUrl(w: World, r: nat, url: string, between: seq<Event>, v: World, failure: Failure, after: seq<Event>,
                    u: World, unexpired: bool)
    requires Inv(w) && AllSerial(w) && DocumentsCalled(w) && Enabled(w, ResumeUrlArrives(r, url))
    requires Serial(Step(w, ResumeUrlArrives(r, url)), between) && v == Exec(Step(w, ResumeUrlArrives(r, url)), between)
    requires forall e <- between :: !(e.ResumeUrlArrives? && e.run == r)
    requires Enabled(v, TransferFails(r, failure)) && u == Exec(Step(v, TransferFails(r, failure)), after)
    requires forall e <- after :: !Retries(e, w.runs[r].id)
    requires Enabled(u, Retry(w.runs[r].id, unexpired))
    ensures var intent := w.zone.heap[w.runs[r].session].intent;
            GoesOn(u, w.runs[r].id, unexpired, intent.intentId, url,
                   intent.mode == Resumable && url != "" && unexpired && !Deadly(failure))
  {
    var noted := UrlIsKept(w, r, url);
    StillKept(w, noted, between, r, url);
    AfterFailure(v, r, failure, after, unexpired, url);
  }

  lemma StillKept(w: World, noted: World, between: seq<Event>, r: nat, url: string)
    requires Linked(w) && r in w.runs && w.runs[r].AwaitTransfer?
    requires Inv(noted) && AllSerial(noted) && DocumentsCalled(noted) && Serial(noted, between)
    requires KeepsUrl(noted, r, w.runs[r].id, w.runs[r].session, w.zone.heap[w.runs[r].session].intent, url)
    requires forall e <- between :: !(e.ResumeUrlArrives? && e.run == r)
    ensures var v := Exec(noted, between);
            && Inv(v) && AllSerial(v)
            && KeepsUrl(v, r, w.runs[r].id, w.runs[r].session, w.zone.heap[w.runs[r].session].intent, url)
  {
    ExecKeepsUrl(noted, between, r, w.runs[r].id, w.runs[r].session, w.zone.heap[w.runs[r].session].intent, url);
  }

  lemma UrlIsKept(w: World, r: nat, url: string) returns (v: World)
    requires Inv(w) && AllSerial(w) && DocumentsCalled(w) && Enabled(w, ResumeUrlArrives(r, url))
    ensures v == Step(w, ResumeUrlArrives(r, url)) && Inv(v) && AllSerial(v) && DocumentsCalled(v)
    ensures KeepsUrl(v, r, w.runs[r].id, w.runs[r].session, w.zone.heap[w.runs[r].session].intent, url)
  {
    var e := ResumeUrlArrives(r, url);
    v := Step(w, e);
    StepKeepsInv(w, e);
    StepSerial(w, e);
    StepDocuments(w, e);
    assert ItemSerial(w, w.runs[r].id) && Works(w.runs[r], w.runs[r].id) && RunInStep(w, w.runs[r], w.runs[r].id);
  }
}
