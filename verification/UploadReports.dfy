/** What an item says when it is not being worked on: the outcome of the last event that closed it. */
module UploadReports {
  import opened Options
  import opened UploadModel
  import opened UploadRuns
  import opened UploadSafety
  import opened UploadItems

  predicate IsCancelled(item: Item) { item.status == Cancelled && item.error == None }

  predicate FailedWith(item: Item, text: ErrorText) { item.status == Failed && item.error == Some(text) }

  /** The item after a failure: cancelled if the run was aborted or the failure is an abort, whatever it
      is; else failed, with the text of an expired session or of the failure itself. */
  predicate TellsFailure(item: Item, aborted: bool, failure: Failure) {
    if aborted || failure == AbortError then IsCancelled(item)
    else FailedWith(item, if failure == ExpiredUpload then SessionExpired else ApiText(failure))
  }

  /** The item after an answer: it carries what the answer says. */
  predicate TellsReply(item: Item, reply: Reply) {
    match reply
    case ReplyRegistered(taskId, taskStatus) =>
      && item.status == Registered && item.taskId == Some(taskId) && item.taskStatus == Some(taskStatus)
      && item.duplicateOf == None
    case ReplyDuplicate(documentId) =>
      item.status == Duplicate && item.duplicateOf == Some(documentId) && item.taskStatus == None
    case ReplyInvalid => FailedWith(item, ApiText(OtherError("UPLOAD_COMPLETION_INVALID_OUTCOME")))
    case ReplyError(failure) => FailedWith(item, ApiText(failure))
  }

  predicate OfItem(w: World, r: nat, id: nat) { r in w.runs && w.runs[r].id == id }

  predicate Aborted(w: World, r: nat)
    requires Linked(w) && r in w.runs && Holding(w.runs[r])
  {
    w.zone.aborted[w.runs[r].controller]
  }

  /** The event ends what is being done for the item. */
  predicate Ends(w: World, e: Event, id: nat) {
    && Enabled(w, e)
    && match e
       case IntentArrives(r, _, unexpired, _) => OfItem(w, r, id) && (!unexpired || Aborted(w, r))
       case IntentRejected(r, _) => OfItem(w, r, id)
       case TransferFails(r, _) => OfItem(w, r, id)
       case TransferSucceeds(r) => OfItem(w, r, id) && Aborted(w, r)
       case CompletionReplies(r, _) => OfItem(w, r, id)
       case Cancel(k) => k == id
       case _ => false
  }

  /** The item says what such an event means. */
  predicate Tells(w: World, e: Event, id: nat, item: Item)
    requires Ends(w, e, id)
  {
    match e
    case IntentArrives(r, _, unexpired, _) =>
      TellsFailure(item, Aborted(w, r), if unexpired then AbortError else ExpiredUpload)
    case IntentRejected(r, failure) => TellsFailure(item, Aborted(w, r), failure)
    case TransferFails(r, failure) => TellsFailure(item, Aborted(w, r), failure)
    case TransferSucceeds(_) => IsCancelled(item)
    case CompletionReplies(_, reply) => TellsReply(item, reply)
    case Cancel(_) => IsCancelled(item)
  }

  lemma FailureTold(items: seq<Item>, z: Zone, id: nat, failure: Failure, controller: nat)
    requires items == z.items && id < |items| && forall k :: 0 <= k < |items| ==> items[k].id == k
    requires controller < |z.aborted|
    ensures var v := HandleFailure(z, id, failure, controller);
            && |v.items| == |items| && TellsFailure(v.items[id], z.aborted[controller], failure)
            && forall k :: 0 <= k < |items| && k != id ==> v.items[k] == items[k]
  {
    ShownAt(items, id, ToCancelled);
    ShownAt(items, id, ToFailed(SessionExpired));
    ShownAt(items, id, ToFailed(ApiText(failure)));
  }

  lemma ReplyTold(z: Zone, id: nat, reply: Reply)
    requires id < |z.items| && forall k :: 0 <= k < |z.items| ==> z.items[k].id == k
    ensures var v := CompletionEnded(z, id, reply);
            && |v.items| == |z.items| && TellsReply(v.items[id], reply)
            && forall k :: 0 <= k < |z.items| && k != id ==> v.items[k] == z.items[k]
  {
    match reply {
      case ReplyDuplicate(documentId) => ShownAt(z.items, id, ToDuplicate(documentId));
      case ReplyRegistered(taskId, taskStatus) => ShownAt(z.items, id, ToRegistered(taskStatus, taskId));
      case ReplyInvalid => ShownAt(z.items, id, ToFailed(ApiText(OtherError("UPLOAD_COMPLETION_INVALID_OUTCOME"))));
      case ReplyError(failure) => ShownAt(z.items, id, ToFailed(ApiText(failure)));
    }
  }

  /** Only the item changed, and it says what the event means. */
  ghost predicate ToldBy(w: World, v: World, e: Event, id: nat)
    requires Ends(w, e, id)
  {
    && id < |v.zone.items| == |w.zone.items| && Tells(w, e, id, v.zone.items[id])
    && forall k :: 0 <= k < |w.zone.items| && k != id ==> v.zone.items[k] == w.zone.items[k]
  }

  lemma TransferFailureTold(w: World, r: nat, failure: Failure)
    requires Base(w) && r in w.runs && w.runs[r].AwaitTransfer?
    ensures var v, id := FailTransfer(w, r, failure), w.runs[r].id;
            && id < |v.zone.items| == |w.zone.items| && TellsFailure(v.zone.items[id], Aborted(w, r), failure)
            && forall k :: 0 <= k < |w.zone.items| && k != id ==> v.zone.items[k] == w.zone.items[k]
  {
    var AwaitTransfer(id, s, c, _) := w.runs[r];
    FailureTold(w.zone.items, w.zone, id, failure, c);
    FailureTold(w.zone.items, w.zone.(sessions := w.zone.sessions - {id}), id, failure, c);
  }

  lemma IntentEndTold(w: World, e: Event, id: nat)
    requires Base(w) && Ends(w, e, id) && (e.IntentArrives? || e.IntentRejected?)
    ensures ToldBy(w, Step(w, e), e, id)
  {
    var c := w.runs[e.run].controller;
    match e {
      case IntentArrives(r, _, unexpired, _) =>
        FailureTold(w.zone.items, w.zone, id, if unexpired then AbortError else ExpiredUpload, c);
      case IntentRejected(r, failure) => FailureTold(w.zone.items, w.zone, id, failure, c);
    }
  }

  lemma AbortedSuccessTold(w: World, r: nat)
    requires Base(w) && r in w.runs && w.runs[r].AwaitTransfer? && Aborted(w, r)
    ensures ToldBy(w, Step(w, TransferSucceeds(r)), TransferSucceeds(r), w.runs[r].id)
  {
    var call := TransferFinished(w.zone.heap[w.runs[r].session].intent.intentId, w.runs[r].controller);
    TransferFailureTold(w.(log := w.log + [call]), r, AbortError);
  }

  lemma EndTold(w: World, e: Event, id: nat)
    requires Base(w) && Ends(w, e, id)
    ensures ToldBy(w, Step(w, e), e, id)
  {
    match e {
      case IntentArrives(_, _, _, _) => IntentEndTold(w, e, id);
      case IntentRejected(_, _) => IntentEndTold(w, e, id);
      case TransferFails(r, failure) => TransferFailureTold(w, r, failure);
      case TransferSucceeds(r) => AbortedSuccessTold(w, r);
      case CompletionReplies(r, reply) => ReplyTold(w.zone, id, reply);
      case Cancel(_) => ShownAt(w.zone.items, id, ToCancelled);
    }
  }

  /** In every reachable world: after an event that ends what is done for an item, the item says what the
      event means, in the event's own words, and no other item changes. */
  lemma ItemTellsItsEnd(w: World, e: Event, id: nat)
    requires Reachable(w) && Ends(w, e, id)
    ensures var v := Step(w, e);
            && id < |v.zone.items| == |w.zone.items| && Tells(w, e, id, v.zone.items[id])
            && forall k :: 0 <= k < |w.zone.items| && k != id ==> v.zone.items[k] == w.zone.items[k]
  {
    ReachableInv(w);
    EndTold(w, e, id);
  }

  // ---------- and no item says anything else ----------

  predicate Closed(item: Item) {
    item.status.Registered? || item.status.Duplicate? || item.status.Failed? || item.status.Cancelled?
  }

  /** The two items say the same. */
  predicate SaysSame(a: Item, b: Item) {
    && a.file == b.file && a.status == b.status && a.error == b.error && a.duplicateOf == b.duplicateOf
    && a.taskStatus == b.taskStatus && a.taskId == b.taskId
  }

  /** The item was listed like that, because its file failed validation. */
  predicate ListedAsFailed(item: Item) { !item.file.supported && FailedWith(item, UnsupportedFormat) }

  /** Why an item is closed after a step: it was, or it was listed so, or the step closed it. */
  ghost predicate Explained(w: World, v: World, e: Event, id: nat)
    requires id < |v.zone.items|
  {
    || !Closed(v.zone.items[id])
    || (id < |w.zone.items| && SaysSame(w.zone.items[id], v.zone.items[id]))
    || (id >= |w.zone.items| && ListedAsFailed(v.zone.items[id]))
    || (Ends(w, e, id) && Tells(w, e, id, v.zone.items[id]))
  }

  lemma {:induction false} StartEachExplained(w: World, first: nat, files: seq<File>, id: nat)
    requires id < |w.zone.items| && forall k :: 0 <= k < |w.zone.items| ==> w.zone.items[k].id == k
    ensures var v := StartEach(w, first, files);
            && |v.zone.items| == |w.zone.items|
            && (!Closed(v.zone.items[id]) || v.zone.items[id] == w.zone.items[id])
    decreases |files|
  {
    if files != [] {
      StartEachExplained(if files[0].supported then StartIntentRun(w, first) else w, first + 1, files[1..], id);
    }
  }

  lemma OthersExplained(w: World, v: World, e: Event, k: nat, id: nat)
    requires k < |w.zone.items| == |v.zone.items| && id < |w.zone.items|
    requires forall j :: 0 <= j < |w.zone.items| && j != k ==> v.zone.items[j] == w.zone.items[j]
    requires Explained(w, v, e, k)
    ensures Explained(w, v, e, id)
  {
  }

  /** The events that do not close an item leave it as it was, or open it. */
  lemma OpeningExplained(w: World, e: Event, k: nat, patch: Patch)
    requires Base(w) && k < |w.zone.items|
    requires patch.ToRequesting? || patch.ToUploading? || patch.ToVerifying? || patch.Progress?
    requires Step(w, e).zone.items == Update(w.zone.items, k, patch)
    ensures Explained(w, Step(w, e), e, k)
    ensures forall j :: 0 <= j < |w.zone.items| && j != k ==> Step(w, e).zone.items[j] == w.zone.items[j]
  {
    ShownAt(w.zone.items, k, patch);
  }

  lemma RunEventExplained(w: World, e: Event, id: nat)
    requires Base(w) && Enabled(w, e) && OfRun(e) && id < |w.zone.items|
    ensures |Step(w, e).zone.items| == |w.zone.items| && Explained(w, Step(w, e), e, id)
  {
    var k := w.runs[e.run].id;
    if Ends(w, e, k) {
      EndTold(w, e, k);
      OthersExplained(w, Step(w, e), e, k, id);
    } else {
      match e {
        case IntentArrives(r, _, _, _) => OpeningExplained(w, e, k, ToUploading);
        case TransferProgress(r, percent) => OpeningExplained(w, e, k, Progress(percent));
        case TransferSucceeds(r) => OpeningExplained(w, e, k, ToVerifying);
        case ResumeUrlArrives(_, _) =>
        case Unwind(_) =>
      }
    }
  }

  lemma RetryExplained(w: World, k: nat, unexpired: bool, id: nat)
    requires Base(w) && Enabled(w, Retry(k, unexpired)) && id < |w.zone.items|
    ensures var v := Step(w, Retry(k, unexpired));
            |v.zone.items| == |w.zone.items| && Explained(w, v, Retry(k, unexpired), id)
  {
    match PlanRetry(w.zone, k, unexpired) {
      case CompleteAgain => OpeningExplained(w, Retry(k, unexpired), k, ToVerifying);
      case ResumeTransfer => OpeningExplained(w, Retry(k, unexpired), k, ToUploading);
      case StartOver => OpeningExplained(w, Retry(k, unexpired), k, ToRequesting);
    }
  }

  lemma SelectExplained(w: World, files: seq<File>, id: nat)
    requires Base(w) && id < |w.zone.items| + |files|
    ensures var v := Step(w, SelectFiles(files));
            |v.zone.items| == |w.zone.items| + |files| && Explained(w, v, SelectFiles(files), id)
  {
    StartEachExplained(AppendFiles(w, files), |w.zone.items|, files, id);
  }

  lemma StepExplained(w: World, e: Event, id: nat)
    requires Base(w) && id < |Step(w, e).zone.items|
    ensures |w.zone.items| <= |Step(w, e).zone.items| && Explained(w, Step(w, e), e, id)
  {
    if Enabled(w, e) {
      if OfRun(e) {
        RunEventCounts(w, e);
        RunEventExplained(w, e, id);
      } else {
        match e {
          case SelectFiles(files) => SelectCounts(w, files); SelectExplained(w, files, id);
          case Retry(k, unexpired) => RetryExplained(w, k, unexpired, id);
          case Cancel(k) => EndTold(w, e, k); OthersExplained(w, Step(w, e), e, k, id);
          case ServerCompletes(_, _) =>
        }
      }
    }
  }

  lemma RunEventCounts(w: World, e: Event)
    requires Base(w) && Enabled(w, e) && OfRun(e)
    ensures |Step(w, e).zone.items| == |w.zone.items|
  {
    RunEventExplained(w, e, w.runs[e.run].id);
  }

  lemma SelectCounts(w: World, files: seq<File>)
    requires Base(w)
    ensures |Step(w, SelectFiles(files)).zone.items| == |w.zone.items| + |files|
  {
    if |w.zone.items| + |files| > 0 {
      SelectExplained(w, files, 0);
    } else {
      assert files == [];
    }
  }

  /** Event k closed the item with what it says, and since then the item says the same. */
  ghost predicate ToldAt(events: seq<Event>, k: nat, id: nat, item: Item)
    requires k < |events|
  {
    && Ends(Exec(Init(), events[..k]), events[k], id) && Tells(Exec(Init(), events[..k]), events[k], id, item)
    && forall j :: k < j <= |events| ==>
         id < |Exec(Init(), events[..j]).zone.items| && SaysSame(Exec(Init(), events[..j]).zone.items[id], item)
  }

  lemma Last(events: seq<Event>)
    requires events != []
    ensures Exec(Init(), events) == Step(Exec(Init(), events[..|events| - 1]), events[|events| - 1])
  {
    var init, last := events[..|events| - 1], events[|events| - 1];
    ExecAppends(Init(), init, [last]);
    assert events == init + [last] && [last][1..] == [];
    assert Exec(Exec(Init(), init), [last]) == Step(Exec(Init(), init), last);
  }

  lemma StillTold(events: seq<Event>, k: nat, id: nat, before: Item, item: Item)
    requires k < |events| - 1 && ToldAt(events[..|events| - 1], k, id, before) && SaysSame(before, item)
    requires id < |Exec(Init(), events).zone.items| && item == Exec(Init(), events).zone.items[id]
    ensures ToldAt(events, k, id, item)
  {
    var init := events[..|events| - 1];
    assert init[..k] == events[..k];
    forall j | k < j <= |events|
      ensures id < |Exec(Init(), events[..j]).zone.items| && SaysSame(Exec(Init(), events[..j]).zone.items[id], item)
    {
      if j < |events| { assert init[..j] == events[..j]; } else { assert events[..j] == events; }
    }
  }

  lemma ToldLast(events: seq<Event>, id: nat)
    requires events != [] && id < |Exec(Init(), events).zone.items|
    requires var w, e := Exec(Init(), events[..|events| - 1]), events[|events| - 1];
             Ends(w, e, id) && Tells(w, e, id, Exec(Init(), events).zone.items[id])
    ensures ToldAt(events, |events| - 1, id, Exec(Init(), events).zone.items[id])
  {
    assert events[..|events|] == events;
  }

  /** Over every run: an item that is registered, a duplicate, failed or cancelled says what the last event
      that closed it means, in that event's own words; or it was listed as failed, and is so still. */
  lemma {:induction false} ClosedItemsTellTheirEnd(events: seq<Event>, id: nat)
    requires id < |Exec(Init(), events).zone.items| && Closed(Exec(Init(), events).zone.items[id])
    ensures var item := Exec(Init(), events).zone.items[id];
            ListedAsFailed(item) || exists k :: 0 <= k < |events| && ToldAt(events, k, id, item)
    decreases |events|
  {
    if events != [] {
      var init, e := events[..|events| - 1], events[|events| - 1];
      var w, item := Exec(Init(), init), Exec(Init(), events).zone.items[id];
      Last(events);
      InitInv();
      ExecKeepsInv(Init(), init);
      StepExplained(w, e, id);
      if Ends(w, e, id) && Tells(w, e, id, item) {
        ToldLast(events, id);
      } else if id < |w.zone.items| && SaysSame(w.zone.items[id], item) {
        ClosedItemsTellTheirEnd(init, id);
        if k :| 0 <= k < |init| && ToldAt(init, k, id, w.zone.items[id]) {
          StillTold(events, k, id, w.zone.items[id], item);
        }
      }
    }
  }

  // ---------- an item always has a way on ----------

  lemma {:induction false} StartEachStays(w: World, first: nat, files: seq<File>, id: nat)
    requires id < |w.zone.items| && w.zone.items[id].status == RequestingIntent
    ensures var v := StartEach(w, first, files);
            && id < |v.zone.items| && v.zone.items[id].status == RequestingIntent
            && v.zone.items[id].file == w.zone.items[id].file
    decreases |files|
  {
    if files != [] {
      StartEachStays(if files[0].supported then StartIntentRun(w, first) else w, first + 1, files[1..], id);
    }
  }

  /** In every reachable world: a file that passed validation is listed as requesting its intent, and a run
      of its own waits for it; one that did not is listed as failed, without a run. */
  lemma SelectedFilesStart(w: World, files: seq<File>, k: nat)
    requires Reachable(w) && k < |files|
    ensures var v, id := Step(w, SelectFiles(files)), |w.zone.items| + k;
            && id < |v.zone.items| && v.zone.items[id].file == files[k]
            && if files[k].supported then
                 && v.zone.items[id].status == RequestingIntent
                 && exists r :: r in v.runs && v.runs[r].AwaitIntent? && v.runs[r].id == id
               else ListedAsFailed(v.zone.items[id]) && forall r <- v.runs :: v.runs[r].id != id
  {
    var v, id := Step(w, SelectFiles(files)), |w.zone.items| + k;
    ReachableInv(w);
    StepKeepsInv(w, SelectFiles(files));
    if files[k].supported {
      StartEachStays(AppendFiles(w, files), |w.zone.items|, files, id);
      var r :| r in v.runs && AtStage(v.runs[r], id, RequestingIntent);
    } else {
      UnsupportedIsRefused(w, files, k);
      StartEachKeepsFile(AppendFiles(w, files), |w.zone.items|, files, id);
    }
  }

  lemma {:induction false} StartEachKeepsFile(w: World, first: nat, files: seq<File>, id: nat)
    requires id < |w.zone.items|
    ensures var v := StartEach(w, first, files); id < |v.zone.items| && v.zone.items[id].file == w.zone.items[id].file
    decreases |files|
  {
    if files != [] {
      StartEachKeepsFile(if files[0].supported then StartIntentRun(w, first) else w, first + 1, files[1..], id);
    }
  }

  /** In every reachable world, every listed item is registered or a duplicate, or can be retried, or has a
      run pending at the stage that it shows; and what can be cancelled is a run that asks for its intent or
      transfers. */
  lemma NoDeadEnd(w: World, id: nat, unexpired: bool)
    requires Reachable(w) && id < |w.zone.items|
    ensures var status := w.zone.items[id].status;
            || status == Registered || status == Duplicate || Enabled(w, Retry(id, unexpired))
            || exists r :: r in w.runs && AtStage(w.runs[r], id, status)
    ensures Enabled(w, Cancel(id)) <==>
              exists r :: r in w.runs && Holding(w.runs[r]) && AtStage(w.runs[r], id, w.zone.items[id].status)
  {
    ReachableInv(w);
    if Busy(w.zone.items[id].status) { NoItemStuck(w, id); }
  }
}
