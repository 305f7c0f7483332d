/** What an item shows over whole runs, and when a run is started for a file that failed validation. */
module UploadItems {
  import opened Options
  import opened UploadModel
  import opened UploadRuns
  import opened UploadSafety

  /** The fields of an item agree with the status that it shows. */
  predicate Coherent(item: Item) {
    match item.status
    case RequestingIntent => item.error.None? && item.duplicateOf.None? && item.taskStatus.None?
    case Uploading => item.error.None? && item.duplicateOf.None? && item.taskStatus.None?
    case Verifying => item.error.None?
    case Cancelled => item.error.None?
    case Failed => item.error.Some?
    case Duplicate => item.duplicateOf.Some? && item.taskStatus.None?
    case Registered => item.duplicateOf.None? && item.taskStatus.Some? && item.taskId.Some?
  }

  /** Listed items stay, each with its id and file; items that were coherent, or are new, are coherent. */
  ghost predicate Follows(items: seq<Item>, next: seq<Item>) {
    && |items| <= |next|
    && (forall k :: 0 <= k < |items| ==> next[k].id == items[k].id && next[k].file == items[k].file)
    && (forall k :: 0 <= k < |next| ==> (k < |items| ==> Coherent(items[k])) ==> Coherent(next[k]))
  }

  lemma FollowsTwice(a: seq<Item>, b: seq<Item>, c: seq<Item>)
    requires Follows(a, b) && Follows(b, c)
    ensures Follows(a, c)
  {
  }

  lemma UpdateFollows(items: seq<Item>, id: nat, patch: Patch)
    ensures Follows(items, Update(items, id, patch))
  {
    forall k | 0 <= k < |items| && Coherent(items[k]) ensures Coherent(Update(items, id, patch)[k]) {
      match patch { case ToDuplicate(_) => case _ => }
    }
  }

  lemma FailureFollows(z: Zone, id: nat, failure: Failure, controller: nat)
    requires controller < |z.aborted|
    ensures Follows(z.items, HandleFailure(z, id, failure, controller).items)
  {
    UpdateFollows(z.items, id, ToCancelled);
    UpdateFollows(z.items, id, ToFailed(SessionExpired));
    UpdateFollows(z.items, id, ToFailed(ApiText(failure)));
  }

  lemma {:induction false} StartEachFollows(w: World, first: nat, files: seq<File>)
    ensures Follows(w.zone.items, StartEach(w, first, files).zone.items)
    decreases |files|
  {
    if files != [] {
      var next := if files[0].supported then StartIntentRun(w, first) else w;
      UpdateFollows(w.zone.items, first, ToRequesting);
      StartEachFollows(next, first + 1, files[1..]);
      FollowsTwice(w.zone.items, next.zone.items, StartEach(w, first, files).zone.items);
    }
  }

  lemma BatchFollows(w: World, files: seq<File>)
    ensures Follows(w.zone.items, SelectBatch(w, files).zone.items)
  {
    var listed := AppendFiles(w, files);
    assert Follows(w.zone.items, listed.zone.items);
    StartEachFollows(listed, |w.zone.items|, files);
    FollowsTwice(w.zone.items, listed.zone.items, SelectBatch(w, files).zone.items);
  }

  lemma TransferFailureFollows(w: World, r: nat, failure: Failure)
    requires Linked(w) && r in w.runs && w.runs[r].AwaitTransfer?
    ensures Follows(w.zone.items, FailTransfer(w, r, failure).zone.items)
  {
    var AwaitTransfer(id, s, c, nested) := w.runs[r];
    FailureFollows(w.zone, id, failure, c);
    FailureFollows(w.zone.(sessions := w.zone.sessions - {id}), id, failure, c);
  }

  lemma RunEventFollows(w: World, e: Event)
    requires Enabled(w, e) && OfRun(e)
    ensures Follows(w.zone.items, Apply(w, e).zone.items)
  {
    var id := w.runs[e.run].id;
    match e {
      case IntentArrives(r, intent, unexpired, key) =>
        FailureFollows(w.zone, id, AbortError, w.runs[r].controller);
        FailureFollows(w.zone, id, ExpiredUpload, w.runs[r].controller);
        UpdateFollows(w.zone.items, id, ToUploading);
      case IntentRejected(r, failure) => FailureFollows(w.zone, id, failure, w.runs[r].controller);
      case TransferProgress(r, percent) => UpdateFollows(w.zone.items, id, Progress(percent));
      case ResumeUrlArrives(r, url) =>
      case TransferSucceeds(r) =>
        var call := TransferFinished(w.zone.heap[w.runs[r].session].intent.intentId, w.runs[r].controller);
        TransferFailureFollows(w.(log := w.log + [call]), r, AbortError);
        UpdateFollows(w.zone.items, id, ToVerifying);
      case TransferFails(r, failure) => TransferFailureFollows(w, r, failure);
      case CompletionReplies(r, reply) => ReplyFollows(w.zone, id, reply);
      case Unwind(r) =>
    }
  }

  lemma ReplyFollows(z: Zone, id: nat, reply: Reply)
    ensures Follows(z.items, CompletionEnded(z, id, reply).items)
  {
    match reply {
      case ReplyDuplicate(d) => UpdateFollows(z.items, id, ToDuplicate(d));
      case ReplyRegistered(t, s) => UpdateFollows(z.items, id, ToRegistered(s, t));
      case ReplyInvalid =>
        UpdateFollows(z.items, id, ToFailed(ApiText(OtherError("UPLOAD_COMPLETION_INVALID_OUTCOME"))));
      case ReplyError(f) => UpdateFollows(z.items, id, ToFailed(ApiText(f)));
    }
  }

  lemma StepFollows(w: World, e: Event)
    ensures Follows(w.zone.items, Step(w, e).zone.items)
  {
    if Enabled(w, e) {
      if OfRun(e) {
        RunEventFollows(w, e);
      } else {
        match e {
          case SelectFiles(files) => BatchFollows(w, files);
          case Cancel(id) => UpdateFollows(w.zone.items, id, ToCancelled);
          case Retry(id, unexpired) =>
            UpdateFollows(w.zone.items, id, ToVerifying);
            UpdateFollows(w.zone.items, id, ToUploading);
            UpdateFollows(w.zone.items, id, ToRequesting);
          case ServerCompletes(_, _) =>
        }
      }
    }
  }

  lemma {:induction false} ExecFollows(w: World, events: seq<Event>)
    ensures Follows(w.zone.items, Exec(w, events).zone.items)
    decreases |events|
  {
    if events != [] {
      StepFollows(w, events[0]);
      ExecFollows(Step(w, events[0]), events[1..]);
      FollowsTwice(w.zone.items, Step(w, events[0]).zone.items, Exec(w, events).zone.items);
    }
  }

  /** Whatever the interleaving: a listed item stays listed, with its file, and its fields agree with
      its status.  A failed item says why; a pending or cancelled one shows no error; a duplicate names
      its document, a registered item its task. */
  lemma ItemsShowTheirStatus(before: seq<Event>, after: seq<Event>, id: nat)
    requires id < |Exec(Init(), before).zone.items|
    ensures var items, later := Exec(Init(), before).zone.items, Exec(Exec(Init(), before), after).zone.items;
            id < |later| && later[id].id == id && later[id].file == items[id].file && Coherent(later[id])
  {
    ExecFollows(Init(), before);
    ExecFollows(Exec(Init(), before), after);
    InitInv();
    ExecKeepsInv(Init(), before);
  }

  // ---------- a file that failed validation ----------

  /** The item shows that its format is not supported, and no run was ever started for it. */
  ghost predicate Refused(w: World, id: nat) {
    && id < |w.zone.items| && w.zone.items[id].status == Failed && w.zone.items[id].error == Some(UnsupportedFormat)
    && id !in w.newest && id !in w.zone.sessions && forall r <- w.runs :: w.runs[r].id != id
  }

  predicate Numbers(items: seq<Item>) { forall k :: 0 <= k < |items| ==> items[k].id == k }

  lemma {:induction false} StartEachKeepsRefused(w: World, first: nat, files: seq<File>, id: nat)
    requires Refused(w, id) && Numbers(w.zone.items)
    requires first <= id < first + |files| ==> !files[id - first].supported
    ensures Refused(StartEach(w, first, files), id)
    decreases |files|
  {
    if files != [] {
      StartEachKeepsRefused(if files[0].supported then StartIntentRun(w, first) else w, first + 1, files[1..], id);
    }
  }

  /** selectFiles lists a file that failed validation without starting a run for it. */
  lemma UnsupportedIsRefused(w: World, files: seq<File>, k: nat)
    requires Inv(w) && k < |files| && !files[k].supported
    ensures Refused(Step(w, SelectFiles(files)), |w.zone.items| + k)
  {
    StartEachKeepsRefused(AppendFiles(w, files), |w.zone.items|, files, |w.zone.items| + k);
  }

  lemma TransferFailureElsewhere(w: World, r: nat, failure: Failure, id: nat)
    requires Base(w) && Refused(w, id) && r in w.runs && w.runs[r].AwaitTransfer?
    ensures Refused(FailTransfer(w, r, failure), id)
  {
    FailTransferCloses(w, r, failure);
  }

  lemma IntentElsewhere(w: World, r: nat, intent: Intent, unexpired: bool, key: string, id: nat)
    requires Linked(w) && Numbers(w.zone.items) && Refused(w, id) && r in w.runs && w.runs[r].AwaitIntent?
    ensures Refused(TakeIntent(w, r, intent, unexpired, key), id)
  {
  }

  lemma CompletionElsewhere(w: World, r: nat, reply: Reply, id: nat)
    requires Linked(w) && Numbers(w.zone.items) && Refused(w, id) && r in w.runs && w.runs[r].AwaitCompletion?
    ensures Refused(EndCompletion(w, r, reply), id)
  {
    CompletionEndedShape(w.zone, w.runs[r].id, reply);
  }

  lemma TransferElsewhere(w: World, r: nat, id: nat)
    requires Base(w) && Refused(w, id) && r in w.runs && w.runs[r].AwaitTransfer?
    ensures Refused(EndTransfer(w, r), id)
  {
    var AwaitTransfer(k, s, c, _) := w.runs[r];
    var finished := w.(log := w.log + [TransferFinished(w.zone.heap[s].intent.intentId, c)]);
    TransferFailureElsewhere(finished, r, AbortError, id);
  }

  lemma RunEventKeepsRefused(w: World, e: Event, id: nat)
    requires Base(w) && Refused(w, id) && Enabled(w, e) && OfRun(e)
    ensures Refused(Apply(w, e), id)
  {
    match e {
      case IntentArrives(r, intent, unexpired, key) => IntentElsewhere(w, r, intent, unexpired, key, id);
      case TransferSucceeds(r) => TransferElsewhere(w, r, id);
      case TransferFails(r, failure) => TransferFailureElsewhere(w, r, failure, id);
      case CompletionReplies(r, reply) => CompletionElsewhere(w, r, reply, id);
      case IntentRejected(r, _) => assert w.runs[r].id != id;
      case TransferProgress(r, _) => assert w.runs[r].id != id;
      case ResumeUrlArrives(_, _) =>
      case Unwind(_) =>
    }
  }

  lemma RetryElsewhere(w: World, k: nat, unexpired: bool, id: nat)
    requires Linked(w) && Numbers(w.zone.items) && Refused(w, id) && k != id
    ensures Refused(RetryItem(w, k, unexpired), id)
  {
  }

  lemma StepKeepsRefused(w: World, e: Event, id: nat)
    requires Base(w) && Refused(w, id) && !Retries(e, id)
    ensures Refused(Step(w, e), id)
  {
    if Enabled(w, e) {
      if OfRun(e) {
        RunEventKeepsRefused(w, e, id);
      } else {
        match e {
          case SelectFiles(files) => StartEachKeepsRefused(AppendFiles(w, files), |w.zone.items|, files, id);
          case Retry(k, unexpired) => RetryElsewhere(w, k, unexpired, id);
          case Cancel(k) => assert k != id;
          case ServerCompletes(_, _) =>
        }
      }
    }
  }

  lemma {:induction false} StartEachKeepsNewest(w: World, first: nat, files: seq<File>, id: nat)
    requires id in w.newest
    ensures id in StartEach(w, first, files).newest
    decreases |files|
  {
    if files != [] {
      StartEachKeepsNewest(if files[0].supported then StartIntentRun(w, first) else w, first + 1, files[1..], id);
    }
  }

  lemma {:induction false} ExecKeepsNewest(w: World, events: seq<Event>, id: nat)
    requires id in w.newest
    ensures id in Exec(w, events).newest
    decreases |events|
  {
    if events != [] {
      if events[0].SelectFiles? {
        StartEachKeepsNewest(AppendFiles(w, events[0].files), |w.zone.items|, events[0].files, id);
      }
      ExecKeepsNewest(Step(w, events[0]), events[1..], id);
    }
  }

  /** Retrying a refused item starts a run that asks for an intent: retry does not validate the file
      again. */
  lemma RetryStartsRefused(w: World, e: Event, id: nat)
    requires Inv(w) && Refused(w, id) && Retries(e, id)
    ensures id in Step(w, e).newest && exists r :: r in Step(w, e).runs && Step(w, e).runs[r].id == id
  {
    assert Step(w, e).runs[w.nextRun].id == id;
  }

  /** No run is started for a file that failed validation exactly as long as its item is not retried. */
  lemma {:induction false} RefusedUntilRetried(w: World, events: seq<Event>, id: nat)
    requires Inv(w) && Refused(w, id)
    ensures Refused(Exec(w, events), id) <==> forall e <- events :: !Retries(e, id)
    decreases |events|
  {
    if events != [] {
      if Retries(events[0], id) {
        RetryStartsRefused(w, events[0], id);
        ExecKeepsNewest(Step(w, events[0]), events[1..], id);
      } else {
        StepKeepsRefused(w, events[0], id);
        StepKeepsInv(w, events[0]);
        RefusedUntilRetried(Step(w, events[0]), events[1..], id);
        assert events == [events[0]] + events[1..];
      }
    }
  }

  /** For every selection of files and everything that may follow it: a file that failed validation has
      no run of its own exactly as long as nobody retries its item. */
  lemma UnsupportedStartsIffRetried(w: World, files: seq<File>, k: nat, after: seq<Event>)
    requires Reachable(w) && k < |files| && !files[k].supported
    ensures var listed, id := Step(w, SelectFiles(files)), |w.zone.items| + k;
            Refused(Exec(listed, after), id) <==> forall e <- after :: !Retries(e, id)
  {
    ReachableInv(w);
    StepKeepsInv(w, SelectFiles(files));
    UnsupportedIsRefused(w, files, k);
    RefusedUntilRetried(Step(w, SelectFiles(files)), after, |w.zone.items| + k);
  }
}
