/** The upload component itself (apps/web/components/uploads/upload-zone.tsx): a class whose fields
    are the item list and the two maps, whose controllers and sessions are heap objects compared by
    identity, and whose methods are the stretches of code between two awaits.  Each method is proved
    to change the abstract zone exactly as the model says. */
module UploadComponent {
  import opened Options
  import opened UploadModel
  import opened UploadRuns

  class AbortController {
    ghost const handle: nat
    var aborted: bool

    constructor (ghost handle: nat)
      ensures this.handle == handle && !aborted
    {
      this.handle := handle;
      aborted := false;
    }

    method Abort()
      modifies this
      ensures aborted
    {
      aborted := true;
    }
  }

  class UploadSession {
    ghost const handle: nat
    const intent: Intent
    const idempotencyKey: string
    var phase: Phase
    var resumableUploadUrl: Option<string>

    constructor (intent: Intent, key: string, ghost handle: nat)
      ensures this.handle == handle && Value() == Session(intent, key, UploadPhase, None)
    {
      this.handle := handle;
      this.intent := intent;
      this.idempotencyKey := key;
      phase := UploadPhase;
      resumableUploadUrl := None;
    }

    function Value(): Session
      reads this
    {
      Session(intent, idempotencyKey, phase, resumableUploadUrl)
    }
  }

  /** The world after the first k of the listed files were started. */
  ghost function Started(w: World, first: nat, files: seq<File>, k: nat): World
    requires k <= |files|
  {
    if k == 0 then w
    else
      var before := Started(w, first, files, k - 1);
      if files[k - 1].supported then StartIntentRun(before, first + k - 1) else before
  }

  lemma {:induction false} StartedEach(w: World, first: nat, files: seq<File>, k: nat)
    requires k <= |files|
    ensures StartEach(Started(w, first, files, k), first + k, files[k..]) == StartEach(w, first, files)
  {
    if k == 0 {
      assert files[0..] == files;
    } else {
      StartedEach(w, first, files, k - 1);
      assert files[k - 1..][1..] == files[k..];
    }
  }

  lemma StartedAll(w: World, first: nat, files: seq<File>)
    ensures Started(w, first, files, |files|) == StartEach(w, first, files)
  {
    StartedEach(w, first, files, |files|);
  }

  class UploadZone {
    var items: seq<Item>
    var controllers: map<nat, AbortController>
    var sessions: map<nat, UploadSession>
    var sequence: nat
    ghost var allControllers: seq<AbortController>
    ghost var allSessions: seq<UploadSession>

    ghost predicate Valid()
      reads this, allControllers, allSessions
    {
      && sequence == |items|
      && (forall k :: 0 <= k < |allControllers| ==> allControllers[k].handle == k)
      && (forall k :: 0 <= k < |allSessions| ==> allSessions[k].handle == k)
      && (forall id <- controllers :: Known(controllers[id]))
      && (forall id <- sessions :: KnownSession(sessions[id]))
    }

    ghost predicate Known(c: AbortController)
      reads this
    {
      c.handle < |allControllers| && allControllers[c.handle] == c
    }

    ghost predicate KnownSession(s: UploadSession)
      reads this
    {
      s.handle < |allSessions| && allSessions[s.handle] == s
    }

    /** The zone of the model: objects are replaced by their handles. */
    ghost function View(): Zone
      reads this, allControllers, allSessions
    {
      Zone(items,
           map id | id in controllers :: controllers[id].handle,
           map id | id in sessions :: sessions[id].handle,
           seq(|allControllers|, k requires 0 <= k < |allControllers| reads this, allControllers =>
               allControllers[k].aborted),
           seq(|allSessions|, k requires 0 <= k < |allSessions| reads this, allSessions => allSessions[k].Value()))
    }

    constructor ()
      ensures Valid() && View() == Init().zone
      ensures allControllers == [] && allSessions == []
    {
      items, controllers, sessions, sequence := [], map[], map[], 0;
      allControllers, allSessions := [], [];
    }

    method Update(id: nat, patch: Patch)
      requires Valid()
      modifies this`items
      ensures Valid() && View() == Show(old(View()), id, patch)
    {
      items := UploadModel.Update(items, id, patch);
    }

    method DropSession(id: nat)
      requires Valid()
      modifies this`sessions
      ensures Valid() && View() == old(View()).(sessions := old(View()).sessions - {id})
    {
      sessions := sessions - {id};
    }

    method NewController(id: nat) returns (controller: AbortController)
      requires Valid()
      modifies this`controllers, this`allControllers
      ensures Valid() && fresh(controller) && Known(controller) && controller.handle == |old(View()).aborted|
      ensures allControllers == old(allControllers) + [controller]
      ensures View() == old(View()).(aborted := old(View()).aborted + [false],
                                     controllers := old(View()).controllers[id := controller.handle])
    {
      controller := new AbortController(|allControllers|);
      controllers := controllers[id := controller];
      allControllers := allControllers + [controller];
    }

    method NewSession(id: nat, intent: Intent, key: string) returns (session: UploadSession)
      requires Valid()
      modifies this`sessions, this`allSessions
      ensures Valid() && fresh(session) && KnownSession(session) && session.handle == |old(View()).heap|
      ensures allSessions == old(allSessions) + [session]
      ensures View() == old(View()).(heap := old(View()).heap + [Session(intent, key, UploadPhase, None)],
                                     sessions := old(View()).sessions[id := session.handle])
    {
      session := new UploadSession(intent, key, |allSessions|);
      allSessions := allSessions + [session];
      sessions := sessions[id := session];
    }

    /** createIntentAndUpload up to the await of createUploadIntent. */
    method CreateIntentAndUpload(id: nat) returns (controller: AbortController)
      requires Valid()
      modifies this
      ensures Valid() && fresh(controller) && Known(controller) && controller.handle == |old(View()).aborted|
      ensures allControllers == old(allControllers) + [controller] && allSessions == old(allSessions)
      ensures sequence == old(sequence)
      ensures View() == RequestIntent(old(View()), id)
    {
      DropSession(id);
      controller := NewController(id);
      Update(id, ToRequesting);
    }

    method DeleteController(id: nat, controller: AbortController)
      requires Valid() && Known(controller)
      modifies this`controllers
      ensures Valid() && View() == UploadModel.DeleteController(old(View()), id, controller.handle)
    {
      if id in controllers && controllers[id] == controller {
        controllers := controllers - {id};
      }
    }

    method HandleFailure(id: nat, failure: Failure, controller: AbortController)
      requires Valid() && Known(controller)
      modifies this`items
      ensures Valid() && View() == UploadModel.HandleFailure(old(View()), id, failure, controller.handle)
    {
      if controller.aborted || failure.AbortError? {
        Update(id, ToCancelled);
      } else if failure.ExpiredUpload? {
        Update(id, ToFailed(SessionExpired));
      } else {
        Update(id, ToFailed(ApiText(failure)));
      }
    }

    /** The request for an intent was answered: go on with the transfer, or give up. */
    method IntentArrived(id: nat, controller: AbortController, intent: Intent, unexpired: bool, key: string)
      returns (session: UploadSession?)
      requires Valid() && Known(controller)
      modifies this
      ensures Valid() && Known(controller) && allControllers == old(allControllers)
      ensures session == null <==> IntentRefused(old(View()), controller.handle, unexpired)
      ensures View() == if session == null then RefuseIntent(old(View()), id, controller.handle, unexpired)
                        else OpenSession(old(View()), id, intent, key)
      ensures session != null ==> fresh(session) && KnownSession(session) && session.handle == |old(View()).heap|
    {
      session := null;
      if !unexpired {
        IntentRejected(id, controller, ExpiredUpload);
      } else if controller.aborted {
        IntentRejected(id, controller, AbortError);
      } else {
        session := NewSession(id, intent, key);
        Update(id, ToUploading);
      }
    }

    /** createIntentAndUpload catches a failure: handleFailure, then the finally block. */
    method IntentRejected(id: nat, controller: AbortController, failure: Failure)
      requires Valid() && Known(controller)
      modifies this`items, this`controllers
      ensures Valid() && View() == IntentFailed(old(View()), id, failure, controller.handle)
    {
      HandleFailure(id, failure, controller);
      DeleteController(id, controller);
    }

    method OnResumeUrl(id: nat, session: UploadSession, url: string)
      requires Valid() && KnownSession(session)
      modifies session`resumableUploadUrl
      ensures Valid() && View() == NoteResumeUrl(old(View()), id, session.handle, url)
    {
      if id in sessions && sessions[id] == session {
        session.resumableUploadUrl := Some(url);
      }
    }

    /** The transfer was rejected: the inner catch and finally blocks of performDirectUpload. */
    method TransferRejected(id: nat, session: UploadSession, controller: AbortController, failure: Failure)
      requires Valid() && Known(controller) && KnownSession(session)
      modifies this`items, this`controllers, this`sessions
      ensures Valid() && View() == TransferFailed(old(View()), id, session.handle, failure, controller.handle)
    {
      if session.intent.mode.Resumable? && IsTerminalSessionError(failure) {
        DropSession(id);
      }
      IntentRejected(id, controller, failure);
    }

    /** The transfer went through: give up if the run was cancelled meanwhile, else call for completion. */
    method TransferResolved(id: nat, session: UploadSession, controller: AbortController) returns (completes: bool)
      requires Valid() && Known(controller) && KnownSession(session)
      modifies this`items, this`controllers, this`sessions, session`phase
      ensures Valid() && completes == !old(controller.aborted)
      ensures View() == if completes then TransferCompleted(old(View()), id, session.handle, controller.handle)
                        else TransferFailed(old(View()), id, session.handle, AbortError, controller.handle)
    {
      completes := !controller.aborted;
      if completes {
        DeleteController(id, controller);
        session.phase := CompletionPhase;
        Update(id, ToVerifying);
      } else {
        TransferRejected(id, session, controller, AbortError);
      }
    }

    method CompletionReplied(id: nat, reply: Reply)
      requires Valid()
      modifies this`items, this`sessions
      ensures Valid() && View() == CompletionEnded(old(View()), id, reply)
    {
      match reply {
        case ReplyDuplicate(documentId) =>
          Update(id, ToDuplicate(documentId));
          DropSession(id);
        case ReplyRegistered(taskId, taskStatus) =>
          Update(id, ToRegistered(taskStatus, taskId));
          DropSession(id);
        case ReplyInvalid =>
          Update(id, ToFailed(ApiText(OtherError("UPLOAD_COMPLETION_INVALID_OUTCOME"))));
        case ReplyError(failure) =>
          Update(id, ToFailed(ApiText(failure)));
      }
    }

    method Cancel(id: nat)
      requires Valid()
      modifies this`items, if id in controllers then {controllers[id]} else {}
      ensures Valid() && View() == CancelItem(old(View()), id)
    {
      if id in controllers {
        controllers[id].Abort();
      }
      Update(id, ToCancelled);
    }

    /** retry: nothing for an item that is not listed; else it returns the plan that it chose, and the
        controller and session of the run that it starts. */
    method Retry(id: nat, unexpired: bool)
      returns (plan: Option<RetryPlan>, controller: AbortController?, session: UploadSession?)
      requires Valid()
      modifies this
      ensures Valid()
      ensures var listed := exists item <- old(items) :: item.id == id;
              plan == if listed then Some(PlanRetry(old(View()), id, unexpired)) else None
      ensures plan == None ==> controller == null && session == null && View() == old(View())
      ensures plan == Some(CompleteAgain) ==>
                controller == null && session != null && View() == Show(old(View()), id, ToVerifying)
      ensures plan == Some(ResumeTransfer) ==>
                controller != null && session != null && View() == ReopenTransfer(old(View()), id)
      ensures plan == Some(StartOver) ==>
                controller != null && session == null && View() == RequestIntent(old(View()), id)
      ensures session != null ==> id in old(sessions) && session == old(sessions)[id] && KnownSession(session)
      ensures controller != null ==>
                fresh(controller) && Known(controller) && controller.handle == |old(View()).aborted|
    {
      plan, controller, session := None, null, null;
      if forall item <- items :: item.id != id { return; }
      if id in sessions && sessions[id].phase.CompletionPhase? {
        plan, session := Some(CompleteAgain), sessions[id];
        Update(id, ToVerifying);
      } else if id in sessions && sessions[id].phase.UploadPhase? && sessions[id].intent.mode.Resumable?
                && sessions[id].resumableUploadUrl.Some? && sessions[id].resumableUploadUrl.value != "" && unexpired {
        plan, session := Some(ResumeTransfer), sessions[id];
        controller := NewController(id);
        Update(id, ToUploading);
      } else {
        plan := Some(StartOver);
        controller := CreateIntentAndUpload(id);
      }
    }

    /** selectFiles: list all files, then start an upload for each one that passed validation. */
    method SelectFiles(files: seq<File>, ghost w: World) returns (started: seq<AbortController>)
      requires Valid() && w.zone == View()
      modifies this
      ensures Valid() && View() == SelectBatch(w, files).zone
      ensures allControllers == old(allControllers) + started
    {
      var nextItems := ListFiles(files);
      started := StartUploads(nextItems, files, AppendFiles(w, files));
    }

    method ListFiles(files: seq<File>) returns (nextItems: seq<Item>)
      requires Valid()
      modifies this`items, this`sequence
      ensures Valid() && nextItems == NewItems(|old(items)|, files)
      ensures View() == old(View()).(items := old(items) + nextItems) && items == old(items) + nextItems
    {
      nextItems := [];
      for k := 0 to |files|
        invariant sequence == |items| + k && nextItems == NewItems(|items|, files[..k]) && items == old(items)
      {
        nextItems := nextItems + [NewItem(sequence, files[k])];
        sequence := sequence + 1;
      }
      assert files[..|files|] == files;
      items := items + nextItems;
    }

    /** One turn of the loop over the listed items. */
    method StartUpload(item: Item, ghost now: World) returns (started: seq<AbortController>)
      requires Valid() && now.zone == View()
      modifies this
      ensures Valid() && View() == (if item.error.None? then StartIntentRun(now, item.id) else now).zone
      ensures allControllers == old(allControllers) + started
    {
      started := [];
      if item.error.None? {
        var controller := CreateIntentAndUpload(item.id);
        started := [controller];
      }
    }

    method StartUploads(nextItems: seq<Item>, files: seq<File>, ghost w: World) returns (started: seq<AbortController>)
      requires Valid() && w.zone == View() && |files| <= |items| && nextItems == NewItems(|items| - |files|, files)
      modifies this
      ensures Valid() && View() == StartEach(w, |old(items)| - |files|, files).zone
      ensures allControllers == old(allControllers) + started
    {
      started := [];
      ghost var first := |items| - |files|;
      for k := 0 to |files|
        invariant Valid() && View() == Started(w, first, files, k).zone
        invariant allControllers == old(allControllers) + started
      {
        assert nextItems[k] == NewItem(first + k, files[k]);
        var more := StartUpload(nextItems[k], Started(w, first, files, k));
        started := started + more;
      }
      StartedAll(w, first, files);
    }
  }
}
