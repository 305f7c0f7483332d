/** The state of the upload zone and the effect of each stretch of code between two awaits
    (apps/web/components/uploads/upload-zone.tsx).

    Abort controllers and upload sessions are heap objects in the source: they are shared between
    overlapping runs and compared by identity.  Here they are handles, numbered in the order in
    which they are created, into the sequences `aborted` and `heap`. */
module UploadModel {
  import opened Options

  datatype Status = RequestingIntent | Uploading | Verifying | Registered | Duplicate | Failed | Cancelled
  datatype Mode = Signed | Resumable
  datatype Phase = UploadPhase | CompletionPhase

  datatype Failure =
    | AbortError
    | ExpiredUpload
    | StorageError(status: int, code: string)
    | OtherError(message: string)

  /** What an item shows as its error; the translation of a failure to text is kept abstract. */
  datatype ErrorText = UnsupportedFormat | SessionExpired | ApiText(failure: Failure)

  datatype File = File(name: string, supported: bool)
  datatype Intent = Intent(intentId: nat, mode: Mode)

  datatype Item = Item(id: nat, file: File, status: Status, progress: int, error: Option<ErrorText>,
                       duplicateOf: Option<string>, taskStatus: Option<string>, taskId: Option<string>)

  datatype Session = Session(intent: Intent, key: string, phase: Phase, resumeUrl: Option<string>)

  datatype Zone = Zone(items: seq<Item>, controllers: map<nat, nat>, sessions: map<nat, nat>,
                       aborted: seq<bool>, heap: seq<Session>)

  /** The partial updates that the source applies to an item. */
  datatype Patch =
    | ToRequesting
    | ToUploading
    | Progress(percent: int)
    | ToVerifying
    | ToDuplicate(documentId: string)
    | ToRegistered(taskStatus: string, taskId: string)
    | ToFailed(text: ErrorText)
    | ToCancelled

  datatype Reply =
    | ReplyRegistered(taskId: string, taskStatus: string)
    | ReplyDuplicate(documentId: string)
    | ReplyInvalid
    | ReplyError(failure: Failure)

  function Patched(item: Item, patch: Patch): Item {
    match patch
    case ToRequesting =>
      item.(status := RequestingIntent, progress := 0, error := None, duplicateOf := None, taskStatus := None)
    case ToUploading =>
      item.(status := Uploading, progress := 0, error := None, duplicateOf := None, taskStatus := None)
    case Progress(percent) => item.(progress := percent)
    case ToVerifying => item.(status := Verifying, progress := 100, error := None)
    case ToDuplicate(documentId) =>
      item.(status := Duplicate, duplicateOf := Some(documentId), taskStatus := None)
    case ToRegistered(taskStatus, taskId) =>
      item.(status := Registered, duplicateOf := None, taskStatus := Some(taskStatus), taskId := Some(taskId))
    case ToFailed(text) => item.(status := Failed, error := Some(text))
    case ToCancelled => item.(status := Cancelled, error := None)
  }

  function Update(items: seq<Item>, id: nat, patch: Patch): (r: seq<Item>) {
    seq(|items|, k requires 0 <= k < |items| =>
      if items[k].id == id then Patched(items[k], patch) else items[k])
  }

  function NewItem(id: nat, file: File): Item {
    Item(id, file, if file.supported then RequestingIntent else Failed, 0,
         if file.supported then None else Some(UnsupportedFormat), None, None, None)
  }

  function Show(z: Zone, id: nat, patch: Patch): Zone {
    z.(items := Update(z.items, id, patch))
  }

  /** The start of createIntentAndUpload, up to the request for an intent. */
  function RequestIntent(z: Zone, id: nat): Zone {
    Show(z.(sessions := z.sessions - {id},
            aborted := z.aborted + [false],
            controllers := z.controllers[id := |z.aborted|]), id, ToRequesting)
  }

  function DeleteController(z: Zone, id: nat, controller: nat): Zone {
    if id in z.controllers && z.controllers[id] == controller
    then z.(controllers := z.controllers - {id})
    else z
  }

  function HandleFailure(z: Zone, id: nat, failure: Failure, controller: nat): Zone
    requires controller < |z.aborted|
  {
    if z.aborted[controller] || failure.AbortError? then Show(z, id, ToCancelled)
    else if failure.ExpiredUpload? then Show(z, id, ToFailed(SessionExpired))
    else Show(z, id, ToFailed(ApiText(failure)))
  }

  /** createIntentAndUpload ends with a failure before any transfer was started. */
  function IntentFailed(z: Zone, id: nat, failure: Failure, controller: nat): Zone
    requires controller < |z.aborted|
  {
    DeleteController(HandleFailure(z, id, failure, controller), id, controller)
  }

  /** The intent is refused because it already expired, or because the run was cancelled meanwhile. */
  predicate IntentRefused(z: Zone, controller: nat, unexpired: bool)
    requires controller < |z.aborted|
  {
    !unexpired || z.aborted[controller]
  }

  function RefuseIntent(z: Zone, id: nat, controller: nat, unexpired: bool): Zone
    requires controller < |z.aborted|
  {
    IntentFailed(z, id, if unexpired then AbortError else ExpiredUpload, controller)
  }

  /** A session is opened for the intent and its transfer is started. */
  function OpenSession(z: Zone, id: nat, intent: Intent, key: string): Zone {
    StartTransfer(z.(heap := z.heap + [Session(intent, key, UploadPhase, None)],
                     sessions := z.sessions[id := |z.heap|]), id)
  }

  function StartTransfer(z: Zone, id: nat): Zone {
    Show(z, id, ToUploading)
  }

  /** The transport reports a URL from which the transfer can be resumed. */
  function NoteResumeUrl(z: Zone, id: nat, session: nat, url: string): Zone
    requires session < |z.heap|
  {
    if id in z.sessions && z.sessions[id] == session
    then z.(heap := z.heap[session := z.heap[session].(resumeUrl := Some(url))])
    else z
  }

  predicate IsTerminalSessionError(failure: Failure) {
    failure.StorageError? &&
    (failure.status in [401, 403, 404, 410] || failure.code in ["TUS_OFFSET_INVALID", "TUS_LOCATION_INVALID"])
  }

  function TransferFailed(z: Zone, id: nat, session: nat, failure: Failure, controller: nat): Zone
    requires controller < |z.aborted| && session < |z.heap|
  {
    var dropped := if z.heap[session].intent.mode.Resumable? && IsTerminalSessionError(failure)
                   then z.(sessions := z.sessions - {id})
                   else z;
    DeleteController(HandleFailure(dropped, id, failure, controller), id, controller)
  }

  /** The bytes are in the store: the session moves to its completion phase. */
  function TransferCompleted(z: Zone, id: nat, session: nat, controller: nat): Zone
    requires session < |z.heap|
  {
    var released := DeleteController(z, id, controller);
    Show(released.(heap := released.heap[session := released.heap[session].(phase := CompletionPhase)]),
         id, ToVerifying)
  }

  function CompletionEnded(z: Zone, id: nat, reply: Reply): Zone {
    match reply
    case ReplyDuplicate(documentId) =>
      var shown := Show(z, id, ToDuplicate(documentId));
      shown.(sessions := shown.sessions - {id})
    case ReplyRegistered(taskId, taskStatus) =>
      var shown := Show(z, id, ToRegistered(taskStatus, taskId));
      shown.(sessions := shown.sessions - {id})
    case ReplyInvalid => Show(z, id, ToFailed(ApiText(OtherError("UPLOAD_COMPLETION_INVALID_OUTCOME"))))
    case ReplyError(failure) => Show(z, id, ToFailed(ApiText(failure)))
  }

  function CancelItem(z: Zone, id: nat): Zone
    requires id in z.controllers ==> z.controllers[id] < |z.aborted|
  {
    var signalled := if id in z.controllers then z.(aborted := z.aborted[z.controllers[id] := true]) else z;
    Show(signalled, id, ToCancelled)
  }

  datatype RetryPlan = CompleteAgain | ResumeTransfer | StartOver

  function PlanRetry(z: Zone, id: nat, unexpired: bool): RetryPlan
    requires id in z.sessions ==> z.sessions[id] < |z.heap|
  {
    if id !in z.sessions then StartOver
    else
      var session := z.heap[z.sessions[id]];
      if session.phase.CompletionPhase? then CompleteAgain
      else if session.intent.mode.Resumable? && session.resumeUrl.Some? && session.resumeUrl.value != "" && unexpired
      then ResumeTransfer
      else StartOver
  }

  /** A retried resumable transfer gets a controller of its own and keeps the session. */
  function ReopenTransfer(z: Zone, id: nat): Zone {
    StartTransfer(z.(aborted := z.aborted + [false], controllers := z.controllers[id := |z.aborted|]), id)
  }

  /** The buttons of an item (apps/web/components/uploads/upload-progress.tsx). */
  predicate Cancellable(item: Item) { item.status.RequestingIntent? || item.status.Uploading? }

  predicate Retryable(item: Item) { item.status.Failed? || item.status.Cancelled? }
}
