/** The upload zone together with everything that is pending: the asynchronous runs suspended at
    an await, the log of calls made so far, and the server.  A step is one atomic stretch of code
    between awaits; any enabled event may come next, so runs of one item may overlap freely. */
module UploadRuns {
  import opened Options
  import opened UploadModel

  /** Who called completeExistingIntent; the first two are upload runs and hold a controller. */
  datatype Origin = FromIntent(controller: nat) | FromResume(controller: nat) | FromRetry

  /** Where a run is suspended. */
  datatype Frame =
    | AwaitIntent(id: nat, controller: nat)
    | AwaitTransfer(id: nat, session: nat, controller: nat, nested: bool)
    | AwaitCompletion(id: nat, session: nat, origin: Origin)
    | Unwinding(id: nat, controller: nat)  // only the outer finally block is left to execute

  datatype Call =
    | TransferStarted(intentId: nat, resumeUrl: Option<string>)
    | UrlIssued(intentId: nat, url: string)
    | TransferFinished(intentId: nat, controller: nat)
    | CompletionCalled(intentId: nat, key: string, origin: Origin)

  datatype Document = Document(intentId: nat, key: string)

  /** `newest` (which controller an item was given last) and `issued` (for which item the server
      issued an intent) only record history. */
  datatype World = World(zone: Zone, runs: map<nat, Frame>, nextRun: nat, newest: map<nat, nat>,
                         issued: map<nat, nat>, log: seq<Call>, documents: seq<Document>)

  datatype Event =
    | SelectFiles(files: seq<File>)
    | IntentArrives(run: nat, intent: Intent, unexpired: bool, key: string)
    | IntentRejected(run: nat, failure: Failure)
    | TransferProgress(run: nat, percent: int)
    | ResumeUrlArrives(run: nat, url: string)
    | TransferSucceeds(run: nat)
    | TransferFails(run: nat, failure: Failure)
    | CompletionReplies(run: nat, reply: Reply)
    | Unwind(run: nat)
    | Cancel(id: nat)
    | Retry(id: nat, unexpired: bool)
    | ServerCompletes(intentId: nat, key: string)

  predicate Retries(e: Event, id: nat) { e.Retry? && e.id == id }

  function Init(): World {
    World(Zone([], map[], map[], [], []), map[], 0, map[], map[], [], [])
  }

  predicate FrameLinked(z: Zone, frame: Frame) {
    && frame.id < |z.items|
    && (frame.AwaitIntent? || frame.AwaitTransfer? || frame.Unwinding? ==> frame.controller < |z.aborted|)
    && (frame.AwaitTransfer? || frame.AwaitCompletion? ==> frame.session < |z.heap|)
    && (frame.AwaitCompletion? && !frame.origin.FromRetry? ==> frame.origin.controller < |z.aborted|)
  }

  /** Every handle refers to something that was created. */
  predicate Linked(w: World) {
    && (forall r <- w.runs :: FrameLinked(w.zone, w.runs[r]))
    && (forall id <- w.zone.controllers :: w.zone.controllers[id] < |w.zone.aborted|)
    && (forall id <- w.zone.sessions :: w.zone.sessions[id] < |w.zone.heap|)
  }

  predicate Enabled(w: World, e: Event) {
    && Linked(w)
    && match e
       case SelectFiles(_) => true
       case IntentArrives(r, intent, _, _) =>
         r in w.runs && w.runs[r].AwaitIntent? && intent.intentId !in w.issued
       case IntentRejected(r, _) => r in w.runs && w.runs[r].AwaitIntent?
       case TransferProgress(r, _) => r in w.runs && w.runs[r].AwaitTransfer?
       case ResumeUrlArrives(r, _) => r in w.runs && w.runs[r].AwaitTransfer?
       case TransferSucceeds(r) => r in w.runs && w.runs[r].AwaitTransfer?
       case TransferFails(r, _) => r in w.runs && w.runs[r].AwaitTransfer?
       case CompletionReplies(r, _) => r in w.runs && w.runs[r].AwaitCompletion?
       case Unwind(r) => r in w.runs && w.runs[r].Unwinding?
       case Cancel(id) => id < |w.zone.items| && Cancellable(w.zone.items[id])
       case Retry(id, _) => id < |w.zone.items| && Retryable(w.zone.items[id])
       case ServerCompletes(i, k) => exists call <- w.log :: IsCompletion(call, i, k)
  }

  predicate IsCompletion(call: Call, intentId: nat, key: string) {
    call.CompletionCalled? && call.intentId == intentId && call.key == key
  }

  /** A new run is started in the given frame. */
  function Spawn(w: World, z: Zone, frame: Frame, calls: seq<Call>): World {
    w.(zone := z, runs := w.runs[w.nextRun := frame], nextRun := w.nextRun + 1, log := w.log + calls)
  }

  /** Run r is suspended again, in another frame. */
  function Suspend(w: World, r: nat, z: Zone, frame: Frame, calls: seq<Call>): World {
    w.(zone := z, runs := w.runs[r := frame], log := w.log + calls)
  }

  function Finish(w: World, r: nat, z: Zone): World {
    w.(zone := z, runs := w.runs - {r})
  }

  /** createIntentAndUpload is called for an item. */
  function StartIntentRun(w: World, id: nat): World {
    var controller := |w.zone.aborted|;
    Spawn(w.(newest := w.newest[id := controller]), RequestIntent(w.zone, id), AwaitIntent(id, controller), [])
  }

  function NewItems(first: nat, files: seq<File>): (r: seq<Item>) {
    seq(|files|, k requires 0 <= k < |files| => NewItem(first + k, files[k]))
  }

  function StartEach(w: World, first: nat, files: seq<File>): World
    decreases |files|
  {
    if files == [] then w
    else StartEach(if files[0].supported then StartIntentRun(w, first) else w, first + 1, files[1..])
  }

  function AppendFiles(w: World, files: seq<File>): World {
    w.(zone := w.zone.(items := w.zone.items + NewItems(|w.zone.items|, files)))
  }

  /** selectFiles lists all files first and only then starts the uploads. */
  function SelectBatch(w: World, files: seq<File>): World {
    StartEach(AppendFiles(w, files), |w.zone.items|, files)
  }

  function Apply(w: World, e: Event): World
    requires Enabled(w, e)
  {
    match e
    case SelectFiles(files) => SelectBatch(w, files)
    case IntentArrives(r, intent, unexpired, key) => TakeIntent(w, r, intent, unexpired, key)
    case IntentRejected(r, failure) =>
      Finish(w, r, IntentFailed(w.zone, w.runs[r].id, failure, w.runs[r].controller))
    case TransferProgress(r, percent) => w.(zone := Show(w.zone, w.runs[r].id, Progress(percent)))
    case ResumeUrlArrives(r, url) =>
      var frame := w.runs[r];
      w.(zone := NoteResumeUrl(w.zone, frame.id, frame.session, url),
         log := w.log + [UrlIssued(w.zone.heap[frame.session].intent.intentId, url)])
    case TransferSucceeds(r) => EndTransfer(w, r)
    case TransferFails(r, failure) => FailTransfer(w, r, failure)
    case CompletionReplies(r, reply) => EndCompletion(w, r, reply)
    case Unwind(r) => Finish(w, r, DeleteController(w.zone, w.runs[r].id, w.runs[r].controller))
    case Cancel(id) => w.(zone := CancelItem(w.zone, id))
    case Retry(id, unexpired) => RetryItem(w, id, unexpired)
    case ServerCompletes(i, k) => w.(documents := RegisterOnce(w.documents, i, k))
  }

  function TakeIntent(w: World, r: nat, intent: Intent, unexpired: bool, key: string): World
    requires Linked(w) && r in w.runs && w.runs[r].AwaitIntent?
  {
    var AwaitIntent(id, controller) := w.runs[r];
    var known := w.(issued := w.issued[intent.intentId := id]);
    if IntentRefused(w.zone, controller, unexpired)
    then Finish(known, r, RefuseIntent(w.zone, id, controller, unexpired))
    else Suspend(known, r, OpenSession(w.zone, id, intent, key),
                 AwaitTransfer(id, |w.zone.heap|, controller, true), [TransferStarted(intent.intentId, None)])
  }

  /** After performDirectUpload has failed, a nested call still has the outer finally to execute. */
  function LeaveTransfer(w: World, r: nat, z: Zone): World
    requires r in w.runs && w.runs[r].AwaitTransfer?
  {
    if w.runs[r].nested then Suspend(w, r, z, Unwinding(w.runs[r].id, w.runs[r].controller), [])
    else Finish(w, r, z)
  }

  function FailTransfer(w: World, r: nat, failure: Failure): World
    requires Linked(w) && r in w.runs && w.runs[r].AwaitTransfer?
  {
    var frame := w.runs[r];
    LeaveTransfer(w, r, TransferFailed(w.zone, frame.id, frame.session, failure, frame.controller))
  }

  function EndTransfer(w: World, r: nat): World
    requires Linked(w) && r in w.runs && w.runs[r].AwaitTransfer?
  {
    var AwaitTransfer(id, session, controller, nested) := w.runs[r];
    var Session(intent, key, _, _) := w.zone.heap[session];
    var finished := w.(log := w.log + [TransferFinished(intent.intentId, controller)]);
    if w.zone.aborted[controller] then FailTransfer(finished, r, AbortError)
    else
      var origin := if nested then FromIntent(controller) else FromResume(controller);
      Suspend(finished, r, TransferCompleted(w.zone, id, session, controller),
              AwaitCompletion(id, session, origin), [CompletionCalled(intent.intentId, key, origin)])
  }

  /** completeExistingIntent has ended; a call from createIntentAndUpload still has its finally block. */
  function LeaveCompletion(w: World, r: nat, z: Zone): World
    requires r in w.runs && w.runs[r].AwaitCompletion?
  {
    var AwaitCompletion(id, _, origin) := w.runs[r];
    if origin.FromIntent? then Suspend(w, r, z, Unwinding(id, origin.controller), []) else Finish(w, r, z)
  }

  function EndCompletion(w: World, r: nat, reply: Reply): World
    requires r in w.runs && w.runs[r].AwaitCompletion?
  {
    LeaveCompletion(w, r, CompletionEnded(w.zone, w.runs[r].id, reply))
  }

  /** A retry that calls for completion again, with the session's intent and key. */
  function CompletedAgain(w: World, id: nat): World
    requires Linked(w) && id in w.zone.sessions
  {
    var session := w.zone.sessions[id];
    var Session(intent, key, _, _) := w.zone.heap[session];
    Spawn(w, Show(w.zone, id, ToVerifying), AwaitCompletion(id, session, FromRetry),
          [CompletionCalled(intent.intentId, key, FromRetry)])
  }

  /** A retry that goes on with the session's transfer. */
  function ResumedTransfer(w: World, id: nat): World
    requires Linked(w) && id in w.zone.sessions
  {
    var session := w.zone.sessions[id];
    var controller := |w.zone.aborted|;
    Spawn(w.(newest := w.newest[id := controller]), ReopenTransfer(w.zone, id),
          AwaitTransfer(id, session, controller, false),
          [TransferStarted(w.zone.heap[session].intent.intentId, w.zone.heap[session].resumeUrl)])
  }

  function RetryItem(w: World, id: nat, unexpired: bool): World
    requires Linked(w)
  {
    match PlanRetry(w.zone, id, unexpired)
    case CompleteAgain => CompletedAgain(w, id)
    case ResumeTransfer => ResumedTransfer(w, id)
    case StartOver => StartIntentRun(w, id)
  }

  /** A server that is idempotent on (intent, key): a repeated completion registers nothing new. */
  function RegisterOnce(documents: seq<Document>, intentId: nat, key: string): seq<Document> {
    if Document(intentId, key) in documents then documents else documents + [Document(intentId, key)]
  }

  /** An event that is not possible in a state changes nothing. */
  function Step(w: World, e: Event): World {
    if Enabled(w, e) then Apply(w, e) else w
  }

  function Exec(w: World, events: seq<Event>): World
    decreases |events|
  {
    if events == [] then w else Exec(Step(w, events[0]), events[1..])
  }
}
