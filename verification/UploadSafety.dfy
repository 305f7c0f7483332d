/** What every interleaving of uploads keeps: theorems about all event sequences of UploadRuns. */
module UploadSafety {
  import opened Options
  import opened UploadModel
  import opened UploadRuns

  // ---------- the invariant ----------

  /** The run still holds its controller: its transfer has not ended. */
  predicate Holding(frame: Frame) { frame.AwaitIntent? || frame.AwaitTransfer? }

  predicate Carries(frame: Frame, id: nat, controller: nat) {
    Holding(frame) && frame.id == id && frame.controller == controller
  }

  ghost predicate InTransfer(w: World, id: nat, controller: nat) {
    exists r :: r in w.runs && Carries(w.runs[r], id, controller)
  }

  /** The controller exists, and no run holds it any more. */
  ghost predicate Spent(w: World, controller: nat) {
    controller < |w.zone.aborted| && forall r <- w.runs :: Holding(w.runs[r]) ==> w.runs[r].controller != controller
  }

  ghost predicate Numbered(w: World) {
    && (forall k :: 0 <= k < |w.zone.items| ==> w.zone.items[k].id == k)
    && (forall r <- w.runs :: r < w.nextRun)
    && (forall id <- w.zone.controllers :: id < |w.zone.items|)
    && (forall id <- w.zone.sessions :: id < |w.zone.items|)
    && (forall id <- w.newest :: id < |w.zone.items| && w.newest[id] < |w.zone.aborted|)
  }

  /** Each controller belongs to one run; controllers of ended transfers are out of reach. */
  ghost predicate ControllersOwned(w: World) {
    && (forall r, q :: r in w.runs && q in w.runs && r != q && Holding(w.runs[r]) && Holding(w.runs[q])
          ==> w.runs[r].controller != w.runs[q].controller)
    && (forall r <- w.runs :: w.runs[r].Unwinding? ==> Spent(w, w.runs[r].controller))
    && (forall r <- w.runs :: w.runs[r].AwaitCompletion? && !w.runs[r].origin.FromRetry?
          ==> Spent(w, w.runs[r].origin.controller))
  }

  /** controllers[id] is the newest controller of the item while its transfer has not ended. */
  ghost predicate ControllersExact(w: World) {
    forall id: nat :: ExactAt(w, id)
  }

  ghost predicate ExactAt(w: World, id: nat) {
    && (id in w.zone.controllers <==> id in w.newest && InTransfer(w, id, w.newest[id]))
    && (id in w.zone.controllers ==> w.zone.controllers[id] == w.newest[id])
  }

  /** The stage of the run that a busy status speaks of. */
  predicate AtStage(frame: Frame, id: nat, status: Status) {
    frame.id == id &&
    match status
    case RequestingIntent => frame.AwaitIntent?
    case Uploading => frame.AwaitTransfer?
    case Verifying => frame.AwaitCompletion?
    case _ => false
  }

  predicate Busy(status: Status) { status.RequestingIntent? || status.Uploading? || status.Verifying? }

  /** Every busy item, but possibly the one given, is worked on at the stage that it shows. */
  ghost predicate NoneStuckBut(w: World, free: int) {
    forall id: nat :: id < |w.zone.items| && id != free && Busy(w.zone.items[id].status)
      ==> exists r :: r in w.runs && AtStage(w.runs[r], id, w.zone.items[id].status)
  }

  ghost predicate NoneStuck(w: World) { NoneStuckBut(w, -1) }

  ghost predicate SessionsOwned(w: World) {
    && (forall s, t :: 0 <= s < t < |w.zone.heap| ==> w.zone.heap[s].intent.intentId != w.zone.heap[t].intent.intentId)
    && (forall s :: 0 <= s < |w.zone.heap| ==> w.zone.heap[s].intent.intentId in w.issued)
    && (forall id <- w.zone.sessions :: SessionOf(w, w.zone.sessions[id], id))
    && (forall r <- w.runs :: w.runs[r].AwaitTransfer? || w.runs[r].AwaitCompletion?
          ==> SessionOf(w, w.runs[r].session, w.runs[r].id))
    && (forall r <- w.runs :: w.runs[r].AwaitCompletion? ==> InCompletion(w, w.runs[r].session))
  }

  predicate InCompletion(w: World, session: nat) {
    session < |w.zone.heap| && w.zone.heap[session].phase.CompletionPhase?
  }

  predicate SessionOf(w: World, session: nat, id: nat) {
    session < |w.zone.heap| && w.zone.heap[session].intent.intentId in w.issued
    && w.issued[w.zone.heap[session].intent.intentId] == id
  }

  /** The sessions agree with the log. */
  ghost predicate SessionsLogged(w: World) {
    && (forall s :: 0 <= s < |w.zone.heap| && w.zone.heap[s].resumeUrl.Some?
          ==> UrlIssued(w.zone.heap[s].intent.intentId, w.zone.heap[s].resumeUrl.value) in w.log)
    && (forall s :: 0 <= s < |w.zone.heap| && w.zone.heap[s].phase.CompletionPhase?
          ==> TransferFinishedIn(w.log, w.zone.heap[s].intent.intentId)
              && UploadRunCompleted(w.log, w.zone.heap[s].intent.intentId))
    && (forall call <- w.log :: call.CompletionCalled? ==> exists s :: BackedBy(w, call, s))
  }

  predicate BackedBy(w: World, call: Call, s: nat)
    requires call.CompletionCalled?
  {
    s < |w.zone.heap| && w.zone.heap[s].intent.intentId == call.intentId && w.zone.heap[s].key == call.key
    && w.zone.heap[s].phase.CompletionPhase?
  }

  ghost predicate TransferFinishedIn(log: seq<Call>, intentId: nat) {
    exists call <- log :: call.TransferFinished? && call.intentId == intentId
  }

  ghost predicate UploadRunCompleted(log: seq<Call>, intentId: nat) {
    exists call <- log :: call.CompletionCalled? && call.intentId == intentId && !call.origin.FromRetry?
  }

  /** What the log itself promises at position k about the calls before it. */
  ghost predicate Justified(log: seq<Call>, k: nat)
    requires k < |log|
  {
    match log[k]
    case TransferStarted(i, url) => url.Some? ==> UrlIssued(i, url.value) in log[..k]
    case CompletionCalled(i, _, origin) =>
      TransferFinishedIn(log[..k], i) && (origin.FromRetry? ==> UploadRunCompleted(log[..k], i))
    case _ => true
  }

  ghost predicate LogOrdered(log: seq<Call>) {
    forall k :: 0 <= k < |log| ==> Justified(log, k)
  }

  ghost predicate CallersNotAborted(w: World) {
    forall call <- w.log :: call.CompletionCalled? && !call.origin.FromRetry?
      ==> Spent(w, call.origin.controller) && !w.zone.aborted[call.origin.controller]
  }

  ghost predicate ControllersInv(w: World) {
    Linked(w) && Numbered(w) && ControllersOwned(w) && ControllersExact(w) && CallersNotAborted(w)
  }

  ghost predicate SessionsInv(w: World) {
    SessionsOwned(w) && SessionsLogged(w) && LogOrdered(w.log)
  }

  ghost predicate Inv(w: World) {
    ControllersInv(w) && NoneStuck(w) && SessionsInv(w)
  }

  // ---------- the invariant, one group at a time ----------

  lemma ShownAt(items: seq<Item>, id: nat, patch: Patch)
    requires id < |items| && forall k :: 0 <= k < |items| ==> items[k].id == k
    ensures Update(items, id, patch) == items[id := Patched(items[id], patch)]
  {
  }

  /** No call of more is a completion. */
  predicate NoCompletion(more: seq<Call>) { forall call <- more :: !call.CompletionCalled? }

  /** The runs other than r are untouched, and so are the items other than id. */
  ghost predicate OnlyRun(w: World, v: World, r: nat, id: nat) {
    && w.nextRun <= v.nextRun
    && (r in v.runs ==> r < v.nextRun && v.runs[r].id == id && FrameLinked(v.zone, v.runs[r]))
    && (r in w.runs ==> w.runs[r].id == id)
    && (forall q :: q != r ==> (q in v.runs <==> q in w.runs))
    && (forall q :: q != r && q in w.runs ==> v.runs[q] == w.runs[q])
    && |v.zone.items| == |w.zone.items| && id < |w.zone.items|
    && (forall k :: 0 <= k < |w.zone.items| ==> v.zone.items[k].id == k)
    && (forall k :: 0 <= k < |w.zone.items| && k != id ==> v.zone.items[k].status == w.zone.items[k].status)
    && |w.zone.heap| <= |v.zone.heap|
    && (forall k <- v.zone.sessions :: k < |w.zone.items| && v.zone.sessions[k] < |v.zone.heap|)
  }

  /** The three ways in which a step can change the controllers. */
  ghost predicate Acquires(w: World, v: World, id: nat) {
    && w.nextRun in v.runs && Carries(v.runs[w.nextRun], id, |w.zone.aborted|)
    && v.zone.aborted == w.zone.aborted + [false]
    && v.zone.controllers == w.zone.controllers[id := |w.zone.aborted|]
    && v.newest == w.newest[id := |w.zone.aborted|]
  }

  ghost predicate Keeps(w: World, v: World, r: nat) {
    && v.zone.aborted == w.zone.aborted && v.zone.controllers == w.zone.controllers && v.newest == w.newest
    && (r in w.runs && Holding(w.runs[r]) <==> r in v.runs && Holding(v.runs[r]))
    && (r in v.runs && Holding(v.runs[r]) ==> v.runs[r].controller == w.runs[r].controller)
    && (r in v.runs && v.runs[r].Unwinding? ==> Spent(w, v.runs[r].controller))
    && (r in v.runs && v.runs[r].AwaitCompletion? && !v.runs[r].origin.FromRetry? ==>
          Spent(w, v.runs[r].origin.controller))
  }

  ghost predicate Releases(w: World, v: World, r: nat, id: nat, c: nat) {
    && r in w.runs && Carries(w.runs[r], id, c)
    && v.zone.aborted == w.zone.aborted && v.newest == w.newest
    && v.zone.controllers == DeleteController(w.zone, id, c).controllers
    && (r in v.runs ==>
        || v.runs[r] == Unwinding(id, c)
        || (v.runs[r].AwaitCompletion? && (v.runs[r].origin.FromRetry? || v.runs[r].origin.controller == c)))
  }

  lemma LinksAfter(w: World, v: World, r: nat, id: nat, c: nat)
    requires Linked(w) && Numbered(w) && OnlyRun(w, v, r, id)
    requires Acquires(w, v, id) || Keeps(w, v, r) || Releases(w, v, r, id, c)
    ensures Linked(v) && Numbered(v)
  {
  }

  /** Spent controllers stay spent; the released controller becomes spent. */
  lemma SpentAfter(w: World, v: World, r: nat, id: nat, c: nat, d: nat)
    requires Linked(w) && Numbered(w) && ControllersOwned(w) && OnlyRun(w, v, r, id)
    requires (r == w.nextRun && Acquires(w, v, id)) || Keeps(w, v, r) || Releases(w, v, r, id, c)
    requires Spent(w, d) || (Releases(w, v, r, id, c) && d == c)
    ensures Spent(v, d)
  {
  }

  lemma OwnedAfter(w: World, v: World, r: nat, id: nat, c: nat)
    requires Linked(w) && Numbered(w) && ControllersOwned(w) && OnlyRun(w, v, r, id)
    requires (r == w.nextRun && Acquires(w, v, id)) || Keeps(w, v, r) || Releases(w, v, r, id, c)
    ensures ControllersOwned(v)
  {
    forall q | q in v.runs && v.runs[q].Unwinding? ensures Spent(v, v.runs[q].controller) {
      SpentAfter(w, v, r, id, c, v.runs[q].controller);
    }
    forall q | q in v.runs && v.runs[q].AwaitCompletion? && !v.runs[q].origin.FromRetry?
      ensures Spent(v, v.runs[q].origin.controller)
    {
      SpentAfter(w, v, r, id, c, v.runs[q].origin.controller);
    }
  }

  lemma CallersAfter(w: World, v: World, r: nat, id: nat, c: nat, more: seq<Call>)
    requires ControllersInv(w) && OnlyRun(w, v, r, id)
    requires (r == w.nextRun && Acquires(w, v, id)) || Keeps(w, v, r) || Releases(w, v, r, id, c)
    requires v.log == w.log + more
    requires forall call <- more :: call.CompletionCalled? && !call.origin.FromRetry?
               ==> call.origin.controller == c && Releases(w, v, r, id, c) && !w.zone.aborted[c]
    ensures CallersNotAborted(v)
  {
    forall call | call in v.log && call.CompletionCalled? && !call.origin.FromRetry?
      ensures Spent(v, call.origin.controller) && !v.zone.aborted[call.origin.controller]
    {
      SpentAfter(w, v, r, id, c, call.origin.controller);
    }
  }

  lemma InTransferElsewhere(w: World, v: World, r: nat, id: nat, k: nat, c: nat)
    requires OnlyRun(w, v, r, id)
    requires r in w.runs && Carries(w.runs[r], k, c) <==> r in v.runs && Carries(v.runs[r], k, c)
    ensures InTransfer(v, k, c) <==> InTransfer(w, k, c)
  {
    if InTransfer(w, k, c) {
      var q :| q in w.runs && Carries(w.runs[q], k, c);
      assert q in v.runs && Carries(v.runs[q], k, c);
    }
    if InTransfer(v, k, c) {
      var q :| q in v.runs && Carries(v.runs[q], k, c);
      assert q in w.runs && Carries(w.runs[q], k, c);
    }
  }

  lemma ExactAfter(w: World, v: World, r: nat, id: nat, c: nat)
    requires Linked(w) && Numbered(w) && ControllersOwned(w) && ControllersExact(w) && OnlyRun(w, v, r, id)
    requires (r == w.nextRun && Acquires(w, v, id)) || Keeps(w, v, r) || Releases(w, v, r, id, c)
    ensures ControllersExact(v)
  {
    forall k: nat ensures ExactAt(v, k) {
      ExactAtAfter(w, v, r, id, c, k);
    }
  }

  lemma ExactAtAfter(w: World, v: World, r: nat, id: nat, c: nat, k: nat)
    requires Linked(w) && Numbered(w) && ControllersOwned(w) && ExactAt(w, k) && OnlyRun(w, v, r, id)
    requires (r == w.nextRun && Acquires(w, v, id)) || Keeps(w, v, r) || Releases(w, v, r, id, c)
    ensures ExactAt(v, k)
  {
    if r == w.nextRun && Acquires(w, v, id) {
      if k == id {
        assert Carries(v.runs[r], id, v.newest[id]);
      } else if k in w.newest {
        InTransferElsewhere(w, v, r, id, k, w.newest[k]);
      }
    } else if k in w.newest {
      if Keeps(w, v, r) || w.newest[k] != c || k != id {
        InTransferElsewhere(w, v, r, id, k, w.newest[k]);
      } else {
        assert InTransfer(w, id, c);
        SpentAfter(w, v, r, id, c, c);
      }
    }
  }

  lemma ControllersAfter(w: World, v: World, r: nat, id: nat, c: nat, more: seq<Call>)
    requires ControllersInv(w) && OnlyRun(w, v, r, id)
    requires (r == w.nextRun && Acquires(w, v, id)) || Keeps(w, v, r) || Releases(w, v, r, id, c)
    requires v.log == w.log + more
    requires forall call <- more :: call.CompletionCalled? && !call.origin.FromRetry?
               ==> call.origin.controller == c && Releases(w, v, r, id, c) && !w.zone.aborted[c]
    ensures ControllersInv(v)
  {
    LinksAfter(w, v, r, id, c);
    OwnedAfter(w, v, r, id, c);
    ExactAfter(w, v, r, id, c);
    CallersAfter(w, v, r, id, c, more);
  }

  lemma NoneStuckAfter(w: World, v: World, r: nat, id: nat)
    requires NoneStuckBut(w, id) && OnlyRun(w, v, r, id)
    requires Busy(v.zone.items[id].status) ==>
               || (r in v.runs && AtStage(v.runs[r], id, v.zone.items[id].status))
               || (v.zone.items[id].status == w.zone.items[id].status && NoneStuck(w)
                   && (r in w.runs ==> w.runs[r].Unwinding? || (r in v.runs && v.runs[r] == w.runs[r])))
    ensures NoneStuck(v)
  {
    forall k: nat | k < |v.zone.items| && Busy(v.zone.items[k].status)
      ensures exists q :: q in v.runs && AtStage(v.runs[q], k, v.zone.items[k].status)
    {
      if k == id && r in v.runs && AtStage(v.runs[r], id, v.zone.items[id].status) {
      } else {
        var q :| q in w.runs && AtStage(w.runs[q], k, w.zone.items[k].status);
        assert q in v.runs && AtStage(v.runs[q], k, v.zone.items[k].status);
      }
    }
  }

  lemma LogGrows(log: seq<Call>, more: seq<Call>)
    requires LogOrdered(log)
    requires forall k :: |log| <= k < |log + more| ==> Justified(log + more, k)
    ensures LogOrdered(log + more)
  {
    forall k | 0 <= k < |log + more| ensures Justified(log + more, k) {
      if k < |log| {
        assert (log + more)[..k] == log[..k];
        assert Justified(log, k);
      }
    }
  }

  /** A session of w as it may look after a step: only its phase and its URL can change, both with
      the log's consent. */
  ghost predicate Evolves(w: World, v: World, s: nat)
    requires s < |w.zone.heap| && s < |v.zone.heap|
  {
    var before, after := w.zone.heap[s], v.zone.heap[s];
    && after.intent == before.intent && after.key == before.key
    && (before.phase.CompletionPhase? ==> after.phase.CompletionPhase?)
    && (after.phase != before.phase ==>
          TransferFinishedIn(v.log, after.intent.intentId) && UploadRunCompleted(v.log, after.intent.intentId))
    && (after.resumeUrl.Some? && after.resumeUrl != before.resumeUrl ==>
          UrlIssued(after.intent.intentId, after.resumeUrl.value) in v.log)
  }

  ghost predicate HeapGrows(w: World, v: World) {
    && |w.zone.heap| <= |v.zone.heap| <= |w.zone.heap| + 1
    && (forall s :: 0 <= s < |w.zone.heap| ==> Evolves(w, v, s))
    && (forall i <- w.issued :: i in v.issued && v.issued[i] == w.issued[i])
    && (|v.zone.heap| == |w.zone.heap| + 1 ==>
        var added := v.zone.heap[|w.zone.heap|];
        added.phase.UploadPhase? && added.resumeUrl.None?
        && added.intent.intentId !in w.issued && added.intent.intentId in v.issued)
  }

  lemma SessionsAfter(w: World, v: World, r: nat, id: nat, more: seq<Call>)
    requires SessionsInv(w) && OnlyRun(w, v, r, id) && HeapGrows(w, v)
    requires forall k <- v.zone.sessions :: SessionOf(v, v.zone.sessions[k], k)
    requires r in v.runs && (v.runs[r].AwaitTransfer? || v.runs[r].AwaitCompletion?) ==>
               SessionOf(v, v.runs[r].session, id)
    requires r in v.runs && v.runs[r].AwaitCompletion? ==> InCompletion(v, v.runs[r].session)
    requires v.log == w.log + more
    requires forall k :: |w.log| <= k < |v.log| ==> Justified(v.log, k)
    requires forall call <- more :: call.CompletionCalled? ==> exists s :: BackedBy(v, call, s)
    ensures SessionsInv(v)
  {
    LogGrows(w.log, more);
    forall s, t | 0 <= s < t < |v.zone.heap|
      ensures v.zone.heap[s].intent.intentId != v.zone.heap[t].intent.intentId
    {
      assert Evolves(w, v, s);
      if t < |w.zone.heap| { assert Evolves(w, v, t); }
    }
    forall s | 0 <= s < |w.zone.heap| ensures v.zone.heap[s].intent.intentId in v.issued {
      assert Evolves(w, v, s);
    }
    forall q | q in v.runs && (v.runs[q].AwaitTransfer? || v.runs[q].AwaitCompletion?)
      ensures SessionOf(v, v.runs[q].session, v.runs[q].id)
      ensures v.runs[q].AwaitCompletion? ==> InCompletion(v, v.runs[q].session)
    {
      if q != r { assert Evolves(w, v, v.runs[q].session); }
    }
    SessionsLoggedAfter(w, v, more);
  }

  lemma SessionsLoggedAfter(w: World, v: World, more: seq<Call>)
    requires SessionsLogged(w) && HeapGrows(w, v)
    requires v.log == w.log + more
    requires forall call <- more :: call.CompletionCalled? ==> exists s :: BackedBy(v, call, s)
    ensures SessionsLogged(v)
  {
    forall s | 0 <= s < |v.zone.heap| && v.zone.heap[s].phase.CompletionPhase?
      ensures TransferFinishedIn(v.log, v.zone.heap[s].intent.intentId)
      ensures UploadRunCompleted(v.log, v.zone.heap[s].intent.intentId)
    {
      assert Evolves(w, v, s);
      if w.zone.heap[s].phase.CompletionPhase? { Remembers(w.log, more, w.zone.heap[s].intent.intentId); }
    }
    forall s | 0 <= s < |v.zone.heap| && v.zone.heap[s].resumeUrl.Some?
      ensures UrlIssued(v.zone.heap[s].intent.intentId, v.zone.heap[s].resumeUrl.value) in v.log
    {
      assert Evolves(w, v, s);
    }
    forall call | call in v.log && call.CompletionCalled? ensures exists s :: BackedBy(v, call, s) {
      if call in w.log {
        var s :| BackedBy(w, call, s);
        assert Evolves(w, v, s);
        assert BackedBy(v, call, s);
      }
    }
  }

  lemma Remembers(log: seq<Call>, more: seq<Call>, i: nat)
    ensures TransferFinishedIn(log, i) ==> TransferFinishedIn(log + more, i)
    ensures UploadRunCompleted(log, i) ==> UploadRunCompleted(log + more, i)
  {
    if TransferFinishedIn(log, i) {
      var call :| call in log && call.TransferFinished? && call.intentId == i;
      assert call in log + more;
    }
    if UploadRunCompleted(log, i) {
      var call :| call in log && call.CompletionCalled? && call.intentId == i && !call.origin.FromRetry?;
      assert call in log + more;
    }
  }

  // ---------- every step keeps the invariant ----------

  lemma InitInv()
    ensures Inv(Init())
  {
  }

  ghost predicate StatusBacked(w: World, v: World, r: nat, id: nat)
    requires id < |w.zone.items| == |v.zone.items|
  {
    || !Busy(v.zone.items[id].status)
    || (r in v.runs && AtStage(v.runs[r], id, v.zone.items[id].status))
    || (v.zone.items[id].status == w.zone.items[id].status
        && (r in w.runs ==> w.runs[r].Unwinding? || (r in v.runs && v.runs[r] == w.runs[r])))
  }

  ghost predicate SessionsFollow(w: World, v: World, r: nat, id: nat) {
    && HeapGrows(w, v)
    && (forall k <- v.zone.sessions :: SessionOf(v, v.zone.sessions[k], k))
    && (r in v.runs && (v.runs[r].AwaitTransfer? || v.runs[r].AwaitCompletion?) ==> SessionOf(v, v.runs[r].session, id))
    && (r in v.runs && v.runs[r].AwaitCompletion? ==> InCompletion(v, v.runs[r].session))
  }

  /** The step moved run r, of item id, and nothing else; c is the controller it released, if any. */
  ghost predicate Moved(w: World, v: World, r: nat, id: nat, c: nat) {
    && OnlyRun(w, v, r, id)
    && ((r == w.nextRun && Acquires(w, v, id)) || Keeps(w, v, r) || Releases(w, v, r, id, c))
    && StatusBacked(w, v, r, id) && SessionsFollow(w, v, r, id)
  }

  /** What the moves are derived from. */
  ghost predicate Base(w: World) { Linked(w) && Numbered(w) && SessionsOwned(w) }

  lemma MoveKeepsInv(w: World, v: World, r: nat, id: nat, c: nat, more: seq<Call>)
    requires ControllersInv(w) && SessionsInv(w) && Moved(w, v, r, id, c) && NoneStuckBut(w, id)
    requires NoneStuck(w) || !Busy(v.zone.items[id].status)
             || (r in v.runs && AtStage(v.runs[r], id, v.zone.items[id].status))
    requires v.log == w.log + more
    requires forall call <- more :: call.CompletionCalled? && !call.origin.FromRetry?
               ==> call.origin.controller == c && Releases(w, v, r, id, c) && !w.zone.aborted[c]
    requires forall k :: |w.log| <= k < |v.log| ==> Justified(v.log, k)
    requires forall call <- more :: call.CompletionCalled? ==> exists s :: BackedBy(v, call, s)
    ensures Inv(v)
  {
    ControllersAfter(w, v, r, id, c, more);
    NoneStuckAfter(w, v, r, id);
    SessionsAfter(w, v, r, id, more);
  }

  /** A move during which no completion is called for and no transfer is resumed. */
  lemma QuietMoveKeepsInv(w: World, v: World, r: nat, id: nat, c: nat, more: seq<Call>)
    requires Inv(w) && Moved(w, v, r, id, c)
    requires v.log == w.log + more
    requires forall call <- more :: !call.CompletionCalled? && (call.TransferStarted? ==> call.resumeUrl.None?)
    ensures Inv(v)
  {
    forall k | |w.log| <= k < |v.log| ensures Justified(v.log, k) { assert v.log[k] == more[k - |w.log|]; }
    MoveKeepsInv(w, v, r, id, c, more);
  }

  lemma StartIntentRunMoves(w: World, id: nat)
    requires Base(w) && id < |w.zone.items|
    ensures Moved(w, StartIntentRun(w, id), w.nextRun, id, 0)
    ensures AtStage(StartIntentRun(w, id).runs[w.nextRun], id, StartIntentRun(w, id).zone.items[id].status)
  {
    ShownAt(w.zone.items, id, ToRequesting);
  }

  lemma StartIntentRunKeepsInv(w: World, id: nat)
    requires ControllersInv(w) && SessionsInv(w) && NoneStuckBut(w, id) && id < |w.zone.items|
    ensures Inv(StartIntentRun(w, id))
  {
    StartIntentRunMoves(w, id);
    assert StartIntentRun(w, id).log == w.log + [];
    MoveKeepsInv(w, StartIntentRun(w, id), w.nextRun, id, 0, []);
  }

  /** A zone in which only the item id looks different, and is not busy. */
  ghost predicate ItemClosed(z: Zone, v: Zone, id: nat) {
    && id < |z.items| == |v.items| && !Busy(v.items[id].status)
    && (forall k :: 0 <= k < |z.items| ==> v.items[k].id == k && (k != id ==> v.items[k] == z.items[k]))
  }

  lemma FailureShown(z: Zone, id: nat, failure: Failure, controller: nat)
    requires controller < |z.aborted| && id < |z.items| && forall k :: 0 <= k < |z.items| ==> z.items[k].id == k
    ensures var v := HandleFailure(z, id, failure, controller); v == z.(items := v.items) && ItemClosed(z, v, id)
  {
    ShownAt(z.items, id, ToCancelled);
    ShownAt(z.items, id, ToFailed(SessionExpired));
    ShownAt(z.items, id, ToFailed(ApiText(failure)));
  }

  /** Run r, of item id, ends, or has only its outer finally block left; its item is closed. */
  ghost predicate Closes(w: World, v: World, r: nat, id: nat) {
    && r in w.runs && w.runs[r].id == id && ItemClosed(w.zone, v.zone, id)
    && v.newest == w.newest && v.nextRun == w.nextRun && v.log == w.log
    && (forall i <- w.issued :: i in v.issued && v.issued[i] == w.issued[i])
    && v.zone.aborted == w.zone.aborted && v.zone.heap == w.zone.heap
    && (v.zone.sessions == w.zone.sessions || v.zone.sessions == w.zone.sessions - {id})
    && (|| v.runs == w.runs - {r}
        || (r in v.runs && v.runs == w.runs[r := v.runs[r]] && v.runs[r].Unwinding? && v.runs[r].id == id))
  }

  lemma ReleasingCloseMoves(w: World, v: World, r: nat, id: nat, c: nat)
    requires Base(w) && Closes(w, v, r, id) && Carries(w.runs[r], id, c)
    requires v.zone.controllers == DeleteController(w.zone, id, c).controllers
    requires r in v.runs ==> v.runs[r] == Unwinding(id, c)
    ensures Moved(w, v, r, id, c)
  {
  }

  lemma IntentFailureCloses(w: World, issued: map<nat, nat>, r: nat, failure: Failure)
    requires Base(w) && r in w.runs && w.runs[r].AwaitIntent?
    requires forall i <- w.issued :: i in issued && issued[i] == w.issued[i]
    ensures var v := Finish(w.(issued := issued), r, IntentFailed(w.zone, w.runs[r].id, failure, w.runs[r].controller));
            Closes(w, v, r, w.runs[r].id)
            && v.zone.controllers == DeleteController(w.zone, w.runs[r].id, w.runs[r].controller).controllers
  {
    FailureShown(w.zone, w.runs[r].id, failure, w.runs[r].controller);
  }

  lemma IntentFailureKeepsInv(w: World, issued: map<nat, nat>, r: nat, failure: Failure)
    requires Inv(w) && r in w.runs && w.runs[r].AwaitIntent?
    requires forall i <- w.issued :: i in issued && issued[i] == w.issued[i]
    ensures Inv(Finish(w.(issued := issued), r, IntentFailed(w.zone, w.runs[r].id, failure, w.runs[r].controller)))
  {
    var AwaitIntent(id, c) := w.runs[r];
    var v := Finish(w.(issued := issued), r, IntentFailed(w.zone, id, failure, c));
    IntentFailureCloses(w, issued, r, failure);
    ReleasingCloseMoves(w, v, r, id, c);
    assert v.log == w.log + [];
    QuietMoveKeepsInv(w, v, r, id, c, []);
  }

  lemma SessionOpenedMoves(w: World, r: nat, intent: Intent, unexpired: bool, key: string)
    requires Base(w) && r in w.runs && w.runs[r].AwaitIntent? && intent.intentId !in w.issued
    requires !IntentRefused(w.zone, w.runs[r].controller, unexpired)
    ensures Moved(w, TakeIntent(w, r, intent, unexpired, key), r, w.runs[r].id, w.runs[r].controller)
  {
    ShownAt(w.zone.items, w.runs[r].id, ToUploading);
  }

  lemma TakeIntentKeepsInv(w: World, r: nat, intent: Intent, unexpired: bool, key: string)
    requires Inv(w) && r in w.runs && w.runs[r].AwaitIntent? && intent.intentId !in w.issued
    ensures Inv(TakeIntent(w, r, intent, unexpired, key))
  {
    var AwaitIntent(id, c) := w.runs[r];
    if IntentRefused(w.zone, c, unexpired) {
      IntentFailureKeepsInv(w, w.issued[intent.intentId := id], r, if unexpired then AbortError else ExpiredUpload);
    } else {
      SessionOpenedMoves(w, r, intent, unexpired, key);
      QuietMoveKeepsInv(w, TakeIntent(w, r, intent, unexpired, key), r, id, c,
                        [TransferStarted(intent.intentId, None)]);
    }
  }

  lemma ProgressMoves(w: World, r: nat, percent: int)
    requires Base(w) && r in w.runs && w.runs[r].AwaitTransfer?
    ensures Moved(w, w.(zone := Show(w.zone, w.runs[r].id, Progress(percent))), r, w.runs[r].id, 0)
  {
    ShownAt(w.zone.items, w.runs[r].id, Progress(percent));
  }

  lemma ProgressKeepsInv(w: World, r: nat, percent: int)
    requires Inv(w) && r in w.runs && w.runs[r].AwaitTransfer?
    ensures Inv(w.(zone := Show(w.zone, w.runs[r].id, Progress(percent))))
  {
    var v := w.(zone := Show(w.zone, w.runs[r].id, Progress(percent)));
    ProgressMoves(w, r, percent);
    assert v.log == w.log + [];
    QuietMoveKeepsInv(w, v, r, w.runs[r].id, 0, []);
  }

  /** The transport reported a resume URL. */
  function UrlNoted(w: World, r: nat, url: string): World
    requires Linked(w) && r in w.runs && w.runs[r].AwaitTransfer?
  {
    Apply(w, ResumeUrlArrives(r, url))
  }

  lemma ResumeUrlMoves(w: World, r: nat, url: string)
    requires Base(w) && r in w.runs && w.runs[r].AwaitTransfer?
    ensures Moved(w, UrlNoted(w, r, url), r, w.runs[r].id, 0)
  {
    var v := UrlNoted(w, r, url);
    assert v.log[|w.log|] in v.log;
  }

  lemma ResumeUrlKeepsInv(w: World, r: nat, url: string)
    requires Inv(w) && r in w.runs && w.runs[r].AwaitTransfer?
    ensures Inv(UrlNoted(w, r, url))
  {
    ResumeUrlMoves(w, r, url);
    QuietMoveKeepsInv(w, UrlNoted(w, r, url), r, w.runs[r].id, 0,
                      [UrlIssued(w.zone.heap[w.runs[r].session].intent.intentId, url)]);
  }

  lemma FailTransferCloses(w: World, r: nat, failure: Failure)
    requires Base(w) && r in w.runs && w.runs[r].AwaitTransfer?
    ensures var v := FailTransfer(w, r, failure);
            Closes(w, v, r, w.runs[r].id)
            && v.zone.controllers == DeleteController(w.zone, w.runs[r].id, w.runs[r].controller).controllers
            && (r in v.runs ==> v.runs[r] == Unwinding(w.runs[r].id, w.runs[r].controller))
  {
    var AwaitTransfer(id, s, c, nested) := w.runs[r];
    FailureShown(w.zone, id, failure, c);
    FailureShown(w.zone.(sessions := w.zone.sessions - {id}), id, failure, c);
  }

  lemma FailTransferKeepsInv(w: World, r: nat, failure: Failure)
    requires Inv(w) && r in w.runs && w.runs[r].AwaitTransfer?
    ensures Inv(FailTransfer(w, r, failure))
  {
    var AwaitTransfer(id, s, c, nested) := w.runs[r];
    var v := FailTransfer(w, r, failure);
    FailTransferCloses(w, r, failure);
    ReleasingCloseMoves(w, v, r, id, c);
    assert v.log == w.log + [];
    QuietMoveKeepsInv(w, v, r, id, c, []);
  }

  lemma NoteFinishedKeepsInv(w: World, i: nat, c: nat)
    requires Inv(w)
    ensures Inv(w.(log := w.log + [TransferFinished(i, c)]))
  {
    var v := w.(log := w.log + [TransferFinished(i, c)]);
    LogGrows(w.log, [TransferFinished(i, c)]);
    SessionsLoggedAfter(w, v, [TransferFinished(i, c)]);
    SameRuns(w, v);
  }

  /** The controllers' part of the invariant does not look at the rest of the world. */
  lemma SameRuns(w: World, v: World)
    requires ControllersInv(w)
    requires v.runs == w.runs && v.newest == w.newest && v.nextRun == w.nextRun
    requires v.zone.sessions == w.zone.sessions && v.zone.controllers == w.zone.controllers
    requires v.zone.heap == w.zone.heap
    requires v.zone.aborted == w.zone.aborted && |w.zone.items| <= |v.zone.items|
    requires forall k :: 0 <= k < |v.zone.items| ==> v.zone.items[k].id == k
    requires forall call <- v.log :: call.CompletionCalled? ==> call in w.log
    ensures ControllersInv(v)
  {
    forall k: nat ensures ExactAt(v, k) {
      assert ExactAt(w, k) && forall d :: InTransfer(v, k, d) <==> InTransfer(w, k, d);
    }
    forall d: nat | Spent(w, d) ensures Spent(v, d) {}
  }

  lemma TransferCompletedShape(z: Zone, id: nat, s: nat, c: nat)
    requires s < |z.heap| && id < |z.items| && forall k :: 0 <= k < |z.items| ==> z.items[k].id == k
    ensures var v := TransferCompleted(z, id, s, c);
            && v.aborted == z.aborted && v.sessions == z.sessions
            && v.heap == z.heap[s := z.heap[s].(phase := CompletionPhase)]
            && v.controllers == DeleteController(z, id, c).controllers
            && v.items == z.items[id := Patched(z.items[id], ToVerifying)]
  {
    ShownAt(z.items, id, ToVerifying);
  }

  /** The calls of a transfer that went through and whose controller was not aborted. */
  function CompletingCalls(w: World, r: nat): seq<Call>
    requires Linked(w) && r in w.runs && w.runs[r].AwaitTransfer?
  {
    var AwaitTransfer(_, s, c, nested) := w.runs[r];
    var Session(intent, key, _, _) := w.zone.heap[s];
    [TransferFinished(intent.intentId, c),
     CompletionCalled(intent.intentId, key, if nested then FromIntent(c) else FromResume(c))]
  }

  lemma CompletingCallsLogged(w: World, r: nat)
    requires Linked(w) && r in w.runs && w.runs[r].AwaitTransfer? && !w.zone.aborted[w.runs[r].controller]
    ensures var v := EndTransfer(w, r);
            var i := w.zone.heap[w.runs[r].session].intent.intentId;
            && v.log == w.log + CompletingCalls(w, r)
            && TransferFinishedIn(v.log, i) && UploadRunCompleted(v.log, i)
            && (forall k :: |w.log| <= k < |v.log| ==> Justified(v.log, k))
  {
    var v, more := EndTransfer(w, r), CompletingCalls(w, r);
    assert v.log == w.log + more;
    assert v.log[|w.log|] == more[0] && v.log[|w.log| + 1] == more[1];
    assert more[0] in v.log[..|w.log| + 1] && more[0] in v.log && more[1] in v.log;
  }

  lemma CompleteTransferReleases(w: World, r: nat)
    requires Base(w) && r in w.runs && w.runs[r].AwaitTransfer? && !w.zone.aborted[w.runs[r].controller]
    ensures var v, id := EndTransfer(w, r), w.runs[r].id;
            OnlyRun(w, v, r, id) && Releases(w, v, r, id, w.runs[r].controller) && StatusBacked(w, v, r, id)
  {
    var AwaitTransfer(id, s, c, nested) := w.runs[r];
    TransferCompletedShape(w.zone, id, s, c);
  }

  lemma CompleteTransferMoves(w: World, r: nat)
    requires Base(w) && r in w.runs && w.runs[r].AwaitTransfer? && !w.zone.aborted[w.runs[r].controller]
    ensures Moved(w, EndTransfer(w, r), r, w.runs[r].id, w.runs[r].controller)
    ensures Releases(w, EndTransfer(w, r), r, w.runs[r].id, w.runs[r].controller)
    ensures BackedBy(EndTransfer(w, r), CompletingCalls(w, r)[1], w.runs[r].session)
  {
    var AwaitTransfer(id, s, c, nested) := w.runs[r];
    CompleteTransferReleases(w, r);
    TransferCompletedShape(w.zone, id, s, c);
    CompletingCallsLogged(w, r);
  }

  lemma CompleteTransferKeepsInv(w: World, r: nat)
    requires Inv(w) && r in w.runs && w.runs[r].AwaitTransfer? && !w.zone.aborted[w.runs[r].controller]
    ensures Inv(EndTransfer(w, r))
  {
    CompleteTransferMoves(w, r);
    CompletingCallsLogged(w, r);
    MoveKeepsInv(w, EndTransfer(w, r), r, w.runs[r].id, w.runs[r].controller, CompletingCalls(w, r));
  }

  lemma EndTransferKeepsInv(w: World, r: nat)
    requires Inv(w) && r in w.runs && w.runs[r].AwaitTransfer?
    ensures Inv(EndTransfer(w, r))
  {
    var AwaitTransfer(_, s, c, _) := w.runs[r];
    if w.zone.aborted[c] {
      var i := w.zone.heap[s].intent.intentId;
      NoteFinishedKeepsInv(w, i, c);
      FailTransferKeepsInv(w.(log := w.log + [TransferFinished(i, c)]), r, AbortError);
    } else {
      CompleteTransferKeepsInv(w, r);
    }
  }

  lemma CompletionEndedShape(z: Zone, id: nat, reply: Reply)
    requires id < |z.items| && forall k :: 0 <= k < |z.items| ==> z.items[k].id == k
    ensures var v := CompletionEnded(z, id, reply);
            && v.aborted == z.aborted && v.heap == z.heap && v.controllers == z.controllers && ItemClosed(z, v, id)
            && (v.sessions == z.sessions
                || (v.sessions == z.sessions - {id}
                    && (v.items[id].status.Registered? || v.items[id].status.Duplicate?)))
  {
    match reply {
      case ReplyDuplicate(d) => ShownAt(z.items, id, ToDuplicate(d));
      case ReplyRegistered(t, s) => ShownAt(z.items, id, ToRegistered(s, t));
      case ReplyInvalid => ShownAt(z.items, id, ToFailed(ApiText(OtherError("UPLOAD_COMPLETION_INVALID_OUTCOME"))));
      case ReplyError(f) => ShownAt(z.items, id, ToFailed(ApiText(f)));
    }
  }

  /** A run that no longer holds its controller leaves the controllers alone. */
  lemma QuietCloseMoves(w: World, v: World, r: nat, id: nat)
    requires Base(w) && Closes(w, v, r, id) && !Holding(w.runs[r])
    requires v.zone.controllers == w.zone.controllers
    requires r in v.runs ==> Spent(w, v.runs[r].controller)
    ensures Moved(w, v, r, id, 0)
  {
  }

  lemma CompletionCloses(w: World, r: nat, reply: Reply)
    requires Base(w) && ControllersOwned(w) && r in w.runs && w.runs[r].AwaitCompletion?
    ensures var v := EndCompletion(w, r, reply);
            && Closes(w, v, r, w.runs[r].id) && v.zone.controllers == w.zone.controllers
            && (r in v.runs ==> v.runs[r].Unwinding? && Spent(w, v.runs[r].controller))
            && (v.zone.sessions == w.zone.sessions
                || v.zone.items[w.runs[r].id].status.Registered? || v.zone.items[w.runs[r].id].status.Duplicate?)
  {
    CompletionEndedShape(w.zone, w.runs[r].id, reply);
  }

  lemma EndCompletionKeepsInv(w: World, r: nat, reply: Reply)
    requires Inv(w) && r in w.runs && w.runs[r].AwaitCompletion?
    ensures Inv(EndCompletion(w, r, reply))
  {
    var v := EndCompletion(w, r, reply);
    CompletionCloses(w, r, reply);
    QuietCloseMoves(w, v, r, w.runs[r].id);
    assert v.log == w.log + [];
    QuietMoveKeepsInv(w, v, r, w.runs[r].id, 0, []);
  }

  /** A controller in the map is still held by a run. */
  lemma ListedIsNotSpent(w: World, id: nat)
    requires ControllersExact(w) && id in w.zone.controllers
    ensures !Spent(w, w.zone.controllers[id])
  {
    assert ExactAt(w, id);
  }

  /** The outer finally block of createIntentAndUpload finds nothing left to delete. */
  lemma UnwindChangesNothing(w: World, r: nat)
    requires Inv(w) && r in w.runs && w.runs[r].Unwinding?
    ensures DeleteController(w.zone, w.runs[r].id, w.runs[r].controller) == w.zone
  {
    var id := w.runs[r].id;
    if id in w.zone.controllers {
      ListedIsNotSpent(w, id);
    }
  }

  lemma UnwindMoves(w: World, r: nat)
    requires Base(w) && r in w.runs && w.runs[r].Unwinding?
    ensures Moved(w, Finish(w, r, w.zone), r, w.runs[r].id, 0)
  {
  }

  lemma UnwindKeepsInv(w: World, r: nat)
    requires Inv(w) && r in w.runs && w.runs[r].Unwinding?
    ensures Inv(Apply(w, Unwind(r)))
  {
    UnwindChangesNothing(w, r);
    UnwindMoves(w, r);
    assert Finish(w, r, w.zone).log == w.log + [];
    QuietMoveKeepsInv(w, Finish(w, r, w.zone), r, w.runs[r].id, 0, []);
  }

  /** The world after the item was cancelled. */
  function Cancelling(w: World, id: nat): World
    requires Linked(w)
  {
    w.(zone := CancelItem(w.zone, id))
  }

  lemma CancelOnlyItem(w: World, id: nat)
    requires Base(w) && id < |w.zone.items|
    ensures OnlyRun(w, Cancelling(w, id), w.nextRun, id) && SessionsFollow(w, Cancelling(w, id), w.nextRun, id)
    ensures Cancelling(w, id).zone.items[id].status == Cancelled
  {
    ShownAt(w.zone.items, id, ToCancelled);
  }

  lemma CancelKeepsInv(w: World, id: nat)
    requires Inv(w) && id < |w.zone.items|
    ensures Inv(Cancelling(w, id))
  {
    var v := Cancelling(w, id);
    CancelOnlyItem(w, id);
    NoneStuckAfter(w, v, w.nextRun, id);
    assert v.log == w.log + [];
    SessionsAfter(w, v, w.nextRun, id, []);
    CancelKeepsControllers(w, v, id);
  }

  lemma CancelKeepsControllers(w: World, v: World, id: nat)
    requires ControllersInv(w) && id < |w.zone.items|
    requires v.runs == w.runs && v.newest == w.newest && v.log == w.log && v.nextRun == w.nextRun
    requires v.zone.sessions == w.zone.sessions && v.zone.controllers == w.zone.controllers
    requires v.zone.heap == w.zone.heap
    requires |v.zone.items| == |w.zone.items| && forall k :: 0 <= k < |v.zone.items| ==> v.zone.items[k].id == k
    requires |v.zone.aborted| == |w.zone.aborted|
    requires forall c :: 0 <= c < |w.zone.aborted| && v.zone.aborted[c] != w.zone.aborted[c]
               ==> id in w.zone.controllers && w.zone.controllers[id] == c
    ensures ControllersInv(v)
  {
    forall k: nat ensures ExactAt(v, k) {
      assert ExactAt(w, k);
      assert forall c :: InTransfer(v, k, c) <==> InTransfer(w, k, c);
    }
    if id in w.zone.controllers {
      ListedIsNotSpent(w, id);
    }
    forall c: nat | Spent(w, c) ensures Spent(v, c) && v.zone.aborted[c] == w.zone.aborted[c] {}
  }

  lemma CompleteAgainMoves(w: World, id: nat)
    requires Base(w) && id < |w.zone.items| && id in w.zone.sessions
    requires w.zone.heap[w.zone.sessions[id]].phase.CompletionPhase?
    ensures Moved(w, CompletedAgain(w, id), w.nextRun, id, 0)
  {
    ShownAt(w.zone.items, id, ToVerifying);
  }

  lemma ResumeMoves(w: World, id: nat)
    requires Base(w) && id < |w.zone.items| && id in w.zone.sessions
    ensures Moved(w, ResumedTransfer(w, id), w.nextRun, id, 0)
  {
    ShownAt(w.zone.items, id, ToUploading);
  }

  lemma CompleteAgainKeepsInv(w: World, id: nat)
    requires Inv(w) && id < |w.zone.items| && id in w.zone.sessions
    requires w.zone.heap[w.zone.sessions[id]].phase.CompletionPhase?
    ensures Inv(CompletedAgain(w, id))
  {
    var v := CompletedAgain(w, id);
    var call := v.log[|w.log|];
    assert v.log[..|w.log|] == w.log && BackedBy(v, call, w.zone.sessions[id]);
    CompleteAgainMoves(w, id);
    assert Justified(v.log, |w.log|);
    MoveKeepsInv(w, v, w.nextRun, id, 0, [call]);
  }

  lemma ResumeKeepsInv(w: World, id: nat)
    requires Inv(w) && id < |w.zone.items| && id in w.zone.sessions
    ensures Inv(ResumedTransfer(w, id))
  {
    var v := ResumedTransfer(w, id);
    assert v.log[..|w.log|] == w.log;
    ResumeMoves(w, id);
    assert Justified(v.log, |w.log|);
    MoveKeepsInv(w, v, w.nextRun, id, 0, [v.log[|w.log|]]);
  }

  lemma RetryKeepsInv(w: World, id: nat, unexpired: bool)
    requires Inv(w) && id < |w.zone.items|
    ensures Inv(RetryItem(w, id, unexpired))
  {
    match PlanRetry(w.zone, id, unexpired) {
      case CompleteAgain => CompleteAgainKeepsInv(w, id);
      case ResumeTransfer => ResumeKeepsInv(w, id);
      case StartOver => StartIntentRunKeepsInv(w, id);
    }
  }

  /** Listing one file and starting its upload. */
  function SelectOne(w: World, file: File): World {
    var listed := AppendFiles(w, [file]);
    if file.supported then StartIntentRun(listed, |w.zone.items|) else listed
  }

  function SelectEach(w: World, files: seq<File>): World
    decreases |files|
  {
    if files == [] then w else SelectEach(SelectOne(w, files[0]), files[1..])
  }

  lemma ListedButNotStarted(w: World, file: File)
    requires Inv(w)
    ensures var v := AppendFiles(w, [file]);
            ControllersInv(v) && SessionsInv(v) && NoneStuckBut(v, |w.zone.items|) && (file.supported || NoneStuck(v))
  {
    var listed := AppendFiles(w, [file]);
    SameRuns(w, listed);
    assert listed.log == w.log + [];
    SessionsLoggedAfter(w, listed, []);
    forall k: nat | k < |w.zone.items| && Busy(listed.zone.items[k].status)
      ensures exists r :: r in listed.runs && AtStage(listed.runs[r], k, listed.zone.items[k].status)
    {
      var r :| r in w.runs && AtStage(w.runs[r], k, w.zone.items[k].status);
      assert AtStage(listed.runs[r], k, listed.zone.items[k].status);
    }
  }

  lemma SelectOneKeepsInv(w: World, file: File)
    requires Inv(w)
    ensures Inv(SelectOne(w, file))
  {
    ListedButNotStarted(w, file);
    if file.supported { StartIntentRunKeepsInv(AppendFiles(w, [file]), |w.zone.items|); }
  }

  lemma StartBeforeListing(w: World, id: nat, files: seq<File>)
    requires id < |w.zone.items|
    ensures StartIntentRun(AppendFiles(w, files), id) == AppendFiles(StartIntentRun(w, id), files)
  {
    var more := NewItems(|w.zone.items|, files);
    assert Update(w.zone.items + more, id, ToRequesting) == Update(w.zone.items, id, ToRequesting) + more;
  }

  /** Listing all the selected files first makes no difference: it is as if each file had been
      listed and started on its own. */
  lemma {:induction false} BatchIsOneByOne(w: World, files: seq<File>)
    ensures SelectBatch(w, files) == SelectEach(w, files)
    decreases |files|
  {
    var first := |w.zone.items|;
    if files == [] {
      assert AppendFiles(w, files).zone.items == w.zone.items;
    } else {
      var listed := AppendFiles(w, [files[0]]);
      assert NewItems(first, files) == NewItems(first, [files[0]]) + NewItems(first + 1, files[1..]);
      assert AppendFiles(w, files).zone.items == AppendFiles(listed, files[1..]).zone.items;
      if files[0].supported { StartBeforeListing(listed, first, files[1..]); }
      BatchIsOneByOne(SelectOne(w, files[0]), files[1..]);
    }
  }

  lemma {:induction false} SelectEachKeepsInv(w: World, files: seq<File>)
    requires Inv(w)
    ensures Inv(SelectEach(w, files))
    decreases |files|
  {
    if files != [] {
      SelectOneKeepsInv(w, files[0]);
      SelectEachKeepsInv(SelectOne(w, files[0]), files[1..]);
    }
  }

  lemma ServerKeepsInv(w: World, documents: seq<Document>)
    requires Inv(w)
    ensures Inv(w.(documents := documents))
  {
    var v := w.(documents := documents);
    assert v.log == w.log + [];
    SessionsLoggedAfter(w, v, []);
    SameRuns(w, v);
  }

  lemma StepKeepsInv(w: World, e: Event)
    requires Inv(w)
    ensures Inv(Step(w, e))
  {
    if Enabled(w, e) {
      if OfRun(e) { RunEventKeepsInv(w, e); } else { UserEventKeepsInv(w, e); }
    }
  }

  /** The event belongs to one pending run; the others come from the user or the server. */
  predicate OfRun(e: Event) {
    !e.SelectFiles? && !e.Cancel? && !e.Retry? && !e.ServerCompletes?
  }

  lemma RunEventKeepsInv(w: World, e: Event)
    requires Inv(w) && Enabled(w, e) && OfRun(e)
    ensures Inv(Apply(w, e))
  {
    match e {
      case IntentArrives(r, intent, unexpired, key) => TakeIntentKeepsInv(w, r, intent, unexpired, key);
      case IntentRejected(r, failure) => IntentFailureKeepsInv(w, w.issued, r, failure);
      case TransferProgress(r, percent) => ProgressKeepsInv(w, r, percent);
      case ResumeUrlArrives(r, url) => ResumeUrlKeepsInv(w, r, url);
      case TransferSucceeds(r) => EndTransferKeepsInv(w, r);
      case TransferFails(r, failure) => FailTransferKeepsInv(w, r, failure);
      case CompletionReplies(r, reply) => EndCompletionKeepsInv(w, r, reply);
      case Unwind(r) => UnwindKeepsInv(w, r);
    }
  }

  lemma UserEventKeepsInv(w: World, e: Event)
    requires Inv(w) && Enabled(w, e) && !OfRun(e)
    ensures Inv(Apply(w, e))
  {
    match e {
      case SelectFiles(files) => BatchIsOneByOne(w, files); SelectEachKeepsInv(w, files);
      case Cancel(id) => CancelKeepsInv(w, id);
      case Retry(id, unexpired) => RetryKeepsInv(w, id, unexpired);
      case ServerCompletes(i, k) => ServerKeepsInv(w, RegisterOnce(w.documents, i, k));
    }
  }

  lemma {:induction false} ExecKeepsInv(w: World, events: seq<Event>)
    requires Inv(w)
    ensures Inv(Exec(w, events))
    decreases |events|
  {
    if events != [] {
      StepKeepsInv(w, events[0]);
      ExecKeepsInv(Step(w, events[0]), events[1..]);
    }
  }

  ghost predicate Reachable(w: World) { exists events :: w == Exec(Init(), events) }

  lemma ReachableInv(w: World)
    requires Reachable(w)
    ensures Inv(w)
  {
    var events :| w == Exec(Init(), events);
    InitInv();
    ExecKeepsInv(Init(), events);
  }

  // ---------- the theorems ----------

  /** No item is ever stuck: a busy item has a pending run, and that run is at the very stage shown. */
  lemma NoItemStuck(w: World, id: nat)
    requires Reachable(w) && id < |w.zone.items| && Busy(w.zone.items[id].status)
    ensures exists r :: r in w.runs && AtStage(w.runs[r], id, w.zone.items[id].status)
  {
    ReachableInv(w);
  }

  /** controllers[id] is exactly the controller that the item was given last, while the transfer of
      that run has not ended, and absent otherwise. */
  lemma ControllersTrackNewestRun(w: World, id: nat)
    requires Reachable(w)
    ensures id in w.zone.controllers <==> id in w.newest && InTransfer(w, id, w.newest[id])
    ensures id in w.zone.controllers ==> w.zone.controllers[id] == w.newest[id]
  {
    ReachableInv(w);
    assert ExactAt(w, id);
  }

  lemma SameSessionSameKey(w: World, a: Call, b: Call)
    requires SessionsInv(w) && a in w.log && b in w.log && a.CompletionCalled? && b.CompletionCalled?
    requires a.intentId == b.intentId
    ensures a.key == b.key
  {
    var s, t :| BackedBy(w, a, s) && BackedBy(w, b, t);
    assert s == t;
  }

  /** All completion calls for one intent carry one idempotency key. */
  lemma OneKeyPerIntent(w: World, a: Call, b: Call)
    requires Reachable(w) && a in w.log && b in w.log && a.CompletionCalled? && b.CompletionCalled?
    requires a.intentId == b.intentId
    ensures a.key == b.key
  {
    ReachableInv(w);
    SameSessionSameKey(w, a, b);
  }

  /** A resume URL handed to the transport was issued for that same intent before. */
  lemma ResumeUrlsBelong(w: World, k: nat)
    requires Reachable(w) && k < |w.log| && w.log[k].TransferStarted? && w.log[k].resumeUrl.Some?
    ensures UrlIssued(w.log[k].intentId, w.log[k].resumeUrl.value) in w.log[..k]
  {
    ReachableInv(w);
    assert Justified(w.log, k);
  }

  /** A completion call follows a finished transfer of its intent; a call made by a retry follows
      one that an upload run made; and the controller of a calling upload run is not aborted, then
      or ever after. */
  lemma CompletionsJustified(w: World, k: nat)
    requires Reachable(w) && k < |w.log| && w.log[k].CompletionCalled?
    ensures exists j :: 0 <= j < k && w.log[j].TransferFinished? && w.log[j].intentId == w.log[k].intentId
    ensures w.log[k].origin.FromRetry? ==>
              exists j :: 0 <= j < k && w.log[j].CompletionCalled? && w.log[j].intentId == w.log[k].intentId
                          && !w.log[j].origin.FromRetry?
    ensures !w.log[k].origin.FromRetry? ==>
              w.log[k].origin.controller < |w.zone.aborted| && !w.zone.aborted[w.log[k].origin.controller]
  {
    ReachableInv(w);
    assert Justified(w.log, k);
    var before := w.log[..k];
    var call :| call in before && call.TransferFinished? && call.intentId == w.log[k].intentId;
    var j :| 0 <= j < k && before[j] == call;
    assert w.log[j] == call;
    if w.log[k].origin.FromRetry? {
      var first :| first in before && first.CompletionCalled? && first.intentId == w.log[k].intentId
                   && !first.origin.FromRetry?;
      var i :| 0 <= i < k && before[i] == first;
      assert w.log[i] == first;
    } else {
      assert w.log[k] in w.log;
    }
  }

  predicate AbortsKept(w: World, v: World) {
    && |w.zone.aborted| <= |v.zone.aborted|
    && forall c :: 0 <= c < |w.zone.aborted| && w.zone.aborted[c] ==> v.zone.aborted[c]
  }

  lemma {:induction false} SelectKeepsAborts(w: World, first: nat, files: seq<File>)
    ensures AbortsKept(w, StartEach(w, first, files))
    decreases |files|
  {
    if files != [] {
      SelectKeepsAborts(if files[0].supported then StartIntentRun(w, first) else w, first + 1, files[1..]);
    }
  }

  lemma StepKeepsAborts(w: World, e: Event)
    ensures AbortsKept(w, Step(w, e))
  {
    if Enabled(w, e) {
      match e {
        case SelectFiles(files) => SelectKeepsAborts(AppendFiles(w, files), |w.zone.items|, files);
        case TransferSucceeds(r) => EndTransferKeepsAborts(w, r);
        case TransferFails(r, failure) => FailTransferKeepsAborts(w, r, failure);
        case IntentArrives(r, intent, unexpired, key) => TakeIntentKeepsAborts(w, r, intent, unexpired, key);
        case CompletionReplies(r, reply) => EndCompletionKeepsAborts(w, r, reply);
        case Retry(id, unexpired) => RetryKeepsAborts(w, id, unexpired);
        case IntentRejected(_, _) =>
        case TransferProgress(_, _) =>
        case ResumeUrlArrives(_, _) =>
        case Unwind(_) =>
        case Cancel(_) =>
        case ServerCompletes(_, _) =>
      }
    }
  }

  lemma TakeIntentKeepsAborts(w: World, r: nat, intent: Intent, unexpired: bool, key: string)
    requires Linked(w) && r in w.runs && w.runs[r].AwaitIntent?
    ensures TakeIntent(w, r, intent, unexpired, key).zone.aborted == w.zone.aborted
  {
  }

  lemma EndCompletionKeepsAborts(w: World, r: nat, reply: Reply)
    requires r in w.runs && w.runs[r].AwaitCompletion?
    ensures EndCompletion(w, r, reply).zone.aborted == w.zone.aborted
  {
    assert CompletionEnded(w.zone, w.runs[r].id, reply).aborted == w.zone.aborted by {
      match reply { case ReplyDuplicate(_) => case ReplyRegistered(_, _) => case ReplyInvalid => case ReplyError(_) => }
    }
  }

  lemma RetryKeepsAborts(w: World, id: nat, unexpired: bool)
    requires Linked(w)
    ensures AbortsKept(w, RetryItem(w, id, unexpired))
  {
  }

  lemma FailTransferKeepsAborts(w: World, r: nat, failure: Failure)
    requires Linked(w) && r in w.runs && w.runs[r].AwaitTransfer?
    ensures FailTransfer(w, r, failure).zone.aborted == w.zone.aborted
  {
  }

  lemma EndTransferKeepsAborts(w: World, r: nat)
    requires Linked(w) && r in w.runs && w.runs[r].AwaitTransfer?
    ensures EndTransfer(w, r).zone.aborted == w.zone.aborted
  {
    var call := TransferFinished(w.zone.heap[w.runs[r].session].intent.intentId, w.runs[r].controller);
    FailTransferKeepsAborts(w.(log := w.log + [call]), r, AbortError);
  }

  lemma {:induction false} ExecKeepsAborts(w: World, events: seq<Event>)
    ensures AbortsKept(w, Exec(w, events))
    decreases |events|
  {
    if events != [] {
      StepKeepsAborts(w, events[0]);
      ExecKeepsAborts(Step(w, events[0]), events[1..]);
    }
  }

  lemma {:induction false} ExecAppends(w: World, before: seq<Event>, after: seq<Event>)
    ensures Exec(w, before + after) == Exec(Exec(w, before), after)
    decreases |before|
  {
    if before == [] {
      assert before + after == after;
    } else {
      assert (before + after)[1..] == before[1..] + after;
      ExecAppends(Step(w, before[0]), before[1..], after);
    }
  }

  /** Cancelling reaches the newest run of the item: if its transfer has not ended, it never calls
      for completion, whatever happens later. */
  lemma CancelStopsNewestRun(w: World, id: nat, after: seq<Event>)
    requires Reachable(w) && Enabled(w, Cancel(id)) && id in w.newest && InTransfer(w, id, w.newest[id])
    ensures forall call <- Exec(Step(w, Cancel(id)), after).log ::
              call.CompletionCalled? && !call.origin.FromRetry? ==> call.origin.controller != w.newest[id]
  {
    ControllersTrackNewestRun(w, id);
    ReachableInv(w);
    var cancelled := Step(w, Cancel(id));
    StepKeepsInv(w, Cancel(id));
    ExecKeepsInv(cancelled, after);
    ExecKeepsAborts(cancelled, after);
    assert cancelled.zone.aborted[w.newest[id]];
  }
}
