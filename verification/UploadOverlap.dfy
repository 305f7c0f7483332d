/** Why a retry must wait: exactly the retries of an idle item keep its file under one intent, and keep a
    settled item settled. */
module UploadOverlap {
  import opened Options
  import opened UploadModel
  import opened UploadRuns
  import opened UploadSafety
  import opened UploadSerial
  import opened UploadRetry
  import opened UploadPlans

  /** Only run q moved; what was called for and issued stays. */
  ghost predicate OnlyMoves(w: World, v: World, q: nat) {
    && (forall p :: p != q ==> (p in v.runs <==> p in w.runs))
    && (forall p :: p != q && p in w.runs ==> v.runs[p] == w.runs[p])
    && Grows(w, v) && v.nextRun == w.nextRun
    && v.zone.aborted == w.zone.aborted && |v.zone.items| == |w.zone.items|
  }

  lemma {:induction false} SerialAppends(w: World, events: seq<Event>, e: Event)
    requires Serial(w, events) && SerialStep(Exec(w, events), e)
    ensures Serial(w, events + [e]) && Exec(w, events + [e]) == Step(Exec(w, events), e)
    decreases |events|
  {
    if events == [] {
      assert events + [e] == [e] && [e][1..] == [];
    } else {
      assert (events + [e])[1..] == events[1..] + [e];
      SerialAppends(Step(w, events[0]), events[1..], e);
    }
  }

  lemma {:induction false} SerialJoins(w: World, a: seq<Event>, b: seq<Event>)
    requires Serial(w, a) && Serial(Exec(w, a), b)
    ensures Serial(w, a + b) && Exec(w, a + b) == Exec(Exec(w, a), b)
    decreases |a|
  {
    if a == [] {
      assert a + b == b;
    } else {
      assert (a + b)[1..] == a[1..] + b;
      SerialJoins(Step(w, a[0]), a[1..], b);
    }
  }

  // ---------- an aborted run ends in a cancelled item ----------

  /** The events that end the stage at which a run holds its controller. */
  predicate EndsStage(e: Event) {
    e.IntentArrives? || e.IntentRejected? || e.TransferSucceeds? || e.TransferFails?
  }

  lemma AbortedIntentEnds(w: World, r: nat, e: Event)
    requires Base(w) && Enabled(w, e) && (e.IntentArrives? || e.IntentRejected?) && e.run == r
    requires w.zone.aborted[w.runs[r].controller]
    ensures var v, id := Step(w, e), w.runs[r].id;
            && ItemClosed(w.zone, v.zone, id) && v.zone.items[id].status == Cancelled
            && v.log == w.log && r !in v.runs
  {
    ShownAt(w.zone.items, w.runs[r].id, ToCancelled);
  }

  lemma AbortedTransferFails(w: World, r: nat, failure: Failure)
    requires Base(w) && r in w.runs && w.runs[r].AwaitTransfer? && w.zone.aborted[w.runs[r].controller]
    ensures var v, id := FailTransfer(w, r, failure), w.runs[r].id;
            && ItemClosed(w.zone, v.zone, id) && v.zone.items[id].status == Cancelled
            && v.log == w.log && (r in v.runs ==> v.runs[r].Unwinding?)
  {
    FailTransferCloses(w, r, failure);
    ShownAt(w.zone.items, w.runs[r].id, ToCancelled);
  }

  lemma AbortedTransferSucceeds(w: World, r: nat)
    requires Base(w) && r in w.runs && w.runs[r].AwaitTransfer? && w.zone.aborted[w.runs[r].controller]
    ensures var v, id, call := EndTransfer(w, r), w.runs[r].id,
                               TransferFinished(w.zone.heap[w.runs[r].session].intent.intentId, w.runs[r].controller);
            && ItemClosed(w.zone, v.zone, id) && v.zone.items[id].status == Cancelled
            && v.log == w.log + [call] && (r in v.runs ==> v.runs[r].Unwinding?)
  {
    var call := TransferFinished(w.zone.heap[w.runs[r].session].intent.intentId, w.runs[r].controller);
    AbortedTransferFails(w.(log := w.log + [call]), r, AbortError);
  }

  /** However the stage of an aborted run ends - by any failure, by a success that comes late, or by a
      late intent - its item is shown as cancelled, whatever it showed before; no other item changes, and
      neither a transfer nor a completion is called for. */
  lemma AbortedRunCancels(w: World, e: Event)
    requires Reachable(w) && Enabled(w, e) && EndsStage(e) && w.zone.aborted[w.runs[e.run].controller]
    ensures var v, id := Step(w, e), w.runs[e.run].id;
            && id < |v.zone.items| == |w.zone.items| && v.zone.items[id].status == Cancelled
            && (forall k :: 0 <= k < |w.zone.items| && k != id ==> v.zone.items[k] == w.zone.items[k])
            && w.log <= v.log && (forall k :: |w.log| <= k < |v.log| ==> v.log[k].TransferFinished?)
            && (e.run in v.runs ==> v.runs[e.run].Unwinding?)
  {
    ReachableInv(w);
    match e {
      case TransferSucceeds(r) => AbortedTransferSucceeds(w, r);
      case TransferFails(r, failure) => AbortedTransferFails(w, r, failure);
      case IntentArrives(r, _, _, _) => AbortedIntentEnds(w, r, e);
      case IntentRejected(r, _) => AbortedIntentEnds(w, r, e);
    }
  }

  // ---------- the single steps ----------

  lemma UploadFinishes(w: World, q: nat)
    requires Base(w) && q in w.runs && w.runs[q].AwaitTransfer? && !w.zone.aborted[w.runs[q].controller]
    ensures var v, id, i := Step(w, TransferSucceeds(q)), w.runs[q].id, w.zone.heap[w.runs[q].session].intent.intentId;
            && OnlyMoves(w, v, q) && v.zone.sessions == w.zone.sessions
            && q in v.runs && v.runs[q].AwaitCompletion? && v.runs[q].id == id
            && exists call <- v.log :: CallFor(v, call, id) && call.intentId == i
  {
    var AwaitTransfer(id, s, c, nested) := w.runs[q];
    TransferCompletedShape(w.zone, id, s, c);
    CompletingCallsLogged(w, q);
    assert SessionOf(w, s, id);
    assert CompletingCalls(w, q)[1] in EndTransfer(w, q).log;
  }

  predicate Answers(reply: Reply) { reply.ReplyRegistered? || reply.ReplyDuplicate? }

  function SettledAs(reply: Reply): Status { if reply.ReplyRegistered? then Registered else Duplicate }

  lemma AnswerShown(z: Zone, id: nat, reply: Reply)
    requires id < |z.items| && Answers(reply) && forall k :: 0 <= k < |z.items| ==> z.items[k].id == k
    ensures var v := CompletionEnded(z, id, reply);
            && |v.items| == |z.items| && v.items[id].status == SettledAs(reply)
            && v.sessions == z.sessions - {id} && v.aborted == z.aborted
  {
    if reply.ReplyRegistered? {
      ShownAt(z.items, id, ToRegistered(reply.taskStatus, reply.taskId));
    } else {
      ShownAt(z.items, id, ToDuplicate(reply.documentId));
    }
  }

  /** The answer to a completion call settles the item and drops its session. */
  lemma AnswerSettles(w: World, q: nat, reply: Reply)
    requires Base(w) && q in w.runs && w.runs[q].AwaitCompletion? && Answers(reply)
    ensures var v, id := EndCompletion(w, q, reply), w.runs[q].id;
            && OnlyMoves(w, v, q) && id !in v.zone.sessions && (q in v.runs ==> v.runs[q].Unwinding?)
            && id < |v.zone.items| && v.zone.items[id].status == SettledAs(reply)
  {
    AnswerShown(w.zone, w.runs[q].id, reply);
  }

  /** The older run ends with an abort. */
  function LateFailure(w: World, r: nat): Event
    requires r in w.runs
  {
    if w.runs[r].AwaitIntent? then IntentRejected(r, AbortError) else TransferFails(r, AbortError)
  }

  lemma LateRejection(w: World, r: nat)
    requires Base(w) && r in w.runs && w.runs[r].AwaitIntent?
    ensures var v, id := Apply(w, IntentRejected(r, AbortError)), w.runs[r].id;
            && OnlyMoves(w, v, r) && v.zone.sessions == w.zone.sessions && r !in v.runs
            && id < |v.zone.items| && v.zone.items[id].status == Cancelled
  {
    ShownAt(w.zone.items, w.runs[r].id, ToCancelled);
  }

  lemma LateAbort(w: World, r: nat)
    requires Base(w) && r in w.runs && w.runs[r].AwaitTransfer?
    ensures var v, id := FailTransfer(w, r, AbortError), w.runs[r].id;
            && OnlyMoves(w, v, r) && v.zone.sessions == w.zone.sessions && (r in v.runs ==> v.runs[r].Unwinding?)
            && id < |v.zone.items| && v.zone.items[id].status == Cancelled
  {
    ShownAt(w.zone.items, w.runs[r].id, ToCancelled);
  }

  lemma LateFailureCancels(w: World, r: nat)
    requires Base(w) && r in w.runs && Holding(w.runs[r])
    ensures var v, id := Step(w, LateFailure(w, r)), w.runs[r].id;
            && OnlyMoves(w, v, r) && v.zone.sessions == w.zone.sessions && (r in v.runs ==> v.runs[r].Unwinding?)
            && id < |v.zone.items| && v.zone.items[id].status == Cancelled
  {
    if w.runs[r].AwaitIntent? { LateRejection(w, r); } else { LateAbort(w, r); }
  }

  lemma RetryStartsOver(w: World, id: nat)
    requires Base(w) && id < |w.zone.items| && w.zone.items[id].status == Cancelled
    requires id !in w.zone.sessions && Idle(w, id)
    ensures var v := Step(w, Retry(id, false));
            && SerialStep(w, Retry(id, false)) && v.log == w.log && v.issued == w.issued
            && w.nextRun in v.runs && v.runs[w.nextRun] == AwaitIntent(id, |w.zone.aborted|)
            && |w.zone.aborted| < |v.zone.aborted| && !v.zone.aborted[|w.zone.aborted|]
  {
  }

  lemma IntentOpens(w: World, q: nat, i: nat)
    requires Base(w) && q in w.runs && w.runs[q].AwaitIntent? && !w.zone.aborted[w.runs[q].controller] && i !in w.issued
    ensures var v := Step(w, IntentArrives(q, Intent(i, Signed), true, ""));
            && OnlyMoves(w, v, q) && i in v.issued && v.issued[i] == w.runs[q].id
            && q in v.runs && v.runs[q] == AwaitTransfer(w.runs[q].id, |w.zone.heap|, w.runs[q].controller, true)
            && |v.zone.heap| == |w.zone.heap| + 1 && v.zone.heap[|w.zone.heap|].intent.intentId == i
  {
  }

  lemma FreshIntent(issued: map<nat, nat>) returns (i: nat)
    ensures i !in issued
  {
    i := AboveAll(issued.Keys);
  }

  lemma {:induction false} AboveAll(used: set<nat>) returns (i: nat)
    ensures forall u <- used :: u < i
  {
    if used == {} {
      i := 0;
    } else {
      var u :| u in used;
      var j := AboveAll(used - {u});
      assert used == {u} + (used - {u});
      i := if j <= u then u + 1 else j;
    }
  }

  // ---------- the retry overlaps the older run ----------

  /** In a serial world, an item that is not idle and can be retried is shown as cancelled, and its one
      run has not ended its transfer. */
  lemma StillHolding(w: World, id: nat) returns (r: nat)
    requires AllSerial(w) && id < |w.zone.items| && Retryable(w.zone.items[id]) && !Idle(w, id)
    ensures r in w.runs && Holding(w.runs[r]) && w.runs[r].id == id
    ensures forall p <- w.runs :: Works(w.runs[p], id) ==> p == r
  {
    assert ItemSerial(w, id);
    r :| r in w.runs && Works(w.runs[r], id);
  }

  /** Its session, if any, is not in the completion phase: no completion was called for. */
  lemma NotCompleting(w: World, id: nat, r: nat, unexpired: bool)
    requires Inv(w) && AllSerial(w) && r in w.runs && Holding(w.runs[r]) && w.runs[r].id == id
    ensures !PlanRetry(w.zone, id, unexpired).CompleteAgain?
  {
    NoCallYet(w, r);
  }

  /** The retry's own run transfers, beside the older one. */
  ghost predicate Overlapping(w: World, id: nat, q: nat, r: nat) {
    && Linked(w) && q != r
    && q in w.runs && w.runs[q].AwaitTransfer? && w.runs[q].id == id && !w.zone.aborted[w.runs[q].controller]
    && r in w.runs && Holding(w.runs[r]) && w.runs[r].id == id
    && forall p <- w.runs :: Works(w.runs[p], id) ==> p == q || p == r
  }

  /** Run r did not move, and what was aborted stays so. */
  ghost predicate Beside(w: World, v: World, r: nat) {
    r in w.runs && r in v.runs && v.runs[r] == w.runs[r] && AbortsKept(w, v)
  }

  lemma Resumes(w: World, id: nat, r: nat)
    requires Inv(w) && id < |w.zone.items| && id in w.zone.sessions && r in w.runs && Holding(w.runs[r])
    requires w.runs[r].id == id && forall p <- w.runs :: Works(w.runs[p], id) ==> p == r
    ensures Overlapping(ResumedTransfer(w, id), id, w.nextRun, r) && Beside(w, ResumedTransfer(w, id), r)
  {
  }

  lemma Restarts(w: World, id: nat, r: nat)
    requires Inv(w) && id < |w.zone.items| && r in w.runs && Holding(w.runs[r]) && w.runs[r].id == id
    requires forall p <- w.runs :: Works(w.runs[p], id) ==> p == r
    ensures var v := StartIntentRun(w, id);
            && Inv(v) && v.issued == w.issued && w.nextRun != r && Beside(w, v, r)
            && w.nextRun in v.runs && v.runs[w.nextRun] == AwaitIntent(id, |w.zone.aborted|)
            && !v.zone.aborted[|w.zone.aborted|]
            && forall p <- v.runs :: Works(v.runs[p], id) ==> p == w.nextRun || p == r
  {
    StartIntentRunKeepsInv(w, id);
  }

  lemma Transfers(w: World, id: nat, q: nat, r: nat, i: nat)
    requires Inv(w) && q != r && q in w.runs && w.runs[q].AwaitIntent? && w.runs[q].id == id && i !in w.issued
    requires !w.zone.aborted[w.runs[q].controller] && r in w.runs && Holding(w.runs[r]) && w.runs[r].id == id
    requires forall p <- w.runs :: Works(w.runs[p], id) ==> p == q || p == r
    ensures var e := IntentArrives(q, Intent(i, Signed), true, "");
            Inv(Step(w, e)) && Overlapping(Step(w, e), id, q, r) && Beside(w, Step(w, e), r)
  {
    IntentOpens(w, q, i);
    StepKeepsInv(w, IntentArrives(q, Intent(i, Signed), true, ""));
  }

  lemma BesideTwice(a: World, b: World, c: World, r: nat)
    requires Beside(a, b, r) && Beside(b, c, r)
    ensures Beside(a, c, r)
  {
  }

  /** A retry that starts over gets an intent. */
  lemma StartsBeside(w: World, id: nat, r: nat) returns (e: Event)
    requires Inv(w) && id < |w.zone.items| && r in w.runs && Holding(w.runs[r]) && w.runs[r].id == id
    requires forall p <- w.runs :: Works(w.runs[p], id) ==> p == r
    ensures var v := StartIntentRun(w, id);
            && SerialStep(v, e) && Inv(Step(v, e)) && Overlapping(Step(v, e), id, w.nextRun, r)
            && Beside(w, Step(v, e), r)
  {
    var v := StartIntentRun(w, id);
    var i := FreshIntent(w.issued);
    e := IntentArrives(w.nextRun, Intent(i, Signed), true, "");
    Restarts(w, id, r);
    Transfers(v, id, w.nextRun, r, i);
    BesideTwice(w, v, Step(v, e), r);
  }

  lemma Overlaps(w: World, id: nat, unexpired: bool, r: nat) returns (events: seq<Event>)
    requires Inv(w) && AllSerial(w) && Enabled(w, Retry(id, unexpired))
    requires r in w.runs && Holding(w.runs[r]) && w.runs[r].id == id
    requires forall p <- w.runs :: Works(w.runs[p], id) ==> p == r
    ensures var v := Step(w, Retry(id, unexpired));
            && Serial(v, events) && Inv(Exec(v, events)) && Overlapping(Exec(v, events), id, w.nextRun, r)
            && Beside(w, Exec(v, events), r)
  {
    var v := Step(w, Retry(id, unexpired));
    StepKeepsInv(w, Retry(id, unexpired));
    NotCompleting(w, id, r, unexpired);
    events := [];
    if PlanRetry(w.zone, id, unexpired).ResumeTransfer? {
      Resumes(w, id, r);
    } else {
      var e := StartsBeside(w, id, r);
      SerialAppends(v, [], e);
      events := [] + [e];
    }
  }

  // ---------- what it leads to ----------

  /** A completion call for the item. */
  ghost predicate Called(w: World, id: nat, call: Call) { call in w.log && CallFor(w, call, id) }

  lemma CallStays(w: World, v: World, id: nat, call: Call)
    requires Called(w, id, call) && Grows(w, v)
    ensures Called(v, id, call)
  {
  }

  lemma MovesTwice(a: World, b: World, c: World, q: nat)
    requires OnlyMoves(a, b, q) && OnlyMoves(b, c, q)
    ensures OnlyMoves(a, c, q)
  {
  }

  lemma Finishes(w: World, q: nat) returns (call: Call)
    requires Inv(w) && q in w.runs && w.runs[q].AwaitTransfer? && !w.zone.aborted[w.runs[q].controller]
    ensures var v, id := Step(w, TransferSucceeds(q)), w.runs[q].id;
            && Inv(v) && OnlyMoves(w, v, q) && q in v.runs && v.runs[q].AwaitCompletion? && v.runs[q].id == id
            && Called(v, id, call) && call.intentId == w.zone.heap[w.runs[q].session].intent.intentId
  {
    var v, id, i := Step(w, TransferSucceeds(q)), w.runs[q].id, w.zone.heap[w.runs[q].session].intent.intentId;
    UploadFinishes(w, q);
    StepKeepsInv(w, TransferSucceeds(q));
    call :| call in v.log && CallFor(v, call, id) && call.intentId == i;
  }

  lemma Answered(w: World, q: nat, reply: Reply)
    requires Inv(w) && q in w.runs && w.runs[q].AwaitCompletion? && Answers(reply)
    ensures var v, id := Step(w, CompletionReplies(q, reply)), w.runs[q].id;
            && Inv(v) && OnlyMoves(w, v, q) && id !in v.zone.sessions && (q in v.runs ==> v.runs[q].Unwinding?)
            && id < |v.zone.items| && v.zone.items[id].status == SettledAs(reply)
  {
    AnswerSettles(w, q, reply);
    StepKeepsInv(w, CompletionReplies(q, reply));
  }

  /** A run that transfers can finish, call for completion and be answered. */
  lemma Settles(w: World, q: nat, reply: Reply) returns (events: seq<Event>, call: Call)
    requires Inv(w) && q in w.runs && w.runs[q].AwaitTransfer? && !w.zone.aborted[w.runs[q].controller]
    requires Answers(reply)
    ensures Serial(w, events) && Inv(Exec(w, events))
    ensures var v, id := Exec(w, events), w.runs[q].id;
            && OnlyMoves(w, v, q) && id !in v.zone.sessions && (q in v.runs ==> v.runs[q].Unwinding?)
            && Called(v, id, call) && call.intentId == w.zone.heap[w.runs[q].session].intent.intentId
            && id < |v.zone.items| && v.zone.items[id].status == SettledAs(reply)
  {
    var e, f := TransferSucceeds(q), CompletionReplies(q, reply);
    call := Finishes(w, q);
    SerialAppends(w, [], e);
    Answered(Step(w, e), q, reply);
    SerialAppends(w, [] + [e], f);
    MovesTwice(w, Step(w, e), Step(Step(w, e), f), q);
    CallStays(Step(w, e), Step(Step(w, e), f), w.runs[q].id, call);
    events := [] + [e] + [f];
  }

  /** An older run is pending beside the settled item. */
  ghost predicate SettledBeside(w: World, id: nat, r: nat) {
    && id < |w.zone.items| && w.zone.items[id].status == Registered && id !in w.zone.sessions
    && r in w.runs && Holding(w.runs[r]) && w.runs[r].id == id
    && forall p <- w.runs :: Works(w.runs[p], id) ==> p == r
  }

  lemma OlderRunStays(w: World, v: World, id: nat, q: nat, r: nat)
    requires Overlapping(w, id, q, r) && OnlyMoves(w, v, q) && (q in v.runs ==> v.runs[q].Unwinding?)
    ensures r in v.runs && Holding(v.runs[r]) && v.runs[r].id == id && Beside(w, v, r)
    ensures forall p <- v.runs :: Works(v.runs[p], id) ==> p == r
  {
  }

  /** The older run ends: the settled item is cancelled, idle and without a session. */
  lemma Unsettles(w: World, id: nat, r: nat)
    requires Inv(w) && SettledBeside(w, id, r)
    ensures var v := Step(w, LateFailure(w, r));
            && Inv(v) && Grows(w, v) && id < |v.zone.items| && v.zone.items[id].status == Cancelled
            && id !in v.zone.sessions && Idle(v, id)
  {
    LateFailureCancels(w, r);
    StepKeepsInv(w, LateFailure(w, r));
  }

  /** An item left like that starts over under an intent of its own. */
  lemma AsksAgain(w: World, id: nat, i: nat) returns (events: seq<Event>, q: nat)
    requires Inv(w) && id < |w.zone.items| && w.zone.items[id].status == Cancelled
    requires id !in w.zone.sessions && Idle(w, id)
    requires i !in w.issued
    ensures Serial(w, events) && Inv(Exec(w, events))
    ensures var v := Exec(w, events);
            && Grows(w, v) && q in v.runs && v.runs[q].AwaitTransfer? && v.runs[q].id == id
            && !v.zone.aborted[v.runs[q].controller] && v.zone.heap[v.runs[q].session].intent.intentId == i
  {
    q := w.nextRun;
    var e, f := Retry(id, false), IntentArrives(q, Intent(i, Signed), true, "");
    RetryStartsOver(w, id);
    StepKeepsInv(w, e);
    SerialAppends(w, [], e);
    IntentOpens(Step(w, e), q, i);
    StepKeepsInv(Step(w, e), f);
    SerialAppends(w, [] + [e], f);
    events := [] + [e] + [f];
  }

  /** It is then completed a second time, under another intent, and can be told that it is a duplicate. */
  lemma Repeats(w: World, id: nat, call: Call) returns (events: seq<Event>)
    requires Inv(w) && id < |w.zone.items| && w.zone.items[id].status == Cancelled
    requires id !in w.zone.sessions && Idle(w, id)
    requires Called(w, id, call)
    ensures Serial(w, events)
    ensures var v := Exec(w, events);
            !NamesOneIntent(v, id) && id < |v.zone.items| && v.zone.items[id].status == Duplicate
  {
    var i := FreshIntent(w.issued);
    var first, q := AsksAgain(w, id, i);
    var asked := Exec(w, first);
    var second, again := Settles(asked, q, ReplyDuplicate(""));
    SerialJoins(w, first, second);
    events := first + second;
    CallStays(w, asked, id, call);
    CallStays(asked, Exec(w, events), id, call);
  }

  lemma Registers(v: World, first: seq<Event>, id: nat, q: nat, r: nat) returns (events: seq<Event>, call: Call)
    requires Serial(v, first) && Inv(Exec(v, first)) && Overlapping(Exec(v, first), id, q, r)
    ensures Serial(v, events) && Inv(Exec(v, events))
    ensures SettledBeside(Exec(v, events), id, r) && Called(Exec(v, events), id, call)
    ensures Beside(Exec(v, first), Exec(v, events), r)
  {
    var overlapping := Exec(v, first);
    var second;
    second, call := Settles(overlapping, q, ReplyRegistered("", "PENDING"));
    OlderRunStays(overlapping, Exec(overlapping, second), id, q, r);
    SerialJoins(v, first, second);
    events := first + second;
  }

  /** After a retry that does not wait, the file can be registered beside the older run. */
  lemma RetryRegisters(w: World, id: nat, unexpired: bool) returns (events: seq<Event>, call: Call, r: nat)
    requires Inv(w) && AllSerial(w) && Enabled(w, Retry(id, unexpired)) && !Idle(w, id)
    ensures var v := Step(w, Retry(id, unexpired));
            && Serial(v, events) && Inv(Exec(v, events)) && Called(Exec(v, events), id, call)
            && SettledBeside(Exec(v, events), id, r) && Beside(w, Exec(v, events), r)
  {
    var v := Step(w, Retry(id, unexpired));
    r := StillHolding(w, id);
    var first := Overlaps(w, id, unexpired, r);
    events, call := Registers(v, first, id, w.nextRun, r);
    BesideTwice(w, Exec(v, first), Exec(v, events), r);
  }

  /** One retry that does not wait is enough.  From there on every retry may wait, and still: the file is
      registered beside the older run; the end of that run cancels the registered item; and a second
      retry sends the file again under another intent, so that it ends as a duplicate of itself. */
  lemma OverlapUnsettles(w: World, id: nat, unexpired: bool)
    returns (registers: seq<Event>, r: nat, ends: Event, repeats: seq<Event>)
    requires Inv(w) && AllSerial(w) && Enabled(w, Retry(id, unexpired)) && !Idle(w, id)
    ensures var registered := Exec(Step(w, Retry(id, unexpired)), registers);
            var cancelled := Step(registered, ends);
            var repeated := Exec(cancelled, repeats);
            && Serial(Step(w, Retry(id, unexpired)), registers + [ends] + repeats)
            && Exec(Step(w, Retry(id, unexpired)), registers + [ends] + repeats) == repeated
            && Serial(Step(w, Retry(id, unexpired)), registers) && Serial(registered, [ends])
            && SettledBeside(registered, id, r)
            && id < |cancelled.zone.items| && cancelled.zone.items[id].status == Cancelled
            && !NamesOneIntent(repeated, id)
            && id < |repeated.zone.items| && repeated.zone.items[id].status == Duplicate
  {
    var v := Step(w, Retry(id, unexpired));
    var call;
    registers, call, r := RetryRegisters(w, id, unexpired);
    var registered := Exec(v, registers);
    ends := LateFailure(registered, r);
    Unsettles(registered, id, r);
    SerialAppends(registered, [], ends);
    assert [] + [ends] == [ends];
    CallStays(registered, Step(registered, ends), id, call);
    repeats := Repeats(Step(registered, ends), id, call);
    SerialAppends(v, registers, ends);
    SerialJoins(v, registers + [ends], repeats);
  }

  // ---------- the exact guard of a retry ----------

  lemma SettledStep(w: World, e: Event, id: nat)
    requires Inv(w) && AllSerial(w) && Settled(w, id)
    ensures Settled(Step(w, e), id)
  {
    assert ItemSerial(w, id);
    if !Retries(e, id) { StepRests(w, e, id); }
  }

  /** In every run in which retries wait, a settled item stays settled. */
  lemma {:induction false} SettledStays(w: World, events: seq<Event>, id: nat)
    requires Inv(w) && AllSerial(w) && Serial(w, events) && Settled(w, id)
    ensures Settled(Exec(w, events), id)
    decreases |events|
  {
    if events != [] {
      SettledStep(w, events[0], id);
      StepKeepsInv(w, events[0]);
      StepSerial(w, events[0]);
      SettledStays(Step(w, events[0]), events[1..], id);
    }
  }

  /** Every continuation in which retries wait completes the item under one intent only. */
  ghost predicate OneIntentFrom(w: World, id: nat) {
    forall after :: Serial(w, after) ==> NamesOneIntent(Exec(w, after), id)
  }

  /** In every such continuation the item stays settled once it is. */
  ghost predicate FinalFrom(w: World, id: nat) {
    forall after, more :: Serial(w, after) && Settled(Exec(w, after), id) && Serial(Exec(w, after), more)
                          ==> Settled(Exec(Exec(w, after), more), id)
  }

  lemma WaitingRetryIsSafe(w: World, id: nat, unexpired: bool)
    requires Inv(w) && AllSerial(w) && DocumentsCalled(w) && Idle(w, id)
    ensures OneIntentFrom(Step(w, Retry(id, unexpired)), id) && FinalFrom(Step(w, Retry(id, unexpired)), id)
  {
    var e := Retry(id, unexpired);
    var v := Step(w, e);
    StepKeepsInv(w, e);
    StepSerial(w, e);
    StepDocuments(w, e);
    forall after | Serial(v, after) ensures NamesOneIntent(Exec(v, after), id) {
      ExecSerial(v, after);
      assert ItemSerial(Exec(v, after), id);
    }
    forall after, more | Serial(v, after) && Settled(Exec(v, after), id) && Serial(Exec(v, after), more)
      ensures Settled(Exec(Exec(v, after), more), id)
    {
      ExecSerial(v, after);
      SettledStays(Exec(v, after), more, id);
    }
  }

  lemma SecondIntent(v: World, id: nat, after: seq<Event>)
    requires Serial(v, after) && !NamesOneIntent(Exec(v, after), id)
    ensures !OneIntentFrom(v, id)
  {
  }

  lemma Unsettled(v: World, id: nat, after: seq<Event>, more: seq<Event>)
    requires Serial(v, after) && Settled(Exec(v, after), id)
    requires Serial(Exec(v, after), more) && !Settled(Exec(Exec(v, after), more), id)
    ensures !FinalFrom(v, id)
  {
  }

  lemma OverlappingRetryIsNot(w: World, id: nat, unexpired: bool)
    requires Inv(w) && AllSerial(w) && Enabled(w, Retry(id, unexpired)) && !Idle(w, id)
    ensures !OneIntentFrom(Step(w, Retry(id, unexpired)), id) && !FinalFrom(Step(w, Retry(id, unexpired)), id)
  {
    var v := Step(w, Retry(id, unexpired));
    var registers, r, ends, repeats := OverlapUnsettles(w, id, unexpired);
    assert [ends][1..] == [];
    SecondIntent(v, id, registers + [ends] + repeats);
    Unsettled(v, id, registers, [ends]);
  }

  /** The exact guard of a retry.  After any events in which retries waited, a retry that is offered keeps
      its file under one intent, whatever follows in which retries wait, if and only if no run of the item
      is pending when it is made; and exactly then does the item stay settled once it is. */
  lemma RetryGuard(events: seq<Event>, id: nat, unexpired: bool)
    requires Serial(Init(), events) && Enabled(Exec(Init(), events), Retry(id, unexpired))
    ensures var w := Exec(Init(), events);
            var v := Step(w, Retry(id, unexpired));
            && (Idle(w, id) <==> OneIntentFrom(v, id))
            && (Idle(w, id) <==> FinalFrom(v, id))
  {
    InitInv();
    ExecSerial(Init(), events);
    var w := Exec(Init(), events);
    if Idle(w, id) { WaitingRetryIsSafe(w, id, unexpired); } else { OverlappingRetryIsNot(w, id, unexpired); }
  }

  // ---------- such a retry is offered ----------

  /** An item whose intent is asked for, and the same item cancelled. */
  function Asking(file: File, status: Status, aborted: bool): World {
    World(Zone([Item(0, file, status, 0, None, None, None, None)], map[0 := 0], map[], [aborted], []),
          map[0 := AwaitIntent(0, 0)], 1, map[0 := 0], map[], [], [])
  }

  lemma Asks(file: File)
    requires file.supported
    ensures Step(Init(), SelectFiles([file])) == Asking(file, RequestingIntent, false)
  {
    BatchIsOneByOne(Init(), [file]);
    assert [file][1..] == [];
  }

  lemma CancelledWhileAsking(file: File)
    ensures Step(Asking(file, RequestingIntent, false), Cancel(0)) == Asking(file, Cancelled, true)
  {
  }

  lemma StillAsking(file: File)
    ensures var w := Asking(file, Cancelled, true); Enabled(w, Retry(0, true)) && !Idle(w, 0)
  {
    assert Works(Asking(file, Cancelled, true).runs[0], 0);
  }

  /** Select a file and cancel it while its intent is asked for. */
  function CancelledAtOnce(file: File): seq<Event> { [SelectFiles([file])] + [Cancel(0)] }

  lemma CancelledAtOnceAsks(file: File)
    requires file.supported
    ensures Serial(Init(), CancelledAtOnce(file))
    ensures Exec(Init(), CancelledAtOnce(file)) == Asking(file, Cancelled, true)
  {
    Asks(file);
    CancelledWhileAsking(file);
    assert [SelectFiles([file])][1..] == [];
    SerialAppends(Init(), [SelectFiles([file])], Cancel(0));
  }

  /** Then a retry is offered that does not wait. */
  lemma OverlapIsOffered(file: File)
    requires file.supported
    ensures var w := Exec(Init(), CancelledAtOnce(file));
            Serial(Init(), CancelledAtOnce(file)) && Enabled(w, Retry(0, true)) && !Idle(w, 0)
  {
    CancelledAtOnceAsks(file);
    StillAsking(file);
  }

  lemma ReachedBy(before: seq<Event>, e: Event, after: seq<Event>)
    ensures Reachable(Exec(Step(Exec(Init(), before), e), after))
  {
    ExecAppends(Init(), before, [e] + after);
    assert ([e] + after)[1..] == after;
    assert Exec(Init(), before + ([e] + after)) == Exec(Step(Exec(Init(), before), e), after);
  }

  /** The run is at a stage with a controller, which is aborted. */
  ghost predicate Stopped(w: World, r: nat) {
    && r in w.runs && Holding(w.runs[r])
    && w.runs[r].controller < |w.zone.aborted| && w.zone.aborted[w.runs[r].controller]
  }

  lemma StoppedWhileAsking(file: File, v: World, r: nat)
    requires Beside(Asking(file, Cancelled, true), v, r)
    ensures Stopped(v, r)
  {
  }

  /** After any retry that does not wait, the item can be registered with the older run pending as it was. */
  lemma RegistersBeside(before: seq<Event>, id: nat, unexpired: bool) returns (w: World, r: nat)
    requires Serial(Init(), before) && Enabled(Exec(Init(), before), Retry(id, unexpired))
    requires !Idle(Exec(Init(), before), id)
    ensures Reachable(w) && SettledBeside(w, id, r) && Beside(Exec(Init(), before), w, r)
  {
    InitInv();
    ExecSerial(Init(), before);
    var registers, call;
    registers, call, r := RetryRegisters(Exec(Init(), before), id, unexpired);
    w := Exec(Step(Exec(Init(), before), Retry(id, unexpired)), registers);
    ReachedBy(before, Retry(id, unexpired), registers);
  }

  /** So a registered item is reached with an older run pending whose controller is aborted: however the
      stage of that run ends, it cancels the registered item. */
  lemma RegisteredBesideOlderRun(file: File) returns (w: World, r: nat)
    requires file.supported
    ensures Reachable(w) && SettledBeside(w, 0, r) && Stopped(w, r)
  {
    OverlapIsOffered(file);
    CancelledAtOnceAsks(file);
    w, r := RegistersBeside(CancelledAtOnce(file), 0, true);
    StoppedWhileAsking(file, w, r);
  }
}
