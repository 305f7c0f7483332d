/** When the console's polling goes on and when it ends, told by the answers that it got. */
module PollingChains {
  import opened Options
  import opened PollingModel
  import opened PollingRuns

  /** Some task is pending, running or waiting to be retried, or some stage is in progress. */
  predicate AtWork(status: OrchestrationStatus) {
    || (exists k :: 0 <= k < |status.tasks| && status.tasks[k] in ["PENDING", "RUNNING", "RETRY_WAIT"])
    || (exists k :: 0 <= k < |status.readiness| && status.readiness[k] == "IN_PROGRESS")
  }

  lemma InFlightIff(status: OrchestrationStatus)
    ensures IsInFlight(status) <==> AtWork(status)
  {
    if exists task <- status.tasks :: IsTaskInFlight(task) {
      var task :| task in status.tasks && IsTaskInFlight(task);
      var k :| 0 <= k < |status.tasks| && status.tasks[k] == task;
    }
    if k :| 0 <= k < |status.tasks| && status.tasks[k] in ["PENDING", "RUNNING", "RETRY_WAIT"] {
      assert IsTaskInFlight(status.tasks[k]);
    }
  }

  /** The answer says that work is going on. */
  predicate Working(answer: Answer) { answer.Ok? && AtWork(answer.status) }

  /** The answers that a token's chain got. */
  function HeardOf(heard: seq<Heard>, token: nat): seq<Answer> {
    if heard == [] then []
    else
      var init, last := HeardOf(heard[..|heard| - 1], token), heard[|heard| - 1];
      if last.source == ByPoll(token) then init + [last.answer] else init
  }

  lemma HeardAppends(heard: seq<Heard>, h: Heard, token: nat)
    ensures HeardOf(heard + [h], token)
            == if h.source == ByPoll(token) then HeardOf(heard, token) + [h.answer] else HeardOf(heard, token)
  {
    assert (heard + [h])[..|heard|] == heard;
  }

  // ---------- the invariant ----------

  ghost predicate AllWorking(answers: seq<Answer>) { forall k :: 0 <= k < |answers| ==> Working(answers[k]) }

  /** n refreshes were made and these answers heard: after one that ends the chain there is no further one. */
  ghost predicate Ordered(answers: seq<Answer>, n: nat) {
    && |answers| <= n <= 20
    && (forall k :: 0 <= k < |answers| && !Working(answers[k]) ==> n == k + 1)
  }

  /** The chain got an answer that ends it, or its 20th. */
  ghost predicate Ended(answers: seq<Answer>, n: nat) {
    |answers| == n > 0 && (!Working(answers[n - 1]) || n == 20)
  }

  /** A suspended cycle agrees with what its chain did and heard so far. */
  ghost predicate FrameTold(frame: Frame, answers: seq<Answer>, n: nat) {
    match frame
    case PollRequest(_, remaining) => n + remaining == 20 && |answers| + 1 == n && AllWorking(answers)
    case PollRefreshed(_, remaining, next) =>
      && n + remaining == 20 && |answers| == n > 0
      && next == (if answers[n - 1].Ok? then Some(answers[n - 1].status) else None)
    case _ => true
  }

  ghost predicate TickTold(tick: Tick, answers: seq<Answer>, n: nat) {
    n + tick.remaining + 1 == 20 && |answers| == n && AllWorking(answers)
  }

  ghost predicate DistinctTokens(frames: seq<Frame>) {
    forall i, j :: 0 <= i < j < |frames| && InCycle(frames[i]) && InCycle(frames[j]) ==>
      frames[i].token != frames[j].token
  }

  ghost predicate AllOrdered(w: World) { forall t: nat :: Ordered(HeardOf(w.heard, t), w.polled[t]) }

  ghost predicate FramesTold(w: World) {
    forall k :: 0 <= k < |w.frames| && InCycle(w.frames[k]) ==>
      FrameTold(w.frames[k], HeardOf(w.heard, w.frames[k].token), w.polled[w.frames[k].token])
  }

  ghost predicate TicksTold(w: World) {
    forall t <- w.console.armed ::
      TickTold(w.console.armed[t], HeardOf(w.heard, w.console.armed[t].token), w.polled[w.console.armed[t].token])
  }

  /** A chain that was begun and is not live any more has ended. */
  ghost predicate LiveOrEnded(w: World) {
    w.console.token > 0 ==>
      LiveChains(w) == 1 || Ended(HeardOf(w.heard, w.console.token), w.polled[w.console.token])
  }

  ghost predicate Told(w: World) {
    && AllOrdered(w)
    && (w.console.mounted ==> DistinctTokens(w.frames) && FramesTold(w) && TicksTold(w) && LiveOrEnded(w))
  }

  // ---------- every step keeps it ----------

  /** The chains did not notice the step. */
  ghost predicate SameChains(w: World, v: World) {
    && v.polled == w.polled && (forall t: nat :: HeardOf(v.heard, t) == HeardOf(w.heard, t))
    && v.console.armed == w.console.armed && v.console.token == w.console.token
    && v.console.mounted == w.console.mounted && LiveChains(v) == LiveChains(w)
    && DistinctTokens(v.frames)
    && forall frame <- v.frames :: InCycle(frame) ==> frame in w.frames
  }

  lemma SameChainsTold(w: World, v: World)
    requires Told(w) && SameChains(w, v)
    ensures Told(v)
  {
    if v.console.mounted {
      forall k | 0 <= k < |v.frames| && InCycle(v.frames[k])
        ensures FrameTold(v.frames[k], HeardOf(v.heard, v.frames[k].token), v.polled[v.frames[k].token])
      {
        assert v.frames[k] in w.frames;
        var j :| 0 <= j < |w.frames| && w.frames[j] == v.frames[k];
      }
    }
  }

  lemma HeardElsewhere(w: World, source: Source, answer: Answer)
    requires !source.ByPoll?
    ensures forall t: nat :: HeardOf(Landed(w, source, answer), t) == HeardOf(w.heard, t)
  {
    forall t: nat ensures HeardOf(Landed(w, source, answer), t) == HeardOf(w.heard, t) {
      HeardAppends(w.heard, Heard(source, answer), t);
    }
  }

  lemma HoldingOther(frame: Frame, token: nat)
    ensures Holding([frame], token) == if InCycle(frame) && frame.token == token then 1 else 0
  {
    assert [frame][1..] == [];
  }

  /** A call that is not a cycle is begun. */
  lemma AddedTold(w: World, v: World, frame: Frame)
    requires Inv(w) && Told(w) && w.console.mounted && !InCycle(frame) && v.frames == w.frames + [frame]
    requires v.console == w.console.(shown := v.console.shown) && v.polled == w.polled && v.heard == w.heard
    ensures Told(v)
  {
    Added(w.frames, frame, w.console.token);
    HoldingOther(frame, w.console.token);
    SameChainsTold(w, v);
  }

  /** A call that is not a cycle ends, or goes on as another such call. */
  lemma CallEndsTold(w: World, v: World, i: nat, next: seq<Frame>)
    requires Inv(w) && Told(w) && w.console.mounted && i < |w.frames| && !InCycle(w.frames[i])
    requires |next| <= 1 && forall frame <- next :: !InCycle(frame)
    requires v.frames == if next == [] then Remove(w.frames, i) else w.frames[i := next[0]]
    requires v.console == w.console.(shown := v.console.shown) && v.polled == w.polled
    requires forall t: nat :: HeardOf(v.heard, t) == HeardOf(w.heard, t)
    ensures Told(v)
  {
    HoldingOther(w.frames[i], w.console.token);
    if next == [] {
      Removed(w.frames, i, w.console.token);
      RemovedDistinct(w.frames, i);
    } else {
      Replaced(w.frames, i, next[0], w.console.token);
      HoldingOther(next[0], w.console.token);
    }
    SameChainsTold(w, v);
  }

  lemma RemovedDistinct(frames: seq<Frame>, i: nat)
    requires DistinctTokens(frames) && i < |frames|
    ensures DistinctTokens(Remove(frames, i))
    ensures InCycle(frames[i]) ==>
              forall frame <- Remove(frames, i) :: InCycle(frame) ==> frame.token != frames[i].token
  {
    var rest := Remove(frames, i);
    forall k | 0 <= k < |rest| ensures rest[k] == frames[if k < i then k else k + 1] { }
  }

  /** The other cycles agree with their chains when a call ends. */
  lemma RemovedTold(w: World, v: World, i: nat)
    requires FramesTold(w) && DistinctTokens(w.frames) && i < |w.frames| && v.frames == Remove(w.frames, i)
    requires v.polled == w.polled && forall t: nat :: HeardOf(v.heard, t) == HeardOf(w.heard, t)
    ensures FramesTold(v) && DistinctTokens(v.frames)
  {
    RemovedDistinct(w.frames, i);
    Removed(w.frames, i, 0);
    forall k | 0 <= k < |v.frames| && InCycle(v.frames[k])
      ensures FrameTold(v.frames[k], HeardOf(v.heard, v.frames[k].token), v.polled[v.frames[k].token])
    {
      assert v.frames[k] in w.frames;
      var j :| 0 <= j < |w.frames| && w.frames[j] == v.frames[k];
    }
  }

  /** A chain is begun: nothing was heard of its token yet. */
  lemma BegunTold(w: World, v: World, i: nat)
    requires Inv(w) && Told(w) && w.console.mounted && i < |w.frames| && !InCycle(w.frames[i])
    requires v.frames == Remove(w.frames, i) && v.polled == w.polled
    requires v.console == BeginPolling(w.console).(shown := v.console.shown)
    requires forall t: nat :: HeardOf(v.heard, t) == HeardOf(w.heard, t)
    requires LiveChains(v) == 1
    ensures Told(v)
  {
    var unused := w.console.token + 1;
    assert w.polled[unused] == 0 && Ordered(HeardOf(w.heard, unused), 0);
    OneTimer(w.console);
    assert v.console.armed == map[w.console.nextTimer := Tick(unused, 19)];
    RemovedTold(w, v, i);
  }

  lemma LoadAnswersTold(w: World, i: nat, answer: Answer)
    requires Inv(w) && Told(w) && w.console.mounted && Enabled(w, LoadAnswers(i, answer))
    ensures Told(Step(w, LoadAnswers(i, answer)))
  {
    var v := Step(w, LoadAnswers(i, answer));
    HeardElsewhere(w, ByLoad, answer);
    if answer.Ok? && IsInFlight(answer.status) {
      BeginPollingKeepsInv(w, v, i);
      BegunTold(w, v, i);
    } else {
      CallEndsTold(w, v, i, []);
    }
  }

  /** A cycle is begun by its timer: no other one holds its token. */
  lemma BegunCycleTold(w: World, v: World, token: nat, remaining: nat)
    requires Told(w) && w.console.mounted && v.heard == w.heard && v.polled == w.polled + multiset{token}
    requires forall frame <- w.frames :: InCycle(frame) ==> frame.token != token
    requires v.frames == w.frames + [PollRequest(token, remaining)]
    requires TickTold(Tick(token, remaining), HeardOf(w.heard, token), w.polled[token])
    ensures AllOrdered(v) && DistinctTokens(v.frames) && FramesTold(v)
  {
    forall t: nat ensures Ordered(HeardOf(v.heard, t), v.polled[t]) {
      assert Ordered(HeardOf(w.heard, t), w.polled[t]);
    }
  }

  lemma TimerTold(w: World, timer: nat)
    requires Inv(w) && Told(w) && timer in w.console.armed
    ensures Told(Step(w, TimerFires(timer)))
  {
    var v := Step(w, TimerFires(timer));
    var Tick(token, remaining) := w.console.armed[timer];
    OneTimer(w.console);
    assert v.console.armed == map[];
    NotHeld(w.frames, token);
    BegunCycleTold(w, v, token, remaining);
    Added(w.frames, PollRequest(token, remaining), token);
    HoldingOther(PollRequest(token, remaining), token);
  }

  lemma PollHeard(w: World, token: nat, answer: Answer, t: nat)
    requires w.console.mounted
    ensures HeardOf(Landed(w, ByPoll(token), answer), t)
            == if t == token then HeardOf(w.heard, t) + [answer] else HeardOf(w.heard, t)
  {
    HeardAppends(w.heard, Heard(ByPoll(token), answer), t);
  }

  lemma PollAnswersFrames(w: World, i: nat, answer: Answer)
    requires Told(w) && w.console.mounted && Enabled(w, PollAnswers(i, answer))
    ensures var v := Step(w, PollAnswers(i, answer)); DistinctTokens(v.frames) && FramesTold(v) && AllOrdered(v)
  {
    var v := Step(w, PollAnswers(i, answer));
    var token := w.frames[i].token;
    assert FrameTold(w.frames[i], HeardOf(w.heard, token), w.polled[token]);
    forall t: nat ensures Ordered(HeardOf(v.heard, t), v.polled[t]) {
      PollHeard(w, token, answer, t);
      assert Ordered(HeardOf(w.heard, t), w.polled[t]);
    }
    forall k | 0 <= k < |v.frames| && InCycle(v.frames[k])
      ensures FrameTold(v.frames[k], HeardOf(v.heard, v.frames[k].token), v.polled[v.frames[k].token])
    {
      PollHeard(w, token, answer, v.frames[k].token);
    }
  }

  lemma PollAnswersTold(w: World, i: nat, answer: Answer)
    requires Inv(w) && Told(w) && w.console.mounted && Enabled(w, PollAnswers(i, answer))
    ensures Told(Step(w, PollAnswers(i, answer)))
  {
    var v := Step(w, PollAnswers(i, answer));
    PollAnswersFrames(w, i, answer);
    Removed(w.frames, i, w.console.token);
    Replaced(w.frames, i, v.frames[i], w.console.token);
    HoldingOther(w.frames[i], w.console.token);
    HoldingOther(v.frames[i], w.console.token);
    PollHeard(w, w.frames[i].token, answer, w.console.token);
    OneTimer(w.console);
  }

  /** What is left of the timers and of the current chain when a call ends. */
  lemma EndsCall(w: World, i: nat)
    requires Inv(w) && i < |w.frames|
    ensures Holding(Remove(w.frames, i), w.console.token)
            == Holding(w.frames, w.console.token)
               - (if InCycle(w.frames[i]) && w.frames[i].token == w.console.token then 1 else 0)
    ensures InCycle(w.frames[i]) && w.frames[i].token == w.console.token ==>
              w.console.armed == map[] && Holding(w.frames, w.console.token) == 1
  {
    Removed(w.frames, i, w.console.token);
    HoldingOther(w.frames[i], w.console.token);
    OneTimer(w.console);
  }

  /** The last answer decides whether the cycle goes on. */
  lemma NextOfCycle(w: World, i: nat)
    requires Told(w) && w.console.mounted && i < |w.frames| && w.frames[i].PollRefreshed?
    ensures var PollRefreshed(token, remaining, next) := w.frames[i];
            var answers := HeardOf(w.heard, token);
            && |answers| == w.polled[token] > 0 && w.polled[token] + remaining == 20
            && (next.Some? && IsInFlight(next.value) <==> Working(answers[|answers| - 1]))
            && (next.Some? <==> answers[|answers| - 1].Ok?)
            && (next.Some? ==> next.value == answers[|answers| - 1].status)
            && (Working(answers[|answers| - 1]) ==> AllWorking(answers))
  {
    var PollRefreshed(token, _, next) := w.frames[i];
    assert FrameTold(w.frames[i], HeardOf(w.heard, token), w.polled[token]);
    assert Ordered(HeardOf(w.heard, token), w.polled[token]);
    if next.Some? { InFlightIff(next.value); }
  }

  lemma PollResumesTold(w: World, i: nat)
    requires Inv(w) && Told(w) && w.console.mounted && Enabled(w, PollResumes(i))
    ensures Told(Step(w, PollResumes(i)))
  {
    var v := Step(w, PollResumes(i));
    EndsCall(w, i);
    NextOfCycle(w, i);
    RemovedTold(w, v, i);
    CurrentTold(w, v, i);
  }

  lemma CurrentTold(w: World, v: World, i: nat)
    requires Inv(w) && Told(w) && w.console.mounted && Enabled(w, PollResumes(i)) && v == Step(w, PollResumes(i))
    ensures TicksTold(v) && LiveOrEnded(v)
  {
    EndsCall(w, i);
    NextOfCycle(w, i);
  }

  lemma AdvanceResumesTold(w: World, i: nat)
    requires Inv(w) && Told(w) && w.console.mounted && Enabled(w, AdvanceResumes(i))
    ensures Told(Step(w, AdvanceResumes(i)))
  {
    BeginPollingKeepsInv(w, Step(w, AdvanceResumes(i)), i);
    BegunTold(w, Step(w, AdvanceResumes(i)), i);
  }

  lemma StepTold(w: World, e: Event)
    requires Inv(w) && Told(w)
    ensures Told(Step(w, e))
  {
    if !w.console.mounted {
      UnmountedStep(w, e);
    } else if Enabled(w, e) {
      var v := Step(w, e);
      match e {
        case Load => AddedTold(w, v, LoadRequest);
        case LoadAnswers(i, answer) => LoadAnswersTold(w, i, answer);
        case TimerFires(timer) => TimerTold(w, timer);
        case PollAnswers(i, answer) => PollAnswersTold(w, i, answer);
        case PollResumes(i) => PollResumesTold(w, i);
        case Advance => AddedTold(w, v, AdvanceRequest);
        case AdvanceAnswers(i, created) => CallEndsTold(w, v, i, [AdvanceRefreshRequest]);
        case AdvanceFails(i, message) => CallEndsTold(w, v, i, []);
        case AdvanceRefreshAnswers(i, answer) =>
          HeardElsewhere(w, ByAdvance, answer);
          CallEndsTold(w, v, i, [AdvanceRefreshDone]);
        case AdvanceResumes(i) => AdvanceResumesTold(w, i);
        case Unmount =>
      }
    }
  }

  lemma {:induction false} ExecTold(w: World, events: seq<Event>)
    requires Inv(w) && Told(w)
    ensures Inv(Exec(w, events)) && Told(Exec(w, events))
    decreases |events|
  {
    if events != [] {
      StepKeepsInv(w, events[0]);
      StepTold(w, events[0]);
      ExecTold(Step(w, events[0]), events[1..]);
    }
  }

  // ---------- the theorems ----------

  lemma ReachedTold(events: seq<Event>)
    ensures Inv(Exec(Init(), events)) && Told(Exec(Init(), events))
  {
    ExecTold(Init(), events);
  }

  /** Over any events, for the chain of any token: it is refreshed at most 20 times, and no refresh follows an
      answer that failed or that shows no work going on. */
  lemma NoRefreshAfterTheLast(events: seq<Event>, token: nat)
    ensures var w := Exec(Init(), events);
            Ordered(HeardOf(w.heard, token), w.polled[token])
  {
    ReachedTold(events);
  }

  /** While mounted, a chain that was begun and not replaced is live, or it ended after a failed refresh,
      after an answer that shows no work going on, or after its 20th refresh. */
  lemma ChainEndsOnlyIfDone(events: seq<Event>)
    requires Exec(Init(), events).console.mounted && Exec(Init(), events).console.token > 0
    ensures var w := Exec(Init(), events);
            LiveChains(w) == 1 || Ended(HeardOf(w.heard, w.console.token), w.polled[w.console.token])
  {
    ReachedTold(events);
  }

  /** What the last answer of a chain leads to, while it is current: another refresh, and nothing changes on
      the screen, as long as work is going on and fewer than 20 refreshes were made; and else the end of the
      chain, with the advance button free again and a message that sums up the settled work, or says that it
      is still going on, or is left alone after a failure. */
  lemma AnswerDecides(events: seq<Event>, i: nat)
    requires var w := Exec(Init(), events);
             Enabled(w, PollResumes(i)) && w.console.mounted && w.frames[i].token == w.console.token
    ensures var w := Exec(Init(), events);
            var v, answers := Step(w, PollResumes(i)), HeardOf(w.heard, w.console.token);
            && answers != []
            && var last := answers[|answers| - 1];
            if Working(last) && |answers| < 20 then
              LiveChains(v) == 1 && |v.console.armed| == 1 && v.console.shown == w.console.shown
            else
              && LiveChains(v) == 0 && v.console.armed == map[] && !v.console.shown.advancing
              && v.console.shown == w.console.shown.(advancing := false, liveMessage := v.console.shown.liveMessage)
              && v.console.shown.liveMessage
                 == if last.Error? then w.console.shown.liveMessage
                    else if Working(last) then StillProcessing else SettledAs(last.status)
  {
    var w := Exec(Init(), events);
    ReachedTold(events);
    EndsCall(w, i);
    NextOfCycle(w, i);
  }

  /** A cycle that is outdated when its refresh is answered changes nothing. */
  lemma OutdatedCycleIsSilent(w: World, i: nat)
    requires Enabled(w, PollResumes(i)) && !(w.console.mounted && w.frames[i].token == w.console.token)
    ensures var v := Step(w, PollResumes(i)); v.console == w.console && v.gets == w.gets && v.heard == w.heard
  {
  }

  // ---------- what is shown ----------

  /** The last status that was answered to anyone. */
  function LastStatus(heard: seq<Heard>): Option<OrchestrationStatus> {
    if heard == [] then None
    else if heard[|heard| - 1].answer.Ok? then Some(heard[|heard| - 1].answer.status)
    else LastStatus(heard[..|heard| - 1])
  }

  /** The failure of the last refresh, if it failed. */
  function LastFailure(heard: seq<Heard>): Option<string> {
    if heard == [] then None
    else if heard[|heard| - 1].source.ByLoad? then LastFailure(heard[..|heard| - 1])
    else if heard[|heard| - 1].answer.Error? then Some(heard[|heard| - 1].answer.message)
    else None
  }

  ghost predicate ShownTruly(w: World) {
    w.console.shown.status == LastStatus(w.heard) && w.console.shown.refreshError == LastFailure(w.heard)
  }

  lemma LastHeard(heard: seq<Heard>, h: Heard)
    ensures LastStatus(heard + [h]) == if h.answer.Ok? then Some(h.answer.status) else LastStatus(heard)
    ensures LastFailure(heard + [h]) == if h.source.ByLoad? then LastFailure(heard)
                                        else if h.answer.Error? then Some(h.answer.message) else None
  {
    assert (heard + [h])[..|heard|] == heard;
  }

  lemma LoadShown(w: World, i: nat, answer: Answer)
    requires ShownTruly(w) && Enabled(w, LoadAnswers(i, answer))
    ensures ShownTruly(Step(w, LoadAnswers(i, answer)))
  {
    LastHeard(w.heard, Heard(ByLoad, answer));
  }

  lemma PollShown(w: World, i: nat, answer: Answer)
    requires ShownTruly(w) && Enabled(w, PollAnswers(i, answer))
    ensures ShownTruly(Step(w, PollAnswers(i, answer)))
  {
    LastHeard(w.heard, Heard(ByPoll(w.frames[i].token), answer));
  }

  lemma RefreshShown(w: World, i: nat, answer: Answer)
    requires ShownTruly(w) && Enabled(w, AdvanceRefreshAnswers(i, answer))
    ensures ShownTruly(Step(w, AdvanceRefreshAnswers(i, answer)))
  {
    LastHeard(w.heard, Heard(ByAdvance, answer));
  }

  /** No other event changes the status or the refresh error. */
  lemma OtherShown(w: World, e: Event)
    requires !e.LoadAnswers? && !e.PollAnswers? && !e.AdvanceRefreshAnswers?
    ensures var v := Step(w, e);
            && v.console.shown.status == w.console.shown.status
            && v.console.shown.refreshError == w.console.shown.refreshError && v.heard == w.heard
  {
  }

  lemma StepShown(w: World, e: Event)
    requires ShownTruly(w)
    ensures ShownTruly(Step(w, e))
  {
    if Enabled(w, e) {
      match e {
        case LoadAnswers(i, answer) => LoadShown(w, i, answer);
        case PollAnswers(i, answer) => PollShown(w, i, answer);
        case AdvanceRefreshAnswers(i, answer) => RefreshShown(w, i, answer);
        case _ => OtherShown(w, e);
      }
    }
  }

  lemma {:induction false} ExecShown(w: World, events: seq<Event>)
    requires ShownTruly(w)
    ensures ShownTruly(Exec(w, events))
    decreases |events|
  {
    if events != [] {
      StepShown(w, events[0]);
      ExecShown(Step(w, events[0]), events[1..]);
    }
  }

  /** In whatever order answers land: the status shown is the last one that was answered while mounted, and a
      refresh error is shown exactly if the last refresh failed. */
  lemma LastAnswerIsShown(events: seq<Event>)
    ensures var w := Exec(Init(), events);
            w.console.shown.status == LastStatus(w.heard) && w.console.shown.refreshError == LastFailure(w.heard)
  {
    ExecShown(Init(), events);
  }

  /** A load shows that it waits and asks once; an advance shows that it is under way and asks for nothing
      yet; and neither touches the chains. */
  lemma CallsBegin(w: World)
    requires w.console.mounted
    ensures var v := Step(w, Load);
            && v.console == w.console.(shown := w.console.shown.(loading := true, loadError := None))
            && v.gets == w.gets + 1 && v.frames == w.frames + [LoadRequest]
    ensures var v := Step(w, Advance);
            && v.console == w.console.(shown := w.console.shown.(advancing := true, advanceError := None,
                                                                 liveMessage := RequestReceived))
            && v.gets == w.gets && v.frames == w.frames + [AdvanceRequest]
  {
  }

  /** A load that is answered while mounted begins a chain exactly if work is going on, and ends the waiting
      state; a failed one shows its error and leaves the chains alone. */
  lemma LoadBeginsIffWorking(events: seq<Event>, i: nat, answer: Answer)
    requires var w := Exec(Init(), events); Enabled(w, LoadAnswers(i, answer)) && w.console.mounted
    ensures var w := Exec(Init(), events);
            var v := Step(w, LoadAnswers(i, answer));
            && !v.console.shown.loading && v.console.shown.advancing == w.console.shown.advancing
            && v.console.shown.loadError == (if answer.Error? then Some(answer.message) else w.console.shown.loadError)
            && if Working(answer) then v.console.token == w.console.token + 1 && LiveChains(v) == 1
               else v.console.token == w.console.token && LiveChains(v) == LiveChains(w)
  {
    var w := Exec(Init(), events);
    ReachedTold(events);
    LoadAnswered(w, i, answer);
  }

  lemma LoadAnswered(w: World, i: nat, answer: Answer)
    requires Inv(w) && Enabled(w, LoadAnswers(i, answer)) && w.console.mounted
    ensures var v := Step(w, LoadAnswers(i, answer));
            if Working(answer) then v.console.token == w.console.token + 1 && LiveChains(v) == 1
            else v.console.token == w.console.token && LiveChains(v) == LiveChains(w)
  {
    EndsCall(w, i);
    if answer.Ok? {
      InFlightIff(answer.status);
      if AtWork(answer.status) { BeginPollingKeepsInv(w, Step(w, LoadAnswers(i, answer)), i); }
    }
  }

  /** An answered advance refreshes if it was accepted; if it was refused it shows its error and frees the
      button. */
  lemma AdvanceAnswered(w: World, i: nat, created: bool, message: string)
    requires w.console.mounted && Enabled(w, AdvanceAnswers(i, created))
    ensures var v := Step(w, AdvanceAnswers(i, created));
            && v.gets == w.gets + 1 && v.frames == w.frames[i := AdvanceRefreshRequest]
            && v.console.shown == w.console.shown.(liveMessage := Scheduling(created))
    ensures var shown := Step(w, AdvanceFails(i, message)).console.shown;
            !shown.advancing && shown.advanceError == Some(message) && shown.liveMessage == AdvanceFailed
  {
  }

  /** After its refresh an accepted advance begins a chain of its own, with a token that is new. */
  lemma AdvanceBeginsChain(events: seq<Event>, i: nat)
    requires Exec(Init(), events).console.mounted && Enabled(Exec(Init(), events), AdvanceResumes(i))
    ensures var w := Exec(Init(), events);
            var v := Step(w, AdvanceResumes(i));
            && v.console.token == w.console.token + 1 && LiveChains(v) == 1 && w.polled[v.console.token] == 0
            && v.console.shown == w.console.shown
  {
    ReachedTold(events);
    AdvanceResumed(Exec(Init(), events), i);
  }

  lemma AdvanceResumed(w: World, i: nat)
    requires Inv(w) && Enabled(w, AdvanceResumes(i)) && w.console.mounted
    ensures LiveChains(Step(w, AdvanceResumes(i))) == 1 && w.polled[w.console.token + 1] == 0
  {
    BeginPollingKeepsInv(w, Step(w, AdvanceResumes(i)), i);
  }
}
