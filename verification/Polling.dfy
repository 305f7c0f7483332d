/** The polling protocol of the orchestration console
    (apps/web/components/orchestration/orchestration-console.tsx), for one mount of the component. */
module PollingModel {
  import opened Options

  const MAX_POLL_CYCLES: nat := 20

  datatype OrchestrationStatus = OrchestrationStatus(tasks: seq<string>, readiness: seq<string>)

  datatype Answer = Ok(status: OrchestrationStatus) | Error(message: string)

  datatype Message = Quiet | RequestReceived | Scheduling(created: bool) | StillProcessing
                   | SettledAs(status: OrchestrationStatus) | AdvanceFailed

  /** What the officer sees; every change of it is a setState of the source. */
  datatype Shown = Shown(status: Option<OrchestrationStatus>, loadError: Option<string>, loading: bool,
                         refreshError: Option<string>, advancing: bool, advanceError: Option<string>,
                         liveMessage: Message)

  datatype Tick = Tick(token: nat, remaining: nat)

  /** The component: its state and refs, and the timers that are set and have not fired. */
  datatype Console = Console(shown: Shown, mounted: bool, timerRef: Option<nat>, token: nat,
                             armed: map<nat, Tick>, nextTimer: nat)

  function Mounted(): Console {
    Console(Shown(None, None, true, None, false, None, Quiet), true, None, 0, map[], 1)
  }

  predicate IsTaskInFlight(status: string) { status in ["PENDING", "RUNNING", "RETRY_WAIT"] }

  predicate IsInFlight(status: OrchestrationStatus) {
    || (exists task <- status.tasks :: IsTaskInFlight(task))
    || "IN_PROGRESS" in status.readiness
  }

  function StopPolling(c: Console): Console {
    c.(armed := if c.timerRef.Some? then c.armed - {c.timerRef.value} else c.armed,
       timerRef := None, token := c.token + 1)
  }

  function SetPollTimer(c: Console, tick: Tick): Console {
    c.(armed := c.armed[c.nextTimer := tick], timerRef := Some(c.nextTimer), nextTimer := c.nextTimer + 1)
  }

  function BeginPolling(c: Console): Console {
    var stopped := StopPolling(c);
    SetPollTimer(stopped, Tick(stopped.token, MAX_POLL_CYCLES - 1))
  }

  /** A cycle goes on only while the component is mounted and the token is still the cycle's. */
  predicate Current(c: Console, token: nat) { c.mounted && token == c.token }

  /** refreshSilently after its request: the new console and the value it returns. */
  function Refreshed(c: Console, answer: Answer): (Console, Option<OrchestrationStatus>) {
    if !c.mounted then (c, None)
    else match answer
      case Ok(status) => (c.(shown := c.shown.(status := Some(status), refreshError := None)), Some(status))
      case Error(message) => (c.(shown := c.shown.(refreshError := Some(message))), None)
  }

  /** runPollCycle after its refresh. */
  function CycleEnds(c: Console, token: nat, remaining: nat, next: Option<OrchestrationStatus>): Console {
    if !Current(c, token) then c
    else if next.Some? && IsInFlight(next.value) && remaining > 0 then SetPollTimer(c, Tick(token, remaining - 1))
    else
      c.(shown := c.shown.(advancing := false,
                           liveMessage := if next.None? then c.shown.liveMessage
                                          else if IsInFlight(next.value) then StillProcessing
                                          else SettledAs(next.value)))
  }

  function LoadStarts(c: Console): Console {
    c.(shown := c.shown.(loading := true, loadError := None))
  }

  function LoadEnds(c: Console, answer: Answer): Console {
    if !c.mounted then c
    else match answer
      case Ok(status) =>
        var loaded := c.(shown := c.shown.(status := Some(status)));
        var polled := if IsInFlight(status) then BeginPolling(loaded) else loaded;
        polled.(shown := polled.shown.(loading := false))
      case Error(message) => c.(shown := c.shown.(loadError := Some(message), loading := false))
  }

  function AdvanceStarts(c: Console): Console {
    c.(shown := c.shown.(advanceError := None, advancing := true, liveMessage := RequestReceived))
  }

  function AdvanceAccepted(c: Console, created: bool): Console {
    if !c.mounted then c else c.(shown := c.shown.(liveMessage := Scheduling(created)))
  }

  function AdvanceRejected(c: Console, message: string): Console {
    if !c.mounted then c
    else c.(shown := c.shown.(advancing := false, advanceError := Some(message), liveMessage := AdvanceFailed))
  }

  function AdvanceRefreshed(c: Console): Console {
    if !c.mounted then c else BeginPolling(c)
  }

  function Unmounted(c: Console): Console {
    StopPolling(c.(mounted := false))
  }
}

/** The console among its pending requests: all interleavings, and what they keep. */
module PollingRuns {
  import opened Options
  import opened PollingModel

  /** Where an asynchronous call is suspended. */
  datatype Frame =
    | LoadRequest
    | PollRequest(token: nat, remaining: nat)
    | PollRefreshed(token: nat, remaining: nat, next: Option<OrchestrationStatus>)
    | AdvanceRequest
    | AdvanceRefreshRequest
    | AdvanceRefreshDone

  /** Who asked for an answer. */
  datatype Source = ByLoad | ByPoll(token: nat) | ByAdvance

  datatype Heard = Heard(source: Source, answer: Answer)

  /** `gets`, `loads` and `advances` count calls, `polled` counts the refreshes of each token's chain, and
      `heard` lists the answers of getOrchestration that landed while mounted; they only record history. */
  datatype World = World(console: Console, frames: seq<Frame>, gets: nat, loads: nat, advances: nat,
                         polled: multiset<nat>, heard: seq<Heard>)

  datatype Event =
    | Load
    | LoadAnswers(i: nat, answer: Answer)
    | TimerFires(timer: nat)
    | PollAnswers(i: nat, answer: Answer)
    | PollResumes(i: nat)
    | Advance
    | AdvanceAnswers(i: nat, created: bool)
    | AdvanceFails(i: nat, message: string)
    | AdvanceRefreshAnswers(i: nat, answer: Answer)
    | AdvanceResumes(i: nat)
    | Unmount

  function Init(): World { World(Mounted(), [], 0, 0, 0, multiset{}, []) }

  predicate Enabled(w: World, e: Event) {
    match e
    case Load => w.console.mounted
    case LoadAnswers(i, _) => i < |w.frames| && w.frames[i].LoadRequest?
    case TimerFires(timer) => timer in w.console.armed
    case PollAnswers(i, _) => i < |w.frames| && w.frames[i].PollRequest?
    case PollResumes(i) => i < |w.frames| && w.frames[i].PollRefreshed?
    case Advance => w.console.mounted
    case AdvanceAnswers(i, _) => i < |w.frames| && w.frames[i].AdvanceRequest?
    case AdvanceFails(i, _) => i < |w.frames| && w.frames[i].AdvanceRequest?
    case AdvanceRefreshAnswers(i, _) => i < |w.frames| && w.frames[i].AdvanceRefreshRequest?
    case AdvanceResumes(i) => i < |w.frames| && w.frames[i].AdvanceRefreshDone?
    case Unmount => w.console.mounted
  }

  function Remove(frames: seq<Frame>, i: nat): seq<Frame>
    requires i < |frames|
  {
    frames[..i] + frames[i + 1..]
  }

  function Apply(w: World, e: Event): World
    requires Enabled(w, e)
  {
    match e
    case Load =>
      w.(console := LoadStarts(w.console), frames := w.frames + [LoadRequest], gets := w.gets + 1, loads := w.loads + 1)
    case LoadAnswers(i, answer) =>
      w.(console := LoadEnds(w.console, answer), frames := Remove(w.frames, i), heard := Landed(w, ByLoad, answer))
    case TimerFires(timer) => FireTimer(w, timer)
    case PollAnswers(i, answer) =>
      var (console, next) := Refreshed(w.console, answer);
      w.(console := console, heard := Landed(w, ByPoll(w.frames[i].token), answer),
         frames := w.frames[i := PollRefreshed(w.frames[i].token, w.frames[i].remaining, next)])
    case PollResumes(i) =>
      var PollRefreshed(token, remaining, next) := w.frames[i];
      w.(console := CycleEnds(w.console, token, remaining, next), frames := Remove(w.frames, i))
    case Advance =>
      w.(console := AdvanceStarts(w.console), frames := w.frames + [AdvanceRequest], advances := w.advances + 1)
    case AdvanceAnswers(i, created) =>
      if w.console.mounted
      then w.(console := AdvanceAccepted(w.console, created), gets := w.gets + 1,
              frames := w.frames[i := AdvanceRefreshRequest])
      else w.(frames := Remove(w.frames, i))
    case AdvanceFails(i, message) => w.(console := AdvanceRejected(w.console, message), frames := Remove(w.frames, i))
    case AdvanceRefreshAnswers(i, answer) =>
      w.(console := Refreshed(w.console, answer).0, frames := w.frames[i := AdvanceRefreshDone],
         heard := Landed(w, ByAdvance, answer))
    case AdvanceResumes(i) => w.(console := AdvanceRefreshed(w.console), frames := Remove(w.frames, i))
    case Unmount => w.(console := Unmounted(w.console))
  }

  function Landed(w: World, source: Source, answer: Answer): seq<Heard> {
    if w.console.mounted then w.heard + [Heard(source, answer)] else w.heard
  }

  /** runPollCycle is called by its timer. */
  function FireTimer(w: World, timer: nat): World
    requires timer in w.console.armed
  {
    var Tick(token, remaining) := w.console.armed[timer];
    var fired := w.(console := w.console.(armed := w.console.armed - {timer}));
    if Current(w.console, token)
    then fired.(frames := w.frames + [PollRequest(token, remaining)], gets := w.gets + 1,
                polled := w.polled + multiset{token})
    else fired
  }

  function Step(w: World, e: Event): World { if Enabled(w, e) then Apply(w, e) else w }

  function Exec(w: World, events: seq<Event>): World
    decreases |events|
  {
    if events == [] then w else Exec(Step(w, events[0]), events[1..])
  }

  // ---------- the invariant ----------

  predicate InCycle(frame: Frame) { frame.PollRequest? || frame.PollRefreshed? }

  predicate Advances(frame: Frame) {
    frame.AdvanceRequest? || frame.AdvanceRefreshRequest? || frame.AdvanceRefreshDone?
  }

  /** How many suspended cycles hold the token. */
  function Holding(frames: seq<Frame>, token: nat): nat {
    if frames == [] then 0
    else (if InCycle(frames[0]) && frames[0].token == token then 1 else 0) + Holding(frames[1..], token)
  }

  /** Timers that are set plus cycles in flight with the current token. */
  function LiveChains(w: World): nat { |w.console.armed| + Holding(w.frames, w.console.token) }

  ghost predicate TimersTracked(w: World) {
    && (forall t <- w.console.armed :: w.console.timerRef == Some(t) && w.console.armed[t].token == w.console.token)
    && (forall t <- w.console.armed :: w.console.mounted)
    && (w.console.timerRef.Some? ==> w.console.timerRef.value < w.console.nextTimer)
  }

  ghost predicate TokensBounded(w: World) {
    && (forall frame <- w.frames :: InCycle(frame) ==> frame.token <= w.console.token)
    && (forall token <- w.polled :: token <= w.console.token)
  }

  /** What a chain may still refresh, added to what it did, stays within the cap. */
  ghost predicate ChainsCapped(w: World) {
    && (forall token: nat :: w.polled[token] <= MAX_POLL_CYCLES)
    && (forall frame <- w.frames :: InCycle(frame) ==> w.polled[frame.token] + frame.remaining <= MAX_POLL_CYCLES)
    && (forall t <- w.console.armed ::
          w.polled[w.console.armed[t].token] + w.console.armed[t].remaining + 1 <= MAX_POLL_CYCLES)
  }

  /** The get calls that a suspended call can still lead to. */
  function Potential(frame: Frame): nat {
    match frame
    case LoadRequest => MAX_POLL_CYCLES
    case PollRequest(_, remaining) => remaining
    case PollRefreshed(_, remaining, _) => remaining
    case AdvanceRequest => MAX_POLL_CYCLES + 1
    case AdvanceRefreshRequest => MAX_POLL_CYCLES
    case AdvanceRefreshDone => MAX_POLL_CYCLES
  }

  function TotalPotential(frames: seq<Frame>): nat {
    if frames == [] then 0 else Potential(frames[0]) + TotalPotential(frames[1..])
  }

  function TimerPotential(c: Console): nat {
    if c.timerRef.Some? && c.timerRef.value in c.armed then c.armed[c.timerRef.value].remaining + 1 else 0
  }

  ghost predicate CallsBudgeted(w: World) {
    w.gets + TotalPotential(w.frames) + TimerPotential(w.console) <= (MAX_POLL_CYCLES + 1) * (w.loads + w.advances)
  }

  ghost predicate AdvancingBacked(w: World) {
    w.console.mounted && w.console.shown.advancing ==>
      (exists frame <- w.frames :: Advances(frame)) || LiveChains(w) == 1
  }

  ghost predicate Inv(w: World) {
    && LiveChains(w) <= 1 && TimersTracked(w) && TokensBounded(w) && ChainsCapped(w)
    && CallsBudgeted(w) && AdvancingBacked(w)
  }

  // ---------- every step keeps it ----------

  lemma {:induction false} Added(frames: seq<Frame>, frame: Frame, token: nat)
    ensures Holding(frames + [frame], token) == Holding(frames, token) + Holding([frame], token)
    ensures TotalPotential(frames + [frame]) == TotalPotential(frames) + Potential(frame)
    decreases |frames|
  {
    if frames != [] {
      assert (frames + [frame])[1..] == frames[1..] + [frame];
      Added(frames[1..], frame, token);
    } else {
      assert frames + [frame] == [frame] && [frame][1..] == [];
    }
  }

  lemma {:induction false} Removed(frames: seq<Frame>, i: nat, token: nat)
    requires i < |frames|
    ensures Holding(frames, token) == Holding(Remove(frames, i), token) + Holding([frames[i]], token)
    ensures TotalPotential(frames) == TotalPotential(Remove(frames, i)) + Potential(frames[i])
    ensures forall frame <- frames :: frame == frames[i] || frame in Remove(frames, i)
    ensures forall frame <- Remove(frames, i) :: frame in frames
    decreases |frames|
  {
    assert [frames[i]][1..] == [];
    if i == 0 {
      assert Remove(frames, 0) == frames[1..];
    } else {
      assert Remove(frames, i)[1..] == Remove(frames[1..], i - 1) && Remove(frames, i)[0] == frames[0];
      Removed(frames[1..], i - 1, token);
    }
  }

  lemma {:induction false} Replaced(frames: seq<Frame>, i: nat, frame: Frame, token: nat)
    requires i < |frames|
    ensures Holding(frames[i := frame], token) + Holding([frames[i]], token)
            == Holding(frames, token) + Holding([frame], token)
    ensures TotalPotential(frames[i := frame]) + Potential(frames[i]) == TotalPotential(frames) + Potential(frame)
    decreases |frames|
  {
    assert [frames[i]][1..] == [] && [frame][1..] == [];
    if i == 0 {
      assert frames[i := frame][1..] == frames[1..];
    } else {
      assert frames[i := frame][1..] == frames[1..][i - 1 := frame];
      Replaced(frames[1..], i - 1, frame, token);
    }
  }

  /** No suspended cycle holds a token that was not given out yet. */
  lemma {:induction false} FreshTokenUnheld(frames: seq<Frame>, token: nat)
    requires forall frame <- frames :: InCycle(frame) ==> frame.token < token
    ensures Holding(frames, token) == 0
    decreases |frames|
  {
    if frames != [] { FreshTokenUnheld(frames[1..], token); }
  }

  /** At most one timer is set, and it is the one that pollTimerRef refers to. */
  lemma OneTimer(c: Console)
    requires forall t <- c.armed :: c.timerRef == Some(t)
    ensures c.timerRef.None? ==> c.armed == map[]
    ensures c.timerRef.Some? ==> c.armed - {c.timerRef.value} == map[]
    ensures |c.armed| == if c.timerRef.Some? && c.timerRef.value in c.armed then 1 else 0
  {
    if c.timerRef.Some? && c.timerRef.value in c.armed {
      assert c.armed == map[c.timerRef.value := c.armed[c.timerRef.value]];
    } else {
      assert c.armed == map[];
    }
  }

  /** A chain is started: it is then the only live one. */
  lemma BeginPollingKeepsInv(w: World, v: World, i: nat)
    requires Inv(w) && i < |w.frames| && Potential(w.frames[i]) >= MAX_POLL_CYCLES
    requires w.console.mounted && v == w.(console := v.console, frames := Remove(w.frames, i), heard := v.heard)
    requires v.console == BeginPolling(w.console).(shown := v.console.shown)
    ensures Inv(v) && LiveChains(v) == 1
  {
    OneTimer(w.console);
    Removed(w.frames, i, v.console.token);
    FreshTokenUnheld(w.frames, v.console.token);
    BegunTimer(w, v);
    BegunCapped(w, v, i);
  }

  lemma BegunTimer(w: World, v: World)
    requires TimersTracked(w) && v.console == BeginPolling(w.console).(shown := v.console.shown) && w.console.mounted
    ensures v.console.armed == map[w.console.nextTimer := Tick(w.console.token + 1, MAX_POLL_CYCLES - 1)]
    ensures TimersTracked(v)
  {
    OneTimer(w.console);
  }

  lemma BegunCapped(w: World, v: World, i: nat)
    requires TokensBounded(w) && ChainsCapped(w) && i < |w.frames|
    requires v == w.(console := v.console, frames := Remove(w.frames, i), heard := v.heard)
    requires v.console.token == w.console.token + 1
    requires v.console.armed == map[w.console.nextTimer := Tick(w.console.token + 1, MAX_POLL_CYCLES - 1)]
    ensures TokensBounded(v) && ChainsCapped(v)
  {
    Removed(w.frames, i, 0);
    assert w.polled[v.console.token] == 0;
  }

  /** A suspended call ends, or goes on as frame, and the timers are left alone. */
  lemma CallGoesOn(w: World, v: World, i: nat, next: seq<Frame>, getsMore: nat)
    requires Inv(w) && i < |w.frames| && |next| <= 1
    requires v == w.(console := v.console, gets := w.gets + getsMore, heard := v.heard,
                     frames := if next == [] then Remove(w.frames, i) else w.frames[i := next[0]])
    requires v.console == w.console.(shown := v.console.shown)
    requires getsMore + (if next == [] then 0 else Potential(next[0])) <= Potential(w.frames[i])
    requires next != [] && InCycle(next[0]) ==>
               InCycle(w.frames[i]) && next[0].token == w.frames[i].token && next[0].remaining == w.frames[i].remaining
    requires v.console.shown.advancing && v.console.mounted ==>
               w.console.shown.advancing
               && (Advances(w.frames[i]) ==> next != [] && Advances(next[0]))
               && (InCycle(w.frames[i]) && w.frames[i].token == w.console.token ==> next != [] && InCycle(next[0]))
    ensures Inv(v)
  {
    var token := w.console.token;
    if next == [] {
      Removed(w.frames, i, token);
    } else {
      Replaced(w.frames, i, next[0], token);
    }
    CallBacked(w, v, i, next);
  }

  lemma CallBacked(w: World, v: World, i: nat, next: seq<Frame>)
    requires AdvancingBacked(w) && LiveChains(w) <= 1 && i < |w.frames| && |next| <= 1
    requires v.frames == if next == [] then Remove(w.frames, i) else w.frames[i := next[0]]
    requires v.console == w.console.(shown := v.console.shown)
    requires next != [] && InCycle(next[0]) ==> InCycle(w.frames[i]) && next[0].token == w.frames[i].token
    requires v.console.shown.advancing && v.console.mounted ==>
               w.console.shown.advancing
               && (Advances(w.frames[i]) ==> next != [] && Advances(next[0]))
               && (InCycle(w.frames[i]) && w.frames[i].token == w.console.token ==> next != [] && InCycle(next[0]))
    ensures AdvancingBacked(v)
  {
    Removed(w.frames, i, w.console.token);
    if next != [] { Replaced(w.frames, i, next[0], w.console.token); }
    if v.console.mounted && v.console.shown.advancing && exists frame <- w.frames :: Advances(frame) {
      var frame :| frame in w.frames && Advances(frame);
      var k :| 0 <= k < |w.frames| && w.frames[k] == frame;
      if next != [] {
        assert if k == i then next[0] == v.frames[i] else v.frames[k] == frame;
      }
    }
  }

  lemma LoadKeepsInv(w: World)
    requires Inv(w) && w.console.mounted
    ensures Inv(Step(w, Load))
  {
    var v := Step(w, Load);
    Added(w.frames, LoadRequest, w.console.token);
    assert Holding([LoadRequest], w.console.token) == 0 by { assert [LoadRequest][1..] == []; }
    if exists frame <- w.frames :: Advances(frame) {
      var frame :| frame in w.frames && Advances(frame);
      assert frame in v.frames;
    }
  }

  lemma LoadAnswersKeepsInv(w: World, i: nat, answer: Answer)
    requires Inv(w) && Enabled(w, LoadAnswers(i, answer))
    ensures Inv(Step(w, LoadAnswers(i, answer)))
  {
    var v := Step(w, LoadAnswers(i, answer));
    if w.console.mounted && answer.Ok? && IsInFlight(answer.status) {
      BeginPollingKeepsInv(w, v, i);
    } else {
      CallGoesOn(w, v, i, [], 0);
    }
  }

  lemma TimerKeepsInv(w: World, timer: nat)
    requires Inv(w) && timer in w.console.armed
    ensures Inv(Step(w, TimerFires(timer)))
  {
    var v := Step(w, TimerFires(timer));
    var Tick(token, remaining) := w.console.armed[timer];
    OneTimer(w.console);
    Added(w.frames, PollRequest(token, remaining), token);
    assert Holding([PollRequest(token, remaining)], token) == 1 by {
      assert [PollRequest(token, remaining)][1..] == [];
    }
    assert v.console.armed == map[];
    NotHeld(w.frames, token);
    assert ChainsCapped(v);
  }

  lemma {:induction false} NotHeld(frames: seq<Frame>, token: nat)
    requires Holding(frames, token) == 0
    ensures forall frame <- frames :: InCycle(frame) ==> frame.token != token
    decreases |frames|
  {
    if frames != [] { NotHeld(frames[1..], token); }
  }

  lemma PollResumesKeepsInv(w: World, i: nat)
    requires Inv(w) && Enabled(w, PollResumes(i))
    ensures Inv(Step(w, PollResumes(i)))
  {
    var v := Step(w, PollResumes(i));
    var PollRefreshed(token, remaining, next) := w.frames[i];
    if Current(w.console, token) && next.Some? && IsInFlight(next.value) && remaining > 0 {
      Removed(w.frames, i, token);
      assert Holding([w.frames[i]], token) == 1 by { assert [w.frames[i]][1..] == []; }
      OneTimer(w.console);
      assert w.console.armed == map[];
      assert v.console.armed == map[w.console.nextTimer := Tick(token, remaining - 1)];
    } else {
      CallGoesOn(w, v, i, [], 0);
    }
  }

  lemma AdvanceKeepsInv(w: World)
    requires Inv(w) && w.console.mounted
    ensures Inv(Step(w, Advance))
  {
    var v := Step(w, Advance);
    Added(w.frames, AdvanceRequest, w.console.token);
    assert Holding([AdvanceRequest], w.console.token) == 0 by { assert [AdvanceRequest][1..] == []; }
    assert v.frames[|w.frames|] == AdvanceRequest;
    assert AdvanceRequest in v.frames;
  }

  lemma UnmountKeepsInv(w: World)
    requires Inv(w)
    ensures Inv(Step(w, Unmount))
  {
    OneTimer(w.console);
    assert Step(w, Unmount).console.armed == map[];
    FreshTokenUnheld(w.frames, w.console.token + 1);
  }

  lemma PollAnswersKeepsInv(w: World, i: nat, answer: Answer)
    requires Inv(w) && Enabled(w, PollAnswers(i, answer))
    ensures Inv(Step(w, PollAnswers(i, answer)))
  {
    var v := Step(w, PollAnswers(i, answer));
    CallGoesOn(w, v, i, [v.frames[i]], 0);
  }

  lemma AdvanceAnswersKeepsInv(w: World, i: nat, created: bool)
    requires Inv(w) && Enabled(w, AdvanceAnswers(i, created))
    ensures Inv(Step(w, AdvanceAnswers(i, created)))
  {
    if w.console.mounted {
      CallGoesOn(w, Step(w, AdvanceAnswers(i, created)), i, [AdvanceRefreshRequest], 1);
    } else {
      CallGoesOn(w, Step(w, AdvanceAnswers(i, created)), i, [], 0);
    }
  }

  lemma AdvanceResumesKeepsInv(w: World, i: nat)
    requires Inv(w) && Enabled(w, AdvanceResumes(i))
    ensures Inv(Step(w, AdvanceResumes(i)))
  {
    if w.console.mounted {
      BeginPollingKeepsInv(w, Step(w, AdvanceResumes(i)), i);
    } else {
      CallGoesOn(w, Step(w, AdvanceResumes(i)), i, [], 0);
    }
  }

  lemma StepKeepsInv(w: World, e: Event)
    requires Inv(w)
    ensures Inv(Step(w, e))
  {
    if Enabled(w, e) {
      match e {
        case Load => LoadKeepsInv(w);
        case LoadAnswers(i, answer) => LoadAnswersKeepsInv(w, i, answer);
        case TimerFires(timer) => TimerKeepsInv(w, timer);
        case PollAnswers(i, answer) => PollAnswersKeepsInv(w, i, answer);
        case PollResumes(i) => PollResumesKeepsInv(w, i);
        case Advance => AdvanceKeepsInv(w);
        case AdvanceAnswers(i, created) => AdvanceAnswersKeepsInv(w, i, created);
        case AdvanceFails(i, message) => CallGoesOn(w, Step(w, e), i, [], 0);
        case AdvanceRefreshAnswers(i, answer) => CallGoesOn(w, Step(w, e), i, [AdvanceRefreshDone], 0);
        case AdvanceResumes(i) => AdvanceResumesKeepsInv(w, i);
        case Unmount => UnmountKeepsInv(w);
      }
    }
  }

  lemma {:induction false} ExecKeepsInv(w: World, events: seq<Event>)
    requires Inv(w)
    ensures Inv(Exec(w, events))
    decreases |events|
  {
    if events != [] {
      StepKeepsInv(w, events[0]);
      ExecKeepsInv(Step(w, events[0]), events[1..]);
    }
  }

  // ---------- the theorems ----------

  /** Whatever the interleaving of loads, advances, timers and late answers: at most one polling
      chain is live, and a timer that is set is the one that the next stop would clear. */
  lemma OneLiveChain(events: seq<Event>)
    ensures var w := Exec(Init(), events);
            && LiveChains(w) <= 1
            && forall t <- w.console.armed ::
                 w.console.timerRef == Some(t) && w.console.armed[t].token == w.console.token
  {
    ExecKeepsInv(Init(), events);
  }

  /** Every chain makes at most 20 refreshes, and all calls together are at most 21 for each load
      and each advance. */
  lemma CallsBounded(events: seq<Event>, token: nat)
    ensures var w := Exec(Init(), events);
            w.polled[token] <= 20 && w.gets <= 21 * (w.loads + w.advances)
  {
    ExecKeepsInv(Init(), events);
  }

  /** While mounted, the advance button is never left disabled for good: an advance is under way or
      a live chain will report. */
  lemma AdvancingIsBacked(events: seq<Event>)
    requires var w := Exec(Init(), events); w.console.mounted && w.console.shown.advancing
    ensures var w := Exec(Init(), events); (exists frame <- w.frames :: Advances(frame)) || LiveChains(w) == 1
  {
    ExecKeepsInv(Init(), events);
  }

  lemma UnmountedStep(w: World, e: Event)
    requires Inv(w) && !w.console.mounted
    ensures var v := Step(w, e);
            v.console == w.console && v.gets == w.gets && v.polled == w.polled && v.heard == w.heard
  {
  }

  lemma {:induction false} UnmountedExec(w: World, events: seq<Event>)
    requires Inv(w) && !w.console.mounted
    ensures var v := Exec(w, events);
            v.console == w.console && v.console.armed == map[] && v.gets == w.gets && v.polled == w.polled
    decreases |events|
  {
    if events == [] {
      assert w.console.armed == map[];
    } else {
      StepKeepsInv(w, events[0]);
      UnmountedStep(w, events[0]);
      UnmountedExec(Step(w, events[0]), events[1..]);
    }
  }

  /** After the component is unmounted nothing happens any more: no timer is set, no call is made and
      nothing shown is written, even when answers arrive late. */
  lemma SilentAfterUnmount(before: seq<Event>, after: seq<Event>)
    requires Exec(Init(), before).console.mounted
    ensures var w := Exec(Init(), before);
            var v := Exec(Step(w, Unmount), after);
            && v.console.armed == map[] && v.console.shown == w.console.shown && !v.console.mounted
            && v.gets == w.gets && v.polled == w.polled
  {
    ExecKeepsInv(Init(), before);
    var w := Exec(Init(), before);
    UnmountKeepsInv(w);
    UnmountedExec(Step(w, Unmount), after);
  }
}
