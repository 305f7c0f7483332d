/** The polling of one registered document's task
    (apps/web/components/uploads/upload-progress.tsx), for a fixed item and one mount. */
module TaskPolling {
  import opened Options

  const MAX_POLL_CYCLES: nat := 20

  datatype TaskStatus = Pending | Running | RetryWait | Succeeded | FailedManualReview | Superseded

  function AsKnownTaskStatus(value: string): Option<TaskStatus> {
    if value == "PENDING" then Some(Pending)
    else if value == "RUNNING" then Some(Running)
    else if value == "RETRY_WAIT" then Some(RetryWait)
    else if value == "SUCCEEDED" then Some(Succeeded)
    else if value == "FAILED_MANUAL_REVIEW" then Some(FailedManualReview)
    else if value == "SUPERSEDED" then Some(Superseded)
    else None
  }

  predicate IsTerminal(status: Option<TaskStatus>) {
    status.Some? && (status.value.Succeeded? || status.value.FailedManualReview? || status.value.Superseded?)
  }

  /** A read's answer; None if it failed. */
  function Recognised(answer: Option<string>): Option<TaskStatus> {
    if answer.Some? then AsKnownTaskStatus(answer.value) else None
  }

  /** `timer` and `reading` hold the remaining cycles of a set timer and of a read in flight. */
  datatype Progress = Progress(live: Option<TaskStatus>, mounted: bool, timer: Option<nat>, reading: Option<nat>)

  function Started(initial: Option<TaskStatus>): Progress {
    Progress(initial, true, if IsTerminal(initial) then None else Some(MAX_POLL_CYCLES - 1), None)
  }

  function TimerFired(p: Progress): Progress
    requires p.timer.Some?
  {
    p.(timer := None, reading := if p.mounted then p.timer else p.reading)
  }

  function Answered(p: Progress, answer: Option<string>): Progress
    requires p.reading.Some?
  {
    var next := Recognised(answer);
    var landed := p.(reading := None);
    if !p.mounted then landed
    else
      landed.(live := if next.Some? then next else p.live,
              timer := if !IsTerminal(next) && p.reading.value > 0 then Some(p.reading.value - 1) else p.timer)
  }

  function Unmounted(p: Progress): Progress { p.(mounted := false, timer := None) }

  class UploadProgress {
    var liveTaskStatus: Option<TaskStatus>
    var mountedRef: bool
    var timerRef: Option<nat>
    var reading: Option<nat>

    function View(): Progress
      reads this
    {
      Progress(liveTaskStatus, mountedRef, timerRef, reading)
    }

    /** The item is shown as registered with a task. */
    constructor (taskStatus: Option<TaskStatus>)
      ensures View() == Started(taskStatus)
    {
      liveTaskStatus, mountedRef, reading := taskStatus, true, None;
      timerRef := if IsTerminal(taskStatus) then None else Some(MAX_POLL_CYCLES - 1);
    }

    /** The timer calls poll, which reads the task's status. */
    method OnTimer()
      requires timerRef.Some?
      modifies this`timerRef, this`reading
      ensures View() == TimerFired(old(View()))
    {
      if mountedRef { reading := timerRef; }
      timerRef := None;
    }

    method OnAnswer(answer: Option<string>)
      requires reading.Some?
      modifies this`reading, this`liveTaskStatus, this`timerRef
      ensures View() == Answered(old(View()), answer)
    {
      var remaining := reading.value;
      reading := None;
      if !mountedRef { return; }
      var nextStatus := Recognised(answer);
      if nextStatus.Some? { liveTaskStatus := nextStatus; }
      if IsTerminal(nextStatus) { return; }
      if remaining > 0 { timerRef := Some(remaining - 1); }
    }

    method OnUnmount()
      modifies this`mountedRef, this`timerRef
      ensures View() == Unmounted(old(View()))
    {
      mountedRef := false;
      timerRef := None;
    }
  }

  // ---------- any sequence of events ----------

  datatype Event = Timer | Answer(answer: Option<string>) | Unmount

  /** `answers` lists the answers that landed while mounted; `begun` counts the reads begun. */
  datatype World = World(progress: Progress, answers: seq<Option<string>>, begun: nat)

  function Step(w: World, e: Event): World {
    var p := w.progress;
    match e
    case Timer =>
      if p.timer.None? then w
      else w.(progress := TimerFired(p), begun := if p.mounted then w.begun + 1 else w.begun)
    case Answer(answer) =>
      if p.reading.None? then w
      else w.(progress := Answered(p, answer), answers := if p.mounted then w.answers + [answer] else w.answers)
    case Unmount => if p.mounted then w.(progress := Unmounted(p)) else w
  }

  function Exec(initial: Option<TaskStatus>, events: seq<Event>): World {
    if events == [] then World(Started(initial), [], 0)
    else Step(Exec(initial, events[..|events| - 1]), events[|events| - 1])
  }

  /** The last recognised answer, or else the initial status. */
  function LastRecognised(initial: Option<TaskStatus>, answers: seq<Option<string>>): Option<TaskStatus> {
    if answers == [] then initial
    else if Recognised(answers[|answers| - 1]).Some? then Recognised(answers[|answers| - 1])
    else LastRecognised(initial, answers[..|answers| - 1])
  }

  ghost predicate Inv(w: World, initial: Option<TaskStatus>) {
    var p := w.progress;
    && p.live == LastRecognised(initial, w.answers)
    && !(p.timer.Some? && p.reading.Some?)
    && (p.timer.Some? ==> p.mounted && w.begun + p.timer.value + 1 == MAX_POLL_CYCLES && |w.answers| == w.begun)
    && (p.reading.Some? ==> w.begun + p.reading.value == MAX_POLL_CYCLES && |w.answers| + 1 == w.begun)
    && w.begun <= MAX_POLL_CYCLES && |w.answers| <= w.begun
    && (forall k :: 0 <= k < w.begun - 1 && k < |w.answers| ==> !IsTerminal(Recognised(w.answers[k])))
    && (p.timer.Some? || p.reading.Some? ==>
          !IsTerminal(initial) && forall a <- w.answers :: !IsTerminal(Recognised(a)))
    && (IsTerminal(initial) ==> w.begun == 0)
    && (p.mounted && p.timer.None? && p.reading.None? ==> IsTerminal(p.live) || w.begun == MAX_POLL_CYCLES)
  }

  lemma {:induction false} ExecKeepsInv(initial: Option<TaskStatus>, events: seq<Event>)
    ensures Inv(Exec(initial, events), initial)
    decreases |events|
  {
    if events != [] {
      ExecKeepsInv(initial, events[..|events| - 1]);
      var w := Exec(initial, events[..|events| - 1]);
      if events[|events| - 1].Answer? && w.progress.reading.Some? && w.progress.mounted {
        assert (w.answers + [events[|events| - 1].answer])[..|w.answers|] == w.answers;
      }
    }
  }

  /** Over any sequence of answers, failures and an unmount: the status shown is the last recognised
      answer, or the initial one; at most 20 reads are made, none after a recognised terminal status;
      and while mounted polling stops only for a terminal status or after the 20th read. */
  lemma PollingIsFaithfulAndBounded(initial: Option<TaskStatus>, events: seq<Event>)
    ensures var w := Exec(initial, events);
            && w.progress.live == LastRecognised(initial, w.answers)
            && |w.answers| <= w.begun <= 20
            && (IsTerminal(initial) ==> w.begun == 0)
            && (forall k :: 0 <= k < |w.answers| && IsTerminal(Recognised(w.answers[k])) ==> w.begun == k + 1)
            && (w.progress.mounted && w.progress.timer.None? && w.progress.reading.None?
                ==> IsTerminal(w.progress.live) || w.begun == 20)
  {
    ExecKeepsInv(initial, events);
  }

  // ---------- the same in the words of the server ----------

  function StatusName(status: TaskStatus): string {
    match status
    case Pending => "PENDING"
    case Running => "RUNNING"
    case RetryWait => "RETRY_WAIT"
    case Succeeded => "SUCCEEDED"
    case FailedManualReview => "FAILED_MANUAL_REVIEW"
    case Superseded => "SUPERSEDED"
  }

  /** Exactly the names of the six statuses are recognised, each as its status. */
  lemma NamesRecognised(value: string, status: TaskStatus)
    ensures AsKnownTaskStatus(value) == Some(status) <==> value == StatusName(status)
  {
    assert |"PENDING"| == 7 && |"RUNNING"| == 7 && |"RETRY_WAIT"| == 10 && |"SUCCEEDED"| == 9;
    assert |"FAILED_MANUAL_REVIEW"| == 20 && |"SUPERSEDED"| == 10;
    assert "PENDING"[0] != "RUNNING"[0] && "RETRY_WAIT"[0] != "SUPERSEDED"[0];
  }

  /** The answers after which no further one is asked for. */
  predicate Finishes(answer: Option<string>) {
    answer in [Some("SUCCEEDED"), Some("FAILED_MANUAL_REVIEW"), Some("SUPERSEDED")]
  }

  lemma FinishesIff(answer: Option<string>)
    ensures Finishes(answer) <==> IsTerminal(Recognised(answer))
  {
    if answer.Some? {
      NamesRecognised(answer.value, Succeeded);
      NamesRecognised(answer.value, FailedManualReview);
      NamesRecognised(answer.value, Superseded);
    }
  }

  /** A terminal status that is shown comes from the start or from an answer. */
  lemma {:induction false} LastTerminal(initial: Option<TaskStatus>, answers: seq<Option<string>>)
    requires IsTerminal(LastRecognised(initial, answers)) && !IsTerminal(initial)
    ensures exists k :: 0 <= k < |answers| && IsTerminal(Recognised(answers[k]))
    decreases |answers|
  {
    if Recognised(answers[|answers| - 1]).None? {
      LastTerminal(initial, answers[..|answers| - 1]);
      var k :| 0 <= k < |answers| - 1 && IsTerminal(Recognised(answers[..|answers| - 1][k]));
      assert answers[k] == answers[..|answers| - 1][k];
    }
  }

  /** For an item shown with some task status, over any sequence of answers and failures: none is asked
      for after SUCCEEDED, FAILED_MANUAL_REVIEW or SUPERSEDED; and while mounted, polling has stopped only
      if one of these was the last answer, or the item was shown with it, or after the 20th read.  Any
      other answer, known or not, and any failure lead to another read. */
  lemma ReadsUntilFinished(shown: Option<string>, events: seq<Event>)
    ensures var w := Exec(Recognised(shown), events);
            && (Finishes(shown) ==> w.begun == 0)
            && (forall k :: 0 <= k < |w.answers| && Finishes(w.answers[k]) ==> w.begun == k + 1)
            && (w.progress.mounted && w.progress.timer.None? && w.progress.reading.None? ==>
                  || Finishes(shown) || w.begun == 20
                  || (w.answers != [] && Finishes(w.answers[|w.answers| - 1])))
  {
    var w, initial := Exec(Recognised(shown), events), Recognised(shown);
    PollingIsFaithfulAndBounded(initial, events);
    FinishesIff(shown);
    forall k | 0 <= k < |w.answers| ensures Finishes(w.answers[k]) <==> IsTerminal(Recognised(w.answers[k])) {
      FinishesIff(w.answers[k]);
    }
    if IsTerminal(w.progress.live) && !IsTerminal(initial) {
      LastTerminal(initial, w.answers);
    }
  }
}
