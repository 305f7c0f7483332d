/** The orchestration console as the component that it is
    (apps/web/components/orchestration/orchestration-console.tsx): refs and state that its callbacks
    reassign.  The methods are the stretches of code between two awaits; each is proved to change
    the console as PollingModel says.  `armed` stands for the browser's timers. */
module OrchestrationComponent {
  import opened Options
  import opened PollingModel

  class OrchestrationConsole {
    var status: Option<OrchestrationStatus>
    var loadError: Option<string>
    var loading: bool
    var refreshError: Option<string>
    var advancing: bool
    var advanceError: Option<string>
    var liveMessage: Message
    var mountedRef: bool
    var pollTimerRef: Option<nat>
    var pollTokenRef: nat
    var armed: map<nat, Tick>
    var nextTimer: nat

    function View(): Console
      reads this
    {
      Console(Shown(status, loadError, loading, refreshError, advancing, advanceError, liveMessage),
              mountedRef, pollTimerRef, pollTokenRef, armed, nextTimer)
    }

    constructor ()
      ensures View() == Mounted()
    {
      status, loadError, loading, refreshError := None, None, true, None;
      advancing, advanceError, liveMessage := false, None, Quiet;
      mountedRef, pollTimerRef, pollTokenRef := true, None, 0;
      armed, nextTimer := map[], 1;
    }

    method SetTimeout(tick: Tick) returns (timer: nat)
      modifies this`armed, this`nextTimer
      ensures timer == old(nextTimer) && nextTimer == timer + 1 && armed == old(armed)[timer := tick]
    {
      timer := nextTimer;
      armed := armed[timer := tick];
      nextTimer := nextTimer + 1;
    }

    method StopPolling()
      modifies this`armed, this`pollTimerRef, this`pollTokenRef
      ensures View() == PollingModel.StopPolling(old(View()))
    {
      if pollTimerRef.Some? {
        armed := armed - {pollTimerRef.value};
        pollTimerRef := None;
      }
      pollTokenRef := pollTokenRef + 1;
    }

    method BeginPolling()
      modifies this`armed, this`nextTimer, this`pollTimerRef, this`pollTokenRef
      ensures View() == PollingModel.BeginPolling(old(View()))
    {
      StopPolling();
      var token := pollTokenRef;
      var timer := SetTimeout(Tick(token, MAX_POLL_CYCLES - 1));
      pollTimerRef := Some(timer);
    }

    /** The first check of runPollCycle: whether it goes on to refresh. */
    method CycleStarts(token: nat) returns (refreshes: bool)
      ensures refreshes == Current(View(), token)
    {
      refreshes := mountedRef && token == pollTokenRef;
    }

    /** refreshSilently after its request was answered. */
    method RefreshSilently(answer: Answer) returns (next: Option<OrchestrationStatus>)
      modifies this`status, this`refreshError
      ensures (View(), next) == Refreshed(old(View()), answer)
    {
      next := None;
      match answer {
        case Ok(fetched) =>
          if mountedRef {
            status, refreshError, next := Some(fetched), None, Some(fetched);
          }
        case Error(message) =>
          if mountedRef { refreshError := Some(message); }
      }
    }

    /** isInFlight: some task is at work, or some stage is in progress. */
    method InFlight(current: OrchestrationStatus) returns (working: bool)
      ensures working == IsInFlight(current)
    {
      working := false;
      for k := 0 to |current.tasks|
        invariant working <==> exists task <- current.tasks[..k] :: IsTaskInFlight(task)
      {
        working := working || IsTaskInFlight(current.tasks[k]);
        assert current.tasks[..k + 1] == current.tasks[..k] + [current.tasks[k]];
      }
      assert current.tasks[..|current.tasks|] == current.tasks;
      var taskWorking := working;
      for k := 0 to |current.readiness|
        invariant working <==> taskWorking || "IN_PROGRESS" in current.readiness[..k]
      {
        working := working || current.readiness[k] == "IN_PROGRESS";
        assert current.readiness[..k + 1] == current.readiness[..k] + [current.readiness[k]];
      }
      assert current.readiness[..|current.readiness|] == current.readiness;
    }

    /** runPollCycle after its refresh. */
    method CycleResumes(token: nat, remaining: nat, next: Option<OrchestrationStatus>)
      modifies this`armed, this`nextTimer, this`pollTimerRef, this`advancing, this`liveMessage
      ensures View() == CycleEnds(old(View()), token, remaining, next)
    {
      if !mountedRef || token != pollTokenRef { return; }
      var stillWorking := false;
      if next.Some? { stillWorking := InFlight(next.value); }
      if stillWorking && remaining > 0 {
        var timer := SetTimeout(Tick(token, remaining - 1));
        pollTimerRef := Some(timer);
        return;
      }
      advancing := false;
      if stillWorking {
        liveMessage := StillProcessing;
      } else if next.Some? {
        liveMessage := SettledAs(next.value);
      }
    }

    method InitialLoad()
      modifies this`loading, this`loadError
      ensures View() == LoadStarts(old(View()))
    {
      loading, loadError := true, None;
    }

    method InitialLoadAnswered(answer: Answer)
      modifies this
      ensures View() == LoadEnds(old(View()), answer)
    {
      match answer {
        case Ok(fetched) =>
          if mountedRef {
            status := Some(fetched);
            var working := InFlight(fetched);
            if working { BeginPolling(); }
          }
        case Error(message) =>
          if mountedRef { loadError := Some(message); }
      }
      if mountedRef { loading := false; }
    }

    method Advance()
      modifies this`advanceError, this`advancing, this`liveMessage
      ensures View() == AdvanceStarts(old(View()))
    {
      advanceError, advancing, liveMessage := None, true, RequestReceived;
    }

    method AdvanceAnswered(created: bool) returns (refreshes: bool)
      modifies this`liveMessage
      ensures refreshes == old(mountedRef) && View() == AdvanceAccepted(old(View()), created)
    {
      refreshes := mountedRef;
      if mountedRef { liveMessage := Scheduling(created); }
    }

    method AdvanceRefused(message: string)
      modifies this`advanceError, this`advancing, this`liveMessage
      ensures View() == AdvanceRejected(old(View()), message)
    {
      if !mountedRef { return; }
      advancing, advanceError, liveMessage := false, Some(message), AdvanceFailed;
    }

    method AdvanceResumes()
      modifies this`armed, this`nextTimer, this`pollTimerRef, this`pollTokenRef
      ensures View() == AdvanceRefreshed(old(View()))
    {
      if mountedRef { BeginPolling(); }
    }

    method Unmount()
      modifies this`armed, this`pollTimerRef, this`pollTokenRef, this`mountedRef
      ensures View() == Unmounted(old(View()))
    {
      mountedRef := false;
      StopPolling();
    }
  }
}
