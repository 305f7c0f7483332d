/** The condition lifecycle (apps/web/lib/api/conditions.ts) and the alert lifecycle
    (apps/web/lib/api/monitoring.ts): the transition tables, and what they imply for runs of any length. */
module ConditionLifecycle {
  datatype ConditionStatus =
    | Pending | EvidenceSubmitted | Verified | Failed
    | WaiverRequested | WaivedByHuman | Superseded | NotApplicableByHuman

  const CHECKER_AUTHORITY_TARGETS := [Verified, WaivedByHuman, NotApplicableByHuman]
  const RATIONALE_REQUIRED_TARGETS := [WaivedByHuman, NotApplicableByHuman]
  const CONFIRMABLE_STATUSES := [Verified, WaivedByHuman, NotApplicableByHuman]

  function AllowedTransitions(status: ConditionStatus): seq<ConditionStatus> {
    match status
    case Pending => [EvidenceSubmitted, WaiverRequested, NotApplicableByHuman, Superseded]
    case EvidenceSubmitted => [Verified, Failed, Superseded]
    case Failed => [EvidenceSubmitted, WaiverRequested, Superseded]
    case WaiverRequested => [WaivedByHuman, Failed, Superseded]
    case Verified => [Superseded]
    case WaivedByHuman => [Superseded]
    case NotApplicableByHuman => [Superseded]
    case Superseded => []
  }

  predicate IsRationaleRequired(target: ConditionStatus) { target in RATIONALE_REQUIRED_TARGETS }

  /** A run: the statuses of a condition, from PENDING on, each allowed after the one before. */
  ghost predicate Run(run: seq<ConditionStatus>) {
    run != [] && run[0] == Pending && forall k :: 0 < k < |run| ==> run[k] in AllowedTransitions(run[k - 1])
  }

  /** How often the run enters one of the statuses. */
  function Entries(run: seq<ConditionStatus>, targets: seq<ConditionStatus>): nat {
    if |run| <= 1 then 0
    else Entries(run[..|run| - 1], targets) + if run[|run| - 1] in targets then 1 else 0
  }

  const REQUESTS := [EvidenceSubmitted, WaiverRequested]
  const RULINGS := [Failed, Verified, WaivedByHuman]

  /** A request that is not ruled on yet. */
  predicate Open(status: ConditionStatus) { status in REQUESTS }

  /** The requests of a run that are not ruled on. */
  function Unruled(run: seq<ConditionStatus>): int { Entries(run, REQUESTS) - Entries(run, RULINGS) }

  lemma OneMore(run: seq<ConditionStatus>)
    requires Run(run) && |run| > 1
    ensures var before, last := run[|run| - 2], run[|run| - 1];
            && Run(run[..|run| - 1]) && last in AllowedTransitions(before)
            && Unruled(run) == Unruled(run[..|run| - 1]) + (if last in REQUESTS then 1 else 0)
                               - (if last in RULINGS then 1 else 0)
  {
    assert run[..|run| - 1][|run| - 2] == run[|run| - 2];
  }

  /** On every run, of any length, the requests (evidence or waiver) exceed the rulings on them by
      one or not at all: by one exactly while a request is open, or if it was open when the condition was
      superseded. */
  lemma {:induction false} RequestsAndRulingsAlternate(run: seq<ConditionStatus>)
    requires Run(run)
    ensures 0 <= Unruled(run) <= 1
    ensures !run[|run| - 1].Superseded? ==> (Unruled(run) == 1 <==> Open(run[|run| - 1]))
    ensures run[|run| - 1].Superseded? ==> |run| > 1 && (Unruled(run) == 1 <==> Open(run[|run| - 2]))
    decreases |run|
  {
    if |run| > 1 {
      OneMore(run);
      RequestsAndRulingsAlternate(run[..|run| - 1]);
    }
  }

  /** On every run there is at most one step that needs the checker's authority: one if the run is in
      a confirmable status, none if it is in any other status but SUPERSEDED. */
  lemma {:induction false} OneCheckerStep(run: seq<ConditionStatus>)
    requires Run(run)
    ensures Entries(run, CHECKER_AUTHORITY_TARGETS) <= 1
    ensures run[|run| - 1] in CONFIRMABLE_STATUSES ==> Entries(run, CHECKER_AUTHORITY_TARGETS) == 1
    ensures run[|run| - 1] !in CONFIRMABLE_STATUSES && !run[|run| - 1].Superseded? ==>
              Entries(run, CHECKER_AUTHORITY_TARGETS) == 0
    decreases |run|
  {
    if |run| > 1 {
      assert run[|run| - 1] in AllowedTransitions(run[..|run| - 1][|run| - 2]);
      OneCheckerStep(run[..|run| - 1]);
    }
  }

  /** SUPERSEDED is absorbing, and a confirmable status lasts until SUPERSEDED. */
  lemma {:induction false} ConfirmableLasts(run: seq<ConditionStatus>, k: nat, j: nat)
    requires Run(run) && k <= j < |run|
    ensures run[k].Superseded? ==> j == k
    ensures run[k] in CONFIRMABLE_STATUSES ==> run[j] == run[k] || run[j].Superseded?
    ensures run[k] in CONFIRMABLE_STATUSES ==> j <= k + 1
    decreases j - k
  {
    if k < j {
      assert run[k + 1] in AllowedTransitions(run[k]);
      ConfirmableLasts(run, k + 1, j);
    }
  }

  /** The confirmable statuses are exactly those from which only SUPERSEDED is left; they are the
      checker's targets, and all of them but a verification need a rationale. */
  lemma ConfirmableMeansOnlySuperseded(status: ConditionStatus)
    ensures status in CONFIRMABLE_STATUSES <==> AllowedTransitions(status) == [Superseded]
    ensures status in CONFIRMABLE_STATUSES <==> status in CHECKER_AUTHORITY_TARGETS
    ensures IsRationaleRequired(status) <==> status in CHECKER_AUTHORITY_TARGETS && !status.Verified?
  {
    match status {
      case Pending =>
        assert |AllowedTransitions(Pending)| == 4;
      case EvidenceSubmitted =>
        assert |AllowedTransitions(EvidenceSubmitted)| == 3;
      case Failed =>
        assert |AllowedTransitions(Failed)| == 3;
      case WaiverRequested =>
        assert |AllowedTransitions(WaiverRequested)| == 3;
      case Superseded =>
        assert |AllowedTransitions(Superseded)| == 0;
      case _ =>
    }
  }

  /** The transition table, in other words: a condition that is not superseded can be; evidence or a waiver
      is asked for while nothing is asked for or ruled in its favour, so also after a failure; what is asked
      for can fail, or be granted in its own way; and a pending condition can be found not applicable. */
  lemma AllowedIff(status: ConditionStatus, next: ConditionStatus)
    ensures next in AllowedTransitions(status) <==>
              || (next.Superseded? && !status.Superseded?)
              || (Open(next) && !Open(status) && status !in CONFIRMABLE_STATUSES && !status.Superseded?)
              || (next.Failed? && Open(status))
              || (next.Verified? && status.EvidenceSubmitted?)
              || (next.WaivedByHuman? && status.WaiverRequested?)
              || (next.NotApplicableByHuman? && status.Pending?)
  {
    match status { case Pending => case _ => }
  }

  /** Every status can be reached, and from each but SUPERSEDED the run can be ended by it. */
  lemma EveryStatusReachable(status: ConditionStatus) returns (run: seq<ConditionStatus>)
    ensures Run(run) && run[|run| - 1] == status
    ensures !status.Superseded? ==> Run(run + [Superseded])
  {
    run := match status
      case Pending => [Pending]
      case EvidenceSubmitted => [Pending, EvidenceSubmitted]
      case Failed => [Pending, EvidenceSubmitted, Failed]
      case WaiverRequested => [Pending, WaiverRequested]
      case Verified => [Pending, EvidenceSubmitted, Verified]
      case WaivedByHuman => [Pending, WaiverRequested, WaivedByHuman]
      case NotApplicableByHuman => [Pending, NotApplicableByHuman]
      case Superseded => [Pending, Superseded];
  }
}

module AlertLifecycle {
  datatype AlertStatus = Open | Acknowledged | Escalated | DismissedByHuman

  function AllowedTransitions(status: AlertStatus): seq<AlertStatus> {
    match status
    case Open => [Acknowledged, Escalated, DismissedByHuman]
    case Acknowledged => [Escalated, DismissedByHuman]
    case Escalated => [DismissedByHuman]
    case DismissedByHuman => []
  }

  function Rank(status: AlertStatus): nat {
    match status case Open => 0 case Acknowledged => 1 case Escalated => 2 case DismissedByHuman => 3
  }

  ghost predicate Run(run: seq<AlertStatus>) {
    run != [] && forall k :: 0 < k < |run| ==> run[k] in AllowedTransitions(run[k - 1])
  }

  /** A disposition is allowed exactly if it climbs. */
  lemma AllowedMeansClimbing(a: AlertStatus, b: AlertStatus)
    ensures b in AllowedTransitions(a) <==> Rank(a) < Rank(b)
  {
  }

  /** The longest run: acknowledged, then escalated, then dismissed. */
  lemma ThreeDispositions()
    ensures Run([Open, Acknowledged, Escalated, DismissedByHuman])
  {
  }

  /** So an alert has at most three dispositions, and it is never in the same status twice. */
  lemma {:induction false} AtMostThreeDispositions(run: seq<AlertStatus>)
    requires Run(run)
    ensures |run| - 1 <= Rank(run[|run| - 1]) - Rank(run[0]) <= 3
    ensures forall i, j :: 0 <= i < j < |run| ==> Rank(run[i]) < Rank(run[j])
    decreases |run|
  {
    if |run| > 1 {
      AllowedMeansClimbing(run[|run| - 2], run[|run| - 1]);
      AtMostThreeDispositions(run[..|run| - 1]);
    }
  }
}
