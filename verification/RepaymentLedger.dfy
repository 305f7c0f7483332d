/** The repayment ledger (apply_events in services/api/src/creditops/domain/repayments.py): the state of
    every installment is recomputed from the schedule and the net cash. */
module RepaymentLedger {
  import opened Options
  import opened Money
  import opened Waterfall
  import EventHistory
  import DebtSchedule

  datatype Installment = Installment(period: nat, dueDate: int, fee: real, interest: real, principal: real) {
    function Total(): real { fee + interest + principal }
  }

  datatype PeriodStatus = Paid | PartiallyPaid | Unpaid

  datatype Period = Period(installment: Installment, fee: real, interest: real, principal: real,
                           status: PeriodStatus, overdue: bool) {
    function Allocated(): real { fee + interest + principal }

    function Outstanding(): real { installment.Total() - Allocated() }
  }

  datatype ExceptionKind = OverdueInstallment | UnderpaidPeriod | UnmatchedPayment
  datatype CollectionsException = CollectionsException(kind: ExceptionKind, period: Option<nat>, amount: real)

  datatype Snapshot = Snapshot(eventCount: nat, netPaid: real, expectedFees: real, expectedInterest: real,
                               expectedPrincipal: real,
                               outstandingFees: real, outstandingInterest: real, outstandingPrincipal: real,
                               overpayment: real, periods: seq<Period>, exceptions: seq<CollectionsException>) {
    function TotalExpected(): real { expectedFees + expectedInterest + expectedPrincipal }

    function OutstandingTotal(): real { outstandingFees + outstandingInterest + outstandingPrincipal }

    function AllocatedTotal(): real { TotalExpected() - OutstandingTotal() }

    predicate IsSettled() { OutstandingTotal() == 0.0 && overpayment == 0.0 }
  }

  // ---------- the schedule's demands ----------

  function Demand(i: Installment, bucket: nat): real {
    if bucket == 0 then i.fee else if bucket == 1 then i.interest else i.principal
  }

  /** The demands of installment k come at 3k, 3k + 1 and 3k + 2: fee, interest, principal. */
  function Demands(installments: seq<Installment>): (demands: seq<real>)
    ensures |demands| == 3 * |installments|
  {
    seq(3 * |installments|, j requires 0 <= j < 3 * |installments| => Demand(installments[j / 3], j % 3))
  }

  /** build_expected_installments: the rows with their due dates and the fee of each period. */
  function Installments(rows: seq<DebtSchedule.Row>, periodicFee: real, due: nat -> int): seq<Installment> {
    seq(|rows|, k requires 0 <= k < |rows| =>
      Installment(rows[k].period, due(rows[k].period), Quantized(periodicFee), rows[k].interest, rows[k].principal))
  }

  ghost predicate InCents(installments: seq<Installment>) {
    forall i <- installments :: Whole(i.fee) && Whole(i.interest) && Whole(i.principal)
  }

  predicate NotNegative(i: Installment) { i.fee >= 0.0 && i.interest >= 0.0 && i.principal >= 0.0 }

  ghost predicate NoneNegative(installments: seq<Installment>) {
    forall k :: 0 <= k < |installments| ==> NotNegative(installments[k])
  }

  lemma InstallmentsInCents(rows: seq<DebtSchedule.Row>, periodicFee: real, due: nat -> int)
    requires forall row <- rows :: DebtSchedule.WholeRow(row)
    ensures InCents(Installments(rows, periodicFee, due))
  {
    QuantizedIsNearest(periodicFee);
    forall k | 0 <= k < |rows| ensures DebtSchedule.WholeRow(rows[k]) { assert rows[k] in rows; }
  }

  lemma DemandsInCents(installments: seq<Installment>)
    requires InCents(installments)
    ensures AllWhole(Demands(installments))
  {
    forall j | 0 <= j < |Demands(installments)| ensures Whole(Demands(installments)[j]) {
      assert installments[j / 3] in installments;
    }
  }

  // ---------- the fold ----------

  /** The state of an installment for which the given amounts were allocated. */
  function PeriodOf(i: Installment, fee: real, interest: real, principal: real, asOf: int): Period {
    var total := fee + interest + principal;
    Period(i, fee, interest, principal,
           if total >= i.Total() then Paid else if total > 0.0 then PartiallyPaid else Unpaid,
           i.dueDate <= asOf && total < i.Total())
  }

  function PeriodAt(take: Rule, net: real, installments: seq<Installment>, k: nat, asOf: int): Period
    requires k < |installments|
  {
    var demands := Demands(installments);
    PeriodOf(installments[k], Absorbed(take, net, demands, 3 * k), Absorbed(take, net, demands, 3 * k + 1),
             Absorbed(take, net, demands, 3 * k + 2), asOf)
  }

  function Periods(take: Rule, net: real, installments: seq<Installment>, asOf: int): (periods: seq<Period>)
    ensures |periods| == |installments|
  {
    seq(|installments|, k requires 0 <= k < |installments| => PeriodAt(take, net, installments, k, asOf))
  }

  /** An installment takes its share of what remains: fee, then interest, then principal. */
  function Served(take: Rule, remaining: real, i: Installment, asOf: int): (Period, real) {
    var fee := take(remaining, i.fee);
    var interest := take(remaining - fee, i.interest);
    var principal := take(remaining - fee - interest, i.principal);
    (PeriodOf(i, fee, interest, principal, asOf), remaining - fee - interest - principal)
  }

  lemma ServedInTurn(take: Rule, net: real, installments: seq<Installment>, k: nat, asOf: int)
    requires k < |installments|
    ensures Served(take, Left(take, net, Demands(installments), 3 * k), installments[k], asOf)
            == (PeriodAt(take, net, installments, k, asOf), Left(take, net, Demands(installments), 3 * k + 3))
  {
    var demands := Demands(installments);
    DemandsOf(installments, k);
    assert Left(take, net, demands, 3 * k + 1) == Left(take, net, demands, 3 * k) - Absorbed(take, net, demands, 3 * k);
    assert Left(take, net, demands, 3 * k + 2)
           == Left(take, net, demands, 3 * k + 1) - Absorbed(take, net, demands, 3 * k + 1);
  }

  method Serve(take: Rule, remaining: real, i: Installment, asOf: int) returns (period: Period, left: real)
    ensures (period, left) == Served(take, remaining, i, asOf)
  {
    left := remaining;
    var fee := take(left, i.fee);
    left := left - fee;
    var interest := take(left, i.interest);
    left := left - interest;
    var principal := take(left, i.principal);
    left := left - principal;
    var allocatedTotal := fee + interest + principal;
    var status := if allocatedTotal >= i.Total() then Paid else if allocatedTotal > 0.0 then PartiallyPaid else Unpaid;
    period := Period(i, fee, interest, principal, status, i.dueDate <= asOf && allocatedTotal < i.Total());
  }

  /** The loop over the installments. */
  method Allocate(take: Rule, net: real, installments: seq<Installment>, asOf: int)
    returns (periods: seq<Period>, remaining: real)
    ensures periods == Periods(take, net, installments, asOf)
    ensures remaining == Left(take, net, Demands(installments), 3 * |installments|)
  {
    remaining, periods := net, [];
    for k := 0 to |installments|
      invariant |periods| == k && forall j :: 0 <= j < k ==> periods[j] == PeriodAt(take, net, installments, j, asOf)
      invariant remaining == Left(take, net, Demands(installments), 3 * k)
    {
      ServedInTurn(take, net, installments, k, asOf);
      var period, left := Serve(take, remaining, installments[k], asOf);
      periods, remaining := periods + [period], left;
    }
  }

  function Overdue(periods: seq<Period>): seq<CollectionsException> {
    if periods == [] then []
    else
      var last := periods[|periods| - 1];
      Overdue(periods[..|periods| - 1])
      + if !last.overdue then []
        else [CollectionsException(if last.Allocated() == 0.0 then OverdueInstallment else UnderpaidPeriod,
                                   Some(last.installment.period), last.Outstanding())]
  }

  function Exceptions(periods: seq<Period>, overpayment: real): seq<CollectionsException> {
    Overdue(periods) + if overpayment > 0.0 then [CollectionsException(UnmatchedPayment, None, overpayment)] else []
  }

  method DeriveExceptions(periods: seq<Period>, overpayment: real) returns (exceptions: seq<CollectionsException>)
    ensures exceptions == Exceptions(periods, overpayment)
  {
    exceptions := [];
    for k := 0 to |periods|
      invariant exceptions == Overdue(periods[..k])
    {
      assert periods[..k + 1][..k] == periods[..k];
      var period := periods[k];
      if !period.overdue { continue; }
      var kind := if period.Allocated() == 0.0 then OverdueInstallment else UnderpaidPeriod;
      exceptions := exceptions + [CollectionsException(kind, Some(period.installment.period), period.Outstanding())];
    }
    assert periods[..|periods|] == periods;
    if overpayment > 0.0 {
      exceptions := exceptions + [CollectionsException(UnmatchedPayment, None, overpayment)];
    }
  }

  /** The sum of one column of the periods. */
  function TotalOf(periods: seq<Period>, column: Period -> real, n: nat): real
    requires n <= |periods|
  {
    if n == 0 then 0.0 else TotalOf(periods, column, n - 1) + column(periods[n - 1])
  }

  function ExpectedFee(p: Period): real { p.installment.fee }
  function ExpectedInterest(p: Period): real { p.installment.interest }
  function ExpectedPrincipal(p: Period): real { p.installment.principal }
  function AllocatedFee(p: Period): real { p.fee }
  function AllocatedInterest(p: Period): real { p.interest }
  function AllocatedPrincipal(p: Period): real { p.principal }

  /** The snapshot of the given periods: its sums are taken over them. */
  function Summary(eventCount: nat, net: real, overpayment: real, periods: seq<Period>,
                   exceptions: seq<CollectionsException>): Snapshot {
    var n := |periods|;
    var fees, interest, principal :=
      TotalOf(periods, ExpectedFee, n), TotalOf(periods, ExpectedInterest, n), TotalOf(periods, ExpectedPrincipal, n);
    Snapshot(eventCount, net, fees, interest, principal,
             fees - TotalOf(periods, AllocatedFee, n), interest - TotalOf(periods, AllocatedInterest, n),
             principal - TotalOf(periods, AllocatedPrincipal, n), overpayment, periods, exceptions)
  }

  function Recomputed(eventCount: nat, net: real, installments: seq<Installment>, asOf: int): Snapshot {
    var periods := Periods(Take, net, installments, asOf);
    var overpayment := Positive(Left(Take, net, Demands(installments), 3 * |installments|));
    Summary(eventCount, net, overpayment, periods, Exceptions(periods, overpayment))
  }

  method ApplyEvents(facility: nat, installments: seq<Installment>, events: seq<EventHistory.Event>, asOf: int)
    returns (error: Option<EventHistory.LedgerError>, snapshot: Option<Snapshot>)
    requires EventHistory.Recorded(events)
    ensures error == EventHistory.Verdict(facility, events)
    ensures snapshot == if error.None? then Some(Recomputed(|events|, EventHistory.NetPaid(events), installments, asOf))
                        else None
  {
    snapshot := None;
    error := EventHistory.CheckEvents(facility, events);
    if error.Some? { return; }
    var netPaid := EventHistory.NetPaid(events);
    var periods, remaining := Allocate(Take, netPaid, installments, asOf);
    var overpayment := if remaining > 0.0 then remaining else 0.0;
    var exceptions := DeriveExceptions(periods, overpayment);
    snapshot := Some(Summary(|events|, netPaid, overpayment, periods, exceptions));
  }

  // ---------- what the ledger reports ----------

  lemma {:induction false} ColumnsAdd(periods: seq<Period>, n: nat)
    requires n <= |periods|
    ensures TotalOf(periods, AllocatedFee, n) + TotalOf(periods, AllocatedInterest, n)
            + TotalOf(periods, AllocatedPrincipal, n)
            == TotalOf(periods, Allocated, n)
    ensures TotalOf(periods, ExpectedFee, n) + TotalOf(periods, ExpectedInterest, n)
            + TotalOf(periods, ExpectedPrincipal, n)
            == TotalOf(periods, Expected, n)
  {
    if n > 0 { ColumnsAdd(periods, n - 1); }
  }

  function Allocated(p: Period): real { p.Allocated() }
  function Expected(p: Period): real { p.installment.Total() }

  lemma PeriodLeaves(take: Rule, net: real, installments: seq<Installment>, asOf: int, k: nat)
    requires k < |installments|
    ensures Allocated(PeriodAt(take, net, installments, k, asOf))
            == Left(take, net, Demands(installments), 3 * k) - Left(take, net, Demands(installments), 3 * k + 3)
  {
    ServedInTurn(take, net, installments, k, asOf);
  }

  lemma {:induction false} Telescopes(periods: seq<Period>, left: seq<real>, n: nat)
    requires n <= |periods| && |left| == |periods| + 1
    requires forall k :: 0 <= k < |periods| ==> Allocated(periods[k]) == left[k] - left[k + 1]
    ensures TotalOf(periods, Allocated, n) == left[0] - left[n]
  {
    if n > 0 { Telescopes(periods, left, n - 1); }
  }

  /** What the periods were allocated is what has left the net cash. */
  lemma AllocatedLeaves(take: Rule, net: real, installments: seq<Installment>, asOf: int)
    ensures TotalOf(Periods(take, net, installments, asOf), Allocated, |installments|)
            == net - Left(take, net, Demands(installments), 3 * |installments|)
  {
    var n := |installments|;
    var left := seq(n + 1, k requires 0 <= k < n + 1 => Left(take, net, Demands(installments), 3 * k));
    forall k | 0 <= k < n ensures Allocated(Periods(take, net, installments, asOf)[k]) == left[k] - left[k + 1] {
      PeriodLeaves(take, net, installments, asOf, k);
    }
    Telescopes(Periods(take, net, installments, asOf), left, n);
  }

  /** All that the schedule asks for. */
  function TotalOwed(installments: seq<Installment>): real { Owed(Demands(installments), 3 * |installments|) }

  /** Whatever the net cash: exactly its closed form is allocated, and the rest is carried over. */
  lemma AllocatedIsCovered(eventCount: nat, net: real, installments: seq<Installment>, asOf: int)
    requires InCents(installments)
    ensures var s := Recomputed(eventCount, net, installments, asOf);
            && s.AllocatedTotal() == Covered(net, TotalOwed(installments))
            && s.overpayment == Positive(net - Covered(net, TotalOwed(installments)))
  {
    var n := |installments|;
    ColumnsAdd(Periods(Take, net, installments, asOf), n);
    AllocatedLeaves(Take, net, installments, asOf);
    DemandsInCents(installments);
    LeftIs(net, Demands(installments), 3 * n);
  }

  /** The documented reconciliation holds exactly at the money quantum: rounded to whole cents, what was
      paid is what was allocated and what was overpaid.  Of whole cents it holds as it stands. */
  lemma ReconcilesAtQuantum(eventCount: nat, net: real, installments: seq<Installment>, asOf: int)
    requires InCents(installments) && net >= 0.0
    ensures var s := Recomputed(eventCount, net, installments, asOf);
            && Quantized(s.netPaid) == s.AllocatedTotal() + Quantized(s.overpayment)
            && (Whole(net) ==> s.netPaid == s.AllocatedTotal() + s.overpayment)
  {
    AllocatedIsCovered(eventCount, net, installments, asOf);
    DemandsInCents(installments);
    OwedIsWhole(Demands(installments), 3 * |installments|);
    QuantumSplits(net, TotalOwed(installments));
  }

  lemma QuantumSplits(net: real, owed: real)
    requires net >= 0.0 && Whole(owed) && owed >= 0.0
    ensures Quantized(net) == Covered(net, owed) + Quantized(Positive(net - Covered(net, owed)))
    ensures Whole(net) ==> net == Covered(net, owed) + Positive(net - Covered(net, owed))
  {
    QuantizedIsNearest(net);
    CentsAreWhole(0);
    QuantizedIsNearest(0.0);
    if net >= owed {
      QuantizedShifts(net, owed);
    } else if Quantized(net) < net {
      SmallRest(net - Quantized(net));
    }
  }

  /** Less than half a cent is nothing at the money quantum. */
  lemma SmallRest(rest: real)
    requires 0.0 <= rest < 0.005
    ensures Quantized(rest) == 0.0
  {
    assert HalfUp(rest * 100.0) == 0;
  }

  /** Without rounding, net paid is allocated plus overpaid exactly if the net cash pays for everything or
      is not rounded up to the next cent. */
  lemma ReconcilesIff(eventCount: nat, net: real, installments: seq<Installment>, asOf: int)
    requires InCents(installments) && net >= 0.0
    ensures var s := Recomputed(eventCount, net, installments, asOf);
            s.netPaid == s.AllocatedTotal() + s.overpayment <==> net >= TotalOwed(installments) || Quantized(net) <= net
  {
    AllocatedIsCovered(eventCount, net, installments, asOf);
    QuantizedIsNearest(net);
  }

  /** Unmatched cash is reported only if there is more than every obligation, or less than half a cent
      is left over from cash that did not pay for everything. */
  lemma UnmatchedIff(eventCount: nat, net: real, installments: seq<Installment>, asOf: int)
    requires InCents(installments)
    ensures var s, owed := Recomputed(eventCount, net, installments, asOf), TotalOwed(installments);
            && (s.overpayment > 0.0 <==> net > owed || (0.0 < net < owed && Quantized(net) < net))
            && (Whole(net) ==> s.overpayment == Positive(net - owed))
            && (s.overpayment > 0.0 <==> CollectionsException(UnmatchedPayment, None, s.overpayment) in s.exceptions)
  {
    AllocatedIsCovered(eventCount, net, installments, asOf);
    QuantizedIsNearest(net);
    DemandsInCents(installments);
    OwedIsWhole(Demands(installments), 3 * |installments|);
    OverdueKinds(Periods(Take, net, installments, asOf));
  }

  lemma {:induction false} OverdueKinds(periods: seq<Period>)
    ensures forall e <- Overdue(periods) :: !e.kind.UnmatchedPayment?
    decreases |periods|
  {
    if periods != [] { OverdueKinds(periods[..|periods| - 1]); }
  }

  lemma DemandsOf(installments: seq<Installment>, k: nat)
    requires k < |installments|
    ensures DemandedBy(installments[k], Demands(installments), 3 * k)
  {
  }

  /** The installment's demands start at index j. */
  predicate DemandedBy(i: Installment, demands: seq<real>, j: nat) {
    j + 3 <= |demands| && demands[j] == i.fee && demands[j + 1] == i.interest && demands[j + 2] == i.principal
  }

  /** A schedule asks for no less than its total, and for more exactly if some amount is negative. */
  lemma {:induction false} OwedByAll(installments: seq<Installment>, demands: seq<real>, n: nat, periods: seq<Period>)
    requires n <= |installments| == |periods| && |demands| == 3 * |installments|
    requires forall k :: 0 <= k < |installments| ==> DemandedBy(installments[k], demands, 3 * k)
    requires forall k :: 0 <= k < |installments| ==> periods[k].installment == installments[k]
    ensures TotalOf(periods, Expected, n) <= Owed(demands, 3 * n)
    ensures TotalOf(periods, Expected, n) == Owed(demands, 3 * n)
            <==> forall k :: 0 <= k < n ==> NotNegative(installments[k])
  {
    if n > 0 {
      OwedByAll(installments, demands, n - 1, periods);
      assert DemandedBy(installments[n - 1], demands, 3 * (n - 1));
      OwedByThree(demands, 3 * (n - 1));
    }
  }

  lemma ExpectedWithinOwed(eventCount: nat, net: real, installments: seq<Installment>, asOf: int)
    ensures var s := Recomputed(eventCount, net, installments, asOf);
            && s.TotalExpected() <= TotalOwed(installments)
            && (s.TotalExpected() == TotalOwed(installments) <==> NoneNegative(installments))
  {
    var periods := Periods(Take, net, installments, asOf);
    ColumnsAdd(periods, |periods|);
    forall k | 0 <= k < |installments| ensures DemandedBy(installments[k], Demands(installments), 3 * k) {
      DemandsOf(installments, k);
    }
    OwedByAll(installments, Demands(installments), |installments|, periods);
  }

  /** A facility is settled exactly if the net cash, rounded to whole cents, is the total of its
      schedule, and it is not more than that. */
  lemma SettledIff(eventCount: nat, net: real, installments: seq<Installment>, asOf: int)
    requires InCents(installments) && net >= 0.0
    ensures var s := Recomputed(eventCount, net, installments, asOf);
            && (s.IsSettled() <==> Quantized(net) == s.TotalExpected() && net <= s.TotalExpected())
            && (Whole(net) ==> (s.IsSettled() <==> net == s.TotalExpected()))
  {
    AllocatedIsCovered(eventCount, net, installments, asOf);
    ExpectedWithinOwed(eventCount, net, installments, asOf);
    DemandsInCents(installments);
    OwedIsWhole(Demands(installments), 3 * |installments|);
    QuantizedIsNearest(net);
    QuantizedIsNearest(TotalOwed(installments));
  }

  /** The documented meaning, settled exactly if every obligation is covered with no excess, holds
      exactly of the schedules without negative amounts: on any other, a settled facility has an
      obligation that is not covered, and one with all of them covered is not settled. */
  lemma SettledMeansCoveredIff(eventCount: nat, net: real, installments: seq<Installment>, asOf: int)
    requires InCents(installments) && net >= 0.0
    ensures var s := Recomputed(eventCount, net, installments, asOf);
            && (s.IsSettled() ==> (AllMet(net, Demands(installments)) <==> NoneNegative(installments)))
            && (AllMet(net, Demands(installments)) && s.overpayment == 0.0 ==>
                  (s.IsSettled() <==> NoneNegative(installments)))
  {
    AllocatedIsCovered(eventCount, net, installments, asOf);
    ExpectedWithinOwed(eventCount, net, installments, asOf);
    DemandsInCents(installments);
    AllMetIff(net, Demands(installments));
  }

  /** Cash that reaches a later demand has met all the demands of an installment. */
  lemma PaidBefore(net: real, installments: seq<Installment>, i: nat, m: nat)
    requires InCents(installments)
    requires i < |installments| && 3 * i + 3 <= m < 3 * |installments|
    requires Absorbed(Take, net, Demands(installments), m) > 0.0
    ensures var demands := Demands(installments);
            && Absorbed(Take, net, demands, 3 * i) == Positive(installments[i].fee)
            && Absorbed(Take, net, demands, 3 * i + 1) == Positive(installments[i].interest)
            && Absorbed(Take, net, demands, 3 * i + 2) == Positive(installments[i].principal)
  {
    var demands := Demands(installments);
    DemandsInCents(installments);
    DemandsOf(installments, i);
    OldestFirst(net, demands, 3 * i, m);
    OldestFirst(net, demands, 3 * i + 1, m);
    OldestFirst(net, demands, 3 * i + 2, m);
  }

  /** Oldest installment first: an installment gets nothing unless all earlier ones are paid, so that at
      most one is partially paid. */
  lemma OldestInstallmentFirst(net: real, installments: seq<Installment>, asOf: int, i: nat, j: nat)
    requires InCents(installments) && i < j < |installments|
    ensures var before, after := PeriodAt(Take, net, installments, i, asOf), PeriodAt(Take, net, installments, j, asOf);
            && (after.Allocated() > 0.0 ==> before.status == Paid)
            && (after.Allocated() > 0.0 && NotNegative(installments[i]) ==> before.Outstanding() == 0.0)
            && !(before.status.PartiallyPaid? && after.status.PartiallyPaid?)
  {
    var demands := Demands(installments);
    var a, b := Absorbed(Take, net, demands, 3 * j), Absorbed(Take, net, demands, 3 * j + 1);
    if a > 0.0 {
      PaidBefore(net, installments, i, 3 * j);
    } else if b > 0.0 {
      PaidBefore(net, installments, i, 3 * j + 1);
    } else if Absorbed(Take, net, demands, 3 * j + 2) > 0.0 {
      PaidBefore(net, installments, i, 3 * j + 2);
    }
  }

  /** For a history that passes the checks, whatever the order in which its events were delivered: the
      net cash is not negative, and the same ledger is recomputed. */
  lemma LedgerIgnoresOrder(facility: nat, a: seq<EventHistory.Event>, b: seq<EventHistory.Event>,
                           installments: seq<Installment>, asOf: int)
    requires EventHistory.Recorded(a) && EventHistory.Verdict(facility, a) == None
    requires multiset(a) == multiset(b) && EventHistory.SameIdSameEvent(a)
    ensures EventHistory.Verdict(facility, b) == None && EventHistory.NetPaid(a) >= 0.0
    ensures Recomputed(|a|, EventHistory.NetPaid(a), installments, asOf)
            == Recomputed(|b|, EventHistory.NetPaid(b), installments, asOf)
  {
    EventHistory.HistoryIgnoresOrder(facility, a, b);
    EventHistory.ValidHistoryIsNotNegative(facility, a);
  }
}
