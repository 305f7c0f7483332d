/** From a loan to its ledger (build_expected_installments and apply_events in
    services/api/src/creditops/domain/repayments.py), and ledgers on which a documented meaning fails. */
module LedgerLoans {
  import opened Options
  import opened Money
  import opened Waterfall
  import opened EventHistory
  import opened DebtSchedule
  import opened RepaymentLedger

  /** The installments of a loan. */
  function LoanInstallments(p: Plan, periodicFee: real, due: nat -> int): seq<Installment> {
    Installments(Schedule(p, p.months), periodicFee, due)
  }

  /** Every accepted loan: its installments are the rows that its terms ask for, each with the rounded fee and
      its own due date. */
  lemma InstallmentsFollowTerms(t: Terms, periodicFee: real, due: nat -> int) returns (rows: seq<Row>)
    requires t.Accepted()
    ensures var installments := LoanInstallments(PlanOf(t), periodicFee, due);
            && Follows(t, rows) && |installments| == t.months
            && forall k :: 0 <= k < t.months ==>
                 && installments[k].period == k + 1 && installments[k].dueDate == due(k + 1)
                 && IsRounded(installments[k].fee, periodicFee)
                 && installments[k].interest == rows[k].interest && installments[k].principal == rows[k].principal
  {
    rows := Schedule(PlanOf(t), t.months);
    ScheduleFollows(t);
    QuantizedIsRounded(periodicFee);
    forall k | 0 <= k < t.months ensures rows[k].period == k + 1 {
      RowOfSchedule(PlanOf(t), t.months, k);
    }
  }

  lemma {:induction false} PrincipalColumn(rows: seq<Row>, periods: seq<Period>, n: nat)
    requires n <= |rows| == |periods|
    requires forall k :: 0 <= k < |rows| ==> periods[k].installment.principal == rows[k].principal
    ensures TotalOf(periods, ExpectedPrincipal, n) == TotalPrincipal(rows[..n])
  {
    if n > 0 {
      PrincipalColumn(rows, periods, n - 1);
      assert rows[..n][..n - 1] == rows[..n - 1];
    }
  }

  lemma ExpectedPrincipalOf(take: Rule, net: real, installments: seq<Installment>, rows: seq<Row>, asOf: int)
    requires |rows| == |installments| && forall k :: 0 <= k < |rows| ==> installments[k].principal == rows[k].principal
    ensures TotalOf(Periods(take, net, installments, asOf), ExpectedPrincipal, |rows|) == TotalPrincipal(rows)
  {
    PrincipalColumn(rows, Periods(take, net, installments, asOf), |rows|);
    assert rows[..|rows|] == rows;
  }

  /** The principal that the ledger expects is the loan. */
  lemma LoanIsExpected(p: Plan, periodicFee: real, due: nat -> int, eventCount: nat, net: real, asOf: int)
    requires p.InCents()
    ensures Recomputed(eventCount, net, LoanInstallments(p, periodicFee, due), asOf).expectedPrincipal == p.balance
  {
    PrincipalIsRepaid(p);
    ExpectedPrincipalOf(Take, net, LoanInstallments(p, periodicFee, due), Schedule(p, p.months), asOf);
  }

  lemma LoanInCents(p: Plan, periodicFee: real, due: nat -> int)
    requires p.InCents()
    ensures InCents(LoanInstallments(p, periodicFee, due))
  {
    PrincipalIsRepaid(p);
    InstallmentsInCents(Schedule(p, p.months), periodicFee, due);
  }

  lemma InstallmentOfRow(rows: seq<Row>, periodicFee: real, due: nat -> int, k: nat)
    requires k < |rows| && periodicFee >= 0.0
    ensures NotNegative(Installments(rows, periodicFee, due)[k])
            <==> rows[k].principal >= 0.0 && rows[k].interest >= 0.0
  {
    QuantizedIsNearest(periodicFee);
  }

  lemma InstallmentsOfRows(rows: seq<Row>, periodicFee: real, due: nat -> int)
    requires periodicFee >= 0.0
    ensures NoneNegative(Installments(rows, periodicFee, due))
            <==> forall k :: 0 <= k < |rows| ==> rows[k].principal >= 0.0 && rows[k].interest >= 0.0
  {
    forall k | 0 <= k < |rows|
      ensures NotNegative(Installments(rows, periodicFee, due)[k])
              <==> rows[k].principal >= 0.0 && rows[k].interest >= 0.0
    {
      InstallmentOfRow(rows, periodicFee, due, k);
    }
  }

  /** No installment of a loan is negative exactly if the rounded instalments do not overshoot it. */
  lemma LoanNotNegativeIff(p: Plan, periodicFee: real, due: nat -> int)
    requires p.InCents() && periodicFee >= 0.0
    ensures NoneNegative(LoanInstallments(p, periodicFee, due)) <==> Times(p.months - 1, p.instalment) <= p.balance
  {
    var rows, n := Schedule(p, p.months), p.months - 1;
    NonNegativeIff(p);
    InstallmentsOfRows(rows, periodicFee, due);
    if Times(n, p.instalment) <= p.balance {
      forall k | 0 <= k < |rows| ensures NonNegative(rows[k]) { assert rows[k] in rows; }
    } else {
      RowOfSchedule(p, p.months, n);
    }
  }

  /** A loan is settled exactly when its total was paid, to the cent and no more; and being settled means
      that every obligation is covered exactly if the rounded instalments do not overshoot the loan. */
  lemma LoanSettledIff(p: Plan, periodicFee: real, due: nat -> int, facility: nat, events: seq<Event>, asOf: int)
    requires p.InCents() && periodicFee >= 0.0 && Recorded(events) && Verdict(facility, events) == None
    ensures var net, installments := NetPaid(events), LoanInstallments(p, periodicFee, due);
            var s := Recomputed(|events|, net, installments, asOf);
            && (s.IsSettled() <==> Quantized(net) == s.TotalExpected() && net <= s.TotalExpected())
            && (s.IsSettled() ==>
                  (AllMet(net, Demands(installments)) <==> Times(p.months - 1, p.instalment) <= p.balance))
  {
    var net, installments := NetPaid(events), LoanInstallments(p, periodicFee, due);
    LoanInCents(p, periodicFee, due);
    LoanNotNegativeIff(p, periodicFee, due);
    ValidHistoryIsNotNegative(facility, events);
    SettledIff(|events|, net, installments, asOf);
    SettledMeansCoveredIff(|events|, net, installments, asOf);
  }

  // ---------- ledgers on which the documentation fails ----------

  /** A history of one payment. */
  function Payments(amount: real): seq<Event> { [Event(1, 7, Payment, amount)] }

  lemma OnePayment(amount: real)
    requires amount > 0.0
    ensures Recorded(Payments(amount)) && Verdict(7, Payments(amount)) == None && NetPaid(Payments(amount)) == amount
  {
    var events := Payments(amount);
    assert events[..|events| - 1] == [] && SumOf([], Signed) == 0.0;
    assert NetPaid(events) == SumOf([], Signed) + Signed(events[0]);
    forall id: nat ensures Reversed(events, id) == 0.0 { NothingReversed(events, id); }
    forall id: nat | AmountPaid(events, id).Some? ensures AmountPaid(events, id).value > 0.0 {
      AmountPositive(events, id);
    }
  }

  /** One unit, without interest, due in one installment. */
  const UNIT_LOAN := Terms(1.0, 0.0, 1, EqualPrincipal)

  function UnitInstallments(dueDate: int): seq<Installment> { [Installment(1, dueDate, 0.0, 0.0, 1.0)] }

  lemma NoFee()
    ensures Quantized(0.0) == 0.0
  {
    CentsAreWhole(0);
    QuantizedIsNearest(0.0);
  }

  lemma UnitRows(rows: seq<Row>, due: nat -> int)
    requires rows == [Row(1, 1.0, 0.0, 0.0)]
    ensures Installments(rows, 0.0, due) == UnitInstallments(due(1))
  {
    NoFee();
  }

  lemma UnitSchedule(p: Plan)
    requires p.months == 1 && p.balance == 1.0 && Interest(1.0, p.rate) == 0.0
    ensures Schedule(p, 1) == [Row(1, 1.0, 0.0, 0.0)]
  {
    RowOfSchedule(p, 1, 0);
  }

  lemma UnitPlan()
    ensures UNIT_LOAN.Accepted() && PlanOf(UNIT_LOAN).months == 1
    ensures PlanOf(UNIT_LOAN).balance == 1.0 && PlanOf(UNIT_LOAN).rate == 0.0
  {
  }

  lemma UnitLoan(due: nat -> int)
    ensures UNIT_LOAN.Accepted() && LoanInstallments(PlanOf(UNIT_LOAN), 0.0, due) == UnitInstallments(due(1))
  {
    UnitPlan();
    InterestFree(1.0);
    UnitSchedule(PlanOf(UNIT_LOAN));
    UnitRows(Schedule(PlanOf(UNIT_LOAN), 1), due);
  }

  lemma UnitIsOwed(dueDate: int)
    ensures TotalOwed(UnitInstallments(dueDate)) == 1.0 && InCents(UnitInstallments(dueDate))
  {
    var installments := UnitInstallments(dueDate);
    DemandsOf(installments, 0);
    OwedByThree(Demands(installments), 0);
    CentsAreWhole(0);
    CentsAreWhole(100);
  }

  /** Half a cent, paid on the loan of one unit, counts as a whole one: without rounding, net paid is not
      what was allocated plus what was overpaid. */
  lemma HalfCentDoesNotReconcile(dueDate: int, asOf: int)
    ensures var events := Payments(0.005);
            var s := Recomputed(1, NetPaid(events), UnitInstallments(dueDate), asOf);
            && Recorded(events) && Verdict(7, events) == None
            && s.netPaid != s.AllocatedTotal() + s.overpayment
  {
    UnitIsOwed(dueDate);
    OnePayment(0.005);
    assert Quantized(0.005) == 0.01;
    ReconcilesIff(1, 0.005, UnitInstallments(dueDate), asOf);
  }

  /** Less than half a cent, paid on the loan of one unit, is reported as cash beyond every obligation. */
  lemma SmallRestIsUnmatched(dueDate: int, asOf: int)
    ensures var events := Payments(0.004);
            var s := Recomputed(1, NetPaid(events), UnitInstallments(dueDate), asOf);
            && Recorded(events) && Verdict(7, events) == None
            && s.overpayment > 0.0 && NetPaid(events) < TotalOwed(UnitInstallments(dueDate))
            && CollectionsException(UnmatchedPayment, None, s.overpayment) in s.exceptions
  {
    UnitIsOwed(dueDate);
    OnePayment(0.004);
    assert Quantized(0.004) == 0.0;
    UnmatchedIff(1, 0.004, UnitInstallments(dueDate), asOf);
  }

  /** Three cents over five months: four instalments of a cent each, and a cent back. */
  const SMALL_LOAN := Terms(0.03, 0.0, 5, EqualPrincipal)

  lemma SmallLoanPlan()
    ensures SMALL_LOAN.Accepted() && PlanOf(SMALL_LOAN).InCents()
    ensures PlanOf(SMALL_LOAN) == Plan(0.03, 0.01, 0.0, 5)
  {
    PlanIsInCents(SMALL_LOAN);
  }

  lemma SmallLoanRow(due: nat -> int, k: nat)
    requires k < 5
    ensures LoanInstallments(Plan(0.03, 0.01, 0.0, 5), 0.0, due)[k]
            == Installment(k + 1, due(k + 1), 0.0, 0.0, if k == 4 then -0.01 else 0.01)
  {
    var p := Plan(0.03, 0.01, 0.0, 5);
    RowOfSchedule(p, 5, k);
    TimesIsProduct(k, 0.01);
    InterestFree(Opening(p, k));
  }

  lemma InterestFree(opening: real)
    ensures Interest(opening, 0.0) == 0.0
  {
    assert opening * 0.0 == 0.0;
  }

  lemma {:induction false} ZeroColumn(periods: seq<Period>, column: Period -> real, n: nat)
    requires n <= |periods| && forall k :: 0 <= k < |periods| ==> column(periods[k]) == 0.0
    ensures TotalOf(periods, column, n) == 0.0
  {
    if n > 0 { ZeroColumn(periods, column, n - 1); }
  }

  /** After three cents nothing is left for the fourth installment. */
  lemma NothingForTheFourth(installments: seq<Installment>, asOf: int)
    requires |installments| == 5 && forall k :: 0 <= k < 4 ==>
               installments[k].fee == 0.0 && installments[k].interest == 0.0 && installments[k].principal == 0.01
    requires InCents(installments)
    ensures PeriodAt(Take, 0.03, installments, 3, asOf).Allocated() == 0.0
  {
    var demands := Demands(installments);
    DemandsInCents(installments);
    DemandsOf(installments, 0);
    DemandsOf(installments, 1);
    DemandsOf(installments, 2);
    DemandsOf(installments, 3);
    OwedByThree(demands, 0);
    OwedByThree(demands, 3);
    OwedByThree(demands, 6);
    assert Owed(demands, 9) == 0.03;
    LeftIs(0.03, demands, 9);
    assert Left(Take, 0.03, demands, 9) == 0.0 && Absorbed(Take, 0.03, demands, 9) == 0.0;
    assert Left(Take, 0.03, demands, 10) == 0.0 && Absorbed(Take, 0.03, demands, 10) == 0.0;
    assert Left(Take, 0.03, demands, 11) == 0.0 && Absorbed(Take, 0.03, demands, 11) == 0.0;
  }

  lemma SmallLoanSettled(p: Plan, due: nat -> int, asOf: int)
    requires p == Plan(0.03, 0.01, 0.0, 5) && p.InCents()
    ensures Recomputed(1, 0.03, LoanInstallments(p, 0.0, due), asOf).IsSettled()
  {
    LoanInCents(p, 0.0, due);
    SmallLoanTotal(p, due, asOf);
    CentsAreWhole(3);
    SettledIff(1, 0.03, LoanInstallments(p, 0.0, due), asOf);
  }

  lemma SmallLoanUnpaid(p: Plan, due: nat -> int, asOf: int)
    requires p == Plan(0.03, 0.01, 0.0, 5) && p.InCents() && due(4) <= asOf
    ensures var fourth := PeriodAt(Take, 0.03, LoanInstallments(p, 0.0, due), 3, asOf);
            fourth.status == Unpaid && fourth.overdue
  {
    var installments := LoanInstallments(p, 0.0, due);
    LoanInCents(p, 0.0, due);
    forall k | 0 <= k < 5
      ensures installments[k] == Installment(k + 1, due(k + 1), 0.0, 0.0, if k == 4 then -0.01 else 0.01)
    {
      SmallLoanRow(due, k);
    }
    NothingForTheFourth(installments, asOf);
  }

  /** The loan is settled when three cents are paid, while its fourth installment is unpaid and overdue. */
  lemma SettledWithUnpaidInstallment(due: nat -> int, asOf: int)
    requires due(4) <= asOf
    ensures var events := Payments(0.03);
            var s := Recomputed(1, NetPaid(events), LoanInstallments(PlanOf(SMALL_LOAN), 0.0, due), asOf);
            && Recorded(events) && Verdict(7, events) == None
            && s.IsSettled() && |s.periods| == 5 && s.periods[3].status == Unpaid && s.periods[3].overdue
  {
    SmallLoanPlan();
    OnePayment(0.03);
    SmallLoanSettled(PlanOf(SMALL_LOAN), due, asOf);
    SmallLoanUnpaid(PlanOf(SMALL_LOAN), due, asOf);
  }

  lemma SmallLoanTotal(p: Plan, due: nat -> int, asOf: int)
    requires p == Plan(0.03, 0.01, 0.0, 5) && p.InCents()
    ensures Recomputed(1, 0.03, LoanInstallments(p, 0.0, due), asOf).TotalExpected() == 0.03
  {
    var installments := LoanInstallments(p, 0.0, due);
    var periods := Periods(Take, 0.03, installments, asOf);
    forall k | 0 <= k < 5 ensures ExpectedFee(periods[k]) == 0.0 && ExpectedInterest(periods[k]) == 0.0 {
      SmallLoanRow(due, k);
    }
    ZeroColumn(periods, ExpectedFee, 5);
    ZeroColumn(periods, ExpectedInterest, 5);
    LoanIsExpected(p, 0.0, due, 1, 0.03, asOf);
  }
}
