/** What the collections exceptions of a ledger say (_derive_exceptions in
    services/api/src/creditops/domain/repayments.py). */
module LedgerExceptions {
  import opened Options
  import opened Money
  import opened Waterfall
  import opened RepaymentLedger
  import DebtSchedule
  import LedgerLoans

  function CountOf(exceptions: seq<CollectionsException>, p: CollectionsException -> bool): nat {
    if exceptions == [] then 0
    else CountOf(exceptions[..|exceptions| - 1], p) + if p(exceptions[|exceptions| - 1]) then 1 else 0
  }

  function AmountOf(exceptions: seq<CollectionsException>, p: CollectionsException -> bool): real {
    if exceptions == [] then 0.0
    else
      var last := exceptions[|exceptions| - 1];
      AmountOf(exceptions[..|exceptions| - 1], p) + if p(last) then last.amount else 0.0
  }

  function About(number: nat): CollectionsException -> bool { (e: CollectionsException) => e.period == Some(number) }

  predicate IsUnderpaid(e: CollectionsException) { e.kind.UnderpaidPeriod? }

  predicate OfPeriod(e: CollectionsException) { e.period.Some? }

  /** The exception speaks of this period as it is. */
  predicate Reports(e: CollectionsException, p: Period) {
    && e.period == Some(p.installment.period) && e.amount == p.Outstanding()
    && (e.kind == OverdueInstallment <==> p.Allocated() == 0.0)
    && (e.kind == UnderpaidPeriod <==> p.Allocated() != 0.0)
  }

  /** The periods are told apart by their numbers. */
  ghost predicate Numbered(periods: seq<Period>) {
    forall i, j :: 0 <= i < j < |periods| ==> periods[i].installment.period != periods[j].installment.period
  }

  /** The periods of a loan are. */
  lemma LoanPeriodsNumbered(p: DebtSchedule.Plan, periodicFee: real, due: nat -> int, net: real, asOf: int)
    ensures Numbered(Periods(Take, net, LedgerLoans.LoanInstallments(p, periodicFee, due), asOf))
  {
    forall k | 0 <= k < p.months ensures DebtSchedule.Schedule(p, p.months)[k].period == k + 1 {
      DebtSchedule.RowOfSchedule(p, p.months, k);
    }
  }

  lemma Appended(exceptions: seq<CollectionsException>, e: CollectionsException, p: CollectionsException -> bool)
    ensures CountOf(exceptions + [e], p) == CountOf(exceptions, p) + if p(e) then 1 else 0
    ensures AmountOf(exceptions + [e], p) == AmountOf(exceptions, p) + if p(e) then e.amount else 0.0
  {
    assert (exceptions + [e])[..|exceptions|] == exceptions;
  }

  function OverdueException(p: Period): CollectionsException {
    CollectionsException(if p.Allocated() == 0.0 then OverdueInstallment else UnderpaidPeriod,
                         Some(p.installment.period), p.Outstanding())
  }

  lemma OverdueStep(periods: seq<Period>, n: nat)
    requires 0 < n <= |periods|
    ensures var before, p := Overdue(periods[..n - 1]), periods[n - 1];
            Overdue(periods[..n]) == if p.overdue then before + [OverdueException(p)] else before
  {
    assert periods[..n][..n - 1] == periods[..n - 1];
  }

  lemma {:induction false} OneForEachPrefix(periods: seq<Period>, n: nat, k: nat)
    requires Numbered(periods) && k < |periods| && n <= |periods|
    ensures var found := Overdue(periods[..n]);
            && CountOf(found, About(periods[k].installment.period)) == (if k < n && periods[k].overdue then 1 else 0)
            && forall e <- found :: e.period == Some(periods[k].installment.period) ==> Reports(e, periods[k])
    decreases n
  {
    if n > 0 {
      OneForEachPrefix(periods, n - 1, k);
      OverdueStep(periods, n);
      if periods[n - 1].overdue {
        Appended(Overdue(periods[..n - 1]), OverdueException(periods[n - 1]), About(periods[k].installment.period));
      }
    }
  }

  /** Each overdue period has exactly one exception, any other period none; and an exception about a
      period gives its outstanding amount, as overdue if nothing was allocated and else as underpaid. */
  lemma OneExceptionPerOverduePeriod(periods: seq<Period>, overpayment: real, k: nat)
    requires Numbered(periods) && k < |periods|
    ensures var found := Exceptions(periods, overpayment);
            && CountOf(found, About(periods[k].installment.period)) == (if periods[k].overdue then 1 else 0)
            && forall e <- found :: e.period == Some(periods[k].installment.period) ==> Reports(e, periods[k])
  {
    OneForEachPrefix(periods, |periods|, k);
    assert periods[..|periods|] == periods;
    WithUnmatched(periods, overpayment, About(periods[k].installment.period));
  }

  lemma WithUnmatched(periods: seq<Period>, overpayment: real, p: CollectionsException -> bool)
    requires !p(CollectionsException(UnmatchedPayment, None, overpayment))
    ensures CountOf(Exceptions(periods, overpayment), p) == CountOf(Overdue(periods), p)
    ensures AmountOf(Exceptions(periods, overpayment), p) == AmountOf(Overdue(periods), p)
  {
    if overpayment > 0.0 {
      Appended(Overdue(periods), CollectionsException(UnmatchedPayment, None, overpayment), p);
    } else {
      assert Exceptions(periods, overpayment) == Overdue(periods);
    }
  }

  /** So has each overdue month of any loan, in any ledger of it. */
  lemma OneExceptionPerOverdueMonth(p: DebtSchedule.Plan, periodicFee: real, due: nat -> int, eventCount: nat,
                                    net: real, asOf: int, k: nat)
    requires k < p.months
    ensures var s := Recomputed(eventCount, net, LedgerLoans.LoanInstallments(p, periodicFee, due), asOf);
            && |s.periods| == p.months
            && CountOf(s.exceptions, About(s.periods[k].installment.period)) == (if s.periods[k].overdue then 1 else 0)
            && forall e <- s.exceptions ::
                 e.period == Some(s.periods[k].installment.period) ==> Reports(e, s.periods[k])
  {
    var installments := LedgerLoans.LoanInstallments(p, periodicFee, due);
    LoanPeriodsNumbered(p, periodicFee, due, net, asOf);
    OneExceptionPerOverduePeriod(Periods(Take, net, installments, asOf),
                                 Positive(Left(Take, net, Demands(installments), 3 * |installments|)), k);
  }

  function OverduePart(p: Period): real { if p.overdue then p.Outstanding() else 0.0 }

  lemma AmountStep(periods: seq<Period>, n: nat)
    requires 0 < n <= |periods|
    ensures AmountOf(Overdue(periods[..n]), OfPeriod)
            == AmountOf(Overdue(periods[..n - 1]), OfPeriod) + OverduePart(periods[n - 1])
  {
    var p := periods[n - 1];
    OverdueStep(periods, n);
    if p.overdue {
      assert OverdueException(p).amount == p.Outstanding();
      Appended(Overdue(periods[..n - 1]), OverdueException(p), OfPeriod);
    }
  }

  lemma {:induction false} AmountsPrefix(periods: seq<Period>, n: nat)
    requires n <= |periods|
    ensures AmountOf(Overdue(periods[..n]), OfPeriod) == TotalOf(periods, OverduePart, n)
  {
    if n > 0 {
      AmountsPrefix(periods, n - 1);
      AmountStep(periods, n);
    }
  }

  /** The amounts reported about periods add up to what is outstanding of the overdue ones. */
  lemma AmountsAddUp(periods: seq<Period>, overpayment: real)
    ensures AmountOf(Exceptions(periods, overpayment), OfPeriod) == TotalOf(periods, OverduePart, |periods|)
  {
    AmountsPrefix(periods, |periods|);
    assert periods[..|periods|] == periods;
    WithUnmatched(periods, overpayment, OfPeriod);
  }

  /** An overdue period to which something was allocated is partially paid. */
  lemma UnderpaidIsPartial(net: real, installments: seq<Installment>, asOf: int, k: nat)
    requires InCents(installments) && k < |installments|
    ensures var p := PeriodAt(Take, net, installments, k, asOf);
            p.Allocated() >= 0.0 && (p.overdue && p.Allocated() != 0.0 ==> p.status.PartiallyPaid?)
  {
    DemandsInCents(installments);
    AbsorbedWithin(net, Demands(installments), 3 * k);
    AbsorbedWithin(net, Demands(installments), 3 * k + 1);
    AbsorbedWithin(net, Demands(installments), 3 * k + 2);
  }

  ghost predicate AtMostOnePartial(periods: seq<Period>) {
    forall i, j :: 0 <= i < j < |periods| ==> !(periods[i].status.PartiallyPaid? && periods[j].status.PartiallyPaid?)
  }

  lemma {:induction false} UnderpaidPrefix(periods: seq<Period>, n: nat)
    requires n <= |periods| && AtMostOnePartial(periods)
    requires forall k :: 0 <= k < |periods| && periods[k].overdue && periods[k].Allocated() != 0.0 ==>
               periods[k].status.PartiallyPaid?
    ensures CountOf(Overdue(periods[..n]), IsUnderpaid) <= 1
    ensures CountOf(Overdue(periods[..n]), IsUnderpaid) > 0 ==>
              exists k :: 0 <= k < n && periods[k].status.PartiallyPaid?
  {
    if n > 0 {
      UnderpaidPrefix(periods, n - 1);
      OverdueStep(periods, n);
      if periods[n - 1].overdue {
        Appended(Overdue(periods[..n - 1]), OverdueException(periods[n - 1]), IsUnderpaid);
      }
    }
  }

  /** As the oldest installments are served first, at most one period is ever reported as underpaid. */
  lemma AtMostOneUnderpaid(eventCount: nat, net: real, installments: seq<Installment>, asOf: int)
    requires InCents(installments)
    ensures CountOf(Recomputed(eventCount, net, installments, asOf).exceptions, IsUnderpaid) <= 1
  {
    var periods, overpayment :=
      Periods(Take, net, installments, asOf), Positive(Left(Take, net, Demands(installments), 3 * |installments|));
    forall i, j | 0 <= i < j < |periods|
      ensures !(periods[i].status.PartiallyPaid? && periods[j].status.PartiallyPaid?)
    {
      OldestInstallmentFirst(net, installments, asOf, i, j);
    }
    forall k | 0 <= k < |periods| && periods[k].overdue && periods[k].Allocated() != 0.0
      ensures periods[k].status.PartiallyPaid?
    {
      UnderpaidIsPartial(net, installments, asOf, k);
    }
    UnderpaidPrefix(periods, |periods|);
    assert periods[..|periods|] == periods;
    WithUnmatched(periods, overpayment, IsUnderpaid);
  }
}
