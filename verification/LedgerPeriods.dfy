/** What each period of a ledger shows, in terms of the schedule, the net cash and the date alone
    (apply_events in services/api/src/creditops/domain/repayments.py). */
module LedgerPeriods {
  import opened Options
  import opened Money
  import opened Waterfall
  import opened RepaymentLedger
  import opened LedgerExceptions

  /** How much of an amount owed is covered. */
  type Cover = real -> real

  /** By the net cash: all of it, rounded to whole cents, up to what is owed. */
  function CoverOf(net: real): Cover { (owed: real) => Covered(net, owed) }

  /** What is covered of demand j, after all earlier ones. */
  function Part(cover: Cover, demands: seq<real>, j: nat): real
    requires j < |demands|
  {
    cover(Owed(demands, j + 1)) - cover(Owed(demands, j))
  }

  /** What is covered of an installment, after all earlier ones. */
  function CoveredPart(cover: Cover, installments: seq<Installment>, k: nat): real
    requires k < |installments|
  {
    cover(Owed(Demands(installments), 3 * k + 3)) - cover(Owed(Demands(installments), 3 * k))
  }

  /** It is due, and not covered. */
  predicate Late(cover: Cover, installments: seq<Installment>, k: nat, asOf: int)
    requires k < |installments|
  {
    var i := installments[k];
    i.dueDate <= asOf && CoveredPart(cover, installments, k) < i.fee + i.interest + i.principal
  }

  /** What each demand absorbs is the part of it that is covered. */
  ghost predicate Covers(take: Rule, cover: Cover, net: real, demands: seq<real>) {
    forall j :: 0 <= j < |demands| ==> Absorbed(take, net, demands, j) == Part(cover, demands, j)
  }

  lemma CashCovers(net: real, installments: seq<Installment>)
    requires InCents(installments)
    ensures Covers(Take, CoverOf(net), net, Demands(installments))
  {
    var demands := Demands(installments);
    DemandsInCents(installments);
    forall j | 0 <= j < |demands|
      ensures Absorbed(Take, net, demands, j) == Part(CoverOf(net), demands, j)
    {
      LeftIs(net, demands, j);
      LeftIs(net, demands, j + 1);
    }
  }

  /** What was allocated to an installment: its fee first, then its interest, then its principal, each as
      far as it is covered. */
  lemma Allocation(take: Rule, cover: Cover, net: real, installments: seq<Installment>, k: nat, asOf: int)
    requires Covers(take, cover, net, Demands(installments)) && k < |installments|
    ensures var p, demands := PeriodAt(take, net, installments, k, asOf), Demands(installments);
            && p.installment == installments[k]
            && demands[3 * k..3 * k + 3] == [p.installment.fee, p.installment.interest, p.installment.principal]
            && p.fee == Part(cover, demands, 3 * k) && p.interest == Part(cover, demands, 3 * k + 1)
            && p.principal == Part(cover, demands, 3 * k + 2)
            && p.Allocated() == CoveredPart(cover, installments, k)
  {
    DemandsOf(installments, k);
  }

  /** For every schedule in whole cents, net cash and date: when a period is overdue, and when it is paid,
      partially paid or unpaid. */
  lemma PeriodIs(eventCount: nat, net: real, installments: seq<Installment>, k: nat, asOf: int)
    requires InCents(installments) && k < |installments|
    ensures var s, i := Recomputed(eventCount, net, installments, asOf), installments[k];
            var covered, total := CoveredPart(CoverOf(net), installments, k), i.fee + i.interest + i.principal;
            && |s.periods| == |installments| && s.periods[k].installment == i
            && (s.periods[k].overdue <==> i.dueDate <= asOf && covered < total)
            && (s.periods[k].status == Paid <==> covered >= total)
            && (s.periods[k].status == PartiallyPaid <==> 0.0 < covered < total)
            && (s.periods[k].status == Unpaid <==> covered <= 0.0 && covered < total)
  {
    CashCovers(net, installments);
    Allocation(Take, CoverOf(net), net, installments, k, asOf);
  }

  // ---------- the exceptions ----------

  /** The installments are told apart by their numbers. */
  ghost predicate DistinctNumbers(installments: seq<Installment>) {
    forall i, j :: 0 <= i < j < |installments| ==> installments[i].period != installments[j].period
  }

  lemma Reported(take: Rule, cover: Cover, net: real, installments: seq<Installment>, k: nat, asOf: int,
                 overpayment: real)
    requires Covers(take, cover, net, Demands(installments)) && DistinctNumbers(installments) && k < |installments|
    ensures var found, i := Exceptions(Periods(take, net, installments, asOf), overpayment), installments[k];
            && CountOf(found, About(i.period)) == (if Late(cover, installments, k, asOf) then 1 else 0)
            && forall e <- found :: e.period == Some(i.period) ==>
                 && e.amount == i.fee + i.interest + i.principal - CoveredPart(cover, installments, k)
                 && e.kind == if CoveredPart(cover, installments, k) == 0.0 then OverdueInstallment else UnderpaidPeriod
  {
    Allocation(take, cover, net, installments, k, asOf);
    OneExceptionPerOverduePeriod(Periods(take, net, installments, asOf), overpayment, k);
  }

  /** What is reported about an installment: one exception exactly if it is due and not covered, over what is
      not covered, as overdue if nothing is and else as underpaid. */
  lemma ReportedIffLate(eventCount: nat, net: real, installments: seq<Installment>, k: nat, asOf: int)
    requires InCents(installments) && DistinctNumbers(installments) && k < |installments|
    ensures var s, i, cover := Recomputed(eventCount, net, installments, asOf), installments[k], CoverOf(net);
            && CountOf(s.exceptions, About(i.period)) == (if Late(cover, installments, k, asOf) then 1 else 0)
            && forall e <- s.exceptions :: e.period == Some(i.period) ==>
                 && e.amount == i.fee + i.interest + i.principal - CoveredPart(cover, installments, k)
                 && e.kind == if CoveredPart(cover, installments, k) == 0.0 then OverdueInstallment else UnderpaidPeriod
  {
    CashCovers(net, installments);
    Reported(Take, CoverOf(net), net, installments, k, asOf,
             Positive(Left(Take, net, Demands(installments), 3 * |installments|)));
  }

  lemma {:induction false} AboutOverdue(periods: seq<Period>, e: CollectionsException) returns (k: nat)
    requires e in Overdue(periods)
    ensures k < |periods| && periods[k].overdue && e.period == Some(periods[k].installment.period)
    decreases |periods|
  {
    var n := |periods| - 1;
    if e in Overdue(periods[..n]) { k := AboutOverdue(periods[..n], e); } else { k := n; }
  }

  /** No exception is about an installment that is due after the date, and one that is not about an
      installment reports unmatched cash. */
  lemma NothingBeforeItIsDue(eventCount: nat, net: real, installments: seq<Installment>, asOf: int,
                             e: CollectionsException)
    requires InCents(installments) && e in Recomputed(eventCount, net, installments, asOf).exceptions
    ensures e.period.Some? ==>
              exists k :: 0 <= k < |installments| && e.period == Some(installments[k].period)
                          && Late(CoverOf(net), installments, k, asOf)
    ensures e.period.None? ==> e.kind == UnmatchedPayment && e.amount > 0.0
  {
    var periods := Periods(Take, net, installments, asOf);
    if e in Overdue(periods) {
      var k := AboutOverdue(periods, e);
      PeriodIs(eventCount, net, installments, k, asOf);
      assert Late(CoverOf(net), installments, k, asOf);
    }
  }

  // ---------- the sums ----------

  function SumTo(amount: nat -> real, n: nat): real {
    if n == 0 then 0.0 else SumTo(amount, n - 1) + amount(n - 1)
  }

  lemma {:induction false} ColumnIs(periods: seq<Period>, column: Period -> real, amount: nat -> real, n: nat)
    requires n <= |periods| && forall k :: 0 <= k < |periods| ==> column(periods[k]) == amount(k)
    ensures TotalOf(periods, column, n) == SumTo(amount, n)
  {
    if n > 0 { ColumnIs(periods, column, amount, n - 1); }
  }

  function FeeOf(installments: seq<Installment>): nat -> real {
    (k: nat) => if k < |installments| then installments[k].fee else 0.0
  }

  function InterestOf(installments: seq<Installment>): nat -> real {
    (k: nat) => if k < |installments| then installments[k].interest else 0.0
  }

  function PrincipalOf(installments: seq<Installment>): nat -> real {
    (k: nat) => if k < |installments| then installments[k].principal else 0.0
  }

  /** What is covered of the fees, the interest or the principal of each installment. */
  function CoveredOf(cover: Cover, demands: seq<real>, bucket: nat): nat -> real {
    (k: nat) => if 3 * k + bucket < |demands| then Part(cover, demands, 3 * k + bucket) else 0.0
  }

  lemma CoveredColumns(take: Rule, cover: Cover, net: real, installments: seq<Installment>, asOf: int)
    requires Covers(take, cover, net, Demands(installments))
    ensures var periods, n := Periods(take, net, installments, asOf), |installments|;
            && TotalOf(periods, AllocatedFee, n) == SumTo(CoveredOf(cover, Demands(installments), 0), n)
            && TotalOf(periods, AllocatedInterest, n) == SumTo(CoveredOf(cover, Demands(installments), 1), n)
            && TotalOf(periods, AllocatedPrincipal, n) == SumTo(CoveredOf(cover, Demands(installments), 2), n)
  {
    var periods, n := Periods(take, net, installments, asOf), |installments|;
    forall k | 0 <= k < n
      ensures AllocatedFee(periods[k]) == CoveredOf(cover, Demands(installments), 0)(k)
      ensures AllocatedInterest(periods[k]) == CoveredOf(cover, Demands(installments), 1)(k)
      ensures AllocatedPrincipal(periods[k]) == CoveredOf(cover, Demands(installments), 2)(k)
    {
      Allocation(take, cover, net, installments, k, asOf);
    }
    ColumnIs(periods, AllocatedFee, CoveredOf(cover, Demands(installments), 0), n);
    ColumnIs(periods, AllocatedInterest, CoveredOf(cover, Demands(installments), 1), n);
    ColumnIs(periods, AllocatedPrincipal, CoveredOf(cover, Demands(installments), 2), n);
  }

  lemma ExpectedColumns(take: Rule, net: real, installments: seq<Installment>, asOf: int)
    ensures var periods, n := Periods(take, net, installments, asOf), |installments|;
            && TotalOf(periods, ExpectedFee, n) == SumTo(FeeOf(installments), n)
            && TotalOf(periods, ExpectedInterest, n) == SumTo(InterestOf(installments), n)
            && TotalOf(periods, ExpectedPrincipal, n) == SumTo(PrincipalOf(installments), n)
  {
    var periods, n := Periods(take, net, installments, asOf), |installments|;
    ColumnIs(periods, ExpectedFee, FeeOf(installments), n);
    ColumnIs(periods, ExpectedInterest, InterestOf(installments), n);
    ColumnIs(periods, ExpectedPrincipal, PrincipalOf(installments), n);
  }

  /** The snapshot's sums: what the schedule expects of each kind, and what the cash does not cover of it. */
  lemma BucketsAre(eventCount: nat, net: real, installments: seq<Installment>, asOf: int)
    requires InCents(installments)
    ensures var s, n := Recomputed(eventCount, net, installments, asOf), |installments|;
            var cover, demands := CoverOf(net), Demands(installments);
            && s.eventCount == eventCount && s.netPaid == net
            && s.expectedFees == SumTo(FeeOf(installments), n)
            && s.expectedInterest == SumTo(InterestOf(installments), n)
            && s.expectedPrincipal == SumTo(PrincipalOf(installments), n)
            && s.outstandingFees == s.expectedFees - SumTo(CoveredOf(cover, demands, 0), n)
            && s.outstandingInterest == s.expectedInterest - SumTo(CoveredOf(cover, demands, 1), n)
            && s.outstandingPrincipal == s.expectedPrincipal - SumTo(CoveredOf(cover, demands, 2), n)
  {
    CashCovers(net, installments);
    CoveredColumns(Take, CoverOf(net), net, installments, asOf);
    ExpectedColumns(Take, net, installments, asOf);
  }
}
