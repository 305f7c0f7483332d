/** The debt-service schedule (debt_service_schedule in
    services/api/src/creditops/application/underwriting/calculators.py): a loop over a running balance
    that is rounded in every period, proved equal to a closed form. */
module DebtSchedule {
  import opened Money
  import opened Options

  datatype RepaymentStyle = EqualPrincipal | Balloon
  datatype Row = Row(period: nat, principal: real, interest: real, balance: real)

  /** What a loan's schedule depends on. */
  datatype Terms = Terms(principal: real, annualRatePercent: real, months: nat, style: RepaymentStyle) {
    /** The limits that the source puts on these fields. */
    predicate Accepted() { principal >= 0.0 && annualRatePercent >= 0.0 && months >= 1 }
  }

  /** A loan to be repaid in months - 1 equal instalments, and the rest in the last month. */
  datatype Plan = Plan(balance: real, instalment: real, rate: real, months: nat) {
    predicate InCents() {
      months >= 1 && Whole(balance) && Whole(instalment) && balance >= 0.0 && instalment >= 0.0 && rate >= 0.0
    }
  }

  function PlanOf(t: Terms): Plan
    requires t.Accepted()
  {
    var balance := Quantized(t.principal);
    Plan(balance, if t.style.Balloon? then 0.0 else Quantized(balance / t.months as real),
         t.annualRatePercent / 100.0 / 12.0, t.months)
  }

  function Times(k: nat, amount: real): real {
    if k == 0 then 0.0 else Times(k - 1, amount) + amount
  }

  /** The balance at the start of a period, counted from 0. */
  function Opening(p: Plan, k: nat): real { p.balance - Times(k, p.instalment) }

  function Interest(opening: real, rate: real): real { Quantized(opening * rate) }

  function RowAt(p: Plan, k: nat): Row
    requires k < p.months
  {
    var last := k == p.months - 1;
    Row(k + 1, if last then Opening(p, k) else p.instalment, Interest(Opening(p, k), p.rate),
        if last then 0.0 else Opening(p, k + 1))
  }

  /** The first n rows. */
  function Schedule(p: Plan, n: nat): (rows: seq<Row>)
    requires n <= p.months
    ensures |rows| == n
  {
    if n == 0 then [] else Schedule(p, n - 1) + [RowAt(p, n - 1)]
  }

  lemma {:induction false} RowOfSchedule(p: Plan, n: nat, k: nat)
    requires k < n <= p.months
    ensures Schedule(p, n)[k] == RowAt(p, k)
  {
    if k < n - 1 { RowOfSchedule(p, n - 1, k); }
  }

  datatype Outcome = Rejected | NotComputable | Computed(rows: seq<Row>, totalService: real)

  predicate IsNegative(value: Option<real>) { value.Some? && value.value < 0.0 }

  /** A term that is present must be a whole, positive number of months. */
  predicate BadTerm(months: Option<real>) {
    months.Some? && (months.value != months.value.Floor as real || months.value <= 0.0)
  }

  /** The terms that present and acceptable inputs make up. */
  function TermsOf(principal: real, annualRatePercent: real, months: real, style: RepaymentStyle): Terms
    requires months >= 0.0
  {
    Terms(principal, annualRatePercent, months.Floor, style)
  }

  method DebtServiceSchedule(principal: Option<real>, annualRatePercent: Option<real>, months: Option<real>,
                             style: RepaymentStyle)
    returns (outcome: Outcome)
    ensures outcome.Rejected? <==> IsNegative(principal) || IsNegative(annualRatePercent) || BadTerm(months)
    ensures outcome.NotComputable? ==> principal.None? || annualRatePercent.None? || months.None?
    ensures outcome.Computed? ==> principal.Some? && annualRatePercent.Some? && months.Some? && months.value > 0.0
    ensures outcome.Computed? ==>
              var t := TermsOf(principal.value, annualRatePercent.value, months.value, style);
              && t.Accepted() && t.months as real == months.value && outcome.rows == Schedule(PlanOf(t), t.months)
              && outcome.totalService == TotalPrincipal(outcome.rows) + TotalInterest(outcome.rows)
              && Follows(t, outcome.rows)
  {
    if IsNegative(principal) || IsNegative(annualRatePercent) || BadTerm(months) { return Rejected; }
    if principal.None? || annualRatePercent.None? || months.None? { return NotComputable; }
    WholeMonths(months.value);
    var rows := RowsOf(TermsOf(principal.value, annualRatePercent.value, months.value, style));
    ScheduleFollows(TermsOf(principal.value, annualRatePercent.value, months.value, style));
    var total := 0.0;
    for k := 0 to |rows|
      invariant total == TotalPrincipal(rows[..k]) + TotalInterest(rows[..k])
    {
      assert rows[..k + 1][..k] == rows[..k];
      total := total + (rows[k].principal + rows[k].interest);
    }
    assert rows[..|rows|] == rows;
    return Computed(rows, total);
  }

  lemma WholeMonths(months: real)
    requires months == months.Floor as real && months > 0.0
    ensures months.Floor >= 1
  {
  }

  method RowsOf(t: Terms) returns (rows: seq<Row>)
    requires t.Accepted()
    ensures rows == Schedule(PlanOf(t), t.months)
  {
    var monthlyRate := t.annualRatePercent / 100.0 / 12.0;
    var balance := Quantized(t.principal);
    var perInstalment := Quantized(balance / t.months as real);
    PlanIsInCents(t);
    rows := RunSchedule(t.style, t.months, monthlyRate, balance, perInstalment, PlanOf(t));
  }

  /** The loop over the periods. */
  method RunSchedule(style: RepaymentStyle, term: nat, monthlyRate: real, loan: real, perInstalment: real,
                     ghost p: Plan)
    returns (rows: seq<Row>)
    requires p.InCents() && p.months == term && p.rate == monthlyRate && p.balance == loan
    requires p.instalment == if style.Balloon? then 0.0 else perInstalment
    ensures rows == Schedule(p, term)
  {
    var balance := loan;
    rows := [];
    for period := 1 to term + 1
      invariant rows == Schedule(p, period - 1)
      invariant balance == if period <= term then Opening(p, period - 1) else 0.0
    {
      var opening := balance;
      var interest := Interest(opening, monthlyRate);
      RoundingChangesNothing(p, period);
      var principalPaid := if period == term then opening else if style.Balloon? then Quantized(0.0) else perInstalment;
      balance := Quantized(opening - principalPaid);
      rows := rows + [Row(period, principalPaid, interest, balance)];
    }
  }

  /** Every loan's plan is in whole cents. */
  lemma PlanIsInCents(t: Terms)
    requires t.Accepted()
    ensures PlanOf(t).InCents()
  {
    QuantizedIsNearest(t.principal);
    QuantizedIsNearest(Quantized(t.principal) / t.months as real);
    CentsAreWhole(0);
  }

  /** Times is multiplication. */
  lemma {:induction false} TimesIsProduct(k: nat, amount: real)
    ensures Times(k, amount) == k as real * amount
  {
    if k > 0 {
      TimesIsProduct(k - 1, amount);
      assert k as real * amount == (k - 1) as real * amount + amount;
    }
  }

  lemma {:induction false} TimesIsWhole(k: nat, amount: real)
    requires Whole(amount)
    ensures Whole(Times(k, amount))
  {
    if k > 0 {
      TimesIsWhole(k - 1, amount);
      WholeSum(Times(k - 1, amount), amount);
    }
  }

  lemma {:induction false} TimesGrows(i: nat, j: nat, amount: real)
    requires i <= j && amount >= 0.0
    ensures Times(i, amount) <= Times(j, amount)
  {
    if i < j { TimesGrows(i, j - 1, amount); }
  }

  lemma OpeningIsWhole(p: Plan, k: nat)
    requires p.InCents()
    ensures Whole(Opening(p, k))
  {
    TimesIsWhole(k, p.instalment);
    WholeSum(p.balance, Times(k, p.instalment));
  }

  /** The running balance is in whole cents, so that rounding it again has no effect. */
  lemma RoundingChangesNothing(p: Plan, period: nat)
    requires p.InCents()
    ensures Quantized(Opening(p, period)) == Opening(p, period) && Quantized(0.0) == 0.0
  {
    OpeningIsWhole(p, period);
    QuantizedIsNearest(Opening(p, period));
    CentsAreWhole(0);
    QuantizedIsNearest(0.0);
  }

  function TotalPrincipal(rows: seq<Row>): real {
    if rows == [] then 0.0 else TotalPrincipal(rows[..|rows| - 1]) + rows[|rows| - 1].principal
  }

  function TotalInterest(rows: seq<Row>): real {
    if rows == [] then 0.0 else TotalInterest(rows[..|rows| - 1]) + rows[|rows| - 1].interest
  }

  lemma {:induction false} RepaidSoFar(p: Plan, n: nat)
    requires n < p.months
    ensures TotalPrincipal(Schedule(p, n)) == Times(n, p.instalment)
  {
    if n > 0 {
      RepaidSoFar(p, n - 1);
      assert Schedule(p, n)[..n - 1] == Schedule(p, n - 1);
    }
  }

  predicate WholeRow(row: Row) { Whole(row.principal) && Whole(row.interest) && Whole(row.balance) }

  predicate NonNegative(row: Row) { row.principal >= 0.0 && row.interest >= 0.0 && row.balance >= 0.0 }

  lemma InterestSound(opening: real, rate: real)
    ensures Whole(Interest(opening, rate))
    ensures opening >= 0.0 && rate >= 0.0 ==> Interest(opening, rate) >= 0.0
  {
    QuantizedIsNearest(opening * rate);
  }

  lemma RowIsWhole(p: Plan, k: nat)
    requires p.InCents() && k < p.months
    ensures WholeRow(RowAt(p, k))
  {
    OpeningIsWhole(p, k);
    OpeningIsWhole(p, k + 1);
    CentsAreWhole(0);
    InterestSound(Opening(p, k), p.rate);
  }

  /** Whatever the rounding of the instalments: the principal parts add up to the loan exactly, the
      final balance is zero, and every amount is a whole number of cents. */
  lemma PrincipalIsRepaid(p: Plan)
    requires p.InCents()
    ensures var rows := Schedule(p, p.months);
            && TotalPrincipal(rows) == p.balance && rows[p.months - 1].balance == 0.0
            && forall row <- rows :: WholeRow(row)
  {
    var rows, n := Schedule(p, p.months), p.months - 1;
    RepaidSoFar(p, n);
    assert rows[..n] == Schedule(p, n);
    RowOfSchedule(p, p.months, n);
    forall k | 0 <= k < p.months ensures WholeRow(rows[k]) {
      RowOfSchedule(p, p.months, k);
      RowIsWhole(p, k);
    }
  }

  lemma RowNotNegative(p: Plan, k: nat)
    requires p.InCents() && k < p.months && Opening(p, p.months - 1) >= 0.0
    ensures NonNegative(RowAt(p, k))
  {
    TimesGrows(k, p.months - 1, p.instalment);
    if k < p.months - 1 { TimesGrows(k + 1, p.months - 1, p.instalment); }
    InterestSound(Opening(p, k), p.rate);
  }

  /** No row is negative exactly if the rounded instalments before the last do not exceed the loan. */
  lemma NonNegativeIff(p: Plan)
    requires p.InCents()
    ensures (forall row <- Schedule(p, p.months) :: NonNegative(row))
            <==> Times(p.months - 1, p.instalment) <= p.balance
  {
    var rows, n := Schedule(p, p.months), p.months - 1;
    RowOfSchedule(p, p.months, n);
    if Opening(p, n) >= 0.0 {
      forall k | 0 <= k < p.months ensures NonNegative(rows[k]) {
        RowOfSchedule(p, p.months, k);
        RowNotNegative(p, k);
      }
    } else {
      assert rows[n] in rows && !NonNegative(rows[n]);
    }
  }

  // ---------- what a loan bears ----------

  /** A month's interest on what is not repaid yet, at an annual rate in percent. */
  predicate MonthlyInterest(interest: real, opening: real, percent: real) {
    IsRounded(interest, opening * percent / 1200.0)
  }

  /** An instalment before the last: an equal share of the loan, or nothing of a balloon loan. */
  predicate Share(principal: real, loan: real, months: nat, style: RepaymentStyle)
    requires months > 0
  {
    if style.Balloon? then principal == 0.0 else IsRounded(principal, loan / months as real)
  }

  /** What is not repaid after the first k rows. */
  function Unpaid(rows: seq<Row>, k: nat): real
    requires k <= |rows|
  {
    TotalPrincipal(rows) - TotalPrincipal(rows[..k])
  }

  /** Row k of a schedule, in terms of the loan and the rows before. */
  predicate RowFollows(t: Terms, rows: seq<Row>, k: nat)
    requires k < |rows| == t.months
  {
    var row, opening := rows[k], Unpaid(rows, k);
    && row.period == k + 1 && MonthlyInterest(row.interest, opening, t.annualRatePercent)
    && row.balance == opening - row.principal
    && if k == t.months - 1 then row.principal == opening
       else Share(row.principal, TotalPrincipal(rows), t.months, t.style)
  }

  /** The schedule that the terms ask for. */
  predicate Follows(t: Terms, rows: seq<Row>) {
    && |rows| == t.months && IsRounded(TotalPrincipal(rows), t.principal)
    && forall k :: 0 <= k < t.months ==> RowFollows(t, rows, k)
  }

  lemma {:induction false} SchedulePrefix(p: Plan, n: nat, k: nat)
    requires k <= n <= p.months
    ensures Schedule(p, n)[..k] == Schedule(p, k)
  {
    if k < n {
      SchedulePrefix(p, n - 1, k);
      assert Schedule(p, n)[..k] == Schedule(p, n - 1)[..k];
    }
  }

  lemma InterestIsMonthly(opening: real, percent: real)
    ensures MonthlyInterest(Interest(opening, percent / 100.0 / 12.0), opening, percent)
  {
    assert percent / 100.0 / 12.0 == percent / 1200.0;
    assert opening * (percent / 1200.0) == opening * percent / 1200.0;
    QuantizedIsRounded(opening * (percent / 100.0 / 12.0));
  }

  lemma InstalmentIsShare(t: Terms)
    requires t.Accepted()
    ensures Share(PlanOf(t).instalment, PlanOf(t).balance, t.months, t.style)
  {
    QuantizedIsRounded(Quantized(t.principal) / t.months as real);
  }

  /** What is unpaid is the opening balance of the plan. */
  lemma UnpaidIsOpening(p: Plan, k: nat)
    requires p.InCents() && k < p.months
    ensures Unpaid(Schedule(p, p.months), k) == Opening(p, k) && Schedule(p, p.months)[k] == RowAt(p, k)
  {
    PrincipalIsRepaid(p);
    RowOfSchedule(p, p.months, k);
    SchedulePrefix(p, p.months, k);
    RepaidSoFar(p, k);
  }

  lemma RowFits(t: Terms, rows: seq<Row>, k: nat, opening: real, instalment: real, interest: real)
    requires k < |rows| == t.months && Unpaid(rows, k) == opening
    requires rows[k].period == k + 1 && rows[k].interest == interest
    requires rows[k].principal == if k == t.months - 1 then opening else instalment
    requires rows[k].balance == if k == t.months - 1 then 0.0 else opening - instalment
    requires MonthlyInterest(interest, opening, t.annualRatePercent)
    requires Share(instalment, TotalPrincipal(rows), t.months, t.style)
    ensures RowFollows(t, rows, k)
  {
  }

  lemma RowOfTermsFollows(t: Terms, p: Plan, k: nat)
    requires t.Accepted() && k < t.months && p == PlanOf(t) && p.InCents()
    requires TotalPrincipal(Schedule(p, p.months)) == p.balance
    ensures RowFollows(t, Schedule(p, p.months), k)
  {
    UnpaidIsOpening(p, k);
    InterestIsMonthly(Opening(p, k), t.annualRatePercent);
    InstalmentIsShare(t);
    RowFits(t, Schedule(p, p.months), k, Opening(p, k), p.instalment, Interest(Opening(p, k), p.rate));
  }

  /** Every accepted loan is scheduled as its terms ask for. */
  lemma ScheduleFollows(t: Terms)
    requires t.Accepted()
    ensures Follows(t, Schedule(PlanOf(t), t.months))
  {
    PlanIsInCents(t);
    PrincipalIsRepaid(PlanOf(t));
    QuantizedIsRounded(t.principal);
    forall k | 0 <= k < t.months ensures RowFollows(t, Schedule(PlanOf(t), t.months), k) {
      RowOfTermsFollows(t, PlanOf(t), k);
    }
  }

  /** Five cents over ten months: each instalment is rounded up to a cent, and the last row gives four
      cents back. */
  lemma RoundingCanOvershoot()
    ensures var t := Terms(0.05, 12.0, 10, EqualPrincipal);
            t.Accepted() && Schedule(PlanOf(t), 10)[9].principal == -0.04
  {
    var t := Terms(0.05, 12.0, 10, EqualPrincipal);
    assert PlanOf(t) == Plan(0.05, 0.01, 0.01, 10);
    RowOfSchedule(PlanOf(t), 10, 9);
    TimesIsProduct(9, 0.01);
  }
}
