/** The history of payments and reversals of a facility (order_events in
    services/api/src/creditops/domain/repayments.py): its validation, and what a valid history means. */
module EventHistory {
  import opened Options

  datatype Kind = Payment | Reversal(target: nat)
  datatype Event = Event(id: nat, facility: nat, kind: Kind, amount: real)

  datatype LedgerError = ForeignEvent | UnknownPayment | ReversedTooMuch

  function SumOf(events: seq<Event>, f: Event -> real): real {
    if events == [] then 0.0 else SumOf(events[..|events| - 1], f) + f(events[|events| - 1])
  }

  function Signed(e: Event): real { if e.kind.Payment? then e.amount else -e.amount }

  function NetPaid(events: seq<Event>): real { SumOf(events, Signed) }

  function ReversedOf(id: nat): Event -> real {
    (e: Event) => if e.kind == Reversal(id) then e.amount else 0.0
  }

  /** The total reversed of one payment. */
  function Reversed(events: seq<Event>, id: nat): real { SumOf(events, ReversedOf(id)) }

  /** The amount of a payment; None if there is no payment of this id. */
  function AmountPaid(events: seq<Event>, id: nat): Option<real> {
    if events == [] then None
    else
      var e := events[|events| - 1];
      if e.kind.Payment? && e.id == id then Some(e.amount) else AmountPaid(events[..|events| - 1], id)
  }

  /** Every amount is positive: the events' own constraint. */
  ghost predicate Recorded(events: seq<Event>) { forall e <- events :: e.amount > 0.0 }

  ghost predicate AllOwn(facility: nat, events: seq<Event>) { forall e <- events :: e.facility == facility }

  ghost predicate TargetsKnown(events: seq<Event>) {
    forall e <- events :: e.kind.Reversal? ==> AmountPaid(events, e.kind.target).Some?
  }

  ghost predicate ReversalsCovered(events: seq<Event>) {
    forall id: nat :: AmountPaid(events, id).Some? ==> Reversed(events, id) <= AmountPaid(events, id).value
  }

  ghost function Verdict(facility: nat, events: seq<Event>): Option<LedgerError> {
    if !AllOwn(facility, events) then Some(ForeignEvent)
    else if !TargetsKnown(events) then Some(UnknownPayment)
    else if !ReversalsCovered(events) then Some(ReversedTooMuch)
    else None
  }

  // ---------- the validation ----------

  method CheckEvents(facility: nat, events: seq<Event>) returns (error: Option<LedgerError>)
    requires Recorded(events)
    ensures error == Verdict(facility, events)
  {
    var own, paymentAmounts := PaymentAmounts(facility, events);
    if !own { return Some(ForeignEvent); }
    var known, reversedTotals := ReversedTotals(events, paymentAmounts);
    if !known { return Some(UnknownPayment); }
    var unchecked := reversedTotals.Keys;
    while unchecked != {}
      invariant unchecked <= reversedTotals.Keys
      invariant forall id <- reversedTotals :: id !in unchecked ==> reversedTotals[id] <= paymentAmounts[id]
      decreases |unchecked|
    {
      var id :| id in unchecked;
      if reversedTotals[id] > paymentAmounts[id] {
        assert !ReversalsCovered(events) by { assert AmountPaid(events, id).Some?; }
        return Some(ReversedTooMuch);
      }
      unchecked := unchecked - {id};
    }
    forall id: nat | AmountPaid(events, id).Some? ensures Reversed(events, id) <= AmountPaid(events, id).value {
      AmountPositive(events, id);
    }
    return None;
  }

  method PaymentAmounts(facility: nat, events: seq<Event>) returns (own: bool, amounts: map<nat, real>)
    ensures own <==> AllOwn(facility, events)
    ensures own ==> forall id: nat :: AmountPaid(events, id) == if id in amounts then Some(amounts[id]) else None
  {
    amounts := map[];
    for k := 0 to |events|
      invariant AllOwn(facility, events[..k])
      invariant forall id: nat :: AmountPaid(events[..k], id) == if id in amounts then Some(amounts[id]) else None
    {
      assert events[..k + 1][..k] == events[..k] && events[..k + 1] == events[..k] + [events[k]];
      if events[k].facility != facility { return false, amounts; }
      if events[k].kind.Payment? { amounts := amounts[events[k].id := events[k].amount]; }
    }
    assert events[..|events|] == events;
    own := true;
  }

  method ReversedTotals(events: seq<Event>, paid: map<nat, real>) returns (known: bool, totals: map<nat, real>)
    requires forall id: nat :: AmountPaid(events, id) == if id in paid then Some(paid[id]) else None
    ensures known <==> TargetsKnown(events)
    ensures known ==> forall id: nat :: Reversed(events, id) == if id in totals then totals[id] else 0.0
    ensures known ==> totals.Keys <= paid.Keys
  {
    totals := map[];
    for k := 0 to |events|
      invariant forall e <- events[..k] :: e.kind.Reversal? ==> e.kind.target in paid
      invariant forall id: nat :: Reversed(events[..k], id) == if id in totals then totals[id] else 0.0
      invariant totals.Keys <= paid.Keys
    {
      assert events[..k + 1][..k] == events[..k] && events[..k + 1] == events[..k] + [events[k]];
      if events[k].kind.Reversal? {
        var target := events[k].kind.target;
        if target !in paid { return false, totals; }
        totals := totals[target := (if target in totals then totals[target] else 0.0) + events[k].amount];
      }
    }
    assert events[..|events|] == events;
    known := true;
  }

  lemma {:induction false} AmountPositive(events: seq<Event>, id: nat)
    requires Recorded(events) && AmountPaid(events, id).Some?
    ensures AmountPaid(events, id).value > 0.0
    decreases |events|
  {
    var e := events[|events| - 1];
    if !(e.kind.Payment? && e.id == id) { AmountPositive(events[..|events| - 1], id); }
  }

  // ---------- what a valid history means ----------

  function PaidOf(id: nat): Event -> real {
    (e: Event) => if e.kind.Payment? && e.id == id then e.amount else 0.0
  }

  function Key(e: Event): nat { if e.kind.Payment? then e.id else e.kind.target }

  /** The history without a payment and its reversals. */
  function Without(events: seq<Event>, key: nat): seq<Event> {
    if events == [] then []
    else
      var init, last := Without(events[..|events| - 1], key), events[|events| - 1];
      if Key(last) == key then init else init + [last]
  }

  lemma {:induction false} PaymentCovers(events: seq<Event>, id: nat)
    requires Recorded(events)
    ensures SumOf(events, PaidOf(id)) >= 0.0
    ensures AmountPaid(events, id).Some? ==> AmountPaid(events, id).value <= SumOf(events, PaidOf(id))
    decreases |events|
  {
    if events != [] { PaymentCovers(events[..|events| - 1], id); }
  }

  lemma {:induction false} NothingReversed(events: seq<Event>, id: nat)
    requires forall e <- events :: e.kind != Reversal(id)
    ensures Reversed(events, id) == 0.0
    decreases |events|
  {
    if events != [] { NothingReversed(events[..|events| - 1], id); }
  }

  lemma {:induction false} SetAside(events: seq<Event>, key: nat, id: nat)
    ensures NetPaid(events) == NetPaid(Without(events, key)) + SumOf(events, PaidOf(key)) - Reversed(events, key)
    ensures SumOf(Without(events, key), PaidOf(id)) == if id == key then 0.0 else SumOf(events, PaidOf(id))
    ensures Reversed(Without(events, key), id) == if id == key then 0.0 else Reversed(events, id)
    ensures |Without(events, key)| <= |events|
    decreases |events|
  {
    if events != [] {
      var init, last := events[..|events| - 1], events[|events| - 1];
      SetAside(init, key, id);
      var rest := Without(init, key);
      assert (rest + [last])[..|rest|] == rest;
    }
  }

  lemma {:induction false} CoveredNet(events: seq<Event>)
    requires forall id: nat :: Reversed(events, id) <= SumOf(events, PaidOf(id))
    ensures NetPaid(events) >= 0.0
    decreases |events|
  {
    if events != [] {
      var key := Key(events[|events| - 1]);
      var rest := Without(events, key);
      forall id: nat ensures Reversed(rest, id) <= SumOf(rest, PaidOf(id)) { SetAside(events, key, id); }
      SetAside(events, key, key);
      SetAside(events[..|events| - 1], key, key);
      CoveredNet(rest);
    }
  }

  /** The net cash of a history that passes the checks is never negative. */
  lemma ValidHistoryIsNotNegative(facility: nat, events: seq<Event>)
    requires Recorded(events) && Verdict(facility, events) == None
    ensures NetPaid(events) >= 0.0
  {
    forall id: nat ensures Reversed(events, id) <= SumOf(events, PaidOf(id)) {
      PaymentCovers(events, id);
      if AmountPaid(events, id).None? { NothingReversed(events, id); }
    }
    CoveredNet(events);
  }

  // ---------- what is paid and reversed ----------

  /** The amounts of the events of one kind. */
  function Only(payments: bool): Event -> real {
    (e: Event) => if e.kind.Payment? == payments then e.amount else 0.0
  }

  /** The net cash is what was paid less what was reversed. */
  lemma {:induction false} NetIsPaidLessReversed(events: seq<Event>)
    ensures NetPaid(events) == SumOf(events, Only(true)) - SumOf(events, Only(false))
    decreases |events|
  {
    if events != [] { NetIsPaidLessReversed(events[..|events| - 1]); }
  }

  lemma Appended(events: seq<Event>, e: Event, id: nat)
    ensures NetPaid(events + [e]) == NetPaid(events) + Signed(e)
    ensures Reversed(events + [e], id) == Reversed(events, id) + ReversedOf(id)(e)
    ensures AmountPaid(events + [e], id)
            == if e.kind.Payment? && e.id == id then Some(e.amount) else AmountPaid(events, id)
  {
    assert (events + [e])[..|events|] == events;
  }

  lemma Continues(facility: nat, events: seq<Event>, e: Event)
    requires Verdict(facility, events) == None && e.facility == facility
    requires if e.kind.Payment? then AmountPaid(events, e.id).None? && Reversed(events, e.id) <= e.amount
             else AmountPaid(events, e.kind.target).Some?
                  && Reversed(events, e.kind.target) + e.amount <= AmountPaid(events, e.kind.target).value
    ensures Verdict(facility, events + [e]) == None
  {
    forall f | f in events + [e] && f.kind.Reversal? ensures AmountPaid(events + [e], f.kind.target).Some? {
      Appended(events, e, f.kind.target);
    }
    forall id: nat | AmountPaid(events + [e], id).Some?
      ensures Reversed(events + [e], id) <= AmountPaid(events + [e], id).value
    {
      Appended(events, e, id);
    }
  }

  /** A new payment and its full reversal are accepted after any valid history, and leave the net cash as it
      was; nothing more can be reversed of it. */
  lemma FullReversalUndoes(facility: nat, events: seq<Event>, pay: Event, undo: Event, more: Event)
    requires Verdict(facility, events) == None && AmountPaid(events, pay.id).None?
    requires pay.kind == Payment && pay.facility == facility && pay.amount > 0.0
    requires undo.kind == Reversal(pay.id) && undo.facility == facility && undo.amount == pay.amount
    requires more.kind == Reversal(pay.id) && more.facility == facility && more.amount > 0.0
    ensures Verdict(facility, events + [pay]) == None && NetPaid(events + [pay]) == NetPaid(events) + pay.amount
    ensures Verdict(facility, events + [pay] + [undo]) == None && NetPaid(events + [pay] + [undo]) == NetPaid(events)
    ensures Verdict(facility, events + [pay] + [undo] + [more]) == Some(ReversedTooMuch)
  {
    forall e | e in events ensures e.kind != Reversal(pay.id) {
      assert e.kind.Reversal? ==> AmountPaid(events, e.kind.target).Some?;
    }
    NothingReversed(events, pay.id);
    Continues(facility, events, pay);
    Appended(events, pay, pay.id);
    Continues(facility, events + [pay], undo);
    Appended(events + [pay], undo, pay.id);
    OverReversed(facility, events + [pay] + [undo], more);
  }

  lemma OverReversed(facility: nat, events: seq<Event>, more: Event)
    requires Verdict(facility, events) == None && more.facility == facility && more.kind.Reversal?
    requires AmountPaid(events, more.kind.target).Some?
    requires Reversed(events, more.kind.target) + more.amount > AmountPaid(events, more.kind.target).value
    ensures Verdict(facility, events + [more]) == Some(ReversedTooMuch)
  {
    forall f | f in events + [more] && f.kind.Reversal? ensures AmountPaid(events + [more], f.kind.target).Some? {
      Appended(events, more, f.kind.target);
    }
    Appended(events, more, more.kind.target);
  }

  /** An event of another facility, or a reversal of no payment, makes any history invalid, wherever it stands. */
  lemma ForeignOrUnknown(facility: nat, events: seq<Event>, k: nat)
    requires k < |events|
    ensures events[k].facility != facility ==> Verdict(facility, events) == Some(ForeignEvent)
    ensures Verdict(facility, events) == None && events[k].kind.Reversal? ==>
              exists j :: 0 <= j < |events| && events[j].kind == Payment && events[j].id == events[k].kind.target
  {
    assert events[k] in events;
    if Verdict(facility, events) == None && events[k].kind.Reversal? {
      var j := PaymentOf(events, events[k].kind.target);
    }
  }

  lemma {:induction false} PaymentOf(events: seq<Event>, id: nat) returns (j: nat)
    requires AmountPaid(events, id).Some?
    ensures j < |events| && events[j].kind == Payment && events[j].id == id
    decreases |events|
  {
    j := |events| - 1;
    if !(events[j].kind.Payment? && events[j].id == id) { j := PaymentOf(events[..j], id); }
  }

  // ---------- the order of deliveries does not matter ----------

  ghost predicate SameIdSameEvent(events: seq<Event>) {
    forall e, f :: e in events && f in events && e.id == f.id ==> e == f
  }

  lemma {:induction false} TakenOut(events: seq<Event>, i: nat, f: Event -> real)
    requires i < |events|
    ensures SumOf(events, f) == SumOf(events[..i] + events[i + 1..], f) + f(events[i])
    decreases |events|
  {
    var n := |events| - 1;
    if i == n {
      assert events[..i] + events[i + 1..] == events[..n];
    } else {
      TakenOut(events[..n], i, f);
      assert (events[..i] + events[i + 1..])[..n - 1] == events[..n][..i] + events[..n][i + 1..];
    }
  }

  lemma TakenFromBoth(init: seq<Event>, before: seq<Event>, x: Event, after: seq<Event>)
    requires multiset(init + [x]) == multiset(before + [x] + after)
    ensures multiset(init) == multiset(before + after)
  {
    assert multiset(init + [x]) == multiset(init) + multiset{x};
    assert multiset(before + [x] + after) == multiset(before + after) + multiset{x};
    assert multiset(init) == multiset(init + [x]) - multiset{x};
  }

  lemma {:induction false} SumIgnoresOrder(a: seq<Event>, b: seq<Event>, f: Event -> real)
    requires multiset(a) == multiset(b)
    ensures SumOf(a, f) == SumOf(b, f)
    decreases |a|
  {
    assert |multiset(a)| == |multiset(b)|;
    if a != [] {
      var init, x := a[..|a| - 1], a[|a| - 1];
      assert x in multiset(b);
      var i :| 0 <= i < |b| && b[i] == x;
      assert a == init + [x] && b == b[..i] + [x] + b[i + 1..];
      TakenFromBoth(init, b[..i], x, b[i + 1..]);
      TakenOut(b, i, f);
      SumIgnoresOrder(init, b[..i] + b[i + 1..], f);
    }
  }

  lemma {:induction false} AmountPaidIs(events: seq<Event>, id: nat)
    requires SameIdSameEvent(events)
    ensures AmountPaid(events, id).Some? <==> exists e <- events :: e.kind.Payment? && e.id == id
    ensures forall e <- events :: e.kind.Payment? && e.id == id ==> AmountPaid(events, id) == Some(e.amount)
    decreases |events|
  {
    if events != [] {
      var e := events[|events| - 1];
      AmountPaidIs(events[..|events| - 1], id);
      assert e in events;
    }
  }

  /** Backdated and out-of-order deliveries make no difference to the verdict or the net cash. */
  lemma HistoryIgnoresOrder(facility: nat, a: seq<Event>, b: seq<Event>)
    requires multiset(a) == multiset(b) && SameIdSameEvent(a)
    ensures NetPaid(a) == NetPaid(b) && |a| == |b|
    ensures Verdict(facility, a) == Verdict(facility, b)
  {
    assert |multiset(a)| == |multiset(b)|;
    SumIgnoresOrder(a, b, Signed);
    SameMembers(a, b);
    forall id: nat ensures AmountPaid(a, id) == AmountPaid(b, id) && Reversed(a, id) == Reversed(b, id) {
      AmountPaidIs(a, id);
      AmountPaidIs(b, id);
      SumIgnoresOrder(a, b, ReversedOf(id));
    }
  }

  lemma SameMembers(a: seq<Event>, b: seq<Event>)
    requires multiset(a) == multiset(b)
    ensures forall e :: e in a <==> e in b
  {
    assert forall e :: e in a <==> e in multiset(a);
    assert forall e :: e in b <==> e in multiset(b);
  }
}
