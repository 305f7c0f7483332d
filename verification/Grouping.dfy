/** Grouping for display: alerts by status (apps/web/lib/api/monitoring.ts) and repayment exceptions
    by kind (apps/web/components/repayments/repayment-workspace.tsx).  Known kinds come in a fixed
    order, empty groups are dropped, and everything unknown falls into one trailing group. */
module Grouping {
  import opened Options
  import opened Sequences
  import opened RankSort

  /** kind is None for the trailing group of unknown items. */
  datatype Group<T> = Group(kind: Option<string>, items: seq<T>)

  const ALERT_STATUSES := ["OPEN", "ACKNOWLEDGED", "ESCALATED", "DISMISSED_BY_HUMAN"]
  const EXCEPTION_KIND_ORDER := ["OVERDUE_INSTALLMENT", "UNDERPAID_PERIOD", "UNMATCHED_PAYMENT"]

  function OfKind<T>(items: seq<T>, kindOf: T -> string, kind: string): seq<T> {
    Filter(items, x => kindOf(x) == kind)
  }

  /** The groups of the first n kinds, without the empty ones. */
  function KnownGroups<T>(items: seq<T>, kindOf: T -> string, kinds: seq<string>, n: nat): seq<Group<T>>
    requires n <= |kinds|
  {
    if n == 0 then []
    else
      var init, mine := KnownGroups(items, kindOf, kinds, n - 1), OfKind(items, kindOf, kinds[n - 1]);
      if mine == [] then init else init + [Group(Some(kinds[n - 1]), mine)]
  }

  function GroupOf<T>(items: seq<T>, kindOf: T -> string): string -> Group<T> {
    (kind: string) => Group(Some(kind), OfKind(items, kindOf, kind))
  }

  function NotEmpty<T>(): Group<T> -> bool {
    (g: Group<T>) => |g.items| > 0
  }

  /** A group for each kind, then without the empty ones, then one more for what is left. */
  method GroupForDisplay<T>(items: seq<T>, kindOf: T -> string, kinds: seq<string>) returns (groups: seq<Group<T>>)
    ensures groups == Groups(items, kindOf, kinds)
  {
    groups := Filter(Map(kinds, GroupOf(items, kindOf)), NotEmpty());
    KnownGroupsFiltered(items, kindOf, kinds, |kinds|);
    assert kinds[..|kinds|] == kinds;
    var unknown := Filter(items, x => kindOf(x) !in kinds);
    if |unknown| > 0 {
      groups := groups + [Group(None, unknown)];
    }
  }

  lemma {:induction false} KnownGroupsFiltered<T>(items: seq<T>, kindOf: T -> string, kinds: seq<string>, n: nat)
    requires n <= |kinds|
    ensures Filter(Map(kinds[..n], GroupOf(items, kindOf)), NotEmpty()) == KnownGroups(items, kindOf, kinds, n)
  {
    if n > 0 {
      KnownGroupsFiltered(items, kindOf, kinds, n - 1);
      assert kinds[..n] == kinds[..n - 1] + [kinds[n - 1]];
      MapAppends(kinds[..n - 1], kinds[n - 1], GroupOf(items, kindOf));
      FilterAppends(Map(kinds[..n - 1], GroupOf(items, kindOf)), GroupOf(items, kindOf)(kinds[n - 1]), NotEmpty());
    }
  }

  lemma FilterAppends<T>(groups: seq<Group<T>>, group: Group<T>, p: Group<T> -> bool)
    ensures Filter(groups + [group], p) == if p(group) then Filter(groups, p) + [group] else Filter(groups, p)
  {
    assert (groups + [group])[..|groups|] == groups;
  }

  function Groups<T>(items: seq<T>, kindOf: T -> string, kinds: seq<string>): seq<Group<T>> {
    var unknown := Filter(items, x => kindOf(x) !in kinds);
    KnownGroups(items, kindOf, kinds, |kinds|) + if unknown == [] then [] else [Group(None, unknown)]
  }

  function Concatenated<T>(groups: seq<Group<T>>): seq<T> {
    if groups == [] then [] else Concatenated(groups[..|groups| - 1]) + groups[|groups| - 1].items
  }

  /** The position of the kind in the order; past the end if unknown. */
  function KindRank(kinds: seq<string>, kind: string): nat {
    if kinds == [] then 0 else if kinds[0] == kind then 0 else 1 + KindRank(kinds[1..], kind)
  }

  lemma {:induction false} KindRankFinds(kinds: seq<string>, kind: string, k: nat)
    requires NoRepeats(kinds) && k <= |kinds|
    ensures KindRank(kinds, kind) <= |kinds|
    ensures KindRank(kinds, kind) == k <==> if k < |kinds| then kinds[k] == kind else kind !in kinds
  {
    if kinds != [] {
      KindRankFinds(kinds[1..], kind, if k == 0 then |kinds| - 1 else k - 1);
    }
  }

  lemma ConcatenatedAppend<T>(groups: seq<Group<T>>, group: Group<T>)
    ensures Concatenated(groups + [group]) == Concatenated(groups) + group.items
  {
    assert (groups + [group])[..|groups|] == groups;
  }

  function RankOfKind<T>(kinds: seq<string>, kindOf: T -> string): T -> nat {
    (x: T) => KindRank(kinds, kindOf(x))
  }

  lemma OfKindIsOfRank<T>(items: seq<T>, kindOf: T -> string, kinds: seq<string>, rank: T -> nat, n: nat)
    requires NoRepeats(kinds) && n < |kinds| && forall x <- items :: rank(x) == KindRank(kinds, kindOf(x))
    ensures OfRank(items, rank, n) == OfKind(items, kindOf, kinds[n])
  {
    forall x | x in items ensures rank(x) == n <==> kindOf(x) == kinds[n] {
      KindRankFinds(kinds, kindOf(x), n);
    }
    OfRankIsFilter(items, rank, n, x => kindOf(x) == kinds[n]);
  }

  lemma KnownGroupsStep<T>(items: seq<T>, kindOf: T -> string, kinds: seq<string>, n: nat, group: seq<T>)
    requires 0 < n <= |kinds| && OfKind(items, kindOf, kinds[n - 1]) == group
    ensures Concatenated(KnownGroups(items, kindOf, kinds, n))
            == Concatenated(KnownGroups(items, kindOf, kinds, n - 1)) + group
  {
    var kind := kinds[n - 1];
    ConcatenatedAppend(KnownGroups(items, kindOf, kinds, n - 1), Group(Some(kind), OfKind(items, kindOf, kind)));
  }

  /** One more kind is one more rank. */
  lemma RankStep<T>(items: seq<T>, kindOf: T -> string, kinds: seq<string>, rank: T -> nat, n: nat)
    requires NoRepeats(kinds) && 0 < n <= |kinds| && forall x <- items :: rank(x) == KindRank(kinds, kindOf(x))
    ensures Concatenated(KnownGroups(items, kindOf, kinds, n))
            == Concatenated(KnownGroups(items, kindOf, kinds, n - 1)) + OfRank(items, rank, n - 1)
  {
    OfKindIsOfRank(items, kindOf, kinds, rank, n - 1);
    KnownGroupsStep(items, kindOf, kinds, n, OfRank(items, rank, n - 1));
  }

  lemma {:induction false} KnownGroupsByRank<T>(items: seq<T>, kindOf: T -> string, kinds: seq<string>,
                                                rank: T -> nat, n: nat)
    requires NoRepeats(kinds) && n <= |kinds| && forall x <- items :: rank(x) == KindRank(kinds, kindOf(x))
    ensures Concatenated(KnownGroups(items, kindOf, kinds, n)) == ByRank(items, rank, n)
    decreases n
  {
    if n > 0 {
      KnownGroupsByRank(items, kindOf, kinds, rank, n - 1);
      RankStep(items, kindOf, kinds, rank, n);
    }
  }

  /** Grouping loses and duplicates nothing: the groups put together are the items listed kind by
      kind, unknown kinds last, which is a permutation of the input. */
  lemma GroupingIsPermutation<T>(items: seq<T>, kindOf: T -> string, kinds: seq<string>)
    requires NoRepeats(kinds)
    ensures Concatenated(Groups(items, kindOf, kinds)) == ByRank(items, RankOfKind(kinds, kindOf), |kinds| + 1)
    ensures multiset(Concatenated(Groups(items, kindOf, kinds))) == multiset(items)
  {
    var rank := RankOfKind(kinds, kindOf);
    forall x | x in items ensures rank(x) <= |kinds| && (rank(x) == |kinds| <==> kindOf(x) !in kinds) {
      KindRankFinds(kinds, kindOf(x), |kinds|);
    }
    KnownGroupsByRank(items, kindOf, kinds, rank, |kinds|);
    OfRankIsFilter(items, rank, |kinds|, x => kindOf(x) !in kinds);
    ByRankIsPermutation(items, rank, |kinds| + 1);
    var unknown := Filter(items, x => kindOf(x) !in kinds);
    ConcatenatedAppend(KnownGroups(items, kindOf, kinds, |kinds|), Group(None, unknown));
    assert unknown == [] ==> Groups(items, kindOf, kinds) == KnownGroups(items, kindOf, kinds, |kinds|);
  }

  /** The groups are those of known kinds, in the fixed order, each not empty and holding the items of
      its kind in input order; only the last one can be the group of everything unknown. */
  ghost predicate InDisplayOrder<T>(groups: seq<Group<T>>, items: seq<T>, kindOf: T -> string, kinds: seq<string>) {
    && (forall k :: 0 <= k < |groups| ==> groups[k].items != [])
    && (forall k :: 0 <= k < |groups| && groups[k].kind.Some? ==>
          && KindRank(kinds, groups[k].kind.value) < |kinds|
          && groups[k].items == OfKind(items, kindOf, groups[k].kind.value))
    && (forall k :: 0 <= k < |groups| && groups[k].kind.None? ==>
          k == |groups| - 1 && groups[k].items == Filter(items, x => kindOf(x) !in kinds))
    && (forall i, j :: 0 <= i < j < |groups| && groups[j].kind.Some? ==>
          groups[i].kind.Some? && KindRank(kinds, groups[i].kind.value) < KindRank(kinds, groups[j].kind.value))
  }

  lemma InOrderAppends<T>(groups: seq<Group<T>>, group: Group<T>, items: seq<T>, kindOf: T -> string,
                          kinds: seq<string>)
    requires InDisplayOrder(groups, items, kindOf, kinds) && group.items != []
    requires forall k :: 0 <= k < |groups| ==> groups[k].kind.Some?
    requires group.kind.None? ==> group.items == Filter(items, x => kindOf(x) !in kinds)
    requires group.kind.Some? ==>
               && KindRank(kinds, group.kind.value) < |kinds| && group.items == OfKind(items, kindOf, group.kind.value)
               && forall k :: 0 <= k < |groups| ==>
                    KindRank(kinds, groups[k].kind.value) < KindRank(kinds, group.kind.value)
    ensures InDisplayOrder(groups + [group], items, kindOf, kinds)
  {
  }

  lemma {:induction false} KnownGroupsInOrder<T>(items: seq<T>, kindOf: T -> string, kinds: seq<string>, n: nat)
    requires NoRepeats(kinds) && n <= |kinds|
    ensures var groups := KnownGroups(items, kindOf, kinds, n);
            && InDisplayOrder(groups, items, kindOf, kinds)
            && forall k :: 0 <= k < |groups| ==> groups[k].kind.Some? && KindRank(kinds, groups[k].kind.value) < n
    decreases n
  {
    if n > 0 {
      var kind := kinds[n - 1];
      KnownGroupsInOrder(items, kindOf, kinds, n - 1);
      KindRankFinds(kinds, kind, n - 1);
      if OfKind(items, kindOf, kind) != [] {
        InOrderAppends(KnownGroups(items, kindOf, kinds, n - 1), Group(Some(kind), OfKind(items, kindOf, kind)),
                       items, kindOf, kinds);
      }
    }
  }

  lemma GroupsInOrder<T>(items: seq<T>, kindOf: T -> string, kinds: seq<string>)
    requires NoRepeats(kinds)
    ensures InDisplayOrder(Groups(items, kindOf, kinds), items, kindOf, kinds)
  {
    KnownGroupsInOrder(items, kindOf, kinds, |kinds|);
    var known, unknown := KnownGroups(items, kindOf, kinds, |kinds|), Filter(items, x => kindOf(x) !in kinds);
    if unknown == [] {
      assert Groups(items, kindOf, kinds) == known;
    } else {
      InOrderAppends(known, Group(None, unknown), items, kindOf, kinds);
    }
  }

  lemma DisplayOrdersHaveNoRepeats()
    ensures NoRepeats(ALERT_STATUSES) && NoRepeats(EXCEPTION_KIND_ORDER)
  {
    assert |ALERT_STATUSES[0]| == 4 && |ALERT_STATUSES[1]| == 12;
    assert |ALERT_STATUSES[2]| == 9 && |ALERT_STATUSES[3]| == 18;
    assert |EXCEPTION_KIND_ORDER[0]| == 19 && |EXCEPTION_KIND_ORDER[1]| == 16 && |EXCEPTION_KIND_ORDER[2]| == 17;
  }

  /** groupAlertsByStatus loses and duplicates no alert, keeps the display order, and is stable. */
  lemma AlertsGrouped<T>(alerts: seq<T>, statusOf: T -> string)
    ensures multiset(Concatenated(Groups(alerts, statusOf, ALERT_STATUSES))) == multiset(alerts)
    ensures InDisplayOrder(Groups(alerts, statusOf, ALERT_STATUSES), alerts, statusOf, ALERT_STATUSES)
  {
    DisplayOrdersHaveNoRepeats();
    GroupingIsPermutation(alerts, statusOf, ALERT_STATUSES);
    GroupsInOrder(alerts, statusOf, ALERT_STATUSES);
  }

  /** ExceptionGroups does the same for the exceptions of a repayment ledger. */
  lemma ExceptionsGrouped<T>(exceptions: seq<T>, kindOf: T -> string)
    ensures multiset(Concatenated(Groups(exceptions, kindOf, EXCEPTION_KIND_ORDER))) == multiset(exceptions)
    ensures InDisplayOrder(Groups(exceptions, kindOf, EXCEPTION_KIND_ORDER), exceptions, kindOf, EXCEPTION_KIND_ORDER)
  {
    DisplayOrdersHaveNoRepeats();
    GroupingIsPermutation(exceptions, kindOf, EXCEPTION_KIND_ORDER);
    GroupsInOrder(exceptions, kindOf, EXCEPTION_KIND_ORDER);
  }

  /** The items of the first n kinds, kind by kind. */
  function OfKinds<T>(items: seq<T>, kindOf: T -> string, kinds: seq<string>, n: nat): seq<T>
    requires n <= |kinds|
  {
    if n == 0 then [] else OfKinds(items, kindOf, kinds, n - 1) + OfKind(items, kindOf, kinds[n - 1])
  }

  lemma {:induction false} KnownGroupsOfKinds<T>(items: seq<T>, kindOf: T -> string, kinds: seq<string>, n: nat)
    requires n <= |kinds|
    ensures Concatenated(KnownGroups(items, kindOf, kinds, n)) == OfKinds(items, kindOf, kinds, n)
  {
    if n > 0 {
      KnownGroupsOfKinds(items, kindOf, kinds, n - 1);
      KnownGroupsStep(items, kindOf, kinds, n, OfKind(items, kindOf, kinds[n - 1]));
    }
  }

  lemma FirstThree<T>(items: seq<T>, kindOf: T -> string, kinds: seq<string>)
    requires |kinds| >= 3
    ensures OfKinds(items, kindOf, kinds, 3)
            == OfKind(items, kindOf, kinds[0]) + OfKind(items, kindOf, kinds[1]) + OfKind(items, kindOf, kinds[2])
  {
    var a, b := OfKinds(items, kindOf, kinds, 1), OfKinds(items, kindOf, kinds, 2);
    assert OfKinds(items, kindOf, kinds, 0) == [];
    assert a == [] + OfKind(items, kindOf, kinds[0]) == OfKind(items, kindOf, kinds[0]);
    assert b == a + OfKind(items, kindOf, kinds[1]);
  }

  lemma WithUnknown<T>(items: seq<T>, kindOf: T -> string, kinds: seq<string>, p: T -> bool)
    requires forall x <- items :: p(x) <==> kindOf(x) !in kinds
    ensures Concatenated(Groups(items, kindOf, kinds))
            == OfKinds(items, kindOf, kinds, |kinds|) + Filter(items, p)
  {
    KnownGroupsOfKinds(items, kindOf, kinds, |kinds|);
    var known, unknown := KnownGroups(items, kindOf, kinds, |kinds|), Filter(items, x => kindOf(x) !in kinds);
    FilterSame(items, p, x => kindOf(x) !in kinds);
    ConcatenatedAppend(known, Group(None, unknown));
    assert unknown == [] ==> Groups(items, kindOf, kinds) == known;
  }

  /** Alerts: open, acknowledged, escalated, dismissed ones, and then the rest. */
  lemma AlertsDisplayed<T>(alerts: seq<T>, statusOf: T -> string)
    ensures Concatenated(Groups(alerts, statusOf, ALERT_STATUSES))
            == OfKind(alerts, statusOf, "OPEN") + OfKind(alerts, statusOf, "ACKNOWLEDGED")
               + OfKind(alerts, statusOf, "ESCALATED") + OfKind(alerts, statusOf, "DISMISSED_BY_HUMAN")
               + Filter(alerts, x => statusOf(x) !in ["OPEN", "ACKNOWLEDGED", "ESCALATED", "DISMISSED_BY_HUMAN"])
  {
    FirstThree(alerts, statusOf, ALERT_STATUSES);
    WithUnknown(alerts, statusOf, ALERT_STATUSES,
                x => statusOf(x) !in ["OPEN", "ACKNOWLEDGED", "ESCALATED", "DISMISSED_BY_HUMAN"]);
  }

  /** Collections exceptions: overdue installments, underpaid periods, unmatched payments, and then the rest. */
  lemma ExceptionsDisplayed<T>(exceptions: seq<T>, kindOf: T -> string)
    ensures Concatenated(Groups(exceptions, kindOf, EXCEPTION_KIND_ORDER))
            == OfKind(exceptions, kindOf, "OVERDUE_INSTALLMENT") + OfKind(exceptions, kindOf, "UNDERPAID_PERIOD")
               + OfKind(exceptions, kindOf, "UNMATCHED_PAYMENT")
               + Filter(exceptions, x => kindOf(x) !in ["OVERDUE_INSTALLMENT", "UNDERPAID_PERIOD", "UNMATCHED_PAYMENT"])
  {
    FirstThree(exceptions, kindOf, EXCEPTION_KIND_ORDER);
    WithUnknown(exceptions, kindOf, EXCEPTION_KIND_ORDER,
                x => kindOf(x) !in ["OVERDUE_INSTALLMENT", "UNDERPAID_PERIOD", "UNMATCHED_PAYMENT"]);
  }
}
