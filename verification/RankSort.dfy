/** The decorate-sort-undecorate idiom of the legal screens
    (apps/web/components/legal/legal-narrative.tsx, controlled-checks.tsx, collateral-review.tsx):
    entries are compared by rank and, for equal ranks, by their original index. */
module RankSort {
  import opened Options
  import opened Sequences

  datatype Entry<T> = Entry(item: T, index: nat)

  function Decorate<T>(xs: seq<T>): seq<Entry<T>> {
    seq(|xs|, k requires 0 <= k < |xs| => Entry(xs[k], k))
  }

  function Undecorate<T>(entries: seq<Entry<T>>): seq<T> {
    Map(entries, (e: Entry<T>) => e.item)
  }

  /** `rankA - rankB || a.index - b.index`. */
  function Compare<T>(rank: T -> nat, a: Entry<T>, b: Entry<T>): int {
    var difference := rank(a.item) - rank(b.item);
    if difference != 0 then difference else a.index - b.index
  }

  ghost predicate Sorted<T>(rank: T -> nat, entries: seq<Entry<T>>) {
    forall i, j :: 0 <= i < j < |entries| ==> Compare(rank, entries[i], entries[j]) <= 0
  }

  /** What any correct sort returns for the decorated list. */
  ghost predicate SortResult<T>(rank: T -> nat, xs: seq<T>, entries: seq<Entry<T>>) {
    multiset(entries) == multiset(Decorate(xs)) && Sorted(rank, entries)
  }

  /** The elements of one rank, in the order of the input. */
  function OfRank<T>(xs: seq<T>, rank: T -> nat, r: nat): seq<T> {
    if xs == [] then []
    else
      var init, last := OfRank(xs[..|xs| - 1], rank, r), xs[|xs| - 1];
      if rank(last) == r then init + [last] else init
  }

  /** The list rank by rank, below the given rank. */
  function ByRank<T>(xs: seq<T>, rank: T -> nat, below: nat): seq<T> {
    if below == 0 then [] else ByRank(xs, rank, below - 1) + OfRank(xs, rank, below - 1)
  }

  /** On the entries of one list the comparator is a strict total order: it is antisymmetric,
      transitive, and calls two entries equal only if they are the same entry. */
  lemma ComparatorIsStrictTotalOrder<T>(xs: seq<T>, rank: T -> nat, a: Entry<T>, b: Entry<T>, c: Entry<T>)
    requires a in Decorate(xs) && b in Decorate(xs) && c in Decorate(xs)
    ensures Compare(rank, a, b) == -Compare(rank, b, a)
    ensures Compare(rank, a, b) == 0 <==> a == b
    ensures Compare(rank, a, b) < 0 && Compare(rank, b, c) < 0 ==> Compare(rank, a, c) < 0
  {
  }

  lemma LeastFirst<T>(xs: seq<T>, rank: T -> nat, ys: seq<Entry<T>>, y: Entry<T>)
    requires Sorted(rank, ys) && y in ys
    ensures Compare(rank, ys[0], y) <= 0
  {
  }

  lemma SameFirst<T>(xs: seq<T>, rank: T -> nat, ys: seq<Entry<T>>, zs: seq<Entry<T>>)
    requires multiset(ys) == multiset(zs) && ys != [] && zs != [] && Sorted(rank, ys) && Sorted(rank, zs)
    requires forall y <- ys :: y in Decorate(xs)
    ensures ys[0] == zs[0]
  {
    assert ys[0] in zs by { assert ys[0] in multiset(zs); }
    assert zs[0] in ys by { assert zs[0] in multiset(ys); }
    LeastFirst(xs, rank, ys, zs[0]);
    LeastFirst(xs, rank, zs, ys[0]);
    ComparatorIsStrictTotalOrder(xs, rank, ys[0], zs[0], zs[0]);
  }

  lemma SameRest<E>(ys: seq<E>, zs: seq<E>)
    requires multiset(ys) == multiset(zs) && ys != [] && zs != [] && ys[0] == zs[0]
    ensures multiset(ys[1..]) == multiset(zs[1..])
  {
    assert ys == [ys[0]] + ys[1..] && zs == [zs[0]] + zs[1..];
    assert multiset(ys[1..]) == multiset(ys) - multiset{ys[0]};
    assert multiset(zs[1..]) == multiset(zs) - multiset{zs[0]};
  }

  lemma {:induction false} SortedUnique<T>(xs: seq<T>, rank: T -> nat, ys: seq<Entry<T>>, zs: seq<Entry<T>>)
    requires multiset(ys) == multiset(zs) && Sorted(rank, ys) && Sorted(rank, zs)
    requires forall y <- ys :: y in Decorate(xs)
    ensures ys == zs
    decreases |ys|
  {
    assert |multiset(ys)| == |multiset(zs)|;
    if ys != [] {
      SameFirst(xs, rank, ys, zs);
      SameRest(ys, zs);
      SortedUnique(xs, rank, ys[1..], zs[1..]);
      assert ys == [ys[0]] + ys[1..] && zs == [zs[0]] + zs[1..];
    }
  }

  lemma {:induction false} ByRankAppends<T>(init: seq<T>, last: T, rank: T -> nat, below: nat)
    ensures multiset(ByRank(init + [last], rank, below))
            == multiset(ByRank(init, rank, below)) + if rank(last) < below then multiset{last} else multiset{}
  {
    if below > 0 {
      ByRankAppends(init, last, rank, below - 1);
      assert (init + [last])[..|init|] == init;
    }
  }

  /** Listing rank by rank loses and duplicates nothing. */
  lemma {:induction false} ByRankIsPermutation<T>(xs: seq<T>, rank: T -> nat, bound: nat)
    requires forall x <- xs :: rank(x) < bound
    ensures multiset(ByRank(xs, rank, bound)) == multiset(xs)
    decreases |xs|
  {
    if xs == [] {
      NothingByRank(rank, bound);
    } else {
      var init, last := xs[..|xs| - 1], xs[|xs| - 1];
      assert xs == init + [last];
      ByRankIsPermutation(init, rank, bound);
      ByRankAppends(init, last, rank, bound);
    }
  }

  lemma {:induction false} NothingByRank<T>(rank: T -> nat, bound: nat)
    ensures ByRank([], rank, bound) == []
  {
    if bound > 0 { NothingByRank(rank, bound - 1); }
  }

  ghost predicate Increasing<T>(entries: seq<Entry<T>>) {
    forall i, j :: 0 <= i < j < |entries| ==> entries[i].index < entries[j].index
  }

  function EntryRank<T>(rank: T -> nat): Entry<T> -> nat {
    (e: Entry<T>) => rank(e.item)
  }

  lemma {:induction false} OfRankKeepsOrder<T>(entries: seq<Entry<T>>, rank: T -> nat, r: nat)
    requires Increasing(entries)
    ensures Increasing(OfRank(entries, EntryRank(rank), r))
    ensures forall e <- OfRank(entries, EntryRank(rank), r) :: e in entries && rank(e.item) == r
    decreases |entries|
  {
    if entries != [] {
      OfRankKeepsOrder(entries[..|entries| - 1], rank, r);
    }
  }

  lemma {:induction false} ByRankSorted<T>(entries: seq<Entry<T>>, rank: T -> nat, below: nat)
    requires Increasing(entries)
    ensures Sorted(rank, ByRank(entries, EntryRank(rank), below))
    ensures forall e <- ByRank(entries, EntryRank(rank), below) :: e in entries && rank(e.item) < below
  {
    if below > 0 {
      ByRankSorted(entries, rank, below - 1);
      OfRankKeepsOrder(entries, rank, below - 1);
      var lower, top := ByRank(entries, EntryRank(rank), below - 1), OfRank(entries, EntryRank(rank), below - 1);
      forall i, j | 0 <= i < j < |lower + top| ensures Compare(rank, (lower + top)[i], (lower + top)[j]) <= 0 {
        assert i < |lower| ==> (lower + top)[i] in lower;
        assert i >= |lower| ==> (lower + top)[i] in top;
        assert j >= |lower| ==> (lower + top)[j] in top;
      }
    }
  }

  lemma {:induction false} OfRankUndecorates<T>(entries: seq<Entry<T>>, rank: T -> nat, r: nat)
    ensures Undecorate(OfRank(entries, EntryRank(rank), r)) == OfRank(Undecorate(entries), rank, r)
    decreases |entries|
  {
    if entries != [] {
      OfRankUndecorates(entries[..|entries| - 1], rank, r);
      assert Undecorate(entries)[..|entries| - 1] == Undecorate(entries[..|entries| - 1]);
    }
  }

  lemma UndecorateJoins<T>(a: seq<Entry<T>>, b: seq<Entry<T>>)
    ensures Undecorate(a + b) == Undecorate(a) + Undecorate(b)
  {
  }

  lemma UndecorateDecorated<T>(xs: seq<T>)
    ensures Undecorate(Decorate(xs)) == xs
  {
  }

  lemma {:induction false} ByRankUndecorates<T>(xs: seq<T>, rank: T -> nat, below: nat)
    ensures Undecorate(ByRank(Decorate(xs), EntryRank(rank), below)) == ByRank(xs, rank, below)
  {
    if below > 0 {
      var decorated := Decorate(xs);
      ByRankUndecorates(xs, rank, below - 1);
      OfRankUndecorates(decorated, rank, below - 1);
      UndecorateDecorated(xs);
      UndecorateJoins(ByRank(decorated, EntryRank(rank), below - 1), OfRank(decorated, EntryRank(rank), below - 1));
    }
  }

  /** Whatever sorting algorithm is used, the displayed list is the input listed rank by rank, each
      rank in input order. */
  lemma SortedDisplay<T>(xs: seq<T>, rank: T -> nat, bound: nat, entries: seq<Entry<T>>)
    requires SortResult(rank, xs, entries) && forall x <- xs :: rank(x) < bound
    ensures Undecorate(entries) == ByRank(xs, rank, bound)
  {
    var decorated := Decorate(xs);
    ByRankIsPermutation(decorated, EntryRank(rank), bound);
    ByRankSorted(decorated, rank, bound);
    forall e | e in entries ensures e in decorated {
      assert e in multiset(entries);
    }
    SortedUnique(xs, rank, entries, ByRank(decorated, EntryRank(rank), bound));
    ByRankUndecorates(xs, rank, bound);
  }

  // ---------- the three screens ----------

  datatype BlockingLevel = Blocking | Conditional | Clarification
  datatype CheckStatus = Hit | Inconclusive | Clear
  datatype DocumentStatus = Missing | Expired | Present

  function GapRank(level: Option<BlockingLevel>): nat {
    match level case Some(Blocking) => 0 case Some(Conditional) => 1 case Some(Clarification) => 2 case None => 3
  }

  function CheckRank(status: Option<CheckStatus>): nat {
    match status case Some(Hit) => 0 case Some(Inconclusive) => 1 case Some(Clear) => 2 case None => 3
  }

  function DocumentRank(status: Option<DocumentStatus>): nat {
    match status case Some(Missing) => 0 case Some(Expired) => 1 case Some(Present) => 2 case None => 3
  }

  /** The elements of one rank are those that a filter for that rank keeps. */
  lemma {:induction false} OfRankIsFilter<T>(xs: seq<T>, rank: T -> nat, r: nat, p: T -> bool)
    requires forall x <- xs :: p(x) <==> rank(x) == r
    ensures OfRank(xs, rank, r) == Filter(xs, p)
    decreases |xs|
  {
    if xs != [] { OfRankIsFilter(xs[..|xs| - 1], rank, r, p); }
  }

  lemma ByRankFour<T>(xs: seq<T>, rank: T -> nat)
    ensures ByRank(xs, rank, 4) == OfRank(xs, rank, 0) + OfRank(xs, rank, 1) + OfRank(xs, rank, 2) + OfRank(xs, rank, 3)
  {
    var a, b, c := ByRank(xs, rank, 1), ByRank(xs, rank, 2), ByRank(xs, rank, 3);
    assert ByRank(xs, rank, 0) == [];
    assert a == [] + OfRank(xs, rank, 0) == OfRank(xs, rank, 0);
    assert b == a + OfRank(xs, rank, 1);
    assert c == b + OfRank(xs, rank, 2);
  }

  lemma FourRanks<T>(xs: seq<T>, rank: T -> nat, entries: seq<Entry<T>>, p0: T -> bool, p1: T -> bool, p2: T -> bool,
                     p3: T -> bool)
    requires SortResult(rank, xs, entries)
    requires forall x <- xs :: rank(x) < 4 && (p0(x) <==> rank(x) == 0) && (p1(x) <==> rank(x) == 1)
                               && (p2(x) <==> rank(x) == 2) && (p3(x) <==> rank(x) == 3)
    ensures Undecorate(entries) == Filter(xs, p0) + Filter(xs, p1) + Filter(xs, p2) + Filter(xs, p3)
  {
    SortedDisplay(xs, rank, 4, entries);
    OfRankIsFilter(xs, rank, 0, p0);
    OfRankIsFilter(xs, rank, 1, p1);
    OfRankIsFilter(xs, rank, 2, p2);
    OfRankIsFilter(xs, rank, 3, p3);
    ByRankFour(xs, rank);
  }

  /** Evidence gaps: blocking, conditional, clarification, and then those without a level. */
  lemma GapsDisplayed<T>(gaps: seq<T>, level: T -> Option<BlockingLevel>, entries: seq<Entry<T>>)
    requires SortResult(g => GapRank(level(g)), gaps, entries)
    ensures Undecorate(entries) ==
            Filter(gaps, g => level(g) == Some(Blocking)) + Filter(gaps, g => level(g) == Some(Conditional))
            + Filter(gaps, g => level(g) == Some(Clarification)) + Filter(gaps, g => level(g) == None)
  {
    FourRanks(gaps, g => GapRank(level(g)), entries,
              g => level(g) == Some(Blocking), g => level(g) == Some(Conditional),
              g => level(g) == Some(Clarification), g => level(g) == None);
  }

  /** Controlled checks: hits first, then inconclusive ones, then cleared ones, then the rest. */
  lemma ChecksDisplayed<T>(results: seq<T>, status: T -> Option<CheckStatus>, entries: seq<Entry<T>>)
    requires SortResult(r => CheckRank(status(r)), results, entries)
    ensures Undecorate(entries) ==
            Filter(results, r => status(r) == Some(Hit)) + Filter(results, r => status(r) == Some(Inconclusive))
            + Filter(results, r => status(r) == Some(Clear)) + Filter(results, r => status(r) == None)
  {
    FourRanks(results, r => CheckRank(status(r)), entries,
              r => status(r) == Some(Hit), r => status(r) == Some(Inconclusive),
              r => status(r) == Some(Clear), r => status(r) == None);
  }

  /** Collateral documents: missing first, then expired, then present, then the rest. */
  lemma CollateralDisplayed<T>(items: seq<T>, status: T -> Option<DocumentStatus>, entries: seq<Entry<T>>)
    requires SortResult(i => DocumentRank(status(i)), items, entries)
    ensures Undecorate(entries) ==
            Filter(items, i => status(i) == Some(Missing)) + Filter(items, i => status(i) == Some(Expired))
            + Filter(items, i => status(i) == Some(Present)) + Filter(items, i => status(i) == None)
  {
    FourRanks(items, i => DocumentRank(status(i)), entries,
              i => status(i) == Some(Missing), i => status(i) == Some(Expired),
              i => status(i) == Some(Present), i => status(i) == None);
  }
}
