/** Lists that grow by answers of the server without showing anything twice: the audit timeline
    (apps/web/components/audit/audit-timeline.tsx) and the recorded repayment events
    (apps/web/components/repayments/repayment-workspace.tsx). */
module AuditTimeline {
  import opened Options
  import opened Sequences

  datatype AuditEvent = AuditEvent(id: string, body: string)
  datatype Page = Page(events: seq<AuditEvent>, nextCursor: Option<string>)

  function Ids(events: seq<AuditEvent>): seq<string> {
    Map(events, (e: AuditEvent) => e.id)
  }

  function Unseen(seen: seq<string>): AuditEvent -> bool {
    (e: AuditEvent) => e.id !in seen
  }

  /** loadMore appends what is not shown yet; the ids seen are those shown before the page landed. */
  function Merge(current: seq<AuditEvent>, page: seq<AuditEvent>): seq<AuditEvent> {
    current + Filter(page, Unseen(Ids(current)))
  }

  lemma IdsAppend(events: seq<AuditEvent>, e: AuditEvent)
    ensures Ids(events + [e]) == Ids(events) + [e.id]
  {
  }

  lemma {:induction false} FilterIds(page: seq<AuditEvent>, seen: seq<string>)
    ensures forall id :: id in Ids(Filter(page, Unseen(seen))) <==> id in Ids(page) && id !in seen
    ensures NoRepeats(Ids(page)) ==> NoRepeats(Ids(Filter(page, Unseen(seen))))
    decreases |page|
  {
    if page != [] {
      var init, last := page[..|page| - 1], page[|page| - 1];
      var kept := Filter(init, Unseen(seen));
      FilterIds(init, seen);
      assert page == init + [last];
      IdsAppend(init, last);
      NoRepeatsAppends(Ids(init), last.id);
      IdsAppend(kept, last);
      NoRepeatsAppends(Ids(kept), last.id);
      FilterAppends(init, last, Unseen(seen));
    }
  }

  lemma FilterAppends(events: seq<AuditEvent>, e: AuditEvent, p: AuditEvent -> bool)
    ensures Filter(events + [e], p) == if p(e) then Filter(events, p) + [e] else Filter(events, p)
  {
    assert (events + [e])[..|events|] == events;
  }

  /** Two lists without a common element repeat nothing together exactly if neither does. */
  lemma JoinedNoRepeats(a: seq<string>, b: seq<string>)
    requires forall x <- b :: x !in a
    ensures NoRepeats(a + b) <==> NoRepeats(a) && NoRepeats(b)
  {
    if NoRepeats(a + b) {
      assert forall i :: 0 <= i < |a| ==> a[i] == (a + b)[i];
      assert forall j :: 0 <= j < |b| ==> b[j] == (a + b)[|a| + j];
    }
    if NoRepeats(a) && NoRepeats(b) {
      forall i, j | 0 <= i < j < |a + b| ensures (a + b)[i] != (a + b)[j] {
        if i < |a| <= j { assert b[j - |a|] in b; }
      }
    }
  }

  lemma MergedIds(current: seq<AuditEvent>, page: seq<AuditEvent>)
    ensures Ids(Merge(current, page)) == Ids(current) + Ids(Filter(page, Unseen(Ids(current))))
  {
  }

  /** A merged page: the ids are those shown and those of the page together, and nothing is shown
      twice exactly if nothing was, and the new part of the page holds no id twice. */
  lemma MergeIds(current: seq<AuditEvent>, page: seq<AuditEvent>)
    ensures forall id :: id in Ids(Merge(current, page)) <==> id in Ids(current) || id in Ids(page)
    ensures NoRepeats(Ids(Merge(current, page))) <==>
              NoRepeats(Ids(current)) && NoRepeats(Ids(Filter(page, Unseen(Ids(current)))))
    ensures NoRepeats(Ids(current)) && NoRepeats(Ids(page)) ==> NoRepeats(Ids(Merge(current, page)))
  {
    FilterIds(page, Ids(current));
    MergedIds(current, page);
    JoinedNoRepeats(Ids(current), Ids(Filter(page, Unseen(Ids(current)))));
  }

  class AuditWorkspace {
    var events: seq<AuditEvent>
    var nextCursor: Option<string>

    constructor ()
      ensures events == [] && nextCursor == None
    {
      events, nextCursor := [], None;
    }

    /** The first page arrived: whatever is shown is replaced. */
    method Loaded(page: Page)
      modifies this
      ensures events == page.events && nextCursor == page.nextCursor
    {
      events := page.events;
      nextCursor := page.nextCursor;
    }

    /** A further page arrived. */
    method LoadedMore(page: Page)
      modifies this
      ensures events == Merge(old(events), page.events) && nextCursor == page.nextCursor
    {
      var seen := set e <- events :: e.id;
      var unseen := (e: AuditEvent) => e.id !in seen;
      SeenIds(events, seen);
      FilterSame(page.events, unseen, Unseen(Ids(events)));
      var appended := Filter(page.events, unseen);
      events := events + appended;
      nextCursor := page.nextCursor;
    }
  }

  lemma SeenIds(shown: seq<AuditEvent>, seen: set<string>)
    requires seen == set e <- shown :: e.id
    ensures forall id :: id in seen <==> id in Ids(shown)
  {
    forall id | id in Ids(shown) ensures id in seen {
      var k :| 0 <= k < |shown| && Ids(shown)[k] == id;
      assert shown[k] in shown;
    }
  }

  // ---------- any order of answers ----------

  datatype Landing = First(page: Page) | More(page: Page) | FailedRequest

  datatype Timeline = Timeline(events: seq<AuditEvent>, nextCursor: Option<string>)

  function Land(t: Timeline, landing: Landing): Timeline {
    match landing
    case First(page) => Timeline(page.events, page.nextCursor)
    case More(page) => Timeline(Merge(t.events, page.events), page.nextCursor)
    case FailedRequest => t
  }

  function LandAll(landings: seq<Landing>): Timeline {
    if landings == [] then Timeline([], None) else Land(LandAll(landings[..|landings| - 1]), landings[|landings| - 1])
  }

  /** Whether some page that landed since the last first page holds the id. */
  function LandedSince(landings: seq<Landing>, id: string): bool {
    if landings == [] then false
    else
      match landings[|landings| - 1]
      case First(page) => id in Ids(page.events)
      case More(page) => id in Ids(page.events) || LandedSince(landings[..|landings| - 1], id)
      case FailedRequest => LandedSince(landings[..|landings| - 1], id)
  }

  /** In whatever order first pages and overlapping further pages land: exactly the ids that landed
      since the last first page are shown, and none twice if no page repeats an id. */
  lemma {:induction false} TimelineShowsWhatLanded(landings: seq<Landing>, id: string)
    ensures id in Ids(LandAll(landings).events) <==> LandedSince(landings, id)
    ensures (forall l <- landings :: !l.FailedRequest? ==> NoRepeats(Ids(l.page.events))) ==>
              NoRepeats(Ids(LandAll(landings).events))
    decreases |landings|
  {
    if landings != [] {
      var init, last := landings[..|landings| - 1], landings[|landings| - 1];
      TimelineShowsWhatLanded(init, id);
      if last.More? {
        MergeIds(LandAll(init).events, last.page.events);
      }
    }
  }

  /** Every event shown is an event of a page that landed, as it was delivered; and the cursor is that of
      the page that landed last. */
  lemma {:induction false} TimelineIsDelivered(landings: seq<Landing>)
    ensures forall e <- LandAll(landings).events ::
              exists l <- landings :: !l.FailedRequest? && e in l.page.events
    ensures LandAll(landings).nextCursor
            == if landings == [] then None
               else if landings[|landings| - 1].FailedRequest? then LandAll(landings[..|landings| - 1]).nextCursor
               else landings[|landings| - 1].page.nextCursor
    decreases |landings|
  {
    if landings != [] {
      var init, last := landings[..|landings| - 1], landings[|landings| - 1];
      TimelineIsDelivered(init);
      assert last in landings;
    }
  }

  /** Between first pages the list only grows at its end. */
  lemma {:induction false} TimelineOnlyGrows(landings: seq<Landing>, more: seq<Landing>)
    requires forall l <- more :: !l.First?
    ensures LandAll(landings).events <= LandAll(landings + more).events
    decreases |more|
  {
    if more == [] {
      assert landings + more == landings;
    } else {
      var init := more[..|more| - 1];
      TimelineOnlyGrows(landings, init);
      assert (landings + more)[..|landings + more| - 1] == landings + init;
    }
  }

  // ---------- recorded repayment events ----------

  /** onEventRecorded: a repeated delivery returns the existing row and is not listed again. */
  function Record(prior: seq<AuditEvent>, event: AuditEvent): seq<AuditEvent> {
    if exists e <- prior :: e.id == event.id then prior else prior + [event]
  }

  function RecordAll(deliveries: seq<AuditEvent>): seq<AuditEvent> {
    if deliveries == [] then [] else Record(RecordAll(deliveries[..|deliveries| - 1]), deliveries[|deliveries| - 1])
  }

  /** Over any sequence of deliveries the list shows each id once, in order of first delivery. */
  lemma {:induction false} RecordedOnce(deliveries: seq<AuditEvent>)
    ensures Ids(RecordAll(deliveries)) == Distinct(Ids(deliveries))
    ensures NoRepeats(Ids(RecordAll(deliveries)))
    decreases |deliveries|
  {
    if deliveries != [] {
      var init, last := deliveries[..|deliveries| - 1], deliveries[|deliveries| - 1];
      RecordedOnce(init);
      var prior := RecordAll(init);
      assert Ids(deliveries)[..|init|] == Ids(init);
      if last.id in Ids(prior) {
        var k :| 0 <= k < |prior| && Ids(prior)[k] == last.id;
        assert prior[k] in prior;
      } else {
        assert Ids(prior + [last]) == Ids(prior) + [last.id];
        forall e | e in prior ensures e.id != last.id {
          var k :| 0 <= k < |prior| && prior[k] == e;
          assert Ids(prior)[k] in Ids(prior);
        }
      }
    }
    DistinctHasNoRepeats(Ids(deliveries));
  }
}
