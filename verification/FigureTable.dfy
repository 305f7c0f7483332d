/** The underwriting worksheet's figure table and its groupings
    (apps/web/components/underwriting/underwriting-worksheet.tsx, format.ts): loops that fill maps
    and push to lists, proved equal to what the table is meant to show. */
module FigureTable {
  import opened Options
  import opened Sequences

  datatype FactKind = ConfirmedFact | DocumentRegion
  datatype FactRef = FactRef(kind: FactKind, refId: string)
  datatype CalculatorInput = CalculatorInput(name: string, value: Option<real>, factRefs: seq<FactRef>)
  datatype CalculatorResult = CalculatorResult(inputs: seq<CalculatorInput>)
  datatype Chip = Chip(key: string, kindLabel: FactKind, refId: string)
  datatype Figure = Figure(value: Option<real>, refs: seq<Chip>)
  datatype FigureRow = FigureRow(name: string, value: Option<real>, chips: seq<Chip>)

  const FINANCIAL_FIGURE_LABELS := [
    "current_assets", "current_liabilities", "inventory", "total_debt", "total_equity", "total_assets", "revenue",
    "gross_profit", "operating_profit", "net_profit", "accounts_receivable", "accounts_payable", "cost_of_goods_sold",
    "own_working_capital", "other_funding_sources" ]

  // ---------- keys and chips ----------

  function KindName(kind: FactKind): string {
    match kind case ConfirmedFact => "CONFIRMED_FACT" case DocumentRegion => "DOCUMENT_REGION"
  }

  function Key(ref: FactRef): string { KindName(ref.kind) + ":" + ref.refId }

  /** factRefChip; its label and title are functions of the kind and the id. */
  function FactRefChip(ref: FactRef): Chip { Chip(Key(ref), ref.kind, ref.refId) }

  /** The key identifies the reference. */
  lemma KeyIsInjective(a: FactRef, b: FactRef)
    ensures Key(a) == Key(b) <==> a == b
  {
    if Key(a) == Key(b) {
      assert Key(a)[0] == KindName(a.kind)[0] && Key(b)[0] == KindName(b.kind)[0];
      var n := |KindName(a.kind)| + 1;
      assert Key(a)[n..] == a.refId && Key(b)[n..] == b.refId;
    }
  }

  /** dedupeFactRefs: a JavaScript Map keeps the place of a key's first insertion and the value of
      its last. */
  method DedupeFactRefs(refs: seq<FactRef>) returns (unique: seq<FactRef>)
    ensures unique == Distinct(refs)
  {
    var keys: seq<string> := [];
    var seen: map<string, FactRef> := map[];
    for k := 0 to |refs|
      invariant Deduped(keys, seen, refs[..k])
    {
      assert refs[..k] + [refs[k]] == refs[..k + 1];
      DedupeStep(keys, seen, refs[..k], refs[k]);
      var key := Key(refs[k]);
      if key !in seen { keys := keys + [key]; }
      seen := seen[key := refs[k]];
    }
    assert refs[..|refs|] == refs;
    ValuesAre(seen, keys, Distinct(refs));
    unique := seq(|keys|, k requires 0 <= k < |keys| && keys[k] in seen => seen[keys[k]]);
  }

  /** The keys in the order of their first insertion, and the map from each to its reference. */
  ghost predicate Deduped(keys: seq<string>, seen: map<string, FactRef>, refs: seq<FactRef>) {
    keys == Map(Distinct(refs), Key) && SeenAre(seen, Distinct(refs))
  }

  lemma DedupeStep(keys: seq<string>, seen: map<string, FactRef>, before: seq<FactRef>, ref: FactRef)
    requires Deduped(keys, seen, before)
    ensures Deduped(if Key(ref) in seen then keys else keys + [Key(ref)], seen[Key(ref) := ref], before + [ref])
  {
    assert (before + [ref])[..|before|] == before;
    SeenAfter(seen, Distinct(before), ref);
    MapAppends(Distinct(before), ref, Key);
  }

  /** The map holds exactly the given references, under their keys. */
  ghost predicate SeenAre(seen: map<string, FactRef>, refs: seq<FactRef>) {
    && (forall ref: FactRef :: ref in refs <==> Key(ref) in seen)
    && (forall key <- seen :: Key(seen[key]) == key)
  }

  lemma SeenAfter(seen: map<string, FactRef>, refs: seq<FactRef>, ref: FactRef)
    requires SeenAre(seen, refs)
    ensures SeenAre(seen[Key(ref) := ref], if ref in refs then refs else refs + [ref])
  {
    forall other: FactRef ensures Key(other) == Key(ref) <==> other == ref { KeyIsInjective(other, ref); }
  }

  lemma ValuesAre(seen: map<string, FactRef>, keys: seq<string>, refs: seq<FactRef>)
    requires SeenAre(seen, refs) && keys == Map(refs, Key)
    ensures forall k :: 0 <= k < |keys| ==> keys[k] in seen && seen[keys[k]] == refs[k]
  {
    forall k | 0 <= k < |keys| ensures keys[k] in seen && seen[keys[k]] == refs[k] {
      assert refs[k] in refs;
      KeyIsInjective(seen[keys[k]], refs[k]);
    }
  }

  // ---------- what the table is meant to show ----------

  /** All inputs of all results, in order. */
  function AllInputs(results: seq<CalculatorResult>): seq<CalculatorInput> {
    if results == [] then [] else AllInputs(results[..|results| - 1]) + results[|results| - 1].inputs
  }

  function Named(inputs: seq<CalculatorInput>, name: string): seq<CalculatorInput> {
    if inputs == [] then []
    else
      var init, last := Named(inputs[..|inputs| - 1], name), inputs[|inputs| - 1];
      if last.name == name then init + [last] else init
  }

  /** The first value that is not null. */
  function FirstValue(inputs: seq<CalculatorInput>): Option<real> {
    if inputs == [] then None
    else if FirstValue(inputs[..|inputs| - 1]).Some? then FirstValue(inputs[..|inputs| - 1])
    else inputs[|inputs| - 1].value
  }

  function AllRefs(inputs: seq<CalculatorInput>): seq<FactRef> {
    if inputs == [] then [] else AllRefs(inputs[..|inputs| - 1]) + inputs[|inputs| - 1].factRefs
  }

  /** The row of one figure: its first value, and one chip for each reference behind it. */
  function FigureOf(inputs: seq<CalculatorInput>): Figure {
    Figure(FirstValue(inputs), Map(Distinct(AllRefs(inputs)), FactRefChip))
  }

  function Rows(labels: seq<string>, inputs: seq<CalculatorInput>): seq<FigureRow> {
    if labels == [] then []
    else
      var init, name := Rows(labels[..|labels| - 1], inputs), labels[|labels| - 1];
      var mine := Named(inputs, name);
      if mine == [] then init else init + [FigureRow(name, FigureOf(mine).value, FigureOf(mine).refs)]
  }

  // ---------- the loops ----------

  /** The references behind a row after more of them were pushed, each unless it is there already. */
  function Pushed(shown: seq<FactRef>, more: seq<FactRef>): seq<FactRef> {
    if more == [] then shown
    else
      var before := Pushed(shown, more[..|more| - 1]);
      if more[|more| - 1] in before then before else before + [more[|more| - 1]]
  }

  lemma PushedAppends(shown: seq<FactRef>, more: seq<FactRef>, ref: FactRef)
    ensures Pushed(shown, more + [ref])
            == if ref in Pushed(shown, more) then Pushed(shown, more) else Pushed(shown, more) + [ref]
  {
    assert (more + [ref])[..|more|] == more;
  }

  lemma {:induction false} PushedIsDistinct(shown: seq<FactRef>, more: seq<FactRef>)
    ensures Pushed(Distinct(shown), Distinct(more)) == Distinct(shown + more)
    decreases |more|
  {
    if more == [] {
      assert shown + more == shown;
    } else {
      var init, last := more[..|more| - 1], more[|more| - 1];
      PushedIsDistinct(shown, init);
      assert more == init + [last] && shown + more == (shown + init) + [last];
      DistinctAppends(shown + init, last);
      DistinctAppends(init, last);
      PushedAppends(Distinct(shown), Distinct(init), last);
      if last in Distinct(init) { assert last in shown + init; }
    }
  }

  /** The inner loop over chips: those whose key is not listed yet are pushed. */
  method PushChips(refs: seq<Chip>, chips: seq<Chip>, ghost shown: seq<FactRef>, ghost more: seq<FactRef>)
    returns (merged: seq<Chip>)
    requires refs == Map(shown, FactRefChip) && chips == Map(more, FactRefChip)
    ensures merged == Map(Pushed(shown, more), FactRefChip)
  {
    merged := refs;
    for k := 0 to |chips|
      invariant merged == Map(Pushed(shown, more[..k]), FactRefChip)
    {
      assert more[..k + 1][..k] == more[..k];
      ChipListed(Pushed(shown, more[..k]), more[k]);
      MapAppends(Pushed(shown, more[..k]), more[k], FactRefChip);
      var listed := exists item <- merged :: item.key == chips[k].key;
      if !listed {
        merged := merged + [chips[k]];
      }
    }
    assert more[..|chips|] == more;
  }

  lemma ChipListed(refs: seq<FactRef>, ref: FactRef)
    ensures (exists chip <- Map(refs, FactRefChip) :: chip.key == Key(ref)) <==> ref in refs
  {
    var chips := Map(refs, FactRefChip);
    if chip :| chip in chips && chip.key == Key(ref) {
      var k :| 0 <= k < |refs| && chips[k] == chip;
      KeyIsInjective(refs[k], ref);
      assert refs[k] in refs;
    }
    if ref in refs {
      var k :| 0 <= k < |refs| && refs[k] == ref;
      assert chips[k] in chips && chips[k].key == Key(ref);
    }
  }

  /** What was collected under a name agrees with the inputs of that name. */
  ghost predicate CollectedAt(collected: map<string, Figure>, name: string, mine: seq<CalculatorInput>,
                              listed: set<string>) {
    && (name in collected <==> name in listed && mine != [])
    && (name in collected ==> collected[name] == FigureOf(mine))
  }

  /** What was collected so far agrees with the inputs seen so far. */
  ghost predicate Collected(collected: map<string, Figure>, inputs: seq<CalculatorInput>, listed: set<string>) {
    forall name :: CollectedAt(collected, name, Named(inputs, name), listed)
  }

  /** One input is taken into the collection. */
  method Collect(collected: map<string, Figure>, input: CalculatorInput, ghost inputs: seq<CalculatorInput>,
                 listed: set<string>)
    returns (more: map<string, Figure>)
    requires Collected(collected, inputs, listed)
    ensures Collected(more, inputs + [input], listed)
  {
    more := collected;
    ghost var mine := Named(inputs, input.name);
    if input.name in listed {
      var unique := DedupeFactRefs(input.factRefs);
      var chips := Map(unique, FactRefChip);
      FigureStep(mine, input);
      if input.name in collected {
        var existing := collected[input.name];
        if existing.value.None? && input.value.Some? {
          existing := existing.(value := input.value);
        }
        var merged := PushChips(existing.refs, chips, Distinct(AllRefs(mine)), Distinct(input.factRefs));
        PushedIsDistinct(AllRefs(mine), input.factRefs);
        more := collected[input.name := existing.(refs := merged)];
      } else {
        assert mine == [] && AllRefs([]) + input.factRefs == input.factRefs;
        more := collected[input.name := Figure(input.value, chips)];
      }
    }
    CollectedAfter(collected, more, input, inputs, listed);
  }

  lemma CollectedAfter(collected: map<string, Figure>, more: map<string, Figure>, input: CalculatorInput,
                       inputs: seq<CalculatorInput>, listed: set<string>)
    requires Collected(collected, inputs, listed)
    requires input.name !in listed ==> more == collected
    requires input.name in listed ==>
               && input.name in more && more == collected[input.name := more[input.name]]
               && more[input.name] == FigureOf(Named(inputs, input.name) + [input])
    ensures Collected(more, inputs + [input], listed)
  {
    forall name: string ensures CollectedAt(more, name, Named(inputs + [input], name), listed) {
      NamedStep(inputs, input, name);
      assert CollectedAt(collected, name, Named(inputs, name), listed);
    }
  }

  lemma NamedStep(inputs: seq<CalculatorInput>, input: CalculatorInput, name: string)
    ensures Named(inputs + [input], name)
            == if input.name == name then Named(inputs, name) + [input] else Named(inputs, name)
  {
    assert (inputs + [input])[..|inputs|] == inputs;
  }

  lemma FigureStep(mine: seq<CalculatorInput>, input: CalculatorInput)
    ensures FigureOf(mine + [input]) == Figure(if FirstValue(mine).Some? then FirstValue(mine) else input.value,
                                               Map(Distinct(AllRefs(mine) + input.factRefs), FactRefChip))
  {
    assert (mine + [input])[..|mine|] == mine;
  }

  /** All inputs of one result are taken into the collection. */
  method CollectResult(collected: map<string, Figure>, inputs: seq<CalculatorInput>, ghost before: seq<CalculatorInput>,
                       listed: set<string>)
    returns (more: map<string, Figure>)
    requires Collected(collected, before, listed)
    ensures Collected(more, before + inputs, listed)
  {
    more := collected;
    assert before + inputs[..0] == before;
    for k := 0 to |inputs|
      invariant Collected(more, before + inputs[..k], listed)
    {
      more := Collect(more, inputs[k], before + inputs[..k], listed);
      assert before + inputs[..k] + [inputs[k]] == before + inputs[..k + 1];
    }
    assert inputs[..|inputs|] == inputs;
  }

  /** The rows of the labels that were collected, in label order. */
  method RowsOf(labels: seq<string>, collected: map<string, Figure>, ghost inputs: seq<CalculatorInput>,
                ghost listed: set<string>)
    returns (rows: seq<FigureRow>)
    requires Collected(collected, inputs, listed) && forall name <- labels :: name in listed
    ensures rows == Rows(labels, inputs)
  {
    rows := [];
    for l := 0 to |labels|
      invariant rows == Rows(labels[..l], inputs)
    {
      assert labels[..l + 1][..l] == labels[..l];
      var name := labels[l];
      assert CollectedAt(collected, name, Named(inputs, name), listed);
      if name in collected {
        rows := rows + [FigureRow(name, collected[name].value, collected[name].refs)];
      }
    }
    assert labels[..|labels|] == labels;
  }

  /** The table: the labelled figures that occur as inputs, in label order, each with its first value
      and a chip for every reference behind it, none twice.  `listed` are the names that the check
      `name in FINANCIAL_FIGURE_LABELS` accepts; in JavaScript these are the labels and the names
      that every object inherits, which the table leaves out again. */
  method FigureRows(results: seq<CalculatorResult>, listed: set<string>) returns (rows: seq<FigureRow>)
    requires forall name <- FINANCIAL_FIGURE_LABELS :: name in listed
    ensures rows == Rows(FINANCIAL_FIGURE_LABELS, AllInputs(results))
  {
    var collected: map<string, Figure> := map[];
    for r := 0 to |results|
      invariant Collected(collected, AllInputs(results[..r]), listed)
    {
      assert results[..r + 1][..r] == results[..r];
      collected := CollectResult(collected, results[r].inputs, AllInputs(results[..r]), listed);
    }
    assert results[..|results|] == results;
    rows := RowsOf(FINANCIAL_FIGURE_LABELS, collected, AllInputs(results), listed);
  }

  // ---------- what the table therefore guarantees ----------

  lemma {:induction false} RefsOfInputs(inputs: seq<CalculatorInput>, ref: FactRef)
    ensures ref in AllRefs(inputs) <==> exists input <- inputs :: ref in input.factRefs
    decreases |inputs|
  {
    if inputs != [] { RefsOfInputs(inputs[..|inputs| - 1], ref); }
  }

  lemma {:induction false} NamedInputs(inputs: seq<CalculatorInput>, name: string)
    ensures forall input :: input in Named(inputs, name) <==> input in inputs && input.name == name
    decreases |inputs|
  {
    if inputs != [] { NamedInputs(inputs[..|inputs| - 1], name); }
  }

  lemma {:induction false} FirstValueIsFirst(inputs: seq<CalculatorInput>)
    ensures FirstValue(inputs).None? <==> forall input <- inputs :: input.value.None?
    ensures FirstValue(inputs).Some? ==> exists k :: 0 <= k < |inputs| && inputs[k].value == FirstValue(inputs)
                                                    && forall j :: 0 <= j < k ==> inputs[j].value.None?
    decreases |inputs|
  {
    if inputs != [] {
      var init := inputs[..|inputs| - 1];
      FirstValueIsFirst(init);
      if FirstValue(init).Some? {
        var k :| 0 <= k < |init| && init[k].value == FirstValue(init) && forall j :: 0 <= j < k ==> init[j].value.None?;
        assert inputs[k].value == FirstValue(inputs);
        assert init[k] in inputs;
      } else {
        assert forall j :: 0 <= j < |init| ==> init[j] in init;
      }
    }
  }

  lemma ChipsHaveDistinctKeys(refs: seq<FactRef>)
    ensures forall i, j :: 0 <= i < j < |Distinct(refs)| ==> Key(Distinct(refs)[i]) != Key(Distinct(refs)[j])
  {
    DistinctHasNoRepeats(refs);
    forall i, j | 0 <= i < j < |Distinct(refs)| ensures Key(Distinct(refs)[i]) != Key(Distinct(refs)[j]) {
      KeyIsInjective(Distinct(refs)[i], Distinct(refs)[j]);
    }
  }

  /** A row of the table: its name is a label and occurs as an input, its value is the first one that
      is not null among the inputs of that name, and null only if they all are; no two of its chips have
      the same key, and its chips are those of exactly the references of these inputs. */
  lemma {:induction false} RowsGuarantee(labels: seq<string>, inputs: seq<CalculatorInput>, k: nat)
    requires k < |Rows(labels, inputs)|
    ensures var row := Rows(labels, inputs)[k];
            && row.name in labels
            && (exists input <- inputs :: input.name == row.name)
            && row.value == FirstValue(Named(inputs, row.name))
            && (row.value.None? <==> forall input <- inputs :: input.name == row.name ==> input.value.None?)
            && (forall i, j :: 0 <= i < j < |row.chips| ==> row.chips[i].key != row.chips[j].key)
            && (forall ref :: FactRefChip(ref) in row.chips
                              <==> exists input <- inputs :: input.name == row.name && ref in input.factRefs)
    decreases |labels|
  {
    var init, name := labels[..|labels| - 1], labels[|labels| - 1];
    if k < |Rows(init, inputs)| {
      RowsGuarantee(init, inputs, k);
    } else {
      var mine := Named(inputs, name);
      NamedInputs(inputs, name);
      assert mine[0] in mine;
      FirstValueIsFirst(mine);
      ChipsHaveDistinctKeys(AllRefs(mine));
      var row := Rows(labels, inputs)[k];
      forall ref
        ensures FactRefChip(ref) in row.chips <==> exists input <- inputs :: input.name == name && ref in input.factRefs
      {
        RefsOfInputs(mine, ref);
        ChipListed(Distinct(AllRefs(mine)), ref);
      }
    }
  }

  lemma ChipsOf(refs: seq<FactRef>, kind: FactKind, refId: string)
    ensures (exists chip <- Map(refs, FactRefChip) :: chip.kindLabel == kind && chip.refId == refId)
            <==> FactRef(kind, refId) in refs
  {
    var chips := Map(refs, FactRefChip);
    if chip :| chip in chips && chip.kindLabel == kind && chip.refId == refId {
      var j :| 0 <= j < |refs| && chips[j] == chip;
      assert refs[j] == FactRef(kind, refId);
    }
    if FactRef(kind, refId) in refs {
      var j :| 0 <= j < |refs| && refs[j] == FactRef(kind, refId);
      assert chips[j] in chips;
    }
  }

  /** The chips of a row show the kinds and ids of exactly the references behind it. */
  lemma {:induction false} ChipsShowReferences(labels: seq<string>, inputs: seq<CalculatorInput>, k: nat,
                                               kind: FactKind, refId: string)
    requires k < |Rows(labels, inputs)|
    ensures var row := Rows(labels, inputs)[k];
            (exists chip <- row.chips :: chip.kindLabel == kind && chip.refId == refId)
            <==> exists input <- inputs :: input.name == row.name && FactRef(kind, refId) in input.factRefs
    decreases |labels|
  {
    var init, name := labels[..|labels| - 1], labels[|labels| - 1];
    if k < |Rows(init, inputs)| {
      ChipsShowReferences(init, inputs, k, kind, refId);
    } else {
      NamedInputs(inputs, name);
      RefsOfInputs(Named(inputs, name), FactRef(kind, refId));
      ChipsOf(Distinct(AllRefs(Named(inputs, name))), kind, refId);
    }
  }

  /** The rows are those of the labels that occur as inputs, in label order. */
  lemma {:induction false} RowNames(labels: seq<string>, inputs: seq<CalculatorInput>)
    ensures Map(Rows(labels, inputs), (row: FigureRow) => row.name)
            == Filter(labels, name => exists input <- inputs :: input.name == name)
    decreases |labels|
  {
    if labels != [] {
      var name := labels[|labels| - 1];
      RowNames(labels[..|labels| - 1], inputs);
      NamedInputs(inputs, name);
      if Named(inputs, name) != [] { assert Named(inputs, name)[0] in inputs; }
    }
  }

  // ---------- mitigants ----------

  datatype RiskItem = RiskItem(riskId: string, description: string)

  /** The mitigants of a risk, in their order. */
  function OfRisk(mitigants: seq<RiskItem>, riskId: string): seq<RiskItem> {
    if mitigants == [] then []
    else
      var init, last := OfRisk(mitigants[..|mitigants| - 1], riskId), mitigants[|mitigants| - 1];
      if last.riskId == riskId then init + [last] else init
  }

  function Lookup(grouped: map<string, seq<RiskItem>>, riskId: string): seq<RiskItem> {
    if riskId in grouped then grouped[riskId] else []
  }

  /** Looking a risk up gives its mitigants, and no list is empty. */
  ghost predicate GroupedByRisk(grouped: map<string, seq<RiskItem>>, mitigants: seq<RiskItem>) {
    && (forall riskId :: Lookup(grouped, riskId) == OfRisk(mitigants, riskId))
    && (forall riskId <- grouped :: grouped[riskId] != [])
  }

  lemma OfRiskAppends(mitigants: seq<RiskItem>, m: RiskItem, riskId: string)
    ensures OfRisk(mitigants + [m], riskId) == OfRisk(mitigants, riskId) + if m.riskId == riskId then [m] else []
  {
    assert (mitigants + [m])[..|mitigants|] == mitigants;
  }

  lemma GroupedAfter(grouped: map<string, seq<RiskItem>>, mitigants: seq<RiskItem>, m: RiskItem)
    requires GroupedByRisk(grouped, mitigants)
    ensures GroupedByRisk(grouped[m.riskId := Lookup(grouped, m.riskId) + [m]], mitigants + [m])
  {
    var more := grouped[m.riskId := Lookup(grouped, m.riskId) + [m]];
    forall riskId: string ensures Lookup(more, riskId) == OfRisk(mitigants + [m], riskId) {
      OfRiskAppends(mitigants, m, riskId);
      assert Lookup(grouped, riskId) == OfRisk(mitigants, riskId);
    }
  }

  /** mitigantsByRisk. */
  method MitigantsByRisk(mitigants: seq<RiskItem>) returns (grouped: map<string, seq<RiskItem>>)
    ensures GroupedByRisk(grouped, mitigants)
  {
    grouped := map[];
    for k := 0 to |mitigants|
      invariant GroupedByRisk(grouped, mitigants[..k])
    {
      assert mitigants[..k + 1] == mitigants[..k] + [mitigants[k]];
      var mitigant := mitigants[k];
      GroupedAfter(grouped, mitigants[..k], mitigant);
      var list := Lookup(grouped, mitigant.riskId);
      grouped := grouped[mitigant.riskId := list + [mitigant]];
    }
    assert mitigants[..|mitigants|] == mitigants;
  }
}
