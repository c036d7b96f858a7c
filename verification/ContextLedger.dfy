/** The meter: tokens per section, the rows behind them, and the drift between estimates and measured counts. */
module ContextLedger {
  import opened Text
  import opened ContextEntities
  import Pruning

  datatype Reconciliation = Reconciliation(
    turn: nat, at: string, estimatedIn: int, actualIn: Option<int>, actualOut: Option<int>, driftRatio: Option<real>)

  datatype Snapshot = Snapshot(
    sections: map<Section, int>, occupied: int, committed: int, window: int, headroom: int, compactions: nat,
    entities: seq<Entity>, reconciliations: seq<Reconciliation>, itemisationErrors: seq<Mismatch>)

  function Max(a: int, b: int): int { if a < b then b else a }

  ghost predicate Total(sections: map<Section, int>) { forall s: Section :: s in sections && sections[s] >= 0 }

  /** Everything but the reserve. */
  function Occupied(sections: map<Section, int>): int
    requires Total(sections)
  {
    sections[System] + sections[Skill] + sections[ToolSchema] + sections[Evidence] + sections[Notes] + sections[Transcript]
    + sections[Compaction]
  }

  /** Every section but the reserve counts in full. */
  lemma OccupiedIsAllButTheReserve(sections: map<Section, int>, s: Section, tokens: nat)
    requires Total(sections)
    ensures Total(sections[s := tokens])
    ensures Occupied(sections[s := tokens]) == Occupied(sections) + if s == Reserve then 0 else tokens - sections[s]
    ensures (forall x: Section :: sections[x] == 0) ==> Occupied(sections) == 0
  {
  }

  /** The sections that are itemised, in their order: all but the reserve. */
  function Itemisable(sections: map<Section, int>): (totals: Totals)
    requires Total(sections)
    ensures OncePerSection(totals) && forall s: Section :: Lists(totals, s) <==> s != Reserve
    ensures forall s: Section :: s != Reserve ==> TotalOf(totals, s) == sections[s]
  {
    var totals := [(System, sections[System]), (Skill, sections[Skill]), (ToolSchema, sections[ToolSchema]),
                   (Evidence, sections[Evidence]), (Notes, sections[Notes]), (Transcript, sections[Transcript]),
                   (Compaction, sections[Compaction])];
    assert forall s: Section :: s != Reserve ==> Lists(totals, s) && TotalOf(totals, s) == sections[s] by {
      ItemisableLists(sections, totals);
    }
    totals
  }

  lemma ItemisableLists(sections: map<Section, int>, totals: Totals)
    requires Total(sections)
    requires totals == [(System, sections[System]), (Skill, sections[Skill]), (ToolSchema, sections[ToolSchema]),
                        (Evidence, sections[Evidence]), (Notes, sections[Notes]), (Transcript, sections[Transcript]),
                        (Compaction, sections[Compaction])]
    ensures forall s: Section :: s != Reserve ==> Lists(totals, s) && TotalOf(totals, s) == sections[s]
  {
    forall s: Section | s != Reserve ensures Lists(totals, s) && TotalOf(totals, s) == sections[s] {
      var k := match s
        case System => 0
        case Skill => 1
        case ToolSchema => 2
        case Evidence => 3
        case Notes => 4
        case Transcript => 5
        case _ => 6;
      assert totals[k].0 == s;
      TotalAt(totals, k);
    }
  }

  ghost predicate OneRowEach(es: seq<Entity>) { forall i, j :: 0 <= i < j < |es| ==> es[i].id != es[j].id }

  function Ratio(actualIn: Option<int>, estimatedIn: int): Option<real> {
    if actualIn.Some? && estimatedIn > 0 then Some(actualIn.value as real / estimatedIn as real) else None
  }

  /** How far an estimate was out: times the estimate it is the count, where both are known. */
  lemma RatioIs(actual: int, estimated: int)
    ensures estimated > 0 ==> Ratio(Some(actual), estimated).Some? && Ratio(Some(actual), estimated).value * estimated as real == actual as real
    ensures estimated <= 0 ==> Ratio(Some(actual), estimated).None?
    ensures Ratio(None, estimated).None?
  {
  }

  class ContextLedger {
    var sections: map<Section, int>
    var window: int
    var compactions: nat
    var entities: seq<Entity>
    var reconciliations: seq<Reconciliation>

    ghost predicate Valid()
      reads this
    {
      Total(sections) && OneRowEach(entities) && window >= 0
    }

    constructor (window: real)
      ensures Valid() && Occupied(sections) == 0 && sections[Reserve] == 0 && entities == [] && reconciliations == [] && compactions == 0
      ensures this.window == Max(0, window.Floor)
    {
      this.window := Max(0, window.Floor);
      sections := map s: Section | s in SectionSet() :: 0;
      compactions, entities, reconciliations := 0, [], [];
    }

    method Set(section: Section, tokens: real)
      requires Valid()
      modifies this`sections
      ensures Valid() && sections == old(sections)[section := Max(0, tokens.Floor)]
    {
      sections := sections[section := Max(0, tokens.Floor)];
    }

    method Add(section: Section, tokens: real)
      requires Valid()
      modifies this`sections
      ensures Valid() && sections == old(sections)[section := Max(0, old(sections)[section] + tokens.Floor)]
    {
      sections := sections[section := Max(0, sections[section] + tokens.Floor)];
    }

    /** How much the estimator has under-counted at worst, between 1 and one and a half. */
    method DriftFactor() returns (d: real)
      ensures 1.0 <= d <= 1.5
      ensures forall r :: r in reconciliations && r.driftRatio.Some? ==> r.driftRatio.value <= d || d == 1.5
      ensures d == 1.0 || exists r :: r in reconciliations && r.driftRatio.Some?
                                      && (r.driftRatio.value == d || (r.driftRatio.value > d == 1.5))
    {
      var worst := 1.0;
      for k := 0 to |reconciliations|
        invariant worst >= 1.0 && forall r :: r in reconciliations[..k] && r.driftRatio.Some? ==> r.driftRatio.value <= worst
        invariant worst == 1.0 || exists r :: r in reconciliations && r.driftRatio == Some(worst)
      {
        var record := reconciliations[k];
        assert record in reconciliations;
        assert forall r :: r in reconciliations[..k + 1] ==> r in reconciliations[..k] || r == record;
        if record.driftRatio.Some? && record.driftRatio.value > worst {
          worst := record.driftRatio.value;
        }
      }
      assert reconciliations[..|reconciliations|] == reconciliations;
      return if worst < 1.5 then worst else 1.5;
    }

    /** Registers an entity, or updates its row; a pin the person set outlives an update that mentions none. */
    method UpsertEntity(e: Entity)
      requires Valid()
      modifies this`entities
      ensures Valid() && entities == Upserted(old(entities), e)
    {
      UpsertKeepsRows(entities, e);
      entities := Upserted(entities, e);
    }

    /** Whatever was pinned before, these ids are afterwards and no others; case does not matter. */
    method ApplyPins(ids: seq<string>)
      requires Valid()
      modifies this`entities
      ensures Valid() && |entities| == |old(entities)|
      ensures forall k :: 0 <= k < |entities| ==>
                entities[k] == old(entities)[k].(
                  pinned := exists j :: 0 <= j < |ids| && Pruning.Upper(ids[j]) == Pruning.Upper(old(entities)[k].id))
    {
      hide Pruning.Upper;
      for k := 0 to |entities|
        invariant |entities| == |old(entities)| && entities[k..] == old(entities)[k..]
        invariant forall j :: 0 <= j < |entities| ==> entities[j].id == old(entities)[j].id
        invariant forall j :: 0 <= j < k ==> entities[j] == old(entities)[j].(pinned := Wanted(ids, old(entities)[j].id))
      {
        assert entities[k] == entities[k..][0] == old(entities)[k..][0];
        var pinned := Wanted(ids, entities[k].id);
        if entities[k].pinned != pinned {
          entities := entities[k := entities[k].(pinned := pinned)];
        }
      }
    }

    method Reconcile(estimatedIn: int, actualIn: Option<int>, actualOut: Option<int>, at: string) returns (record: Reconciliation)
      modifies this`reconciliations
      ensures record == Reconciliation(|old(reconciliations)| + 1, at, estimatedIn, actualIn, actualOut, Ratio(actualIn, estimatedIn))
      ensures reconciliations == old(reconciliations) + [record]
    {
      record := Reconciliation(|reconciliations| + 1, at, estimatedIn, actualIn, actualOut, Ratio(actualIn, estimatedIn));
      reconciliations := reconciliations + [record];
    }

    /** Books the difference to what the provider counted on the transcript, and nowhere else. */
    method ApplyMeasuredInput(actualIn: Option<int>)
      requires Valid()
      modifies this`sections
      ensures Valid() && forall s: Section :: s != Transcript ==> sections[s] == old(sections)[s]
      ensures actualIn.None? ==> sections == old(sections)
      ensures actualIn.Some? ==> Occupied(sections) == Max(actualIn.value, Occupied(old(sections)) - old(sections)[Transcript])
    {
      if actualIn.None? {
        return;
      }
      var others := sections[System] + sections[Skill] + sections[ToolSchema] + sections[Evidence] + sections[Notes] + sections[Compaction];
      sections := sections[Transcript := Max(0, actualIn.value - others)];
    }

    /**
     * One reading. The rows explain the bar: they disagree with a section exactly when its registered
     * entities claim more than it holds, or when something was registered under the reserve.
     */
    method TakeSnapshot(names: Section -> string, ids: Section -> string) returns (snap: Snapshot)
      requires Valid()
      ensures snap.sections == sections && snap.occupied == Occupied(sections) && snap.committed == snap.occupied + sections[Reserve]
      ensures snap.window == window && snap.headroom == if window > 0 then window - snap.committed else 0
      ensures snap.compactions == compactions && snap.reconciliations == reconciliations
      ensures snap.entities == entities + Remainders(entities, Itemisable(sections), names, ids)
      ensures forall s: Section :: (exists m :: m in snap.itemisationErrors && m.section == s)
                <==> if s == Reserve then Rolled(entities, s) != 0 else Rolled(entities, s) > sections[s]
      ensures forall s: Section :: (forall m :: m in snap.itemisationErrors ==> m.section != s) && s != Reserve
                ==> Rolled(snap.entities, s) == sections[s]
      ensures forall m :: m in snap.itemisationErrors ==>
                && m.fromEntities == Rolled(snap.entities, m.section)
                && m.fromSection == (if m.section == Reserve then 0 else sections[m.section])
    {
      hide Rolled, TotalOf, Lists, Itemisable, Remainders;
      var totals := Itemisable(sections);
      var rows := WithRemainders(entities, totals, names, ids);
      var errors := ReconcileSections(rows, totals);
      var occupied := Occupied(sections);
      forall s: Section
        ensures Rolled(rows, s) != TotalOf(totals, s)
                <==> if s == Reserve then Rolled(entities, s) != 0 else Rolled(entities, s) > sections[s]
      {
        ItemisationFailsIff(entities, totals, names, ids, s);
      }
      UnlistedIsNothing(totals, Reserve);
      snap := Snapshot(sections, occupied, occupied + sections[Reserve], window,
                       if window > 0 then window - (occupied + sections[Reserve]) else 0,
                       compactions, rows, reconciliations, errors);
    }
  }

  function SectionSet(): (r: set<Section>)
    ensures forall s: Section :: s in r
  {
    assert forall s: Section :: s in SECTIONS by {
      forall s: Section ensures s in SECTIONS { EverySection(s); }
    }
    set s: Section | s in SECTIONS
  }

  predicate Wanted(ids: seq<string>, id: string) { exists j :: 0 <= j < |ids| && Pruning.Upper(ids[j]) == Pruning.Upper(id) }

  function Upserted(es: seq<Entity>, e: Entity): seq<Entity> {
    if es == [] then [e]
    else if es[0].id == e.id then [e.(pinned := e.pinned || es[0].pinned)] + es[1..]
    else [es[0]] + Upserted(es[1..], e)
  }

  /** One row for each id, in the order they were first registered; only that row changes, and it keeps its pin. */
  lemma {:induction false} UpsertKeepsRows(es: seq<Entity>, e: Entity)
    requires OneRowEach(es)
    ensures var r := Upserted(es, e);
            && OneRowEach(r) && |es| <= |r| <= |es| + 1
            && (forall k :: 0 <= k < |es| ==> r[k] == if es[k].id == e.id then e.(pinned := e.pinned || es[k].pinned) else es[k])
            && (|r| == |es| + 1 <==> forall k :: 0 <= k < |es| ==> es[k].id != e.id)
            && (|r| == |es| + 1 ==> r[|es|] == e)
  {
    if es != [] && es[0].id != e.id {
      UpsertKeepsRows(es[1..], e);
      var r, rest := Upserted(es, e), Upserted(es[1..], e);
      assert forall k :: 0 < k < |es| ==> es[k] == es[1..][k - 1];
      assert forall k :: 0 < k < |r| ==> r[k] == rest[k - 1];
    }
  }
}
