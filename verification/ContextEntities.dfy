/** The rows under the meter: what each section holds, what is left over, and what would go first. */
module ContextEntities {

  datatype Section = System | Skill | ToolSchema | Evidence | Notes | Transcript | Compaction | Reserve

  const SECTIONS := [System, Skill, ToolSchema, Evidence, Notes, Transcript, Compaction, Reserve]

  lemma EverySection(s: Section)
    ensures s in SECTIONS
  {
    assert SECTIONS[0] == System && SECTIONS[1] == Skill && SECTIONS[2] == ToolSchema && SECTIONS[3] == Evidence;
    assert SECTIONS[4] == Notes && SECTIONS[5] == Transcript && SECTIONS[6] == Compaction && SECTIONS[7] == Reserve;
  }

  datatype Status = Active | Pending | Summarised | Gone

  datatype Measurement = Exact | Provider | Estimated

  datatype Entity = Entity(
    id: string, section: Section, name: string, tokens: int, measurement: Measurement, status: Status,
    pinned: bool, sequence: int)

  /** Section totals in the order they are listed. */
  type Totals = seq<(Section, int)>

  ghost predicate OncePerSection(totals: Totals) { forall i, j :: 0 <= i < j < |totals| ==> totals[i].0 != totals[j].0 }

  // ---------------------------------------------------------------- rolling up

  /** What is not yet counted, and what is no longer there, counts for nothing. */
  predicate Counts(e: Entity) { !e.status.Pending? && !e.status.Gone? }

  function Share(e: Entity, s: Section): int { if Counts(e) && e.section == s then e.tokens else 0 }

  function Rolled(es: seq<Entity>, s: Section): int {
    if es == [] then 0 else Rolled(es[..|es| - 1], s) + Share(es[|es| - 1], s)
  }

  /** What a section is listed with; nothing for one that is not listed. */
  function TotalOf(totals: Totals, s: Section): int {
    if totals == [] then 0 else if totals[0].0 == s then totals[0].1 else TotalOf(totals[1..], s)
  }

  predicate Lists(totals: Totals, s: Section) { exists k :: 0 <= k < |totals| && totals[k].0 == s }

  lemma {:induction false} TotalAt(totals: Totals, k: nat)
    requires OncePerSection(totals) && k < |totals|
    ensures TotalOf(totals, totals[k].0) == totals[k].1
  {
    if k > 0 {
      assert totals[0].0 != totals[k].0;
      TotalAt(totals[1..], k - 1);
    }
  }

  lemma {:induction false} UnlistedIsNothing(totals: Totals, s: Section)
    requires !Lists(totals, s)
    ensures TotalOf(totals, s) == 0
  {
    if totals != [] {
      assert totals[0].0 != s;
      forall k | 0 <= k < |totals[1..]| ensures totals[1..][k].0 != s {
        assert totals[k + 1].0 != s;
      }
      UnlistedIsNothing(totals[1..], s);
    }
  }

  function WithNew(names: seq<Section>, s: Section): seq<Section> { if s in names then names else names + [s] }

  /** The sections of the entities that count, in the order they first appear. */
  function SeenIn(es: seq<Entity>): seq<Section> {
    if es == [] then []
    else
      var front, last := SeenIn(es[..|es| - 1]), es[|es| - 1];
      if Counts(last) then WithNew(front, last.section) else front
  }

  /** Row by row: a section is new where a row of it counts for the first time. */
  lemma SeenMore(es: seq<Entity>, e: Entity)
    ensures SeenIn(es + [e]) ==
            if (e.status.Active? || e.status.Summarised?) && e.section !in SeenIn(es) then SeenIn(es) + [e.section] else SeenIn(es)
    ensures SeenIn([]) == []
  {
    assert (es + [e])[..|es|] == es;
  }

  /** The table as a record keeps it: a sum under each key, and the keys in the order they came in. */
  method RollUp(es: seq<Entity>) returns (totals: map<Section, int>, keys: seq<Section>)
    ensures forall s: Section :: (if s in totals then totals[s] else 0) == Rolled(es, s)
    ensures keys == SeenIn(es) && forall s :: s in totals <==> s in keys
  {
    totals, keys := map[], [];
    for k := 0 to |es|
      invariant keys == SeenIn(es[..k]) && forall s :: s in totals <==> s in keys
      invariant forall s: Section :: (if s in totals then totals[s] else 0) == Rolled(es[..k], s)
    {
      assert es[..k + 1][..k] == es[..k];
      var e := es[k];
      if e.status.Pending? || e.status.Gone? {
        continue;
      }
      keys := WithNew(keys, e.section);
      totals := totals[e.section := (if e.section in totals then totals[e.section] else 0) + e.tokens];
    }
    assert es[..|es|] == es;
  }

  // ---------------------------------------------------------------- remainders

  const LAST: int := 9007199254740991

  /** The row that says what a section holds beyond its entities, or that they claim too much. */
  function Remainder(section: Section, names: Section -> string, ids: Section -> string, left: int): Entity {
    Entity(ids(section), section, names(section), left, Estimated, if left > 0 then Active else Gone, false, LAST)
  }

  function Remainders(es: seq<Entity>, totals: Totals, names: Section -> string, ids: Section -> string): seq<Entity> {
    if totals == [] then []
    else
      var (s, total) := totals[|totals| - 1];
      Remainders(es, totals[..|totals| - 1], names, ids) +
      if total == Rolled(es, s) then [] else [Remainder(s, names, ids, total - Rolled(es, s))]
  }

  /** `ids` gives a remainder's row its id, `names` what it is called. */
  method WithRemainders(es: seq<Entity>, totals: Totals, names: Section -> string, ids: Section -> string) returns (completed: seq<Entity>)
    ensures completed == es + Remainders(es, totals, names, ids)
  {
    hide Rolled;
    var rolled, _ := RollUp(es);
    completed := es;
    for k := 0 to |totals|
      invariant completed == es + Remainders(es, totals[..k], names, ids)
    {
      assert totals[..k + 1][..k] == totals[..k];
      var (section, total) := totals[k];
      var itemised := if section in rolled then rolled[section] else 0;
      var remainder := total - itemised;
      if remainder != 0 {
        completed := completed + [Remainder(section, names, ids, remainder)];
      } else {
        assert Remainders(es, totals[..k + 1], names, ids) == Remainders(es, totals[..k], names, ids) + [];
      }
    }
    assert totals[..|totals|] == totals;
  }

  lemma {:induction false} RolledAppend(xs: seq<Entity>, ys: seq<Entity>, s: Section)
    ensures Rolled(xs + ys, s) == Rolled(xs, s) + Rolled(ys, s)
  {
    if ys == [] {
      assert xs + ys == xs;
    } else {
      RolledAppend(xs, ys[..|ys| - 1], s);
      assert (xs + ys)[..|xs + ys| - 1] == xs + ys[..|ys| - 1];
    }
  }

  /** What the remainder rows add to a section: its shortfall, where there is one. */
  lemma {:induction false} RemaindersAdd(es: seq<Entity>, totals: Totals, names: Section -> string, ids: Section -> string, s: Section)
    requires OncePerSection(totals)
    ensures Rolled(Remainders(es, totals, names, ids), s) ==
            if Lists(totals, s) && TotalOf(totals, s) > Rolled(es, s) then TotalOf(totals, s) - Rolled(es, s) else 0
  {
    hide Rolled, TotalOf;
    RolledNothing(s);
    if totals != [] {
      var n := |totals| - 1;
      var front, last := totals[..n], totals[n];
      RemaindersAdd(es, front, names, ids, s);
      var row := if last.1 == Rolled(es, last.0) then [] else [Remainder(last.0, names, ids, last.1 - Rolled(es, last.0))];
      RolledAppend(Remainders(es, front, names, ids), row, s);
      if row != [] { RolledOne(row[0], s); }
      TotalAt(totals, n);
      if Lists(front, s) {
        var k :| 0 <= k < n && front[k].0 == s;
        assert totals[k].0 == s != last.0;
        TotalAt(totals, k);
        TotalAt(front, k);
      } else {
        assert Lists(totals, s) <==> last.0 == s;
      }
    } else {
      assert !Lists(totals, s);
    }
  }

  /** One row for each section that differs, in the order they are listed: what is left over, or the over-claim as a row that does not count. */
  lemma {:induction false} RemaindersAppend(es: seq<Entity>, xs: Totals, ys: Totals, names: Section -> string, ids: Section -> string)
    ensures Remainders(es, xs + ys, names, ids) == Remainders(es, xs, names, ids) + Remainders(es, ys, names, ids)
  {
    hide Rolled;
    if ys == [] {
      assert xs + ys == xs;
    } else {
      RemaindersAppend(es, xs, ys[..|ys| - 1], names, ids);
      assert (xs + ys)[..|xs + ys| - 1] == xs + ys[..|ys| - 1];
    }
  }

  lemma RemainderOfOne(es: seq<Entity>, s: Section, total: int, names: Section -> string, ids: Section -> string)
    ensures var rows, left := Remainders(es, [(s, total)], names, ids), total - Rolled(es, s);
            rows == if left == 0 then []
                    else [Entity(ids(s), s, names(s), left, Estimated, if left > 0 then Active else Gone, false, 9007199254740991)]
  {
    hide Rolled;
    assert [(s, total)][..0] == [];
    assert Remainders(es, [(s, total)], names, ids) ==
           Remainders(es, [], names, ids) + if total == Rolled(es, s) then [] else [Remainder(s, names, ids, total - Rolled(es, s))];
  }

  lemma RolledNothing(s: Section)
    ensures Rolled([], s) == 0
  {
  }

  /** Whatever is active or summarised counts for its own section, and nothing else does. */
  lemma RolledOne(e: Entity, s: Section)
    ensures Rolled([e], s) == Share(e, s)
    ensures Rolled([e], s) == if e.section == s && (e.status.Active? || e.status.Summarised?) then e.tokens else 0
  {
    assert [e][..0] == [];
  }

  datatype Mismatch = Mismatch(section: Section, fromEntities: int, fromSection: int)

  /** Every section to be compared, once: those with rows that count, as they first appear, then the others listed. */
  function NamesIn(es: seq<Entity>, totals: Totals): seq<Section> {
    if totals == [] then SeenIn(es) else WithNew(NamesIn(es, totals[..|totals| - 1]), totals[|totals| - 1].0)
  }

  function Mismatches(es: seq<Entity>, totals: Totals, names: seq<Section>): seq<Mismatch> {
    if names == [] then []
    else
      var s := names[|names| - 1];
      Mismatches(es, totals, names[..|names| - 1]) +
      if Rolled(es, s) == TotalOf(totals, s) then [] else [Mismatch(s, Rolled(es, s), TotalOf(totals, s))]
  }

  lemma {:induction false} SeenOnce(es: seq<Entity>, s: Section)
    ensures forall i, j :: 0 <= i < j < |SeenIn(es)| ==> SeenIn(es)[i] != SeenIn(es)[j]
    ensures s !in SeenIn(es) ==> Rolled(es, s) == 0
  {
    if es != [] { SeenOnce(es[..|es| - 1], s); }
  }

  lemma {:induction false} NamedOnce(es: seq<Entity>, totals: Totals, s: Section)
    ensures forall i, j :: 0 <= i < j < |NamesIn(es, totals)| ==> NamesIn(es, totals)[i] != NamesIn(es, totals)[j]
    ensures s !in NamesIn(es, totals) ==> Rolled(es, s) == 0 && !Lists(totals, s)
  {
    hide Rolled;
    if totals == [] {
      SeenOnce(es, s);
    } else {
      var n := |totals| - 1;
      NamedOnce(es, totals[..n], s);
      if s !in NamesIn(es, totals) {
        forall k | 0 <= k < |totals| ensures totals[k].0 != s {
          if k < n { assert totals[..n][k].0 != s; }
        }
      }
    }
  }

  lemma {:induction false} MismatchesAreExact(es: seq<Entity>, totals: Totals, names: seq<Section>)
    requires forall i, j :: 0 <= i < j < |names| ==> names[i] != names[j]
    ensures var ms := Mismatches(es, totals, names);
            && (forall m :: m in ms ==> m.section in names && m.fromEntities == Rolled(es, m.section) && m.fromSection == TotalOf(totals, m.section))
            && (forall s: Section :: (exists m :: m in ms && m.section == s) <==> s in names && Rolled(es, s) != TotalOf(totals, s))
            && (forall i, j :: 0 <= i < j < |ms| ==> ms[i].section != ms[j].section)
  {
    hide Rolled, TotalOf;
    if names != [] {
      var front, s := names[..|names| - 1], names[|names| - 1];
      MismatchesAreExact(es, totals, front);
      assert forall x :: x in names <==> x in front || x == s;
      if Rolled(es, s) != TotalOf(totals, s) {
        var m := Mismatch(s, Rolled(es, s), TotalOf(totals, s));
        assert m in Mismatches(es, totals, names);
        forall x: Section | x in names && Rolled(es, x) != TotalOf(totals, x)
          ensures exists o :: o in Mismatches(es, totals, names) && o.section == x
        {
          if x != s {
            var o :| o in Mismatches(es, totals, front) && o.section == x;
            assert o in Mismatches(es, totals, names);
          }
        }
      } else {
        assert Mismatches(es, totals, names) == Mismatches(es, totals, front);
      }
    }
  }

  /** The sections whose rows disagree with their totals, each once, in the order they are compared. */
  method ReconcileSections(es: seq<Entity>, totals: Totals) returns (mismatched: seq<Mismatch>)
    requires OncePerSection(totals)
    ensures mismatched == Mismatches(es, totals, NamesIn(es, totals))
    ensures forall m :: m in mismatched ==> m.fromEntities == Rolled(es, m.section) && m.fromSection == TotalOf(totals, m.section)
    ensures forall s: Section :: (exists m :: m in mismatched && m.section == s) <==> Rolled(es, s) != TotalOf(totals, s)
    ensures forall i, j :: 0 <= i < j < |mismatched| ==> mismatched[i].section != mismatched[j].section
  {
    hide Rolled, TotalOf, SeenIn, Lists;
    var rolled, names := RollUp(es);
    for k := 0 to |totals|
      invariant names == NamesIn(es, totals[..k])
    {
      assert totals[..k + 1][..k] == totals[..k];
      names := WithNew(names, totals[k].0);
    }
    assert totals[..|totals|] == totals;
    mismatched := [];
    for k := 0 to |names|
      invariant mismatched == Mismatches(es, totals, names[..k])
    {
      assert names[..k + 1][..k] == names[..k];
      var name := names[k];
      var fromEntities := if name in rolled then rolled[name] else 0;
      var fromSection := TotalOf(totals, name);
      if fromEntities != fromSection {
        mismatched := mismatched + [Mismatch(name, fromEntities, fromSection)];
      }
    }
    assert names[..|names|] == names;
    ReconciledExactly(es, totals);
  }

  lemma ReconciledExactly(es: seq<Entity>, totals: Totals)
    ensures var ms := Mismatches(es, totals, NamesIn(es, totals));
            && (forall m :: m in ms ==> m.fromEntities == Rolled(es, m.section) && m.fromSection == TotalOf(totals, m.section))
            && (forall s: Section :: (exists m :: m in ms && m.section == s) <==> Rolled(es, s) != TotalOf(totals, s))
            && (forall i, j :: 0 <= i < j < |ms| ==> ms[i].section != ms[j].section)
  {
    hide Rolled, TotalOf, NamesIn, Mismatches, Lists;
    NamedOnce(es, totals, System);
    MismatchesAreExact(es, totals, NamesIn(es, totals));
    forall s: Section | s !in NamesIn(es, totals) ensures Rolled(es, s) == TotalOf(totals, s) {
      NamedOnce(es, totals, s);
      UnlistedIsNothing(totals, s);
    }
  }

  /**
   * With its remainder rows a section disagrees with its total exactly when its entities over-claim,
   * or when it is not itemised at all and yet has rows.
   */
  lemma ItemisationFailsIff(es: seq<Entity>, totals: Totals, names: Section -> string, ids: Section -> string, s: Section)
    requires OncePerSection(totals)
    ensures Rolled(es + Remainders(es, totals, names, ids), s) != TotalOf(totals, s)
            <==> if Lists(totals, s) then Rolled(es, s) > TotalOf(totals, s) else Rolled(es, s) != 0
  {
    hide Rolled, TotalOf, Lists;
    RolledAppend(es, Remainders(es, totals, names, ids), s);
    RemaindersAdd(es, totals, names, ids, s);
    if !Lists(totals, s) { UnlistedIsNothing(totals, s); }
  }

  // ---------------------------------------------------------------- what goes first

  predicate IsImmovable(s: Section) { s.System? || s.ToolSchema? || s.Notes? || s.Reserve? || s.Compaction? }

  /** Where the protected tail begins: not known, at a sequence number, or nowhere. */
  datatype Boundary = Unknown | From(sequence: int) | Unbounded

  predicate IsCandidate(e: Entity, tail: Boundary) {
    !e.pinned && e.status.Active? && !IsImmovable(e.section) && (tail.Unbounded? || (tail.From? && e.sequence < tail.sequence))
  }

  function Candidates(es: seq<Entity>, tail: Boundary): (r: seq<Entity>)
    ensures forall e :: e in r <==> e in es && IsCandidate(e, tail)
  {
    if es == [] then [] else (if IsCandidate(es[0], tail) then [es[0]] else []) + Candidates(es[1..], tail)
  }

  lemma CandidatesFirst(e: Entity, es: seq<Entity>, tail: Boundary)
    ensures Candidates([e] + es, tail) == (if IsCandidate(e, tail) then [e] else []) + Candidates(es, tail)
    ensures Candidates([], tail) == []
  {
    hide IsCandidate;
    assert ([e] + es)[1..] == es;
  }

  /** Entity by entity and in order. */
  lemma {:induction false} CandidatesAppend(xs: seq<Entity>, ys: seq<Entity>, tail: Boundary)
    ensures Candidates(xs + ys, tail) == Candidates(xs, tail) + Candidates(ys, tail)
  {
    hide IsCandidate, Candidates;
    if xs == [] {
      CandidatesFirst(Entity("", System, "", 0, Exact, Active, false, 0), [], tail);
      assert xs + ys == ys && [] + Candidates(ys, tail) == Candidates(ys, tail);
    } else {
      CandidatesAppend(xs[1..], ys, tail);
      CandidatesFirst(xs[0], xs[1..], tail);
      CandidatesFirst(xs[0], xs[1..] + ys, tail);
      assert xs == [xs[0]] + xs[1..] && xs + ys == [xs[0]] + (xs[1..] + ys);
    }
  }

  /** What may go: skills, evidence and conversation that are active, not pinned, and older than the tail where one is known. */
  lemma MayGoIff(e: Entity, tail: Boundary)
    ensures Candidates([e], tail) ==
            if !e.pinned && e.status.Active? && (e.section.Skill? || e.section.Evidence? || e.section.Transcript?)
               && !tail.Unknown? && (tail.From? ==> e.sequence < tail.sequence)
            then [e] else []
  {
    assert [e][1..] == [];
    assert Candidates([], tail) == [];
  }

  /** Evidence before anything else, then the oldest. */
  predicate Before(a: Entity, b: Entity) {
    if a.section.Evidence? != b.section.Evidence? then a.section.Evidence? else a.sequence < b.sequence
  }

  predicate SamePlace(a: Entity, b: Entity) { a.section.Evidence? == b.section.Evidence? && a.sequence == b.sequence }

  function Insert(e: Entity, plan: seq<Entity>): seq<Entity> {
    if plan == [] then [e] else if Before(plan[0], e) then [plan[0]] + Insert(e, plan[1..]) else [e] + plan
  }

  function Sorted(es: seq<Entity>): seq<Entity> {
    if es == [] then [] else Insert(es[0], Sorted(es[1..]))
  }

  function EvictionPlan(es: seq<Entity>, tail: Boundary): seq<Entity> { Sorted(Candidates(es, tail)) }

  ghost predicate Ordered(plan: seq<Entity>) { forall i, j :: 0 <= i < j < |plan| ==> !Before(plan[j], plan[i]) }

  function AtPlace(es: seq<Entity>, place: Entity): seq<Entity> {
    if es == [] then [] else (if SamePlace(es[0], place) then [es[0]] else []) + AtPlace(es[1..], place)
  }

  lemma {:induction false} InsertKeepsOrder(e: Entity, plan: seq<Entity>)
    requires Ordered(plan)
    ensures Ordered(Insert(e, plan)) && multiset(Insert(e, plan)) == multiset([e]) + multiset(plan)
  {
    if plan != [] && Before(plan[0], e) {
      InsertKeepsOrder(e, plan[1..]);
      var rest := Insert(e, plan[1..]);
      assert plan == [plan[0]] + plan[1..];
      forall k | 0 <= k < |rest| ensures !Before(rest[k], plan[0]) {
        assert rest[k] in multiset(rest);
        if rest[k] != e {
          assert rest[k] in plan[1..];
        }
      }
    }
  }

  lemma {:induction false} InsertIsStable(e: Entity, plan: seq<Entity>, place: Entity)
    requires Ordered(plan)
    ensures AtPlace(Insert(e, plan), place) == (if SamePlace(e, place) then [e] else []) + AtPlace(plan, place)
  {
    if plan != [] && Before(plan[0], e) {
      InsertIsStable(e, plan[1..], place);
      assert ([plan[0]] + Insert(e, plan[1..]))[1..] == Insert(e, plan[1..]);
    } else {
      assert ([e] + plan)[1..] == plan;
    }
  }

  lemma {:induction false} SortedIsOrdered(es: seq<Entity>)
    ensures Ordered(Sorted(es)) && multiset(Sorted(es)) == multiset(es)
  {
    if es != [] {
      SortedIsOrdered(es[1..]);
      InsertKeepsOrder(es[0], Sorted(es[1..]));
      assert es == [es[0]] + es[1..];
    }
  }

  lemma {:induction false} SortedIsStable(es: seq<Entity>, place: Entity)
    ensures AtPlace(Sorted(es), place) == AtPlace(es, place)
  {
    if es != [] {
      SortedIsStable(es[1..], place);
      SortedIsOrdered(es[1..]);
      InsertIsStable(es[0], Sorted(es[1..]), place);
    }
  }

  /**
   * The plan is a permutation of the unpinned active movable entities before the protected tail,
   * evidence first and then oldest, with ties left in the order they were registered.
   */
  lemma PlanIsTheOrder(es: seq<Entity>, tail: Boundary)
    ensures var plan := EvictionPlan(es, tail);
            && multiset(plan) == multiset(Candidates(es, tail)) && Ordered(plan)
            && (forall i, j :: 0 <= i < j < |plan| ==>
                  && (plan[j].section.Evidence? ==> plan[i].section.Evidence?)
                  && (plan[i].section.Evidence? == plan[j].section.Evidence? ==> plan[i].sequence <= plan[j].sequence))
            && (forall place: Entity :: AtPlace(plan, place) == AtPlace(Candidates(es, tail), place))
            && (tail.Unknown? ==> plan == [])
  {
    hide IsCandidate;
    SortedIsOrdered(Candidates(es, tail));
    forall place: Entity ensures AtPlace(EvictionPlan(es, tail), place) == AtPlace(Candidates(es, tail), place) {
      SortedIsStable(Candidates(es, tail), place);
    }
    if tail.Unknown? { NothingPromised(es); }
  }

  lemma {:induction false} NothingPromised(es: seq<Entity>)
    ensures Candidates(es, Unknown) == []
  {
    if es != [] { NothingPromised(es[1..]); }
  }
}
