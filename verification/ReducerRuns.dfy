/** Whole envelope streams through the registry, and the stream of a run from the loop to the cell. */
module ReducerRuns {
  import opened Text
  import opened Translator
  import opened TranslatorRuns
  import opened Reducer

  function DeliverAll(reg: Registry, es: seq<Envelope>): (now: Registry)
    requires reg.Valid()
    ensures now.Valid() && now.reducers == reg.reducers && now.byMessageId == reg.byMessageId && now.cells.Keys == reg.cells.Keys
  {
    if es == [] then reg else DeliverAll(reg, es[..|es| - 1]).Deliver(es[|es| - 1])
  }

  // ---------------------------------------------------------------- what a cell shows

  function ShowOne(content: string, w: Wire): string {
    if w.CellStart? then "" else if w.CellUpdate? then content + w.delta else content
  }

  function Shown(content: string, ws: seq<Wire>): string {
    if ws == [] then content else ShowOne(Shown(content, ws[..|ws| - 1]), ws[|ws| - 1])
  }

  predicate NamesMessage(e: Envelope, messageId: string) { e.event.Stream? && e.event.wire.messageId == messageId }

  /** The wires that may change what reducer `r` shows: they name its message and are routed to it. */
  function Reaching(reg: Registry, r: RunReducer, es: seq<Envelope>): seq<Wire> {
    if es == [] then []
    else
      var last := es[|es| - 1];
      Reaching(reg, r, es[..|es| - 1]) +
      (if NamesMessage(last, r.messageId) && reg.Target(last) == Some(r) then [last.event.wire] else [])
  }

  lemma ApplyShows(runId: string, messageId: string, c: Cell, e: Envelope)
    requires !c.disposed
    ensures var d := Reducer.Apply(runId, messageId, c, e).0;
            && !d.disposed
            && d.content == if e.event.Stream? && e.event.wire.messageId == messageId then ShowOne(c.content, e.event.wire) else c.content
  {
  }

  lemma DeliverShows(reg: Registry, r: RunReducer, e: Envelope)
    requires reg.Valid() && r in reg.cells && !reg.cells[r].disposed
    ensures var cell := reg.Deliver(e).cells[r];
            && !cell.disposed
            && cell.content == if NamesMessage(e, r.messageId) && reg.Target(e) == Some(r)
                               then ShowOne(reg.cells[r].content, e.event.wire) else reg.cells[r].content
  {
    hide Reducer.Apply;
    ApplyShows(r.runId, r.messageId, reg.cells[r], e);
  }

  /**
   * However many runs stream at once, what one cell shows is made of the envelopes that name its own
   * message and of nothing else.
   */
  lemma {:induction false} CellsDoNotMix(reg: Registry, r: RunReducer, es: seq<Envelope>)
    requires reg.Valid() && r in reg.cells && !reg.cells[r].disposed
    ensures var cell := DeliverAll(reg, es).cells[r];
            !cell.disposed && cell.content == Shown(reg.cells[r].content, Reaching(reg, r, es))
  {
    hide Registry.Deliver, Registry.Valid, ShowOne;
    if es != [] {
      var before, last := es[..|es| - 1], es[|es| - 1];
      CellsDoNotMix(reg, r, before);
      var mid := DeliverAll(reg, before);
      var wires := Reaching(reg, r, before);
      DeliverShows(mid, r, last);
      if NamesMessage(last, r.messageId) && reg.Target(last) == Some(r) {
        assert (wires + [last.event.wire])[..|wires|] == wires;
      } else {
        assert wires + [] == wires;
      }
    }
  }

  /** Found under its own run id and its own message. */
  ghost predicate Registered(reg: Registry, r: RunReducer) {
    && r.runId in reg.reducers && reg.reducers[r.runId] == r
    && r.messageId in reg.byMessageId && reg.byMessageId[r.messageId] == r
  }

  /** An envelope that names a registered message is lost to it exactly when another run owns its run id. */
  lemma NamedButLostIff(reg: Registry, r: RunReducer, e: Envelope)
    requires reg.Valid() && Registered(reg, r) && NamesMessage(e, r.messageId)
    ensures reg.Target(e) == Some(r) <==> !(e.runId in reg.reducers && e.runId != r.runId)
    ensures reg.Target(e) != Some(r) ==> reg.Deliver(e).cells[r] == reg.cells[r]
  {
  }

  /** Between any two runs on the channel: an update for one, under the other's run id, reaches neither. */
  lemma NamedCanBeLost(reg: Registry, r: RunReducer, other: RunReducer, delta: string)
    requires reg.Valid() && Registered(reg, r) && Registered(reg, other) && r != other
    ensures reg.Deliver(Envelope(other.runId, Stream(CellUpdate(r.messageId, delta)))) == reg
  {
    hide FoldWire;
    assert reg.cells == reg.cells[other := reg.cells[other]];
  }

  /** The wires of one message, in the order they came in. */
  function Naming(es: seq<Envelope>, messageId: string): seq<Wire> {
    if es == [] then []
    else
      var last := es[|es| - 1];
      Naming(es[..|es| - 1], messageId) + (if NamesMessage(last, messageId) then [last.event.wire] else [])
  }

  lemma {:induction false} AllNamedReach(reg: Registry, r: RunReducer, es: seq<Envelope>)
    requires reg.Valid() && Registered(reg, r)
    requires forall e :: e in es && NamesMessage(e, r.messageId) ==> !(e.runId in reg.reducers && e.runId != r.runId)
    ensures Reaching(reg, r, es) == Naming(es, r.messageId)
  {
    hide Registered;
    if es != [] {
      var last := es[|es| - 1];
      assert last in es;
      AllNamedReach(reg, r, es[..|es| - 1]);
      if NamesMessage(last, r.messageId) { NamedButLostIff(reg, r, last); }
    }
  }

  // ---------------------------------------------------------------- one run, end to end

  function Follow(c: Cell, ws: seq<Wire>): Cell {
    if ws == [] then c else FoldWire(Follow(c, ws[..|ws| - 1]), ws[|ws| - 1])
  }

  lemma {:induction false} FollowShows(c: Cell, ws: seq<Wire>)
    ensures Follow(c, ws).content == Shown(c.content, ws)
  {
    if ws != [] { FollowShows(c, ws[..|ws| - 1]); }
  }

  /**
   * Which envelopes a reducer takes for its own: those that name its message and no others that name one; of
   * the rest, those under the caller's id or the one it has learnt, and the plan that echoes the caller's.
   */
  lemma ConsumedIff(runId: string, messageId: string, c: Cell, e: Envelope)
    ensures Reducer.Apply(runId, messageId, c, e).1 <==>
            && !c.disposed
            && if e.event.Stream? then e.event.wire.messageId == messageId
               else if e.event.RunStage? && e.event.stageMessageId.Some? then e.event.stageMessageId.value == messageId
               else if e.event.PlanReady? then e.event.correlationId == runId || c.actualRunId == Some(e.runId)
               else e.runId == runId || c.actualRunId == Some(e.runId)
  {
  }

  /** The server's id is learnt from a plan that echoes the caller's, and once only from an event that names the message. */
  lemma LearntIff(runId: string, messageId: string, c: Cell, e: Envelope)
    ensures var d := Reducer.Apply(runId, messageId, c, e).0;
            var echoed := e.event.PlanReady? && e.event.correlationId == runId;
            var named := (e.event.Stream? && e.event.wire.messageId == messageId)
                         || (e.event.RunStage? && e.event.stageMessageId == Some(messageId));
            d.actualRunId ==
              if !c.disposed && (echoed || (named && c.actualRunId.None? && e.runId != runId)) then Some(e.runId) else c.actualRunId
    ensures !(e.event.Stream? && e.event.wire.messageId == messageId && !c.disposed) ==>
              Reducer.Apply(runId, messageId, c, e).0 == c.(actualRunId := Reducer.Apply(runId, messageId, c, e).0.actualRunId)
  {
  }

  /** The registry asks for the run id, and then for the message, of those events that name one. */
  lemma RoutedByRunThenMessage(reg: Registry, e: Envelope)
    ensures reg.Target(e) ==
            if e.runId in reg.reducers then Some(reg.reducers[e.runId])
            else if e.event.Stream? && e.event.wire.messageId in reg.byMessageId then Some(reg.byMessageId[e.event.wire.messageId])
            else if e.event.RunStage? && e.event.stageMessageId.Some? && e.event.stageMessageId.value in reg.byMessageId
            then Some(reg.byMessageId[e.event.stageMessageId.value])
            else None
  {
  }

  /** So a plan reaches a reducer only under the caller's own id, and can teach it no other. */
  lemma PlanTeachesOnlyTheCallersId(reg: Registry, r: RunReducer, e: Envelope)
    requires reg.Valid() && Registered(reg, r) && e.event.PlanReady? && reg.Target(e) == Some(r)
    ensures e.runId == r.runId
    ensures e.event.correlationId == r.runId && !reg.cells[r].disposed ==> reg.Deliver(e).cells[r].actualRunId == Some(r.runId)
  {
  }

  /** A run's own envelopes, under whatever run id the server stamps, are all followed. */
  lemma OwnWireIsFollowed(runId: string, messageId: string, c: Cell, serverId: string, w: Wire)
    requires !c.disposed && w.messageId == messageId
    ensures var d := Reducer.Apply(runId, messageId, c, Envelope(serverId, Stream(w))).0;
            d.(actualRunId := None) == FoldWire(c, w).(actualRunId := None) && !d.disposed
  {
  }

  lemma {:induction false} ShownWithoutStart(content: string, ws: seq<Wire>)
    requires Starts(ws) == 0
    ensures Shown(content, ws) == content + Updates(ws)
  {
    if ws == [] {
      assert content + "" == content;
    } else {
      ShownWithoutStart(content, ws[..|ws| - 1]);
    }
  }

  lemma {:induction false} ShownAppend(content: string, xs: seq<Wire>, ys: seq<Wire>)
    ensures Shown(content, xs + ys) == Shown(Shown(content, xs), ys)
  {
    if ys == [] {
      assert xs + ys == xs;
    } else {
      ShownAppend(content, xs, ys[..|ys| - 1]);
      assert (xs + ys)[..|xs + ys| - 1] == xs + ys[..|ys| - 1];
    }
  }

  lemma StartOfOne(w: Wire)
    ensures Starts([w]) == (if w.CellStart? then 1 else 0) && Shown("", [w]) == ShowOne("", w)
  {
    assert [w][..0] == [];
    assert Count([w], IsStart) == Count([], IsStart) + if IsStart(w) then 1 else 0;
  }

  /** Whatever the loop does once it has opened a message, the cell shows all the text sent for it, and only that. */
  lemma CellShowsWhatIsSent(id: string, calls: seq<Call>)
    requires calls != [] && OpensMessage(calls[0])
    ensures Shown("", Run(id, calls).wires) == Updates(Run(id, calls).wires)
  {
    hide RunFrom, Updates, Count, Shown;
    var opening, rest := [On(MessageStart(true), calls[0].at)], calls[1..];
    assert calls == opening + rest;
    OpeningStep(id, FRESH, calls[0].at);
    RunSplits(id, FRESH, opening, rest);
    var tail := RunFrom(id, RunFrom(id, FRESH, opening).state, rest).wires;
    assert Run(id, calls).wires == [CellStart(id)] + tail;
    Lifecycle(id, calls);
    CountAppend([CellStart(id)], tail, IsStart);
    StartOfOne(CellStart(id));
    UpdatesOfOne(CellStart(id));
    UpdatesAppend([CellStart(id)], tail);
    ShownAppend("", [CellStart(id)], tail);
    ShownWithoutStart("", tail);
  }

  /**
   * End to end: over any number of turns, with reasoning and tool calls anywhere between the pieces of
   * a block, the cell shows the finished texts of the blocks, in order, once each.
   */
  lemma CellShowsTheRun(id: string, messages: seq<Message>)
    requires messages != [] && forall m :: m in messages ==> m.Good()
    ensures Follow(EMPTY, Run(id, RunCalls(messages)).wires).content == RunText(messages)
  {
    hide RunFrom, Updates, Message.Good, Shown, SegmentCalls, RunText;
    RunOpensMessage(messages);
    CellShowsWhatIsSent(id, RunCalls(messages));
    FollowShows(EMPTY, Run(id, RunCalls(messages)).wires);
    RunIsExact(id, FRESH, messages);
  }

  lemma RunOpensMessage(messages: seq<Message>)
    requires messages != []
    ensures var calls := RunCalls(messages); calls != [] && OpensMessage(calls[0])
  {
  }

  /**
   * The same with any number of other runs on the channel: a fresh registered cell whose run's translator
   * wrote all that names its message shows that run's text, as long as no other run's id is on it.
   */
  lemma RegisteredCellShowsItsRun(reg: Registry, r: RunReducer, es: seq<Envelope>, calls: seq<Call>)
    requires reg.Valid() && Registered(reg, r) && reg.cells[r] == EMPTY
    requires calls != [] && OpensMessage(calls[0]) && Naming(es, r.messageId) == Run(r.messageId, calls).wires
    requires forall e :: e in es && NamesMessage(e, r.messageId) ==> !(e.runId in reg.reducers && e.runId != r.runId)
    ensures DeliverAll(reg, es).cells[r].content == Updates(Run(r.messageId, calls).wires)
    ensures forall messages: seq<Message> :: calls == RunCalls(messages) && (forall m :: m in messages ==> m.Good()) ==>
              DeliverAll(reg, es).cells[r].content == RunText(messages)
  {
    hide Run, Updates, Shown, Naming, Reaching, Message.Good, RunText, RunCalls, OpensMessage;
    CellsDoNotMix(reg, r, es);
    AllNamedReach(reg, r, es);
    CellShowsWhatIsSent(r.messageId, calls);
    forall messages: seq<Message> | calls == RunCalls(messages) && forall m :: m in messages ==> m.Good()
      ensures Updates(Run(r.messageId, calls).wires) == RunText(messages)
    {
      RunIsExact(r.messageId, FRESH, messages);
      RunStartsFresh(r.messageId, calls);
    }
  }

  lemma RunStartsFresh(id: string, calls: seq<Call>)
    ensures Run(id, calls) == RunFrom(id, FRESH, calls)
  {
  }

  /** What is handed over as final is what the cell showed when the cell was closed. */
  lemma {:induction false} FinalIsWhatWasShown(c: Cell, before: seq<Wire>, end: Wire, after: seq<Wire>)
    requires c.finalContent.None? && Ends(before) == 0 && end.CellEnd?
    ensures Follow(c, before + [end] + after).finalContent == Some(Shown(c.content, before))
    decreases |after|
  {
    var all := before + [end] + after;
    if after == [] {
      assert all[..|all| - 1] == before && all[|all| - 1] == end;
      FollowShows(c, before);
      NotFinalBeforeEnd(c, before);
    } else {
      assert all[..|all| - 1] == before + [end] + after[..|after| - 1];
      FinalIsWhatWasShown(c, before, end, after[..|after| - 1]);
    }
  }

  lemma {:induction false} NotFinalBeforeEnd(c: Cell, ws: seq<Wire>)
    requires c.finalContent.None? && Ends(ws) == 0
    ensures Follow(c, ws).finalContent.None?
  {
    if ws != [] { NotFinalBeforeEnd(c, ws[..|ws| - 1]); }
  }

  /**
   * So the handed-over answer is the whole answer exactly when nothing is streamed behind the end, as a
   * turn asked for after it would.
   */
  lemma FinalIsWholeIff(before: seq<Wire>, end: Wire, after: seq<Wire>)
    requires Ends(before) == 0 && end.CellEnd? && Starts(after) == 0
    ensures var cell := Follow(EMPTY, before + [end] + after);
            cell.finalContent == Some(cell.content) <==> Updates(after) == ""
  {
    var shown := Shown("", before);
    FinalIsWhatWasShown(EMPTY, before, end, after);
    FollowShows(EMPTY, before + [end] + after);
    ShownAppend("", before + [end], after);
    ShownAppend("", before, [end]);
    assert [end][..0] == [];
    assert Shown(shown, [end]) == shown;
    ShownWithoutStart(shown, after);
    assert |shown + Updates(after)| == |shown| + |Updates(after)|;
    if Updates(after) == "" { assert shown + "" == shown; }
  }

  /** Over any run whose cell was opened: what is handed over is all that is shown exactly when no call behind the end sends text. */
  lemma RunFinalIsWholeIff(id: string, before: seq<Call>, c: Call, after: seq<Call>)
    requires Run(id, before).state.cellOpen && !Run(id, before).state.cellClosed && Run(id, before + [c]).state.cellClosed
    ensures var cell := Follow(EMPTY, Run(id, before + [c] + after).wires);
            cell.finalContent == Some(cell.content)
            <==> Updates(RunFrom(id, Run(id, before + [c]).state, after).wires) == ""
  {
    hide RunFrom, Count, Follow, Updates, TranslatorRuns.Apply;
    var first := Run(id, before);
    var step := TranslatorRuns.Apply(id, first.state, c);
    var tail := RunFrom(id, Run(id, before + [c]).state, after).wires;
    RunMore(id, before, c);
    RunSplits(id, FRESH, before + [c], after);
    StepShape(id, first.state, c);
    var pre, end := step.wires[..|step.wires| - 1], step.wires[|step.wires| - 1];
    assert first.wires + step.wires + tail == (first.wires + pre) + [end] + tail;
    Lifecycle(id, before);
    Lifecycle(id, before + [c]);
    Lifecycle(id, before + [c] + after);
    StepLifecycle(id, first.state, c);
    assert step.wires == pre + [end];
    CountOnEnd(first.wires, pre, end, tail);
    FinalIsWholeIff(first.wires + pre, end, tail);
  }

  lemma CountOnEnd(front: seq<Wire>, pre: seq<Wire>, end: Wire, tail: seq<Wire>)
    requires end.CellEnd?
    ensures Ends(front + pre) == Ends(front + (pre + [end])) - 1
    ensures Starts(front + (pre + [end]) + tail) == Starts(front + pre) + Starts(tail) == Starts(front + (pre + [end])) + Starts(tail)
  {
    assert front + (pre + [end]) == front + pre + [end];
    StartOfOne(end);
    CountAppend(front + pre, [end], IsEnd);
    CountAppend(front + pre, [end], IsStart);
    CountAppend(front + (pre + [end]), tail, IsStart);
    CountFew(end, end, IsEnd);
  }

  /** A message asked for after the answer was closed is shown behind it, and is no part of what was handed over. */
  lemma FinalCanBePartial(id: string, answer: string, more: string, usage: Usage, at: int)
    requires answer != "" && more != ""
    ensures var start := On(MessageStart(true), at);
            var calls := [start, On(MessageUpdate(true, TextDelta(0, answer)), at), On(MessageEnd(LoopMessage(true, Finished, usage)), at), start]
                         + [On(MessageUpdate(true, TextDelta(0, more)), at)];
            var cell := Follow(EMPTY, Run(id, calls).wires);
            cell.finalContent == Some(answer) && cell.content == answer + more
  {
    hide RunFrom, Follow;
    var start, said := On(MessageStart(true), at), On(MessageUpdate(true, TextDelta(0, answer)), at);
    var end := On(MessageEnd(LoopMessage(true, Finished, usage)), at);
    RunOfFour(id, start, said, end, start);
    RunMore(id, [start, said, end, start], On(MessageUpdate(true, TextDelta(0, more)), at));
    var four, last := Run(id, [start, said, end, start]), CellUpdate(id, more);
    assert four.wires == [CellStart(id), CellUpdate(id, answer), CellEnd(id, Stop, usage)];
    assert four.state.thinkingSince.None?;
    assert four.wires + [last] == [CellStart(id), CellUpdate(id, answer), CellEnd(id, Stop, usage), last];
    assert TranslatorRuns.Apply(id, four.state, On(MessageUpdate(true, TextDelta(0, more)), at)).wires == [last];
    FollowFour(CellStart(id), CellUpdate(id, answer), CellEnd(id, Stop, usage), CellUpdate(id, more));
    assert "" + answer == answer;
  }

  // ---------------------------------------------------------------- live reasoning

  /** All reasoning so far, block after block, as if nothing were ever trimmed. */
  function FullReasoning(ws: seq<Wire>): string {
    if ws == [] then ""
    else
      var before, w := FullReasoning(ws[..|ws| - 1]), ws[|ws| - 1];
      if w.CellThinking? then Grown(before, w.phase, w.thought)
      else before
  }

  ghost predicate IsTail(end: string, full: string) {
    |end| <= |full| && full[|full| - |end|..] == end
  }

  lemma TailsGrow(end: string, full: string, more: string)
    requires IsTail(end, full)
    ensures IsTail(end + more, full + more)
  {
  }

  function AtMost(limit: nat, n: nat): nat { if n < limit then n else limit }

  lemma KeptTailIsTail(end: string, full: string)
    requires IsTail(end, full)
    ensures IsTail(KeepTail(end), full) && |KeepTail(end)| == AtMost(LIVE_REASONING_LIMIT, |end|)
    ensures end != "" ==> KeepTail(end) != ""
  {
  }

  /** The end of the reasoning, shorter than all of it exactly when the cell says so, and then no shorter than the limit. */
  ghost predicate PanelOf(c: Cell, full: string) {
    && IsTail(c.reasoning, full) && (c.reasoning == "" <==> full == "")
    && (c.reasoningTrimmed <==> |c.reasoning| < |full|)
    && (c.reasoningTrimmed ==> |c.reasoning| >= LIVE_REASONING_LIMIT)
  }

  /** All reasoning once a frame has been read. */
  function Grown(full: string, phase: Phase, thought: Option<string>): string {
    (if phase.Started? && full != "" then full + BLOCK_SEPARATOR else full) + (if thought.Some? then thought.value else "")
  }

  lemma PanelOpens(c: Cell, full: string)
    requires PanelOf(c, full) && full != ""
    ensures PanelOf(c.(reasoning := c.reasoning + BLOCK_SEPARATOR), full + BLOCK_SEPARATOR)
  {
    hide IsTail;
    TailsGrow(c.reasoning, full, BLOCK_SEPARATOR);
  }

  lemma PanelSpeaks(c: Cell, full: string, text: string)
    requires PanelOf(c, full) && text != ""
    ensures var grown := c.reasoning + text;
            var d := c.(reasoning := KeepTail(grown), reasoningTrimmed := c.reasoningTrimmed || |grown| > LIVE_REASONING_LIMIT);
            PanelOf(d, full + text) && |d.reasoning| == AtMost(LIVE_REASONING_LIMIT, |full + text|)
  {
    TailIsNoLonger(c.reasoning, full);
    hide IsTail;
    TailsGrow(c.reasoning, full, text);
    KeptTailIsTail(c.reasoning + text, full + text);
  }

  lemma TailIsNoLonger(end: string, full: string)
    requires IsTail(end, full)
    ensures |end| <= |full|
  {
  }

  lemma PanelFolds(c: Cell, full: string, phase: Phase, thought: Option<string>)
    requires PanelOf(c, full)
    ensures var d := FoldThinking(c, phase, thought);
            && PanelOf(d, Grown(full, phase, thought))
            && (thought.Some? && thought.value != "" ==>
                 |d.reasoning| == AtMost(LIVE_REASONING_LIMIT, |Grown(full, phase, thought)|))
  {
    EmptyTogether(c, full);
    hide KeepTail, IsTail, PanelOf;
    var base, b := full, c;
    if phase.Started? && full != "" {
      PanelOpens(c, full);
      base, b := full + BLOCK_SEPARATOR, c.(reasoning := c.reasoning + BLOCK_SEPARATOR);
    }
    assert b.(reasoning := b.reasoning) == b;
    assert base + "" == base;
    if thought.Some? && thought.value != "" { PanelSpeaks(b, base, thought.value); }
  }

  lemma EmptyTogether(c: Cell, full: string)
    requires PanelOf(c, full)
    ensures c.reasoning == "" <==> full == ""
  {
  }

  /** The panel holds the newest end of the reasoning, and says when it is not all of it. */
  lemma {:induction false} PanelIsATail(ws: seq<Wire>)
    ensures PanelOf(Follow(EMPTY, ws), FullReasoning(ws))
  {
    hide FoldThinking, PanelOf;
    if ws == [] {
      assert PanelOf(EMPTY, "") by { EmptyPanel(); }
    } else {
      var before, w := ws[..|ws| - 1], ws[|ws| - 1];
      PanelIsATail(before);
      var c := Follow(EMPTY, before);
      if w.CellThinking? {
        PanelFolds(c, FullReasoning(before), w.phase, w.thought);
      } else {
        PanelReadsReasoningOnly(c, Follow(EMPTY, ws), FullReasoning(ws));
      }
    }
  }

  lemma EmptyPanel()
    ensures PanelOf(EMPTY, "")
  {
  }

  lemma PanelReadsReasoningOnly(c: Cell, d: Cell, full: string)
    requires PanelOf(c, full) && c.reasoning == d.reasoning && c.reasoningTrimmed == d.reasoningTrimmed
    ensures PanelOf(d, full)
  {
  }

  // ---------------------------------------------------------------- how large the panel is

  /** A frame that carries text; only such a frame is trimmed. */
  predicate Speaks(w: Wire) { w.CellThinking? && Delta(w) != "" }

  /** Where the last frame that carries text ends. */
  function LastSpoken(ws: seq<Wire>): (n: nat)
    ensures n <= |ws| && (n > 0 ==> Speaks(ws[n - 1])) && forall k :: n <= k < |ws| ==> !Speaks(ws[k])
  {
    if ws == [] then 0 else if Speaks(ws[|ws| - 1]) then |ws| else LastSpoken(ws[..|ws| - 1])
  }

  /** How many blocks of reasoning open in `ws`. */
  function Openings(ws: seq<Wire>): nat {
    if ws == [] then 0
    else Openings(ws[..|ws| - 1]) + if IsThinkingFrame(ws[|ws| - 1], Started) then 1 else 0
  }

  function PanelSize(ws: seq<Wire>): nat {
    var n := LastSpoken(ws);
    if n == 0 then 0 else AtMost(LIVE_REASONING_LIMIT, |FullReasoning(ws[..n])|) + 2 * Openings(ws[n..])
  }

  lemma NothingSpoken(c: Cell, w: Wire)
    requires !Speaks(w)
    ensures |FoldWire(c, w).reasoning| ==
            |c.reasoning| + if IsThinkingFrame(w, Started) && c.reasoning != "" then 2 else 0
  {
  }

  /**
   * What the panel holds is the limit's worth of the reasoning up to the last frame with text, and a
   * separator for every block opened since: separators alone are never trimmed.
   */
  lemma {:induction false} PanelIsThisLarge(ws: seq<Wire>)
    ensures |Follow(EMPTY, ws).reasoning| == PanelSize(ws)
    ensures LastSpoken(ws) == 0 <==> Follow(EMPTY, ws).reasoning == ""
  {
    hide FoldThinking, PanelOf, FoldWire, FullReasoning, Openings, Speaks, PanelSize;
    if ws == [] {
      NothingYet();
    } else {
      var before, w := ws[..|ws| - 1], ws[|ws| - 1];
      var c := Follow(EMPTY, before);
      PanelIsATail(before);
      PanelIsThisLarge(before);
      assert ws == before + [w];
      if Speaks(w) {
        SpokenFrame(c, before, w);
        SizeWhenSpoken(ws);
      } else {
        NothingSpoken(c, w);
        SizeWhenSilent(before, w);
      }
    }
  }

  lemma NothingYet()
    ensures PanelSize([]) == 0
  {
  }

  lemma SizeWhenSpoken(ws: seq<Wire>)
    requires ws != [] && Speaks(ws[|ws| - 1])
    ensures PanelSize(ws) == AtMost(LIVE_REASONING_LIMIT, |FullReasoning(ws)|)
  {
    hide FullReasoning;
    assert ws[..|ws|] == ws && ws[|ws|..] == [];
  }

  lemma SizeWhenSilent(before: seq<Wire>, w: Wire)
    requires !Speaks(w)
    ensures PanelSize(before + [w]) ==
            PanelSize(before) + if IsThinkingFrame(w, Started) && LastSpoken(before) > 0 then 2 else 0
  {
    hide FullReasoning, Openings, Speaks;
    var ws, n := before + [w], LastSpoken(before);
    assert ws[..|before|] == before;
    assert ws[..n] == before[..n] && ws[n..] == before[n..] + [w];
    OpeningsMore(before[n..], w);
  }

  lemma OpeningsMore(ws: seq<Wire>, w: Wire)
    ensures Openings(ws + [w]) == Openings(ws) + if IsThinkingFrame(w, Started) then 1 else 0
  {
    assert (ws + [w])[..|ws|] == ws;
  }

  lemma SpokenFrame(c: Cell, before: seq<Wire>, w: Wire)
    requires PanelOf(c, FullReasoning(before)) && Speaks(w)
    ensures |FoldWire(c, w).reasoning| == AtMost(LIVE_REASONING_LIMIT, |FullReasoning(before + [w])|)
    ensures FoldWire(c, w).reasoning != ""
  {
    hide PanelOf, FoldThinking;
    assert (before + [w])[..|before|] == before;
    PanelFolds(c, FullReasoning(before), w.phase, w.thought);
    assert |Delta(w)| > 0;
  }

  /** So it is within the limit exactly when no block has been opened since, or there is room for the separators too. */
  lemma PanelWithinLimitIff(ws: seq<Wire>)
    ensures var n := LastSpoken(ws);
            |Follow(EMPTY, ws).reasoning| <= LIVE_REASONING_LIMIT <==>
            n == 0 || Openings(ws[n..]) == 0 || |FullReasoning(ws[..n])| + 2 * Openings(ws[n..]) <= LIVE_REASONING_LIMIT
  {
    hide FullReasoning, Openings, Follow;
    PanelIsThisLarge(ws);
  }

  /** A full block, its end, and the opening of the next one. */
  function FullThenOpen(big: string, at: int): seq<Call> {
    var think := On(MessageUpdate(true, ThinkingStart), at);
    [On(MessageStart(true), at), think, On(MessageUpdate(true, ThinkingDelta(big)), at), On(MessageUpdate(true, ThinkingEnd), at)]
    + [think]
  }

  /** The translator sends what takes the panel over its limit, with nothing said to be missing. */
  lemma PanelCanOverrun(id: string, big: string, at: int)
    requires |big| == LIVE_REASONING_LIMIT
    ensures var cell := Follow(EMPTY, Run(id, FullThenOpen(big, at)).wires);
            |cell.reasoning| == LIVE_REASONING_LIMIT + 2 && !cell.reasoningTrimmed
  {
    hide RunFrom, Follow;
    WiresOfFullThenOpen(id, big, at);
    FollowFour(CellStart(id), CellThinking(id, Started, 0, 0, None), CellThinking(id, Ended, |big|, 0, Some(big)),
               CellThinking(id, Started, 0, 0, None));
  }

  lemma FollowFour(a: Wire, b: Wire, c: Wire, d: Wire)
    ensures Follow(EMPTY, [a, b, c, d]) == FoldWire(FoldWire(FoldWire(FoldWire(EMPTY, a), b), c), d)
  {
    hide FoldWire;
    assert [a, b, c, d][..3] == [a, b, c] && [a, b, c][..2] == [a, b] && [a, b][..1] == [a] && [a][..0] == [];
    assert Follow(EMPTY, [a]) == FoldWire(Follow(EMPTY, []), a);
    assert Follow(EMPTY, [a, b]) == FoldWire(Follow(EMPTY, [a]), b);
  }

  lemma WiresOfFullThenOpen(id: string, big: string, at: int)
    requires |big| == LIVE_REASONING_LIMIT
    ensures Run(id, FullThenOpen(big, at)).wires ==
            [CellStart(id), CellThinking(id, Started, 0, 0, None), CellThinking(id, Ended, |big|, 0, Some(big)),
             CellThinking(id, Started, 0, 0, None)]
  {
    hide RunFrom;
    var start, think := On(MessageStart(true), at), On(MessageUpdate(true, ThinkingStart), at);
    var delta, end := On(MessageUpdate(true, ThinkingDelta(big)), at), On(MessageUpdate(true, ThinkingEnd), at);
    RunOfFour(id, start, think, delta, end);
    RunMore(id, [start, think, delta, end], think);
    assert "" + big == big;
    var four := Run(id, [start, think, delta, end]);
    assert four.wires == [CellStart(id), CellThinking(id, Started, 0, 0, None), CellThinking(id, Ended, |big|, 0, Some(big))];
    assert four.state == FRESH.(cellOpen := true, thinkingTickedAt := at);
  }
}
