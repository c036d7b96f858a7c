/**
 * The other end of the stream: one reducer per run, and the registry that routes envelopes to them.
 */
module Reducer {
  import opened Text
  import opened Translator

  datatype AgentEvent =
    | PlanReady(correlationId: string)
    | Stream(wire: Wire)
    | RunStage(stageMessageId: Option<string>)
    | OtherEvent

  datatype Envelope = Envelope(runId: string, event: AgentEvent)

  /** The message an event names, if it names one. */
  function EventMessageId(event: AgentEvent): Option<string> {
    match event
    case Stream(wire) => Some(wire.messageId)
    case RunStage(id) => id
    case _ => None
  }

  const LIVE_REASONING_LIMIT := 24000
  const BLOCK_SEPARATOR := "\n\n"

  datatype Cell = Cell(
    content: string, reasoning: string, reasoningTrimmed: bool,
    finalContent: Option<string>, actualRunId: Option<string>, disposed: bool)

  const EMPTY := Cell("", "", false, None, None, false)

  function KeepTail(s: string): string {
    if |s| > LIVE_REASONING_LIMIT then s[|s| - LIVE_REASONING_LIMIT..] else s
  }

  function FoldThinking(c: Cell, phase: Phase, thought: Option<string>): Cell {
    var separated := if phase.Started? && c.reasoning != "" then c.reasoning + BLOCK_SEPARATOR else c.reasoning;
    if thought.Some? && thought.value != "" then
      var grown := separated + thought.value;
      c.(reasoning := KeepTail(grown), reasoningTrimmed := c.reasoningTrimmed || |grown| > LIVE_REASONING_LIMIT)
    else c.(reasoning := separated)
  }

  function FoldWire(c: Cell, wire: Wire): Cell {
    match wire
    case CellStart(_) => c.(content := "")
    case CellUpdate(_, delta) => c.(content := c.content + delta)
    case CellThinking(_, phase, _, _, thought) => FoldThinking(c, phase, thought)
    case CellEnd(_, _, _) => if c.finalContent.Some? then c else c.(finalContent := Some(c.content))
  }

  function Learns(c: Cell, runId: string): Cell { c.(actualRunId := Some(runId)) }

  /** One envelope through one reducer, and whether it was this run's. */
  function Apply(runId: string, messageId: string, c: Cell, e: Envelope): (Cell, bool) {
    if c.disposed then (c, false)
    else if e.event.PlanReady? then
      if e.event.correlationId == runId then (Learns(c, e.runId), true)
      else (c, c.actualRunId == Some(e.runId))
    else
      var named := EventMessageId(e.event);
      var matchesRun := c.actualRunId == Some(e.runId) || e.runId == runId;
      var matchesMessage := named == Some(messageId);
      if !matchesRun && !matchesMessage then (c, false)
      else if named.Some? && named.value != messageId then (c, false)
      else
        var knows := if c.actualRunId.None? && matchesMessage && e.runId != runId then Learns(c, e.runId) else c;
        (if e.event.Stream? then FoldWire(knows, e.event.wire) else knows, true)
  }

  class RunReducer {
    const runId: string
    const messageId: string
    var content: string
    var reasoning: string
    var reasoningTrimmed: bool
    var finalContent: Option<string>
    var actualRunId: Option<string>
    var disposed: bool

    constructor (runId: string, messageId: string)
      ensures this.runId == runId && this.messageId == messageId && Abs() == EMPTY
    {
      this.runId, this.messageId := runId, messageId;
      content, reasoning, reasoningTrimmed := "", "", false;
      finalContent, actualRunId, disposed := None, None, false;
    }

    ghost function Abs(): Cell
      reads this
    {
      Cell(content, reasoning, reasoningTrimmed, finalContent, actualRunId, disposed)
    }

    method ApplyEnvelope(e: Envelope) returns (consumed: bool)
      modifies this
      ensures (Abs(), consumed) == Apply(runId, messageId, old(Abs()), e)
    {
      hide FoldWire;
      if disposed {
        return false;
      }
      if e.event.PlanReady? {
        if e.event.correlationId == runId {
          actualRunId := Some(e.runId);
          return true;
        }
        return actualRunId == Some(e.runId);
      }
      var named := EventMessageId(e.event);
      var matchesRun := actualRunId == Some(e.runId) || e.runId == runId;
      var matchesMessage := named == Some(messageId);
      if !matchesRun && !matchesMessage {
        return false;
      }
      if named.Some? && named.value != messageId {
        return false;
      }
      if actualRunId.None? && matchesMessage && e.runId != runId {
        actualRunId := Some(e.runId);
      }
      if e.event.Stream? {
        ShowWire(e.event.wire);
      }
      return true;
    }

    method ShowWire(wire: Wire)
      modifies this`content, this`reasoning, this`reasoningTrimmed, this`finalContent
      ensures Abs() == FoldWire(old(Abs()), wire)
    {
      hide FoldThinking;
      match wire {
        case CellThinking(_, phase, _, _, thought) =>
          ShowThinking(phase, thought);
        case CellStart(_) =>
          content := "";
        case CellUpdate(_, delta) =>
          content := content + delta;
        case CellEnd(_, _, _) =>
          if finalContent.None? {
            finalContent := Some(content);
          }
      }
    }

    method ShowThinking(phase: Phase, thought: Option<string>)
      modifies this`reasoning, this`reasoningTrimmed
      ensures Abs() == FoldThinking(old(Abs()), phase, thought)
    {
      if phase.Started? && |reasoning| > 0 {
        reasoning := reasoning + BLOCK_SEPARATOR;
      }
      if thought.Some? && |thought.value| > 0 {
        reasoning := reasoning + thought.value;
        if |reasoning| > LIVE_REASONING_LIMIT {
          reasoning := reasoning[|reasoning| - LIVE_REASONING_LIMIT..];
          reasoningTrimmed := true;
        }
      }
    }

    method Dispose()
      modifies this`disposed
      ensures Abs() == old(Abs()).(disposed := true)
    {
      disposed := true;
    }
  }

  /** The registry on values: its two tables, and what each reducer in them holds. */
  datatype Registry = Registry(
    reducers: map<string, RunReducer>, byMessageId: map<string, RunReducer>, cells: map<RunReducer, Cell>)
  {
    ghost predicate Valid() {
      && (forall id :: id in reducers ==> reducers[id].runId == id && reducers[id] in cells)
      && (forall id :: id in byMessageId ==> byMessageId[id].messageId == id && byMessageId[id] in cells)
    }

    /** The run id decides first; only an envelope whose run id nobody registered is routed by message. */
    function Target(e: Envelope): Option<RunReducer> {
      var named := EventMessageId(e.event);
      if e.runId in reducers then Some(reducers[e.runId])
      else if named.Some? && named.value in byMessageId then Some(byMessageId[named.value])
      else None
    }

    function Deliver(e: Envelope): Registry
      requires Valid()
    {
      match Target(e)
      case None => this
      case Some(r) => this.(cells := cells[r := Apply(r.runId, r.messageId, cells[r], e).0])
    }
  }

  class RunReducerRegistry {
    var reducers: map<string, RunReducer>
    var byMessageId: map<string, RunReducer>

    ghost predicate Valid()
      reads this
    {
      && (forall id :: id in reducers ==> reducers[id].runId == id)
      && (forall id :: id in byMessageId ==> byMessageId[id].messageId == id)
    }

    constructor ()
      ensures Valid() && reducers == map[] && byMessageId == map[]
    {
      reducers, byMessageId := map[], map[];
    }

    method Register(reducer: RunReducer)
      requires Valid()
      modifies this
      ensures Valid()
      ensures reducers == old(reducers)[reducer.runId := reducer]
      ensures byMessageId == old(byMessageId)[reducer.messageId := reducer]
    {
      reducers := reducers[reducer.runId := reducer];
      byMessageId := byMessageId[reducer.messageId := reducer];
    }

    method Unregister(reducer: RunReducer)
      requires Valid()
      modifies this, reducer`disposed
      ensures Valid()
      ensures reducers == old(reducers) - {reducer.runId} && byMessageId == old(byMessageId) - {reducer.messageId}
      ensures reducer.Abs() == old(reducer.Abs()).(disposed := true)
    {
      reducers := reducers - {reducer.runId};
      byMessageId := byMessageId - {reducer.messageId};
      reducer.Dispose();
    }

    ghost function Abs(): (reg: Registry)
      requires Valid()
      reads this, reducers.Values + byMessageId.Values
      ensures reg.Valid()
    {
      Registry(reducers, byMessageId, map r | r in reducers.Values + byMessageId.Values :: r.Abs())
    }

    twostate lemma OneCellMoved(reducer: RunReducer)
      requires old(Valid()) && reducers == old(reducers) && byMessageId == old(byMessageId)
      requires reducer in reducers.Values + byMessageId.Values
      requires forall r :: r in reducers.Values + byMessageId.Values && r != reducer ==> r.Abs() == old(r.Abs())
      ensures Valid() && Abs() == old(Abs()).(cells := old(Abs()).cells[reducer := reducer.Abs()])
    {
      hide RunReducer.Abs;
    }

    /** One envelope reaches at most one reducer, and no other is touched, registered or not. */
    method Receive(e: Envelope)
      requires Valid()
      modifies reducers.Values + byMessageId.Values
      ensures Valid() && Abs() == old(Abs()).Deliver(e)
      ensures forall r: RunReducer :: old(allocated(r)) && r !in old(Abs()).cells ==> r.Abs() == old(r.Abs())
    {
      hide Apply, EventMessageId;
      var named := EventMessageId(e.event);
      var reducer: RunReducer;
      if e.runId in reducers {
        reducer := reducers[e.runId];
      } else if named.Some? && named.value in byMessageId {
        reducer := byMessageId[named.value];
      } else {
        return;
      }
      var consumed := reducer.ApplyEnvelope(e);
      OneCellMoved(reducer);
    }
  }
}
