/**
 * The stream of one run as the chat surface sees it: the agent loop's events, translated into one
 * chat cell's.
 */
module Translator {
  import opened Text

  /** A block of the message a producer is still writing into, as a text event shows it. */
  datatype PartialBlock = TextSoFar(text: string) | NotText

  datatype Inner =
    | TextStart(index: nat)
    | TextDelta(index: nat, delta: string)
    | TextEnd(index: nat, content: seq<PartialBlock>)
    | ThinkingStart
    | ThinkingDelta(delta: string)
    | ThinkingEnd
    | ToolCallPart

  datatype StopReason = Finished | LengthLimit | ToolUse | Failed | Aborted | OtherReason

  datatype Usage = Usage(input: Option<nat>, output: Option<nat>)

  datatype LoopMessage = LoopMessage(assistant: bool, stopReason: StopReason, usage: Usage)

  datatype Event =
    | MessageStart(assistant: bool)
    | MessageUpdate(assistant: bool, inner: Inner)
    | MessageEnd(message: LoopMessage)
    | AgentEnd(messages: seq<LoopMessage>)
    | OtherEvent

  datatype FinishReason = Stop | Length | ToolCalls | ContentFilter | Error

  datatype Phase = Started | Active | Ended

  datatype Wire =
    | CellStart(messageId: string)
    | CellUpdate(messageId: string, delta: string)
    | CellThinking(messageId: string, phase: Phase, characters: nat, elapsedMs: int, thought: Option<string>)
    | CellEnd(messageId: string, finishReason: FinishReason, tokens: Usage)

  const THINKING_TICK_MS := 1000
  const THINKING_TEXT_TICK_MS := 80

  datatype State = State(
    forwarded: map<nat, nat>, cellOpen: bool, cellClosed: bool,
    thinkingSince: Option<int>, thinkingChars: nat, thinkingTickedAt: int, thinkingBuffer: string)

  const FRESH := State(map[], false, false, None, 0, 0, "")

  datatype Step = Step(state: State, wires: seq<Wire>)

  function Unless(empty: string): Option<string> { if empty == "" then None else Some(empty) }

  function Frame(id: string, st: State, phase: Phase, at: int): Step {
    Step(st.(thinkingBuffer := ""),
         [CellThinking(id, phase, st.thinkingChars, if st.thinkingSince.None? then 0 else at - st.thinkingSince.value,
                       Unless(st.thinkingBuffer))])
  }

  function Think(id: string, st: State, delta: string, at: int): Step {
    var grown := st.(thinkingChars := st.thinkingChars + |delta|, thinkingBuffer := st.thinkingBuffer + delta);
    if st.thinkingSince.None? then
      Frame(id, grown.(thinkingSince := Some(at), thinkingTickedAt := at), Started, at)
    else
      var sinceLast := at - st.thinkingTickedAt;
      if !(|grown.thinkingBuffer| > 0 && sinceLast >= THINKING_TEXT_TICK_MS) && sinceLast < THINKING_TICK_MS
      then Step(grown, [])
      else Frame(id, grown.(thinkingTickedAt := at), Active, at)
  }

  function EndThink(id: string, st: State, at: int): Step {
    if st.thinkingSince.None? then Step(st, [])
    else Step(st.(thinkingSince := None, thinkingChars := 0, thinkingBuffer := ""),
              [CellThinking(id, Ended, st.thinkingChars, at - st.thinkingSince.value, Unless(st.thinkingBuffer))])
  }

  function NewTurn(st: State): State {
    st.(forwarded := map[], thinkingSince := None, thinkingChars := 0, thinkingBuffer := "")
  }

  function MapStopReason(reason: StopReason): FinishReason {
    match reason
    case LengthLimit => Length
    case ToolUse => ToolCalls
    case Aborted => Error
    case Failed => Error
    case _ => Stop
  }

  function Close(id: string, st: State, reason: StopReason, usage: Usage): Step {
    if st.cellClosed then Step(st, []) else Step(st.(cellClosed := true), [CellEnd(id, MapStopReason(reason), usage)])
  }

  function Then(first: Step, second: Step): Step { Step(second.state, first.wires + second.wires) }

  /** The last assistant message, searched from the end. */
  function LastAssistant(ms: seq<LoopMessage>): (r: Option<LoopMessage>)
    ensures r.Some? ==> exists k :: 0 <= k < |ms| && ms[k] == r.value && r.value.assistant && forall j :: k < j < |ms| ==> !ms[j].assistant
    ensures r.None? <==> forall m :: m in ms ==> !m.assistant
  {
    if ms == [] then None
    else if ms[|ms| - 1].assistant then Some(ms[|ms| - 1])
    else
      assert ms == ms[..|ms| - 1] + [ms[|ms| - 1]];
      LastAssistant(ms[..|ms| - 1])
  }

  function Finalize(id: string, st: State, ms: seq<LoopMessage>, at: int): Step {
    if !st.cellOpen || st.cellClosed then Step(st, [])
    else
      var last := LastAssistant(ms);
      var closed := EndThink(id, st, at);
      Then(closed, Close(id, closed.state, if last.Some? then last.value.stopReason else Failed,
                         if last.Some? then last.value.usage else Usage(None, None)))
  }

  function Forwarded(st: State, index: nat): nat { if index in st.forwarded then st.forwarded[index] else 0 }

  /** The finished text of the block an event names, which falls back to the first block. */
  function FinalText(index: nat, content: seq<PartialBlock>): Option<string> {
    var block := if index < |content| then content[index] else if content != [] then content[0] else NotText;
    if block.TextSoFar? then Some(block.text) else None
  }

  function Inside(id: string, st: State, inner: Inner, at: int): Step {
    match inner
    case TextDelta(index, delta) =>
      if delta == "" then Step(st, [])
      else
        var closed := EndThink(id, st, at);
        var grown := closed.state.(forwarded := closed.state.forwarded[index := Forwarded(st, index) + |delta|]);
        Then(closed, Step(grown, [CellUpdate(id, delta)]))
    case TextStart(_) => Step(st, [])
    case TextEnd(index, content) =>
      var text := FinalText(index, content);
      var already := Forwarded(st, index);
      if text.None? || |text.value| <= already then Step(st, [])
      else Step(st.(forwarded := st.forwarded[index := |text.value|]), [CellUpdate(id, text.value[already..])])
    case ThinkingStart => Think(id, st, "", at)
    case ThinkingDelta(delta) => Think(id, st, delta, at)
    case ThinkingEnd => EndThink(id, st, at)
    case ToolCallPart => Step(st, [])
  }

  function Translate(id: string, st: State, event: Event, at: int): Step {
    match event
    case MessageStart(assistant) =>
      if !assistant then Step(st, [])
      else if st.cellOpen then Step(NewTurn(st), [])
      else Step(NewTurn(st).(cellOpen := true), [CellStart(id)])
    case MessageUpdate(assistant, inner) => if assistant then Inside(id, st, inner, at) else Step(st, [])
    case MessageEnd(message) =>
      if !message.assistant then Step(st, [])
      else
        var closed := EndThink(id, st, at);
        if message.stopReason.ToolUse? then closed
        else Then(closed, Close(id, closed.state, message.stopReason, message.usage))
    case AgentEnd(messages) => Finalize(id, st, messages, at)
    case OtherEvent => Step(st, [])
  }

  class MessageTranslator {
    const messageId: string
    var forwarded: map<nat, nat>
    var cellOpen: bool
    var cellClosed: bool
    var thinkingSince: Option<int>
    var thinkingChars: nat
    var thinkingTickedAt: int
    var thinkingBuffer: string

    constructor (messageId: string)
      ensures this.messageId == messageId && Abs() == FRESH
    {
      this.messageId := messageId;
      forwarded, cellOpen, cellClosed := map[], false, false;
      thinkingSince, thinkingChars, thinkingTickedAt, thinkingBuffer := None, 0, 0, "";
    }

    ghost function Abs(): State
      reads this
    {
      State(forwarded, cellOpen, cellClosed, thinkingSince, thinkingChars, thinkingTickedAt, thinkingBuffer)
    }

    method ThinkingFrame(phase: Phase, at: int) returns (wire: Wire)
      modifies this`thinkingBuffer
      ensures Step(Abs(), [wire]) == Frame(messageId, old(Abs()), phase, at)
    {
      var delta := thinkingBuffer;
      thinkingBuffer := "";
      wire := CellThinking(messageId, phase, thinkingChars,
                           if thinkingSince.None? then 0 else at - thinkingSince.value, Unless(delta));
    }

    method Thinking(delta: string, at: int) returns (wires: seq<Wire>)
      modifies this
      ensures Step(Abs(), wires) == Think(messageId, old(Abs()), delta, at)
    {
      thinkingChars := thinkingChars + |delta|;
      thinkingBuffer := thinkingBuffer + delta;
      var frame;
      if thinkingSince.None? {
        thinkingSince := Some(at);
        thinkingTickedAt := at;
        frame := ThinkingFrame(Started, at);
        return [frame];
      }
      var sinceLast := at - thinkingTickedAt;
      var dueForText := |thinkingBuffer| > 0 && sinceLast >= THINKING_TEXT_TICK_MS;
      if !dueForText && sinceLast < THINKING_TICK_MS {
        return [];
      }
      thinkingTickedAt := at;
      frame := ThinkingFrame(Active, at);
      return [frame];
    }

    method EndThinking(at: int) returns (wires: seq<Wire>)
      modifies this
      ensures Step(Abs(), wires) == EndThink(messageId, old(Abs()), at)
    {
      if thinkingSince.None? {
        return [];
      }
      var elapsed := at - thinkingSince.value;
      var characters, delta := thinkingChars, thinkingBuffer;
      thinkingSince, thinkingChars, thinkingBuffer := None, 0, "";
      return [CellThinking(messageId, Ended, characters, elapsed, Unless(delta))];
    }

    method CloseCell(reason: StopReason, usage: Usage) returns (wires: seq<Wire>)
      modifies this`cellClosed
      ensures Step(Abs(), wires) == Close(messageId, old(Abs()), reason, usage)
    {
      if cellClosed {
        return [];
      }
      cellClosed := true;
      return [CellEnd(messageId, MapStopReason(reason), usage)];
    }

    method FinalizeRun(messages: seq<LoopMessage>, at: int) returns (wires: seq<Wire>)
      modifies this
      ensures Step(Abs(), wires) == Finalize(messageId, old(Abs()), messages, at)
    {
      if !cellOpen || cellClosed {
        return [];
      }
      var last := LastAssistant(messages);
      var thought := EndThinking(at);
      var closed := CloseCell(if last.Some? then last.value.stopReason else Failed,
                              if last.Some? then last.value.usage else Usage(None, None));
      return thought + closed;
    }

    method TranslateInside(inner: Inner, at: int) returns (wires: seq<Wire>)
      modifies this
      ensures Step(Abs(), wires) == Inside(messageId, old(Abs()), inner, at)
    {
      match inner {
        case TextDelta(index, delta) =>
          if delta == "" {
            return [];
          }
          wires := EndThinking(at);
          forwarded := forwarded[index := (if index in forwarded then forwarded[index] else 0) + |delta|];
          wires := wires + [CellUpdate(messageId, delta)];
        case TextEnd(index, content) =>
          var text := FinalText(index, content);
          if text.None? {
            return [];
          }
          var already := if index in forwarded then forwarded[index] else 0;
          if |text.value| <= already {
            return [];
          }
          forwarded := forwarded[index := |text.value|];
          wires := [CellUpdate(messageId, text.value[already..])];
        case ThinkingStart =>
          wires := Thinking("", at);
        case ThinkingDelta(delta) =>
          wires := Thinking(delta, at);
        case ThinkingEnd =>
          wires := EndThinking(at);
        case _ =>
          wires := [];
      }
    }

    method TranslateEvent(event: Event, at: int) returns (wires: seq<Wire>)
      modifies this
      ensures Step(Abs(), wires) == Translate(messageId, old(Abs()), event, at)
    {
      wires := [];
      match event {
        case MessageStart(assistant) =>
          if !assistant {
            return;
          }
          forwarded, thinkingSince, thinkingChars, thinkingBuffer := map[], None, 0, "";
          if cellOpen {
            return;
          }
          cellOpen := true;
          wires := [CellStart(messageId)];
        case MessageUpdate(assistant, inner) =>
          if assistant {
            wires := TranslateInside(inner, at);
          }
        case MessageEnd(message) =>
          if !message.assistant {
            return;
          }
          wires := EndThinking(at);
          if message.stopReason.ToolUse? {
            return;
          }
          var closed := CloseCell(message.stopReason, message.usage);
          wires := wires + closed;
        case AgentEnd(messages) =>
          wires := FinalizeRun(messages, at);
        case OtherEvent =>
      }
    }
  }
}
