/** Whole event streams through the translator: its lifecycle, its text and its reasoning. */
module TranslatorRuns {
  import opened Text
  import opened Translator

  /** One call into the translator, with the clock reading it makes. */
  datatype Call = On(event: Event, at: int) | Finalizing(messages: seq<LoopMessage>, at: int)

  function Apply(id: string, st: State, call: Call): Step {
    match call
    case On(event, at) => Translate(id, st, event, at)
    case Finalizing(messages, at) => Finalize(id, st, messages, at)
  }

  function RunFrom(id: string, st: State, calls: seq<Call>): Step {
    if calls == [] then Step(st, [])
    else
      var before := RunFrom(id, st, calls[..|calls| - 1]);
      Then(before, Apply(id, before.state, calls[|calls| - 1]))
  }

  function Run(id: string, calls: seq<Call>): Step { RunFrom(id, FRESH, calls) }

  lemma {:induction false} RunSplits(id: string, st: State, xs: seq<Call>, ys: seq<Call>)
    ensures RunFrom(id, st, xs + ys) == Then(RunFrom(id, st, xs), RunFrom(id, RunFrom(id, st, xs).state, ys))
  {
    hide Apply;
    if ys == [] {
      assert xs + ys == xs;
    } else {
      var n := |ys| - 1;
      RunSplits(id, st, xs, ys[..n]);
      assert (xs + ys)[..|xs + ys| - 1] == xs + ys[..n];
    }
  }

  lemma RunMore(id: string, calls: seq<Call>, c: Call)
    ensures Run(id, calls + [c]) == Then(Run(id, calls), Apply(id, Run(id, calls).state, c))
  {
    hide Apply;
    assert (calls + [c])[..|calls|] == calls;
  }

  lemma RunOfFour(id: string, a: Call, b: Call, c: Call, d: Call)
    ensures var s := Apply(id, FRESH, a);
            var t := Apply(id, s.state, b);
            var u := Apply(id, t.state, c);
            var v := Apply(id, u.state, d);
            Run(id, [a, b, c, d]) == Step(v.state, s.wires + t.wires + u.wires + v.wires)
  {
    hide Apply, RunFrom;
    assert [a] + [b] == [a, b] && [a, b] + [c] == [a, b, c] && [a, b, c] + [d] == [a, b, c, d] && [] + [a] == [a];
    RunMore(id, [], a);
    RunMore(id, [a], b);
    RunMore(id, [a, b], c);
    RunMore(id, [a, b, c], d);
    NothingRun(id);
    assert [] + Apply(id, FRESH, a).wires == Apply(id, FRESH, a).wires;
  }

  lemma NothingRun(id: string)
    ensures Run(id, []) == Step(FRESH, [])
  {
  }

  // ---------------------------------------------------------------- lifecycle

  function Count(ws: seq<Wire>, which: Wire -> bool): nat {
    if ws == [] then 0 else Count(ws[..|ws| - 1], which) + (if which(ws[|ws| - 1]) then 1 else 0)
  }

  lemma {:induction false} CountAppend(xs: seq<Wire>, ys: seq<Wire>, which: Wire -> bool)
    ensures Count(xs + ys, which) == Count(xs, which) + Count(ys, which)
  {
    if ys == [] {
      assert xs + ys == xs;
    } else {
      CountAppend(xs, ys[..|ys| - 1], which);
      assert (xs + ys)[..|xs + ys| - 1] == xs + ys[..|ys| - 1];
    }
  }

  predicate IsStart(w: Wire) { w.CellStart? }

  predicate IsEnd(w: Wire) { w.CellEnd? }

  function Starts(ws: seq<Wire>): nat { Count(ws, IsStart) }

  function Ends(ws: seq<Wire>): nat { Count(ws, IsEnd) }

  lemma CountFew(a: Wire, b: Wire, which: Wire -> bool)
    ensures Count([], which) == 0
    ensures Count([a], which) == if which(a) then 1 else 0
    ensures Count([a, b], which) == (if which(a) then 1 else 0) + if which(b) then 1 else 0
  {
    assert [a][..0] == [] && [a, b][..1] == [a];
    assert Count([a], which) == Count([], which) + if which(a) then 1 else 0;
  }

  lemma InsideShape(id: string, st: State, inner: Inner, at: int)
    ensures var s := Inside(id, st, inner, at);
            && |s.wires| <= 2 && (forall k :: 0 <= k < |s.wires| ==> !IsStart(s.wires[k]) && !IsEnd(s.wires[k]))
            && s.state.cellOpen == st.cellOpen && s.state.cellClosed == st.cellClosed
  {
  }

  lemma StepShape(id: string, st: State, call: Call)
    ensures var s := Apply(id, st, call); var ws := s.wires;
            && |ws| <= 2 && (|ws| == 2 ==> !IsStart(ws[0]) && !IsEnd(ws[0]))
            && (s.state.cellOpen && !st.cellOpen <==> ws != [] && IsStart(ws[|ws| - 1]))
            && (s.state.cellClosed && !st.cellClosed <==> ws != [] && IsEnd(ws[|ws| - 1]))
            && (st.cellOpen ==> s.state.cellOpen) && (st.cellClosed ==> s.state.cellClosed)
  {
    hide Inside;
    if call.On? && call.event.MessageUpdate? { InsideShape(id, st, call.event.inner, call.at); }
  }

  /** One call opens the cell at most once and closes it at most once, and remembers that it did. */
  lemma StepLifecycle(id: string, st: State, call: Call)
    ensures var s := Apply(id, st, call);
            && Starts(s.wires) == (if s.state.cellOpen && !st.cellOpen then 1 else 0)
            && Ends(s.wires) == (if s.state.cellClosed && !st.cellClosed then 1 else 0)
            && (st.cellOpen ==> s.state.cellOpen) && (st.cellClosed ==> s.state.cellClosed)
  {
    hide Apply, Count, IsStart, IsEnd;
    StepShape(id, st, call);
    var ws := Apply(id, st, call).wires;
    if ws == [] {
      CountFew(CellStart(id), CellStart(id), IsStart);
      CountFew(CellStart(id), CellStart(id), IsEnd);
    } else {
      var a, b := ws[0], ws[|ws| - 1];
      CountFew(a, b, IsStart);
      CountFew(a, b, IsEnd);
      assert ws == [a] || ws == [a, b];
    }
  }

  lemma {:induction false} Lifecycle(id: string, calls: seq<Call>)
    ensures var s := Run(id, calls);
            && Starts(s.wires) == (if s.state.cellOpen then 1 else 0)
            && Ends(s.wires) == (if s.state.cellClosed then 1 else 0)
  {
    hide Apply;
    if calls != [] {
      var before := Run(id, calls[..|calls| - 1]);
      var last := calls[|calls| - 1];
      Lifecycle(id, calls[..|calls| - 1]);
      StepLifecycle(id, before.state, last);
      var ws := Apply(id, before.state, last).wires;
      CountAppend(before.wires, ws, IsStart);
      CountAppend(before.wires, ws, IsEnd);
    }
  }

  /**
   * However the loop leaves, an opened cell is closed exactly once, and finalizing again says nothing.
   */
  lemma FinalizeCloses(id: string, calls: seq<Call>, last: Call, again: Call)
    requires last.Finalizing? && again.Finalizing?
    ensures Starts(Run(id, calls + [last]).wires) == 1 ==> Ends(Run(id, calls + [last]).wires) == 1
    ensures Run(id, calls + [last] + [again]).wires == Run(id, calls + [last]).wires
  {
    var all := calls + [last];
    Lifecycle(id, calls);
    Lifecycle(id, all);
    assert all[..|all| - 1] == calls;
    assert (all + [again])[..|all + [again]| - 1] == all;
    var s := Run(id, all);
    assert s.state.cellOpen ==> s.state.cellClosed;
    assert Finalize(id, s.state, again.messages, again.at).wires == [];
  }

  predicate IsThinkingFrame(w: Wire, phase: Phase) { w.CellThinking? && w.phase == phase }

  /** What is no text of an assistant message, no reasoning, no boundary and no empty piece leaves everything as it is. */
  lemma QuietCallsDoNothing(id: string, st: State, event: Event, at: int)
    requires
      || event.OtherEvent?
      || (event.MessageStart? && !event.assistant)
      || (event.MessageUpdate? && (!event.assistant || event.inner.TextStart? || event.inner.ToolCallPart?
                                   || (event.inner.TextDelta? && event.inner.delta == "")))
      || (event.MessageEnd? && !event.message.assistant)
    ensures Apply(id, st, On(event, at)) == Step(st, [])
  {
  }

  /** A piece of text is sent as it is, behind the frame that closes the reasoning it follows. */
  lemma DeltaIsSent(id: string, st: State, index: nat, delta: string, at: int)
    requires delta != ""
    ensures var s := Apply(id, st, On(MessageUpdate(true, TextDelta(index, delta)), at));
            && s.wires != [] && s.wires[|s.wires| - 1] == CellUpdate(id, delta)
            && (st.thinkingSince.None? ==> |s.wires| == 1)
            && (st.thinkingSince.Some? ==> |s.wires| == 2 && IsThinkingFrame(s.wires[0], Ended))
            && s.state.thinkingSince.None?
  {
  }

  /** What the surface is told about how a run ended. */
  ghost predicate TellsOf(told: FinishReason, reason: StopReason) {
    && (told.Length? <==> reason.LengthLimit?) && (told.ToolCalls? <==> reason.ToolUse?)
    && (told.Error? <==> reason.Failed? || reason.Aborted?) && (told.Stop? <==> reason.Finished? || reason.OtherReason?)
  }

  ghost predicate EndsWith(s: Step, id: string, usage: Usage) {
    && s.state.cellClosed && s.wires != []
    && var end := s.wires[|s.wires| - 1]; end.CellEnd? && end.messageId == id && end.tokens == usage
  }

  /** An assistant message closes an open cell exactly when it does not hand over to a tool, with its own reason and usage. */
  lemma MessageEndClosesIff(id: string, st: State, m: LoopMessage, at: int)
    requires m.assistant && !st.cellClosed
    ensures var s := Apply(id, st, On(MessageEnd(m), at));
            && (s.state.cellClosed <==> !m.stopReason.ToolUse?)
            && (!m.stopReason.ToolUse? ==> EndsWith(s, id, m.usage) && TellsOf(s.wires[|s.wires| - 1].finishReason, m.stopReason))
            && forall k :: 0 <= k < |s.wires| - (if m.stopReason.ToolUse? then 0 else 1) ==> IsThinkingFrame(s.wires[k], Ended)
  {
  }

  /** Finalizing closes an open cell with the last assistant message's reason and usage, or as an error where there is none. */
  lemma FinalizingCloses(id: string, st: State, front: seq<LoopMessage>, last: LoopMessage, back: seq<LoopMessage>, at: int)
    requires st.cellOpen && !st.cellClosed && forall m :: m in back ==> !m.assistant
    ensures var s := Apply(id, st, Finalizing(front + [last] + back, at));
            last.assistant ==> EndsWith(s, id, last.usage) && TellsOf(s.wires[|s.wires| - 1].finishReason, last.stopReason)
    ensures var s := Apply(id, st, Finalizing(back, at));
            EndsWith(s, id, Usage(None, None)) && s.wires[|s.wires| - 1].finishReason.Error?
  {
    var ms := front + [last] + back;
    if last.assistant {
      assert ms[|front|] == last;
      assert forall k :: |front| < k < |ms| ==> ms[k] in back;
      var found := LastAssistant(ms);
      assert ms[|front|] in ms;
      var k :| 0 <= k < |ms| && ms[k] == found.value && found.value.assistant && forall j :: k < j < |ms| ==> !ms[j].assistant;
      assert k == |front|;
    }
    hide LastAssistant;
  }

  /** Other messages' ends, and whatever happens before a cell is open or after it is closed, close nothing. */
  lemma OtherwiseNothingCloses(id: string, st: State, c: Call)
    requires c.Finalizing? || c.event.AgentEnd? || c.event.MessageEnd?
    requires c.On? && c.event.MessageEnd? ==> !c.event.message.assistant
    requires (c.On? && c.event.MessageEnd?) || !st.cellOpen || st.cellClosed
    ensures Apply(id, st, c) == Step(st, [])
  {
  }

  // ---------------------------------------------------------------- text, block by block

  predicate OpensMessage(c: Call) { c.On? && c.event.MessageStart? && c.event.assistant }

  /** A call that carries the text of one block of an assistant message. */
  predicate Tells(c: Call) {
    c.On? && c.event.MessageUpdate? && c.event.assistant && (c.event.inner.TextDelta? || c.event.inner.TextEnd?)
  }

  predicate Names(c: Call, index: nat) { Tells(c) && c.event.inner.index == index }

  function Updates(ws: seq<Wire>): string {
    if ws == [] then "" else Updates(ws[..|ws| - 1]) + (if ws[|ws| - 1].CellUpdate? then ws[|ws| - 1].delta else "")
  }

  /** Text sent by one call, and the block it belongs to. */
  datatype Piece = Piece(block: nat, text: string)

  function Pieces(id: string, st: State, calls: seq<Call>): seq<Piece> {
    if calls == [] then []
    else
      var n := |calls| - 1;
      Pieces(id, st, calls[..n]) +
      (if Tells(calls[n])
       then [Piece(calls[n].event.inner.index, Updates(Apply(id, RunFrom(id, st, calls[..n]).state, calls[n]).wires))] else [])
  }

  function Joined(ps: seq<Piece>): string {
    if ps == [] then "" else Joined(ps[..|ps| - 1]) + ps[|ps| - 1].text
  }

  function JoinedOf(ps: seq<Piece>, block: nat): string {
    if ps == [] then "" else JoinedOf(ps[..|ps| - 1], block) + (if ps[|ps| - 1].block == block then ps[|ps| - 1].text else "")
  }

  /** Everything the producer streamed for one block. */
  function Streamed(calls: seq<Call>, index: nat): string {
    if calls == [] then ""
    else
      var last := calls[|calls| - 1];
      Streamed(calls[..|calls| - 1], index) + (if Names(last, index) && last.event.inner.TextDelta? then last.event.inner.delta else "")
  }

  /** Nothing in `calls` opens another message, and the block does not end in it. */
  ghost predicate Open(calls: seq<Call>, index: nat) {
    forall c :: c in calls ==> !OpensMessage(c) && !(Names(c, index) && c.event.inner.TextEnd?)
  }

  lemma UpdatesOfOne(w: Wire)
    ensures Updates([w]) == if w.CellUpdate? then w.delta else ""
  {
    assert [w][..0] == [];
    assert Updates([w]) == "" + (if w.CellUpdate? then w.delta else "");
  }

  lemma UpdatesMore(ws: seq<Wire>, w: Wire)
    ensures Updates(ws + [w]) == Updates(ws) + if w.CellUpdate? then w.delta else ""
  {
    assert (ws + [w])[..|ws|] == ws;
  }

  lemma {:induction false} UpdatesAppend(xs: seq<Wire>, ys: seq<Wire>)
    ensures Updates(xs + ys) == Updates(xs) + Updates(ys)
  {
    if ys == [] {
      assert xs + ys == xs && Updates(ys) == "";
    } else {
      hide Updates;
      var front, w := ys[..|ys| - 1], ys[|ys| - 1];
      UpdatesAppend(xs, front);
      UpdatesMore(front, w);
      UpdatesMore(xs + front, w);
      assert ys == front + [w] && xs + ys == xs + front + [w];
    }
  }

  /** The only text one event sends is its own block's: the delta, or what the end still lacks. */
  lemma InsideUpdates(id: string, st: State, inner: Inner, at: int)
    ensures var s := Inside(id, st, inner, at);
            && (inner.TextDelta? ==> Updates(s.wires) == inner.delta)
            && (inner.TextEnd? ==> Updates(s.wires) == Missing(FinalText(inner.index, inner.content), Forwarded(st, inner.index)))
            && (!inner.TextDelta? && !inner.TextEnd? ==> Updates(s.wires) == "")
            && (forall k: nat :: Forwarded(s.state, k) ==
                 Forwarded(st, k) + if (inner.TextDelta? || inner.TextEnd?) && inner.index == k then |Updates(s.wires)| else 0)
  {
    hide Updates, Think;
    var s := Inside(id, st, inner, at);
    NoUpdates();
    if inner.TextDelta? {
      if inner.delta != "" {
        var closed := EndThink(id, st, at);
        UpdatesAppend(closed.wires, [CellUpdate(id, inner.delta)]);
        UpdatesOfOne(CellUpdate(id, inner.delta));
        if closed.wires != [] { UpdatesOfOne(closed.wires[0]); }
        assert "" + inner.delta == inner.delta;
      }
    } else if inner.TextEnd? {
      if s.wires != [] { UpdatesOfOne(s.wires[0]); }
    } else {
      QuietSendsNothing(id, st, inner, at);
    }
  }

  lemma QuietSendsNothing(id: string, st: State, inner: Inner, at: int)
    requires !inner.TextDelta? && !inner.TextEnd?
    ensures var s := Inside(id, st, inner, at); Updates(s.wires) == "" && s.state.forwarded == st.forwarded
  {
    var s := Inside(id, st, inner, at);
    if |s.wires| == 1 { UpdatesOfOne(s.wires[0]); }
  }

  lemma NoUpdates()
    ensures Updates([]) == ""
  {
  }

  /** The part of a finished text beyond what has been forwarded. */
  function Missing(text: Option<string>, already: nat): string {
    if text.None? || |text.value| <= already then "" else text.value[already..]
  }

  /** The only text one call sends is its own block's, and it is booked on that block alone. */
  lemma CallUpdates(id: string, st: State, c: Call)
    requires !OpensMessage(c)
    ensures var s := Apply(id, st, c);
            && (Tells(c) && c.event.inner.TextDelta? ==> Updates(s.wires) == c.event.inner.delta)
            && (Tells(c) && c.event.inner.TextEnd? ==>
                 Updates(s.wires) == Missing(FinalText(c.event.inner.index, c.event.inner.content), Forwarded(st, c.event.inner.index)))
            && (!Tells(c) ==> Updates(s.wires) == "")
            && forall k: nat :: Forwarded(s.state, k) == Forwarded(st, k) + if Names(c, k) then |Updates(s.wires)| else 0
  {
    hide Updates, Inside, Missing, FinalText;
    if c.On? && c.event.MessageUpdate? && c.event.assistant {
      InsideUpdates(id, st, c.event.inner, c.at);
    } else {
      OthersSendNothing(id, st, c);
    }
  }

  lemma OthersSendNothing(id: string, st: State, c: Call)
    requires !(c.On? && c.event.MessageUpdate? && c.event.assistant)
    ensures var s := Apply(id, st, c); Updates(s.wires) == "" && (!OpensMessage(c) ==> s.state.forwarded == st.forwarded)
  {
    hide Updates, Inside, Finalize;
    if c.Finalizing? || c.event.AgentEnd? { FinalizeSendsNoText(id, st, if c.On? then c.event.messages else c.messages, c.at); }
    NoUpdateNoText(Apply(id, st, c).wires);
  }

  lemma FinalizeSendsNoText(id: string, st: State, ms: seq<LoopMessage>, at: int)
    ensures var s := Finalize(id, st, ms, at);
            |s.wires| <= 2 && (forall w :: w in s.wires ==> !w.CellUpdate?) && s.state.forwarded == st.forwarded
  {
    hide LastAssistant, MapStopReason;
  }

  lemma NoUpdateNoText(ws: seq<Wire>)
    requires |ws| <= 2 && forall w :: w in ws ==> !w.CellUpdate?
    ensures Updates(ws) == ""
  {
    if |ws| == 1 {
      UpdatesOfOne(ws[0]);
      assert ws == [ws[0]];
    } else if |ws| == 2 {
      UpdatesOfOne(ws[0]);
      assert ws[..1] == [ws[0]];
    }
  }

  lemma JoinedMore(ps: seq<Piece>, p: Piece, block: nat)
    ensures Joined(ps + [p]) == Joined(ps) + p.text
    ensures JoinedOf(ps + [p], block) == JoinedOf(ps, block) + if p.block == block then p.text else ""
  {
    assert (ps + [p])[..|ps|] == ps;
  }

  /** The pieces are all the text there is, in the order it is sent. */
  lemma {:induction false} PiecesAreAllSent(id: string, st: State, calls: seq<Call>)
    ensures Updates(RunFrom(id, st, calls).wires) == Joined(Pieces(id, st, calls))
  {
    hide Apply, Updates, Joined;
    if calls == [] {
      NoUpdates();
      assert Joined([]) == "" by { NothingJoined(); }
    } else {
      var n := |calls| - 1;
      var before, last := RunFrom(id, st, calls[..n]), calls[n];
      PiecesAreAllSent(id, st, calls[..n]);
      UpdatesAppend(before.wires, Apply(id, before.state, last).wires);
      if Tells(last) {
        JoinedMore(Pieces(id, st, calls[..n]), Piece(last.event.inner.index, Updates(Apply(id, before.state, last).wires)), 0);
      } else {
        assert Pieces(id, st, calls[..n]) + [] == Pieces(id, st, calls[..n]);
        SilentCall(id, before.state, last);
      }
    }
  }

  lemma SilentCall(id: string, st: State, c: Call)
    requires !Tells(c)
    ensures Updates(Apply(id, st, c).wires) == ""
  {
    hide Apply, Updates;
    if OpensMessage(c) { OthersSendNothing(id, st, c); } else { CallUpdates(id, st, c); }
  }

  lemma NothingJoined()
    ensures Joined([]) == ""
  {
  }

  /** Everything forwarded on behalf of one block. */
  function SentFor(id: string, st: State, calls: seq<Call>, index: nat): string { JoinedOf(Pieces(id, st, calls), index) }

  lemma SentForMore(id: string, st: State, calls: seq<Call>, c: Call, index: nat)
    ensures SentFor(id, st, calls + [c], index) ==
            SentFor(id, st, calls, index) + if Names(c, index) then Updates(Apply(id, RunFrom(id, st, calls).state, c).wires) else ""
  {
    hide Apply, Updates, RunFrom, JoinedOf;
    assert (calls + [c])[..|calls|] == calls;
    if Tells(c) {
      JoinedMore(Pieces(id, st, calls), Piece(c.event.inner.index, Updates(Apply(id, RunFrom(id, st, calls).state, c).wires)), index);
    } else {
      assert Pieces(id, st, calls) + [] == Pieces(id, st, calls);
    }
  }

  lemma {:induction false} ForwardedIsWhatWasSent(id: string, st: State, calls: seq<Call>, index: nat)
    requires Forwarded(st, index) == 0 && forall c :: c in calls ==> !OpensMessage(c)
    ensures Forwarded(RunFrom(id, st, calls).state, index) == |SentFor(id, st, calls, index)|
  {
    hide Apply, Forwarded, OpensMessage, Updates;
    if calls != [] {
      var n := |calls| - 1;
      assert calls[n] in calls && calls == calls[..n] + [calls[n]];
      ForwardedIsWhatWasSent(id, st, calls[..n], index);
      SentForMore(id, st, calls[..n], calls[n], index);
      CallUpdates(id, RunFrom(id, st, calls[..n]).state, calls[n]);
    }
  }

  lemma {:induction false} SentIsStreamed(id: string, st: State, calls: seq<Call>, index: nat)
    requires Open(calls, index)
    ensures SentFor(id, st, calls, index) == Streamed(calls, index)
  {
    hide Apply, Forwarded, OpensMessage, Updates, SentFor, FinalText;
    if calls == [] {
      NothingSent(id, st, index);
    } else {
      var n := |calls| - 1;
      assert calls[n] in calls && calls == calls[..n] + [calls[n]];
      SentIsStreamed(id, st, calls[..n], index);
      SentForMore(id, st, calls[..n], calls[n], index);
      CallUpdates(id, RunFrom(id, st, calls[..n]).state, calls[n]);
    }
  }

  lemma NothingSent(id: string, st: State, index: nat)
    ensures SentFor(id, st, [], index) == ""
  {
  }

  /** The block an event names in the message it shows, or the first block where the message has no such place. */
  function Named(index: nat, content: seq<PartialBlock>): PartialBlock
    requires content != []
  {
    if index >= |content| then content[0] else content[index]
  }

  /** The end of a block that is text. */
  predicate EndsBlock(c: Call) {
    Tells(c) && c.event.inner.TextEnd? && c.event.inner.content != [] && Named(c.event.inner.index, c.event.inner.content).TextSoFar?
  }

  function FinalOf(c: Call): string
    requires EndsBlock(c)
  {
    Named(c.event.inner.index, c.event.inner.content).text
  }

  lemma FinalIsNamed(c: Call)
    requires Tells(c) && c.event.inner.TextEnd?
    ensures FinalText(c.event.inner.index, c.event.inner.content) == if EndsBlock(c) then Some(FinalOf(c)) else None
  {
  }

  /** An end sends what its own block still lacks, and nothing where that is not text. */
  lemma EndSendsTheRest(id: string, st: State, index: nat, content: seq<PartialBlock>, at: int)
    ensures var ws := Apply(id, st, On(MessageUpdate(true, TextEnd(index, content)), at)).wires;
            var already := if index in st.forwarded then st.forwarded[index] else 0;
            var block := if index < |content| then content[index] else if |content| > 0 then content[0] else NotText;
            ws == if block.TextSoFar? && |block.text| > already then [CellUpdate(id, block.text[already..])] else []
  {
  }

  /**
   * Text is neither duplicated nor dropped: whatever is interleaved with a block, what was forwarded
   * for it when it ends is its finished text exactly when its deltas were an opening of that text.
   */
  lemma BlockIsExact(id: string, st: State, calls: seq<Call>, end: Call)
    requires EndsBlock(end) && Open(calls, end.event.inner.index) && Forwarded(st, end.event.inner.index) == 0
    ensures var index := end.event.inner.index;
            SentFor(id, st, calls + [end], index) == FinalOf(end) <==> Streamed(calls, index) <= FinalOf(end)
  {
    hide Apply, Forwarded, RunFrom, SentFor, Streamed, FinalText, Updates;
    FinalIsNamed(end);
    var index := end.event.inner.index;
    var sent := Streamed(calls, index);
    SentIsStreamed(id, st, calls, index);
    ForwardedIsWhatWasSent(id, st, calls, index);
    SentForMore(id, st, calls, end, index);
    CallUpdates(id, RunFrom(id, st, calls).state, end);
    CompletesIff(sent, FinalOf(end));
  }

  lemma CompletesIff(sent: string, text: string)
    ensures sent + Missing(Some(text), |sent|) == text <==> sent <= text
  {
    if sent <= text && |sent| < |text| {
      assert text == sent + text[|sent|..];
    }
  }

  lemma {:induction false} SilentAbout(id: string, st: State, calls: seq<Call>, index: nat, from: nat)
    requires from <= |calls| && forall k :: from <= k < |calls| ==> !Names(calls[k], index)
    ensures SentFor(id, st, calls, index) == SentFor(id, st, calls[..from], index)
  {
    hide Apply, RunFrom, SentFor;
    if from == |calls| {
      assert calls[..from] == calls;
    } else {
      var n := |calls| - 1;
      SilentAbout(id, st, calls[..n], index, from);
      assert calls == calls[..n] + [calls[n]] && calls[..n][..from] == calls[..from];
      SentForMore(id, st, calls[..n], calls[n], index);
    }
  }

  /** The block that ends at `e`: not before it, and nothing more is said of it behind it. */
  ghost predicate OwnEnd(body: seq<Call>, e: nat) {
    && e < |body| && EndsBlock(body[e]) && Open(body[..e], body[e].event.inner.index)
    && forall k :: e < k < |body| ==> !Names(body[k], body[e].event.inner.index)
  }

  /**
   * A message inside any run, its blocks interleaved with each other and with anything else. All the text
   * sent for it is made of its blocks' pieces, and those of one block are its finished text exactly when its
   * deltas were an opening of that.
   */
  lemma TurnIsExact(id: string, before: seq<Call>, at: int, body: seq<Call>)
    requires forall c :: c in body ==> !OpensMessage(c)
    ensures var begun := before + [On(MessageStart(true), at)];
            var pieces := Pieces(id, Run(id, begun).state, body);
            && Updates(Run(id, begun + body).wires) == Updates(Run(id, before).wires) + Joined(pieces)
            && forall e: nat :: OwnEnd(body, e) ==>
                 (JoinedOf(pieces, body[e].event.inner.index) == FinalOf(body[e])
                  <==> Streamed(body[..e], body[e].event.inner.index) <= FinalOf(body[e]))
  {
    hide RunFrom, Updates, Pieces, Joined, JoinedOf, Streamed, Named;
    var opening := [On(MessageStart(true), at)];
    var begun := before + opening;
    var st := Run(id, begun).state;
    RunSplits(id, FRESH, before, opening);
    OpeningStep(id, Run(id, before).state, at);
    RunSplits(id, FRESH, begun, body);
    PiecesAreAllSent(id, st, body);
    UpdatesAppend(Run(id, before).wires, RunFrom(id, Run(id, before).state, opening).wires);
    UpdatesAppend(Run(id, begun).wires, RunFrom(id, st, body).wires);
    forall e: nat | OwnEnd(body, e)
      ensures JoinedOf(Pieces(id, st, body), body[e].event.inner.index) == FinalOf(body[e])
              <==> Streamed(body[..e], body[e].event.inner.index) <= FinalOf(body[e])
    {
      OwnEndIsExact(id, st, body, e);
    }
  }

  lemma OwnEndIsExact(id: string, st: State, body: seq<Call>, e: nat)
    requires OwnEnd(body, e) && forall k: nat :: Forwarded(st, k) == 0
    ensures SentFor(id, st, body, body[e].event.inner.index) == FinalOf(body[e])
            <==> Streamed(body[..e], body[e].event.inner.index) <= FinalOf(body[e])
  {
    hide SentFor, Streamed, Forwarded, Open, Named;
    SilentAbout(id, st, body, body[e].event.inner.index, e + 1);
    assert body[..e + 1] == body[..e] + [body[e]];
    BlockIsExact(id, st, body[..e], body[e]);
  }

  // ---------------------------------------------------------------- text, over a whole run

  /** A block as it streams: calls that send no other text, then its end. */
  datatype Segment = Segment(body: seq<Call>, end: Call) {
    function Index(): nat { if Tells(end) then end.event.inner.index else 0 }

    function Final(): string { if EndsBlock(end) then FinalOf(end) else "" }

    function Calls(): seq<Call> { body + [end] }

    /** The block ends once, on a text its deltas were an opening of; anything but text may come between. */
    ghost predicate Good() {
      && EndsBlock(end) && Open(body, Index())
      && (forall c :: c in body ==> Names(c, Index()) || !Tells(c))
      && Streamed(body, Index()) <= Final()
    }
  }

  /** One assistant message and whatever follows it, up to the next one. */
  datatype Message = Message(openAt: int, segments: seq<Segment>, after: seq<Call>) {
    function Calls(): seq<Call> { [On(MessageStart(true), openAt)] + SegmentCalls(segments) + after }

    ghost predicate Good() {
      && (forall s :: s in segments ==> s.Good())
      && (forall i, j :: 0 <= i < j < |segments| ==> segments[i].Index() != segments[j].Index())
      && forall c :: c in after ==> Wordless(c)
    }
  }

  /** A call that neither opens an assistant message nor carries its text. */
  predicate Wordless(c: Call) { !OpensMessage(c) && !Tells(c) }

  function SegmentCalls(segments: seq<Segment>): seq<Call> {
    if segments == [] then [] else segments[0].Calls() + SegmentCalls(segments[1..])
  }

  function SegmentTexts(segments: seq<Segment>): string {
    if segments == [] then "" else segments[0].Final() + SegmentTexts(segments[1..])
  }

  function RunCalls(messages: seq<Message>): seq<Call> {
    if messages == [] then [] else messages[0].Calls() + RunCalls(messages[1..])
  }

  function RunText(messages: seq<Message>): string {
    if messages == [] then "" else SegmentTexts(messages[0].segments) + RunText(messages[1..])
  }

  /** When every text event names one block, all the text sent is that block's. */
  lemma {:induction false} OneBlockSendsAll(id: string, st: State, calls: seq<Call>, index: nat)
    requires forall c :: c in calls ==> !OpensMessage(c) && (Names(c, index) || !Tells(c))
    ensures var s := RunFrom(id, st, calls);
            && Updates(s.wires) == SentFor(id, st, calls, index)
            && forall k: nat :: k != index ==> Forwarded(s.state, k) == Forwarded(st, k)
  {
    hide Apply, Forwarded, Updates, SentFor, OpensMessage, FinalText;
    if calls == [] {
      NoUpdates();
      NothingSent(id, st, index);
    } else {
      var n := |calls| - 1;
      assert calls[n] in calls && calls == calls[..n] + [calls[n]];
      OneBlockSendsAll(id, st, calls[..n], index);
      var before := RunFrom(id, st, calls[..n]);
      CallUpdates(id, before.state, calls[n]);
      SentForMore(id, st, calls[..n], calls[n], index);
      UpdatesAppend(before.wires, Apply(id, before.state, calls[n]).wires);
    }
  }

  lemma SegmentIsExact(id: string, st: State, s: Segment)
    requires s.Good() && Forwarded(st, s.Index()) == 0
    ensures var r := RunFrom(id, st, s.Calls());
            && Updates(r.wires) == s.Final()
            && forall k: nat :: k != s.Index() ==> Forwarded(r.state, k) == Forwarded(st, k)
  {
    hide Forwarded, Updates, RunFrom, SentFor, Streamed, Named;
    OneBlockSendsAll(id, st, s.Calls(), s.Index());
    BlockIsExact(id, st, s.body, s.end);
  }

  lemma {:induction false} SegmentsAreExact(id: string, st: State, segments: seq<Segment>)
    requires forall s :: s in segments ==> s.Good() && Forwarded(st, s.Index()) == 0
    requires forall i, j :: 0 <= i < j < |segments| ==> segments[i].Index() != segments[j].Index()
    decreases |segments|
    ensures Updates(RunFrom(id, st, SegmentCalls(segments)).wires) == SegmentTexts(segments)
  {
    hide Inside, Forwarded, RunFrom, Updates, Segment.Good, Segment.Index, Segment.Calls, Segment.Final;
    if segments == [] {
      EmptyRun(id, st);
    } else {
      var s, rest := segments[0], segments[1..];
      SegmentIsExact(id, st, s);
      var mid := RunFrom(id, st, s.Calls());
      forall r | r in rest ensures r.Good() && Forwarded(mid.state, r.Index()) == 0 {
        var k :| 0 <= k < |rest| && rest[k] == r;
        assert segments[k + 1] == r;
        assert segments[0].Index() != segments[k + 1].Index();
      }
      SegmentsAreExact(id, mid.state, rest);
      RunSplits(id, st, s.Calls(), SegmentCalls(rest));
      UpdatesAppend(mid.wires, RunFrom(id, mid.state, SegmentCalls(rest)).wires);
    }
  }

  lemma EmptyRun(id: string, st: State)
    ensures RunFrom(id, st, []) == Step(st, []) && Updates(RunFrom(id, st, []).wires) == ""
  {
  }

  lemma WordlessStep(id: string, st: State, c: Call)
    requires Wordless(c)
    ensures Updates(Apply(id, st, c).wires) == ""
  {
    hide Apply, Updates;
    CallUpdates(id, st, c);
  }

  lemma {:induction false} WordlessRun(id: string, st: State, calls: seq<Call>)
    requires forall c :: c in calls ==> Wordless(c)
    ensures Updates(RunFrom(id, st, calls).wires) == ""
  {
    hide Apply, Wordless;
    if calls != [] {
      var n := |calls| - 1;
      assert calls[n] in calls;
      WordlessRun(id, st, calls[..n]);
      WordlessStep(id, RunFrom(id, st, calls[..n]).state, calls[n]);
      UpdatesAppend(RunFrom(id, st, calls[..n]).wires, Apply(id, RunFrom(id, st, calls[..n]).state, calls[n]).wires);
    }
  }

  /** The opening of an assistant message sends no text, and forgets every block of the one before. */
  lemma OpeningStep(id: string, st: State, at: int)
    ensures var r := RunFrom(id, st, [On(MessageStart(true), at)]);
            && r.state == NewTurn(st).(cellOpen := true)
            && r.wires == (if st.cellOpen then [] else [CellStart(id)]) && Updates(r.wires) == ""
  {
    assert [On(MessageStart(true), at)][..0] == [];
    UpdatesOfOne(CellStart(id));
  }

  lemma MessageIsExact(id: string, st: State, m: Message)
    requires m.Good()
    ensures Updates(RunFrom(id, st, m.Calls()).wires) == SegmentTexts(m.segments)
  {
    hide RunFrom, Updates, Segment.Good, Segment.Index, Wordless;
    var opening := [On(MessageStart(true), m.openAt)];
    OpeningStep(id, st, m.openAt);
    var first := RunFrom(id, st, opening);
    RunSplits(id, st, opening, SegmentCalls(m.segments));
    var second := RunFrom(id, first.state, SegmentCalls(m.segments));
    SegmentsAreExact(id, first.state, m.segments);
    UpdatesAppend(first.wires, second.wires);
    RunSplits(id, st, opening + SegmentCalls(m.segments), m.after);
    WordlessRun(id, second.state, m.after);
    UpdatesAppend(first.wires + second.wires, RunFrom(id, second.state, m.after).wires);
  }

  /** Over any number of turns, the text sent is the finished blocks', in order, and nothing else. */
  lemma {:induction false} RunIsExact(id: string, st: State, messages: seq<Message>)
    requires forall m :: m in messages ==> m.Good()
    decreases |messages|
    ensures Updates(RunFrom(id, st, RunCalls(messages)).wires) == RunText(messages)
  {
    hide RunFrom, Updates, Message.Good, Message.Calls;
    if messages == [] {
      EmptyRun(id, st);
    } else {
      var m := messages[0];
      MessageIsExact(id, st, m);
      var mid := RunFrom(id, st, m.Calls());
      RunIsExact(id, mid.state, messages[1..]);
      RunSplits(id, st, m.Calls(), RunCalls(messages[1..]));
      UpdatesAppend(mid.wires, RunFrom(id, mid.state, RunCalls(messages[1..])).wires);
    }
  }

  // ---------------------------------------------------------------- reasoning

  /** A reasoning block as an observer of the calls and the frames sees it. */
  datatype Block = Block(open: bool, produced: string, framed: string, active: nat)

  const NO_BLOCK := Block(false, "", "", 0)

  function Delta(w: Wire): string { if w.CellThinking? && w.thought.Some? then w.thought.value else "" }


  /** Reasoning one call carries. */
  function Thought(c: Call): string {
    if c.On? && c.event.MessageUpdate? && c.event.assistant && c.event.inner.ThinkingDelta? then c.event.inner.delta else ""
  }

  function Observe(b: Block, c: Call, ws: seq<Wire>): Block {
    if OpensMessage(c) then NO_BLOCK
    else if ws == [] then (if b.open then b.(produced := b.produced + Thought(c)) else b)
    else if IsThinkingFrame(ws[0], Started) then Block(true, Thought(c), Delta(ws[0]), 0)
    else if IsThinkingFrame(ws[0], Active) then
      Block(b.open, b.produced + Thought(c), b.framed + Delta(ws[0]), b.active + 1)
    else if IsThinkingFrame(ws[0], Ended) then NO_BLOCK
    else b
  }

  function BlockAfter(id: string, calls: seq<Call>): Block {
    if calls == [] then NO_BLOCK
    else
      var n := |calls| - 1;
      Observe(BlockAfter(id, calls[..n]), calls[n], Apply(id, Run(id, calls[..n]).state, calls[n]).wires)
  }

  /** Nothing thought is lost while a block is open: it has been framed or is waiting in the buffer. */
  ghost predicate Conserved(b: Block, st: State) {
    && (b.open <==> st.thinkingSince.Some?)
    && (b.open ==>
         && b.framed + st.thinkingBuffer == b.produced && st.thinkingChars == |b.produced|
         && 80 * b.active <= st.thinkingTickedAt - st.thinkingSince.value)
    && (!b.open ==> st.thinkingBuffer == "" && st.thinkingChars == 0)
  }

  lemma ThinkConserves(id: string, st: State, b: Block, c: Call)
    requires Conserved(b, st) && c.On? && c.event.MessageUpdate? && c.event.assistant
    requires c.event.inner.ThinkingStart? || c.event.inner.ThinkingDelta?
    ensures var s := Think(id, st, Thought(c), c.at);
            Apply(id, st, c) == s && Conserved(Observe(b, c, s.wires), s.state)
  {
    var delta := Thought(c);
    assert b.open ==> b.framed + (st.thinkingBuffer + delta) == b.produced + delta;
    assert !b.open ==> st.thinkingBuffer + delta == delta;
    assert delta + "" == delta;
  }

  lemma EndThinkConserves(id: string, st: State, b: Block, c: Call)
    requires Conserved(b, st) && !OpensMessage(c) && Thought(c) == ""
    ensures var s := EndThink(id, st, c.at);
            Conserved(Observe(b, c, s.wires), s.state) && (s.wires == [] <==> !b.open) && !Observe(b, c, s.wires).open
  {
    if b.open { assert b.produced + "" == b.produced; }
  }

  lemma StepConserves(id: string, st: State, b: Block, c: Call)
    requires Conserved(b, st)
    ensures var s := Apply(id, st, c); Conserved(Observe(b, c, s.wires), s.state)
  {
    assert b.produced + "" == b.produced;
    if c.On? && c.event.MessageUpdate? && c.event.assistant && (c.event.inner.ThinkingStart? || c.event.inner.ThinkingDelta?) {
      ThinkConserves(id, st, b, c);
    } else if !OpensMessage(c) {
      EndThinkConserves(id, st, b, c);
      hide Think;
    }
  }

  lemma {:induction false} ReasoningIsConserved(id: string, calls: seq<Call>)
    ensures Conserved(BlockAfter(id, calls), Run(id, calls).state)
  {
    hide Apply, Conserved, Observe;
    if calls == [] {
      assert Conserved(NO_BLOCK, FRESH) by { FreshConserves(); }
    } else {
      var n := |calls| - 1;
      ReasoningIsConserved(id, calls[..n]);
      StepConserves(id, Run(id, calls[..n]).state, BlockAfter(id, calls[..n]), calls[n]);
    }
  }

  lemma FreshConserves()
    ensures Conserved(NO_BLOCK, FRESH)
  {
  }

  /**
   * Thoughts are not held back: after one, what is buffered is younger than 80 ms and the last frame than a
   * second. A frame says the block's size and age as they are then, and follows another only when it has to.
   */
  lemma ThinkingIsPrompt(id: string, st: State, inner: Inner, at: int)
    requires inner.ThinkingStart? || inner.ThinkingDelta?
    ensures var s := Apply(id, st, On(MessageUpdate(true, inner), at));
            var text := if inner.ThinkingDelta? then inner.delta else "";
            && s.state.thinkingSince == Some(if st.thinkingSince.Some? then st.thinkingSince.value else at)
            && s.state.thinkingChars == st.thinkingChars + |text|
            && (s.state.thinkingBuffer == "" || at - s.state.thinkingTickedAt < 80) && at - s.state.thinkingTickedAt < 1000
            && |s.wires| <= 1
            && (s.wires == [] ==> st.thinkingSince.Some? && s.state.thinkingBuffer == st.thinkingBuffer + text && s.state.thinkingTickedAt == st.thinkingTickedAt)
            && (s.wires != [] ==>
                 && s.wires[0].CellThinking? && s.wires[0].messageId == id && s.wires[0].phase == (if st.thinkingSince.Some? then Active else Started)
                 && s.wires[0].characters == st.thinkingChars + |text| && s.wires[0].elapsedMs == at - s.state.thinkingSince.value
                 && Delta(s.wires[0]) == st.thinkingBuffer + text && s.state.thinkingBuffer == "" && s.state.thinkingTickedAt == at
                 && (st.thinkingSince.Some? ==>
                      at - st.thinkingTickedAt >= 1000 || (at - st.thinkingTickedAt >= 80 && st.thinkingBuffer + text != "")))
  {
  }

  /**
   * The frame that closes a block: the frames' text is everything the block thought, its size is that
   * text's length, and no more than one frame left in any 80 ms, provided the clock has not gone back.
   */
  lemma ClosingFrameIsComplete(id: string, calls: seq<Call>, c: Call)
    requires var ws := Apply(id, Run(id, calls).state, c).wires; ws != [] && IsThinkingFrame(ws[0], Ended)
    ensures var f := Apply(id, Run(id, calls).state, c).wires[0]; var b := BlockAfter(id, calls);
            && b.open && b.framed + Delta(f) == b.produced && f.characters == |b.produced|
            && (c.at >= Run(id, calls).state.thinkingTickedAt ==> 80 * b.active <= f.elapsedMs)
  {
    hide Run, BlockAfter;
    ReasoningIsConserved(id, calls);
    EndFrameIsComplete(id, Run(id, calls).state, BlockAfter(id, calls), c);
  }

  lemma EndFrameIsComplete(id: string, st: State, b: Block, c: Call)
    requires Conserved(b, st)
    requires var ws := Apply(id, st, c).wires; ws != [] && IsThinkingFrame(ws[0], Ended)
    ensures var f := Apply(id, st, c).wires[0];
            && b.open && b.framed + Delta(f) == b.produced && f.characters == |b.produced|
            && (c.at >= st.thinkingTickedAt ==> 80 * b.active <= f.elapsedMs)
  {
    var f := Apply(id, st, c).wires[0];
    assert EndThink(id, st, c.at).wires == [f];
    assert b.framed + "" == b.framed;
  }

  /**
   * An open block ends without a closing frame exactly when an assistant message opens over it; what
   * was still in the buffer is then the part of the block that no frame carried.
   */
  lemma ReasoningDroppedIff(id: string, st: State, b: Block, c: Call)
    requires Conserved(b, st) && b.open
    ensures var s := Apply(id, st, c);
            (s.state.thinkingSince.None? && !(s.wires != [] && IsThinkingFrame(s.wires[0], Ended))) <==> OpensMessage(c)
    ensures OpensMessage(c) ==> Apply(id, st, c).state.thinkingBuffer == "" && b.produced == b.framed + st.thinkingBuffer
  {
    hide Think;
    if c.On? && c.event.MessageUpdate? && c.event.assistant && (c.event.inner.ThinkingStart? || c.event.inner.ThinkingDelta?) {
      ThinkStaysOpen(id, st, c);
    }
  }

  lemma StepsOfThinking(id: string, text: string, at: int)
    requires text != ""
    ensures var start, think := On(MessageStart(true), at), On(MessageUpdate(true, ThinkingStart), at);
            var begun := FRESH.(cellOpen := true);
            var open := begun.(thinkingSince := Some(at), thinkingTickedAt := at);
            && Apply(id, FRESH, start) == Step(begun, [CellStart(id)])
            && Apply(id, begun, think) == Step(open, [CellThinking(id, Started, 0, 0, None)])
            && Apply(id, open, On(MessageUpdate(true, ThinkingDelta(text)), at)) ==
               Step(open.(thinkingChars := |text|, thinkingBuffer := text), [])
            && Apply(id, open.(thinkingChars := |text|, thinkingBuffer := text), start) ==
               Step(open.(thinkingSince := None), [])
  {
    assert "" + text == text;
  }

  lemma BlockOfThinking(start: Call, think: Call, delta: Call, first: Wire, started: Wire)
    requires OpensMessage(start) && !OpensMessage(think) && Thought(think) == "" && !OpensMessage(delta) && IsThinkingFrame(started, Started)
    ensures var none := Observe(NO_BLOCK, start, [first]);
            Observe(Observe(none, think, [started]), delta, []) == Block(true, Thought(delta), Delta(started), 0)
  {
    assert "" + Thought(delta) == Thought(delta);
  }

  /** What is thought between two frames is lost when the next message opens over the block. */
  lemma ReasoningCanBeDropped(id: string, text: string, at: int)
    requires text != ""
    ensures var start, think := On(MessageStart(true), at), On(MessageUpdate(true, ThinkingStart), at);
            var before := [start, think, On(MessageUpdate(true, ThinkingDelta(text)), at)];
            && BlockAfter(id, before).open && BlockAfter(id, before).produced == text
            && Run(id, before + [start]).wires == [CellStart(id), CellThinking(id, Started, 0, 0, None)]
            && Run(id, before + [start]).state.thinkingBuffer == ""
  {
    var start, think := On(MessageStart(true), at), On(MessageUpdate(true, ThinkingStart), at);
    var delta := On(MessageUpdate(true, ThinkingDelta(text)), at);
    BlockOfThinking(start, think, delta, CellStart(id), CellThinking(id, Started, 0, 0, None));
    hide RunFrom, BlockAfter, Apply, Observe;
    StepsOfThinking(id, text, at);
    RunOfFour(id, start, think, delta, start);
    assert [start, think, delta] + [start] == [start, think, delta, start];
    assert [] + [start] == [start] && [start] + [think] == [start, think] && [start, think] + [delta] == [start, think, delta];
    NothingRun(id);
    RunMore(id, [], start);
    RunMore(id, [start], think);
    BlockMore(id, [], start);
    BlockMore(id, [start], think);
    BlockMore(id, [start, think], delta);
    NoBlockYet(id);
  }

  lemma NoBlockYet(id: string)
    ensures BlockAfter(id, []) == NO_BLOCK
  {
  }

  lemma BlockMore(id: string, calls: seq<Call>, c: Call)
    ensures BlockAfter(id, calls + [c]) == Observe(BlockAfter(id, calls), c, Apply(id, Run(id, calls).state, c).wires)
  {
    hide RunFrom, Apply, Observe;
    assert (calls + [c])[..|calls|] == calls;
  }

  lemma ThinkStaysOpen(id: string, st: State, c: Call)
    ensures Think(id, st, Thought(c), c.at).state.thinkingSince.Some?
  {
  }
}
