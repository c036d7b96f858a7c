/**
 * Whole runs of the compactor: over any append-only transcript, any cuts, any summaries and any
 * pattern of failures to write one.
 */
module CompactorRuns {
  import opened Text
  import opened Messages
  import opened Pruning
  import opened Ceiling
  import opened Compactor

  ghost function Run(cfg: Config, turns: seq<Turn>): State {
    if turns == [] then INITIAL else After(cfg, Run(cfg, turns[..|turns| - 1]), turns[|turns| - 1])
  }

  /** The stored transcript only ever grows. */
  ghost predicate AppendOnly(turns: seq<Turn>) {
    forall i, j :: 0 <= i <= j < |turns| ==> turns[i].messages <= turns[j].messages
  }

  ghost function Transcript(turns: seq<Turn>): seq<Message> {
    if turns == [] then [] else turns[|turns| - 1].messages
  }

  /**
   * What a turn makes of one message before any text is cut: the message without its reasoning, or the stub
   * that names its markers where the notes hold all of them and nothing in it is pinned.
   */
  ghost function Going(t: Turn, i: nat): Message
    requires i < |t.messages|
  {
    var plain := StripOne(t.messages[i]);
    if Reclaimable(Strip(t.messages), t.evidenceIds, t.preserved.pinned, i)
    then plain.(content := Blocks([TextBlock("[" + Join(Distinct(Markers(TextOf(plain))), ", ") + "]" + STUB_TAIL)]))
    else plain
  }

  ghost function GoingFrom(t: Turn, from: nat): (r: seq<Message>)
    requires from <= |t.messages|
    ensures |r| == |t.messages| - from && forall k :: 0 <= k < |r| ==> r[k] == Going(t, from + k)
  {
    seq(|t.messages| - from, k requires 0 <= k < |t.messages| - from => Going(t, from + k))
  }

  ghost predicate FoldedBy(call: SummaryCall, t: Turn, i: nat) {
    call.from <= i < call.from + |call.folded| && i < |t.messages| && call.folded[i - call.from] == Going(t, i)
  }

  /** In some turn, what message `i` was then was in a slice that a summary was successfully written for. */
  ghost predicate Summarised(st: State, turns: seq<Turn>, i: nat) {
    exists k, j :: 0 <= k < |st.calls| && 0 <= j < |turns| && FoldedBy(st.calls[k], turns[j], i)
  }

  ghost function HeldAfter(calls: seq<SummaryCall>): Option<string> {
    if calls == [] then None else Some(CapSummary(calls[|calls| - 1].written))
  }

  /** Each summary extended the one before it, and the one held is the last. */
  ghost predicate Chained(st: State) {
    && st.compactions == |st.calls|
    && (forall k :: 0 <= k < |st.calls| ==> st.calls[k].previous == HeldAfter(st.calls[..k]))
    && st.summary == HeldAfter(st.calls)
  }

  ghost predicate NoGap(st: State, turns: seq<Turn>) {
    st.covered <= |Transcript(turns)| && Chained(st) && forall i: nat :: i < st.covered ==> Summarised(st, turns, i)
  }

  lemma WorkingIsGoing(t: Turn, i: nat)
    requires i < |t.messages|
    ensures Working(t)[i] == Going(t, i)
  {
    hide StripOne, Reclaimable, Markers, Distinct, PruneAt;
    PruneClearsOnlyTheDurable(Strip(t.messages), t.evidenceIds, t.preserved.pinned, i);
    assert Strip(t.messages)[i] == StripOne(t.messages[i]);
  }

  lemma WorkingFrom(t: Turn, from: nat)
    requires from <= |t.messages|
    ensures Working(t)[from..] == GoingFrom(t, from)
  {
    hide Working, Going;
    forall k | 0 <= k < |t.messages| - from ensures Working(t)[from..][k] == GoingFrom(t, from)[k] {
      WorkingIsGoing(t, from + k);
    }
  }

  lemma TurnKeepsChain(cfg: Config, st: State, t: Turn)
    requires Chained(st)
    ensures Chained(After(cfg, st, t))
  {
    hide Prune, Strip, RequestTokens, Project, CapSummary, AlignCut, ClearedCount, Clamp, Working, Compacts, HeldAfter;
    var now := After(cfg, st, t);
    assert forall k :: 0 <= k < |st.calls| ==> now.calls[..k] == st.calls[..k];
    if |now.calls| > |st.calls| {
      assert now.calls[..|st.calls|] == st.calls;
      HeldIsTheLast(now.calls);
    }
  }

  lemma HeldIsTheLast(calls: seq<SummaryCall>)
    requires calls != []
    ensures HeldAfter(calls) == Some(CapSummary(calls[|calls| - 1].written))
  {
  }

  lemma StaysSummarised(st: State, turns: seq<Turn>, now: State, t: Turn, i: nat)
    requires Summarised(st, turns, i) && st.calls <= now.calls
    ensures Summarised(now, turns + [t], i)
  {
    hide Going;
    var k, j :| 0 <= k < |st.calls| && 0 <= j < |turns| && FoldedBy(st.calls[k], turns[j], i);
    assert now.calls[k] == st.calls[k] && (turns + [t])[j] == turns[j];
    assert FoldedBy(now.calls[k], (turns + [t])[j], i);
  }

  /** What a compaction newly covers, it has just folded in. */
  lemma FoldsWhatItCovers(st: State, turns: seq<Turn>, t: Turn, i: nat)
    requires t.summariser.Some? && st.covered <= i < Compacted(st, t).covered && st.covered <= |t.messages|
    ensures Summarised(Compacted(st, t), turns + [t], i)
  {
    hide Going, Working, CapSummary;
    var now := Compacted(st, t);
    var last := now.calls[|st.calls|];
    WorkingIsGoing(t, i);
    assert last.folded[i - last.from] == Working(t)[i];
    assert (turns + [t])[|turns|] == t;
    assert FoldedBy(now.calls[|st.calls|], (turns + [t])[|turns|], i);
  }

  lemma TurnSeesOrCompacts(cfg: Config, st: State, t: Turn) returns (seen: State)
    requires st.covered <= |t.messages|
    ensures seen.covered == st.covered && seen.calls == st.calls
    ensures After(cfg, st, t) == seen || (t.summariser.Some? && After(cfg, st, t) == Compacted(seen, t))
    ensures st.calls <= After(cfg, st, t).calls && After(cfg, st, t).covered <= |t.messages|
  {
    hide Working, CapSummary, ClearedCount, RequestTokens, Project, Strip;
    seen := st.(cleared := ClearedCount(Strip(t.messages), t.evidenceIds, t.preserved.pinned, |t.messages|));
  }

  lemma TurnKeepsNoGap(cfg: Config, st: State, turns: seq<Turn>, t: Turn)
    requires NoGap(st, turns) && Transcript(turns) <= t.messages
    ensures NoGap(After(cfg, st, t), turns + [t])
  {
    hide After, Compacted, Summarised, Chained;
    var now := After(cfg, st, t);
    TurnKeepsChain(cfg, st, t);
    var seen := TurnSeesOrCompacts(cfg, st, t);
    forall i: nat | i < now.covered
      ensures Summarised(now, turns + [t], i)
    {
      if i < st.covered {
        StaysSummarised(st, turns, now, t, i);
      } else {
        FoldsWhatItCovers(seen, turns, t, i);
      }
    }
  }

  lemma {:induction false} RunHasNoGap(cfg: Config, turns: seq<Turn>)
    requires AppendOnly(turns)
    ensures NoGap(Run(cfg, turns), turns)
  {
    hide After, NoGap;
    if turns != [] {
      var n := |turns| - 1;
      RunHasNoGap(cfg, turns[..n]);
      assert turns == turns[..n] + [turns[n]];
      assert Transcript(turns[..n]) <= turns[n].messages;
      TurnKeepsNoGap(cfg, Run(cfg, turns[..n]), turns[..n], turns[n]);
    } else {
      NothingCovered();
    }
  }

  lemma NothingCovered()
    ensures NoGap(INITIAL, [])
  {
  }

  /**
   * Where every message of the transcript is, after the last turn of a run: before `tail` it was
   * folded into a summary; from there up to `tail + dropped` it went, and the notice says how many did;
   * from there on it is in the request, in order, whole or with its text cut and said to be cut.
   */
  ghost predicate Accounted(cfg: Config, turns: seq<Turn>, tail: nat, dropped: nat, truncated: nat, kept: seq<Message>)
    requires turns != []
  {
    var t := turns[|turns| - 1];
    var st, raw := Run(cfg, turns), t.messages;
    var pre := |Preamble(st, t)|;
    && tail + dropped <= |raw|
    && (forall i: nat :: i < tail ==> Summarised(st, turns, i))
    && TailBegins(st, t, tail)
    && pre <= |kept|
    && Sent(cfg, Run(cfg, turns[..|turns| - 1]), t) == WithNotice(kept, pre, dropped, truncated)
    && ShortenedFrom(kept, Preamble(st, t) + GoingFrom(t, tail + dropped))
    && (truncated == 0 ==> kept == Preamble(st, t) + GoingFrom(t, tail + dropped))
    && (forall i :: tail <= i < |raw| && IsLastUser(raw, i) ==> tail + dropped <= i)
  }

  /**
   * Behind a summary the tail begins at the last place up to what it covers that leaves no result without its
   * call; without one it is everything.
   */
  ghost predicate TailBegins(st: State, t: Turn, tail: nat) {
    if st.summary.Some? && st.summary.value != "" && st.covered > 0 then
      && tail <= st.covered && tail <= |t.messages| && (tail == 0 || Intact(GoingFrom(t, tail)))
      && forall c: nat :: tail < c <= st.covered && c <= |t.messages| ==> !Intact(GoingFrom(t, c))
    else tail == 0
  }

  lemma TailBeginsThere(st: State, t: Turn)
    requires st.covered <= |t.messages|
    ensures TailBegins(st, t, TailStart(st, Working(t)))
  {
    hide Intact, Working, Going, GoingFrom;
    var working := Working(t);
    WorkingFrom(t, TailStart(st, working));
    forall c: nat | TailStart(st, working) < c <= st.covered && c <= |t.messages| && HasSummary(st)
      ensures !Intact(GoingFrom(t, c))
    {
      WorkingFrom(t, c);
    }
  }

  lemma RoleIsKept(t: Turn, i: nat)
    requires i < |t.messages|
    ensures Working(t)[i].role == t.messages[i].role
  {
    StripTakesOnlyReasoning(t.messages[i]);
    PruneKeepsShape(Strip(t.messages), t.evidenceIds, t.preserved.pinned);
    assert Strip(t.messages)[i].role == t.messages[i].role;
  }

  /** Nothing is lost: every message is summarised, counted in the notice, or sent. The question is sent. */
  lemma NothingIsLost(cfg: Config, turns: seq<Turn>)
    returns (tail: nat, dropped: nat, truncated: nat, kept: seq<Message>)
    requires turns != [] && AppendOnly(turns)
    ensures Accounted(cfg, turns, tail, dropped, truncated, kept)
  {
    hide Enforce, Working, Summarised, WithNotice, Preamble, After, ProtectedFrom, Chained, IsLastUser;
    hide MayStopAt, TailStart, Without, IsShortenedFrom, Going, TailBegins;
    var n := |turns| - 1;
    var t, st := turns[n], Run(cfg, turns);
    var working, pre := Working(t), |Preamble(st, t)|;
    RunHasNoGap(cfg, turns);
    tail := TailStart(st, working);
    TailIsCovered(st, working);
    TailBeginsThere(st, t);
    var projected := Preamble(st, t) + working[tail..];
    var cut;
    cut, truncated, kept := CeilingShape(t.meter, projected, pre, cfg.window, cfg.reserve);
    dropped := cut - pre;
    DroppedBehindPreamble(Preamble(st, t), working, tail, cut);
    WorkingFrom(t, tail + dropped);
    forall i | tail <= i < |t.messages| && IsLastUser(t.messages, i)
      ensures tail + dropped <= i
    {
      LastUserIsProtected(t, pre, tail, projected, i);
    }
  }

  /** What a person pinned goes out with its text: in any run, a kept message that names a pin says all it said. */
  lemma PinnedIsSent(cfg: Config, turns: seq<Turn>, tail: nat, dropped: nat, kept: seq<Message>, i: nat, pin: string)
    requires turns != [] && Accounted(cfg, turns, tail, dropped, 0, kept)
    requires var t := turns[|turns| - 1];
             && tail + dropped <= i < |t.messages| && pin in t.preserved.pinned && pin != ""
             && Occurs(Upper(pin), Upper(TextOf(t.messages[i])))
    ensures var t := turns[|turns| - 1];
            exists m :: m in Sent(cfg, Run(cfg, turns[..|turns| - 1]), t) && m == StripOne(t.messages[i]) && TextOf(m) == TextOf(t.messages[i])
  {
    hide Sent, Summarised, StripOne, Preamble, ShortenedFrom, IsLastUser;
    var t, st := turns[|turns| - 1], Run(cfg, turns);
    var m := StripOne(t.messages[i]);
    StripTakesOnlyReasoning(t.messages[i]);
    assert Strip(t.messages)[i] == m;
    assert !Reclaimable(Strip(t.messages), t.evidenceIds, t.preserved.pinned, i) by { PinsAreKept(Strip(t.messages), t.evidenceIds, t.preserved.pinned, i, pin); }
    assert kept[|Preamble(st, t)| + i - tail - dropped] == GoingFrom(t, tail + dropped)[i - tail - dropped] == m;
    StillThere(kept, |Preamble(st, t)|, dropped, m);
  }

  lemma PinsAreKept(ms: seq<Message>, durable: seq<string>, pinned: seq<string>, i: nat, pin: string)
    requires i < |ms| && pin in pinned && pin != "" && Occurs(Upper(pin), Upper(TextOf(ms[i])))
    ensures !Reclaimable(ms, durable, pinned, i)
  {
  }

  lemma StillThere(kept: seq<Message>, pre: nat, dropped: nat, m: Message)
    requires pre <= |kept| && m in kept
    ensures m in WithNotice(kept, pre, dropped, 0)
  {
    hide Notice;
    assert kept == kept[..pre] + kept[pre..];
  }

  lemma TailIsCovered(st: State, working: seq<Message>)
    requires st.covered <= |working|
    ensures TailStart(st, working) <= st.covered
  {
  }

  lemma DroppedBehindPreamble(pre: seq<Message>, ms: seq<Message>, tail: nat, cut: nat)
    requires tail <= |ms| && |pre| <= cut <= |pre| + |ms| - tail
    ensures Without(pre + ms[tail..], |pre|, cut) == pre + ms[tail + cut - |pre|..]
    ensures (pre + ms[tail..])[|pre|..] == ms[tail..]
  {
  }

  ghost predicate IsLastUser(ms: seq<Message>, i: nat)
    requires i < |ms|
  {
    ms[i].role.User? && forall j :: i < j < |ms| ==> !ms[j].role.User?
  }

  lemma LastUserIsProtected(t: Turn, pre: nat, tail: nat, projected: seq<Message>, i: nat)
    requires tail <= i < |t.messages| && IsLastUser(t.messages, i)
    requires pre <= |projected| && projected[pre..] == Working(t)[tail..]
    ensures ProtectedFrom(projected, pre) == pre + i - tail
  {
    hide Working;
    RoleIsKept(t, i);
    assert projected[pre..][i - tail] == Working(t)[i];
    var p := ProtectedFrom(projected, pre);
    assert projected[pre..][p - pre] == Working(t)[tail + p - pre];
    RoleIsKept(t, tail + p - pre);
  }

  /** Every request of a run keeps its tool results with their calls. */
  lemma RequestsKeepPairs(cfg: Config, st: State, t: Turn)
    requires Intact(t.messages)
    ensures Intact(Sent(cfg, st, t))
  {
    hide Intact, Enforce, StripOne, PruneAt, CallIds, ResultId;
    var now := After(cfg, st, t);
    var stripped, working := Strip(t.messages), Working(t);
    forall k | 0 <= k < |t.messages|
      ensures CallIds(stripped[k]) == CallIds(t.messages[k]) && ResultId(stripped[k]) == ResultId(t.messages[k])
    {
      StripTakesOnlyReasoning(t.messages[k]);
    }
    SameCallsKeepIntact(t.messages, stripped);
    PruneKeepsShape(stripped, t.evidenceIds, t.preserved.pinned);
    SameCallsKeepIntact(stripped, working);
    var pre, tail := Preamble(now, t), working[TailStart(now, working)..];
    assert Intact(tail) by { assert working[0..] == working; }
    PrefixWithoutTools(pre, tail);
    assert (pre + tail)[..|pre|] == pre;
    CeilingKeepsPairs(t.meter, pre + tail, |pre|, cfg.window, cfg.reserve);
  }

  /**
   * Behind a summary the carried state always comes second, and it is whole exactly when no text had to be
   * cut, or it is within its share, or has nothing to cut. Then all of it stands in it word for word.
   */
  lemma StateReachesTheModel(cfg: Config, st: State, t: Turn)
    requires var now := After(cfg, st, t); now.summary.Some? && now.summary.value != "" && now.covered > 0
    requires SomethingToCarry(t.preserved, t.notes)
    ensures var now, sent := After(cfg, st, t), Sent(cfg, st, t);
            && |sent| >= 2 && |Preamble(now, t)| == 2
            && sent[0] == Message(CompactionSummary, Plain(now.summary.value), None, None)
            && (sent[1] == Preamble(now, t)[1] <==> SentWhole(t.meter, Project(now, t), 2, cfg.window, cfg.reserve, 1))
            && (sent[1] == Preamble(now, t)[1] ==> Carries(TextOf(sent[1]), t.preserved, t.notes))
  {
    hide Working, CarriedMessage, SentWhole, Enforce, After, TextOf, Carries, SomethingToCarry;
    var now := After(cfg, st, t);
    var projected := Project(now, t);
    StateIsCarried(t.preserved, t.notes);
    assert Preamble(now, t) == [SummaryMessage(now.summary.value), CarriedMessage(t.preserved, t.notes).value];
    PreambleIsSent(t.meter, projected, 2, cfg.window, cfg.reserve, 0);
    PreambleIsSent(t.meter, projected, 2, cfg.window, cfg.reserve, 1);
    SummaryHasNoText(t.meter, projected, cfg.window, cfg.reserve);
  }

  /** Where there is nothing to carry, only the summary stands ahead of the tail; without a summary, only the notes. */
  lemma NothingElseLeads(st: State, t: Turn)
    ensures var summarised := st.summary.Some? && st.summary.value != "" && st.covered > 0;
            && (summarised && !SomethingToCarry(t.preserved, t.notes) ==>
                 Preamble(st, t) == [Message(CompactionSummary, Plain(st.summary.value), None, None)])
            && (!summarised && t.notes == "" ==> Preamble(st, t) == [])
  {
    hide CarriedMessage, SomethingToCarry;
    StateIsCarried(t.preserved, t.notes);
  }

  /** In particular every decision in force. */
  lemma DecisionsReachTheModel(cfg: Config, st: State, t: Turn, k: nat)
    requires HasSummary(After(cfg, st, t)) && k < |t.preserved.policyDecisions|
    ensures var now, sent := After(cfg, st, t), Sent(cfg, st, t);
            && |sent| >= 2 && |Preamble(now, t)| == 2
            && sent[0] == Message(CompactionSummary, Plain(now.summary.value), None, None)
            && (sent[1] == Preamble(now, t)[1] <==> SentWhole(t.meter, Project(now, t), 2, cfg.window, cfg.reserve, 1))
            && (sent[1] == Preamble(now, t)[1] ==> Occurs("  - " + t.preserved.policyDecisions[k], TextOf(sent[1])))
  {
    hide Sent, Preamble, Project, After, SentWhole, TextOf, Occurs;
    assert t.preserved.policyDecisions[k] in t.preserved.policyDecisions;
    StateReachesTheModel(cfg, st, t);
  }

  /** Before there is a summary the notes come first, and whole under that same condition. */
  lemma NotesReachTheModel(cfg: Config, st: State, t: Turn)
    requires var now := After(cfg, st, t); !(now.summary.Some? && now.summary.value != "" && now.covered > 0)
    requires t.notes != ""
    ensures var now, sent := After(cfg, st, t), Sent(cfg, st, t);
            && |Preamble(now, t)| == 1 <= |sent|
            && (sent[0] == Message(User, Blocks([TextBlock(t.notes)]), None, None) <==> SentWhole(t.meter, Project(now, t), 1, cfg.window, cfg.reserve, 0))
  {
    hide Working, SentWhole, Enforce, After;
    var now := After(cfg, st, t);
    assert Preamble(now, t) == [UserText(t.notes)] && Project(now, t)[0] == UserText(t.notes);
    PreambleIsSent(t.meter, Project(now, t), 1, cfg.window, cfg.reserve, 0);
  }

  /**
   * What one turn does to the compactor. It counts the results it cleared. It folds more history in exactly when
   * compaction is on, the request as it stands is over the window less the reply, the cut is behind what is
   * covered, and a summary could be written; and then only what lay between goes to the summariser.
   */
  ghost predicate Turned(cfg: Config, st: State, t: Turn, now: State)
    requires st.covered <= |t.messages|
  {
    var to := if t.cut < |t.messages| then t.cut else |t.messages|;
    && now.cleared == |set k | 0 <= k < |t.messages| && Reclaimable(Strip(t.messages), t.evidenceIds, t.preserved.pinned, k)|
    && if cfg.enabled && cfg.window > 0 && RequestTokens(t.meter, Project(st, t)) + cfg.reserve > cfg.window
          && t.cut > st.covered && t.summariser.Some?
       then
         && now.summary == Some(CapSummary(t.summariser.value)) && now.compactions == st.compactions + 1
         && now.calls == st.calls + [SummaryCall(st.covered, GoingFrom(t, st.covered)[..to - st.covered], st.summary, t.summariser.value)]
         && now.covered <= to && (now.covered == 0 || Intact(GoingFrom(t, now.covered)))
         && (forall c: nat :: now.covered < c <= to ==> !Intact(GoingFrom(t, c)))
       else now == st.(cleared := now.cleared)
  }

  lemma TurnIsWrittenOut(cfg: Config, st: State, t: Turn)
    requires st.covered <= |t.messages|
    ensures Turned(cfg, st, t, After(cfg, st, t))
  {
    hide Intact, Working, Going, GoingFrom, RequestTokens, CapSummary, Strip, Reclaimable, Project, ClearedCount;
    var stripped := Strip(t.messages);
    ClearedAreCounted(stripped, t.evidenceIds, t.preserved.pinned, |t.messages|);
    var seen := st.(cleared := ClearedCount(stripped, t.evidenceIds, t.preserved.pinned, |t.messages|));
    ProjectReadsNoCount(st, t, seen.cleared);
    var now := After(cfg, st, t);
    if Compacts(cfg, seen, t) {
      var to := if t.cut < |t.messages| then t.cut else |t.messages|;
      WorkingFrom(t, st.covered);
      assert Working(t)[st.covered..to] == Working(t)[st.covered..][..to - st.covered];
      WorkingFrom(t, now.covered);
      forall c: nat | now.covered < c <= to ensures !Intact(GoingFrom(t, c)) { WorkingFrom(t, c); }
    }
  }

  lemma SummaryHasNoText(m: Meter, ms: seq<Message>, window: int, reserve: nat)
    requires |ms| >= 2 && ms[0].content.Plain?
    ensures SentWhole(m, ms, 2, window, reserve, 0)
  {
    hide NoCutNeeded, ShareOf, Inflated;
  }

  // ---------------------------------------------------------------- moving backwards

  /**
   * Folding more history in does not mean covering more of it: the boundary moves back exactly when
   * every cut between the old boundary and the requested one would orphan a tool result.
   */
  lemma CoverageGrowsIff(cfg: Config, st: State, t: Turn)
    requires Compacts(cfg, st, t) && st.covered <= |t.messages|
    ensures After(cfg, st, t).covered >= st.covered <==>
            st.covered == 0 ||
            exists c: nat :: st.covered <= c <= Clamp(t.cut, |t.messages|) && Intact(Working(t)[c..])
  {
    hide Prune, Strip, RequestTokens, CapSummary, Intact, ClearedCount, Enforce;
    ProjectReadsNoCount(st, t, After(cfg, st, t).cleared);
    var now := After(cfg, st, t);
    assert now.covered == AlignCut(Working(t), t.cut);
    if now.covered >= st.covered && st.covered > 0 {
      assert Intact(Working(t)[now.covered..]);
    }
  }

  lemma ProjectReadsNoCount(st: State, t: Turn, cleared: nat)
    ensures Project(st.(cleared := cleared), t) == Project(st, t)
  {
  }

  /** A result that arrives long after its call: no cut between the two keeps them together. */
  function LateResult(): seq<Message> {
    [Message(Assistant, Blocks([ToolCall(Some("x"), "read", "")]), None, None), UserText("a"), UserText("b"),
     Message(ToolResult, Blocks([TextBlock("late")]), Some("x"), None)]
  }

  lemma LateResultPairs()
    ensures Intact(LateResult()) && Strip(LateResult()) == LateResult()
    ensures forall c: nat :: 1 <= c <= 2 ==> !Intact(LateResult()[c..])
  {
    var ms := LateResult();
    assert ToolCall(Some("x"), "read", "") in ms[0].content.blocks;
    assert "x" in CallIds(ms[0]);
    assert IssuedBy(ms, 3, "x");
    RemovingNothing(ms[0].content.blocks, (b: Block) => b.Thinking?);
    forall c: nat | 1 <= c <= 2 ensures !Intact(ms[c..]) {
      var late := ms[c..];
      assert ResultId(late[3 - c]) == Some("x");
      assert forall j :: 0 <= j < 3 - c ==> late[j] == ms[c + j] && CallIds(late[j]) == {};
      assert !IssuedBy(late, 3 - c, "x");
    }
  }

  /** Such a result takes the boundary back to the start. */
  lemma CoverageCanMoveBack(cfg: Config, st: State, t: Turn)
    requires cfg == Config(true, 1, 1) && st.covered == 1 && t.cut == 2
    requires t.messages == LateResult() && t.evidenceIds == [] && t.meter.fixed == 1 && t.summariser.Some?
    ensures Intact(t.messages) && Compacts(cfg, st, t)
    ensures After(cfg, st, t).covered == 0
  {
    hide RequestTokens, CapSummary, Project, Intact, Strip, Preamble, ClearedCount, PruneOne;
    LateResultPairs();
    assert |t.messages| == 4;
    assert Working(t) == t.messages;
    RequestIsPositive(t.meter, Project(st, t));
    ProjectReadsNoCount(st, t, After(cfg, st, t).cleared);
    assert After(cfg, st, t).covered == AlignCut(t.messages, 2);
  }

  lemma BeforeTheResult()
    ensures var ms := LateResult()[..3]; Intact(ms[1..]) && Strip(ms) == ms
  {
    var ms := LateResult()[..3];
    assert forall k :: 0 <= k < |ms[1..]| ==> ms[1..][k].role.User?;
    RemovingNothing(ms[0].content.blocks, (b: Block) => b.Thinking?);
  }

  /** A run of two turns that gets there: one message is covered while its result is still out, and uncovered when it comes in. */
  lemma RunCanMoveBack(cfg: Config, first: Turn, second: Turn)
    requires cfg == Config(true, 1, 1)
    requires first.messages == LateResult()[..3] && first.cut == 1 && second.messages == LateResult() && second.cut == 2
    requires forall t :: t == first || t == second ==> t.evidenceIds == [] && t.meter.fixed == 1 && t.summariser.Some?
    ensures AppendOnly([first, second])
    ensures Run(cfg, [first]).covered == 1 && Run(cfg, [first, second]).covered == 0
  {
    hide RequestTokens, CapSummary, Project, Intact, Strip, Preamble, ClearedCount, PruneOne;
    assert [first, second][..1] == [first] && [first][..0] == [];
    BeforeTheResult();
    assert Working(first) == first.messages;
    RequestIsPositive(first.meter, Project(INITIAL, first));
    ProjectReadsNoCount(INITIAL, first, Run(cfg, [first]).cleared);
    assert Run(cfg, [first]).covered == AlignCut(first.messages, 1);
    CoverageCanMoveBack(cfg, Run(cfg, [first]), second);
  }

  lemma RequestIsPositive(m: Meter, ms: seq<Message>)
    requires m.fixed > 0
    ensures RequestTokens(m, ms) > 0
  {
    LastUsageIsPositive(ms);
  }

  lemma {:induction false} LastUsageIsPositive(ms: seq<Message>)
    ensures LastUsage(ms).Some? ==> ms[LastUsage(ms).value].usage.value > 0
  {
    if ms != [] { LastUsageIsPositive(ms[..|ms| - 1]); }
  }

  // ---------------------------------------------------------------- the window

  /**
   * What leaves the compactor fits the window less the reply, at the run's own drift, whenever some
   * stop short of the question does.
   */
  lemma RequestsFit(cfg: Config, st: State, t: Turn)
    requires cfg.window > 0 && t.meter.Valid() && MeasuresNotices(t.meter.est)
    requires NoticeCost(t.meter) < CeilingOf(cfg.window, cfg.reserve)
    requires |Project(After(cfg, st, t), t)| < PowerOfTen(27)
    requires var now := After(cfg, st, t);
             DroppingReaches(t.meter, Project(now, t), |Preamble(now, t)|, TargetOf(t.meter, cfg.window, cfg.reserve))
    ensures var sent := Sent(cfg, st, t);
            Inflated(t.meter, RequestTokens(t.meter, sent)) <= CeilingOf(cfg.window, cfg.reserve) ||
            Cost(t.meter, sent) <= CeilingOf(cfg.window, cfg.reserve)
  {
    hide After, Project, Enforce, Inflated, Cost, RequestTokens, DroppingReaches, NoticeCost, PowerOfTen, TargetOf, Preamble;
    var now := After(cfg, st, t);
    CeilingIsMet(t.meter, Project(now, t), |Preamble(now, t)|, cfg.window, cfg.reserve);
  }
}
