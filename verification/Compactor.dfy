/**
 * One run's compactor, which keeps its requests within the window, called before every model
 * request with the transcript so far.
 *
 * The model server, the cut-point search and the person's pins are inputs of a turn: any cut, any
 * summary and any failure to write one.
 */
module Compactor {
  import opened Text
  import opened Messages
  import opened Pruning
  import opened Ceiling

  datatype Config = Config(enabled: bool, window: int, reserve: nat)

  /** What the engine words itself when a summary replaces history, so that no model can misreport it. */
  datatype Preserved = Preserved(
    activePlan: string, policyDecisions: seq<string>, evidenceRefs: seq<string>,
    unresolvedIssues: seq<string>, recentFiles: seq<string>, pinned: seq<string>)

  /** One turn: the transcript, what the notes say, and how the oracles answer. */
  datatype Turn = Turn(
    messages: seq<Message>, notes: string, evidenceIds: seq<string>, preserved: Preserved,
    meter: Meter, cut: int, summariser: Option<string>)

  /** A summary that was written: the slice it was asked to fold in, and what it was asked to extend. */
  datatype SummaryCall = SummaryCall(from: nat, folded: seq<Message>, previous: Option<string>, written: string)

  datatype State = State(summary: Option<string>, covered: nat, compactions: nat, cleared: nat, calls: seq<SummaryCall>)

  const INITIAL := State(None, 0, 0, 0, [])

  // ---------------------------------------------------------------- the summary

  const MAX_SUMMARY_CHARS := 16000
  const SUMMARY_TRUNCATED := "\n\n[Compaction summary truncated to fit budget]"

  function CapSummary(s: string): (r: string)
    ensures |r| <= MAX_SUMMARY_CHARS && (|s| <= MAX_SUMMARY_CHARS ==> r == s)
  {
    if |s| <= MAX_SUMMARY_CHARS then s else s[..MAX_SUMMARY_CHARS - |SUMMARY_TRUNCATED|] + SUMMARY_TRUNCATED
  }

  /** A summary over the cap is its opening and the mark that says so, and exactly as long as the cap. */
  lemma LongSummaryIsMarked(s: string) returns (n: nat)
    requires |s| > 16000
    ensures n <= |s| && CapSummary(s) == s[..n] + "\n\n[Compaction summary truncated to fit budget]" && |CapSummary(s)| == 16000
  {
    n := MAX_SUMMARY_CHARS - |SUMMARY_TRUNCATED|;
  }

  function SummaryMessage(summary: string): Message {
    Message(CompactionSummary, Plain(summary), None, None)
  }

  // ---------------------------------------------------------------- state carried verbatim

  /** What a carried message says before its lines. Nothing depends on its wording. */
  const CARRIED_HEAD: string

  function Bullets(xs: seq<string>): (r: seq<string>)
    ensures |r| == |xs| && forall k :: 0 <= k < |xs| ==> r[k] == "  - " + xs[k]
  {
    seq(|xs|, k requires 0 <= k < |xs| => "  - " + xs[k])
  }

  function CarriedLines(state: Preserved, notes: string): seq<string> {
    (if state.activePlan != "" then ["Active plan: " + state.activePlan] else []) +
    (if state.policyDecisions != [] then ["Policy and approval decisions still in force:"] + Bullets(state.policyDecisions) else []) +
    (if state.evidenceRefs != [] then ["Evidence available by marker: " + Join(state.evidenceRefs, ", ")] else []) +
    (if state.unresolvedIssues != [] then ["Still unresolved:"] + Bullets(state.unresolvedIssues) else []) +
    (if state.recentFiles != [] then ["Files in play: " + Join(state.recentFiles, ", ")] else []) +
    (if state.pinned != [] then ["Kept at the operator's request, and still current: " + Join(state.pinned, ", ")] else []) +
    (if notes != "" then [notes] else [])
  }

  function CarriedMessage(state: Preserved, notes: string): Option<Message> {
    if CarriedLines(state, notes) == [] then None
    else Some(UserText(CARRIED_HEAD + Join(CarriedLines(state, notes), "\n")))
  }

  /** There is something to say beside the summary. */
  predicate SomethingToCarry(state: Preserved, notes: string) {
    state.activePlan != "" || state.policyDecisions != [] || state.evidenceRefs != [] || state.unresolvedIssues != []
    || state.recentFiles != [] || state.pinned != [] || notes != ""
  }

  /** All of the state, and the notes, stand in a text word for word, each under its label. */
  ghost predicate Carries(text: string, state: Preserved, notes: string) {
    && (state.activePlan != "" ==> Occurs("Active plan: " + state.activePlan, text))
    && (state.policyDecisions != [] ==> Occurs("Policy and approval decisions still in force:", text))
    && (forall d :: d in state.policyDecisions ==> Occurs("  - " + d, text))
    && (state.evidenceRefs != [] ==> Occurs("Evidence available by marker: " + Join(state.evidenceRefs, ", "), text))
    && (state.unresolvedIssues != [] ==> Occurs("Still unresolved:", text))
    && (forall d :: d in state.unresolvedIssues ==> Occurs("  - " + d, text))
    && (state.recentFiles != [] ==> Occurs("Files in play: " + Join(state.recentFiles, ", "), text))
    && (state.pinned != [] ==> Occurs("Kept at the operator's request, and still current: " + Join(state.pinned, ", "), text))
    && (notes != "" ==> Occurs(notes, text))
  }

  /** What the lines to be carried hold. */
  ghost predicate Lines(lines: seq<string>, state: Preserved, notes: string) {
    && (state.activePlan != "" ==> "Active plan: " + state.activePlan in lines)
    && (state.policyDecisions != [] ==> "Policy and approval decisions still in force:" in lines)
    && (forall d :: d in state.policyDecisions ==> "  - " + d in lines)
    && (state.evidenceRefs != [] ==> "Evidence available by marker: " + Join(state.evidenceRefs, ", ") in lines)
    && (state.unresolvedIssues != [] ==> "Still unresolved:" in lines)
    && (forall d :: d in state.unresolvedIssues ==> "  - " + d in lines)
    && (state.recentFiles != [] ==> "Files in play: " + Join(state.recentFiles, ", ") in lines)
    && (state.pinned != [] ==> "Kept at the operator's request, and still current: " + Join(state.pinned, ", ") in lines)
    && (notes != "" ==> notes in lines)
  }

  lemma BulletIsThere(xs: seq<string>, x: string)
    requires x in xs
    ensures "  - " + x in Bullets(xs)
  {
    var k :| 0 <= k < |xs| && xs[k] == x;
    assert Bullets(xs)[k] == "  - " + x;
  }

  lemma LinesAreThere(state: Preserved, notes: string)
    ensures Lines(CarriedLines(state, notes), state, notes)
    ensures CarriedLines(state, notes) == [] <==> !SomethingToCarry(state, notes)
  {
    hide Join, Bullets;
    forall d | d in state.policyDecisions ensures "  - " + d in CarriedLines(state, notes) { BulletIsThere(state.policyDecisions, d); }
    forall d | d in state.unresolvedIssues ensures "  - " + d in CarriedLines(state, notes) { BulletIsThere(state.unresolvedIssues, d); }
  }

  /** All the state and the notes are in the carried message word for word, and there is one exactly when there is something to say. */
  lemma StateIsCarried(state: Preserved, notes: string)
    ensures CarriedMessage(state, notes).Some? <==> SomethingToCarry(state, notes)
    ensures SomethingToCarry(state, notes) ==> Carries(TextOf(CarriedMessage(state, notes).value), state, notes)
  {
    LinesAreThere(state, notes);
    hide Join, CarriedLines, TextOf, Occurs;
    var lines := CarriedLines(state, notes);
    if SomethingToCarry(state, notes) {
      var text := TextOf(UserText(CARRIED_HEAD + Join(lines, "\n")));
      forall line | line in lines ensures Occurs(line, text) {
        var k :| 0 <= k < |lines| && lines[k] == line;
        LineIsInMessage(lines, k);
      }
    }
  }

  /** In particular every decision in force. */
  lemma DecisionsAreCarried(state: Preserved, notes: string, k: nat)
    requires k < |state.policyDecisions|
    ensures CarriedMessage(state, notes).Some?
    ensures Occurs("  - " + state.policyDecisions[k], TextOf(CarriedMessage(state, notes).value))
    ensures notes != "" ==> Occurs(notes, TextOf(CarriedMessage(state, notes).value))
  {
    hide CarriedMessage, TextOf, Occurs;
    assert state.policyDecisions[k] in state.policyDecisions;
    StateIsCarried(state, notes);
  }

  lemma TextOfUserText(text: string)
    ensures TextOf(UserText(text)) == text
  {
    assert [TextBlock(text)][1..] == [];
    assert BlocksText([TextBlock(text)]) == text + "";
  }

  lemma LineIsInMessage(lines: seq<string>, k: nat)
    requires k < |lines|
    ensures Occurs(lines[k], TextOf(UserText(CARRIED_HEAD + Join(lines, "\n"))))
  {
    var text := CARRIED_HEAD + Join(lines, "\n");
    hide TextOf, Join;
    JoinKeepsParts(lines, "\n", k);
    OccursWithin(lines[k], CARRIED_HEAD, Join(lines, "\n"), "");
    assert text + "" == text;
    TextOfUserText(text);
  }

  // ---------------------------------------------------------------- one turn

  function Working(t: Turn): (w: seq<Message>)
    ensures |w| == |t.messages|
  {
    Prune(Strip(t.messages), t.evidenceIds, t.preserved.pinned)
  }

  predicate HasSummary(st: State) { st.summary.Some? && st.summary.value != "" && st.covered > 0 }

  /** Where the kept tail begins. */
  ghost function TailStart(st: State, working: seq<Message>): (t: nat)
    ensures t <= |working|
  {
    if HasSummary(st) then AlignCut(working, st.covered) else 0
  }

  /** The messages this code writes ahead of the kept tail. */
  function Preamble(st: State, t: Turn): (pre: seq<Message>)
    ensures |pre| <= 2 && NoTools(pre)
  {
    if HasSummary(st) then
      var carried := CarriedMessage(t.preserved, t.notes);
      [SummaryMessage(st.summary.value)] + (if carried.Some? then [carried.value] else [])
    else if t.notes == "" then []
    else [UserText(t.notes)]
  }

  ghost function Project(st: State, t: Turn): (p: seq<Message>)
    ensures |Preamble(st, t)| <= |p|
  {
    Preamble(st, t) + Working(t)[TailStart(st, Working(t))..]
  }

  predicate ShouldCompact(tokens: nat, cfg: Config) {
    cfg.enabled && cfg.window > 0 && tokens > cfg.window - cfg.reserve
  }

  /** Whether this turn folds more history into the summary. */
  ghost predicate Compacts(cfg: Config, st: State, t: Turn) {
    ShouldCompact(RequestTokens(t.meter, Project(st, t)), cfg) && t.cut > st.covered && t.summariser.Some?
  }

  ghost function Compacted(st: State, t: Turn): State
    requires t.summariser.Some?
  {
    var working := Working(t);
    var from := Clamp(st.covered, |working|);
    var to := Clamp(t.cut, |working|);
    var call := SummaryCall(from, if from <= to then working[from..to] else [], st.summary, t.summariser.value);
    st.(summary := Some(CapSummary(t.summariser.value)), covered := AlignCut(working, t.cut),
        compactions := st.compactions + 1, calls := st.calls + [call])
  }

  ghost function After(cfg: Config, st: State, t: Turn): State {
    var seen := st.(cleared := ClearedCount(Strip(t.messages), t.evidenceIds, t.preserved.pinned, |t.messages|));
    if Compacts(cfg, seen, t) then Compacted(seen, t) else seen
  }

  ghost function Sent(cfg: Config, st: State, t: Turn): seq<Message> {
    var now := After(cfg, st, t);
    Enforce(t.meter, Project(now, t), |Preamble(now, t)|, cfg.window, cfg.reserve)
  }

  class RunCompactor {
    const cfg: Config
    var summary: Option<string>
    var covered: nat
    var compactions: nat
    var cleared: nat
    ghost var calls: seq<SummaryCall>

    constructor (cfg: Config)
      ensures this.cfg == cfg && Abs() == INITIAL
    {
      this.cfg := cfg;
      summary, covered, compactions, cleared, calls := None, 0, 0, 0, [];
    }

    ghost function Abs(): State
      reads this
    {
      State(summary, covered, compactions, cleared, calls)
    }

    method ProjectNow(t: Turn, working: seq<Message>) returns (projected: seq<Message>, preamble: nat)
      requires working == Working(t)
      ensures projected == Project(Abs(), t) && preamble == |Preamble(Abs(), t)| <= |projected|
    {
      hide Working, CarriedMessage, AlignCut;
      if summary.None? || summary.value == "" || covered == 0 {
        if t.notes == "" {
          return working, 0;
        }
        return [UserText(t.notes)] + working, 1;
      }
      var carried := CarriedMessage(t.preserved, t.notes);
      var aligned := AlignCutToPairs(working, covered);
      var tail := working[aligned..];
      if carried.Some? {
        projected, preamble := [SummaryMessage(summary.value), carried.value] + tail, 2;
      } else {
        projected, preamble := [SummaryMessage(summary.value)] + tail, 1;
      }
    }

    method Transform(t: Turn) returns (sent: seq<Message>)
      modifies this
      ensures Abs() == After(cfg, old(Abs()), t)
      ensures sent == Sent(cfg, old(Abs()), t)
    {
      hide Prune, Strip, RequestTokens, Enforce, AlignCut, ClearedCount, Project, Preamble, CapSummary, Clamp;
      var replayed, stripped := WithoutReplayedReasoning(t.messages);
      var working, count := PruneStaleToolResults(replayed, t.evidenceIds, t.preserved.pinned);
      cleared := count;
      var projected, preamble := ProjectNow(t, working);
      var tokens := RequestTokens(t.meter, projected);
      if !ShouldCompact(tokens, cfg) || t.cut <= covered || t.summariser.None? {
        sent := EnforceCeiling(t.meter, projected, preamble, cfg.window, cfg.reserve);
        return;
      }
      ghost var from := Clamp(covered, |working|);
      ghost var to := Clamp(t.cut, |working|);
      calls := calls + [SummaryCall(from, if from <= to then working[from..to] else [], summary, t.summariser.value)];
      summary := Some(CapSummary(t.summariser.value));
      covered := AlignCutToPairs(working, t.cut);
      compactions := compactions + 1;
      projected, preamble := ProjectNow(t, working);
      sent := EnforceCeiling(t.meter, projected, preamble, cfg.window, cfg.reserve);
    }
  }
}
