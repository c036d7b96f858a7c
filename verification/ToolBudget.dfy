/** The tools a request can afford: prose is shortened in stages before any tool goes. */
module ToolBudget {
  import opened Text
  import opened Json
  import opened ToolProse
  import opened ToolSizes

  datatype Tool = Tool(name: string, description: Option<string>, parameters: Option<Value>)

  /** The estimator, as it reads text of a length. */
  type Ruler = nat -> nat

  ghost predicate Rises(r: Ruler) { forall m: nat, n: nat :: m <= n ==> r(m) <= r(n) }

  const TOOL_ENVELOPE_CHARS: nat := 48

  datatype Stage = Full | TrimmedGuidance | ShortGuidance | SchemaOnly | Minimal {
    function ToolChars(): Cap {
      match this
      case Full => None
      case TrimmedGuidance => Some(600)
      case ShortGuidance => Some(280)
      case SchemaOnly => Some(150)
      case Minimal => Some(90)
    }

    function ParameterChars(): Cap {
      match this
      case Full => None
      case TrimmedGuidance => Some(160)
      case ShortGuidance => Some(90)
      case SchemaOnly => Some(0)
      case Minimal => Some(0)
    }
  }

  function Order(s: Stage): nat {
    match s
    case Full => 0
    case TrimmedGuidance => 1
    case ShortGuidance => 2
    case SchemaOnly => 3
    case Minimal => 4
  }

  /** The stages in order of increasing pressure. */
  const STAGES := [Full, TrimmedGuidance, ShortGuidance, SchemaOnly, Minimal]

  function WireChars(tool: Tool): nat {
    |tool.name| + (if tool.description.Some? then |tool.description.value| else 0)
    + (if tool.parameters.Some? then |Stringify(tool.parameters.value)| else 2) + TOOL_ENVELOPE_CHARS
  }

  function ToolTokens(r: Ruler, tool: Tool): nat { r(WireChars(tool)) }

  function CatalogueTokens(r: Ruler, tools: seq<Tool>): nat {
    if tools == [] then 0 else CatalogueTokens(r, tools[..|tools| - 1]) + ToolTokens(r, tools[|tools| - 1])
  }

  function RenderTool(tool: Tool, stage: Stage): (t: Tool)
    ensures t.name == tool.name
  {
    if stage.Full? then tool
    else
      Tool(tool.name,
           Some(if tool.description.Some? then CapSentences(tool.description.value, stage.ToolChars()) else ""),
           if tool.parameters.Some? then Some(CapSchema(tool.parameters.value, stage.ParameterChars())) else None)
  }

  function Rendered(tools: seq<Tool>, stage: Stage): (ts: seq<Tool>)
    ensures |ts| == |tools| && forall k :: 0 <= k < |ts| ==> ts[k] == RenderTool(tools[k], stage)
  {
    seq(|tools|, k requires 0 <= k < |tools| => RenderTool(tools[k], stage))
  }

  function StageCost(r: Ruler, tools: seq<Tool>, stage: Stage): nat { CatalogueTokens(r, Rendered(tools, stage)) }

  function Names(tools: seq<Tool>): (ns: seq<string>)
    ensures |ns| == |tools| && forall k :: 0 <= k < |ns| ==> ns[k] == tools[k].name
  {
    seq(|tools|, k requires 0 <= k < |tools| => tools[k].name)
  }

  // ---------------------------------------------------------------- stages

  /** What each stage says of a tool: at most so many characters of it, and so many of each parameter. */
  lemma StagesSay(tool: Tool)
    ensures RenderTool(tool, Full) == tool
    ensures Says(RenderTool(tool, TrimmedGuidance), tool, 600, 160) && Says(RenderTool(tool, ShortGuidance), tool, 280, 90)
    ensures Says(RenderTool(tool, SchemaOnly), tool, 150, 0) && Says(RenderTool(tool, Minimal), tool, 90, 0)
  {
    hide CapSentences, CapSchema;
  }

  ghost predicate Says(t: Tool, tool: Tool, toolChars: nat, parameterChars: nat) {
    && t.name == tool.name
    && t.description == Some(if tool.description.None? then "" else CapSentences(tool.description.value, Some(toolChars)))
    && t.parameters == if tool.parameters.None? then None else Some(CapSchema(tool.parameters.value, Some(parameterChars)))
  }

  /** A catalogue costs what its tools do, and a tool what its name, its prose, its printed schema and 48 characters of envelope measure. */
  lemma {:induction false} CatalogueAdds(r: Ruler, xs: seq<Tool>, ys: seq<Tool>)
    ensures CatalogueTokens(r, xs + ys) == CatalogueTokens(r, xs) + CatalogueTokens(r, ys)
  {
    hide ToolTokens;
    if ys == [] {
      assert xs + ys == xs;
    } else {
      CatalogueAdds(r, xs, ys[..|ys| - 1]);
      assert (xs + ys)[..|xs + ys| - 1] == xs + ys[..|ys| - 1];
    }
  }

  lemma ToolCosts(r: Ruler, name: string, description: string, parameters: Value)
    ensures CatalogueTokens(r, [Tool(name, Some(description), Some(parameters))]) == r(|name| + |description| + |Stringify(parameters)| + 48)
    ensures CatalogueTokens(r, [Tool(name, None, None)]) == r(|name| + |"{}"| + 48)
  {
    hide Stringify;
    var full, bare := Tool(name, Some(description), Some(parameters)), Tool(name, None, None);
    assert [full][..0] == [] && [bare][..0] == [];
    assert CatalogueTokens(r, [full]) == CatalogueTokens(r, []) + ToolTokens(r, full);
    assert CatalogueTokens(r, [bare]) == CatalogueTokens(r, []) + ToolTokens(r, bare);
  }

  lemma StagesTighten(s: Stage, t: Stage)
    requires Order(s) <= Order(t)
    ensures AtMost(t.ToolChars(), s.ToolChars()) && AtMost(t.ParameterChars(), s.ParameterChars())
  {
  }

  function SaidAbout(tool: Tool, cap: Cap): nat {
    if tool.description.Some? then |Said(tool.description.value, cap)| else 0
  }

  function SchemaChars(tool: Tool, cap: Cap): nat {
    if tool.parameters.Some? then |Stringify(CapSchema(tool.parameters.value, cap))| else 2
  }

  lemma WireOfRendered(tool: Tool, stage: Stage)
    ensures WireChars(RenderTool(tool, stage)) ==
            |tool.name| + SaidAbout(tool, stage.ToolChars()) + SchemaChars(tool, stage.ParameterChars()) + TOOL_ENVELOPE_CHARS
  {
    hide Stringify, CapSentences, CapSchema;
    if stage.Full? && tool.parameters.Some? {
      UncappedSchema(tool.parameters.value);
    }
  }

  lemma TighterToolIsShorter(tool: Tool, s: Stage, t: Stage)
    requires AtMost(t.ToolChars(), s.ToolChars()) && AtMost(t.ParameterChars(), s.ParameterChars())
    ensures WireChars(RenderTool(tool, t)) <= WireChars(RenderTool(tool, s))
  {
    hide Stringify, CapSentences, CapSchema, RenderTool, WireChars;
    WireOfRendered(tool, s);
    WireOfRendered(tool, t);
    if tool.description.Some? { SmallerCapSaysLess(tool.description.value, t.ToolChars(), s.ToolChars()); }
    if tool.parameters.Some? { SmallerCapPrintsLess(tool.parameters.value, t.ParameterChars(), s.ParameterChars()); }
  }

  /** More pressure never costs more. */
  lemma {:induction false} StageCostNeverIncreases(r: Ruler, tools: seq<Tool>, s: Stage, t: Stage)
    requires Rises(r) && Order(s) <= Order(t)
    ensures StageCost(r, tools, t) <= StageCost(r, tools, s)
  {
    hide RenderTool, WireChars;
    if tools != [] {
      var n := |tools| - 1;
      StageCostNeverIncreases(r, tools[..n], s, t);
      StagesTighten(s, t);
      TighterToolIsShorter(tools[n], s, t);
      assert Rendered(tools, s)[..n] == Rendered(tools[..n], s);
      assert Rendered(tools, t)[..n] == Rendered(tools[..n], t);
    }
  }

  /** What every stage leaves alone: the name, and the shape a call is built from. */
  lemma StagesKeepTheCall(tool: Tool, stage: Stage)
    ensures var t := RenderTool(tool, stage);
            && t.name == tool.name && t.parameters.Some? == tool.parameters.Some?
            && (tool.parameters.Some? ==> Shape(t.parameters.value) == Shape(tool.parameters.value))
  {
    hide Shape, CapSchema, CapSentences;
    if tool.parameters.Some? { CappingKeepsShape(tool.parameters.value, stage.ParameterChars()); }
  }

  lemma {:induction false} FewerToolsCostLess(r: Ruler, tools: seq<Tool>, stage: Stage, m: nat, n: nat)
    requires m <= n <= |tools|
    ensures StageCost(r, tools[..m], stage) <= StageCost(r, tools[..n], stage)
  {
    hide RenderTool;
    if m < n {
      FewerToolsCostLess(r, tools, stage, m, n - 1);
      assert Rendered(tools[..n], stage)[..n - 1] == Rendered(tools[..n - 1], stage);
    }
  }

  // ---------------------------------------------------------------- fitting

  /** What a caller may pass for a budget: any number its language has. */
  datatype Budget = Finite(tokens: real) | PositiveInfinity | NegativeInfinity | NotANumber

  datatype Limit = Of(tokens: nat) | NoLimit

  function Reported(budget: Budget): Limit {
    match budget
    case Finite(x) => Of(if x <= 0.0 then 0 else x.Floor)
    case PositiveInfinity => NoLimit
    case _ => Of(0)
  }

  /** A budget is reported in whole tokens, nothing as 0, and the boundless one as it is. */
  lemma ReportedIs(budget: Budget)
    ensures budget.Finite? && budget.tokens > 0.0 ==>
              Reported(budget).Of? && Reported(budget).tokens as real <= budget.tokens < (Reported(budget).tokens + 1) as real
    ensures budget.Finite? && budget.tokens <= 0.0 ==> Reported(budget) == Of(0)
    ensures budget.PositiveInfinity? <==> Reported(budget).NoLimit?
    ensures budget.NegativeInfinity? || budget.NotANumber? ==> Reported(budget) == Of(0)
  {
  }

  datatype Report = Report(stage: Stage, tokens: nat, tokensBefore: nat, budget: Limit, dropped: seq<string>, overBudget: bool)

  /**
   * What fitting must give back: the least compressed stage that fits; where none does, the longest
   * opening of the catalogue that fits at the last stage, never nothing; and an account of it.
   */
  ghost predicate IsFit(r: Ruler, tools: seq<Tool>, budget: nat, kept: seq<Tool>, report: Report) {
    var n := |kept|;
    && 0 < n <= |tools| && kept == Rendered(tools[..n], report.stage)
    && Names(kept) + report.dropped == Names(tools)
    && report.tokens == CatalogueTokens(r, kept) && report.tokensBefore == CatalogueTokens(r, tools) && report.budget == Of(budget)
    && (forall s: Stage :: Order(s) < Order(report.stage) ==> StageCost(r, tools, s) > budget)
    && (n < |tools| ==> report.stage.Minimal?)
    && (forall m :: n < m <= |tools| ==> StageCost(r, tools[..m], report.stage) > budget)
    && report.overBudget == (report.tokens > budget)
    && (report.overBudget ==> n == 1 && report.stage.Minimal?)
  }

  function Reversed(xs: seq<string>): (r: seq<string>)
    ensures |r| == |xs| && forall k :: 0 <= k < |r| ==> r[k] == xs[|xs| - 1 - k]
  {
    seq(|xs|, k requires 0 <= k < |xs| => xs[|xs| - 1 - k])
  }

  lemma ReversedOneMore(xs: seq<string>, x: string)
    ensures Reversed(xs + [x]) == [x] + Reversed(xs)
  {
  }

  method FitToolsToBudget(r: Ruler, tools: seq<Tool>, budgetTokens: Budget) returns (kept: seq<Tool>, report: Report)
    ensures !(budgetTokens.Finite? && budgetTokens.tokens > 0.0) || tools == [] ==>
              var n := CatalogueTokens(r, tools);
              kept == tools && report == Report(Full, n, n, Reported(budgetTokens), [], false)
    ensures budgetTokens.Finite? && budgetTokens.tokens > 0.0 && tools != [] ==> IsFit(r, tools, budgetTokens.tokens.Floor, kept, report)
  {
    hide RenderTool, CatalogueTokens;
    var tokensBefore := CatalogueTokens(r, tools);
    if !budgetTokens.Finite? || budgetTokens.tokens <= 0.0 || tools == [] {
      return tools, Report(Full, tokensBefore, tokensBefore, Reported(budgetTokens), [], false);
    }
    var budget: nat := budgetTokens.tokens.Floor;
    assert tools[..|tools|] == tools;
    for k := 0 to |STAGES|
      invariant forall s: Stage :: Order(s) < k ==> StageCost(r, tools, s) > budget
    {
      var stage := STAGES[k];
      assert Order(stage) == k;
      var rendered := Rendered(tools, stage);
      var tokens := CatalogueTokens(r, rendered);
      if tokens <= budget {
        assert Names(rendered) + [] == Names(tools);
        return rendered, Report(stage, tokens, tokensBefore, Of(budget), [], false);
      }
      assert forall s: Stage :: Order(s) == k ==> s == stage;
    }
    assert StageCost(r, tools, Minimal) > budget;
    kept := Rendered(tools, Minimal);
    var dropped: seq<string> := [];
    while |kept| > 1 && CatalogueTokens(r, kept) > budget
      invariant 0 < |kept| <= |tools| && kept == Rendered(tools[..|kept|], Minimal)
      invariant Names(kept) + Reversed(dropped) == Names(tools)
      invariant forall m :: |kept| < m <= |tools| ==> StageCost(r, tools[..m], Minimal) > budget
      decreases |kept|
    {
      var n, removed := |kept| - 1, kept[|kept| - 1];
      ReversedOneMore(dropped, removed.name);
      assert Names(kept) == Names(kept[..n]) + [removed.name];
      kept := kept[..n];
      dropped := dropped + [removed.name];
    }
    var tokens := CatalogueTokens(r, kept);
    report := Report(Minimal, tokens, tokensBefore, Of(budget), Reversed(dropped), tokens > budget);
  }

  /** There is one way to fit. */
  lemma FitIsDetermined(r: Ruler, tools: seq<Tool>, budget: nat, kept: seq<Tool>, report: Report, kept': seq<Tool>, report': Report)
    requires IsFit(r, tools, budget, kept, report) && IsFit(r, tools, budget, kept', report')
    ensures kept == kept' && report == report'
  {
    hide RenderTool, CatalogueTokens;
    assert tools[..|tools|] == tools;
    StageIsDetermined(r, tools, budget, kept, report, kept', report');
    StageIsDetermined(r, tools, budget, kept', report', kept, report);
    assert Order(report.stage) == Order(report'.stage);
    assert |kept| == |kept'|;
    assert report.dropped == Names(tools)[|kept|..] == report'.dropped;
  }

  lemma StageIsDetermined(r: Ruler, tools: seq<Tool>, budget: nat, kept: seq<Tool>, report: Report, kept': seq<Tool>, report': Report)
    requires IsFit(r, tools, budget, kept, report) && IsFit(r, tools, budget, kept', report')
    ensures Order(report.stage) >= Order(report'.stage)
  {
    hide RenderTool, CatalogueTokens;
    assert tools[..|tools|] == tools;
    assert !report.stage.Minimal? ==> StageCost(r, tools, report.stage) <= budget;
  }

  /** Over budget means that one tool is left and that even it, at its shortest, is too much. */
  lemma OverBudgetIff(r: Ruler, tools: seq<Tool>, budget: nat, kept: seq<Tool>, report: Report)
    requires Rises(r) && IsFit(r, tools, budget, kept, report)
    ensures report.overBudget <==> StageCost(r, tools[..1], Minimal) > budget
  {
    hide RenderTool, CatalogueTokens;
    FewerToolsCostLess(r, tools, Minimal, 1, |kept|);
    StageCostNeverIncreases(r, tools[..|kept|], report.stage, Minimal);
  }

  // ---------------------------------------------------------------- the window

  const TEMPLATE_OVERHEAD_TOKENS: nat := 256

  function Max(a: int, b: int): int { if a < b then b else a }

  function Min(a: int, b: int): int { if a < b then a else b }

  /** A share of the window in hundredths, rounded down. */
  function Share(window: int, hundredths: nat): int
    requires window > 0
  {
    window * hundredths / 100
  }

  datatype Settings = Disabled | Settings(reserveTokens: int, keepRecentTokens: int)

  function SettingsForWindow(window: int, maxOutputTokens: Option<int>): Settings {
    if window <= 0 then Disabled
    else
      var forOutput := if maxOutputTokens.Some? then Min(window / 2, maxOutputTokens.value) else 0;
      Settings(Max(Max(512, Share(window, 20)), forOutput), Max(512, Share(window, 40)))
  }

  /** The reserve and the recent history fit the window together exactly from 1024 tokens on. */
  lemma SettingsFitIff(window: int, maxOutputTokens: Option<int>)
    requires window > 0
    ensures var s := SettingsForWindow(window, maxOutputTokens);
            && (s.reserveTokens + s.keepRecentTokens <= window <==> window >= 1024)
            && (maxOutputTokens.Some? ==> s.reserveTokens >= Min(window / 2, maxOutputTokens.value))
  {
  }

  /** The shares exactly: a fifth of the window for the reply and two for recent history, neither under 512, and the reply no less than the model may write, up to half the window. */
  lemma SettingsAre(window: int, maxOutputTokens: Option<int>)
    requires window > 0
    ensures var s := SettingsForWindow(window, maxOutputTokens);
            && s.keepRecentTokens >= 512 && 5 * (s.keepRecentTokens + 1) > 2 * window
            && (s.keepRecentTokens == 512 || 5 * s.keepRecentTokens <= 2 * window)
            && s.reserveTokens >= 512 && 5 * (s.reserveTokens + 1) > window
            && (s.reserveTokens == 512 || 5 * s.reserveTokens <= window
                || (maxOutputTokens.Some? && s.reserveTokens <= maxOutputTokens.value && 2 * s.reserveTokens <= window))
            && (maxOutputTokens.Some? ==> s.reserveTokens >= maxOutputTokens.value || 2 * (s.reserveTokens + 1) > window)
    ensures window <= 0 <==> SettingsForWindow(window, maxOutputTokens) == Disabled
  {
  }

  function Committed(window: int, texts: nat): int
    requires window > 0
  {
    SettingsForWindow(window, None).reserveTokens + texts + TEMPLATE_OVERHEAD_TOKENS
  }

  function ConversationFloor(window: int): int
    requires window > 0
  {
    Max(512, Share(window, 35))
  }

  /** `texts` is what the system prompt, the question and the seeded history measure. */
  function ToolBudgetFor(window: int, texts: nat): int {
    if window <= 0 then 0
    else
      var free := window - Committed(window, texts);
      Max(1, Min(free - ConversationFloor(window), Share(window, 45)))
  }

  /**
   * The budget, what goes out whatever happens and the floor kept for the conversation fit the window
   * exactly when there is a token to spare; a budget above 1 says there is.
   */
  lemma BudgetFitsIff(window: int, texts: nat)
    requires window > 0
    ensures var b := ToolBudgetFor(window, texts);
            && (b + Committed(window, texts) + ConversationFloor(window) <= window
                <==> Committed(window, texts) + ConversationFloor(window) < window)
            && (b > 1 ==> Committed(window, texts) + ConversationFloor(window) < window && b <= Share(window, 45))
            && b >= 1
  {
  }

  /** So a catalogue that was fitted, and is not over, leaves the conversation its floor. */
  lemma FittedCatalogueLeavesRoom(r: Ruler, tools: seq<Tool>, window: int, texts: nat, kept: seq<Tool>, report: Report)
    requires window > 0 && ToolBudgetFor(window, texts) > 1
    requires IsFit(r, tools, ToolBudgetFor(window, texts), kept, report) && !report.overBudget
    ensures CatalogueTokens(r, kept) + Committed(window, texts) + ConversationFloor(window) <= window
  {
    hide CatalogueTokens, Rendered;
    BudgetFitsIff(window, texts);
  }

  /** The budget exactly: what reserve, texts, template and the conversation's floor leave, at most nine twentieths of the window, and at least a token. */
  lemma ToolBudgetIs(window: int, texts: nat)
    requires window > 0
    ensures var b, reserve := ToolBudgetFor(window, texts), SettingsForWindow(window, None).reserveTokens;
            var floor := ConversationFloor(window);
            var left := window - reserve - texts - 256 - floor;
            && floor >= 512 && 20 * (floor + 1) > 7 * window && (floor == 512 || 20 * floor <= 7 * window)
            && b >= 1 && (b == 1 || (b <= left && 20 * b <= 9 * window))
            && (b >= left || 20 * (b + 1) > 9 * window)
  {
  }
}
