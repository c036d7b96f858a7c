/** Messages made of printed calls, read back. */
module RepairRoundTrip {
  import opened Text
  import opened Json
  import opened Repair
  import opened RepairProofs
  import opened RepairCalls

  /** The three ways a model is known to write a call. */
  datatype Wrapping = Bare | Fenced(info: string, before: string, after: string) | Tagged(before: string, after: string)

  /** A call as written, behind any white space. */
  datatype Written = Written(gap: string, wrapping: Wrapping, cst: Cst) {
    function Text(): string {
      match wrapping
      case Bare => Render(cst)
      case Fenced(info, before, after) => "```" + info + before + Render(cst) + after + "```"
      case Tagged(before, after) => CALL_OPEN + before + Render(cst) + after + CALL_CLOSE
    }

    /** An object, its strings strict or not, that does not itself spell the end of its wrapping. */
    ghost predicate Good() { cst.CObj? && Strict(Tighten(cst)) && Fits() }

    ghost predicate Fits() {
      && AllSpace(gap)
      && match wrapping
         case Bare => true
         case Fenced(info, before, after) =>
           && (forall k :: 0 <= k < |info| ==> IsLabelChar(info[k])) && AllSpace(before) && AllSpace(after)
           && !Occurs("```", Render(cst))
         case Tagged(before, after) => AllSpace(before) && AllSpace(after) && !Occurs(CALL_CLOSE, Render(cst))
    }

    ghost function Call(allowed: seq<string>): Option<ToolCall>
      requires Strict(Tighten(cst))
    {
      AsToolCall(Some(ValueOf(Tighten(cst))), allowed)
    }
  }

  /** Calls, and whatever the model wrote behind them. */
  function MessageText(ws: seq<Written>, tail: string): string {
    if ws == [] then tail else ws[0].gap + ws[0].Text() + MessageText(ws[1..], tail)
  }

  /** A text that opens with an object, a fence that is closed, or a tag that is closed. */
  ghost predicate OpensPiece(s: string) {
    || (StartsWith(s, "```") && Occurs("```", s[FenceHeader(s)..]))
    || (StartsWith(s, CALL_OPEN) && Occurs(CALL_CLOSE, s[|CALL_OPEN|..]))
    || (s != "" && s[0] == '{')
  }

  /** What `s` opens with is no call of an allowed tool, though more calls may stand behind it. */
  ghost predicate OpensNoCall(s: string, allowed: seq<string>) {
    OpensPiece(s) ==> NextPiece(s).Some? && AsToolCall(ParseLenient(Trim(NextPiece(s).value.body)), allowed).None?
  }

  // ---------------------------------------------------------------- trimming around a call

  lemma {:induction false} TrimEndAppend(x: string, y: string)
    requires x != "" && !IsSpace(x[|x| - 1])
    ensures TrimEnd(x + y) == x + TrimEnd(y)
  {
    hide IsSpace;
    if y == "" || !IsSpace(y[|y| - 1]) {
      assert x + "" == x;
      if y != "" { assert (x + y)[|x + y| - 1] == y[|y| - 1]; }
    } else {
      var n := |y| - 1;
      assert (x + y)[|x + y| - 1] == y[n] && (x + y)[..|x + y| - 1] == x + y[..n];
      TrimEndAppend(x, y[..n]);
      assert TrimEnd(y) == TrimEnd(y[..n]);
    }
  }

  lemma {:induction false} TrimStartKeepsEnd(u: string)
    requires u != "" && !IsSpace(u[|u| - 1])
    ensures TrimStart(u) != "" && TrimStart(u)[|TrimStart(u)| - 1] == u[|u| - 1]
  {
    hide IsSpace;
    if IsSpace(u[0]) { TrimStartKeepsEnd(u[1..]); }
  }

  lemma TrimAfterTrimEnd(t: string)
    ensures Trim(TrimEnd(t)) == Trim(t)
  {
    hide IsSpace, AllSpace, Trim, TrimStart, TrimEnd;
    var u := TrimEnd(t);
    var spaces := t[|u|..];
    NothingIsSpace();
    if u == "" {
      assert t[0..] == t && "" + "" + t == t && "" + "" + "" == "";
      TrimOfPadded("", "", t);
      TrimOfPadded("", "", "");
    } else {
      TrimStartKeepsEnd(u);
      var v := TrimStart(u);
      var left := u[..|u| - |v|];
      assert u == left + v && t == left + v + spaces && left + v + "" == u;
      TrimOfPadded(left, v, "");
      TrimOfPadded(left, v, spaces);
    }
  }

  lemma NothingIsSpace()
    ensures AllSpace("")
  {
  }

  lemma ObjectIsTrimmed(c: Cst)
    requires c.CObj?
    ensures Trimmed(Render(c)) && Render(c)[0] == '{' && Render(c)[|Render(c)| - 1] == '}' && |Render(c)| >= 2
  {
  }

  // ---------------------------------------------------------------- where a wrapping ends

  /** A mark without spaces that occurs among padding occurs in what is padded. */
  lemma OccursInBody(pat: string, before: string, body: string, after: string, at: nat)
    requires pat != "" && AllSpace(before) && AllSpace(after) && OccursAt(pat, before + body + after, at)
    requires forall k :: 0 <= k < |pat| ==> !IsSpace(pat[k])
    ensures Occurs(pat, body)
  {
    hide IsSpace;
    var s, last := before + body + after, at + |pat| - 1;
    assert forall k :: 0 <= k < |pat| ==> s[at..at + |pat|][k] == s[at + k] == pat[k];
    assert forall k :: 0 <= k < |before| ==> s[k] == before[k] && IsSpace(s[k]);
    assert forall k :: |before| + |body| <= k < |s| ==> s[k] == after[k - |before| - |body|] && IsSpace(s[k]);
    assert !IsSpace(s[at]) && !IsSpace(s[last]) by { assert s[at] == pat[0] && s[last] == pat[|pat| - 1]; }
    var i := at - |before|;
    assert s[at..at + |pat|] == body[i..i + |pat|];
    assert OccursAt(pat, body, i);
  }

  lemma NotInPadding(pat: string, before: string, body: string, after: string)
    requires pat != "" && !Occurs(pat, body) && AllSpace(before) && AllSpace(after)
    requires forall k :: 0 <= k < |pat| ==> !IsSpace(pat[k])
    ensures !Occurs(pat, before + body + after)
  {
    hide IsSpace, AllSpace, OccursAt;
    if at: nat :| OccursAt(pat, before + body + after, at) {
      OccursInBody(pat, before, body, after, at);
    }
  }

  lemma OccursBefore(x: string, pat: string, rest: string, at: nat)
    requires at < |x| && OccursAt(pat, x + pat + rest, at)
    ensures Occurs(pat, x) || x[|x| - 1] in pat
  {
    var s := x + pat + rest;
    if at + |pat| <= |x| {
      assert s[at..at + |pat|] == x[at..at + |pat|];
      assert OccursAt(pat, x, at);
    } else {
      assert s[at..at + |pat|][|x| - 1 - at] == x[|x| - 1];
    }
  }

  /** The first closing mark is the one that was written, when what stands before it can be no part of one. */
  lemma FirstClose(x: string, pat: string, rest: string)
    requires pat != "" && !Occurs(pat, x) && x != "" && x[|x| - 1] !in pat
    ensures IndexOf(pat, x + pat + rest) == Some(|x|)
  {
    var s := x + pat + rest;
    assert s[|x|..|x| + |pat|] == pat;
    assert OccursAt(pat, s, |x|);
    hide OccursAt;
    var r := IndexOf(pat, s);
    if r.value < |x| { OccursBefore(x, pat, rest, r.value); }
  }

  lemma {:induction false} RunStops(x: string, rest: string, p: char -> bool)
    requires (forall k :: 0 <= k < |x| ==> p(x[k])) && (rest == "" || !p(rest[0]))
    ensures RunOf(x + rest, p) == |x|
  {
    if x == "" {
      assert x + rest == rest;
    } else {
      assert (x + rest)[1..] == x[1..] + rest;
      RunStops(x[1..], rest, p);
    }
  }

  lemma FenceParts(behind: string)
    ensures var s := "```" + behind; s[..3] == "```" && s[3..] == behind
  {
  }

  lemma Behind(x: string, tail: string)
    ensures (x + tail)[|x|..] == tail
  {
  }

  lemma LabelEnds(info: string, pad: string, body: string)
    requires (forall k :: 0 <= k < |info| ==> IsLabelChar(info[k])) && AllSpace(pad) && body != "" && body[0] == '{'
    ensures AfterLabel(info + (pad + body)) == pad + body
  {
    assert !IsLabelChar('{');
    if pad != "" { SpaceIsNoLabel(pad[0]); }
    hide IsLabelChar, IsSpace, RunOf, AllSpace;
    assert (pad + body)[0] == if pad != "" then pad[0] else body[0];
    RunStops(info, pad + body, IsLabelChar);
    Behind(info, pad + body);
  }

  /** A fence may be labelled with letters, digits, underscores and hyphens. */
  lemma LabelsAre(c: char)
    ensures IsLabelChar(c) <==> ('a' <= c <= 'z') || ('A' <= c <= 'Z') || ('0' <= c <= '9') || c in "_-"
  {
  }

  lemma SpaceIsNoLabel(c: char)
    requires IsSpace(c)
    ensures !IsLabelChar(c)
  {
  }

  /** The opening of a fence takes blanks and one line break, and what it leaves of the white space is trimmed. */
  lemma BreakEnds(pad: string, body: string) returns (m: nat)
    requires body != "" && body[0] == '{'
    ensures m <= |pad| && AfterBreak(AfterBlanks(pad + body)) == pad[m..] + body
  {
    hide RunOf;
    var t := pad + body;
    var n := RunOf(t, IsBlank);
    assert n <= |pad| by { assert n > |pad| ==> IsBlank(t[|pad|]); }
    var u := pad[n..] + body;
    assert AfterBlanks(t) == u;
    m := n;
    if u[0] == '\r' {
      assert n < |pad| && u[1..] == pad[n + 1..] + body;
      m := n + 1;
    }
    var v := pad[m..] + body;
    if v[0] == '\n' {
      assert m < |pad| && v[1..] == pad[m + 1..] + body;
      m := m + 1;
    }
  }

  lemma HeaderTakesSpace(info: string, pad: string, body: string) returns (m: nat)
    requires (forall k :: 0 <= k < |info| ==> IsLabelChar(info[k])) && AllSpace(pad) && body != "" && body[0] == '{'
    ensures var s := "```" + (info + (pad + body));
            m <= |pad| && StartsWith(s, "```") && FenceHeader(s) == 3 + |info| + m && s[3 + |info| + m..] == pad[m..] + body
  {
    hide AfterLabel, AfterBlanks, AfterBreak, IsLabelChar, AllSpace;
    FenceParts(info + (pad + body));
    LabelEnds(info, pad, body);
    m := BreakEnds(pad, body);
    Behind("```" + info + pad[..m], pad[m..] + body);
    assert "```" + (info + (pad + body)) == "```" + info + pad[..m] + (pad[m..] + body);
  }

  /** Each wrapping gives back the object it was put around, and ends where it was closed. */
  lemma PieceOfWritten(w: Written, rest: string)
    requires w.Good()
    ensures var p := NextPiece(w.Text() + rest);
            p.Some? && p.value.end == |w.Text()| && Trim(p.value.body) == Render(w.cst)
  {
    match w.wrapping {
      case Bare => PieceOfBare(w.cst, rest);
      case Fenced(info, before, after) => PieceOfFence(info, before, w.cst, after, rest);
      case Tagged(before, after) => PieceOfTagged(before, w.cst, after, rest);
    }
  }

  lemma PieceOfBare(c: Cst, rest: string)
    requires c.CObj? && Strict(Tighten(c))
    ensures NextPiece(Render(c) + rest) == Some(Piece(Render(c), |Render(c)|)) && Trim(Render(c)) == Render(c)
  {
    hide Render, Lexical, Strict, Tighten, IndexOf, FenceHeader, EndOfObject;
    ObjectIsTrimmed(c);
    StrictIsLexical(Tighten(c));
    var s := Render(c) + rest;
    assert s[0] == '{';
    OpensOtherwise(s, "```");
    OpensOtherwise(s, CALL_OPEN);
    ScannerIsExact(c, rest);
    assert s[..|Render(c)|] == Render(c);
    TrimOfTrimmed(Render(c));
  }

  lemma PieceOfFence(info: string, before: string, c: Cst, after: string, rest: string)
    requires c.CObj? && !Occurs("```", Render(c)) && forall k :: 0 <= k < |info| ==> IsLabelChar(info[k])
    requires AllSpace(before) && AllSpace(after)
    ensures var text := "```" + info + before + Render(c) + after + "```";
            var p := NextPiece(text + rest);
            p.Some? && p.value.end == |text| && Trim(p.value.body) == Render(c)
  {
    hide Render, IndexOf, FenceHeader, IsLabelChar, EndOfObject, Occurs, Trim, IsSpace, AllSpace, StartsWith;
    var text := "```" + info + before + Render(c) + after + "```";
    var s, body := text + rest, Render(c) + after + "```" + rest;
    ObjectIsTrimmed(c);
    var m := HeaderTakesSpace(info, before, body);
    assert s == "```" + (info + (before + body));
    var pad, x := before[m..], before[m..] + Render(c) + after;
    assert AllSpace(pad) by { TailIsSpace(before, m); }
    TicksAreNoSpace();
    NotInPadding("```", pad, Render(c), after);
    EndsBeforeTicks(pad, c, after);
    FirstClose(x, "```", rest);
    assert pad + body == x + "```" + rest;
    TrimOfPadded(pad, Render(c), after);
    var h := 3 + |info| + m;
    assert s[h..h + |x|] == x by { assert s[h..][..|x|] == x; }
    assert |text| == h + |x| + 3;
    PieceOfClosedFence(s, h, x);
  }

  lemma PieceOfClosedFence(s: string, h: nat, x: string)
    requires StartsWith(s, "```") && FenceHeader(s) == h && h + |x| <= |s| && s[h..h + |x|] == x
    requires IndexOf("```", s[h..]) == Some(|x|)
    ensures NextPiece(s) == Some(Piece(x, h + |x| + 3))
  {
    hide FenceHeader, EndOfObject, StartsWith;
  }

  lemma TailIsSpace(s: string, m: nat)
    requires AllSpace(s) && m <= |s|
    ensures AllSpace(s[m..])
  {
    hide IsSpace;
  }

  lemma TicksAreNoSpace()
    ensures forall k :: 0 <= k < |"```"| ==> !IsSpace("```"[k])
  {
  }

  lemma EndsBeforeTicks(pad: string, c: Cst, after: string)
    requires c.CObj? && AllSpace(after)
    ensures var x := pad + Render(c) + after; x != "" && x[|x| - 1] !in "```"
  {
    hide Render;
    ObjectIsTrimmed(c);
    var x := pad + Render(c) + after;
    if after != "" {
      assert IsSpace(after[|after| - 1]) && x[|x| - 1] == after[|after| - 1];
    } else {
      assert x[|x| - 1] == '}';
    }
  }

  lemma OpensWith(s: string, mark: string, other: string)
    requires StartsWith(s, mark) && mark != "" && other != "" && mark[0] != other[0]
    ensures !StartsWith(s, other)
  {
    assert s[..|mark|][0] == s[0];
    OpensOtherwise(s, other);
  }

  lemma PieceOfTagged(before: string, c: Cst, after: string, rest: string)
    requires c.CObj? && AllSpace(before) && AllSpace(after) && !Occurs(CALL_CLOSE, Render(c))
    ensures var text := CALL_OPEN + before + Render(c) + after + CALL_CLOSE;
            var p := NextPiece(text + rest);
            p.Some? && p.value.end == |text| && Trim(p.value.body) == Render(c)
  {
    hide Render, IndexOf, FenceHeader, EndOfObject, Occurs, Trim, IsSpace, AllSpace;
    ObjectIsTrimmed(c);
    var x := before + Render(c) + after;
    var s := CALL_OPEN + before + Render(c) + after + CALL_CLOSE + rest;
    assert s == CALL_OPEN + (x + CALL_CLOSE + rest);
    assert StartsWith(s, CALL_OPEN) && s[|CALL_OPEN|..] == x + CALL_CLOSE + rest;
    OpensWith(s, CALL_OPEN, "```");
    TagHasNoSpace();
    NotInPadding(CALL_CLOSE, before, Render(c), after);
    TagEndsOutside(before, c, after);
    FirstClose(x, CALL_CLOSE, rest);
    assert s[|CALL_OPEN|..|CALL_OPEN| + |x|] == x;
    TrimOfPadded(before, Render(c), after);
  }

  lemma TagHasNoSpace()
    ensures forall k :: 0 <= k < |CALL_CLOSE| ==> !IsSpace(CALL_CLOSE[k])
  {
  }

  lemma TagEndsOutside(before: string, c: Cst, after: string)
    requires c.CObj? && AllSpace(after)
    ensures var x := before + Render(c) + after; x != "" && x[|x| - 1] !in CALL_CLOSE
  {
    hide Render, IsSpace;
    ObjectIsTrimmed(c);
    TagHasNoSpace();
    var x := before + Render(c) + after;
    if after != "" {
      assert IsSpace(after[|after| - 1]) && x[|x| - 1] == after[|after| - 1];
    } else {
      assert x[|x| - 1] == '}' && '}' !in "</tool_call>";
    }
  }

  // ---------------------------------------------------------------- the loop

  lemma WrittenIsTrimmed(w: Written)
    requires w.Good()
    ensures w.Text() != "" && !IsSpace(w.Text()[0]) && !IsSpace(w.Text()[|w.Text()| - 1])
    ensures w.Text()[0] == '{' || w.Text()[0] == '`' || w.Text()[0] == '<'
  {
    hide Render;
    ObjectIsTrimmed(w.cst);
    match w.wrapping {
      case Bare =>
      case Fenced(info, before, after) => assert w.Text()[|w.Text()| - 1] == "```"[2];
      case Tagged(before, after) => assert w.Text()[|w.Text()| - 1] == CALL_CLOSE[|CALL_CLOSE| - 1];
    }
  }

  lemma TrimPadded(gap: string, x: string, rest: string)
    requires AllSpace(gap) && x != "" && !IsSpace(x[0]) && !IsSpace(x[|x| - 1])
    ensures Trim(gap + x + rest) == x + TrimEnd(rest)
  {
    hide IsSpace, AllSpace, TrimStart, TrimEnd;
    assert (x + rest)[0] == x[0];
    TrimStartOfPadded(gap, x + rest);
    Associative(gap, x, rest);
    TrimEndAppend(x, rest);
  }

  lemma TrimToFirst(w: Written, rest: string)
    requires w.Good()
    ensures Trim(w.gap + w.Text() + rest) == w.Text() + TrimEnd(rest)
  {
    hide Written.Text, IsSpace, Trim;
    WrittenIsTrimmed(w);
    TrimPadded(w.gap, w.Text(), rest);
  }

  ghost predicate AllCalls(ws: seq<Written>, allowed: seq<string>) {
    forall w :: w in ws ==> w.Good() && w.Call(allowed).Some?
  }

  ghost function CallsOf(ws: seq<Written>, allowed: seq<string>): seq<ToolCall>
    requires AllCalls(ws, allowed)
  {
    if ws == [] then []
    else
      assert ws[0] in ws;
      [ws[0].Call(allowed).value] + CallsOf(ws[1..], allowed)
  }

  /** The loop takes a piece exactly when one opens the text. */
  lemma PieceIff(s: string)
    ensures NextPiece(s).Some? <==> OpensPiece(s)
  {
    hide FenceHeader, EndOfObject, OccursAt;
  }

  /** Nothing more is read exactly when what comes next is no call: one false piece ends the reading. */
  lemma NoneReadIff(s: string, allowed: seq<string>)
    ensures CallsIn(s, allowed) == [] <==> OpensNoCall(s, allowed)
  {
    hide NextPiece, OpensPiece, ParseLenient, AsToolCall, Trim, CallsIn;
    PieceIff(s);
    CallsInStep(s, allowed);
    if s == "" { NothingOpens(); }
  }

  lemma NothingOpens()
    ensures !OpensPiece("")
  {
  }

  lemma WrittenReads(w: Written)
    requires w.Good()
    ensures ParseLenient(Render(w.cst)) == Some(ValueOf(Tighten(w.cst)))
  {
    hide ParseLenient, Render, Tighten;
    assert "" + Render(w.cst) + "" == Render(w.cst);
    LenientReadsLoose("", w.cst, "");
  }

  lemma {:induction false} LoopReadsCalls(ws: seq<Written>, tail: string, allowed: seq<string>)
    requires AllCalls(ws, allowed)
    ensures CallsIn(Trim(MessageText(ws, tail)), allowed) == CallsOf(ws, allowed) + CallsIn(Trim(tail), allowed)
  {
    hide NextPiece, ParseLenient, AsToolCall, CallsIn, Written.Good, Written.Text, Render, Tighten, Trim;
    if ws == [] {
      assert [] + CallsIn(Trim(tail), allowed) == CallsIn(Trim(tail), allowed);
    } else {
      var w, more := ws[0], MessageText(ws[1..], tail);
      LoopReadsCalls(ws[1..], tail, allowed);
      WrittenIsTrimmed(w);
      TrimToFirst(w, more);
      var rest := w.Text() + TrimEnd(more);
      PieceOfWritten(w, TrimEnd(more));
      WrittenReads(w);
      assert rest[|w.Text()|..] == TrimEnd(more);
      TrimAfterTrimEnd(more);
      CallsInStep(rest, allowed);
      GoodIsStrict(w);
      CallsMore(ws, CallsIn(Trim(tail), allowed), allowed);
    }
  }

  lemma CallsMore(ws: seq<Written>, behind: seq<ToolCall>, allowed: seq<string>)
    requires ws != [] && AllCalls(ws, allowed)
    ensures AllCalls(ws[1..], allowed) && ws[0] in ws
    ensures CallsOf(ws, allowed) + behind == [ws[0].Call(allowed).value] + (CallsOf(ws[1..], allowed) + behind)
  {
    hide Written.Good, Written.Call, Strict, Tighten;
  }

  lemma GoodIsStrict(w: Written)
    requires w.Good()
    ensures Strict(Tighten(w.cst))
  {
  }

  // ---------------------------------------------------------------- nothing echoed in front

  lemma LabelIsNoSpace(c: char)
    requires IsLabelChar(c)
    ensures !IsSpace(c) && c != '<'
  {
  }

  lemma FirstAfterSpaces(x: string, pad: string, body: string)
    requires (forall k :: 0 <= k < |x| ==> IsLabelChar(x[k])) && AllSpace(pad) && body != "" && body[0] == '{'
    ensures var t := TrimStart(x + (pad + body)); t != "" && t[0] != '<'
  {
    assert !IsSpace('{');
    if x != "" { LabelIsNoSpace(x[0]); }
    hide IsSpace, TrimStart, IsLabelChar, AllSpace;
    if x == "" {
      assert x + (pad + body) == pad + body;
      TrimStartOfPadded(pad, body);
    } else {
      var s := x + (pad + body);
      assert s[0] == x[0] && "" + s == s;
      NothingIsSpace();
      TrimStartOfPadded("", s);
    }
  }

  lemma XmlIsInTheLabel(info: string, tail: string)
    requires tail != "" && !IsLabelChar(tail[0]) && StartsWith(info + tail, "xml")
    ensures |info| >= 3 && (info + tail)[3..] == info[3..] + tail
  {
    var s := info + tail;
    assert s[..3] == "xml" && s[|info|] == tail[0];
    assert s[0] == 'x' && s[1] == 'm' && s[2] == 'l';
    assert |info| >= 3 by { assert IsLabelChar('x') && IsLabelChar('m') && IsLabelChar('l'); }
  }

  lemma NoListBehindXml(info: string, pad: string, body: string)
    requires (forall k :: 0 <= k < |info| ==> IsLabelChar(info[k])) && AllSpace(pad) && body != "" && body[0] == '{'
    requires StartsWith(info + (pad + body), "xml")
    ensures !StartsWith(TrimStart((info + (pad + body))[3..]), TOOLS_OPEN)
  {
    EndsLabel(pad, body);
    hide IsLabelChar, TrimStart, StartsWith, AllSpace, IsSpace;
    XmlIsInTheLabel(info, pad + body);
    FirstAfterSpaces(info[3..], pad, body);
    OpensOtherwise(TrimStart(info[3..] + (pad + body)), TOOLS_OPEN);
  }

  lemma EndsLabel(pad: string, body: string)
    requires AllSpace(pad) && body != "" && body[0] == '{'
    ensures pad + body != "" && !IsLabelChar((pad + body)[0])
  {
    assert !IsLabelChar('{');
    if pad != "" { SpaceIsNoLabel(pad[0]); }
  }

  lemma NoListBehind(info: string, pad: string, body: string)
    requires (forall k :: 0 <= k < |info| ==> IsLabelChar(info[k])) && AllSpace(pad) && body != "" && body[0] == '{'
    ensures !StartsWith(TrimStart(info + (pad + body)), TOOLS_OPEN)
  {
    hide IsLabelChar, TrimStart, AllSpace, IsSpace, StartsWith;
    FirstAfterSpaces(info, pad, body);
    OpensOtherwise(TrimStart(info + (pad + body)), TOOLS_OPEN);
  }

  lemma FenceIsNoEcho(info: string, pad: string, body: string)
    requires (forall k :: 0 <= k < |info| ==> IsLabelChar(info[k])) && AllSpace(pad) && body != "" && body[0] == '{'
    ensures var s := "```" + (info + (pad + body)); DropFencedEcho(s) == s && DropEcho(s) == s
  {
    hide IsLabelChar, TrimStart, DropFencedEcho, DropEcho, AllSpace, IsSpace;
    FenceOpens(info + (pad + body));
    if StartsWith(info + (pad + body), "xml") {
      NoListBehindXml(info, pad, body);
    } else {
      NoListBehind(info, pad, body);
    }
    NotEchoed(info + (pad + body));
  }

  lemma FenceOpens(behind: string)
    ensures DropEcho("```" + behind) == "```" + behind
  {
    hide IndexOf;
    OpensOtherwise("```" + behind, TOOLS_OPEN);
  }

  lemma NotEchoed(behind: string)
    requires if StartsWith(behind, "xml") then !StartsWith(TrimStart(behind[3..]), TOOLS_OPEN)
             else !StartsWith(TrimStart(behind), TOOLS_OPEN)
    ensures DropFencedEcho("```" + behind) == "```" + behind
  {
    hide TrimStart, FencedToolsEnd;
    var s := "```" + behind;
    assert s[3..] == behind && (|s| >= 6 ==> s[6..] == behind[3..]);
  }

  lemma CallsAreNoEcho(w: Written, rest: string)
    requires w.Good()
    ensures DropEcho(DropFencedEcho(w.Text() + rest)) == w.Text() + rest
  {
    hide Render;
    ObjectIsTrimmed(w.cst);
    var s := w.Text() + rest;
    match w.wrapping {
      case Bare =>
        OpensOtherwise(s, "```");
        OpensOtherwise(s, TOOLS_OPEN);
      case Fenced(info, before, after) =>
        var body := Render(w.cst) + after + "```" + rest;
        assert s == "```" + (info + (before + body));
        FenceIsNoEcho(info, before, body);
      case Tagged(before, after) =>
        OpensOtherwise(s, "```");
        assert s[..7] == "<tool_c";
    }
  }

  // ---------------------------------------------------------------- an echoed tool list

  lemma {:induction false} TrimStartOver(gap: string, y: string)
    requires AllSpace(gap)
    ensures TrimStart(gap + y) == TrimStart(y)
  {
    if gap == "" {
      assert gap + y == y;
    } else {
      assert (gap + y)[0] == gap[0] && (gap + y)[1..] == gap[1..] + y;
      TrimStartOver(gap[1..], y);
    }
  }

  /** Trimming at the end first comes to the same. */
  lemma TrimsEitherWay(y: string)
    ensures TrimStart(TrimEnd(y)) == Trim(y)
  {
    hide IsSpace, TrimStart, TrimEnd;
    var u := TrimEnd(y);
    TrimAfterTrimEnd(y);
    if u == "" {
      NothingToTrim();
    } else {
      TrimStartKeepsEnd(u);
      EndsUntrimmed(TrimStart(u));
    }
  }

  lemma NothingToTrim()
    ensures TrimStart("") == "" && Trim("") == ""
  {
  }

  lemma EndsUntrimmed(t: string)
    requires t == "" || !IsSpace(t[|t| - 1])
    ensures TrimEnd(t) == t
  {
  }

  /** Behind text that holds no closing mark, the next one is the first: no mark can begin in the one and end in the other. */
  lemma FirstMark(x: string, rest: string)
    requires !Occurs(TOOLS_CLOSE, x)
    ensures IndexOf(TOOLS_CLOSE, x + TOOLS_CLOSE + rest) == Some(|x|)
    ensures forall at: nat :: at < |x| ==> !OccursAt(TOOLS_CLOSE, x + TOOLS_CLOSE + rest, at)
  {
    var s := x + TOOLS_CLOSE + rest;
    assert s[|x|..|x| + |TOOLS_CLOSE|] == TOOLS_CLOSE;
    assert OccursAt(TOOLS_CLOSE, s, |x|);
    forall at: nat | at < |x| ensures !OccursAt(TOOLS_CLOSE, s, at) {
      assert !OccursAt(TOOLS_CLOSE, x, at);
      if at + |TOOLS_CLOSE| <= |x| {
        assert s[at..at + |TOOLS_CLOSE|] == x[at..at + |TOOLS_CLOSE|];
      } else {
        assert s[at..at + |TOOLS_CLOSE|][|x| - at] == s[|x|] == '<';
      }
    }
  }

  lemma DropsBare(x: string, rest: string)
    requires !Occurs(TOOLS_CLOSE, x)
    ensures DropEcho(TOOLS_OPEN + x + TOOLS_CLOSE + rest) == TrimStart(rest)
  {
    hide IndexOf, TrimStart, Occurs;
    var s := TOOLS_OPEN + x + TOOLS_CLOSE + rest;
    FirstMark(x, rest);
    SplitEcho(x, rest);
    assert s[..|TOOLS_OPEN|] == TOOLS_OPEN;
  }

  lemma SplitEcho(x: string, rest: string)
    ensures var s := TOOLS_OPEN + x + TOOLS_CLOSE + rest;
            s[|TOOLS_OPEN|..] == x + TOOLS_CLOSE + rest && s[|TOOLS_OPEN| + |x| + |TOOLS_CLOSE|..] == rest
  {
  }

  /** A tool list echoed ahead of a message, whatever it lists, is as if it had not been said. */
  lemma EchoIsDropped(lead: string, x: string, y: string, allowed: seq<string>)
    requires AllSpace(lead) && !Occurs("</tools>", x)
    ensures var calls := CallsIn(Trim(y), allowed);
            ParseStandalone(lead + ("<tools>" + x + "</tools>") + y, allowed) == if calls == [] then None else Some(calls)
  {
    hide Trim, TrimStart, TrimEnd, CallsIn, DropEcho, AllSpace, Occurs;
    var echo := "<tools>" + x + "</tools>";
    EchoIsUntrimmed(echo, x);
    TrimPadded(lead, echo, y);
    NoFence(echo + TrimEnd(y));
    DropsBare(x, TrimEnd(y));
    TrimsEitherWay(y);
  }

  lemma EchoIsUntrimmed(echo: string, x: string)
    requires echo == "<tools>" + x + "</tools>"
    ensures echo != "" && !IsSpace(echo[0]) && !IsSpace(echo[|echo| - 1]) && echo[0] == '<'
  {
    assert echo[|echo| - 1] == "</tools>"[7];
  }

  lemma NoFence(s: string)
    requires s != "" && s[0] == '<'
    ensures DropFencedEcho(s) == s
  {
    hide TrimStart, FencedToolsEnd;
    OpensOtherwise(s, "```");
  }

  lemma FencedEndStep(s: string, from: nat)
    requires from <= |s|
    ensures FencedToolsEnd(s, from) ==
            if StartsWith(s[from..], TOOLS_CLOSE) && StartsWith(TrimStart(s[from + |TOOLS_CLOSE|..]), "```") then
              Some(|s| - |TrimStart(TrimStart(s[from + |TOOLS_CLOSE|..])[3..])|)
            else if from == |s| then None
            else FencedToolsEnd(s, from + 1)
  {
    hide TrimStart, AllSpace, IsSpace, StartsWith;
  }

  lemma {:induction false} FindsFencedEnd(x: string, sp: string, rest: string, from: nat)
    requires !Occurs(TOOLS_CLOSE, x) && AllSpace(sp) && |TOOLS_OPEN| <= from <= |TOOLS_OPEN| + |x|
    ensures var s := TOOLS_OPEN + x + TOOLS_CLOSE + (sp + "```" + rest);
            var end := FencedToolsEnd(s, from);
            end.Some? && s[end.value..] == TrimStart(rest)
    decreases |TOOLS_OPEN| + |x| - from
  {
    hide TrimStart, Occurs, AllSpace, IsSpace, FencedToolsEnd, StartsWith, IndexOf;
    var behind := sp + "```" + rest;
    var s := TOOLS_OPEN + x + TOOLS_CLOSE + behind;
    FirstMark(x, behind);
    SplitEcho(x, behind);
    FencedEndStep(s, from);
    if from < |TOOLS_OPEN| + |x| {
      NotClosedAt(s, x + TOOLS_CLOSE + behind, from);
      FindsFencedEnd(x, sp, rest, from + 1);
    } else {
      ClosedHere(x, behind);
      FenceBehindSpaces(sp, rest);
      TrimmedIsATail(s, rest, from + |TOOLS_CLOSE| + |sp| + 3);
    }
  }

  lemma ClosedHere(x: string, behind: string)
    ensures var s := TOOLS_OPEN + x + TOOLS_CLOSE + behind;
            var from := |TOOLS_OPEN| + |x|;
            StartsWith(s[from..], TOOLS_CLOSE) && s[from + |TOOLS_CLOSE|..] == behind
  {
    var s := TOOLS_OPEN + x + TOOLS_CLOSE + behind;
    assert s[|TOOLS_OPEN| + |x|..] == TOOLS_CLOSE + behind;
  }

  lemma TrimmedIsATail(s: string, rest: string, from: nat)
    requires from <= |s| && s[from..] == rest
    ensures s[|s| - |TrimStart(rest)|..] == TrimStart(rest)
  {
  }

  lemma NotClosedAt(s: string, t: string, from: nat)
    requires |TOOLS_OPEN| <= from < |s| && s[|TOOLS_OPEN|..] == t && !OccursAt(TOOLS_CLOSE, t, from - |TOOLS_OPEN|)
    ensures !StartsWith(s[from..], TOOLS_CLOSE)
  {
    var at := from - |TOOLS_OPEN|;
    assert s[from..] == t[at..];
    if |TOOLS_CLOSE| <= |t| - at { assert t[at..at + |TOOLS_CLOSE|] == t[at..][..|TOOLS_CLOSE|]; }
  }

  lemma FenceBehindSpaces(sp: string, rest: string)
    requires AllSpace(sp)
    ensures var t := TrimStart(sp + "```" + rest); StartsWith(t, "```") && t[3..] == rest
  {
    assert !IsSpace('`');
    hide IsSpace, TrimStart, AllSpace;
    FenceParts(rest);
    TrimStartOfPadded(sp, "```" + rest);
    Associative(sp, "```", rest);
  }

  lemma DropFencedStep(s: string, tools: string)
    requires StartsWith(s, "```") && StartsWith(tools, TOOLS_OPEN) && FencedToolsEnd(tools, |TOOLS_OPEN|).Some?
    requires tools == TrimStart(if StartsWith(s[3..], "xml") then s[6..] else s[3..])
    ensures DropFencedEcho(s) == tools[FencedToolsEnd(tools, |TOOLS_OPEN|).value..]
  {
    hide TrimStart, FencedToolsEnd, StartsWith;
  }

  lemma DropsFenced(xml: bool, sp1: string, x: string, sp2: string, rest: string)
    requires !Occurs(TOOLS_CLOSE, x) && AllSpace(sp1) && AllSpace(sp2)
    ensures DropFencedEcho("```" + ((if xml then "xml" else "") + (sp1 + (TOOLS_OPEN + x + TOOLS_CLOSE + (sp2 + "```" + rest))))) == TrimStart(rest)
  {
    hide TrimStart, Occurs, AllSpace, FencedToolsEnd, IsSpace, DropFencedEcho, StartsWith;
    var tools := TOOLS_OPEN + x + TOOLS_CLOSE + (sp2 + "```" + rest);
    FindsFencedEnd(x, sp2, rest, |TOOLS_OPEN|);
    OpensWithTools(x + TOOLS_CLOSE + (sp2 + "```" + rest));
    assert tools == TOOLS_OPEN + (x + TOOLS_CLOSE + (sp2 + "```" + rest));
    InsideFence(xml, sp1, tools);
    DropFencedStep("```" + ((if xml then "xml" else "") + (sp1 + tools)), tools);
  }

  lemma OpensWithTools(behind: string)
    ensures var t := TOOLS_OPEN + behind; StartsWith(t, TOOLS_OPEN) && t != "" && t[0] == '<'
  {
    assert (TOOLS_OPEN + behind)[..|TOOLS_OPEN|] == TOOLS_OPEN;
  }

  lemma InsideFence(xml: bool, sp: string, tools: string)
    requires AllSpace(sp) && tools != "" && tools[0] == '<'
    ensures var s := "```" + ((if xml then "xml" else "") + (sp + tools));
            var inner := if StartsWith(s[3..], "xml") then s[6..] else s[3..];
            StartsWith(s, "```") && TrimStart(inner) == tools
  {
    hide StartsWith;
    var s := "```" + ((if xml then "xml" else "") + (sp + tools));
    FenceParts((if xml then "xml" else "") + (sp + tools));
    TrimStartOfPadded(sp, tools);
    XmlOrNot(xml, sp, tools);
  }

  lemma XmlOrNot(xml: bool, sp: string, tools: string)
    requires AllSpace(sp) && tools != "" && tools[0] == '<'
    ensures var s := "```" + ((if xml then "xml" else "") + (sp + tools));
            && StartsWith(s, "```") && (StartsWith(s[3..], "xml") <==> xml)
            && (if xml then s[6..] else s[3..]) == sp + tools
  {
    var s := "```" + ((if xml then "xml" else "") + (sp + tools));
    assert s[..3] == "```";
    if xml {
      assert s[3..] == "xml" + (sp + tools) && s[6..] == sp + tools;
      assert ("xml" + (sp + tools))[..3] == "xml";
    } else {
      assert s[3..] == sp + tools;
      assert !IsSpace('x') && (sp + tools)[0] != 'x';
      OpensOtherwise(sp + tools, "xml");
    }
  }

  /** The same for a list echoed in a fence, plain or marked `xml`. */
  lemma FencedEchoIsDropped(lead: string, xml: bool, sp1: string, x: string, sp2: string, y: string, allowed: seq<string>)
    requires AllSpace(lead) && AllSpace(sp1) && AllSpace(sp2) && !Occurs("</tools>", x) && !StartsWith(Trim(y), "<tools>")
    ensures var echo := "```" + (if xml then "xml" else "") + sp1 + "<tools>" + x + "</tools>" + sp2 + "```";
            var calls := CallsIn(Trim(y), allowed);
            ParseStandalone(lead + echo + y, allowed) == if calls == [] then None else Some(calls)
  {
    hide Trim, TrimStart, TrimEnd, CallsIn, DropFencedEcho, AllSpace, Occurs, StartsWith, IsSpace;
    var mark := if xml then "xml" else "";
    var echo := "```" + mark + sp1 + "<tools>" + x + "</tools>" + sp2 + "```";
    FenceIsUntrimmed(mark, sp1, x, sp2);
    TrimPadded(lead, echo, y);
    DropsFenced(xml, sp1, x, sp2, TrimEnd(y));
    Regrouped(mark, sp1, x, sp2, TrimEnd(y));
    TrimsEitherWay(y);
  }

  lemma FenceIsUntrimmed(mark: string, sp1: string, x: string, sp2: string)
    ensures var echo := "```" + mark + sp1 + "<tools>" + x + "</tools>" + sp2 + "```";
            echo != "" && !IsSpace(echo[0]) && !IsSpace(echo[|echo| - 1])
  {
    var front := "```" + mark + sp1 + "<tools>" + x + "</tools>" + sp2;
    assert (front + "```")[|front| + 2] == '`';
    assert ("```" + (mark + sp1 + "<tools>" + x + "</tools>" + sp2 + "```"))[0] == '`';
    assert "```" + mark + sp1 + "<tools>" + x + "</tools>" + sp2 + "```" == "```" + (mark + sp1 + "<tools>" + x + "</tools>" + sp2 + "```");
  }

  lemma Regrouped(mark: string, sp1: string, x: string, sp2: string, rest: string)
    ensures "```" + mark + sp1 + "<tools>" + x + "</tools>" + sp2 + "```" + rest ==
            "```" + (mark + (sp1 + ("<tools>" + x + "</tools>" + (sp2 + "```" + rest))))
  {
    var tools := "<tools>" + x + "</tools>";
    var a := sp2 + "```" + rest;
    assert "```" + mark + sp1 + "<tools>" + x + "</tools>" + sp2 + "```" + rest == "```" + mark + sp1 + tools + a;
    assert "```" + mark + sp1 + tools + a == "```" + (mark + (sp1 + (tools + a)));
  }

  lemma NotClosed(s: string, from: nat)
    requires from <= |s| && !Occurs(TOOLS_CLOSE, s)
    ensures !StartsWith(s[from..], TOOLS_CLOSE)
  {
    assert !OccursAt(TOOLS_CLOSE, s, from);
    if |TOOLS_CLOSE| <= |s| - from { assert s[from..from + |TOOLS_CLOSE|] == s[from..][..|TOOLS_CLOSE|]; }
  }

  lemma {:induction false} NoFencedEnd(s: string, from: nat)
    requires from <= |s| && !Occurs(TOOLS_CLOSE, s)
    ensures FencedToolsEnd(s, from) == None
    decreases |s| - from
  {
    hide TrimStart, FencedToolsEnd, StartsWith, Occurs;
    NotClosed(s, from);
    FencedEndStep(s, from);
    if from < |s| { NoFencedEnd(s, from + 1); }
  }

  lemma OccursInTail(pat: string, s: string, from: nat)
    requires from <= |s| && Occurs(pat, s[from..])
    ensures Occurs(pat, s)
  {
    OccursWithin(pat, s[..from], s[from..], "");
    assert s[..from] + s[from..] + "" == s;
  }

  /** A list that is not closed is left, and a message that opens with one bare yields no call. */
  lemma UnclosedEchoIsLeft(s: string, allowed: seq<string>)
    requires !Occurs("</tools>", s)
    ensures DropEcho(s) == s && DropFencedEcho(s) == s
    ensures StartsWith(s, "<tools>") ==> CallsIn(s, allowed) == []
  {
    hide IndexOf, TrimStart, Occurs;
    if |s| >= 7 && Occurs(TOOLS_CLOSE, s[|TOOLS_OPEN|..]) { OccursInTail(TOOLS_CLOSE, s, |TOOLS_OPEN|); }
    FencedIsLeft(s);
    if StartsWith(s, "<tools>") { ToolsAreNoPiece(s, allowed); }
  }

  lemma FencedIsLeft(s: string)
    requires !Occurs("</tools>", s)
    ensures DropFencedEcho(s) == s
  {
    hide IndexOf, TrimStart, Occurs;
    if StartsWith(s, "```") {
      var inner := if StartsWith(s[3..], "xml") then s[6..] else s[3..];
      var tools := TrimStart(inner);
      assert tools == s[|s| - |tools|..];
      if Occurs(TOOLS_CLOSE, tools) { OccursInTail(TOOLS_CLOSE, s, |s| - |tools|); }
      if |TOOLS_OPEN| <= |tools| { NoFencedEnd(tools, |TOOLS_OPEN|); }
    }
  }

  lemma ToolsAreNoPiece(s: string, allowed: seq<string>)
    requires StartsWith(s, "<tools>")
    ensures CallsIn(s, allowed) == []
  {
    hide NextPiece, ParseLenient, AsToolCall, CallsIn, StartsWith;
    PieceIff(s);
    ToolsOpenNothing(s);
    CallsInStep(s, allowed);
  }

  lemma ToolsOpenNothing(s: string)
    requires StartsWith(s, "<tools>")
    ensures !OpensPiece(s)
  {
    hide FenceHeader, Occurs;
    assert s[0] == s[..7][0] == '<' && s[5] == s[..7][5] == 's';
    OpensOtherwise(s, "```");
    if |s| >= 11 { assert s[..11][5] == s[5] != CALL_OPEN[5]; }
  }

  // ---------------------------------------------------------------- whole messages

  /**
   * A message that opens with calls, each bare, fenced or tagged, is read as exactly those calls, in
   * order, whatever the model wrote behind them: that is read on as a message of its own would be.
   */
  lemma MessageReadsAsItsCalls(ws: seq<Written>, tail: string, allowed: seq<string>)
    requires ws != [] && AllCalls(ws, allowed)
    ensures ParseStandalone(MessageText(ws, tail), allowed) == Some(CallsOf(ws, allowed) + CallsIn(Trim(tail), allowed))
  {
    hide Written.Good, Written.Text, DropEcho, DropFencedEcho, CallsIn, Trim;
    var more := MessageText(ws[1..], tail);
    TrimToFirst(ws[0], more);
    CallsAreNoEcho(ws[0], TrimEnd(more));
    LoopReadsCalls(ws, tail, allowed);
  }

  /** And so is one with the tool list echoed ahead of its calls, bare or in a fence. */
  lemma EchoedMessageReadsAsItsCalls(lead: string, x: string, ws: seq<Written>, tail: string, allowed: seq<string>)
    requires AllSpace(lead) && !Occurs("</tools>", x) && ws != [] && AllCalls(ws, allowed)
    ensures ParseStandalone(lead + ("<tools>" + x + "</tools>") + MessageText(ws, tail), allowed) ==
            Some(CallsOf(ws, allowed) + CallsIn(Trim(tail), allowed))
    ensures forall xml, sp1, sp2 :: AllSpace(sp1) && AllSpace(sp2) ==>
              ParseStandalone(lead + FencedList(xml, sp1, x, sp2) + MessageText(ws, tail), allowed) ==
              Some(CallsOf(ws, allowed) + CallsIn(Trim(tail), allowed))
  {
    hide Trim, CallsIn, DropEcho, DropFencedEcho, Occurs, AllSpace, MessageText, AllCalls, StartsWith, ParseStandalone;
    LoopReadsCalls(ws, tail, allowed);
    EchoIsDropped(lead, x, MessageText(ws, tail), allowed);
    SomeAreRead(ws, CallsIn(Trim(tail), allowed), allowed);
    forall xml, sp1, sp2 | AllSpace(sp1) && AllSpace(sp2)
      ensures ParseStandalone(lead + FencedList(xml, sp1, x, sp2) + MessageText(ws, tail), allowed) ==
              Some(CallsOf(ws, allowed) + CallsIn(Trim(tail), allowed))
    {
      CallsOpenNoList(ws, tail, allowed);
      FencedEchoIsDropped(lead, xml, sp1, x, sp2, MessageText(ws, tail), allowed);
    }
  }

  /** A tool list in a fence, plain or marked `xml`. */
  function FencedList(xml: bool, sp1: string, x: string, sp2: string): string {
    "```" + (if xml then "xml" else "") + sp1 + "<tools>" + x + "</tools>" + sp2 + "```"
  }

  lemma SomeAreRead(ws: seq<Written>, behind: seq<ToolCall>, allowed: seq<string>)
    requires ws != [] && AllCalls(ws, allowed)
    ensures CallsOf(ws, allowed) + behind != []
  {
    hide Written.Good, Written.Call;
    CallsMore(ws, behind, allowed);
  }

  lemma CallsOpenNoList(ws: seq<Written>, tail: string, allowed: seq<string>)
    requires ws != [] && AllCalls(ws, allowed)
    ensures !StartsWith(Trim(MessageText(ws, tail)), "<tools>")
  {
    hide Trim, Written.Good, Written.Call, Written.Text, DropFencedEcho, CallsIn;
    var w, more := ws[0], MessageText(ws[1..], tail);
    assert w in ws;
    TrimToFirst(w, more);
    WrittenOpensNoList(w, TrimEnd(more));
  }

  lemma WrittenOpensNoList(w: Written, rest: string)
    requires w.Good()
    ensures !StartsWith(w.Text() + rest, "<tools>")
  {
    hide Render;
    ObjectIsTrimmed(w.cst);
    var s := w.Text() + rest;
    match w.wrapping {
      case Bare => OpensOtherwise(s, TOOLS_OPEN);
      case Fenced(info, before, after) =>
        assert s == "```" + (info + before + Render(w.cst) + after + "```" + rest);
        OpensOtherwise(s, TOOLS_OPEN);
      case Tagged(before, after) => assert s[..7] == "<tool_c";
    }
  }

  /** So the tail is discarded exactly when it opens with no call, like the output a model invents for its call. */
  lemma TailIsDiscardedIff(ws: seq<Written>, tail: string, allowed: seq<string>)
    requires ws != [] && AllCalls(ws, allowed)
    ensures ParseStandalone(MessageText(ws, tail), allowed) == Some(CallsOf(ws, allowed)) <==> OpensNoCall(Trim(tail), allowed)
  {
    hide AllCalls, ParseStandalone, OpensNoCall, CallsIn, Trim, MessageText, CallsOf;
    MessageReadsAsItsCalls(ws, tail, allowed);
    NoneReadIff(Trim(tail), allowed);
    NothingAdded(CallsOf(ws, allowed), CallsIn(Trim(tail), allowed));
  }

  lemma NothingAdded<T>(xs: seq<T>, ys: seq<T>)
    ensures xs + ys == xs <==> ys == []
  {
    assert |xs + ys| == |xs| + |ys|;
    if ys == [] { assert xs + ys == xs; }
  }

  /** The object that names a call and gives its arguments. */
  function PrintedCall(call: ToolCall): Value { Obj([("name", Str(call.name)), ("arguments", call.arguments)]) }

  /** It is written where its wrapping allows it, and the run has a tool of that name. */
  ghost predicate Printed(w: Written, call: ToolCall, allowed: seq<string>) {
    && w.cst == Compact(PrintedCall(call)) && w.Fits()
    && call.name in allowed && call.name != "" && call.arguments.Obj? && Writable(call.arguments)
  }

  lemma PrintedPropertiesRead(call: ToolCall)
    ensures var members := PrintedCall(call).members;
            Property(members, "name") == Some(Str(call.name)) && Property(members, "arguments") == Some(call.arguments)
  {
    var members := PrintedCall(call).members;
    assert members[..1] == [("name", Str(call.name))];
    assert members[1].0 == "arguments" && "arguments" != "name";
    assert Property(members, "name") == Property(members[..1], "name");
  }

  lemma PrintedCallIsWritable(call: ToolCall)
    requires Writable(call.arguments)
    ensures Writable(PrintedCall(call))
  {
  }

  /** What is printed for a call is read as that call. */
  lemma PrintedCallIsItself(w: Written, call: ToolCall, allowed: seq<string>)
    requires Printed(w, call, allowed)
    ensures w.Good() && w.Call(allowed) == Some(call)
  {
    hide Writable, Property, PrintedCall, Written.Fits, ParseLenient, Alike, Strict, Compact, ValueOf, Tighten;
    PrintedCallIsWritable(call);
    CompactIsFaithful(PrintedCall(call));
    StrictIsLexical(w.cst);
    LexicalIsTight(w.cst);
    PrintedPropertiesRead(call);
    PrintedIsObject(call);
  }

  lemma PrintedIsObject(call: ToolCall)
    ensures PrintedCall(call).Obj? && Compact(PrintedCall(call)).CObj?
  {
  }

  lemma {:induction false} PrintedAreCalls(ws: seq<Written>, calls: seq<ToolCall>, allowed: seq<string>)
    requires |ws| == |calls| && forall k :: 0 <= k < |ws| ==> Printed(ws[k], calls[k], allowed)
    ensures AllCalls(ws, allowed) && CallsOf(ws, allowed) == calls
  {
    hide Printed, Written.Fits, Written.Call, Strict, Tighten;
    forall k | 0 <= k < |ws| ensures ws[k].Good() && ws[k].Call(allowed) == Some(calls[k]) {
      PrintedCallIsItself(ws[k], calls[k], allowed);
    }
    if ws != [] { PrintedAreCalls(ws[1..], calls[1..], allowed); }
  }

  /** Any calls, printed one after another and each wrapped as the model likes, come back as themselves. */
  lemma PrintedCallsComeBack(ws: seq<Written>, calls: seq<ToolCall>, tail: string, allowed: seq<string>)
    requires ws != [] && |ws| == |calls|
    requires forall k :: 0 <= k < |ws| ==> Printed(ws[k], calls[k], allowed)
    ensures ParseStandalone(MessageText(ws, tail), allowed) == Some(calls + CallsIn(Trim(tail), allowed))
    ensures OpensNoCall(Trim(tail), allowed) ==> ParseStandalone(MessageText(ws, tail), allowed) == Some(calls)
  {
    hide Printed, AllCalls, ParseStandalone, MessageText, OpensNoCall, CallsIn, Trim;
    PrintedAreCalls(ws, calls, allowed);
    MessageReadsAsItsCalls(ws, tail, allowed);
    TailIsDiscardedIff(ws, tail, allowed);
  }

  /** A message is left as the model wrote it exactly when, behind a tool list it echoes, it opens with no call. */
  lemma LeftAloneIff(text: string, allowed: seq<string>)
    ensures ParseStandalone(text, allowed) == None <==> OpensNoCall(DropEcho(DropFencedEcho(Trim(text))), allowed)
  {
    hide OpensNoCall, CallsIn, Trim, DropEcho, DropFencedEcho;
    NoneReadIff(DropEcho(DropFencedEcho(Trim(text))), allowed);
  }

  /** In particular one that opens with nothing a call could be. */
  lemma ProseIsLeftAlone(text: string, allowed: seq<string>)
    requires !OpensPiece(DropEcho(DropFencedEcho(Trim(text))))
    ensures ParseStandalone(text, allowed) == None
  {
    hide OpensPiece, CallsIn, Trim, DropEcho, DropFencedEcho, NextPiece, ParseLenient, AsToolCall;
    LeftAloneIff(text, allowed);
  }

  /** Words are such a message, and such a tail. */
  lemma WordsOpenNothing(prose: string)
    requires var t := TrimStart(prose); t == "" || (t[0] != '{' && t[0] != '`' && t[0] != '<')
    ensures DropEcho(DropFencedEcho(Trim(prose))) == Trim(prose) && !OpensPiece(Trim(prose))
  {
    hide FenceHeader, IndexOf, EndOfObject, IsSpace, Occurs, FencedToolsEnd;
    var u := Trim(prose);
    if u != "" {
      assert u[0] == TrimStart(prose)[0];
      OpensOtherwise(u, "```");
      OpensOtherwise(u, TOOLS_OPEN);
      OpensOtherwise(u, CALL_OPEN);
    } else {
      assert !StartsWith(u, "```") && !StartsWith(u, CALL_OPEN) && !StartsWith(u, TOOLS_OPEN);
    }
  }
}
