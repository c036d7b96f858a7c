/** Recovering tool calls a small model wrote as text: the object scanner, the lenient reader and the loop. */
module Repair {
  import opened Text
  import opened Json

  // ---------------------------------------------------------------- where an object ends

  /** How many characters `endOfJsonObject` reads before the depth comes back to zero. */
  function EndFrom(s: string, depth: int, inString: bool, escaped: bool): (n: Option<nat>)
    ensures n.Some? ==> 0 < n.value <= |s|
  {
    if s == "" then None
    else
      var c, rest := s[0], s[1..];
      if inString then
        if escaped then Plus(1, EndFrom(rest, depth, true, false))
        else if c == '\\' then Plus(1, EndFrom(rest, depth, true, true))
        else Plus(1, EndFrom(rest, depth, c != '"', false))
      else if c == '"' then Plus(1, EndFrom(rest, depth, true, escaped))
      else if c == '{' then Plus(1, EndFrom(rest, depth + 1, false, escaped))
      else if c == '}' then
        if depth == 1 then Some(1) else Plus(1, EndFrom(rest, depth - 1, false, escaped))
      else Plus(1, EndFrom(rest, depth, false, escaped))
  }

  function Plus(k: nat, n: Option<nat>): Option<nat> { if n.Some? then Some(k + n.value) else None }

  function EndOfObject(s: string): (n: Option<nat>)
    ensures n.Some? ==> 0 < n.value <= |s|
  {
    EndFrom(s, 0, false, false)
  }

  method EndOfJsonObject(text: string) returns (end: Option<nat>)
    ensures end == EndOfObject(text)
  {
    var depth, inString, escaped := 0, false, false;
    for index := 0 to |text|
      invariant EndOfObject(text) == Plus(index, EndFrom(text[index..], depth, inString, escaped))
    {
      var c := text[index];
      assert text[index..][1..] == text[index + 1..];
      if inString {
        if escaped {
          escaped := false;
        } else if c == '\\' {
          escaped := true;
        } else if c == '"' {
          inString := false;
        }
      } else if c == '"' {
        inString := true;
      } else if c == '{' {
        depth := depth + 1;
      } else if c == '}' {
        depth := depth - 1;
        if depth == 0 {
          return Some(index + 1);
        }
      }
    }
    return None;
  }

  // ---------------------------------------------------------------- forgiving raw breaks

  /** What the lenient reader hands to the parser: raw breaks inside strings escaped, raw returns dropped. */
  function Rewrite(s: string, inString: bool, escaped: bool): string {
    if s == "" then ""
    else
      var c, rest := s[0], s[1..];
      if inString then
        if escaped then [c] + Rewrite(rest, true, false)
        else if c == '\\' then [c] + Rewrite(rest, true, true)
        else if c == '"' then [c] + Rewrite(rest, false, false)
        else if c == '\n' then "\\n" + Rewrite(rest, true, false)
        else if c == '\r' then Rewrite(rest, true, false)
        else if c == '\t' then "\\t" + Rewrite(rest, true, false)
        else [c] + Rewrite(rest, true, false)
      else [c] + Rewrite(rest, c == '"', escaped)
  }

  method ParseLenientJson(text: string) returns (v: Option<Value>)
    ensures v == ParseLenient(text)
  {
    v := Parse(text);
    if v.Some? {
      return;
    }
    hide Parse;
    var out, inString, escaped := "", false, false;
    for index := 0 to |text|
      invariant Rewrite(text, false, false) == out + Rewrite(text[index..], inString, escaped)
    {
      var c := text[index];
      assert text[index..][1..] == text[index + 1..];
      var written := [c];
      if inString {
        if escaped {
          escaped := false;
        } else if c == '\\' {
          escaped := true;
        } else if c == '"' {
          inString := false;
        } else if c == '\n' {
          written := "\\n";
        } else if c == '\r' {
          written := "";
        } else if c == '\t' {
          written := "\\t";
        }
      } else if c == '"' {
        inString := true;
      }
      Associative(out, written, Rewrite(text[index + 1..], inString, escaped));
      out := out + written;
    }
    assert out + "" == out;
    v := Parse(out);
  }

  lemma Associative(x: string, y: string, z: string)
    ensures x + (y + z) == x + y + z
  {
  }

  function ParseLenient(text: string): Option<Value> {
    var v := Parse(text);
    if v.Some? then v else Parse(Rewrite(text, false, false))
  }

  // ---------------------------------------------------------------- one call

  datatype ToolCall = ToolCall(name: string, arguments: Value)

  function FlatChar(c: char): char {
    if c == '.' then '_' else if 'A' <= c <= 'Z' then (c as int + 32) as char else c
  }

  function Flat(name: string): string { seq(|name|, k requires 0 <= k < |name| => FlatChar(name[k])) }

  function Alike(raw: string, allowed: seq<string>): (r: seq<string>)
    ensures forall n :: n in r <==> n in allowed && Flat(n) == Flat(raw)
    ensures |r| <= |allowed|
  {
    if allowed == [] then []
    else (if Flat(allowed[0]) == Flat(raw) then [allowed[0]] else []) + Alike(raw, allowed[1..])
  }

  /** Which allowed tool a written name stands for. */
  function ResolveToolName(raw: string, allowed: seq<string>): Option<string> {
    if raw in allowed then Some(raw)
    else if |Alike(raw, allowed)| == 1 then Some(Alike(raw, allowed)[0])
    else None
  }

  /** A property of an object: the last member of that name, as a parser that overwrites leaves it. */
  function Property(members: seq<(string, Value)>, name: string): Option<Value> {
    if members == [] then None
    else if members[|members| - 1].0 == name then Some(members[|members| - 1].1)
    else Property(members[..|members| - 1], name)
  }

  function RawArguments(members: seq<(string, Value)>): Option<Value> {
    var arguments := Property(members, "arguments");
    if arguments.None? || arguments.value.Null? then Property(members, "parameters") else arguments
  }

  function AsToolCall(value: Option<Value>, allowed: seq<string>): Option<ToolCall> {
    if value.None? || !value.value.Obj? then None
    else
      var members := value.value.members;
      var name := Property(members, "name");
      if name.None? || !name.value.Str? then None
      else
        var raw := RawArguments(members);
        var args := if raw.Some? && raw.value.Str? then ParseLenient(raw.value.s) else raw;
        if args.None? || !args.value.Obj? then None
        else
          var resolved := ResolveToolName(name.value.s, allowed);
          if resolved.None? || resolved.value == "" then None else Some(ToolCall(resolved.value, args.value))
  }

  // ---------------------------------------------------------------- the calls a message opens with

  predicate IsLabelChar(c: char) { 'A' <= c <= 'Z' || 'a' <= c <= 'z' || IsDigit(c) || c == '_' || c == '-' }

  predicate IsBlank(c: char) { c == ' ' || c == '\t' }

  function RunOf(s: string, p: char -> bool): (n: nat)
    ensures n <= |s| && (forall k :: 0 <= k < n ==> p(s[k])) && (n < |s| ==> !p(s[n]))
  {
    if s != "" && p(s[0]) then 1 + RunOf(s[1..], p) else 0
  }

  function AfterLabel(t: string): (r: string)
    ensures |r| <= |t|
  {
    t[RunOf(t, IsLabelChar)..]
  }

  function AfterBlanks(t: string): (r: string)
    ensures |r| <= |t|
  {
    t[RunOf(t, IsBlank)..]
  }

  function AfterBreak(t: string): (r: string)
    ensures |r| <= |t|
  {
    var u := if t != "" && t[0] == '\r' then t[1..] else t;
    if u != "" && u[0] == '\n' then u[1..] else u
  }

  /** The opening of a fence: its label, blanks, and one line break. */
  function FenceHeader(s: string): (n: nat)
    requires StartsWith(s, "```")
    ensures 3 <= n <= |s|
  {
    |s| - |AfterBreak(AfterBlanks(AfterLabel(s[3..])))|
  }

  /** What one turn of the loop takes: the text of a call, and where the rest begins. */
  datatype Piece = Piece(body: string, end: nat)

  const CALL_OPEN := "<tool_call>"
  const CALL_CLOSE := "</tool_call>"

  function NextPiece(s: string): (p: Option<Piece>)
    ensures p.Some? ==> 0 < p.value.end <= |s|
  {
    var fenced := if StartsWith(s, "```") then IndexOf("```", s[FenceHeader(s)..]) else None;
    var tagged := if StartsWith(s, CALL_OPEN) then IndexOf(CALL_CLOSE, s[|CALL_OPEN|..]) else None;
    if fenced.Some? then
      var h := FenceHeader(s);
      Some(Piece(s[h..h + fenced.value], h + fenced.value + 3))
    else if tagged.Some? then
      var h := |CALL_OPEN|;
      Some(Piece(s[h..h + tagged.value], h + tagged.value + |CALL_CLOSE|))
    else if s != "" && s[0] == '{' then
      var end := EndOfObject(s);
      if end.None? then Some(Piece(s, |s|)) else Some(Piece(s[..end.value], end.value))
    else None
  }

  function CallsIn(rest: string, allowed: seq<string>): seq<ToolCall>
    decreases |rest|
  {
    var piece := NextPiece(rest);
    if piece.None? then []
    else
      var call := AsToolCall(ParseLenient(Trim(piece.value.body)), allowed);
      if call.None? then [] else [call.value] + CallsIn(Trim(rest[piece.value.end..]), allowed)
  }

  lemma CallsInStep(rest: string, allowed: seq<string>)
    ensures var piece := NextPiece(rest);
            if rest == "" || piece.None? then CallsIn(rest, allowed) == []
            else
              var call := AsToolCall(ParseLenient(Trim(piece.value.body)), allowed);
              CallsIn(rest, allowed) ==
                if call.None? then [] else [call.value] + CallsIn(Trim(rest[piece.value.end..]), allowed)
  {
    hide AsToolCall, ParseLenient;
    if rest == "" { assert !StartsWith(rest, "```") && !StartsWith(rest, CALL_OPEN); }
  }

  const TOOLS_OPEN := "<tools>"
  const TOOLS_CLOSE := "</tools>"

  /** The end of the first closing tag that a fence closes behind. */
  function FencedToolsEnd(s: string, from: nat): (end: Option<nat>)
    requires from <= |s|
    ensures end.Some? ==> end.value <= |s|
    decreases |s| - from
  {
    if StartsWith(s[from..], TOOLS_CLOSE) && StartsWith(TrimStart(s[from + |TOOLS_CLOSE|..]), "```") then
      Some(|s| - |TrimStart(TrimStart(s[from + |TOOLS_CLOSE|..])[3..])|)
    else if from == |s| then None
    else FencedToolsEnd(s, from + 1)
  }

  /** Drops a tool list echoed in a fence, as its first replacement does. */
  function DropFencedEcho(s: string): string {
    if !StartsWith(s, "```") then s
    else
      var inner := if StartsWith(s[3..], "xml") then s[6..] else s[3..];
      var tools := TrimStart(inner);
      if !StartsWith(tools, TOOLS_OPEN) then s
      else
        var end := FencedToolsEnd(tools, |TOOLS_OPEN|);
        if end.None? then s else tools[end.value..]
  }

  /** Drops a bare one, as its second does. */
  function DropEcho(s: string): string {
    if !StartsWith(s, TOOLS_OPEN) then s
    else
      var close := IndexOf(TOOLS_CLOSE, s[|TOOLS_OPEN|..]);
      if close.None? then s else TrimStart(s[|TOOLS_OPEN| + close.value + |TOOLS_CLOSE|..])
  }

  function ParseStandalone(text: string, allowed: seq<string>): Option<seq<ToolCall>> {
    var calls := CallsIn(DropEcho(DropFencedEcho(Trim(text))), allowed);
    if calls == [] then None else Some(calls)
  }

  method ParseStandaloneJsonToolCalls(text: string, allowed: seq<string>) returns (found: Option<seq<ToolCall>>)
    ensures found == ParseStandalone(text, allowed)
  {
    hide NextPiece, AsToolCall, ParseLenient, Trim, DropEcho, DropFencedEcho, CallsIn;
    var calls: seq<ToolCall> := [];
    var start := DropEcho(DropFencedEcho(Trim(text)));
    var rest := start;
    while |rest| > 0
      invariant CallsIn(start, allowed) == calls + CallsIn(rest, allowed)
      decreases |rest|
    {
      CallsInStep(rest, allowed);
      var piece := NextPiece(rest);
      if piece.None? {
        assert CallsIn(start, allowed) == calls;
        break;
      }
      var value := ParseLenientJson(Trim(piece.value.body));
      rest := Trim(rest[piece.value.end..]);
      var call := AsToolCall(value, allowed);
      if call.None? {
        assert CallsIn(start, allowed) == calls;
        break;
      }
      calls := calls + [call.value];
    }
    CallsInStep("", allowed);
    assert CallsIn(start, allowed) == calls;
    return if |calls| > 0 then Some(calls) else None;
  }
}
