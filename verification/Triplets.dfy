/** Reading relation triplets out of the linearised text a model writes. */
module Triplets {
  import opened Text

  /** A tag of the format, or an ordinary word. */
  datatype Token = Head | Subj | Obj | Word(text: string)

  datatype Triplet = Triplet(chunkId: string, subject: string, relation: string, obj: string)

  // ---------------------------------------------------------------- what a stream says

  /** The stretches between occurrences of a tag. */
  function Split(ts: seq<Token>, tag: Token): (r: seq<seq<Token>>)
    ensures |r| >= 1
  {
    if ts == [] then [[]]
    else
      var before, n := Split(ts[..|ts| - 1], tag), |ts| - 1;
      if ts[n] == tag then before + [[]] else before[..|before| - 1] + [before[|before| - 1] + [ts[n]]]
  }

  /** The words of a stretch, one blank between each two. */
  function Phrase(ts: seq<Token>): string {
    if ts == [] then "" else Extend(Phrase(ts[..|ts| - 1]), ts[|ts| - 1])
  }

  function Extend(phrase: string, t: Token): string {
    if !t.Word? then phrase else if phrase == "" then t.text else phrase + " " + t.text
  }

  /** What stands before the first `<obj>`, and what stands behind it. */
  function Tail(part: seq<Token>): seq<Token> {
    if part == [] then [] else if part[0].Obj? then [] else [part[0]] + Tail(part[1..])
  }

  function Relation(part: seq<Token>): seq<Token> {
    if part == [] then [] else if part[0].Obj? then part[1..] else Relation(part[1..])
  }

  function Named(chunkId: string, head: string, tail: string, relation: string): seq<Triplet> {
    if head != "" && relation != "" && tail != "" then [Triplet(chunkId, head, relation, tail)] else []
  }

  /** What one `<subj>` opens: a pair, if an `<obj>` follows. */
  function PairOf(chunkId: string, head: string, part: seq<Token>): seq<Triplet> {
    if Obj in part then Named(chunkId, head, Phrase(Tail(part)), Phrase(Relation(part))) else []
  }

  /** The head of a span is what stands before its first `<subj>`, unless an `<obj>` came sooner. */
  function HeadOf(part: seq<Token>): string { if Obj in part then "" else Phrase(part) }

  function PairsOf(chunkId: string, head: string, parts: seq<seq<Token>>): seq<Triplet> {
    if parts == [] then [] else PairsOf(chunkId, head, parts[..|parts| - 1]) + PairOf(chunkId, head, parts[|parts| - 1])
  }

  function SpanTriplets(chunkId: string, span: seq<Token>): seq<Triplet> {
    var parts := Split(span, Subj);
    PairsOf(chunkId, HeadOf(parts[0]), parts[1..])
  }

  function AllOf(chunkId: string, spans: seq<seq<Token>>): seq<Triplet> {
    if spans == [] then [] else AllOf(chunkId, spans[..|spans| - 1]) + SpanTriplets(chunkId, spans[|spans| - 1])
  }

  /** Every triplet a stream states, in order and as often as it states it. */
  function Stated(chunkId: string, ts: seq<Token>): seq<Triplet> { AllOf(chunkId, Split(ts, Head)) }

  /** First occurrences, in order. */
  function Distinct(xs: seq<Triplet>): (r: seq<Triplet>)
    ensures forall x :: x in r <==> x in xs
    ensures forall i, j :: 0 <= i < j < |r| ==> r[i] != r[j]
  {
    if xs == [] then []
    else
      var front, last := Distinct(xs[..|xs| - 1]), xs[|xs| - 1];
      assert xs == xs[..|xs| - 1] + [last];
      if last in front then front else front + [last]
  }

  /** Each triplet stays where it is first stated. */
  lemma DistinctMore(xs: seq<Triplet>, x: Triplet)
    ensures Distinct(xs + [x]) == if x in xs then Distinct(xs) else Distinct(xs) + [x]
    ensures Distinct([]) == []
  {
    assert (xs + [x])[..|xs|] == xs;
  }

  // ---------------------------------------------------------------- the machine

  datatype Mode = InHead | InTail | InRelation

  datatype Machine = Machine(head: string, tail: string, relation: string, mode: Mode, current: string, found: seq<Triplet>)

  const START := Machine("", "", "", InHead, "", [])

  function Flush(chunkId: string, m: Machine): Machine {
    m.(found := m.found + Named(chunkId, m.head, m.tail, m.relation))
  }

  function Step(chunkId: string, m: Machine, t: Token): Machine {
    match t
    case Head =>
      var f := if m.mode.InRelation? then Flush(chunkId, m) else m;
      Machine("", "", "", InHead, "", f.found)
    case Subj =>
      var f := if m.mode.InRelation? then Flush(chunkId, m) else m;
      Machine(if m.mode.InHead? then m.current else m.head, "", "", InTail, "", f.found)
    case Obj =>
      m.(tail := if m.mode.InTail? then m.current else m.tail, mode := InRelation, current := "")
    case Word(_) =>
      if m.mode.InRelation? then m.(relation := Extend(m.relation, t)) else m.(current := Extend(m.current, t))
  }

  function Fold(chunkId: string, ts: seq<Token>): Machine {
    if ts == [] then START else Step(chunkId, Fold(chunkId, ts[..|ts| - 1]), ts[|ts| - 1])
  }

  /** The decoder: one pass over the tokens, then duplicates out. */
  method Decode(ts: seq<Token>, chunkId: string) returns (unique: seq<Triplet>)
    ensures unique == Distinct(Stated(chunkId, ts))
  {
    hide Stated, Distinct, Extend;
    var triplets: seq<Triplet> := [];
    var head, tail, relation, mode, current := "", "", "", InHead, "";
    for i := 0 to |ts|
      invariant Machine(head, tail, relation, mode, current, triplets) == Fold(chunkId, ts[..i])
    {
      assert ts[..i + 1][..i] == ts[..i];
      var token := ts[i];
      if token.Head? {
        if mode.InRelation? && head != "" && relation != "" && tail != "" {
          triplets := triplets + [Triplet(chunkId, head, relation, tail)];
        }
        head, tail, relation, mode, current := "", "", "", InHead, "";
      } else if token.Subj? {
        if mode.InHead? {
          head := current;
        } else if mode.InRelation? && head != "" && relation != "" && tail != "" {
          triplets := triplets + [Triplet(chunkId, head, relation, tail)];
        }
        tail, relation, mode, current := "", "", InTail, "";
      } else if token.Obj? {
        if mode.InTail? {
          tail := current;
        }
        mode, current := InRelation, "";
      } else if mode.InRelation? {
        relation := Extend(relation, token);
      } else {
        current := Extend(current, token);
      }
    }
    assert ts[..|ts|] == ts;
    if mode.InRelation? && head != "" && relation != "" && tail != "" {
      triplets := triplets + [Triplet(chunkId, head, relation, tail)];
    }
    assert triplets == Stated(chunkId, ts) by { MachineReadsTheStream(chunkId, ts); }
    unique := Deduplicate(triplets);
  }

  method Deduplicate(triplets: seq<Triplet>) returns (unique: seq<Triplet>)
    ensures unique == Distinct(triplets)
  {
    var seen: set<Triplet> := {};
    unique := [];
    for i := 0 to |triplets|
      invariant unique == Distinct(triplets[..i])
      invariant forall t :: t in seen <==> t in unique
    {
      assert triplets[..i + 1][..i] == triplets[..i];
      if triplets[i] !in seen {
        seen := seen + {triplets[i]};
        unique := unique + [triplets[i]];
      }
    }
    assert triplets[..|triplets|] == triplets;
  }

  // ---------------------------------------------------------------- the machine reads what the stream says

  /** Where the machine stands after a stretch without `<triplet>`. */
  ghost predicate Standing(chunkId: string, m: Machine, span: seq<Token>, before: seq<Triplet>) {
    var parts := Split(span, Subj);
    var n := |parts| - 1;
    var part := parts[n];
    && m.found == before + (if n == 0 then [] else PairsOf(chunkId, HeadOf(parts[0]), parts[1..n]))
    && m.head == (if n == 0 then "" else HeadOf(parts[0]))
    && (if Obj in part then
          && m.mode.InRelation? && m.current == "" && m.relation == Phrase(Relation(part))
          && m.tail == (if n == 0 then "" else Phrase(Tail(part)))
        else
          m.mode == (if n == 0 then InHead else InTail) && m.current == Phrase(part) && m.relation == "" && m.tail == "")
  }

  ghost predicate Reads(chunkId: string, m: Machine, ts: seq<Token>) {
    var spans := Split(ts, Head);
    Standing(chunkId, m, spans[|spans| - 1], AllOf(chunkId, spans[..|spans| - 1]))
  }

  /** The pair a machine still holds is the last of its span. */
  lemma LastPair(chunkId: string, m: Machine, span: seq<Token>, before: seq<Triplet>)
    requires Standing(chunkId, m, span, before)
    ensures (if m.mode.InRelation? then Flush(chunkId, m) else m).found == before + SpanTriplets(chunkId, span)
  {
    hide Split, Phrase, Tail, Relation;
    var parts := Split(span, Subj);
    var n := |parts| - 1;
    if n > 0 {
      assert parts[1..][..n - 1] == parts[1..n] && parts[1..][n - 1] == parts[n];
    }
  }

  lemma WordEnters(part: seq<Token>, t: Token)
    ensures Obj in part + [t] <==> Obj in part || t.Obj?
    ensures Phrase(part + [t]) == Extend(Phrase(part), t)
  {
    assert (part + [t])[..|part|] == part;
  }

  lemma {:induction false} WordEntersBehind(part: seq<Token>, t: Token)
    ensures Obj in part ==> Tail(part + [t]) == Tail(part) && Relation(part + [t]) == Relation(part) + [t]
    ensures Obj !in part && t.Obj? ==> Tail(part + [t]) == part && Relation(part + [t]) == []
  {
    var all := part + [t];
    if part == [] {
      assert all == [t] && all[1..] == [];
    } else {
      assert all[0] == part[0] && all[1..] == part[1..] + [t];
      if !part[0].Obj? {
        WordEntersBehind(part[1..], t);
        assert part == [part[0]] + part[1..];
      }
    }
  }

  lemma SplitMore(ts: seq<Token>, t: Token, tag: Token)
    ensures var r := Split(ts, tag); var n := |r| - 1;
            Split(ts + [t], tag) == if t == tag then r + [[]] else r[..n] + [r[n] + [t]]
  {
    assert (ts + [t])[..|ts|] == ts;
  }

  lemma PartsMore(chunkId: string, m: Machine, span: seq<Token>, before: seq<Triplet>, t: Token)
    requires Standing(chunkId, m, span, before) && !t.Head?
    ensures Standing(chunkId, Step(chunkId, m, t), span + [t], before)
  {
    hide Split, Phrase, Tail, Relation, PairsOf;
    SplitMore(span, t, Subj);
    var parts := Split(span, Subj);
    var n := |parts| - 1;
    if t.Subj? {
      NewPart(chunkId, m, span, before);
    } else {
      hide Step, Standing;
      LastGrows(chunkId, m, span, before, t);
    }
  }

  lemma LastGrows(chunkId: string, m: Machine, span: seq<Token>, before: seq<Triplet>, t: Token)
    requires Standing(chunkId, m, span, before) && (t.Obj? || t.Word?)
    ensures Standing(chunkId, Step(chunkId, m, t), span + [t], before)
  {
    hide Split, Phrase, Tail, Relation, PairsOf, Extend;
    var parts := Split(span, Subj);
    var n := |parts| - 1;
    var grown := parts[..n] + [parts[n] + [t]];
    SplitMore(span, t, Subj);
    assert Split(span + [t], Subj) == grown && grown[n] == parts[n] + [t];
    assert n > 0 ==> grown[1..n] == parts[1..n] && grown[0] == parts[0];
    WordEnters(parts[n], t);
    WordEntersBehind(parts[n], t);
    WordEnters(Relation(parts[n]), t);
    TagSaysNothing(m.relation, t);
    NothingSaid();
  }

  lemma TagSaysNothing(phrase: string, t: Token)
    ensures !t.Word? ==> Extend(phrase, t) == phrase
  {
  }

  lemma NothingSaid()
    ensures Phrase([]) == "" && PairsOf("", "", []) == []
  {
  }

  lemma NewPart(chunkId: string, m: Machine, span: seq<Token>, before: seq<Triplet>)
    requires Standing(chunkId, m, span, before)
    ensures Standing(chunkId, Step(chunkId, m, Subj), span + [Subj], before)
  {
    hide Split, Phrase, Tail, Relation;
    LastPair(chunkId, m, span, before);
    SplitMore(span, Subj, Subj);
    var parts := Split(span, Subj);
    var n := |parts| - 1;
    assert (parts + [[]])[1..n + 1] == parts[1..];
    NothingSaid();
  }

  lemma {:induction false} FoldReads(chunkId: string, ts: seq<Token>)
    ensures Reads(chunkId, Fold(chunkId, ts), ts)
  {
    hide Standing, Step, SpanTriplets;
    if ts == [] {
      StartStands(chunkId);
    } else {
      var front, t := ts[..|ts| - 1], ts[|ts| - 1];
      FoldReads(chunkId, front);
      var spans := Split(front, Head);
      var n := |spans| - 1;
      var m, before := Fold(chunkId, front), AllOf(chunkId, spans[..n]);
      assert ts == front + [t];
      SplitMore(front, t, Head);
      hide Split, AllOf;
      AllOfMore(chunkId, spans);
      if t.Head? {
        HeadOpens(chunkId, m, spans[n], before);
        assert (spans + [[]])[..n + 1] == spans;
      } else {
        PartsMore(chunkId, m, spans[n], before, t);
        assert (spans[..n] + [spans[n] + [t]])[..n] == spans[..n];
      }
    }
  }

  lemma AllOfMore(chunkId: string, spans: seq<seq<Token>>)
    requires spans != []
    ensures AllOf(chunkId, spans) == AllOf(chunkId, spans[..|spans| - 1]) + SpanTriplets(chunkId, spans[|spans| - 1])
  {
  }

  lemma StartStands(chunkId: string)
    ensures Standing(chunkId, START, [], [])
  {
  }

  lemma HeadOpens(chunkId: string, m: Machine, span: seq<Token>, before: seq<Triplet>)
    requires Standing(chunkId, m, span, before)
    ensures Standing(chunkId, Step(chunkId, m, Head), [], before + SpanTriplets(chunkId, span))
  {
    LastPair(chunkId, m, span, before);
    hide Standing, Flush;
    StartStands(chunkId);
    var next := Step(chunkId, m, Head);
    FoundOnly(chunkId, next);
  }

  lemma FoundOnly(chunkId: string, m: Machine)
    requires m == START.(found := m.found)
    ensures Standing(chunkId, m, [], m.found)
  {
  }

  /** On every stream of tokens the machine finds exactly what the stream states. */
  lemma MachineReadsTheStream(chunkId: string, ts: seq<Token>)
    ensures var m := Fold(chunkId, ts);
            (if m.mode.InRelation? then Flush(chunkId, m) else m).found == Stated(chunkId, ts)
  {
    hide Standing, SpanTriplets, Fold;
    FoldReads(chunkId, ts);
    var spans := Split(ts, Head);
    var n := |spans| - 1;
    LastPair(chunkId, Fold(chunkId, ts), spans[n], AllOf(chunkId, spans[..n]));
  }

  // ---------------------------------------------------------------- from the text

  /** White space as `str.split` sees it. */
  predicate IsBlank(c: char) {
    || c == ' ' || '\t' <= c <= '\r' || '\U{1C}' <= c <= '\U{1F}' || c == '\U{85}' || c == '\U{A0}' || c == '\U{1680}'
    || '\U{2000}' <= c <= '\U{200A}' || c == '\U{2028}' || c == '\U{2029}' || c == '\U{202F}' || c == '\U{205F}' || c == '\U{3000}'
  }

  function FieldLength(s: string): (n: nat)
    ensures n <= |s| && (s != "" && !IsBlank(s[0]) ==> n > 0)
    ensures (forall k :: 0 <= k < n ==> !IsBlank(s[k])) && (n < |s| ==> IsBlank(s[n]))
  {
    if s == "" || IsBlank(s[0]) then 0 else 1 + FieldLength(s[1..])
  }

  /** `str.split()`. */
  function Fields(s: string): seq<string>
    decreases |s|
  {
    if s == "" then []
    else if IsBlank(s[0]) then Fields(s[1..])
    else [s[..FieldLength(s)]] + Fields(s[FieldLength(s)..])
  }

  /** `s.replace(pat, "")`. */
  function Remove(pat: string, s: string): string
    requires pat != ""
    decreases |s|
  {
    if s == "" then ""
    else if StartsWith(s, pat) then Remove(pat, s[|pat|..])
    else [s[0]] + Remove(pat, s[1..])
  }

  function Spell(t: Token): string {
    match t
    case Head => "<triplet>"
    case Subj => "<subj>"
    case Obj => "<obj>"
    case Word(text) => text
  }

  function TokenOf(field: string): Token {
    if field == "<triplet>" then Head else if field == "<subj>" then Subj else if field == "<obj>" then Obj else Word(field)
  }

  function TokensOf(fields: seq<string>): (ts: seq<Token>)
    ensures |ts| == |fields| && forall k :: 0 <= k < |ts| ==> ts[k] == TokenOf(fields[k])
  {
    seq(|fields|, k requires 0 <= k < |fields| => TokenOf(fields[k]))
  }

  /** What the decoder takes for the tokens of a generated text: the padding goes, the rest is split at blanks. */
  function TokensIn(generated: string): seq<Token> {
    TokensOf(Fields(Remove("<pad>", Remove("</s>", Remove("<s>", generated)))))
  }

  method DecodeTriplets(generated: string, chunkId: string) returns (unique: seq<Triplet>)
    ensures unique == Distinct(Stated(chunkId, TokensIn(generated)))
  {
    hide Stated, Distinct, Fields, Remove;
    var text := Remove("<pad>", Remove("</s>", Remove("<s>", generated)));
    unique := Decode(TokensOf(Fields(text)), chunkId);
  }
}
