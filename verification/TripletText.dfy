/** What the decoder gives back for linearised groups, whatever malformed spans stand between them. */
module TripletText {
  import opened Text
  import opened Triplets

  /** One head and its (tail, relation) pairs, as words. */
  datatype Pair = Pair(tail: seq<string>, relation: seq<string>)

  datatype Group = Group(head: seq<string>, pairs: seq<Pair>)

  /** At least one word, and none empty. */
  ghost predicate Says(ws: seq<string>) { ws != [] && forall w :: w in ws ==> w != "" }

  ghost predicate Sound(g: Group) { Says(g.head) && forall p :: p in g.pairs ==> Says(p.tail) && Says(p.relation) }

  function WordsOf(ws: seq<string>): (ts: seq<Token>)
    ensures |ts| == |ws| && forall k :: 0 <= k < |ts| ==> ts[k] == Word(ws[k])
  {
    seq(|ws|, k requires 0 <= k < |ws| => Word(ws[k]))
  }

  function PrintPair(p: Pair): seq<Token> { WordsOf(p.tail) + [Obj] + WordsOf(p.relation) }

  function PrintPairs(ps: seq<Pair>): seq<Token> {
    if ps == [] then [] else PrintPairs(ps[..|ps| - 1]) + [Subj] + PrintPair(ps[|ps| - 1])
  }

  function PrintGroup(g: Group): seq<Token> { WordsOf(g.head) + PrintPairs(g.pairs) }

  function Meant(chunkId: string, g: Group): (r: seq<Triplet>)
    ensures |r| == |g.pairs|
  {
    seq(|g.pairs|, k requires 0 <= k < |g.pairs| =>
      Triplet(chunkId, Join(g.head, " "), Join(g.pairs[k].relation, " "), Join(g.pairs[k].tail, " ")))
  }

  /** A stretch of output: a group, or a span that lost its `<subj>` or its `<obj>`. */
  datatype Piece = Good(group: Group) | Bad(span: seq<Token>)

  ghost predicate Fair(p: Piece) {
    match p
    case Good(g) => Sound(g)
    case Bad(span) => Head !in span && (Subj !in span || Obj !in span)
  }

  function SpanOf(p: Piece): seq<Token> { if p.Good? then PrintGroup(p.group) else p.span }

  function Stream(ps: seq<Piece>): seq<Token> {
    if ps == [] then [] else Stream(ps[..|ps| - 1]) + [Head] + SpanOf(ps[|ps| - 1])
  }

  function Flattened(chunkId: string, ps: seq<Piece>): seq<Triplet> {
    if ps == [] then []
    else Flattened(chunkId, ps[..|ps| - 1]) + if ps[|ps| - 1].Good? then Meant(chunkId, ps[|ps| - 1].group) else []
  }

  // ---------------------------------------------------------------- streams come apart at their tags

  lemma {:induction false} SplitAcross(xs: seq<Token>, ys: seq<Token>, tag: Token)
    ensures Split(xs + [tag] + ys, tag) == Split(xs, tag) + Split(ys, tag)
  {
    hide Split;
    if ys == [] {
      assert xs + [tag] + ys == xs + [tag];
      SplitMore(xs, tag, tag);
      SplitNothing(tag);
    } else {
      var front, t := ys[..|ys| - 1], ys[|ys| - 1];
      SplitAcross(xs, front, tag);
      Associative(xs, tag, front, t);
      assert ys == front + [t];
      SplitMore(xs + [tag] + front, t, tag);
      SplitMore(front, t, tag);
      LastOfBoth(Split(xs, tag), Split(front, tag), t);
    }
  }

  lemma SplitNothing(tag: Token)
    ensures Split([], tag) == [[]]
  {
  }

  lemma Associative(xs: seq<Token>, tag: Token, front: seq<Token>, t: Token)
    ensures xs + [tag] + (front + [t]) == (xs + [tag] + front) + [t]
  {
  }

  lemma LastOfBoth(a: seq<seq<Token>>, b: seq<seq<Token>>, t: Token)
    requires b != []
    ensures var all, n := a + b, |a + b| - 1;
            && all[..n] + [all[n] + [t]] == a + (b[..|b| - 1] + [b[|b| - 1] + [t]])
            && all + [[]] == a + (b + [[]])
  {
    assert (a + b)[..|a + b| - 1] == a + b[..|b| - 1];
  }

  lemma {:induction false} SplitWithout(xs: seq<Token>, tag: Token)
    requires tag !in xs
    ensures Split(xs, tag) == [xs]
  {
    if xs != [] {
      SplitWithout(xs[..|xs| - 1], tag);
      assert xs == xs[..|xs| - 1] + [xs[|xs| - 1]];
    }
  }

  lemma {:induction false} AllOfAppend(chunkId: string, xs: seq<seq<Token>>, ys: seq<seq<Token>>)
    ensures AllOf(chunkId, xs + ys) == AllOf(chunkId, xs) + AllOf(chunkId, ys)
  {
    hide SpanTriplets;
    if ys == [] {
      assert xs + ys == xs;
    } else {
      AllOfAppend(chunkId, xs, ys[..|ys| - 1]);
      assert (xs + ys)[..|xs + ys| - 1] == xs + ys[..|ys| - 1];
    }
  }

  /** A `<triplet>` forgets everything: what is stated on either side is stated together. */
  lemma StatedAcross(chunkId: string, xs: seq<Token>, ys: seq<Token>)
    ensures Stated(chunkId, xs + [Head] + ys) == Stated(chunkId, xs) + Stated(chunkId, ys)
  {
    hide Split, AllOf;
    SplitAcross(xs, ys, Head);
    AllOfAppend(chunkId, Split(xs, Head), Split(ys, Head));
  }

  lemma StatedBySpan(chunkId: string, span: seq<Token>)
    requires Head !in span
    ensures Stated(chunkId, span) == SpanTriplets(chunkId, span)
  {
    hide Split, SpanTriplets;
    SplitWithout(span, Head);
    hide AllOf;
    OneSpan(chunkId, span);
  }

  lemma OneSpan(chunkId: string, span: seq<Token>)
    ensures AllOf(chunkId, [span]) == SpanTriplets(chunkId, span)
  {
    hide SpanTriplets;
    assert [span][..0] == [];
    assert AllOf(chunkId, []) == [];
  }

  lemma {:induction false} NoPairs(chunkId: string, head: string, parts: seq<seq<Token>>)
    requires forall p :: p in parts ==> Obj !in p
    ensures PairsOf(chunkId, head, parts) == []
  {
    if parts != [] {
      assert parts[|parts| - 1] in parts;
      NoPairs(chunkId, head, parts[..|parts| - 1]);
    }
  }

  lemma {:induction false} PartsHaveOnlyWhatIsThere(ts: seq<Token>, tag: Token)
    requires Obj !in ts
    ensures forall p :: p in Split(ts, tag) ==> Obj !in p
  {
    if ts != [] {
      var front, t := ts[..|ts| - 1], ts[|ts| - 1];
      assert t in ts;
      PartsHaveOnlyWhatIsThere(front, tag);
      var r := Split(front, tag);
      assert r[|r| - 1] in r;
    }
  }

  /** A malformed span states nothing. */
  lemma MalformedStatesNothing(chunkId: string, span: seq<Token>)
    requires Subj !in span || Obj !in span
    ensures SpanTriplets(chunkId, span) == []
  {
    hide PairsOf;
    var parts := Split(span, Subj);
    if Subj !in span {
      SplitWithout(span, Subj);
      assert parts[1..] == [];
    } else {
      PartsHaveOnlyWhatIsThere(span, Subj);
      assert forall p :: p in parts[1..] ==> p in parts;
    }
    NoPairs(chunkId, HeadOf(parts[0]), parts[1..]);
  }

  lemma {:induction false} PairsAreWhole(chunkId: string, head: string, parts: seq<seq<Token>>, t: Triplet)
    requires t in PairsOf(chunkId, head, parts)
    ensures t.chunkId == chunkId && t.subject == head != "" && t.relation != "" && t.obj != ""
  {
    hide Phrase, Tail, Relation;
    var n := |parts| - 1;
    if t in PairsOf(chunkId, head, parts[..n]) { PairsAreWhole(chunkId, head, parts[..n], t); }
  }

  lemma {:induction false} AllAreWhole(chunkId: string, spans: seq<seq<Token>>, t: Triplet)
    requires t in AllOf(chunkId, spans)
    ensures t.chunkId == chunkId && t.subject != "" && t.relation != "" && t.obj != ""
  {
    hide Phrase, Split, PairsOf, HeadOf;
    var n := |spans| - 1;
    if t in AllOf(chunkId, spans[..n]) {
      AllAreWhole(chunkId, spans[..n], t);
    } else {
      var parts := Split(spans[n], Subj);
      PairsAreWhole(chunkId, HeadOf(parts[0]), parts[1..], t);
    }
  }

  /** Whatever a stream says, every triplet it states has a subject, a relation and an object, and names its passage. */
  lemma StatedAreWhole(chunkId: string, ts: seq<Token>)
    ensures forall t :: t in Stated(chunkId, ts) ==> t.chunkId == chunkId && t.subject != "" && t.relation != "" && t.obj != ""
  {
    hide AllOf, Split;
    forall t | t in Stated(chunkId, ts) ensures t.chunkId == chunkId && t.subject != "" && t.relation != "" && t.obj != "" {
      AllAreWhole(chunkId, Split(ts, Head), t);
    }
  }

  // ---------------------------------------------------------------- a printed group

  lemma {:induction false} JoinMore(ws: seq<string>, w: string)
    ensures Join(ws + [w], " ") == if ws == [] then w else Join(ws, " ") + " " + w
  {
    if ws == [] {
      assert ws + [w] == [w];
    } else {
      assert (ws + [w])[1..] == ws[1..] + [w];
      JoinMore(ws[1..], w);
      if |ws| > 1 {
        assert ws[0] + " " + (Join(ws[1..], " ") + " " + w) == ws[0] + " " + Join(ws[1..], " ") + " " + w;
      }
    }
  }

  lemma {:induction false} PhraseOfWords(ws: seq<string>)
    requires forall w :: w in ws ==> w != ""
    ensures Phrase(WordsOf(ws)) == Join(ws, " ") && (ws != [] ==> Join(ws, " ") != "")
  {
    hide Join;
    if ws == [] {
      assert Join(ws, " ") == "" by { JoinNothing(); }
    } else {
      var front, w := ws[..|ws| - 1], ws[|ws| - 1];
      assert w in ws && ws == front + [w];
      assert forall x :: x in front ==> x in ws;
      PhraseOfWords(front);
      JoinMore(front, w);
      assert WordsOf(ws)[..|ws| - 1] == WordsOf(front);
    }
  }

  lemma JoinNothing()
    ensures Join([], " ") == ""
  {
  }

  lemma {:induction false} PartAroundObj(before: seq<Token>, behind: seq<Token>)
    requires Obj !in before
    ensures Tail(before + [Obj] + behind) == before && Relation(before + [Obj] + behind) == behind
  {
    var all := before + [Obj] + behind;
    if before == [] {
      assert all == [Obj] + behind;
    } else {
      assert all[0] == before[0] && all[1..] == before[1..] + [Obj] + behind;
      PartAroundObj(before[1..], behind);
      assert before == [before[0]] + before[1..];
    }
  }

  lemma PrintedPair(chunkId: string, head: seq<string>, p: Pair)
    requires Says(head) && Says(p.tail) && Says(p.relation)
    ensures PairOf(chunkId, Join(head, " "), PrintPair(p)) ==
            [Triplet(chunkId, Join(head, " "), Join(p.relation, " "), Join(p.tail, " "))]
  {
    hide Join, Phrase, Tail, Relation;
    PhraseOfWords(head);
    PhraseOfWords(p.tail);
    PhraseOfWords(p.relation);
    PartAroundObj(WordsOf(p.tail), WordsOf(p.relation));
    assert PrintPair(p)[|p.tail|] == Obj;
  }

  lemma {:induction false} PartsOfGroup(head: seq<string>, ps: seq<Pair>)
    ensures Split(PrintGroup(Group(head, ps)), Subj) == [WordsOf(head)] + seq(|ps|, k requires 0 <= k < |ps| => PrintPair(ps[k]))
  {
    hide PrintPair, Split, PrintGroup;
    GroupGrows(head, ps);
    if ps == [] {
      SplitWithout(WordsOf(head), Subj);
    } else {
      var front, last := ps[..|ps| - 1], ps[|ps| - 1];
      PartsOfGroup(head, front);
      SplitAcross(PrintGroup(Group(head, front)), PrintPair(last), Subj);
      PairHasNoSubj(last);
      SplitWithout(PrintPair(last), Subj);
    }
  }

  lemma GroupGrows(head: seq<string>, ps: seq<Pair>)
    ensures ps == [] ==> PrintGroup(Group(head, ps)) == WordsOf(head)
    ensures ps != [] ==> PrintGroup(Group(head, ps)) == PrintGroup(Group(head, ps[..|ps| - 1])) + [Subj] + PrintPair(ps[|ps| - 1])
  {
    hide PrintPair;
  }

  lemma PairHasNoSubj(p: Pair)
    ensures Subj !in PrintPair(p) && Head !in PrintPair(p)
  {
  }

  lemma {:induction false} PairsOfGroup(chunkId: string, head: seq<string>, ps: seq<Pair>)
    requires Sound(Group(head, ps))
    ensures PairsOf(chunkId, Join(head, " "), seq(|ps|, k requires 0 <= k < |ps| => PrintPair(ps[k]))) == Meant(chunkId, Group(head, ps))
  {
    hide Join, PrintPair, PairOf;
    if ps != [] {
      var front, last := ps[..|ps| - 1], ps[|ps| - 1];
      assert last in ps && forall p :: p in front ==> p in ps;
      PairsOfGroup(chunkId, head, front);
      PrintedPair(chunkId, head, last);
      var parts := seq(|ps|, k requires 0 <= k < |ps| => PrintPair(ps[k]));
      assert parts[..|ps| - 1] == seq(|front|, k requires 0 <= k < |front| => PrintPair(front[k]));
      assert Meant(chunkId, Group(head, ps)) == Meant(chunkId, Group(head, front)) + PairOf(chunkId, Join(head, " "), PrintPair(last));
    }
  }

  /** Decoding undoes linearising, for one group of one head and any number of pairs. */
  lemma GroupStatesItsPairs(chunkId: string, g: Group)
    requires Sound(g)
    ensures SpanTriplets(chunkId, PrintGroup(g)) == Meant(chunkId, g)
  {
    hide Split, PairsOf, Join, Phrase, PrintGroup, PrintPair, Meant;
    PartsOfGroup(g.head, g.pairs);
    PairsOfGroup(chunkId, g.head, g.pairs);
    PhraseOfWords(g.head);
    var parts := seq(|g.pairs|, k requires 0 <= k < |g.pairs| => PrintPair(g.pairs[k]));
    assert ([WordsOf(g.head)] + parts)[1..] == parts;
  }

  lemma {:induction false} GroupHasNoHead(head: seq<string>, ps: seq<Pair>)
    ensures Head !in PrintGroup(Group(head, ps))
  {
    hide PrintPair;
    if ps == [] {
    } else {
      GroupHasNoHead(head, ps[..|ps| - 1]);
      PairHasNoSubj(ps[|ps| - 1]);
      assert PrintGroup(Group(head, ps)) == PrintGroup(Group(head, ps[..|ps| - 1])) + ([Subj] + PrintPair(ps[|ps| - 1]));
    }
  }

  /** Whatever pieces a stream is made of, it states its groups' triplets, in order, and nothing else. */
  lemma {:induction false} StreamStatesItsGroups(chunkId: string, ps: seq<Piece>)
    requires forall p :: p in ps ==> Fair(p)
    ensures Stated(chunkId, Stream(ps)) == Flattened(chunkId, ps)
  {
    hide Stated, SpanTriplets, PrintGroup, Meant;
    if ps == [] {
      NothingIsStated(chunkId);
    } else {
      var front, last := ps[..|ps| - 1], ps[|ps| - 1];
      assert last in ps;
      StreamStatesItsGroups(chunkId, front);
      StatedAcross(chunkId, Stream(front), SpanOf(last));
      match last {
        case Good(g) =>
          GroupHasNoHead(g.head, g.pairs);
          StatedBySpan(chunkId, SpanOf(last));
          GroupStatesItsPairs(chunkId, g);
        case Bad(span) =>
          StatedBySpan(chunkId, span);
          MalformedStatesNothing(chunkId, span);
      }
    }
  }

  lemma NothingIsStated(chunkId: string)
    ensures Stated(chunkId, []) == []
  {
    StatedBySpan(chunkId, []);
  }

  function OnlyGood(ps: seq<Piece>): seq<Piece> {
    if ps == [] then [] else OnlyGood(ps[..|ps| - 1]) + if ps[|ps| - 1].Good? then [ps[|ps| - 1]] else []
  }

  /** Malformed spans between groups change nothing. */
  lemma {:induction false} MalformedSpansChangeNothing(chunkId: string, ps: seq<Piece>)
    ensures Flattened(chunkId, OnlyGood(ps)) == Flattened(chunkId, ps)
  {
    hide Meant;
    if ps != [] {
      var front, last := ps[..|ps| - 1], ps[|ps| - 1];
      MalformedSpansChangeNothing(chunkId, front);
      if last.Good? {
        assert (OnlyGood(front) + [last])[..|OnlyGood(front)|] == OnlyGood(front);
      } else {
        assert OnlyGood(front) + [] == OnlyGood(front);
      }
    }
  }

  // ---------------------------------------------------------------- as text

  /** A word that can be printed: not empty, no white space, no tag, and no padding mark in it. */
  ghost predicate Printable(w: string) {
    && w != "" && (forall k :: 0 <= k < |w| ==> !IsBlank(w[k]))
    && w != "<triplet>" && w != "<subj>" && w != "<obj>"
    && !Occurs("<s>", w) && !Occurs("</s>", w) && !Occurs("<pad>", w)
  }

  ghost predicate PrintableTokens(ts: seq<Token>) { forall t :: t in ts && t.Word? ==> Printable(t.text) }

  function Spelled(ts: seq<Token>): (ws: seq<string>)
    ensures |ws| == |ts| && forall k :: 0 <= k < |ws| ==> ws[k] == Spell(ts[k])
  {
    seq(|ts|, k requires 0 <= k < |ts| => Spell(ts[k]))
  }

  function Printed(ts: seq<Token>): string { Join(Spelled(ts), " ") }

  lemma OccursBehind(pat: string, s: string)
    requires s != ""
    ensures Occurs(pat, s[1..]) ==> Occurs(pat, s)
  {
    if Occurs(pat, s[1..]) {
      OccursWithin(pat, s[..1], s[1..], "");
      assert s[..1] + s[1..] + "" == s;
    }
  }

  lemma {:induction false} NoneToRemove(pat: string, s: string)
    requires pat != "" && !Occurs(pat, s)
    ensures Remove(pat, s) == s
  {
    if s != "" {
      assert StartsWith(s, pat) == OccursAt(pat, s, 0);
      OccursBehind(pat, s);
      NoneToRemove(pat, s[1..]);
    }
  }

  /** A pattern without a blank cannot straddle two words. */
  lemma {:induction false} NotInJoin(pat: string, ws: seq<string>)
    requires pat != "" && ' ' !in pat && forall w :: w in ws ==> !Occurs(pat, w)
    ensures !Occurs(pat, Join(ws, " "))
  {
    if ws == [] {
      assert forall at: nat :: !OccursAt(pat, "", at);
    } else if |ws| == 1 {
      assert ws[0] in ws;
    } else {
      assert ws[0] in ws && forall w :: w in ws[1..] ==> w in ws;
      NotInJoin(pat, ws[1..]);
      NotAcrossBlank(pat, ws[0], Join(ws[1..], " "));
    }
  }

  lemma NotAcrossBlank(pat: string, a: string, b: string)
    requires pat != "" && ' ' !in pat && !Occurs(pat, a) && !Occurs(pat, b)
    ensures !Occurs(pat, a + " " + b)
  {
    var s := a + " " + b;
    forall at: nat ensures !OccursAt(pat, s, at) {
      if at + |pat| <= |s| {
        var cut := s[at..at + |pat|];
        if at + |pat| <= |a| {
          assert cut == a[at..at + |pat|];
          assert !OccursAt(pat, a, at);
        } else if at > |a| {
          assert cut == b[at - |a| - 1..at - |a| - 1 + |pat|];
          assert !OccursAt(pat, b, at - |a| - 1);
        } else {
          assert cut[|a| - at] == ' ';
        }
      }
    }
  }

  lemma NoPaddingInTags(pat: string, t: Token)
    requires |pat| >= 3 && pat[0] == '<' && (pat[1] == '/' || pat[1] == 'p' || (pat[1] == 's' && pat[2] == '>'))
    requires !t.Word?
    ensures !Occurs(pat, Spell(t))
  {
    var w := Spell(t);
    forall at: nat ensures !OccursAt(pat, w, at) {
      if at + |pat| <= |w| {
        var cut := w[at..at + |pat|];
        assert cut[0] == w[at] && cut[1] == w[at + 1] && cut[2] == w[at + 2];
      }
    }
  }

  lemma NoPaddingInSpelling(t: Token)
    requires t.Word? ==> Printable(t.text)
    ensures !Occurs("<s>", Spell(t)) && !Occurs("</s>", Spell(t)) && !Occurs("<pad>", Spell(t))
  {
    hide Occurs, IsBlank;
    if !t.Word? {
      NoPaddingInTags("<s>", t);
      NoPaddingInTags("</s>", t);
      NoPaddingInTags("<pad>", t);
    }
  }

  lemma {:induction false} FieldsOfJoin(ws: seq<string>)
    requires forall w :: w in ws ==> w != "" && forall k :: 0 <= k < |w| ==> !IsBlank(w[k])
    ensures Fields(Join(ws, " ")) == ws
  {
    hide IsBlank, Fields;
    NoFields();
    if ws != [] {
      assert ws[0] in ws && forall w :: w in ws[1..] ==> w in ws;
      FieldsOfJoin(ws[1..]);
      assert ws == [ws[0]] + ws[1..];
      if |ws| == 1 {
        OneField(ws[0], "");
        assert ws[0] + "" == ws[0];
      } else {
        FirstField(ws[0], Join(ws[1..], " "));
      }
    }
  }

  lemma NoFields()
    ensures Fields("") == []
  {
  }

  lemma OneField(w: string, rest: string)
    requires w != "" && (forall k :: 0 <= k < |w| ==> !IsBlank(w[k])) && (rest == "" || IsBlank(rest[0]))
    ensures Fields(w + rest) == [w] + Fields(rest)
  {
    hide IsBlank;
    var s := w + rest;
    var n := FieldLength(s);
    assert s[0] == w[0];
    assert forall k :: 0 <= k < |w| ==> s[k] == w[k];
    assert rest != "" ==> s[|w|] == rest[0];
    assert n == |w|;
    assert s[..n] == w && s[n..] == rest;
  }

  lemma FirstField(w: string, rest: string)
    requires w != "" && forall k :: 0 <= k < |w| ==> !IsBlank(w[k])
    ensures Fields(w + " " + rest) == [w] + Fields(rest)
  {
    OneField(w, " " + rest);
    assert w + " " + rest == w + (" " + rest);
    assert (" " + rest)[1..] == rest;
    assert Fields(" " + rest) == Fields(rest);
  }

  lemma TokenOfSpelling(t: Token)
    requires t.Word? ==> Printable(t.text)
    ensures TokenOf(Spell(t)) == t && Spell(t) != "" && forall k :: 0 <= k < |Spell(t)| ==> !IsBlank(Spell(t)[k])
  {
    hide Occurs;
    assert "<triplet>"[1] != "<subj>"[1] && "<subj>"[1] != "<obj>"[1];
  }

  /** Printed tokens are read back as they were. */
  lemma ReadingUndoesPrinting(ts: seq<Token>)
    requires PrintableTokens(ts)
    ensures TokensIn(Printed(ts)) == ts
  {
    hide Remove, Fields, Join, Occurs, Spell, TokenOf, Printable;
    var ws, text := Spelled(ts), Printed(ts);
    forall w | w in ws
      ensures !Occurs("<s>", w) && !Occurs("</s>", w) && !Occurs("<pad>", w)
      ensures w != "" && forall k :: 0 <= k < |w| ==> !IsBlank(w[k])
    {
      var k :| 0 <= k < |ws| && ws[k] == w;
      assert ts[k] in ts;
      NoPaddingInSpelling(ts[k]);
      TokenOfSpelling(ts[k]);
    }
    NotInJoin("<s>", ws);
    NotInJoin("</s>", ws);
    NotInJoin("<pad>", ws);
    NoneToRemove("<s>", text);
    NoneToRemove("</s>", text);
    NoneToRemove("<pad>", text);
    FieldsOfJoin(ws);
    forall k | 0 <= k < |ts| ensures TokenOf(ws[k]) == ts[k] {
      assert ts[k] in ts;
      TokenOfSpelling(ts[k]);
    }
  }

  /**
   * Decoding undoes linearising: whatever groups are printed, with malformed spans between them or
   * without, the text decodes to the groups' triplets with duplicates out, first seen first.
   */
  lemma DecodingUndoesLinearising(chunkId: string, ps: seq<Piece>)
    requires (forall p :: p in ps ==> Fair(p)) && PrintableTokens(Stream(ps))
    ensures Distinct(Stated(chunkId, TokensIn(Printed(Stream(ps))))) == Distinct(Flattened(chunkId, ps))
    ensures Distinct(Stated(chunkId, TokensIn(Printed(Stream(ps))))) == Distinct(Flattened(chunkId, OnlyGood(ps)))
  {
    hide Distinct, Stated, TokensIn, Printed, Stream, PrintableTokens, Fair, Flattened;
    ReadingUndoesPrinting(Stream(ps));
    StreamStatesItsGroups(chunkId, ps);
    MalformedSpansChangeNothing(chunkId, ps);
  }
}
