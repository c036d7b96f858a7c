/**
 * The last pass over a projection. It drops a prefix of whole messages, never past the question, and
 * cuts text only where dropping has not been enough.
 */
module Ceiling {
  import opened Text
  import opened Messages

  /**
   * How a request is measured: the estimator, the prefix that goes out with every request, and how
   * far the run's own measurements say the estimator under-counts.
   */
  datatype Meter = Meter(est: Message -> nat, fixed: nat, drift: real) {
    ghost predicate Valid() { drift >= 1.0 }
  }

  function Ceil(x: real): int { -((-x).Floor) }

  lemma CeilIsLeast(x: real, n: int)
    ensures Ceil(x) <= n <==> x <= n as real
  {
  }

  lemma CeilSubadditive(x: real, y: real)
    ensures Ceil(x + y) <= Ceil(x) + Ceil(y)
  {
    CeilIsLeast(x, Ceil(x));
    CeilIsLeast(y, Ceil(y));
    CeilIsLeast(x + y, Ceil(x) + Ceil(y));
  }

  function Total(est: Message -> nat, ms: seq<Message>): nat {
    if ms == [] then 0 else est(ms[0]) + Total(est, ms[1..])
  }

  lemma {:induction false} TotalAppend(est: Message -> nat, xs: seq<Message>, ys: seq<Message>)
    ensures Total(est, xs + ys) == Total(est, xs) + Total(est, ys)
  {
    if xs == [] {
      assert xs + ys == ys;
    } else {
      TotalAppend(est, xs[1..], ys);
      assert (xs + ys)[1..] == xs[1..] + ys;
    }
  }

  /** What a list of messages costs, measured from the messages themselves. */
  function Cost(m: Meter, ms: seq<Message>): int {
    Ceil((Total(m.est, ms) + m.fixed) as real * m.drift)
  }

  /** The last message the provider counted, if any. */
  function LastUsage(ms: seq<Message>): (r: Option<nat>)
    ensures r.Some? ==> r.value < |ms| && ms[r.value].usage.Some?
  {
    if ms == [] then None
    else
      var k := |ms| - 1;
      if ms[k].role.Assistant? && ms[k].usage.Some? && ms[k].usage.value > 0 then Some(k) else LastUsage(ms[..k])
  }

  /** What the whole request comes to, trusting the provider's own count where there is one. */
  function RequestTokens(m: Meter, ms: seq<Message>): nat {
    match LastUsage(ms)
    case None => Total(m.est, ms) + m.fixed
    case Some(k) => ms[k].usage.value + Total(m.est, ms[k + 1..])
  }

  /** A provider's count stands for everything up to its message, prefix included; only what came behind is estimated. */
  lemma CountedRequest(m: Meter, front: seq<Message>, counted: Message, back: seq<Message>)
    requires counted.role.Assistant? && counted.usage.Some? && counted.usage.value > 0
    requires forall b :: b in back ==> !(b.role.Assistant? && b.usage.Some? && b.usage.value > 0)
    ensures RequestTokens(m, front + [counted] + back) == counted.usage.value + Total(m.est, back)
  {
    LastCounted(front, counted, back);
    assert (front + [counted] + back)[|front| + 1..] == back;
  }

  lemma {:induction false} LastCounted(front: seq<Message>, counted: Message, back: seq<Message>)
    requires counted.role.Assistant? && counted.usage.Some? && counted.usage.value > 0
    requires forall b :: b in back ==> !(b.role.Assistant? && b.usage.Some? && b.usage.value > 0)
    ensures LastUsage(front + [counted] + back) == Some(|front|)
  {
    var ms := front + [counted] + back;
    if back != [] {
      assert back[|back| - 1] in back;
      LastCounted(front, counted, back[..|back| - 1]);
      assert ms[..|ms| - 1] == front + [counted] + back[..|back| - 1];
    }
  }

  /** With no count to read, the messages are estimated and the prefix is added. */
  lemma {:induction false} UncountedRequest(m: Meter, ms: seq<Message>)
    requires forall b :: b in ms ==> !(b.role.Assistant? && b.usage.Some? && b.usage.value > 0)
    ensures RequestTokens(m, ms) == Total(m.est, ms) + m.fixed
  {
    NoneCounted(ms);
  }

  lemma {:induction false} NoneCounted(ms: seq<Message>)
    requires forall b :: b in ms ==> !(b.role.Assistant? && b.usage.Some? && b.usage.value > 0)
    ensures LastUsage(ms) == None
  {
    if ms != [] {
      assert ms[|ms| - 1] in ms;
      NoneCounted(ms[..|ms| - 1]);
    }
  }

  /** What a cost within `n` means: messages and prefix together, at the run's drift. */
  lemma CostIsWithin(m: Meter, ms: seq<Message>, n: int)
    ensures Cost(m, ms) <= n <==> (Total(m.est, ms) + m.fixed) as real * m.drift <= n as real
  {
    hide Total;
    CeilIsLeast((Total(m.est, ms) + m.fixed) as real * m.drift, n);
  }

  // ---------------------------------------------------------------- the notice

  function Plural(n: nat): string { if n == 1 then "" else "s" }

  function DroppedPart(dropped: nat): string {
    Decimal(dropped) + " earlier message" + Plural(dropped) + " in this task " +
    (if dropped == 1 then "was" else "were") + " removed"
  }

  function TruncatedPart(truncated: nat): string {
    Decimal(truncated) + " message" + (if truncated == 1 then " was" else "s were") + " shortened"
  }

  function NoticeParts(dropped: nat, truncated: nat): seq<string> {
    (if dropped > 0 then [DroppedPart(dropped)] else []) + (if truncated > 0 then [TruncatedPart(truncated)] else [])
  }

  /** The fixed end of every notice: why, and what not to assume. Nothing depends on its wording. */
  const NOTICE_TAIL: string

  /** The sentence that stands in for what was dropped, and says how many messages were shortened. */
  function CeilingMarker(dropped: nat, truncated: nat): string {
    "[Context notice: " + Join(NoticeParts(dropped, truncated), " and ") + NOTICE_TAIL
  }

  function Notice(dropped: nat, truncated: nat): Message {
    UserText(CeilingMarker(dropped, truncated))
  }

  /** The notice says how many messages went and how many were shortened, each where there are any. */
  lemma NoticeSaysHowMany(dropped: nat, truncated: nat)
    ensures var said := TextOf(Notice(dropped, truncated));
            && (dropped > 0 ==> Occurs(Decimal(dropped) + if dropped == 1 then " earlier message in this task was removed"
                                                         else " earlier messages in this task were removed", said))
            && (truncated > 0 ==> Occurs(Decimal(truncated) + if truncated == 1 then " message was shortened" else " messages were shortened", said))
  {
    hide Join, TextOf, Decimal, Occurs, NoticeParts, DroppedPart, TruncatedPart, Notice;
    PartsOfNotice(dropped, truncated);
    if dropped > 0 {
      DroppedReads(dropped);
      PartIsSaid(dropped, truncated, 0);
    }
    if truncated > 0 {
      TruncatedReads(truncated);
      PartIsSaid(dropped, truncated, |NoticeParts(dropped, truncated)| - 1);
    }
  }

  /** The whole notice: what is not there is not spoken of, and what is stands between the same two ends. */
  lemma NoticeReads(dropped: nat, truncated: nat)
    ensures dropped > 0 && truncated > 0 ==>
              CeilingMarker(dropped, truncated) ==
              "[Context notice: " + (DroppedPart(dropped) + " and " + TruncatedPart(truncated)) + NOTICE_TAIL
    ensures dropped > 0 && truncated == 0 ==> CeilingMarker(dropped, truncated) == "[Context notice: " + DroppedPart(dropped) + NOTICE_TAIL
    ensures dropped == 0 && truncated > 0 ==> CeilingMarker(dropped, truncated) == "[Context notice: " + TruncatedPart(truncated) + NOTICE_TAIL
  {
    hide DroppedPart, TruncatedPart;
    if dropped > 0 && truncated > 0 {
      assert NoticeParts(dropped, truncated) == [DroppedPart(dropped), TruncatedPart(truncated)];
      assert [DroppedPart(dropped), TruncatedPart(truncated)][1..] == [TruncatedPart(truncated)];
      assert Join([TruncatedPart(truncated)], " and ") == TruncatedPart(truncated);
    }
  }

  lemma PartsOfNotice(dropped: nat, truncated: nat)
    ensures var parts := NoticeParts(dropped, truncated);
            && (dropped > 0 ==> parts != [] && parts[0] == DroppedPart(dropped))
            && (truncated > 0 ==> parts != [] && parts[|parts| - 1] == TruncatedPart(truncated))
  {
    hide DroppedPart, TruncatedPart;
  }

  lemma DroppedReads(n: nat)
    requires n > 0
    ensures n == 1 ==> DroppedPart(n) == Decimal(n) + " earlier message in this task was removed"
    ensures n > 1 ==> DroppedPart(n) == Decimal(n) + " earlier messages in this task were removed"
  {
    hide Decimal;
    if n == 1 { OneDropped(Decimal(n)); } else { SeveralDropped(Decimal(n)); }
  }

  lemma OneDropped(d: string)
    ensures d + " earlier message" + "" + " in this task " + "was" + " removed" == d + " earlier message in this task was removed"
  {
    var behind := " earlier message" + "" + " in this task " + "was" + " removed";
    assert behind == " earlier message in this task was removed";
    assert d + " earlier message" + "" + " in this task " + "was" + " removed" == d + behind;
  }

  lemma SeveralDropped(d: string)
    ensures d + " earlier message" + "s" + " in this task " + "were" + " removed" == d + " earlier messages in this task were removed"
  {
    var behind := " earlier message" + "s" + " in this task " + "were" + " removed";
    assert behind == " earlier messages in this task were removed";
    assert d + " earlier message" + "s" + " in this task " + "were" + " removed" == d + behind;
  }

  lemma TruncatedReads(n: nat)
    requires n > 0
    ensures n == 1 ==> TruncatedPart(n) == Decimal(n) + " message was shortened"
    ensures n > 1 ==> TruncatedPart(n) == Decimal(n) + " messages were shortened"
  {
    hide Decimal;
    var d := Decimal(n);
    if n == 1 {
      assert d + " message" + " was" + " shortened" == d + (" message" + " was" + " shortened");
      assert " message" + " was" + " shortened" == " message was shortened";
    } else {
      assert d + " message" + "s were" + " shortened" == d + (" message" + "s were" + " shortened");
      assert " message" + "s were" + " shortened" == " messages were shortened";
    }
  }

  lemma PartIsSaid(dropped: nat, truncated: nat, k: nat)
    requires k < |NoticeParts(dropped, truncated)|
    ensures Occurs(NoticeParts(dropped, truncated)[k], TextOf(Notice(dropped, truncated)))
  {
    hide NoticeParts, Join, TextOf, Occurs;
    var parts := NoticeParts(dropped, truncated);
    var said := Join(parts, " and ");
    JoinKeepsParts(parts, " and ", k);
    OccursWithin(parts[k], "[Context notice: ", said, NOTICE_TAIL);
    TextOfNotice(CeilingMarker(dropped, truncated));
  }

  lemma TextOfNotice(text: string)
    ensures TextOf(UserText(text)) == text
  {
    assert [TextBlock(text)][1..] == [];
    assert BlocksText([TextBlock(text)]) == text + "";
  }

  /** The estimator reads a notice by its length, as it does any text without CJK characters. */
  ghost predicate MeasuresNotices(est: Message -> nat) {
    forall d, t, d', t' :: |CeilingMarker(d, t)| <= |CeilingMarker(d', t')| ==> est(Notice(d, t)) <= est(Notice(d', t'))
  }

  lemma NoticeForDropsIsShort(dropped: nat)
    requires 0 < dropped < PowerOfTen(27)
    ensures |CeilingMarker(dropped, 0)| <= |CeilingMarker(1, 1)|
  {
    DecimalLength(dropped, 27);
    assert Decimal(1) == "1";
    assert |DroppedPart(dropped)| <= |Decimal(dropped)| + 43;
    assert NoticeParts(dropped, 0) == [DroppedPart(dropped)];
    assert NoticeParts(1, 1) == [DroppedPart(1), TruncatedPart(1)];
    assert NoticeParts(1, 1)[1..] == [TruncatedPart(1)];
    assert |DroppedPart(1)| == 42 && |TruncatedPart(1)| == 23;
  }

  // ---------------------------------------------------------------- dropping whole messages

  /** The newest user message from `pre` on, which may never go; the end of the list when there is none. */
  function ProtectedFrom(ms: seq<Message>, pre: nat): (p: nat)
    requires pre <= |ms|
    ensures pre <= p <= |ms|
    ensures p < |ms| ==> ms[p].role.User?
    ensures forall k :: pre <= k < |ms| && ms[k].role.User? ==> k <= p < |ms|
  {
    LastUser(ms, pre, |ms|)
  }

  function LastUser(ms: seq<Message>, pre: nat, below: nat): (p: nat)
    requires pre <= below <= |ms|
    ensures pre <= p <= |ms|
    ensures p < |ms| ==> p < below && ms[p].role.User?
    ensures forall k :: pre <= k < below && ms[k].role.User? ==> k <= p < |ms|
  {
    if below == pre then |ms|
    else if ms[below - 1].role.User? then below - 1
    else LastUser(ms, pre, below - 1)
  }

  /** What is left when the messages from `pre` up to `cut` go. */
  function Without(ms: seq<Message>, pre: nat, cut: nat): seq<Message>
    requires pre <= cut <= |ms|
  {
    ms[..pre] + ms[cut..]
  }

  /** A place the drop may stop at: nothing dropped, or no tool result left without its call. */
  ghost predicate MayStopAt(ms: seq<Message>, pre: nat, cut: nat)
    requires pre <= cut <= |ms|
  {
    cut == pre || Intact(ms[cut..])
  }

  /**
   * Where dropping ends, starting with everything before `at` already gone: the first stop at which
   * the rest costs no more than the target, or the last stop there is.
   */
  ghost function DropCut(m: Meter, ms: seq<Message>, pre: nat, at: nat, limit: nat, target: int): (r: nat)
    requires pre <= at <= limit <= |ms| && MayStopAt(ms, pre, at)
    ensures at <= r <= limit && MayStopAt(ms, pre, r)
    ensures forall c :: at <= c < r && (c == at || Intact(ms[c..])) ==> Cost(m, Without(ms, pre, c)) > target
    ensures Cost(m, Without(ms, pre, r)) > target ==> forall c :: r < c <= limit ==> !Intact(ms[c..])
    decreases limit - at
  {
    if Cost(m, Without(ms, pre, at)) <= target || at == limit then at
    else
      var next := AlignDrop(ms, at + 1, limit);
      if Intact(ms[next..]) then DropCut(m, ms, pre, next, limit, target) else at
  }

  lemma {:induction false} AlignUpShifts(ms: seq<Message>, pre: nat, at: nat, from: nat, limit: nat)
    requires pre <= at <= limit <= |ms| && at <= from
    ensures AlignUp(Without(ms, pre, at), pre + from - at, pre + limit - at) == pre + AlignUp(ms, from, limit) - at
    decreases limit - from
  {
    if from < limit {
      assert Without(ms, pre, at)[pre + from - at..] == ms[from..];
      AlignUpShifts(ms, pre, at, from + 1, limit);
    }
  }

  /** One turn of the drop loop, seen from the list as it was before anything went. */
  lemma DropStep(m: Meter, ms: seq<Message>, pre: nat, at: nat, limit: nat, target: int)
    requires pre <= at < limit <= |ms| && MayStopAt(ms, pre, at) && Cost(m, Without(ms, pre, at)) > target
    ensures var kept := Without(ms, pre, at);
            var cut := AlignDrop(kept, pre + 1, pre + limit - at);
            var next := at + cut - pre;
            && |kept| == |ms| - at + pre && pre < cut <= pre + limit - at && kept[cut..] == ms[next..]
            && (Intact(kept[cut..]) ==> MayStopAt(ms, pre, next))
            && Without(ms, pre, next) == kept[..pre] + kept[cut..]
            && DropCut(m, ms, pre, at, limit, target) ==
                 if Intact(kept[cut..]) then DropCut(m, ms, pre, next, limit, target) else at
  {
    hide Cost, Intact;
    AlignUpShifts(ms, pre, at, at + 1, limit);
  }

  lemma NothingDropped(ms: seq<Message>, pre: nat)
    requires pre <= |ms|
    ensures Without(ms, pre, pre) == ms && MayStopAt(ms, pre, pre)
  {
  }

  /** The drop loop: whole messages out of the front, in place, until the rest fits. */
  method DropUntilItFits(m: Meter, ms: seq<Message>, pre: nat, limit: nat, target: int)
    returns (kept: seq<Message>, dropped: nat)
    requires pre <= limit <= |ms|
    ensures pre + dropped == DropCut(m, ms, pre, pre, limit, target)
    ensures kept == Without(ms, pre, pre + dropped)
  {
    hide *;
    kept, dropped := ms, 0;
    var protectedFrom := limit;
    NothingDropped(ms, pre);
    while Cost(m, kept) > target && pre < protectedFrom
      invariant pre + dropped <= limit && protectedFrom == limit - dropped
      invariant MayStopAt(ms, pre, pre + dropped)
      invariant |kept| == |ms| - dropped
      invariant kept == Without(ms, pre, pre + dropped)
      invariant DropCut(m, ms, pre, pre, limit, target) == DropCut(m, ms, pre, pre + dropped, limit, target)
      decreases protectedFrom
    {
      DropStep(m, ms, pre, pre + dropped, limit, target);
      var cut := AlignDropToPairs(kept, pre + 1, protectedFrom);
      var intact := PairingIsIntact(kept[cut..]);
      if cut <= pre || cut > protectedFrom || !intact {
        break;
      }
      var removed := cut - pre;
      kept := kept[..pre] + kept[pre + removed..];
      protectedFrom := protectedFrom - removed;
      dropped := dropped + removed;
    }
  }

  // ---------------------------------------------------------------- cutting text

  /** The sentence a cut block ends on. Nothing depends on its wording. */
  const TRUNCATION_NOTE: string

  function TextTotal(blocks: seq<Block>): nat {
    if blocks == [] then 0 else (if blocks[0].TextBlock? then |blocks[0].text| else 0) + TextTotal(blocks[1..])
  }

  function TwoTo(k: nat): (p: nat)
    ensures p >= 1
  {
    if k == 0 then 1 else 2 * TwoTo(k - 1)
  }

  /** How much of each text block a pass keeps: half as much each time, never under 120 characters. */
  function KeepOnPass(total: nat, pass: nat): nat {
    var share := total / TwoTo(pass + 1);
    if share < 120 then 120 else share
  }

  function CutBlock(b: Block, keep: nat): Block {
    if b.TextBlock? && |b.text| > keep then TextBlock(b.text[..keep] + TRUNCATION_NOTE) else b
  }

  function CutBlocks(blocks: seq<Block>, keep: nat): seq<Block> {
    seq(|blocks|, k requires 0 <= k < |blocks| => CutBlock(blocks[k], keep))
  }

  function Candidate(msg: Message, pass: nat): Message
    requires msg.content.Blocks?
  {
    msg.(content := Blocks(CutBlocks(msg.content.blocks, KeepOnPass(TextTotal(msg.content.blocks), pass))))
  }

  function HasText(msg: Message): bool {
    msg.content.Blocks? && exists b :: b in msg.content.blocks && b.TextBlock?
  }

  /** The first of six passes that lands, or the sixth. */
  function TruncateFrom(est: Message -> nat, msg: Message, room: int, pass: nat): Message
    requires msg.content.Blocks? && pass < 6
    decreases 6 - pass
  {
    if est(Candidate(msg, pass)) <= room || pass == 5 then Candidate(msg, pass)
    else TruncateFrom(est, msg, room, pass + 1)
  }

  function Truncate(est: Message -> nat, msg: Message, room: int): Message {
    if HasText(msg) then TruncateFrom(est, msg, room, 0) else msg
  }

  method TruncateMessageText(est: Message -> nat, msg: Message, room: int) returns (r: Message)
    ensures r == Truncate(est, msg, room)
  {
    hide CutBlocks, KeepOnPass;
    if !msg.content.Blocks? || !HasText(msg) {
      return msg;
    }
    var total := TextTotal(msg.content.blocks);
    r := msg;
    for pass := 0 to 6
      invariant pass < 6 ==> TruncateFrom(est, msg, room, 0) == TruncateFrom(est, msg, room, pass)
      invariant pass < 6
    {
      var keep := KeepOnPass(total, pass);
      var candidate := msg.(content := Blocks(CutBlocks(msg.content.blocks, keep)));
      if est(candidate) <= room {
        return candidate;
      }
      if pass == 5 {
        return candidate;
      }
    }
  }

  /** A text block's opening, and the sentence that says it was cut. */
  ghost predicate IsCutOf(b: Block, original: Block) {
    b == original ||
    (b.TextBlock? && original.TextBlock? &&
      exists n :: 0 <= n < |original.text| && b.text == original.text[..n] + TRUNCATION_NOTE)
  }

  /** The same message with nothing but text blocks shortened. */
  ghost predicate IsShortenedFrom(r: Message, msg: Message) {
    r == msg ||
    (r.role == msg.role && r.callId == msg.callId && r.usage == msg.usage && r.content.Blocks? && msg.content.Blocks? &&
      |r.content.blocks| == |msg.content.blocks| &&
      forall k :: 0 <= k < |r.content.blocks| ==> IsCutOf(r.content.blocks[k], msg.content.blocks[k]))
  }

  lemma {:induction false} TruncateFromOnlyShortens(est: Message -> nat, msg: Message, room: int, pass: nat)
    requires msg.content.Blocks? && pass < 6
    ensures IsShortenedFrom(TruncateFrom(est, msg, room, pass), msg)
    decreases 6 - pass
  {
    if est(Candidate(msg, pass)) <= room || pass == 5 {
      var keep := KeepOnPass(TextTotal(msg.content.blocks), pass);
      var blocks := msg.content.blocks;
      forall k | 0 <= k < |blocks|
        ensures IsCutOf(CutBlock(blocks[k], keep), blocks[k])
      {
        if blocks[k].TextBlock? && |blocks[k].text| > keep {
          assert CutBlock(blocks[k], keep).text == blocks[k].text[..keep] + TRUNCATION_NOTE;
        }
      }
    } else {
      TruncateFromOnlyShortens(est, msg, room, pass + 1);
    }
  }

  lemma ShorteningKeepsCalls(r: Message, msg: Message)
    requires IsShortenedFrom(r, msg)
    ensures CallIds(r) == CallIds(msg) && ResultId(r) == ResultId(msg) && r.role == msg.role
  {
    if r != msg {
      var bs, cs := r.content.blocks, msg.content.blocks;
      assert forall k :: 0 <= k < |bs| && (bs[k].ToolCall? || cs[k].ToolCall?) ==> IsCutOf(bs[k], cs[k]) && bs[k] == cs[k];
    }
  }

  // ---------------------------------------------------------------- how much of a text survives

  /** A half, a quarter and so on down to a sixty-fourth of a text's length, and never under 120. */
  function Halved(total: nat, pass: nat): nat
    requires pass < 6
  {
    var share :=
      if pass == 0 then total / 2 else if pass == 1 then total / 4 else if pass == 2 then total / 8
      else if pass == 3 then total / 16 else if pass == 4 then total / 32 else total / 64;
    if share > 120 then share else 120
  }

  /** Every text block longer than `keep` is its first `keep` characters and the note; everything else is as it was. */
  ghost predicate CutTo(r: Message, msg: Message, keep: nat) {
    && msg.content.Blocks? && r.content.Blocks? && r == msg.(content := r.content)
    && var bs, cs := r.content.blocks, msg.content.blocks;
       |bs| == |cs| && forall k :: 0 <= k < |cs| ==>
         bs[k] == if cs[k].TextBlock? && |cs[k].text| > keep then TextBlock(cs[k].text[..keep] + TRUNCATION_NOTE) else cs[k]
  }

  /**
   * What shortening must give: the message itself where it has no text, and else the first halving that comes
   * within the room, or the sixth.
   */
  ghost predicate IsHalving(est: Message -> nat, r: Message, msg: Message, room: int) {
    if !(msg.content.Blocks? && exists b :: b in msg.content.blocks && b.TextBlock?) then r == msg
    else
      exists p: nat :: p < 6 && CutTo(r, msg, Halved(|TextOf(msg)|, p)) && (est(r) <= room || p == 5) && EarlierAreOver(est, msg, room, p)
  }

  ghost predicate EarlierAreOver(est: Message -> nat, msg: Message, room: int, p: nat)
    requires p < 6
  {
    forall q: nat, c: Message :: q < p && CutTo(c, msg, Halved(|TextOf(msg)|, q)) ==> est(c) > room
  }

  lemma {:induction false} TextTotalIsLength(blocks: seq<Block>)
    ensures TextTotal(blocks) == |BlocksText(blocks)|
  {
    if blocks != [] { TextTotalIsLength(blocks[1..]); }
  }

  lemma HalvedIsKept(total: nat, pass: nat)
    requires pass < 6
    ensures KeepOnPass(total, pass) == Halved(total, pass)
  {
    assert TwoTo(1) == 2 && TwoTo(2) == 4 && TwoTo(3) == 8;
    assert TwoTo(4) == 16 && TwoTo(5) == 32 && TwoTo(6) == 64;
  }

  lemma CandidateIsCut(msg: Message, pass: nat, c: Message)
    requires msg.content.Blocks? && pass < 6
    ensures CutTo(c, msg, Halved(|TextOf(msg)|, pass)) <==> c == Candidate(msg, pass)
  {
    hide KeepOnPass, Halved, TextTotal, BlocksText;
    var blocks := msg.content.blocks;
    TextTotalIsLength(blocks);
    HalvedIsKept(TextTotal(blocks), pass);
    if CutTo(c, msg, Halved(|TextOf(msg)|, pass)) {
      assert c.content.blocks == Candidate(msg, pass).content.blocks;
    }
  }

  lemma {:induction false} HalvingFrom(est: Message -> nat, msg: Message, room: int, pass: nat) returns (p: nat)
    requires msg.content.Blocks? && pass < 6
    ensures pass <= p < 6 && TruncateFrom(est, msg, room, pass) == Candidate(msg, p)
    ensures est(Candidate(msg, p)) <= room || p == 5
    ensures forall q :: pass <= q < p ==> est(Candidate(msg, q)) > room
    decreases 6 - pass
  {
    hide Candidate;
    if est(Candidate(msg, pass)) <= room || pass == 5 {
      p := pass;
    } else {
      p := HalvingFrom(est, msg, room, pass + 1);
    }
  }

  /** Shortening halves what it keeps of each block until the message comes within its room, six times at the most. */
  lemma ShorteningHalves(est: Message -> nat, msg: Message, room: int)
    ensures IsHalving(est, Truncate(est, msg, room), msg, room)
  {
    if HasText(msg) {
      hide Candidate, CutTo, Halved, TruncateFrom;
      var r := Truncate(est, msg, room);
      var p := HalvingFrom(est, msg, room, 0);
      CandidateIsCut(msg, p, r);
      forall q: nat, c: Message | q < p && CutTo(c, msg, Halved(|TextOf(msg)|, q)) ensures est(c) > room {
        CandidateIsCut(msg, q, c);
      }
      assert EarlierAreOver(est, msg, room, p);
    }
  }

  /** So of every block that is cut at least its first 120 characters survive. */
  lemma CutKeepsAnOpening(est: Message -> nat, msg: Message, room: int, k: nat)
    requires msg.content.Blocks? && k < |msg.content.blocks| && msg.content.blocks[k].TextBlock?
    ensures var r, text := Truncate(est, msg, room), msg.content.blocks[k].text;
            && r.content.Blocks? && |r.content.blocks| == |msg.content.blocks| && r.content.blocks[k].TextBlock?
            && (r.content.blocks[k].text == text
                || (|text| > 120 && |r.content.blocks[k].text| >= 120 && r.content.blocks[k].text[..120] == text[..120]))
  {
    ShorteningHalves(est, msg, room);
    hide Truncate;
    var r := Truncate(est, msg, room);
    assert msg.content.blocks[k] in msg.content.blocks;
    var p: nat :| p < 6 && CutTo(r, msg, Halved(|TextOf(msg)|, p));
  }

  // ---------------------------------------------------------------- what a cut leaves alone

  /** The pass whose candidate is sent. */
  function LandingPass(est: Message -> nat, msg: Message, room: int, pass: nat): (p: nat)
    requires msg.content.Blocks? && pass < 6
    ensures p < 6 && TruncateFrom(est, msg, room, pass) == Candidate(msg, p)
    decreases 6 - pass
  {
    if est(Candidate(msg, pass)) <= room || pass == 5 then pass else LandingPass(est, msg, room, pass + 1)
  }

  /** Within what a pass keeps, or ending in the note exactly where that pass would put it. */
  predicate StandsAt(b: Block, keep: nat) {
    b.TextBlock? ==> |b.text| <= keep || b.text[keep..] == TRUNCATION_NOTE
  }

  /** Nothing to cut: no text, or no text block longer than what the landing pass keeps. */
  predicate NothingToCut(est: Message -> nat, msg: Message, room: int) {
    !HasText(msg) ||
    (var keep := KeepOnPass(TextTotal(msg.content.blocks), LandingPass(est, msg, room, 0));
     forall b :: b in msg.content.blocks ==> StandsAt(b, keep))
  }

  lemma BlockStandsIff(b: Block, keep: nat)
    ensures CutBlock(b, keep) == b <==> StandsAt(b, keep)
  {
    if b.TextBlock? && |b.text| > keep {
      assert b.text == b.text[..keep] + b.text[keep..];
      assert (b.text[..keep] + TRUNCATION_NOTE)[keep..] == TRUNCATION_NOTE;
    }
  }

  /** Shortening hands a message back unchanged exactly when there is nothing to cut. */
  lemma UncutIff(est: Message -> nat, msg: Message, room: int)
    ensures Truncate(est, msg, room) == msg <==> NothingToCut(est, msg, room)
  {
    hide KeepOnPass, TextTotal, LandingPass, CutBlock, StandsAt, TruncateFrom;
    if HasText(msg) {
      var blocks := msg.content.blocks;
      var keep := KeepOnPass(TextTotal(blocks), LandingPass(est, msg, room, 0));
      var cut := CutBlocks(blocks, keep);
      forall b | b in blocks ensures CutBlock(b, keep) == b <==> StandsAt(b, keep) { BlockStandsIff(b, keep); }
      if cut == blocks {
        forall b | b in blocks ensures StandsAt(b, keep) {
          var k :| 0 <= k < |blocks| && blocks[k] == b;
          assert cut[k] == CutBlock(b, keep);
        }
      }
      if forall b :: b in blocks ==> StandsAt(b, keep) {
        assert forall k :: 0 <= k < |blocks| ==> blocks[k] in blocks && cut[k] == blocks[k];
      }
    }
  }

  // ---------------------------------------------------------------- the whole pass

  function AtLeastOne(n: int): (r: int)
    ensures r >= 1 && r >= n && (r == n || r == 1)
  {
    if n < 1 then 1 else n
  }

  /** Tokens a request has once the reply's are set aside, and one at the least. */
  function CeilingOf(window: int, reserve: nat): int { AtLeastOne(window - reserve) }

  function Inflated(m: Meter, tokens: nat): int { Ceil(tokens as real * m.drift) }

  function NoticeCost(m: Meter): int { Inflated(m, m.est(Notice(1, 1))) }

  /** The ceiling less the notice this pass may add. */
  function TargetOf(m: Meter, window: int, reserve: nat): (t: int)
    ensures t >= 1
  {
    AtLeastOne(CeilingOf(window, reserve) - NoticeCost(m))
  }

  function RoomFor(target: int, messages: nat): int
    requires target >= 1
  {
    AtLeastOne(target / AtLeastOne(messages))
  }

  function TruncateOne(m: Meter, msg: Message, room: int): Message {
    if Inflated(m, m.est(msg)) <= room then msg else Truncate(m.est, msg, room)
  }

  function TruncateAll(m: Meter, ms: seq<Message>, room: int): seq<Message> {
    seq(|ms|, k requires 0 <= k < |ms| => TruncateOne(m, ms[k], room))
  }

  function OverRoom(m: Meter, ms: seq<Message>, room: int, upTo: nat): (n: nat)
    requires upTo <= |ms|
    ensures n == 0 <==> forall k :: 0 <= k < upTo ==> Inflated(m, m.est(ms[k])) <= room
  {
    if upTo == 0 then 0
    else OverRoom(m, ms, room, upTo - 1) + (if Inflated(m, m.est(ms[upTo - 1])) <= room then 0 else 1)
  }

  function WithNotice(kept: seq<Message>, pre: nat, dropped: nat, truncated: nat): seq<Message>
    requires pre <= |kept|
  {
    if dropped > 0 || truncated > 0 then kept[..pre] + [Notice(dropped, truncated)] + kept[pre..] else kept
  }

  predicate AlreadyFits(m: Meter, ms: seq<Message>, window: int, reserve: nat) {
    Inflated(m, RequestTokens(m, ms)) <= CeilingOf(window, reserve) || Cost(m, ms) <= CeilingOf(window, reserve)
  }

  ghost function Enforce(m: Meter, ms: seq<Message>, pre: nat, window: int, reserve: nat): seq<Message>
    requires pre <= |ms|
  {
    if window <= 0 || AlreadyFits(m, ms, window, reserve) then ms
    else
      var target := TargetOf(m, window, reserve);
      var cut := DropCut(m, ms, pre, pre, ProtectedFrom(ms, pre), target);
      var kept := Without(ms, pre, cut);
      if Cost(m, kept) > target then
        var room := RoomFor(target, |kept|);
        WithNotice(TruncateAll(m, kept, room), pre, cut - pre, OverRoom(m, kept, room, |kept|))
      else WithNotice(kept, pre, cut - pre, 0)
  }

  method EnforceCeiling(m: Meter, projected: seq<Message>, pre: nat, window: int, reserve: nat)
    returns (out: seq<Message>)
    requires pre <= |projected|
    ensures out == Enforce(m, projected, pre, window, reserve)
  {
    hide Cost, RequestTokens, Inflated, DropCut, ProtectedFrom, TruncateAll, OverRoom, WithNotice, NoticeCost, RoomFor;
    if window <= 0 {
      return projected;
    }
    var ceiling := CeilingOf(window, reserve);
    if Inflated(m, RequestTokens(m, projected)) <= ceiling {
      return projected;
    }
    if Cost(m, projected) <= ceiling {
      return projected;
    }
    var target := AtLeastOne(ceiling - NoticeCost(m));
    var kept, dropped := DropUntilItFits(m, projected, pre, ProtectedFrom(projected, pre), target);
    var truncated := 0;
    if Cost(m, kept) > target {
      kept, truncated := TruncateLong(m, kept, RoomFor(target, |kept|));
    }
    return WithNotice(kept, pre, dropped, truncated);
  }

  /** Each message over its share of the room is cut, the preamble's included. */
  method TruncateLong(m: Meter, ms: seq<Message>, room: int) returns (kept: seq<Message>, truncated: nat)
    ensures kept == TruncateAll(m, ms, room) && truncated == OverRoom(m, ms, room, |ms|) && |kept| == |ms|
  {
    hide Truncate, Inflated;
    kept, truncated := ms, 0;
    for k := 0 to |ms|
      invariant |kept| == |ms| && truncated == OverRoom(m, ms, room, k)
      invariant forall j :: 0 <= j < k ==> kept[j] == TruncateOne(m, ms[j], room)
      invariant forall j :: k <= j < |ms| ==> kept[j] == ms[j]
    {
      if Inflated(m, m.est(kept[k])) <= room {
        continue;
      }
      var cut := TruncateMessageText(m.est, kept[k], room);
      kept := kept[k := cut];
      truncated := truncated + 1;
    }
  }

  // ---------------------------------------------------------------- what the pass keeps

  ghost predicate ShortenedFrom(rs: seq<Message>, ms: seq<Message>) {
    |rs| == |ms| && forall k :: 0 <= k < |ms| ==> IsShortenedFrom(rs[k], ms[k])
  }

  /**
   * What a pass may send: the preamble, at most one notice counting exactly what went, and the rest of
   * the projection from some stop that is no later than the last user message.
   */
  ghost predicate IsCeilingOf(out: seq<Message>, ms: seq<Message>, pre: nat, cut: nat, truncated: nat, kept: seq<Message>) {
    && pre <= cut <= |ms| && MayStopAt(ms, pre, cut) && cut <= ProtectedFrom(ms, pre)
    && ShortenedFrom(kept, Without(ms, pre, cut)) && (truncated == 0 ==> kept == Without(ms, pre, cut))
    && out == WithNotice(kept, pre, cut - pre, truncated)
  }

  lemma CeilingShape(m: Meter, ms: seq<Message>, pre: nat, window: int, reserve: nat)
    returns (cut: nat, truncated: nat, kept: seq<Message>)
    requires pre <= |ms|
    ensures IsCeilingOf(Enforce(m, ms, pre, window, reserve), ms, pre, cut, truncated, kept)
  {
    hide DropCut, Cost, Truncate, TruncateAll, Intact, ProtectedFrom, Inflated, RequestTokens, OverRoom, RoomFor, TargetOf;
    hide ShortenedFrom, WithNotice;
    cut, truncated, kept := pre, 0, ms;
    assert Without(ms, pre, pre) == ms;
    ShortenedFromItself(m.est, ms);
    if window > 0 && !AlreadyFits(m, ms, window, reserve) {
      var target := TargetOf(m, window, reserve);
      cut := DropCut(m, ms, pre, pre, ProtectedFrom(ms, pre), target);
      kept := Without(ms, pre, cut);
      ShortenedFromItself(m.est, kept);
      if Cost(m, kept) > target {
        var room := RoomFor(target, |kept|);
        truncated := OverRoom(m, kept, room, |kept|);
        TruncateAllShortens(m, kept, room);
        kept := TruncateAll(m, kept, room);
      }
    } else {
      assert Enforce(m, ms, pre, window, reserve) == ms;
      assert WithNotice(ms, pre, 0, 0) == ms by { NoNotice(ms, pre); }
    }
  }

  lemma NoNotice(ms: seq<Message>, pre: nat)
    requires pre <= |ms|
    ensures WithNotice(ms, pre, 0, 0) == ms
  {
  }

  lemma ShortenedFromItself(est: Message -> nat, ms: seq<Message>)
    ensures ShortenedFrom(ms, ms)
  {
    hide IsShortenedFrom;
    forall k | 0 <= k < |ms| ensures IsShortenedFrom(ms[k], ms[k]) { TruncateOnlyShortens(est, ms[k], 0); }
  }

  lemma TruncateAllShortens(m: Meter, ms: seq<Message>, room: int)
    ensures ShortenedFrom(TruncateAll(m, ms, room), ms)
    ensures OverRoom(m, ms, room, |ms|) == 0 ==> TruncateAll(m, ms, room) == ms
  {
    hide Truncate, IsShortenedFrom, Inflated;
    forall k | 0 <= k < |ms| ensures IsShortenedFrom(TruncateOne(m, ms[k], room), ms[k]) {
      TruncateOnlyShortens(m.est, ms[k], room);
    }
  }

  lemma TruncateOnlyShortens(est: Message -> nat, msg: Message, room: int)
    ensures IsShortenedFrom(msg, msg) && IsShortenedFrom(Truncate(est, msg, room), msg)
  {
    if HasText(msg) { TruncateFromOnlyShortens(est, msg, room, 0); }
  }

  lemma NoticeKeepsPairs(kept: seq<Message>, pre: nat, dropped: nat, truncated: nat)
    requires pre <= |kept| && NoTools(kept[..pre]) && Intact(kept)
    ensures Intact(WithNotice(kept, pre, dropped, truncated))
  {
    hide Intact, CeilingMarker;
    assert kept == kept[..pre] + kept[pre..];
    PrefixWithoutTools(kept[..pre], kept[pre..]);
    PrefixWithoutTools(kept[..pre] + [Notice(dropped, truncated)], kept[pre..]);
  }

  /** No tool result the pass sends has lost its call. */
  lemma CeilingKeepsPairs(m: Meter, ms: seq<Message>, pre: nat, window: int, reserve: nat)
    requires pre <= |ms| && NoTools(ms[..pre]) && Intact(ms)
    ensures Intact(Enforce(m, ms, pre, window, reserve))
  {
    hide Intact, Enforce, IsShortenedFrom, WithNotice, CallIds;
    var cut, truncated, kept := CeilingShape(m, ms, pre, window, reserve);
    var whole := Without(ms, pre, cut);
    assert ms == ms[..pre] + ms[pre..];
    PrefixWithoutTools(ms[..pre], ms[pre..]);
    PrefixWithoutTools(ms[..pre], ms[cut..]);
    forall k | 0 <= k < |kept| ensures CallIds(kept[k]) == CallIds(whole[k]) && ResultId(kept[k]) == ResultId(whole[k]) {
      ShorteningKeepsCalls(kept[k], whole[k]);
    }
    SameCallsKeepIntact(whole, kept);
    assert forall k :: 0 <= k < pre ==> whole[k] == ms[..pre][k];
    NoticeKeepsPairs(kept, pre, cut - pre, truncated);
  }

  // ---------------------------------------------------------------- the pass, written out

  /** The messages that are over their share of the room. */
  ghost function Over(m: Meter, ms: seq<Message>, room: int): set<nat> {
    set k: nat | k < |ms| && Inflated(m, m.est(ms[k])) > room
  }

  lemma {:induction false} OverAreCounted(m: Meter, ms: seq<Message>, room: int, upTo: nat)
    requires upTo <= |ms|
    ensures OverRoom(m, ms, room, upTo) == |set k: nat | k < upTo && Inflated(m, m.est(ms[k])) > room|
  {
    hide Inflated;
    var here := set k: nat | k < upTo && Inflated(m, m.est(ms[k])) > room;
    if upTo == 0 {
      assert here == {};
    } else {
      OverAreCounted(m, ms, room, upTo - 1);
      var before := set k: nat | k < upTo - 1 && Inflated(m, m.est(ms[k])) > room;
      assert here == before + (if Inflated(m, m.est(ms[upTo - 1])) > room then {upTo - 1} else {});
    }
  }

  /** Each message is as it was where it is within its share, and shortened where it is over. */
  ghost predicate EachInItsShare(m: Meter, kept: seq<Message>, rest: seq<Message>, room: int) {
    |kept| == |rest| && forall k :: 0 <= k < |rest| ==>
      if Inflated(m, m.est(rest[k])) <= room then kept[k] == rest[k] else IsHalving(m.est, kept[k], rest[k], room)
  }

  /** What is cut once dropping has ended: nothing where the rest fits, and else each message to an even share of the target. */
  ghost predicate CutWhereNeeded(m: Meter, kept: seq<Message>, rest: seq<Message>, target: int, truncated: nat) {
    if Cost(m, rest) <= target then kept == rest && truncated == 0
    else
      exists room: int ::
        && (room == 1 || room * (if |rest| == 0 then 1 else |rest|) <= target) && room >= 1
        && target < (room + 1) * (if |rest| == 0 then 1 else |rest|)
        && EachInItsShare(m, kept, rest, room) && truncated == |Over(m, rest, room)|
  }

  /** The first stop from the preamble on at which what is left comes to no more than the target, or the last stop there is. */
  ghost predicate FirstStop(m: Meter, ms: seq<Message>, pre: nat, limit: nat, target: int, cut: nat)
    requires pre <= limit <= |ms|
  {
    && pre <= cut <= limit && (cut == pre || Intact(ms[cut..]))
    && (forall c :: pre <= c < cut && (c == pre || Intact(ms[c..])) ==> Cost(m, ms[..pre] + ms[c..]) > target)
    && (Cost(m, ms[..pre] + ms[cut..]) > target ==> forall c :: cut < c <= limit ==> !Intact(ms[c..]))
  }

  /**
   * The whole pass: a request that fits goes as it is; else messages go from behind the preamble, never the
   * question, up to the first stop that is enough; then text is cut if it must be; and a notice stands behind
   * the preamble that counts both, where there is anything to count.
   */
  ghost predicate Enforced(
    m: Meter, ms: seq<Message>, pre: nat, window: int, reserve: nat, out: seq<Message>, cut: nat, kept: seq<Message>, truncated: nat)
    requires pre <= |ms|
  {
    var ceiling := if window - reserve >= 1 then window - reserve else 1;
    var left := ceiling - Inflated(m, m.est(Notice(1, 1)));
    var target := if left >= 1 then left else 1;
    if window <= 0 || Inflated(m, RequestTokens(m, ms)) <= ceiling || Cost(m, ms) <= ceiling then out == ms
    else
      && FirstStop(m, ms, pre, ProtectedFrom(ms, pre), target, cut)
      && CutWhereNeeded(m, kept, ms[..pre] + ms[cut..], target, truncated)
      && |kept| >= pre
      && out == if cut == pre && truncated == 0 then kept else kept[..pre] + [Notice(cut - pre, truncated)] + kept[pre..]
  }

  lemma EnforceIsWrittenOut(m: Meter, ms: seq<Message>, pre: nat, window: int, reserve: nat)
    returns (cut: nat, kept: seq<Message>, truncated: nat)
    requires pre <= |ms|
    ensures Enforced(m, ms, pre, window, reserve, Enforce(m, ms, pre, window, reserve), cut, kept, truncated)
  {
    hide Cost, Inflated, RequestTokens, DropCut, ProtectedFrom, OverRoom, TruncateAll, RoomFor, CutWhereNeeded, FirstStop, Notice;
    cut, kept, truncated := pre, ms, 0;
    if window > 0 && !AlreadyFits(m, ms, window, reserve) {
      var target := TargetOf(m, window, reserve);
      cut := DropCut(m, ms, pre, pre, ProtectedFrom(ms, pre), target);
      DropStopsFirst(m, ms, pre, target);
      var rest := Without(ms, pre, cut);
      if Cost(m, rest) > target {
        var room := RoomFor(target, |rest|);
        kept, truncated := TruncateAll(m, rest, room), OverRoom(m, rest, room, |rest|);
      } else {
        kept := rest;
      }
      CutIsNeeded(m, rest, target);
    }
  }

  lemma DropStopsFirst(m: Meter, ms: seq<Message>, pre: nat, target: int)
    requires pre <= |ms|
    ensures FirstStop(m, ms, pre, ProtectedFrom(ms, pre), target, DropCut(m, ms, pre, pre, ProtectedFrom(ms, pre), target))
  {
    hide Cost, Intact;
  }

  lemma CutIsNeeded(m: Meter, rest: seq<Message>, target: int)
    requires target >= 1
    ensures Cost(m, rest) <= target ==> CutWhereNeeded(m, rest, rest, target, 0)
    ensures Cost(m, rest) > target ==>
              var room := RoomFor(target, |rest|);
              && CutWhereNeeded(m, TruncateAll(m, rest, room), rest, target, OverRoom(m, rest, room, |rest|))
              && |TruncateAll(m, rest, room)| == |rest|
  {
    hide Cost, Inflated, RoomFor, IsHalving, Truncate;
    if Cost(m, rest) > target {
      var room := RoomFor(target, |rest|);
      RoomIsEven(target, |rest|);
      OverAreCounted(m, rest, room, |rest|);
      forall k | 0 <= k < |rest| ensures IsHalving(m.est, Truncate(m.est, rest[k], room), rest[k], room) {
        ShorteningHalves(m.est, rest[k], room);
      }
      assert EachInItsShare(m, TruncateAll(m, rest, room), rest, room);
    }
  }

  lemma RoomIsEven(target: int, n: nat)
    requires target >= 1
    ensures var room, share := RoomFor(target, n), if n == 0 then 1 else n;
            room >= 1 && (room == 1 || room * share <= target) && target < (room + 1) * share
  {
    var share := if n == 0 then 1 else n;
    assert target == target / share * share + target % share;
  }

  // ---------------------------------------------------------------- when the request fits

  /** Some stop short of the question brings the rest down to the target. */
  ghost predicate DroppingReaches(m: Meter, ms: seq<Message>, pre: nat, target: int)
    requires pre <= |ms|
  {
    exists c: nat :: StopReaches(m, ms, pre, target, c)
  }

  ghost predicate StopReaches(m: Meter, ms: seq<Message>, pre: nat, target: int, c: nat)
    requires pre <= |ms|
  {
    pre <= c <= ProtectedFrom(ms, pre) && MayStopAt(ms, pre, c) && Cost(m, Without(ms, pre, c)) <= target
  }

  /** Dropping alone is enough exactly when some stop is: the loop never steps over the one that works. */
  lemma DroppingSufficesIff(m: Meter, ms: seq<Message>, pre: nat, target: int)
    requires pre <= |ms|
    ensures var cut := DropCut(m, ms, pre, pre, ProtectedFrom(ms, pre), target);
            Cost(m, Without(ms, pre, cut)) <= target <==> DroppingReaches(m, ms, pre, target)
  {
    hide Cost, Intact;
    var cut := DropCut(m, ms, pre, pre, ProtectedFrom(ms, pre), target);
    if Cost(m, Without(ms, pre, cut)) <= target {
      assert StopReaches(m, ms, pre, target, cut);
    }
    if c: nat :| StopReaches(m, ms, pre, target, c) {
      assert c == pre || Intact(ms[c..]);
    }
  }

  lemma InflatedSum(n: nat, extra: nat, share: nat, drift: real)
    requires drift >= 1.0 && extra <= share
    ensures Ceil((n + extra) as real * drift) <= Ceil(n as real * drift) + Ceil(share as real * drift)
  {
    CeilSubadditive(n as real * drift, share as real * drift);
    assert (n + extra) as real * drift <= n as real * drift + share as real * drift;
    CeilIsLeast(n as real * drift + share as real * drift, Ceil(n as real * drift + share as real * drift));
    CeilIsLeast((n + extra) as real * drift, Ceil(n as real * drift + share as real * drift));
  }

  lemma InflatedIsNatural(m: Meter, tokens: nat)
    requires m.Valid()
    ensures Inflated(m, tokens) >= 0
  {
    assert tokens as real * m.drift >= 0.0;
  }

  lemma TotalOfOne(est: Message -> nat, msg: Message)
    ensures Total(est, [msg]) == est(msg)
  {
    assert [msg][1..] == [];
  }

  lemma TotalWithNotice(est: Message -> nat, kept: seq<Message>, pre: nat, dropped: nat, truncated: nat)
    requires pre <= |kept| && dropped + truncated > 0
    ensures Total(est, WithNotice(kept, pre, dropped, truncated)) == Total(est, kept) + est(Notice(dropped, truncated))
  {
    hide CeilingMarker, Total;
    var notice := [Notice(dropped, truncated)];
    TotalOfOne(est, notice[0]);
    TotalAppend(est, kept[..pre], kept[pre..]);
    TotalAppend(est, kept[..pre], notice);
    TotalAppend(est, kept[..pre] + notice, kept[pre..]);
    assert kept == kept[..pre] + kept[pre..];
  }

  /** Adding the notice costs no more than was set aside for it. */
  lemma NoticeFitsItsShare(m: Meter, kept: seq<Message>, pre: nat, dropped: nat)
    requires m.Valid() && MeasuresNotices(m.est) && pre <= |kept| && 0 < dropped < PowerOfTen(27)
    ensures Cost(m, WithNotice(kept, pre, dropped, 0)) <= Cost(m, kept) + NoticeCost(m)
  {
    hide PowerOfTen, CeilingMarker, WithNotice, Total;
    NoticeForDropsIsShort(dropped);
    TotalWithNotice(m.est, kept, pre, dropped, 0);
    var n, extra := Total(m.est, kept) + m.fixed, m.est(Notice(dropped, 0));
    assert Total(m.est, WithNotice(kept, pre, dropped, 0)) + m.fixed == n + extra;
    assert extra <= m.est(Notice(1, 1));
    InflatedSum(n, extra, m.est(Notice(1, 1)), m.drift);
    assert Cost(m, kept) == Ceil(n as real * m.drift);
    assert Cost(m, WithNotice(kept, pre, dropped, 0)) == Ceil((n + extra) as real * m.drift);
    assert NoticeCost(m) == Ceil(m.est(Notice(1, 1)) as real * m.drift);
  }

  /**
   * The bound: when some stop reaches the target, the request sent, its fixed prefix and the notice
   * included, is within the window less the reply, at the run's own drift. Nothing is cut to get there.
   */
  lemma CeilingIsMet(m: Meter, ms: seq<Message>, pre: nat, window: int, reserve: nat)
    requires pre <= |ms| < PowerOfTen(27)
    requires m.Valid() && MeasuresNotices(m.est)
    requires window > 0 && NoticeCost(m) < CeilingOf(window, reserve)
    requires DroppingReaches(m, ms, pre, TargetOf(m, window, reserve))
    ensures var out := Enforce(m, ms, pre, window, reserve);
            (out == ms && AlreadyFits(m, ms, window, reserve)) || Cost(m, out) <= CeilingOf(window, reserve)
  {
    hide Cost, Intact, Inflated, CeilingMarker, PowerOfTen, DropCut, RequestTokens;
    if !AlreadyFits(m, ms, window, reserve) {
      var target := TargetOf(m, window, reserve);
      var cut := DropCut(m, ms, pre, pre, ProtectedFrom(ms, pre), target);
      DroppingSufficesIff(m, ms, pre, target);
      if cut > pre {
        NoticeFitsItsShare(m, Without(ms, pre, cut), pre, cut - pre);
      } else {
        assert Without(ms, pre, pre) == ms;
        InflatedIsNatural(m, m.est(Notice(1, 1)));
      }
    }
  }

  // ---------------------------------------------------------------- when it had to be cut

  /** What one message may measure once text has to be cut: its even share of the target. */
  ghost function ShareOf(m: Meter, ms: seq<Message>, pre: nat, window: int, reserve: nat): int
    requires pre <= |ms|
  {
    var target := TargetOf(m, window, reserve);
    RoomFor(target, |Without(ms, pre, DropCut(m, ms, pre, pre, ProtectedFrom(ms, pre), target))|)
  }

  /** No text of the request has to be cut. */
  ghost predicate NoCutNeeded(m: Meter, ms: seq<Message>, pre: nat, window: int, reserve: nat)
    requires pre <= |ms|
  {
    window <= 0 || AlreadyFits(m, ms, window, reserve) || DroppingReaches(m, ms, pre, TargetOf(m, window, reserve))
  }

  /** A message of the preamble is sent whole: nothing is cut, it is within its share, or it has nothing to cut. */
  ghost predicate SentWhole(m: Meter, ms: seq<Message>, pre: nat, window: int, reserve: nat, i: nat)
    requires i < pre <= |ms|
  {
    var room := ShareOf(m, ms, pre, window, reserve);
    NoCutNeeded(m, ms, pre, window, reserve) || Inflated(m, m.est(ms[i])) <= room || NothingToCut(m.est, ms[i], room)
  }

  /** The preamble is never dropped and keeps its place; each message of it goes whole exactly when it may. */
  lemma PreambleIsSent(m: Meter, ms: seq<Message>, pre: nat, window: int, reserve: nat, i: nat)
    requires i < pre <= |ms|
    ensures var out, room := Enforce(m, ms, pre, window, reserve), ShareOf(m, ms, pre, window, reserve);
            && |out| >= pre
            && (out[i] == ms[i] <==> SentWhole(m, ms, pre, window, reserve, i))
            && (out[i] != ms[i] ==> out[i] == Truncate(m.est, ms[i], room))
  {
    hide DropCut, Cost, Truncate, NothingToCut, Inflated, RequestTokens, DroppingReaches, ProtectedFrom, TargetOf;
    var target := TargetOf(m, window, reserve);
    var cut := DropCut(m, ms, pre, pre, ProtectedFrom(ms, pre), target);
    DroppingSufficesIff(m, ms, pre, target);
    UncutIff(m.est, ms[i], ShareOf(m, ms, pre, window, reserve));
    assert Without(ms, pre, cut)[i] == ms[i];
  }

  /** A message is counted as shortened for being over its share; it comes out unchanged exactly when there is nothing to cut. */
  lemma CountedUnchangedIff(m: Meter, msg: Message, room: int)
    requires Inflated(m, m.est(msg)) > room
    ensures TruncateOne(m, msg, room) == msg <==> NothingToCut(m.est, msg, room)
  {
    hide Truncate, NothingToCut, Inflated;
    UncutIff(m.est, msg, room);
  }

  /** Every message over its share comes within it, by the estimator's plain count. */
  ghost predicate CutsLand(m: Meter, ms: seq<Message>, room: int) {
    forall k :: 0 <= k < |ms| && Inflated(m, m.est(ms[k])) > room ==> m.est(Truncate(m.est, ms[k], room)) <= room
  }

  lemma {:induction false} TotalUnder(est: Message -> nat, ms: seq<Message>, room: nat)
    requires forall k :: 0 <= k < |ms| ==> est(ms[k]) <= room
    ensures Total(est, ms) <= |ms| * room
  {
    if ms != [] {
      TotalUnder(est, ms[1..], room);
      assert |ms| * room == room + (|ms| - 1) * room;
    }
  }

  lemma InflatedIsAtLeast(m: Meter, tokens: nat)
    requires m.Valid()
    ensures tokens <= Inflated(m, tokens)
  {
    assert tokens as real <= tokens as real * m.drift;
  }

  lemma SharesFit(target: int, n: nat)
    requires target >= 1 && n <= target
    ensures n * RoomFor(target, n) <= target
  {
    if n > 0 {
      var share := target / n;
      assert n * share <= target;
      assert share >= 1;
      assert RoomFor(target, n) == share;
    }
  }

  /** When every cut lands, the messages come to the target at most, and the request to no more than that inflated. */
  lemma CutRequestIsBounded(m: Meter, ms: seq<Message>, target: int)
    requires m.Valid() && target >= 1 && |ms| <= target && CutsLand(m, ms, RoomFor(target, |ms|))
    ensures var cut := TruncateAll(m, ms, RoomFor(target, |ms|));
            Total(m.est, cut) <= target && Cost(m, cut) <= Inflated(m, target + m.fixed)
  {
    hide Truncate, Inflated, RoomFor, Total, Cost, CutsLand, TruncateAll;
    var room := RoomFor(target, |ms|);
    var cut := TruncateAll(m, ms, room);
    RoomIsPositive(target, |ms|);
    EachWithinRoom(m, ms, room);
    TotalUnder(m.est, cut, room);
    SharesFit(target, |ms|);
    CostAtMost(m, cut, target);
  }

  lemma EachWithinRoom(m: Meter, ms: seq<Message>, room: int)
    requires m.Valid() && CutsLand(m, ms, room)
    ensures var cut := TruncateAll(m, ms, room); |cut| == |ms| && forall k :: 0 <= k < |cut| ==> m.est(cut[k]) <= room
  {
    hide Truncate, Inflated;
    forall k | 0 <= k < |ms| ensures m.est(TruncateAll(m, ms, room)[k]) <= room {
      InflatedIsAtLeast(m, m.est(ms[k]));
    }
  }

  lemma RoomIsPositive(target: int, n: nat)
    requires target >= 1
    ensures RoomFor(target, n) >= 1
  {
  }

  lemma CostAtMost(m: Meter, ms: seq<Message>, n: nat)
    requires m.Valid() && Total(m.est, ms) <= n
    ensures Cost(m, ms) <= Inflated(m, n + m.fixed)
  {
    hide Inflated, Total;
    CostIsInflated(m, ms);
    InflatedGrows(m, Total(m.est, ms) + m.fixed, n + m.fixed);
  }

  lemma CostIsInflated(m: Meter, ms: seq<Message>)
    ensures Cost(m, ms) == Inflated(m, Total(m.est, ms) + m.fixed)
  {
    hide Total;
  }

  lemma InflatedGrows(m: Meter, few: nat, many: nat)
    requires m.Valid() && few <= many
    ensures Inflated(m, few) <= Inflated(m, many)
  {
    var x, y := few as real * m.drift, many as real * m.drift;
    assert x <= y;
    CeilIsLeast(y, Ceil(y));
    CeilIsLeast(x, Ceil(y));
  }

  /**
   * What a request measures that had to be cut, when every cut lands and there are no more messages than
   * tokens: at most the target, the fixed prefix and its notice, inflated. The target already has the
   * drift in it, so this may be over the ceiling by the drift once more.
   */
  lemma CuttingIsBounded(m: Meter, ms: seq<Message>, pre: nat, window: int, reserve: nat)
    requires pre <= |ms| && m.Valid() && !NoCutNeeded(m, ms, pre, window, reserve)
    requires var target := TargetOf(m, window, reserve);
             var kept := Without(ms, pre, DropCut(m, ms, pre, pre, ProtectedFrom(ms, pre), target));
             |kept| <= target && CutsLand(m, kept, RoomFor(target, |kept|))
    ensures var target := TargetOf(m, window, reserve);
            var cut := DropCut(m, ms, pre, pre, ProtectedFrom(ms, pre), target);
            var kept := Without(ms, pre, cut);
            var notice := Notice(cut - pre, OverRoom(m, kept, RoomFor(target, |kept|), |kept|));
            Cost(m, Enforce(m, ms, pre, window, reserve)) <= Inflated(m, target + m.fixed + m.est(notice))
  {
    hide DropCut, TruncateAll, OverRoom, Cost, Inflated, Total, DroppingReaches, ProtectedFrom, TargetOf, RoomFor, Notice, WithNotice;
    hide CutsLand, AlreadyFits;
    var target := TargetOf(m, window, reserve);
    var cut := DropCut(m, ms, pre, pre, ProtectedFrom(ms, pre), target);
    var kept := Without(ms, pre, cut);
    var room := RoomFor(target, |kept|);
    var truncated := OverRoom(m, kept, room, |kept|);
    DroppingSufficesIff(m, ms, pre, target);
    CutRequestIsBounded(m, kept, target);
    assert |TruncateAll(m, kept, room)| == |kept| >= pre by { SameCount(m, kept, room); }
    NoticeAdds(m.est, TruncateAll(m, kept, room), pre, cut - pre, truncated);
    CostAtMost(m, Enforce(m, ms, pre, window, reserve), target + m.est(Notice(cut - pre, truncated)));
    assert target + m.est(Notice(cut - pre, truncated)) + m.fixed == target + m.fixed + m.est(Notice(cut - pre, truncated));
  }

  lemma SameCount(m: Meter, ms: seq<Message>, room: int)
    ensures |TruncateAll(m, ms, room)| == |ms|
  {
  }

  lemma NoticeAdds(est: Message -> nat, kept: seq<Message>, pre: nat, dropped: nat, truncated: nat)
    requires pre <= |kept|
    ensures Total(est, WithNotice(kept, pre, dropped, truncated)) <= Total(est, kept) + est(Notice(dropped, truncated))
  {
    hide Total, Notice;
    if dropped + truncated > 0 { TotalWithNotice(est, kept, pre, dropped, truncated); }
  }

  function PageCost(msg: Message): nat {
    if msg.content.Blocks? && Image("page") in msg.content.blocks then 2000 else 90
  }

  /**
   * Once text has to be cut there is no such bound: a lone question made of an image stays as large as
   * it was, and the notice says it was shortened although not a character of it changed.
   */
  lemma CuttingMayNotFit(m: Meter, ms: seq<Message>)
    requires m == Meter(PageCost, 0, 1.0) && ms == [Message(User, Blocks([Image("page")]), None, None)]
    ensures m.Valid() && MeasuresNotices(m.est)
    ensures Enforce(m, ms, 0, 1000, 0) == [Notice(0, 1)] + ms
    ensures Cost(m, Enforce(m, ms, 0, 1000, 0)) > 1000
  {
    hide Cost, Inflated, Total, TruncateAll, OverRoom, DropCut, TargetOf, RequestTokens, CeilingMarker, PageCost, StandsAt;
    PageIsMeasured(m, ms);
    PageIsNotDropped(m, ms);
    ImageStaysWhole(m, ms, 910);
    assert RoomFor(910, 1) == 910;
    assert WithNotice(ms, 0, 0, 1) == [Notice(0, 1)] + ms by { assert ms[..0] == [] && ms[0..] == ms; }
  }

  lemma PageIsMeasured(m: Meter, ms: seq<Message>)
    requires m == Meter(PageCost, 0, 1.0) && ms == [Message(User, Blocks([Image("page")]), None, None)]
    ensures Cost(m, ms) == 2000 && Cost(m, [Notice(0, 1)] + ms) == 2090 && Inflated(m, RequestTokens(m, ms)) == 2000
    ensures TargetOf(m, 1000, 0) == 910 && MeasuresNotices(m.est)
  {
    hide CeilingMarker;
    assert ms[1..] == [] && ([Notice(0, 1)] + ms)[1..] == ms;
    assert LastUsage(ms) == None by { assert ms[..0] == []; }
    assert PageCost(ms[0]) == 2000 && PageCost(Notice(0, 1)) == 90;
    assert Total(m.est, ms) == 2000;
    assert Total(m.est, [Notice(0, 1)] + ms) == 2090;
  }

  lemma PageIsNotDropped(m: Meter, ms: seq<Message>)
    requires m == Meter(PageCost, 0, 1.0) && ms == [Message(User, Blocks([Image("page")]), None, None)]
    ensures DropCut(m, ms, 0, 0, ProtectedFrom(ms, 0), 910) == 0 && Without(ms, 0, 0) == ms
  {
    hide Cost;
    assert ProtectedFrom(ms, 0) == 0;
    assert ms[..0] == [] && ms[0..] == ms;
  }

  lemma ImageStaysWhole(m: Meter, ms: seq<Message>, room: int)
    requires m == Meter(PageCost, 0, 1.0) && ms == [Message(User, Blocks([Image("page")]), None, None)]
    requires room < 2000
    ensures TruncateAll(m, ms, room) == ms && OverRoom(m, ms, room, 1) == 1
  {
    assert !HasText(ms[0]);
    assert TruncateOne(m, ms[0], room) == ms[0];
    assert Inflated(m, 2000) == 2000;
    assert OverRoom(m, ms, room, 0) == 0;
  }
}
