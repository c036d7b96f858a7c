/** The wire between the two processes: one JSON object a line, and the decoder that finds the lines. */
module Protocol {
  import opened Text
  import opened Json

  /** A frame is an object that carries the keys of one of four shapes. */
  type Frame = seq<(string, Value)>

  predicate HasKey(f: Frame, key: string) { exists k :: 0 <= k < |f| && f[k].0 == key }

  predicate IsRequest(f: Frame) { HasKey(f, "id") && HasKey(f, "method") }

  predicate IsResult(f: Frame) { HasKey(f, "id") && HasKey(f, "result") }

  predicate IsError(f: Frame) { HasKey(f, "id") && HasKey(f, "error") }

  predicate IsNotification(f: Frame) { !HasKey(f, "id") && HasKey(f, "method") }

  predicate HasShape(f: Frame) { IsRequest(f) || IsResult(f) || IsError(f) || IsNotification(f) }

  /** A frame as it goes over the pipe: its object printed, and the break that ends it. */
  function EncodeFrame(f: Frame): string { Stringify(Obj(f)) + "\n" }

  datatype FrameError = Overrun | Malformed | NotAnObject | NoKnownShape

  datatype ParsedFrame = Good(frame: Frame) | Bad(error: FrameError)

  function ParseFrame(line: string): ParsedFrame {
    var parsed := Parse(line);
    if parsed.None? then Bad(Malformed)
    else if !parsed.value.Obj? then Bad(NotAnObject)
    else if !HasShape(parsed.value.members) then Bad(NoKnownShape)
    else Good(parsed.value.members)
  }

  // ---------------------------------------------------------------- the decoder

  datatype Pushed = Frames(frames: seq<Frame>) | Broken(error: FrameError)

  /** What a push finds, and what it holds back. */
  datatype Drained = Drained(found: Pushed, pending: string)

  function Before(f: Frame, d: Drained): Drained {
    if d.found.Frames? then d.(found := Frames([f] + d.found.frames)) else d
  }

  /** Every whole line of a buffer; a line that does not parse loses the frames found before it. */
  function Drain(buffer: string): (d: Drained)
    decreases |buffer|
  {
    var newline := IndexOf("\n", buffer);
    if newline.None? then Drained(Frames([]), buffer)
    else
      var line, rest := Trim(buffer[..newline.value]), buffer[newline.value + 1..];
      if line == "" then Drain(rest)
      else
        var parsed := ParseFrame(line);
        if parsed.Bad? then Drained(Broken(parsed.error), rest) else Before(parsed.frame, Drain(rest))
  }

  function PushOnto(buffer: string, limit: nat, chunk: string): Drained {
    if |buffer + chunk| > limit then Drained(Broken(Overrun), "") else Drain(buffer + chunk)
  }

  class FrameDecoder {
    var buffer: string
    const maxLineBytes: nat

    constructor (maxLineBytes: nat)
      ensures this.maxLineBytes == maxLineBytes && buffer == ""
    {
      this.maxLineBytes := maxLineBytes;
      buffer := "";
    }

    method Push(chunk: string) returns (found: Pushed)
      modifies this
      ensures Drained(found, buffer) == PushOnto(old(buffer), maxLineBytes, chunk)
    {
      hide Trim, ParseFrame;
      buffer := buffer + chunk;
      if |buffer| > maxLineBytes {
        buffer := "";
        return Broken(Overrun);
      }
      ghost var whole := buffer;
      var frames: seq<Frame> := [];
      var newline := IndexOf("\n", buffer);
      while newline.Some?
        invariant newline == IndexOf("\n", buffer)
        invariant Drain(whole) == Behind(frames, Drain(buffer))
        decreases |buffer|
      {
        ghost var was := buffer;
        var line := Trim(buffer[..newline.value]);
        buffer := buffer[newline.value + 1..];
        if |line| > 0 {
          var parsed := ParseFrame(line);
          if parsed.Bad? {
            return Broken(parsed.error);
          }
          BehindBefore(frames, parsed.frame, Drain(buffer));
          frames := frames + [parsed.frame];
        }
        newline := IndexOf("\n", buffer);
      }
      assert frames + [] == frames;
      return Frames(frames);
    }
  }

  function Behind(frames: seq<Frame>, d: Drained): Drained {
    if d.found.Frames? then d.(found := Frames(frames + d.found.frames)) else d
  }

  lemma BehindBefore(frames: seq<Frame>, f: Frame, d: Drained)
    ensures Behind(frames, Before(f, d)) == Behind(frames + [f], d)
    ensures Behind([f], d) == Before(f, d) && Behind([], d) == d
  {
    if d.found.Frames? {
      assert frames + ([f] + d.found.frames) == frames + [f] + d.found.frames;
      assert [] + d.found.frames == d.found.frames;
    }
  }

  // ---------------------------------------------------------------- chunking does not matter

  lemma FirstLineOfLonger(buffer: string, more: string)
    requires IndexOf("\n", buffer).Some?
    ensures var n := IndexOf("\n", buffer).value;
            && IndexOf("\n", buffer + more) == Some(n) && (buffer + more)[..n] == buffer[..n]
            && (buffer + more)[n + 1..] == buffer[n + 1..] + more
  {
    hide IndexOf, OccursAt;
    var n, longer := IndexOf("\n", buffer).value, buffer + more;
    BreakAt(buffer, n);
    BreakAt(longer, n);
    forall at: nat | at < n ensures !OccursAt("\n", longer, at) {
      assert !OccursAt("\n", buffer, at);
      BreakAt(buffer, at);
      BreakAt(longer, at);
    }
    assert Occurs("\n", longer);
  }

  lemma BreakAt(s: string, at: nat)
    ensures OccursAt("\n", s, at) <==> at < |s| && s[at] == '\n'
  {
    if at < |s| {
      assert s[at..at + 1] == [s[at]];
      assert s[at] == '\n' ==> s[at..at + 1] == "\n";
    }
  }

  /** Draining part of a stream first and the rest behind what was held back is draining the whole. */
  lemma {:induction false} DrainInTwo(buffer: string, more: string)
    requires Drain(buffer).found.Frames?
    ensures Drain(buffer + more) == Behind(Drain(buffer).found.frames, Drain(Drain(buffer).pending + more))
    decreases |buffer|
  {
    hide Trim, ParseFrame, IndexOf;
    var newline := IndexOf("\n", buffer);
    if newline.None? {
      BehindBefore([], [], Drain(buffer + more));
    } else {
      FirstLineOfLonger(buffer, more);
      var line, rest := Trim(buffer[..newline.value]), buffer[newline.value + 1..];
      DrainInTwo(rest, more);
      if line != "" {
        var f := ParseFrame(line).frame;
        BehindAgain(f, Drain(rest).found.frames, Drain(Drain(rest).pending + more));
      }
    }
  }

  lemma BehindAgain(f: Frame, frames: seq<Frame>, d: Drained)
    ensures Before(f, Behind(frames, d)) == Behind([f] + frames, d)
  {
    if d.found.Frames? { assert [f] + (frames + d.found.frames) == [f] + frames + d.found.frames; }
  }

  /** All frames of a stream that arrives in chunks, until something breaks. */
  function PushAll(buffer: string, limit: nat, chunks: seq<string>): Drained
    decreases |chunks|
  {
    if chunks == [] then Drained(Frames([]), buffer)
    else
      var first := PushOnto(buffer, limit, chunks[0]);
      if first.found.Broken? then first
      else Behind(first.found.frames, PushAll(first.pending, limit, chunks[1..]))
  }

  /** No push finds more in the buffer than the decoder allows. */
  ghost predicate StaysUnder(buffer: string, limit: nat, chunks: seq<string>)
    decreases |chunks|
  {
    chunks == [] ||
    (|buffer + chunks[0]| <= limit && StaysUnder(Drain(buffer + chunks[0]).pending, limit, chunks[1..]))
  }

  /**
   * However a stream without malformed lines is cut into chunks, as long as the decoder's limit is not
   * met, the frames and what is held back are those of the whole stream drained at once.
   */
  lemma {:induction false} ChunksDoNotMatter(buffer: string, limit: nat, chunks: seq<string>)
    requires StaysUnder(buffer, limit, chunks)
    requires Drain(buffer) == Drained(Frames([]), buffer)
    requires Drain(buffer + Concat(chunks)).found.Frames?
    ensures PushAll(buffer, limit, chunks) == Drain(buffer + Concat(chunks))
    decreases |chunks|
  {
    hide Drain;
    if chunks == [] {
      assert buffer + Concat(chunks) == buffer;
    } else {
      var whole, rest := buffer + chunks[0], Concat(chunks[1..]);
      assert buffer + Concat(chunks) == whole + rest;
      PrefixDrains(whole, rest);
      DrainInTwo(whole, rest);
      DrainOfPending(whole);
      ChunksDoNotMatter(Drain(whole).pending, limit, chunks[1..]);
    }
  }

  lemma {:induction false} PrefixDrains(buffer: string, more: string)
    requires Drain(buffer + more).found.Frames?
    ensures Drain(buffer).found.Frames?
    decreases |buffer|
  {
    hide Trim, ParseFrame, IndexOf;
    if IndexOf("\n", buffer).Some? {
      FirstLineOfLonger(buffer, more);
      PrefixDrains(buffer[IndexOf("\n", buffer).value + 1..], more);
    }
  }

  lemma {:induction false} DrainOfPending(buffer: string)
    requires Drain(buffer).found.Frames?
    ensures var p := Drain(buffer).pending; Drain(p) == Drained(Frames([]), p) && |p| <= |buffer|
    decreases |buffer|
  {
    hide Trim, ParseFrame, IndexOf;
    if IndexOf("\n", buffer).Some? { DrainOfPending(buffer[IndexOf("\n", buffer).value + 1..]); }
  }

  /** A stream no longer than the limit may be cut anywhere at all. */
  lemma {:induction false} ShortStreamsStayUnder(buffer: string, limit: nat, chunks: seq<string>)
    requires |buffer + Concat(chunks)| <= limit && Drain(buffer + Concat(chunks)).found.Frames?
    ensures StaysUnder(buffer, limit, chunks)
    decreases |chunks|
  {
    hide Drain;
    if chunks != [] {
      var whole, rest := buffer + chunks[0], Concat(chunks[1..]);
      assert buffer + Concat(chunks) == whole + rest;
      PrefixDrains(whole, rest);
      DrainInTwo(whole, rest);
      DrainOfPending(whole);
      ShortStreamsStayUnder(Drain(whole).pending, limit, chunks[1..]);
    }
  }

  // ---------------------------------------------------------------- decoding undoes encoding

  ghost predicate Sendable(f: Frame) { Writable(Obj(f)) && HasShape(f) }

  function EncodeAll(frames: seq<Frame>): string {
    if frames == [] then "" else EncodeFrame(frames[0]) + EncodeAll(frames[1..])
  }

  lemma LineOfFrame(f: Frame)
    requires Sendable(f)
    ensures var s := Stringify(Obj(f)); OneLine(s) && s != "" && Trim(s) == s && ParseFrame(s) == Good(f)
  {
    hide Stringify, HasShape, Parse, Trim, OneLine, Writable, Trimmed;
    StringifyIsOneLine(Obj(f));
    ParseOfStringify(Obj(f));
    ObjectText(f);
    TrimOfTrimmed(Stringify(Obj(f)));
  }

  lemma ObjectText(f: Frame)
    ensures var s := Stringify(Obj(f)); |s| >= 2 && s[0] == '{' && s[|s| - 1] == '}' && Trimmed(s)
  {
  }

  lemma NewlineBehind(line: string, rest: string)
    requires OneLine(line)
    ensures IndexOf("\n", line + "\n" + rest) == Some(|line|)
    ensures (line + "\n" + rest)[..|line|] == line && (line + "\n" + rest)[|line| + 1..] == rest
  {
    hide IndexOf, OccursAt;
    var s := line + "\n" + rest;
    BreakAt(s, |line|);
    forall at: nat | at < |line| ensures !OccursAt("\n", s, at) {
      BreakAt(s, at);
      assert s[at] == line[at];
    }
    assert Occurs("\n", s);
  }

  lemma DrainOneFrame(f: Frame, rest: string)
    requires Sendable(f)
    ensures Drain(EncodeFrame(f) + rest) == Before(f, Drain(rest))
  {
    hide ParseFrame, IndexOf, Trim, Stringify, HasShape;
    LineOfFrame(f);
    NewlineBehind(Stringify(Obj(f)), rest);
  }

  /** Decoding the concatenation of encoded frames gives those frames, and holds nothing back. */
  lemma {:induction false} DecodingUndoesEncoding(frames: seq<Frame>)
    requires forall f :: f in frames ==> Sendable(f)
    ensures Drain(EncodeAll(frames)) == Drained(Frames(frames), "")
  {
    hide Drain, EncodeFrame, Sendable;
    if frames == [] {
      NothingToDrain();
    } else {
      assert frames[0] in frames;
      DecodingUndoesEncoding(frames[1..]);
      DrainOneFrame(frames[0], EncodeAll(frames[1..]));
      assert [frames[0]] + frames[1..] == frames;
    }
  }

  lemma NothingToDrain()
    ensures Drain("") == Drained(Frames([]), "")
  {
    hide IndexOf;
    assert forall at: nat :: !OccursAt("\n", "", at);
    assert !Occurs("\n", "");
  }

  /** What one end sends is what the other end reads, however the pipe cuts it. */
  lemma PipeDelivers(frames: seq<Frame>, limit: nat, chunks: seq<string>)
    requires (forall f :: f in frames ==> Sendable(f)) && Concat(chunks) == EncodeAll(frames)
    requires StaysUnder("", limit, chunks)
    ensures PushAll("", limit, chunks) == Drained(Frames(frames), "")
  {
    hide Drain, Sendable;
    DecodingUndoesEncoding(frames);
    NothingToDrain();
    assert "" + Concat(chunks) == Concat(chunks);
    ChunksDoNotMatter("", limit, chunks);
  }

  // ---------------------------------------------------------------- line by line

  /** A line is a frame exactly when it is an object in JSON with a shape this channel has; otherwise it says what is wrong. */
  lemma FrameReadsIff(line: string)
    ensures forall f: Frame :: ParseFrame(line) == Good(f) <==>
              Parse(line) == Some(Obj(f)) &&
              ((HasKey(f, "id") && (HasKey(f, "method") || HasKey(f, "result") || HasKey(f, "error")))
               || (!HasKey(f, "id") && HasKey(f, "method")))
    ensures ParseFrame(line) == Bad(Malformed) <==> Parse(line).None?
    ensures ParseFrame(line) == Bad(NotAnObject) <==> Parse(line).Some? && !Parse(line).value.Obj?
  {
    hide Parse, HasKey;
  }

  function Lined(lines: seq<string>): string {
    if lines == [] then "" else lines[0] + "\n" + Lined(lines[1..])
  }

  /** A line that says nothing, or a frame. */
  predicate Fine(line: string) { Trim(line) == "" || ParseFrame(Trim(line)).Good? }

  function FrameIn(line: string): seq<Frame> {
    match ParseFrame(Trim(line))
    case Good(f) => if Trim(line) == "" then [] else [f]
    case Bad(_) => []
  }

  function FramesIn(lines: seq<string>): seq<Frame> {
    if lines == [] then [] else FrameIn(lines[0]) + FramesIn(lines[1..])
  }

  lemma DrainFirst(line: string, rest: string)
    requires OneLine(line)
    ensures Drain(line + "\n" + rest) ==
            if Trim(line) == "" then Drain(rest)
            else if ParseFrame(Trim(line)).Bad? then Drained(Broken(ParseFrame(Trim(line)).error), rest)
            else Before(ParseFrame(Trim(line)).frame, Drain(rest))
  {
    hide IndexOf, Trim, ParseFrame;
    NewlineBehind(line, rest);
  }

  /** Lines that are fine give their frames in order, blank ones nothing; what is behind the last break is held back. */
  lemma {:induction false} FineLinesGiveTheirFrames(lines: seq<string>, tail: string)
    requires (forall l :: l in lines ==> OneLine(l) && Fine(l)) && OneLine(tail)
    ensures Drain(Lined(lines) + tail) == Drained(Frames(FramesIn(lines)), tail)
  {
    hide Drain, Trim, ParseFrame, OneLine;
    if lines == [] {
      assert Lined(lines) + tail == tail;
      NoBreakInTail(tail);
    } else {
      var l, rest := lines[0], Lined(lines[1..]) + tail;
      assert l in lines;
      assert Lined(lines) + tail == l + "\n" + rest;
      FineLinesGiveTheirFrames(lines[1..], tail);
      DrainFirst(l, rest);
      if Trim(l) == "" { assert [] + FramesIn(lines[1..]) == FramesIn(lines[1..]); }
    }
  }

  lemma NoBreakInTail(tail: string)
    requires OneLine(tail)
    ensures Drain(tail) == Drained(Frames([]), tail)
  {
    if IndexOf("\n", tail).Some? { BreakAt(tail, IndexOf("\n", tail).value); }
  }

  /** The first line that is wrong breaks the push: its frames are lost, and what stands behind that line is held back. */
  lemma {:induction false} FirstWrongLineBreaks(lines: seq<string>, wrong: string, behind: string)
    requires (forall l :: l in lines ==> OneLine(l) && Fine(l)) && OneLine(wrong) && !Fine(wrong)
    ensures Drain(Lined(lines) + (wrong + "\n" + behind)) == Drained(Broken(ParseFrame(Trim(wrong)).error), behind)
  {
    hide Drain, Trim, ParseFrame, OneLine;
    if lines == [] {
      assert Lined(lines) + (wrong + "\n" + behind) == wrong + "\n" + behind;
      DrainFirst(wrong, behind);
    } else {
      var l, rest := lines[0], Lined(lines[1..]) + (wrong + "\n" + behind);
      assert l in lines;
      assert Lined(lines) + (wrong + "\n" + behind) == l + "\n" + rest;
      FirstWrongLineBreaks(lines[1..], wrong, behind);
      DrainFirst(l, rest);
    }
  }

  // ---------------------------------------------------------------- where it does matter

  /**
   * Behind a malformed line the cut decides what is delivered: in two chunks the good frame arrives
   * before the break, in one it is lost with it.
   */
  lemma MalformedLineLosesItsChunk(f: Frame, bad: string, limit: nat)
    requires Sendable(f) && OneLine(bad) && Trim(bad) != "" && ParseFrame(Trim(bad)).Bad?
    requires |EncodeFrame(f) + (bad + "\n")| <= limit
    ensures PushOnto("", limit, EncodeFrame(f)) == Drained(Frames([f]), "")
    ensures PushOnto("", limit, bad + "\n").found.Broken?
    ensures PushOnto("", limit, EncodeFrame(f) + (bad + "\n")).found == PushOnto("", limit, bad + "\n").found
  {
    hide ParseFrame, IndexOf, Trim, EncodeFrame, Sendable;
    DrainOneFrame(f, "");
    DrainOneFrame(f, bad + "\n");
    NothingToDrain();
    NewlineBehind(bad, "");
    var good, broken := EncodeFrame(f), bad + "\n";
    assert good + "" == good && "" + good == good && broken + "" == broken && "" + broken == broken;
    assert "" + (good + broken) == good + broken;
    assert [f] + [] == [f];
    assert Drain(good) == Drained(Frames([f]), "");
  }

  /** The limit is on the buffer, not on a line: two whole frames that each fit are refused together. */
  lemma LimitIsOnTheBuffer(f: Frame)
    requires Sendable(f)
    ensures var limit := |EncodeFrame(f)|;
            && PushOnto("", limit, EncodeFrame(f)).found == Frames([f])
            && PushOnto("", limit, EncodeFrame(f) + EncodeFrame(f)).found == Broken(Overrun)
  {
    hide EncodeFrame, Drain, Sendable;
    DrainOneFrame(f, "");
    NothingToDrain();
    var line := EncodeFrame(f);
    assert line + "" == line && "" + line == line;
    EncodedIsNotEmpty(f);
  }

  lemma {:induction false} DrainNeverOverruns(buffer: string)
    ensures Drain(buffer).found != Broken(Overrun)
    decreases |buffer|
  {
    hide IndexOf, Trim, Parse;
    var newline := IndexOf("\n", buffer);
    if newline.Some? { DrainNeverOverruns(buffer[newline.value + 1..]); }
  }

  /** A push overruns exactly when the whole buffer, what was held back included, is over the limit. */
  lemma OverrunsIff(buffer: string, limit: nat, chunk: string)
    ensures PushOnto(buffer, limit, chunk).found == Broken(Overrun) <==> |buffer| + |chunk| > limit
  {
    hide Drain;
    DrainNeverOverruns(buffer + chunk);
  }

  lemma EncodedIsNotEmpty(f: Frame)
    ensures |EncodeFrame(f)| > 0
  {
  }
}
