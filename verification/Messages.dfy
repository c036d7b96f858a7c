/**
 * The agent's messages, as far as the context engine reads them, and what keeps tool calls and their
 * results together: a provider refuses a request in which a result has lost the call that produced it,
 * so every cut the engine makes is moved until that cannot happen.
 */
module Messages {
  import opened Text

  datatype Role = User | Assistant | ToolResult | CompactionSummary | Custom

  datatype Block =
    | TextBlock(text: string)
    | Thinking(thought: string)
    | ToolCall(id: Option<string>, name: string, arguments: string)
    | Image(data: string)

  /** A message body is a list of blocks, or something the engine never looks into. */
  datatype Content = Blocks(blocks: seq<Block>) | Plain(body: string)

  /**
   * `callId` is the call a tool result answers; `usage` is the provider's usable count of the
   * request that produced an assistant message.
   */
  datatype Message = Message(role: Role, content: Content, callId: Option<string>, usage: Option<nat>)

  function UserText(text: string): Message {
    Message(User, Blocks([TextBlock(text)]), None, None)
  }

  /** All the text a message holds, blocks run together; plain content counts as no text. */
  function TextOf(m: Message): string {
    if m.content.Blocks? then BlocksText(m.content.blocks) else ""
  }

  function BlocksText(blocks: seq<Block>): string {
    if blocks == [] then "" else (if blocks[0].TextBlock? then blocks[0].text else "") + BlocksText(blocks[1..])
  }

  function Removing(blocks: seq<Block>, gone: Block -> bool): (r: seq<Block>)
    ensures |r| <= |blocks|
    ensures forall b :: b in r <==> b in blocks && !gone(b)
    ensures |r| == |blocks| ==> r == blocks
  {
    if blocks == [] then []
    else (if gone(blocks[0]) then [] else [blocks[0]]) + Removing(blocks[1..], gone)
  }

  lemma RemovingFirst(b: Block, blocks: seq<Block>, gone: Block -> bool)
    ensures Removing([b] + blocks, gone) == (if gone(b) then [] else [b]) + Removing(blocks, gone)
    ensures Removing([], gone) == []
  {
    assert ([b] + blocks)[1..] == blocks;
  }

  /** Block by block and in order: what stays of two lists is what stays of the one and then of the other. */
  lemma {:induction false} RemovingAppend(xs: seq<Block>, ys: seq<Block>, gone: Block -> bool)
    ensures Removing(xs + ys, gone) == Removing(xs, gone) + Removing(ys, gone)
  {
    hide Removing;
    if xs == [] {
      RemovingFirst(Image(""), [], gone);
      assert xs + ys == ys && [] + Removing(ys, gone) == Removing(ys, gone);
    } else {
      RemovingAppend(xs[1..], ys, gone);
      RemovingFirst(xs[0], xs[1..], gone);
      RemovingFirst(xs[0], xs[1..] + ys, gone);
      assert xs == [xs[0]] + xs[1..] && xs + ys == [xs[0]] + (xs[1..] + ys);
    }
  }

  // ---------------------------------------------------------------- calls and their results

  /** What an assistant message calls, by id; calls without an id cannot be answered. */
  function CallIds(m: Message): set<string> {
    if m.role.Assistant? && m.content.Blocks?
    then set b | b in m.content.blocks && b.ToolCall? && b.id.Some? :: b.id.value
    else {}
  }

  /** The call a message answers; only tool results answer one. */
  function ResultId(m: Message): Option<string> {
    if m.role.ToolResult? then m.callId else None
  }

  ghost predicate IssuedBy(ms: seq<Message>, upTo: nat, id: string)
    requires upTo <= |ms|
  {
    exists j :: 0 <= j < upTo && id in CallIds(ms[j])
  }

  /** Every tool result comes after the call it answers. */
  ghost predicate Intact(ms: seq<Message>) {
    forall k :: 0 <= k < |ms| && ResultId(ms[k]).Some? ==> IssuedBy(ms, k, ResultId(ms[k]).value)
  }

  method PairingIsIntact(ms: seq<Message>) returns (ok: bool)
    ensures ok <==> Intact(ms)
  {
    var issued: set<string> := {};
    for k := 0 to |ms|
      invariant forall id :: id in issued <==> IssuedBy(ms, k, id)
      invariant forall j :: 0 <= j < k && ResultId(ms[j]).Some? ==> IssuedBy(ms, j, ResultId(ms[j]).value)
    {
      issued := issued + CallIds(ms[k]);
      var answered := ResultId(ms[k]);
      if answered.Some? && answered.value !in issued {
        return false;
      }
    }
    return true;
  }

  // ---------------------------------------------------------------- moving a cut

  function Clamp(cut: int, len: nat): (r: nat)
    ensures r <= len && (0 <= cut <= len ==> r == cut)
  {
    if cut < 0 then 0 else if cut > len then len else cut
  }

  /** Where a cut ends up when it may only keep more than was asked. */
  ghost function AlignCut(ms: seq<Message>, cut: int): (r: nat)
    ensures r <= Clamp(cut, |ms|) <= |ms|
    ensures r == 0 || Intact(ms[r..])
    ensures forall c :: r < c <= Clamp(cut, |ms|) ==> !Intact(ms[c..])
  {
    AlignDown(ms, Clamp(cut, |ms|))
  }

  ghost function AlignDown(ms: seq<Message>, at: nat): (r: nat)
    requires at <= |ms|
    ensures r <= at && (r == 0 || Intact(ms[r..]))
    ensures forall c :: r < c <= at ==> !Intact(ms[c..])
  {
    if at == 0 || Intact(ms[at..]) then at else AlignDown(ms, at - 1)
  }

  method AlignCutToPairs(ms: seq<Message>, cut: int) returns (aligned: nat)
    ensures aligned == AlignCut(ms, cut)
  {
    aligned := Clamp(cut, |ms|);
    while true
      invariant aligned <= |ms| && AlignDown(ms, aligned) == AlignCut(ms, cut)
      decreases aligned
    {
      var intact := PairingIsIntact(ms[aligned..]);
      if intact || aligned == 0 {
        return;
      }
      aligned := aligned - 1;
    }
  }

  /** The counterpart for a pass that removes what is before the cut: it may only remove more. */
  ghost function AlignDrop(ms: seq<Message>, cut: int, limit: nat): (r: nat)
    requires limit <= |ms|
    ensures Max0(cut) <= r && (r < limit ==> Intact(ms[r..]))
    ensures r <= limit || r == Max0(cut)
    ensures forall c :: Max0(cut) <= c < r ==> !Intact(ms[c..])
  {
    AlignUp(ms, Max0(cut), limit)
  }

  function Max0(i: int): nat { if i < 0 then 0 else i }

  ghost function AlignUp(ms: seq<Message>, at: nat, limit: nat): (r: nat)
    requires limit <= |ms|
    ensures at <= r && (r < limit ==> Intact(ms[r..]))
    ensures r <= limit || r == at
    ensures forall c :: at <= c < r ==> !Intact(ms[c..])
    decreases limit - at
  {
    if at < limit && !Intact(ms[at..]) then AlignUp(ms, at + 1, limit) else at
  }

  method AlignDropToPairs(ms: seq<Message>, cut: int, limit: nat) returns (aligned: nat)
    requires limit <= |ms|
    ensures aligned == AlignDrop(ms, cut, limit)
  {
    aligned := Max0(cut);
    while aligned < limit
      invariant AlignUp(ms, aligned, limit) == AlignDrop(ms, cut, limit)
      decreases limit - aligned
    {
      var intact := PairingIsIntact(ms[aligned..]);
      if intact {
        return;
      }
      aligned := aligned + 1;
    }
  }

  // ---------------------------------------------------------------- what keeps pairs

  /** Rewrites that leave each message's calls and answers alone. */
  ghost predicate SameCalls(xs: seq<Message>, ys: seq<Message>) {
    |xs| == |ys| && forall k :: 0 <= k < |xs| ==> CallIds(xs[k]) == CallIds(ys[k]) && ResultId(xs[k]) == ResultId(ys[k])
  }

  lemma SameCallsKeepIntact(xs: seq<Message>, ys: seq<Message>)
    requires SameCalls(xs, ys) && Intact(xs)
    ensures Intact(ys)
  {
    forall k | 0 <= k < |ys| && ResultId(ys[k]).Some?
      ensures IssuedBy(ys, k, ResultId(ys[k]).value)
    {
      var id := ResultId(xs[k]).value;
      assert IssuedBy(xs, k, id);
      var j :| 0 <= j < k && id in CallIds(xs[j]);
      assert id in CallIds(ys[j]);
    }
  }

  /** Messages that neither call nor answer: everything the engine writes itself. */
  ghost predicate NoTools(ms: seq<Message>) {
    forall k :: 0 <= k < |ms| ==> CallIds(ms[k]) == {} && ResultId(ms[k]) == None
  }

  lemma PrefixWithoutTools(pre: seq<Message>, ms: seq<Message>)
    requires NoTools(pre)
    ensures Intact(pre + ms) <==> Intact(ms)
  {
    var all := pre + ms;
    assert forall j :: 0 <= j < |pre| ==> all[j] == pre[j];
    if Intact(all) {
      forall k | 0 <= k < |ms| && ResultId(ms[k]).Some?
        ensures IssuedBy(ms, k, ResultId(ms[k]).value)
      {
        var id := ResultId(ms[k]).value;
        assert all[|pre| + k] == ms[k];
        assert IssuedBy(all, |pre| + k, id);
        var j :| 0 <= j < |pre| + k && id in CallIds(all[j]);
        assert ms[j - |pre|] == all[j];
      }
    }
    if Intact(ms) {
      forall k | 0 <= k < |all| && ResultId(all[k]).Some?
        ensures IssuedBy(all, k, ResultId(all[k]).value)
      {
        var id := ResultId(all[k]).value;
        assert all[k] == ms[k - |pre|];
        assert IssuedBy(ms, k - |pre|, id);
        var j :| 0 <= j < k - |pre| && id in CallIds(ms[j]);
        assert all[|pre| + j] == ms[j];
      }
    }
  }
}
