/**
 * Two peers over two in-order channels, each opening requests the other serves, with ids that overlap
 * and handlers that end in any order.
 */
module PeerRuns {
  import opened Text
  import opened Json
  import opened Protocol
  import opened Peer

  /** A request being served: the far end's id, and what was asked. */
  datatype Job = Job(id: string, call: Call)

  /** How a request served here ended: as its handler did, or for want of one. */
  datatype JobEnd = Handled(end: HandlerEnd) | Unhandled

  /**
   * One end: its own requests, the ones it serves, how those it has served ended, what it answered them, and
   * the answers it was too closed to send.
   */
  datatype Side = Side(
    peer: State, methods: set<string>, jobs: seq<Job>,
    ends: map<string, (Call, JobEnd)>, answers: map<string, (Call, Answer)>, dropped: set<string>)

  /** `ab` carries what `a` has sent and `b` has not read, oldest first. */
  datatype System = System(a: Side, b: Side, ab: seq<Packet>, ba: seq<Packet>) {
    function Swap(): System { System(b, a, ba, ab) }
  }

  datatype Action =
    | OpenOne(call: Call, failure: Option<string>)
    | Notify(event: Call)
    | Read(unsent: Option<string>)
    | FinishJob(job: nat, end: HandlerEnd, unsent: Option<string>)
    | CloseNow(reason: Reason)

  function AnswerJob(s: Side, job: Job, end: JobEnd, answer: Answer): Side {
    s.(ends := s.ends[job.id := (job.call, end)], answers := s.answers[job.id := (job.call, answer)], dropped := if s.peer.closed then s.dropped + {job.id} else s.dropped)
  }

  /** An error reply that `a` cannot write closes it before anything is sent. */
  function Failing(s: System, answer: Answer, unsent: Option<string>): System {
    s.(a := s.a.(peer := AfterReply(s.a.peer, answer, unsent)))
  }

  /** What `a` does. An action that cannot happen now changes nothing. */
  function Step(s: System, act: Action): System {
    match act
    case OpenOne(call, failure) =>
      var o := Open(s.a.peer, call, failure);
      s.(a := s.a.(peer := o.state), ab := s.ab + o.sent)
    case Notify(event) => if s.a.peer.closed then s else s.(ab := s.ab + [Notification(event)])
    case Read(unsent) => if s.ba == [] then s else Receive(s.(ba := s.ba[1..]), s.ba[0], unsent)
    case FinishJob(k, end, unsent) =>
      if k >= |s.a.jobs| then s else Finish(Failing(s, AnswerOf(end), unsent), k, end)
    case CloseNow(reason) => s.(a := s.a.(peer := CloseAll(s.a.peer, reason)))
  }

  function Finish(s: System, k: nat, end: HandlerEnd): System
    requires k < |s.a.jobs|
  {
    var job := s.a.jobs[k];
    var rest := s.a.(jobs := s.a.jobs[..k] + s.a.jobs[k + 1..]);
    s.(a := AnswerJob(rest, job, Handled(end), AnswerOf(end)), ab := s.ab + Respond(s.a.peer, job.id, AnswerOf(end)))
  }

  function Receive(s: System, p: Packet, unsent: Option<string>): System {
    match p
    case Request(id, call) =>
      if call.rpc in s.a.methods then s.(a := s.a.(jobs := s.a.jobs + [Job(id, call)]))
      else
        var answer := NoHandler(call.rpc);
        var t := Failing(s, answer, unsent);
        t.(a := AnswerJob(t.a, Job(id, call), Unhandled, answer), ab := t.ab + Respond(t.a.peer, id, answer))
    case Reply(id, answer) => s.(a := s.a.(peer := SettleOne(s.a.peer, id, answer)))
    case Notification(_) => s
  }

  /** The system reads a packet as the peer does. */
  lemma ReceiveIsTake(s: System, p: Packet, unsent: Option<string>)
    ensures var t, taken := Receive(s, p, unsent), Take(s.a.peer, s.a.methods, p, unsent);
            && t.a.peer == taken.state && t.ab == s.ab + taken.sent && t.b == s.b && t.ba == s.ba
            && t.a.jobs == s.a.jobs + if taken.serving.Some? then [Job(taken.serving.value.id, taken.serving.value.call)] else []
  {
    hide SettleOne, Respond, NoHandler, CloseAll;
    assert s.ab + [] == s.ab && s.a.jobs + [] == s.a.jobs;
  }

  datatype Move = Move(byA: bool, act: Action)

  function Next(s: System, m: Move): System {
    if m.byA then Step(s, m.act) else Step(s.Swap(), m.act).Swap()
  }

  function Idle(methods: set<string>): Side { Side(FRESH, methods, [], map[], map[], {}) }

  function Run(ma: set<string>, mb: set<string>, moves: seq<Move>): System {
    if moves == [] then System(Idle(ma), Idle(mb), [], [])
    else Next(Run(ma, mb, moves[..|moves| - 1]), moves[|moves| - 1])
  }

  // ---------------------------------------------------------------- where an id is

  function Asked(ps: seq<Packet>, id: string): nat {
    if ps == [] then 0 else Asked(ps[..|ps| - 1], id) + if ps[|ps| - 1].Request? && ps[|ps| - 1].id == id then 1 else 0
  }

  function Replied(ps: seq<Packet>, id: string): nat {
    if ps == [] then 0 else Replied(ps[..|ps| - 1], id) + if ps[|ps| - 1].Reply? && ps[|ps| - 1].id == id then 1 else 0
  }

  function Served(js: seq<Job>, id: string): nat {
    if js == [] then 0 else Served(js[..|js| - 1], id) + if js[|js| - 1].id == id then 1 else 0
  }

  function One(b: bool): nat { if b then 1 else 0 }

  /** How often an id of the caller's stands anywhere: asked, being served, replied, dropped unsent, or answered. */
  function Places(c: State, out: seq<Packet>, server: Side, back: seq<Packet>, id: string): nat {
    Asked(out, id) + Served(server.jobs, id) + Replied(back, id) + One(id in server.dropped) + One(id in c.answered)
  }

  lemma {:induction false} AskedAppend(xs: seq<Packet>, ys: seq<Packet>, id: string)
    ensures Asked(xs + ys, id) == Asked(xs, id) + Asked(ys, id)
    ensures Replied(xs + ys, id) == Replied(xs, id) + Replied(ys, id)
  {
    if ys == [] {
      assert xs + ys == xs;
    } else {
      AskedAppend(xs, ys[..|ys| - 1], id);
      assert (xs + ys)[..|xs + ys| - 1] == xs + ys[..|ys| - 1];
    }
  }

  lemma AskedOne(p: Packet, id: string)
    ensures Asked([p], id) == One(p.Request? && p.id == id) && Replied([p], id) == One(p.Reply? && p.id == id)
    ensures Asked([], id) == 0 && Replied([], id) == 0
  {
    assert [p][..0] == [];
  }

  lemma {:induction false} ServedAppend(xs: seq<Job>, ys: seq<Job>, id: string)
    ensures Served(xs + ys, id) == Served(xs, id) + Served(ys, id)
  {
    if ys == [] {
      assert xs + ys == xs;
    } else {
      ServedAppend(xs, ys[..|ys| - 1], id);
      assert (xs + ys)[..|xs + ys| - 1] == xs + ys[..|ys| - 1];
    }
  }

  lemma ServedOne(j: Job, id: string)
    ensures Served([j], id) == One(j.id == id) && Served([], id) == 0
  {
    assert [j][..0] == [];
  }

  lemma ServedWithout(js: seq<Job>, k: nat, id: string)
    requires k < |js|
    ensures Served(js, id) == Served(js[..k] + js[k + 1..], id) + One(js[k].id == id)
  {
    assert js == js[..k] + [js[k]] + js[k + 1..];
    ServedAppend(js[..k] + [js[k]], js[k + 1..], id);
    ServedAppend(js[..k], [js[k]], id);
    ServedAppend(js[..k], js[k + 1..], id);
    ServedOne(js[k], id);
  }

  lemma FirstOf(ps: seq<Packet>, id: string)
    requires ps != []
    ensures Asked(ps, id) == Asked(ps[1..], id) + One(ps[0].Request? && ps[0].id == id)
    ensures Replied(ps, id) == Replied(ps[1..], id) + One(ps[0].Reply? && ps[0].id == id)
  {
    assert ps == [ps[0]] + ps[1..];
    AskedAppend([ps[0]], ps[1..], id);
    AskedOne(ps[0], id);
  }

  // ---------------------------------------------------------------- the invariant of one direction

  /** Ids are the numbers used so far. */
  ghost predicate Numbered(c: State) {
    forall id :: id in c.issued ==> exists n :: 1 <= n < c.nextId && id == Decimal(n)
  }

  /** The caller's own books. */
  ghost predicate Books(c: State) {
    && c.issued.Keys == c.pending.Keys + c.settled.Keys && c.pending.Keys !! c.settled.Keys
    && (forall id :: id in c.pending ==> c.pending[id] == c.issued[id])
    && Numbered(c)
    && (c.closed ==> c.pending == map[]) && (c.closed <==> c.cause.Some?)
    && c.answered <= c.settled.Keys
    && (!c.closed ==> c.settled.Keys <= c.answered)
    && (forall id :: id in c.settled && c.settled[id].Resolved? ==> id in c.answered)
    && c.nextId >= 1
  }

  /** What a handler's end, or the want of a handler, has to be answered with. */
  ghost predicate AnswersEnd(e: JobEnd, call: Call, a: Answer) {
    match e
    case Handled(Completed(v, None)) => a == Returned(v)
    case Handled(Completed(_, Some(why))) => a == Refused("internal", why)
    case Handled(Threw(None, message)) => a == Refused("internal", message)
    case Handled(Threw(Some(code), message)) => a == Refused(code, message)
    case Unhandled => a == Refused("unknown_method", "No handler for " + call.rpc)
  }

  /** Every answer is that of the end it was made of. */
  ghost predicate Answers(server: Side, id: string)
    requires id in server.answers
  {
    id in server.ends && server.ends[id].0 == server.answers[id].0 && AnswersEnd(server.ends[id].1, server.answers[id].0, server.answers[id].1)
  }

  /** What a closing end rejects its pending promises with. */
  ghost predicate ClosesWith(reason: Reason, o: Outcome) {
    match reason
    case Unsaid => o == Rejected("peer_closed", "Channel closed")
    case Coded(code, message) => o == Rejected(code, message)
    case Breakdown(why) => o == Failed(why)
  }

  ghost predicate SettlesAs(a: Answer, o: Outcome) {
    match a
    case Returned(v) => o == Resolved(v)
    case Refused(code, message) => o == Rejected(code, message)
  }

  /** A promise ended because its call could not be sent, because its own end closed, or with the far end's answer to that very call. */
  ghost predicate Explained(c: State, server: Side, id: string)
    requires id in c.settled
  {
    || c.settled[id].Failed?
    || (c.cause.Some? && ClosesWith(c.cause.value, c.settled[id]))
    || (id in c.answered && id in c.issued && id in server.answers && server.answers[id].0 == c.issued[id]
        && SettlesAs(server.answers[id].1, c.settled[id]))
  }

  /** Everything on the way and at the far end belongs to a call that was made, unchanged. */
  ghost predicate Faithful(c: State, out: seq<Packet>, server: Side, back: seq<Packet>) {
    && (forall p :: p in out && p.Request? ==> p.id in c.issued && c.issued[p.id] == p.call)
    && (forall j :: j in server.jobs ==> j.id in c.issued && c.issued[j.id] == j.call)
    && (forall p :: p in back && p.Reply? ==>
          p.id in c.issued && p.id in server.answers && server.answers[p.id] == (c.issued[p.id], p.answer))
    && (forall id :: id in c.settled ==> Explained(c, server, id))
    && (forall id :: id in server.answers ==> Answers(server, id))
    && server.dropped <= c.issued.Keys && (!server.peer.closed ==> server.dropped == {})
  }

  /** Every issued id is in exactly one place, and no other id is anywhere. */
  ghost predicate Conserved(c: State, out: seq<Packet>, server: Side, back: seq<Packet>) {
    forall id :: Places(c, out, server, back, id) == One(id in c.issued)
  }

  ghost predicate Direction(c: State, out: seq<Packet>, server: Side, back: seq<Packet>) {
    Books(c) && Faithful(c, out, server, back) && Conserved(c, out, server, back)
  }

  ghost predicate Inv(s: System) {
    Direction(s.a.peer, s.ab, s.b, s.ba) && Direction(s.b.peer, s.ba, s.a, s.ab)
  }

  // ---------------------------------------------------------------- each action, as caller

  lemma FreshIdIsNew(c: State)
    requires Books(c)
    ensures Decimal(c.nextId) !in c.issued
  {
    if Decimal(c.nextId) in c.issued {
      var n :| 1 <= n < c.nextId && Decimal(c.nextId) == Decimal(n);
      DecimalInjective(c.nextId, n);
    }
  }

  lemma OpenKeepsNumbers(c: State, call: Call, failure: Option<string>)
    requires Numbered(c) && c.nextId >= 1
    ensures Numbered(Open(c, call, failure).state)
  {
    hide Decimal;
    var d := Open(c, call, failure).state;
    forall id | id in d.issued ensures exists n :: 1 <= n < d.nextId && id == Decimal(n) {
      if id in c.issued {
        var n :| 1 <= n < c.nextId && id == Decimal(n);
        assert 1 <= n < d.nextId;
      } else {
        assert id == Decimal(c.nextId);
      }
    }
  }

  lemma OpenKeepsBooks(c: State, call: Call, failure: Option<string>)
    requires Books(c)
    ensures Books(Open(c, call, failure).state)
  {
    FreshIdIsNew(c);
    OpenKeepsNumbers(c, call, failure);
    hide Decimal, Numbered;
  }

  lemma OpeningAdds(c: State, call: Call, failure: Option<string>)
    requires Books(c)
    ensures var o := Open(c, call, failure);
            && c.issued.Keys <= o.state.issued.Keys && (forall id :: id in c.issued ==> o.state.issued[id] == c.issued[id])
            && (forall p :: p in o.sent && p.Request? ==> p.id in o.state.issued && o.state.issued[p.id] == p.call)
            && (forall id :: id in o.state.settled ==> (id in c.settled && c.settled[id] == o.state.settled[id]) || o.state.settled[id].Failed?)
            && c.answered <= o.state.answered && o.state.cause == c.cause
  {
    FreshIdIsNew(c);
    hide Decimal, Numbered;
  }

  lemma OpenKeepsFaithful(c: State, out: seq<Packet>, server: Side, back: seq<Packet>, call: Call, failure: Option<string>)
    requires Books(c) && Faithful(c, out, server, back)
    ensures var o := Open(c, call, failure); Faithful(o.state, out + o.sent, server, back)
  {
    OpeningAdds(c, call, failure);
    hide Decimal, Books, Answers, AnswersEnd, ClosesWith, SettlesAs, Open;
    var o := Open(c, call, failure);
    forall id | id in o.state.settled ensures Explained(o.state, server, id) {
      if id in c.settled { assert Explained(c, server, id); }
    }
  }

  lemma OpenConserves(c: State, out: seq<Packet>, server: Side, back: seq<Packet>, call: Call, failure: Option<string>)
    requires Books(c) && Conserved(c, out, server, back)
    ensures var o := Open(c, call, failure); Conserved(o.state, out + o.sent, server, back)
  {
    FreshIdIsNew(c);
    hide Decimal, Books;
    var o := Open(c, call, failure);
    if c.closed {
      assert out + o.sent == out;
    } else {
      forall id ensures Places(o.state, out + o.sent, server, back, id) == One(id in o.state.issued) {
        assert Places(c, out, server, back, id) == One(id in c.issued);
        AskedAppend(out, o.sent, id);
        AskedOne(Request(Decimal(c.nextId), call), id);
      }
    }
  }

  lemma OpenAsCaller(c: State, out: seq<Packet>, server: Side, back: seq<Packet>, call: Call, failure: Option<string>)
    requires Direction(c, out, server, back)
    ensures var o := Open(c, call, failure); Direction(o.state, out + o.sent, server, back)
  {
    hide Open, Books, Faithful, Conserved;
    OpenKeepsBooks(c, call, failure);
    OpenKeepsFaithful(c, out, server, back, call, failure);
    OpenConserves(c, out, server, back, call, failure);
  }

  lemma CloseKeepsBooks(c: State, reason: Reason)
    requires Books(c)
    ensures Books(CloseAll(c, reason))
  {
    hide Decimal;
  }

  lemma ClosingRejectsThePending(c: State, reason: Reason)
    ensures var d := CloseAll(c, reason);
            && d.issued == c.issued && d.answered == c.answered
            && (c.closed ==> d == c)
            && (!c.closed ==> d.cause == Some(reason))
            && (!c.closed ==> forall id :: id in d.settled ==> (id in c.settled && c.settled[id] == d.settled[id]) || ClosesWith(reason, d.settled[id]))
  {
  }

  lemma CloseKeepsFaithful(c: State, out: seq<Packet>, server: Side, back: seq<Packet>, reason: Reason)
    requires Books(c) && Faithful(c, out, server, back)
    ensures Faithful(CloseAll(c, reason), out, server, back)
  {
    ClosedHasACause(c);
    hide CloseAll, Books, ClosesWith, Answers, AnswersEnd, SettlesAs;
    ClosingRejectsThePending(c, reason);
    var d := CloseAll(c, reason);
    forall id | id in d.settled ensures Explained(d, server, id) {
      if id in c.settled { assert Explained(c, server, id); }
    }
  }

  lemma ClosedHasACause(c: State)
    requires Books(c)
    ensures c.closed <==> c.cause.Some?
  {
  }

  lemma CloseAsCaller(c: State, out: seq<Packet>, server: Side, back: seq<Packet>, reason: Reason)
    requires Direction(c, out, server, back)
    ensures Direction(CloseAll(c, reason), out, server, back)
  {
    hide CloseAll, Books, Faithful;
    var d := CloseAll(c, reason);
    ClosingRejectsThePending(c, reason);
    CloseKeepsBooks(c, reason);
    CloseKeepsFaithful(c, out, server, back, reason);
    forall id ensures Places(d, out, server, back, id) == One(id in d.issued) {
      assert Places(c, out, server, back, id) == One(id in c.issued);
    }
  }

  lemma SettleKeepsBooks(c: State, id: string, answer: Answer)
    requires Books(c) && id in c.issued
    ensures Books(SettleOne(c, id, answer))
  {
    hide Decimal;
  }

  lemma SettleKeepsFaithful(c: State, out: seq<Packet>, server: Side, back: seq<Packet>)
    requires Faithful(c, out, server, back) && back != [] && back[0].Reply?
    ensures Faithful(SettleOne(c, back[0].id, back[0].answer), out, server, back[1..])
  {
    hide Answers, AnswersEnd, ClosesWith;
    var p := back[0];
    var d := SettleOne(c, p.id, p.answer);
    assert p in back;
    assert forall q :: q in back[1..] ==> q in back;
    forall id | id in d.settled ensures Explained(d, server, id) {
      if id in c.settled { assert Explained(c, server, id); }
    }
  }

  lemma SettleConserves(c: State, out: seq<Packet>, server: Side, back: seq<Packet>)
    requires Conserved(c, out, server, back) && back != [] && back[0].Reply?
    ensures Conserved(SettleOne(c, back[0].id, back[0].answer), out, server, back[1..])
  {
    var p := back[0];
    var d := SettleOne(c, p.id, p.answer);
    assert d.issued == c.issued && d.answered == c.answered + {p.id};
    hide SettleOne;
    forall id ensures Places(d, out, server, back[1..], id) == One(id in d.issued) {
      assert Places(c, out, server, back, id) == One(id in c.issued);
      FirstOf(back, id);
    }
  }

  /** The reply at the head of the channel ends its promise, with the answer the far end gave to that very call. */
  lemma SettleAsCaller(c: State, out: seq<Packet>, server: Side, back: seq<Packet>)
    requires Direction(c, out, server, back) && back != [] && back[0].Reply?
    ensures Direction(SettleOne(c, back[0].id, back[0].answer), out, server, back[1..])
  {
    assert back[0] in back;
    assert back[0].id in c.issued;
    hide Books, Faithful, Conserved, SettleOne;
    SettleKeepsBooks(c, back[0].id, back[0].answer);
    SettleKeepsFaithful(c, out, server, back);
    SettleConserves(c, out, server, back);
  }

  /** Packets of the other direction, and what the far end does for its own requests, change nothing here. */
  lemma OtherTraffic(c: State, out: seq<Packet>, out': seq<Packet>, server: Side, server': Side, back: seq<Packet>, back': seq<Packet>)
    requires Direction(c, out, server, back)
    requires forall id :: Asked(out', id) == Asked(out, id) && Replied(back', id) == Replied(back, id)
    requires (forall p :: p in out' && p.Request? ==> p in out) && (forall p :: p in back' && p.Reply? ==> p in back)
    requires server'.jobs == server.jobs && server'.answers == server.answers && server'.ends == server.ends && server'.dropped == server.dropped
    requires server.peer.closed ==> server'.peer.closed
    ensures Direction(c, out', server', back')
  {
    hide Books, AnswersEnd, ClosesWith, SettlesAs;
    forall id | id in c.settled ensures Explained(c, server', id) { assert Explained(c, server, id); }
    forall id | id in server'.answers ensures Answers(server', id) { assert Answers(server, id); }
    forall id ensures Places(c, out', server', back', id) == One(id in c.issued) {
      assert Places(c, out, server, back, id) == One(id in c.issued);
    }
  }

  /** Adding a packet that is no request, or no reply, leaves those counts alone; so does reading one. */
  lemma CountsAround(ps: seq<Packet>, p: Packet)
    ensures !p.Request? ==> forall id :: Asked(ps + [p], id) == Asked(ps, id)
    ensures !p.Reply? ==> forall id :: Replied(ps + [p], id) == Replied(ps, id)
    ensures ps != [] && !ps[0].Request? ==> forall id :: Asked(ps[1..], id) == Asked(ps, id)
    ensures ps != [] && !ps[0].Reply? ==> forall id :: Replied(ps[1..], id) == Replied(ps, id)
  {
    forall id
      ensures !p.Request? ==> Asked(ps + [p], id) == Asked(ps, id)
      ensures !p.Reply? ==> Replied(ps + [p], id) == Replied(ps, id)
      ensures ps != [] && !ps[0].Request? ==> Asked(ps[1..], id) == Asked(ps, id)
      ensures ps != [] && !ps[0].Reply? ==> Replied(ps[1..], id) == Replied(ps, id)
    {
      AskedAppend(ps, [p], id);
      AskedOne(p, id);
      if ps != [] { FirstOf(ps, id); }
    }
  }

  // ---------------------------------------------------------------- each action, as server

  lemma ServeKeepsFaithful(c: State, out: seq<Packet>, server: Side, back: seq<Packet>)
    requires Faithful(c, out, server, back) && out != [] && out[0].Request?
    ensures Faithful(c, out[1..], server.(jobs := server.jobs + [Job(out[0].id, out[0].call)]), back)
  {
    hide AnswersEnd, ClosesWith, SettlesAs;
    var after := server.(jobs := server.jobs + [Job(out[0].id, out[0].call)]);
    assert out[0] in out;
    assert forall p :: p in out[1..] ==> p in out;
    forall id | id in c.settled ensures Explained(c, after, id) { assert Explained(c, server, id); }
    forall id | id in after.answers ensures Answers(after, id) { assert Answers(server, id); }
  }

  lemma ServeAsServer(c: State, out: seq<Packet>, server: Side, back: seq<Packet>)
    requires Direction(c, out, server, back) && out != [] && out[0].Request?
    ensures Direction(c, out[1..], server.(jobs := server.jobs + [Job(out[0].id, out[0].call)]), back)
  {
    hide Books, Faithful;
    var job := Job(out[0].id, out[0].call);
    var after := server.(jobs := server.jobs + [job]);
    ServeKeepsFaithful(c, out, server, back);
    forall id ensures Places(c, out[1..], after, back, id) == One(id in c.issued) {
      assert Places(c, out, server, back, id) == One(id in c.issued);
      FirstOf(out, id);
      ServedAppend(server.jobs, [job], id);
      ServedOne(job, id);
    }
  }

  /** A call that is still to be answered has no reply on the way and no promise ended by one. */
  lemma NotYetAnswered(c: State, out: seq<Packet>, server: Side, back: seq<Packet>, id: string)
    requires Conserved(c, out, server, back) && Asked(out, id) + Served(server.jobs, id) > 0
    ensures id in c.issued && Asked(out, id) + Served(server.jobs, id) == 1
    ensures id !in c.answered && id !in server.dropped && forall p :: p in back && p.Reply? ==> p.id != id
  {
    assert Places(c, out, server, back, id) == One(id in c.issued);
    forall p | p in back && p.Reply? && p.id == id ensures false {
      RepliedIsCounted(back, p);
    }
  }

  lemma {:induction false} RepliedIsCounted(ps: seq<Packet>, p: Packet)
    requires p in ps && p.Reply?
    ensures Replied(ps, p.id) > 0
  {
    var n := |ps| - 1;
    if ps[n] != p {
      assert p in ps[..n];
      RepliedIsCounted(ps[..n], p);
    }
  }

  lemma AnswerConserves(
    c: State, out: seq<Packet>, server: Side, back: seq<Packet>, out': seq<Packet>, jobs: seq<Job>, job: Job, end: JobEnd, answer: Answer)
    requires Conserved(c, out, server, back)
    requires forall id :: Asked(out, id) + Served(server.jobs, id) == Asked(out', id) + Served(jobs, id) + One(id == job.id)
    ensures Conserved(c, out', AnswerJob(server.(jobs := jobs), job, end, answer), back + Respond(server.peer, job.id, answer))
  {
    var after, sent := AnswerJob(server.(jobs := jobs), job, end, answer), Respond(server.peer, job.id, answer);
    NotYetAnswered(c, out, server, back, job.id);
    forall id ensures Places(c, out', after, back + sent, id) == One(id in c.issued) {
      assert Places(c, out, server, back, id) == One(id in c.issued);
      assert Asked(out, id) + Served(server.jobs, id) == Asked(out', id) + Served(jobs, id) + One(id == job.id);
      AskedAppend(back, sent, id);
      AskedOne(Reply(job.id, answer), id);
    }
  }

  lemma AnswerKeepsFaithful(
    c: State, out: seq<Packet>, server: Side, back: seq<Packet>, out': seq<Packet>, jobs: seq<Job>, job: Job, end: JobEnd, answer: Answer)
    requires Books(c) && Faithful(c, out, server, back)
    requires job.id in c.issued && c.issued[job.id] == job.call
    requires job.id !in c.answered && job.id !in server.dropped && forall p :: p in back && p.Reply? ==> p.id != job.id
    requires AnswersEnd(end, job.call, answer)
    requires (forall p :: p in out' ==> p in out) && (forall j :: j in jobs ==> j in server.jobs)
    ensures Faithful(c, out', AnswerJob(server.(jobs := jobs), job, end, answer), back + Respond(server.peer, job.id, answer))
  {
    hide Books, AnswersEnd, ClosesWith, SettlesAs;
    var after := AnswerJob(server.(jobs := jobs), job, end, answer);
    forall id | id in c.settled ensures Explained(c, after, id) { assert Explained(c, server, id); }
    forall id | id in after.answers ensures Answers(after, id) {
      if id != job.id { assert Answers(server, id); }
    }
  }

  /** The far end answers a call: the reply is on its way, or lost with a closed channel. */
  lemma AnswerAsServer(
    c: State, out: seq<Packet>, server: Side, back: seq<Packet>, out': seq<Packet>, jobs: seq<Job>, job: Job, end: JobEnd, answer: Answer)
    requires Direction(c, out, server, back)
    requires job.id in c.issued && c.issued[job.id] == job.call
    requires forall id :: Asked(out, id) + Served(server.jobs, id) == Asked(out', id) + Served(jobs, id) + One(id == job.id)
    requires AnswersEnd(end, job.call, answer)
    requires (forall p :: p in out' ==> p in out) && (forall j :: j in jobs ==> j in server.jobs)
    ensures Direction(c, out', AnswerJob(server.(jobs := jobs), job, end, answer), back + Respond(server.peer, job.id, answer))
  {
    hide Books, Faithful, Conserved, AnswerJob, Respond, AnswersEnd;
    assert Asked(out, job.id) + Served(server.jobs, job.id) > 0;
    NotYetAnswered(c, out, server, back, job.id);
    AnswerConserves(c, out, server, back, out', jobs, job, end, answer);
    AnswerKeepsFaithful(c, out, server, back, out', jobs, job, end, answer);
  }

  lemma FinishAsServer(c: State, out: seq<Packet>, server: Side, back: seq<Packet>, k: nat, end: JobEnd, answer: Answer)
    requires Direction(c, out, server, back) && k < |server.jobs| && AnswersEnd(end, server.jobs[k].call, answer)
    ensures var job := server.jobs[k];
            Direction(c, out, AnswerJob(server.(jobs := server.jobs[..k] + server.jobs[k + 1..]), job, end, answer),
                      back + Respond(server.peer, job.id, answer))
  {
    var job, jobs := server.jobs[k], server.jobs[..k] + server.jobs[k + 1..];
    assert job in server.jobs;
    assert forall j :: j in jobs ==> j in server.jobs;
    assert job.id in c.issued && c.issued[job.id] == job.call;
    hide Direction, AnswerJob, Respond, AnswersEnd;
    forall id ensures Asked(out, id) + Served(server.jobs, id) == Asked(out, id) + Served(jobs, id) + One(id == job.id) {
      ServedWithout(server.jobs, k, id);
    }
    AnswerAsServer(c, out, server, back, out, jobs, job, end, answer);
  }

  lemma RefuseAsServer(c: State, out: seq<Packet>, server: Side, back: seq<Packet>, end: JobEnd, answer: Answer)
    requires Direction(c, out, server, back) && out != [] && out[0].Request? && AnswersEnd(end, out[0].call, answer)
    ensures var job := Job(out[0].id, out[0].call);
            Direction(c, out[1..], AnswerJob(server, job, end, answer), back + Respond(server.peer, job.id, answer))
  {
    var job := Job(out[0].id, out[0].call);
    assert out[0] in out;
    assert job.id in c.issued && c.issued[job.id] == job.call;
    assert forall p :: p in out[1..] ==> p in out;
    hide Direction, Respond, AnswersEnd;
    forall id ensures Asked(out, id) + Served(server.jobs, id) == Asked(out[1..], id) + Served(server.jobs, id) + One(id == job.id) {
      FirstOf(out, id);
    }
    assert server.(jobs := server.jobs) == server;
    AnswerAsServer(c, out, server, back, out[1..], server.jobs, job, end, answer);
  }

  // ---------------------------------------------------------------- runs

  lemma FailingKeeps(s: System, answer: Answer, unsent: Option<string>)
    ensures var t := Failing(s, answer, unsent);
            && (Direction(s.a.peer, s.ab, s.b, s.ba) ==> Direction(t.a.peer, t.ab, t.b, t.ba))
            && (Direction(s.b.peer, s.ba, s.a, s.ab) ==> Direction(t.b.peer, t.ba, t.a, t.ab))
  {
    hide Direction, CloseAll;
    if answer.Refused? && unsent.Some? {
      ClosingKeeps(s, Breakdown(unsent.value));
    } else {
      assert Failing(s, answer, unsent) == s;
    }
  }

  lemma ClosingKeeps(s: System, reason: Reason)
    ensures var t := s.(a := s.a.(peer := CloseAll(s.a.peer, reason)));
            && (Direction(s.a.peer, s.ab, s.b, s.ba) ==> Direction(t.a.peer, t.ab, t.b, t.ba))
            && (Direction(s.b.peer, s.ba, s.a, s.ab) ==> Direction(t.b.peer, t.ba, t.a, t.ab))
  {
    hide Direction, RejectionFor;
    if Direction(s.a.peer, s.ab, s.b, s.ba) { CloseAsCaller(s.a.peer, s.ab, s.b, s.ba, reason); }
    if Direction(s.b.peer, s.ba, s.a, s.ab) {
      OwnBusiness(s, s.a.(peer := CloseAll(s.a.peer, reason)), Notification(Call("", Null)), false, s.ba);
    }
  }

  lemma StepKeepsCaller(s: System, act: Action)
    requires Direction(s.a.peer, s.ab, s.b, s.ba)
    ensures var t := Step(s, act); Direction(t.a.peer, t.ab, t.b, t.ba)
  {
    hide Direction, Open, CloseAll, SettleOne, Places, AfterReply;
    match act {
      case OpenOne(call, failure) => OpenAsCaller(s.a.peer, s.ab, s.b, s.ba, call, failure);
      case Notify(event) =>
        CountsAround(s.ab, Notification(event));
        OtherTraffic(s.a.peer, s.ab, s.ab + [Notification(event)], s.b, s.b, s.ba, s.ba);
      case Read(unsent) => if s.ba != [] { ReadAsCaller(s, unsent); }
      case FinishJob(k, end, unsent) =>
        if k < |s.a.jobs| {
          FailingKeeps(s, AnswerOf(end), unsent);
          ReplyAsCaller(Failing(s, AnswerOf(end), unsent), s.ba, Reply(s.a.jobs[k].id, AnswerOf(end)));
        }
      case CloseNow(reason) => ClosingKeeps(s, reason);
    }
  }

  /** Sending a reply, or nothing, while reading no reply. */
  lemma ReplyAsCaller(s: System, back: seq<Packet>, p: Packet)
    requires Direction(s.a.peer, s.ab, s.b, s.ba) && p.Reply?
    requires back == s.ba || (s.ba != [] && !s.ba[0].Reply? && back == s.ba[1..])
    ensures Direction(s.a.peer, s.ab + (if s.a.peer.closed then [] else [p]), s.b, back)
    ensures Direction(s.a.peer, s.ab, s.b, back)
  {
    hide Direction, Places;
    CountsAround(s.ab, p);
    CountsAround(s.ba, p);
    assert forall q :: q in back ==> q in s.ba;
    assert s.ab + [] == s.ab;
    OtherTraffic(s.a.peer, s.ab, s.ab + (if s.a.peer.closed then [] else [p]), s.b, s.b, s.ba, back);
    OtherTraffic(s.a.peer, s.ab, s.ab, s.b, s.b, s.ba, back);
  }

  lemma ReadAsCaller(s: System, unsent: Option<string>)
    requires Direction(s.a.peer, s.ab, s.b, s.ba) && s.ba != []
    ensures var t := Step(s, Read(unsent)); Direction(t.a.peer, t.ab, t.b, t.ba)
  {
    hide Direction, SettleOne, AfterReply;
    match s.ba[0] {
      case Request(id, call) =>
        var t := if call.rpc in s.a.methods then s else Failing(s, NoHandler(call.rpc), unsent);
        FailingKeeps(s, NoHandler(call.rpc), unsent);
        ReplyAsCaller(t, s.ba[1..], Reply(id, NoHandler(call.rpc)));
      case Reply(id, answer) => SettleAsCaller(s.a.peer, s.ab, s.b, s.ba);
      case Notification(event) => ReplyAsCaller(s, s.ba[1..], Reply("", Refused("", "")));
    }
  }

  /** What the serving end does for itself: its own requests, notices and closing. */
  lemma OwnBusiness(s: System, a: Side, p: Packet, send: bool, ba: seq<Packet>)
    requires Direction(s.b.peer, s.ba, s.a, s.ab) && !p.Reply?
    requires a.jobs == s.a.jobs && a.answers == s.a.answers && a.ends == s.a.ends && a.dropped == s.a.dropped && (s.a.peer.closed ==> a.peer.closed)
    requires ba == s.ba || (s.ba != [] && !s.ba[0].Request? && ba == s.ba[1..])
    ensures Direction(s.b.peer, ba, a, s.ab + (if send then [p] else []))
    ensures Direction(s.b.peer, ba, a, s.ab)
  {
    hide Direction, Places;
    CountsAround(s.ab, p);
    CountsAround(s.ba, p);
    assert forall q :: q in ba ==> q in s.ba;
    assert s.ab + [] == s.ab;
    OtherTraffic(s.b.peer, s.ba, ba, s.a, a, s.ab, s.ab + (if send then [p] else []));
    OtherTraffic(s.b.peer, s.ba, ba, s.a, a, s.ab, s.ab);
  }

  lemma AnswerIsTheEnd(end: HandlerEnd, call: Call)
    ensures AnswersEnd(Handled(end), call, AnswerOf(end))
  {
  }

  lemma StepKeepsServer(s: System, act: Action)
    requires Direction(s.b.peer, s.ba, s.a, s.ab)
    ensures var t := Step(s, act); Direction(t.b.peer, t.ba, t.a, t.ab)
  {
    hide Direction, SettleOne, Decimal, CloseAll, AfterReply;
    match act {
      case OpenOne(call, failure) =>
        var o := Open(s.a.peer, call, failure);
        OwnBusiness(s, s.a.(peer := o.state), Request(Decimal(s.a.peer.nextId), call), o.sent != [], s.ba);
      case Notify(event) => OwnBusiness(s, s.a, Notification(event), true, s.ba);
      case Read(unsent) => if s.ba != [] { ReadAsServer(s, unsent); }
      case FinishJob(k, end, unsent) =>
        if k < |s.a.jobs| {
          FailingKeeps(s, AnswerOf(end), unsent);
          AnswerIsTheEnd(end, s.a.jobs[k].call);
          FinishAsServer(s.b.peer, s.ba, Failing(s, AnswerOf(end), unsent).a, s.ab, k, Handled(end), AnswerOf(end));
        }
      case CloseNow(reason) => ClosingKeeps(s, reason);
    }
  }

  lemma ReadAsServer(s: System, unsent: Option<string>)
    requires Direction(s.b.peer, s.ba, s.a, s.ab) && s.ba != []
    ensures var t := Step(s, Read(unsent)); Direction(t.b.peer, t.ba, t.a, t.ab)
  {
    hide Direction, AfterReply;
    match s.ba[0] {
      case Request(id, call) =>
        if call.rpc in s.a.methods {
          ServeAsServer(s.b.peer, s.ba, s.a, s.ab);
        } else {
          FailingKeeps(s, NoHandler(call.rpc), unsent);
          RefuseAsServer(s.b.peer, s.ba, Failing(s, NoHandler(call.rpc), unsent).a, s.ab, Unhandled, NoHandler(call.rpc));
        }
      case Reply(id, answer) =>
        OwnBusiness(s, s.a.(peer := SettleOne(s.a.peer, id, answer)), Notification(Call("", Null)), false, s.ba[1..]);
      case Notification(event) => OwnBusiness(s, s.a, Notification(event), false, s.ba[1..]);
    }
  }

  lemma NextKeepsInv(s: System, m: Move)
    requires Inv(s)
    ensures Inv(Next(s, m))
  {
    hide Direction, Step;
    var t := if m.byA then s else s.Swap();
    StepKeepsCaller(t, m.act);
    StepKeepsServer(t, m.act);
  }

  lemma {:induction false} RunKeepsInv(ma: set<string>, mb: set<string>, moves: seq<Move>)
    ensures Inv(Run(ma, mb, moves))
  {
    hide Inv, Next;
    if moves == [] {
      IdleHolds(ma, mb);
    } else {
      RunKeepsInv(ma, mb, moves[..|moves| - 1]);
      NextKeepsInv(Run(ma, mb, moves[..|moves| - 1]), moves[|moves| - 1]);
    }
  }

  lemma IdleHolds(ma: set<string>, mb: set<string>)
    ensures Inv(System(Idle(ma), Idle(mb), [], []))
  {
  }

  // ---------------------------------------------------------------- what opening and failing do

  /** An open end gives every call the next id and sends it; one that cannot be written is settled at once with the failure, and a closed end does nothing. */
  lemma OpeningIssues(c: State, call: Call, failure: Option<string>)
    requires Books(c)
    ensures var o, id := Open(c, call, failure), Decimal(c.nextId);
            && (c.closed ==> o == Opened(c, []))
            && (!c.closed ==> o.state.issued == c.issued[id := call] && id !in c.issued && o.state.nextId == c.nextId + 1)
            && (!c.closed && failure.None? ==>
                 && o.sent == [Request(id, call)] && o.state.pending == c.pending[id := call] && o.state.settled == c.settled)
            && (!c.closed && failure.Some? ==>
                 && o.sent == [] && o.state.pending == c.pending && o.state.settled == c.settled[id := Failed(failure.value)])
  {
    FreshIdIsNew(c);
    hide Decimal;
  }

  /** An error reply that cannot be written closes an open end, and everything it waits for fails with it; nothing else does. */
  lemma UnsentErrorCloses(c: State, answer: Answer, unsent: Option<string>)
    requires Books(c) && !c.closed
    ensures AfterReply(c, answer, unsent).closed <==> answer.Refused? && unsent.Some?
    ensures answer.Refused? && unsent.Some? ==>
              var d := AfterReply(c, answer, unsent);
              d.pending == map[] && forall id :: id in c.pending ==> id in d.settled && d.settled[id] == Failed(unsent.value)
    ensures !(answer.Refused? && unsent.Some?) ==> AfterReply(c, answer, unsent) == c
  {
    hide Numbered;
  }

  // ---------------------------------------------------------------- what the invariant says

  /**
   * While both ends are open, every issued id is in exactly one place: in flight, being served, its
   * reply in flight, or settled; and it is settled exactly when its reply has been read.
   */
  lemma ExactlyOnePlace(ma: set<string>, mb: set<string>, moves: seq<Move>, id: string)
    requires var s := Run(ma, mb, moves); id in s.a.peer.issued && !s.a.peer.closed && !s.b.peer.closed
    ensures var s := Run(ma, mb, moves);
            && Asked(s.ab, id) + Served(s.b.jobs, id) + Replied(s.ba, id) + One(id in s.a.peer.settled) == 1
            && (id in s.a.peer.pending <==> id !in s.a.peer.settled)
  {
    hide Run, Asked, Served, Replied;
    RunKeepsInv(ma, mb, moves);
    var s := Run(ma, mb, moves);
    assert Places(s.a.peer, s.ab, s.b, s.ba, id) == One(id in s.a.peer.issued);
  }

  /** So when nothing is under way any more, nothing is left pending. */
  lemma QuietMeansSettled(ma: set<string>, mb: set<string>, moves: seq<Move>)
    requires var s := Run(ma, mb, moves); !s.a.peer.closed && !s.b.peer.closed && s.ab == [] && s.ba == [] && s.b.jobs == []
    ensures Run(ma, mb, moves).a.peer.pending == map[]
  {
    hide Run;
    RunKeepsInv(ma, mb, moves);
    var s := Run(ma, mb, moves);
    forall id | id in s.a.peer.pending ensures false {
      ExactlyOnePlace(ma, mb, moves, id);
    }
  }

  /** How a request ended at the far end, and how the promise of it has to end. */
  ghost predicate EndedAs(e: JobEnd, call: Call, o: Outcome) {
    match e
    case Handled(Completed(v, None)) => o == Resolved(v)
    case Handled(Completed(_, Some(why))) => o == Rejected("internal", why)
    case Handled(Threw(None, message)) => o == Rejected("internal", message)
    case Handled(Threw(Some(code), message)) => o == Rejected(code, message)
    case Unhandled => o == Rejected("unknown_method", "No handler for " + call.rpc)
  }

  /**
   * A promise ends as its request did: with what the far handler returned or threw for that very call, or was
   * refused for want of one; unless it could not be sent, or its own end closed first and gave its reason.
   */
  lemma SettledAsItEnded(ma: set<string>, mb: set<string>, moves: seq<Move>, id: string)
    requires id in Run(ma, mb, moves).a.peer.settled
    ensures var s := Run(ma, mb, moves);
            || (id in s.b.ends && id in s.a.peer.issued && s.b.ends[id].0 == s.a.peer.issued[id]
                && EndedAs(s.b.ends[id].1, s.a.peer.issued[id], s.a.peer.settled[id]))
            || s.a.peer.settled[id].Failed?
            || (s.a.peer.cause.Some? && ClosesWith(s.a.peer.cause.value, s.a.peer.settled[id]))
  {
    hide Run, Places, ClosesWith;
    RunKeepsInv(ma, mb, moves);
    var s := Run(ma, mb, moves);
    assert Explained(s.a.peer, s.b, id);
    if id in s.b.answers { assert Answers(s.b, id); }
  }

  /** A resolved request carries what the far handler completed with, for that very call. */
  lemma ResolvedWithItsOwnResult(ma: set<string>, mb: set<string>, moves: seq<Move>, id: string)
    requires var s := Run(ma, mb, moves); id in s.a.peer.settled && s.a.peer.settled[id].Resolved?
    ensures var s := Run(ma, mb, moves);
            id in s.b.ends && id in s.a.peer.issued &&
            s.b.ends[id] == (s.a.peer.issued[id], Handled(Completed(s.a.peer.settled[id].value, None)))
  {
    hide Run;
    SettledAsItEnded(ma, mb, moves, id);
  }

  /** While its own end is open, a rejected request carries the code and message the far end gave that very call. */
  lemma RejectedForItsOwnReason(ma: set<string>, mb: set<string>, moves: seq<Move>, id: string)
    requires var s := Run(ma, mb, moves); id in s.a.peer.settled && s.a.peer.settled[id].Rejected? && !s.a.peer.closed
    ensures var s := Run(ma, mb, moves);
            id in s.b.ends && id in s.a.peer.issued && s.b.ends[id].0 == s.a.peer.issued[id]
            && EndedAs(s.b.ends[id].1, s.a.peer.issued[id], s.a.peer.settled[id])
  {
    hide Run, Places, EndedAs, Faithful;
    RunKeepsInv(ma, mb, moves);
    SettledAsItEnded(ma, mb, moves, id);
  }

  /** Closing settles everything outstanding, and nothing is opened behind it. */
  lemma ClosedLeavesNothingPending(ma: set<string>, mb: set<string>, moves: seq<Move>)
    requires Run(ma, mb, moves).a.peer.closed
    ensures var p := Run(ma, mb, moves).a.peer; p.pending == map[] && p.issued.Keys == p.settled.Keys
  {
    hide Run, Places;
    RunKeepsInv(ma, mb, moves);
  }

  /** A promise settles at most once: what it settled to never changes, and no id is issued twice. */
  lemma SettlesOnce(s: System, m: Move)
    requires Inv(s)
    ensures var t := Next(s, m);
            && (forall id :: id in s.a.peer.settled ==> id in t.a.peer.settled && t.a.peer.settled[id] == s.a.peer.settled[id])
            && (forall id :: id in s.a.peer.issued ==> id in t.a.peer.issued && t.a.peer.issued[id] == s.a.peer.issued[id])
  {
    hide Places, Faithful, Conserved, Books, Open, SettleOne, CloseAll, AfterReply, Respond;
    if m.byA {
      OwnPeer(s, m.act);
    } else {
      OthersPeer(s.Swap(), m.act);
    }
  }

  /** Nothing issued and nothing settled is taken back. */
  ghost predicate Grows(c: State, d: State) {
    && (forall id :: id in c.settled ==> id in d.settled && d.settled[id] == c.settled[id])
    && (forall id :: id in c.issued ==> id in d.issued && d.issued[id] == c.issued[id])
  }

  lemma OpeningGrows(c: State, call: Call, failure: Option<string>)
    requires Books(c)
    ensures Grows(c, Open(c, call, failure).state)
  {
    FreshIdIsNew(c);
    hide Decimal, Numbered;
  }

  lemma SettlingGrows(c: State, id: string, answer: Answer)
    requires Books(c)
    ensures Grows(c, SettleOne(c, id, answer))
  {
    hide Numbered, OutcomeOf;
  }

  lemma ClosingGrows(c: State, reason: Reason)
    requires Books(c)
    ensures Grows(c, CloseAll(c, reason))
  {
    hide Numbered, RejectionFor;
  }

  lemma StayingGrows(c: State)
    ensures Grows(c, c)
  {
  }

  lemma ReplyingGrows(c: State, answer: Answer, unsent: Option<string>)
    requires Books(c)
    ensures Grows(c, AfterReply(c, answer, unsent))
  {
    hide Grows, CloseAll;
    StayingGrows(c);
    if unsent.Some? { ClosingGrows(c, Breakdown(unsent.value)); }
  }

  /** What a step does to the peer that takes it. */
  lemma OwnPeer(s: System, act: Action)
    requires Books(s.a.peer)
    ensures Grows(s.a.peer, Step(s, act).a.peer)
  {
    hide Books, Grows, Open, Respond, AnswerOf, NoHandler, AfterReply, CloseAll, SettleOne;
    StayingGrows(s.a.peer);
    match act {
      case OpenOne(call, failure) => OpeningGrows(s.a.peer, call, failure);
      case Notify(event) =>
      case Read(unsent) =>
        if s.ba != [] {
          var p := s.ba[0];
          match p {
            case Request(id, call) => ReplyingGrows(s.a.peer, NoHandler(call.rpc), unsent);
            case Reply(id, answer) => SettlingGrows(s.a.peer, id, answer);
            case Notification(_) =>
          }
        }
      case FinishJob(k, end, unsent) => ReplyingGrows(s.a.peer, AnswerOf(end), unsent);
      case CloseNow(reason) => ClosingGrows(s.a.peer, reason);
    }
  }

  lemma OthersPeer(s: System, act: Action)
    ensures Step(s, act).b == s.b
  {
    hide Decimal, Respond, AnswerJob, Open, CloseAll, SettleOne, AfterReply;
  }

  /** An id left pending with nothing under way for it was answered by an end too closed to say so. */
  lemma StrandedOnlyByAClosedEnd(ma: set<string>, mb: set<string>, moves: seq<Move>, id: string)
    requires var s := Run(ma, mb, moves);
             id in s.a.peer.pending && Asked(s.ab, id) + Served(s.b.jobs, id) + Replied(s.ba, id) == 0
    ensures var s := Run(ma, mb, moves); s.b.peer.closed && id in s.b.dropped
  {
    hide Run, Asked, Served, Replied;
    RunKeepsInv(ma, mb, moves);
    var s := Run(ma, mb, moves);
    assert Places(s.a.peer, s.ab, s.b, s.ba, id) == One(id in s.a.peer.issued);
  }

  // ---------------------------------------------------------------- over the pipe

  ghost predicate Plain(p: Packet) {
    match p
    case Request(_, call) => Writable(call.params)
    case Reply(_, Returned(v)) => Writable(v)
    case Reply(_, Refused(_, _)) => true
    case Notification(event) => Writable(event.params)
  }

  lemma KeysOfTwo(f: Frame, key: string)
    requires |f| == 2
    ensures Key(f, key) == if f[1].0 == key then Some(f[1].1) else if f[0].0 == key then Some(f[0].1) else None
    ensures HasKey(f, key) <==> f[0].0 == key || f[1].0 == key
  {
    assert Key(f[..1], key) == if f[0].0 == key then Some(f[0].1) else Key([], key) by {
      assert f[..1][..0] == [];
    }
  }

  lemma KeysOfThree(f: Frame, key: string)
    requires |f| == 3
    ensures Key(f, key) ==
            if f[2].0 == key then Some(f[2].1) else if f[1].0 == key then Some(f[1].1) else if f[0].0 == key then Some(f[0].1) else None
    ensures HasKey(f, key) <==> f[0].0 == key || f[1].0 == key || f[2].0 == key
  {
    KeysOfTwo(f[..2], key);
  }

  lemma KeysDiffer()
    ensures "id" != "method" && "id" != "result" && "id" != "error" && "id" != "params" && "code" != "message"
    ensures "method" != "result" && "method" != "error" && "method" != "params" && "result" != "error"
    ensures "result" != "params" && "error" != "params"
  {
    assert "method"[0] != "result"[0] && "method"[0] != "params"[0] && "result"[0] != "params"[0];
  }

  /** A packet's frame can be sent, and is dispatched as that packet. */
  lemma FramesCarryPackets(p: Packet)
    requires Plain(p)
    ensures Sendable(FrameOf(p)) && Dispatch(FrameOf(p)) == Some(p)
  {
    KeysDiffer();
    match p {
      case Request(id, call) => RequestCarried(id, call);
      case Reply(id, Returned(v)) => ResultCarried(id, v);
      case Reply(id, Refused(code, message)) => ErrorCarried(id, code, message);
      case Notification(event) => NotificationCarried(event);
    }
  }

  lemma RequestCarried(id: string, call: Call)
    requires Writable(call.params)
    ensures Sendable(FrameOf(Request(id, call))) && Dispatch(FrameOf(Request(id, call))) == Some(Request(id, call))
  {
    var f := FrameOf(Request(id, call));
    KeysDiffer();
    KeysOfThree(f, "id");
    KeysOfThree(f, "method");
    KeysOfThree(f, "params");
    hide Key, HasKey;
    assert f[0] == ("id", Str(id)) && f[1] == ("method", Str(call.rpc)) && f[2] == ("params", call.params);
    assert HasKey(f, "id") && HasKey(f, "method");
    assert Writable(Obj(f));
  }

  lemma ResultCarried(id: string, v: Value)
    requires Writable(v)
    ensures Sendable(FrameOf(Reply(id, Returned(v)))) && Dispatch(FrameOf(Reply(id, Returned(v)))) == Some(Reply(id, Returned(v)))
  {
    var f := FrameOf(Reply(id, Returned(v)));
    KeysDiffer();
    KeysOfTwo(f, "id");
    KeysOfTwo(f, "method");
    KeysOfTwo(f, "result");
    hide Key, HasKey;
    assert f[0] == ("id", Str(id)) && f[1] == ("result", v);
    assert HasKey(f, "id") && HasKey(f, "result") && !HasKey(f, "method");
    assert Writable(Obj(f));
  }

  lemma ErrorCarried(id: string, code: string, message: string)
    ensures var p := Reply(id, Refused(code, message)); Sendable(FrameOf(p)) && Dispatch(FrameOf(p)) == Some(p)
  {
    var p := Reply(id, Refused(code, message));
    var f, inner := FrameOf(p), [("code", Str(code)), ("message", Str(message))];
    KeysDiffer();
    KeysOfTwo(f, "id");
    KeysOfTwo(f, "method");
    KeysOfTwo(f, "result");
    KeysOfTwo(f, "error");
    KeysOfTwo(inner, "code");
    KeysOfTwo(inner, "message");
    hide Key, HasKey;
    assert inner[0] == ("code", Str(code)) && inner[1] == ("message", Str(message));
    assert f[0] == ("id", Str(id)) && f[1] == ("error", Obj(inner));
    assert HasKey(f, "id") && HasKey(f, "error") && !HasKey(f, "method") && !HasKey(f, "result");
    assert Writable(Obj(inner));
    assert Writable(Obj(f));
  }

  lemma NotificationCarried(event: Call)
    requires Writable(event.params)
    ensures Sendable(FrameOf(Notification(event))) && Dispatch(FrameOf(Notification(event))) == Some(Notification(event))
  {
    var f := FrameOf(Notification(event));
    KeysDiffer();
    KeysOfTwo(f, "id");
    KeysOfTwo(f, "method");
    KeysOfTwo(f, "params");
    hide Key, HasKey;
    assert f[0] == ("method", Str(event.rpc)) && f[1] == ("params", event.params);
    assert HasKey(f, "method") && !HasKey(f, "id");
    assert Writable(Obj(f));
  }

  ghost predicate Holds(f: Frame, key: string, v: Value) {
    exists k :: 0 <= k < |f| && f[k] == (key, v) && forall j :: k < j < |f| ==> f[j].0 != key
  }

  lemma {:induction false} KeyHolds(f: Frame, key: string)
    ensures Key(f, key).None? <==> !HasKey(f, key)
    ensures Key(f, key).Some? ==> Holds(f, key, Key(f, key).value)
  {
    if f != [] {
      var n := |f| - 1;
      KeyHolds(f[..n], key);
      if f[n].0 == key {
        assert f[n] == (key, f[n].1);
      } else {
        if HasKey(f[..n], key) {
          var k :| 0 <= k < n && f[..n][k].0 == key;
          assert f[k].0 == key;
          var v := Key(f[..n], key).value;
          var at :| 0 <= at < n && f[..n][at] == (key, v) && forall j :: at < j < n ==> f[..n][j].0 != key;
          assert f[at] == (key, v) && forall j :: at < j < |f| ==> f[j].0 != key;
        }
        if k :| 0 <= k < |f| && f[k].0 == key { assert f[..n][k].0 == key; }
      }
    }
  }

  /** Shapes that overlap are told apart by the most specific key: a request before a result before an error. */
  lemma DispatchedBy(f: Frame, p: Packet)
    requires Dispatch(f) == Some(p)
    ensures p.Request? ==> Holds(f, "id", Str(p.id)) && Holds(f, "method", Str(p.call.rpc))
                           && (HasKey(f, "params") ==> Holds(f, "params", p.call.params)) && (!HasKey(f, "params") ==> p.call.params.Null?)
    ensures p.Reply? ==> Holds(f, "id", Str(p.id)) && !HasKey(f, "method")
    ensures p.Reply? && HasKey(f, "result") ==> p.answer.Returned? && Holds(f, "result", p.answer.value)
    ensures p.Reply? && !HasKey(f, "result") ==>
              p.answer.Refused? && exists e: Frame :: Holds(f, "error", Obj(e)) && Holds(e, "code", Str(p.answer.code)) && Holds(e, "message", Str(p.answer.message))
    ensures p.Notification? ==> !HasKey(f, "id") && Holds(f, "method", Str(p.event.rpc))
                                && (HasKey(f, "params") ==> Holds(f, "params", p.event.params)) && (!HasKey(f, "params") ==> p.event.params.Null?)
  {
    hide Key, HasKey, Holds;
    KeyHolds(f, "id");
    KeyHolds(f, "method");
    KeyHolds(f, "params");
    KeyHolds(f, "result");
    KeyHolds(f, "error");
    if p.Reply? && !HasKey(f, "result") {
      var e := Key(f, "error").value.members;
      KeyHolds(e, "code");
      KeyHolds(e, "message");
      assert Holds(f, "error", Obj(e));
    }
  }

  function FramesOf(ps: seq<Packet>): (fs: seq<Frame>)
    ensures |fs| == |ps|
  {
    seq(|ps|, k requires 0 <= k < |ps| => FrameOf(ps[k]))
  }

  /**
   * What one end writes, cut into any chunks that stay under the limit, is read at the other as the
   * same packets in the same order: the channels of the system above.
   */
  lemma PacketsSurviveThePipe(ps: seq<Packet>, limit: nat, chunks: seq<string>)
    requires (forall p :: p in ps ==> Plain(p)) && Concat(chunks) == EncodeAll(FramesOf(ps))
    requires StaysUnder("", limit, chunks)
    ensures PushAll("", limit, chunks) == Drained(Frames(FramesOf(ps)), "")
    ensures forall k :: 0 <= k < |ps| ==> Dispatch(FramesOf(ps)[k]) == Some(ps[k])
  {
    hide Sendable, FrameOf, Dispatch, Plain;
    forall k | 0 <= k < |ps| ensures Sendable(FramesOf(ps)[k]) && Dispatch(FramesOf(ps)[k]) == Some(ps[k]) {
      FramesCarryPackets(ps[k]);
    }
    PipeDelivers(FramesOf(ps), limit, chunks);
  }
}
