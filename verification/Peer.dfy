/**
 * One end of the channel: requests it opens, requests it serves, and the replies that join them.
 */
module Peer {
  import opened Text
  import opened Json
  import opened Protocol

  datatype Call = Call(rpc: string, params: Value)

  datatype Answer = Returned(value: Value) | Refused(code: string, message: string)

  datatype Packet =
    | Request(id: string, call: Call)
    | Reply(id: string, answer: Answer)
    | Notification(event: Call)

  /** How a promise ended; `Failed` is an error of the transport, which has no code. */
  datatype Outcome = Resolved(value: Value) | Rejected(code: string, message: string) | Failed(why: string)

  /** Why an end closes. */
  datatype Reason = Unsaid | Coded(code: string, message: string) | Breakdown(why: string)

  function RejectionFor(reason: Reason): Outcome {
    match reason
    case Unsaid => Rejected(PEER_CLOSED, "Channel closed")
    case Coded(code, message) => Rejected(code, message)
    case Breakdown(why) => Failed(why)
  }

  /**
   * What one end holds for the requests it opened. `issued`, `settled`, `answered` and `cause` record what
   * has happened: which calls got an id, how their promises ended, which of them a reply ended, and why the
   * end closed.
   */
  datatype State = State(
    nextId: nat, pending: map<string, Call>, closed: bool,
    issued: map<string, Call>, settled: map<string, Outcome>, answered: set<string>, cause: Option<Reason>)

  const FRESH := State(1, map[], false, map[], map[], {}, None)

  const PEER_CLOSED := "peer_closed"
  const UNKNOWN_METHOD := "unknown_method"
  const INTERNAL := "internal"

  function OutcomeOf(a: Answer): Outcome {
    match a
    case Returned(v) => Resolved(v)
    case Refused(code, message) => Rejected(code, message)
  }

  datatype Opened = Opened(state: State, sent: seq<Packet>)

  /** Opening a request; `failure` is what the transport says when the frame cannot be written. */
  function Open(st: State, call: Call, failure: Option<string>): Opened {
    if st.closed then Opened(st, [])
    else
      var id := Decimal(st.nextId);
      var next := st.(nextId := st.nextId + 1, issued := st.issued[id := call]);
      if failure.None? then Opened(next.(pending := next.pending[id := call]), [Request(id, call)])
      else Opened(next.(settled := next.settled[id := Failed(failure.value)], answered := next.answered + {id}), [])
  }

  function CloseAll(st: State, reason: Reason): State {
    if st.closed then st
    else st.(closed := true, pending := map[], cause := Some(reason),
             settled := st.settled + map id | id in st.pending :: RejectionFor(reason))
  }

  /** A reply nobody waits for is dropped. */
  function SettleOne(st: State, id: string, answer: Answer): State {
    var heard := st.(answered := st.answered + {id});
    if id !in st.pending then heard
    else heard.(pending := st.pending - {id}, settled := st.settled[id := OutcomeOf(answer)])
  }

  function Respond(st: State, id: string, answer: Answer): seq<Packet> {
    if st.closed then [] else [Reply(id, answer)]
  }

  /** An error reply that cannot be written either is fatal: it closes the end that wrote it. */
  function AfterReply(st: State, answer: Answer, unsent: Option<string>): State {
    if answer.Refused? && unsent.Some? then CloseAll(st, Breakdown(unsent.value)) else st
  }

  /**
   * What a handler's end becomes. A result that cannot be written is answered like a throw, because it
   * is written inside the handler's own guard.
   */
  datatype HandlerEnd = Completed(value: Value, unwritable: Option<string>) | Threw(code: Option<string>, message: string)

  function AnswerOf(end: HandlerEnd): Answer {
    match end
    case Completed(v, None) => Returned(v)
    case Completed(_, Some(why)) => Refused(INTERNAL, why)
    case Threw(None, message) => Refused(INTERNAL, message)
    case Threw(Some(code), message) => Refused(code, message)
  }

  /** What one packet does to the end that reads it: its new state, a request it now serves, and what it writes. */
  datatype Taken = Taken(state: State, serving: Option<Packet>, sent: seq<Packet>)

  function NoHandler(rpc: string): Answer { Refused(UNKNOWN_METHOD, "No handler for " + rpc) }

  function Take(st: State, methods: set<string>, p: Packet, unsent: Option<string>): Taken {
    match p
    case Request(id, call) =>
      if call.rpc in methods then Taken(st, Some(p), [])
      else
        var now := AfterReply(st, NoHandler(call.rpc), unsent);
        Taken(now, None, Respond(now, id, NoHandler(call.rpc)))
    case Reply(id, answer) => Taken(SettleOne(st, id, answer), None, [])
    case Notification(_) => Taken(st, None, [])
  }

  class RpcPeer {
    var nextId: nat
    var pending: map<string, Call>
    var closed: bool
    var methods: set<string>
    ghost var issued: map<string, Call>
    ghost var settled: map<string, Outcome>
    ghost var answered: set<string>
    ghost var cause: Option<Reason>

    constructor ()
      ensures Abs() == FRESH && methods == {}
    {
      nextId, pending, closed, methods := 1, map[], false, {};
      issued, settled, answered, cause := map[], map[], {}, None;
    }

    ghost function Abs(): State
      reads this
    {
      State(nextId, pending, closed, issued, settled, answered, cause)
    }

    method OpenRequest(call: Call, failure: Option<string>) returns (sent: seq<Packet>)
      modifies this`nextId, this`pending, this`closed, this`issued, this`settled, this`answered, this`cause
      ensures Opened(Abs(), sent) == Open(old(Abs()), call, failure)
    {
      if closed {
        return [];
      }
      var id := Decimal(nextId);
      nextId := nextId + 1;
      issued := issued[id := call];
      if failure.Some? {
        settled, answered := settled[id := Failed(failure.value)], answered + {id};
        return [];
      }
      pending := pending[id := call];
      return [Request(id, call)];
    }

    method Handle(rpc: string)
      modifies this`methods
      ensures methods == old(methods) + {rpc} && Abs() == old(Abs())
    {
      methods := methods + {rpc};
    }

    /** Reads one packet; the most specific shape is asked for first. */
    method Receive(p: Packet, unsent: Option<string>) returns (serving: Option<Packet>, sent: seq<Packet>)
      modifies this
      ensures Taken(Abs(), serving, sent) == Take(old(Abs()), methods, p, unsent) && methods == old(methods)
    {
      match p {
        case Request(id, call) =>
          if call.rpc in methods {
            return Some(p), [];
          }
          sent := WriteReply(id, NoHandler(call.rpc), unsent);
          return None, sent;
        case Reply(id, answer) =>
          Settle(id, answer);
          return None, [];
        case Notification(_) =>
          return None, [];
      }
    }

    method Close(reason: Reason)
      modifies this`nextId, this`pending, this`closed, this`issued, this`settled, this`answered, this`cause
      ensures Abs() == CloseAll(old(Abs()), reason)
    {
      if closed {
        return;
      }
      closed := true;
      cause := Some(reason);
      settled := settled + map id | id in pending :: RejectionFor(reason);
      pending := map[];
    }

    method Settle(id: string, answer: Answer)
      modifies this`nextId, this`pending, this`closed, this`issued, this`settled, this`answered, this`cause
      ensures Abs() == SettleOne(old(Abs()), id, answer)
    {
      answered := answered + {id};
      if id !in pending {
        return;
      }
      pending := pending - {id};
      settled := settled[id := OutcomeOf(answer)];
    }

    /** Writes an answer; `unsent` is what the transport says when it cannot write an error reply. */
    method WriteReply(id: string, answer: Answer, unsent: Option<string>) returns (sent: seq<Packet>)
      modifies this`nextId, this`pending, this`closed, this`issued, this`settled, this`answered, this`cause
      ensures Abs() == AfterReply(old(Abs()), answer, unsent) && sent == Respond(Abs(), id, answer)
    {
      if closed {
        return [];
      }
      if answer.Refused? && unsent.Some? {
        Close(Breakdown(unsent.value));
        return [];
      }
      return [Reply(id, answer)];
    }

    method ServeEnd(id: string, end: HandlerEnd, unsent: Option<string>) returns (sent: seq<Packet>)
      modifies this`nextId, this`pending, this`closed, this`issued, this`settled, this`answered, this`cause
      ensures Abs() == AfterReply(old(Abs()), AnswerOf(end), unsent) && sent == Respond(Abs(), id, AnswerOf(end))
    {
      sent := WriteReply(id, AnswerOf(end), unsent);
    }
  }

  // ---------------------------------------------------------------- packets as frames

  function FrameOf(p: Packet): Frame {
    match p
    case Request(id, call) => [("id", Str(id)), ("method", Str(call.rpc)), ("params", call.params)]
    case Reply(id, Returned(v)) => [("id", Str(id)), ("result", v)]
    case Reply(id, Refused(code, message)) =>
      [("id", Str(id)), ("error", Obj([("code", Str(code)), ("message", Str(message))]))]
    case Notification(event) => [("method", Str(event.rpc)), ("params", event.params)]
  }

  function Key(f: Frame, key: string): Option<Value> {
    if f == [] then None else if f[|f| - 1].0 == key then Some(f[|f| - 1].1) else Key(f[..|f| - 1], key)
  }

  function TextIn(v: Option<Value>): Option<string> { if v.Some? && v.value.Str? then Some(v.value.s) else None }

  function CallIn(f: Frame): Option<Call> {
    var rpc := TextIn(Key(f, "method"));
    if rpc.None? then None else Some(Call(rpc.value, if Key(f, "params").Some? then Key(f, "params").value else Null))
  }

  /** The shapes overlap, so the most specific question is asked first. */
  function Dispatch(f: Frame): Option<Packet> {
    var id, call := TextIn(Key(f, "id")), CallIn(f);
    if IsRequest(f) then (if id.Some? && call.Some? then Some(Request(id.value, call.value)) else None)
    else if IsResult(f) then
      (if id.Some? && Key(f, "result").Some? then Some(Reply(id.value, Returned(Key(f, "result").value))) else None)
    else if IsError(f) then
      var error := Key(f, "error");
      if !id.Some? || !error.Some? || !error.value.Obj? then None
      else
        var code, message := TextIn(Key(error.value.members, "code")), TextIn(Key(error.value.members, "message"));
        if code.Some? && message.Some? then Some(Reply(id.value, Refused(code.value, message.value))) else None
    else if IsNotification(f) then (if call.Some? then Some(Notification(call.value)) else None)
    else None
  }
}
