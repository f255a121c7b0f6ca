/**
  Effect uncertainty over TCP: the voltage driver and the simulator that it talks
  to, linked by two byte streams that may be cut anywhere.

  Serialising and parsing JSON are inverse and a frame ends in its only newline,
  so a byte carries the message that it is a part of and its place in it.
*/
module TcpEffects {
  import opened Wrappers

  datatype Op = Hello | Apply | Read | Close

  datatype Message =
    | Request(id: nat, op: Op, value: real)
    | Response(id: nat, op: Op, ok: bool, value: real)
    | Noise(text: int)

  datatype Byte = Byte(message: Message, length: nat, index: nat)

  const MAXIMUM_FRAME := 1024
  const BUFFER := 256
  /** No request of this client is longer: five keys, a 64-bit number and a double. */
  const REQUEST_LIMIT := 128

  predicate Newline(b: Byte) {
    b.index + 1 == b.length
  }

  function Frame(m: Message, length: nat): seq<Byte> {
    seq(length, i requires 0 <= i < length => Byte(m, length, i))
  }

  function Parse(frame: seq<Byte>): Option<Message> {
    if frame != [] && frame == Frame(frame[0].message, |frame|) then Some(frame[0].message) else None
  }

  predicate HasNewline(bytes: seq<Byte>) {
    exists i :: 0 <= i < |bytes| && Newline(bytes[i])
  }

  /** The first newline is the last byte. */
  predicate EndsInNewline(bytes: seq<Byte>) {
    bytes != [] && Newline(bytes[|bytes| - 1]) && !HasNewline(bytes[..|bytes| - 1])
  }

  // ----------------------------------------------------------- the simulator

  datatype Reason =
    | IdleExpired
    | WriteFailed
    | ClientGone
    | RequestTooLong
    | Pipelined
    | Malformed
    | Sequence
    | HelloRequired
    | InvalidVoltage
    | UnknownOperation

  datatype Effect = Effect(id: nat, value: real)

  /** What the server keeps for one client; `processed` says how it answered each request. */
  datatype Connection = Connection(
    open: bool,
    reason: Option<Reason>,
    lastId: nat,
    hello: bool,
    voltage: real,
    input: seq<Byte>,
    reply: seq<Byte>,
    closeAfterReply: bool,
    processed: map<nat, (Op, real)>,
    journal: seq<Effect>)

  const CONNECTED := Connection(true, None, 0, false, 0.0, [], [], false, map[], [])

  datatype Taken = More(c: Connection) | Served(c: Connection, id: nat) | Rejected(reason: Reason)

  /** What the server does with bytes that it has received. */
  function Take(c: Connection, bytes: seq<Byte>): Taken {
    var input := c.input + bytes;
    if |input| > MAXIMUM_FRAME then Rejected(RequestTooLong)
    else if !HasNewline(input) then More(c.(input := input))
    else if !EndsInNewline(input) then Rejected(Pipelined)
    else
      match Parse(input)
      case Some(Request(id, op, value)) =>
        if id <= c.lastId then Rejected(Sequence)
        else Execute(c.(input := [], lastId := id), id, op, value)
      case _ => Rejected(Malformed)
  }

  function Execute(c: Connection, id: nat, op: Op, value: real): Taken {
    if op.Hello? && !c.hello then Served(c.(hello := true, processed := c.processed[id := (op, c.voltage)]), id)
    else if !c.hello then Rejected(HelloRequired)
    else if op.Apply? then
      if 0.0 <= value <= 60.0 then
        Served(c.(voltage := value, processed := c.processed[id := (op, value)], journal := c.journal + [Effect(id, value)]), id)
      else Rejected(InvalidVoltage)
    else if op.Read? || op.Close? then Served(c.(processed := c.processed[id := (op, c.voltage)]), id)
    else Rejected(UnknownOperation)
  }

  function After(c: Connection, taken: Taken): Connection {
    if taken.Rejected? then c.(open := false, reason := Some(taken.reason)) else taken.c
  }

  /** A positive acknowledgement is only ever given for a request that was processed, with what it answered. */
  predicate Honest(b: Byte, processed: map<nat, (Op, real)>) {
    b.message.Response? && b.message.ok ==>
      b.message.id in processed && processed[b.message.id] == (b.message.op, b.message.value)
  }

  predicate AllHonest(bytes: seq<Byte>, processed: map<nat, (Op, real)>) {
    forall i :: 0 <= i < |bytes| ==> Honest(bytes[i], processed)
  }

  // ------------------------------------------------------------ the invariant

  /** The last request of the client, how many bytes of it TCP has taken, and whether its answer has been accepted. */
  datatype Flight = Flight(id: nat, op: Op, value: real, frame: seq<Byte>, offset: nat, acknowledged: bool)

  ghost predicate WellFormed(f: Flight) {
    && 0 < |f.frame| <= REQUEST_LIMIT && f.frame == Frame(Request(f.id, f.op, f.value), |f.frame|)
    && f.offset <= |f.frame| && (f.op.Apply? ==> 0.0 <= f.value <= 60.0)
  }

  /** At most one request is on its way, and the server can only want what it carries. */
  ghost predicate Channel(flight: Option<Flight>, toServer: seq<Byte>, c: Connection) {
    match flight
    case None => c.input + toServer == [] && !c.hello
    case Some(f) =>
      if f.id in c.processed then c.input + toServer == []
      else f.offset <= |f.frame| && c.input + toServer == f.frame[..f.offset] && c.hello == !f.op.Hello?
  }

  /** What the server knows of the last request: nothing, or exactly that request, all of which was sent. */
  ghost predicate Faithful(flight: Option<Flight>, c: Connection) {
    && (forall id :: id in c.processed ==> id <= c.lastId)
    && match flight
       case None => c.lastId == 0 && c.processed == map[]
       case Some(f) =>
         if f.id in c.processed then
           && f.offset == |f.frame| && c.lastId == f.id && c.hello
           && c.processed[f.id] == (f.op, c.voltage) && (f.op.Apply? ==> c.voltage == f.value)
         else c.lastId < f.id && !f.acknowledged
  }

  /** The last request is an apply whose answer was not accepted, yet it was processed. */
  predicate InDoubt(flight: Option<Flight>, processed: map<nat, (Op, real)>) {
    flight.Some? && flight.value.op.Apply? && !flight.value.acknowledged && flight.value.id in processed
  }

  function LastValue(journal: seq<Effect>): real {
    if journal == [] then 0.0 else journal[|journal| - 1].value
  }

  /** The journal is the confirmed effects, in order, and at most the last request's on top. */
  ghost predicate Ledger(flight: Option<Flight>, confirmed: seq<Effect>, c: Connection) {
    && c.journal == confirmed + (if InDoubt(flight, c.processed) then [Effect(flight.value.id, flight.value.value)] else [])
    && c.voltage == LastValue(c.journal) && 0.0 <= c.voltage <= 60.0
  }

  predicate Benign(reason: Option<Reason>) {
    reason.None? || reason.value.IdleExpired? || reason.value.WriteFailed? || reason.value.ClientGone?
  }

  ghost predicate LinkInv(flight: Option<Flight>, confirmed: seq<Effect>, toServer: seq<Byte>, toClient: seq<Byte>, c: Connection) {
    && (flight.Some? ==> WellFormed(flight.value))
    && (c.open ==> Channel(flight, toServer, c))
    && Faithful(flight, c) && Ledger(flight, confirmed, c) && Benign(c.reason)
    && AllHonest(toClient, c.processed) && AllHonest(c.reply, c.processed)
  }

  // ------------------------------------------------------ the server's lemmas

  lemma FrameParses(m: Message, length: nat)
    requires length > 0
    ensures Parse(Frame(m, length)) == Some(m)
    ensures EndsInNewline(Frame(m, length)) && HasNewline(Frame(m, length))
  {
    var frame := Frame(m, length);
    assert Newline(frame[length - 1]);
  }

  lemma PrefixHasNoNewline(m: Message, length: nat, n: nat)
    requires n < length
    ensures !HasNewline(Frame(m, length)[..n])
  {
  }

  /** Which requests the server serves, what it then keeps, and the first reason why it drops the client instead. */
  lemma RequestsAnswered(c: Connection, bytes: seq<Byte>, id: nat, op: Op, value: real, length: nat)
    requires length > 0 && c.input + bytes == Frame(Request(id, op, value), length)
    ensures Take(c, bytes) ==
            if length > 1024 then Rejected(RequestTooLong)
            else if id <= c.lastId then Rejected(Sequence)
            else if !c.hello && op != Hello then Rejected(HelloRequired)
            else if c.hello && op == Hello then Rejected(UnknownOperation)
            else if op == Apply && !(0.0 <= value <= 60.0) then Rejected(InvalidVoltage)
            else
              var volts := if op == Apply then value else c.voltage;
              Served(Connection(c.open, c.reason, id, true, volts, [], c.reply, c.closeAfterReply, c.processed[id := (op, volts)],
                                c.journal + (if op == Apply then [Effect(id, value)] else [])), id)
    ensures var t := Take(c, bytes);
            t.Rejected? ==> !After(c, t).open && After(c, t).reason == Some(t.reason) && After(c, t).journal == c.journal
  {
    FrameParses(Request(id, op, value), length);
    FrameLength(Request(id, op, value), length);
    assert c.journal + [] == c.journal;
  }

  /** What is not one whole request is waited for or refused. */
  lemma OtherInputRefused(c: Connection, bytes: seq<Byte>)
    ensures var input := c.input + bytes;
            && (|input| > 1024 ==> Take(c, bytes) == Rejected(RequestTooLong))
            && (|input| <= 1024 && (forall i :: 0 <= i < |input| ==> input[i].index + 1 != input[i].length) ==>
                  Take(c, bytes) == More(c.(input := input)))
            && (|input| <= 1024 && (exists i :: 0 <= i < |input| - 1 && input[i].index + 1 == input[i].length) ==>
                  Take(c, bytes) == Rejected(Pipelined))
            && (|input| <= 1024 && EndsInNewline(input) && !(exists id, op, value :: input == Frame(Request(id, op, value), |input|)) ==>
                  Take(c, bytes) == Rejected(Malformed))
  {
    var input := c.input + bytes;
    if EndsInNewline(input) { EndHasNewline(input); }
    if exists i :: 0 <= i < |input| - 1 && input[i].index + 1 == input[i].length {
      var i :| 0 <= i < |input| - 1 && input[i].index + 1 == input[i].length;
      assert Newline(input[i]) && Newline(input[..|input| - 1][i]);
    }
    if HasNewline(input) && EndsInNewline(input) && Parse(input).Some? && Parse(input).value.Request? {
      var m := Parse(input).value;
      assert input == Frame(Request(m.id, m.op, m.value), |input|);
    }
  }

  /** Whatever piece of the request arrives, the server waits for more or processes exactly that request. */
  lemma TakeServes(f: Flight, toServer: seq<Byte>, c: Connection, n: nat)
    requires WellFormed(f) && Channel(Some(f), toServer, c) && Faithful(Some(f), c) && 0 < n <= |toServer|
    ensures f.id !in c.processed
    ensures Take(c, toServer[..n]) ==
            (if |c.input| + n < |f.frame| then More(c.(input := c.input + toServer[..n]))
             else Execute(c.(input := [], lastId := f.id), f.id, f.op, f.value))
    ensures |c.input| + n >= |f.frame| ==> n == |toServer| && f.offset == |f.frame|
  {
    hide Frame, Parse, EndsInNewline;
    var input := c.input + toServer[..n];
    assert f.id !in c.processed;
    assert c.input + toServer == f.frame[..f.offset];
    assert input == (c.input + toServer)[..|c.input| + n];
    assert input == f.frame[..|c.input| + n];
    var m := Request(f.id, f.op, f.value);
    if |input| < |f.frame| {
      PrefixHasNoNewline(m, |f.frame|, |input|);
    } else {
      assert input == f.frame;
      FrameParses(m, |f.frame|);
    }
  }

  lemma ExecuteServes(f: Flight, confirmed: seq<Effect>, c: Connection)
    requires Faithful(Some(f), c) && f.id !in c.processed && c.hello == !f.op.Hello? && f.offset == |f.frame|
    requires f.op.Apply? ==> 0.0 <= f.value <= 60.0
    requires Ledger(Some(f), confirmed, c)
    ensures var t := Execute(c.(input := [], lastId := f.id), f.id, f.op, f.value);
            && t.Served? && t.id == f.id && f.id in t.c.processed
            && t.c.open == c.open && t.c.reason == c.reason && t.c.reply == c.reply && t.c.input == []
            && t.c.processed == c.processed[f.id := (f.op, t.c.voltage)]
            && Faithful(Some(f), t.c) && Ledger(Some(f), confirmed, t.c)
  {
  }

  /** Requests are only ever added to what was processed. */
  ghost predicate Extends(before: map<nat, (Op, real)>, now: map<nat, (Op, real)>) {
    forall id :: id in before ==> id in now && now[id] == before[id]
  }

  lemma StillHonest(bytes: seq<Byte>, before: map<nat, (Op, real)>, now: map<nat, (Op, real)>)
    requires AllHonest(bytes, before) && Extends(before, now)
    ensures AllHonest(bytes, now)
  {
  }

  /** The acknowledgement that the simulator gives when no policy interferes; its length depends on the numbers in it. */
  function Acknowledgement(c: Connection, id: nat, length: nat): seq<Byte>
    requires id in c.processed
  {
    Frame(Response(id, c.processed[id].0, true, c.processed[id].1), length)
  }

  datatype Link = Link(toServer: seq<Byte>, toClient: seq<Byte>, c: Connection)

  function Least(a: nat, b: nat): nat {
    if a < b then a else b
  }

  /** The server hands the first n bytes of its reply to TCP. */
  function Sends(l: Link, n: nat): Link
    requires n <= |l.c.reply|
  {
    Link(l.toServer, l.toClient + l.c.reply[..n],
         l.c.(reply := l.c.reply[n..], open := l.c.open && !(l.c.closeAfterReply && n == |l.c.reply|)))
  }

  /** The server receives n bytes and acknowledges what it served in a line of the given length. */
  function Receives(l: Link, n: nat, length: nat): Link
    requires n <= |l.toServer|
  {
    var taken := Take(l.c, l.toServer[..n]);
    var c := After(l.c, taken);
    if taken.Served? && taken.id in c.processed then
      Link(l.toServer[n..], l.toClient,
           c.(reply := Acknowledgement(c, taken.id, length), closeAfterReply := c.processed[taken.id].0.Close?))
    else Link(l.toServer[n..], l.toClient, c)
  }

  /** A turn in which nothing is dropped or altered, and what can move does, in pieces of any size. */
  ghost predicate CalmTurn(before: Link, now: Link) {
    if !before.c.open then now == before
    else if before.c.reply != [] then exists n :: 0 < n <= |before.c.reply| && now == Sends(before, n)
    else if before.toServer == [] then now == before
    else exists n, length :: 0 < n <= |before.toServer| && n <= BUFFER && 0 < length <= MAXIMUM_FRAME && now == Receives(before, n, length)
  }

  class Simulator {
    var toServer: seq<Byte>
    var toClient: seq<Byte>
    var c: Connection

    constructor ()
      ensures toServer == [] && toClient == [] && c == CONNECTED
    {
      toServer, toClient, c := [], [], CONNECTED;
    }

    ghost predicate Linked(flight: Option<Flight>, confirmed: seq<Effect>)
      reads this
    {
      LinkInv(flight, confirmed, toServer, toClient, c)
    }

    /** The server drops the connection. */
    method Drop(reason: Option<Reason>, ghost flight: Option<Flight>, ghost confirmed: seq<Effect>)
      requires Linked(flight, confirmed) && Benign(reason)
      modifies `c
      ensures Linked(flight, confirmed) && c == old(c).(open := false, reason := reason)
    {
      c := c.(open := false, reason := reason);
    }

    ghost function View(): Link
      reads this
    {
      Link(toServer, toClient, c)
    }

    /** One turn of the event loop for this client. Unless the link is calm, its length and the policy's answer are arbitrary. */
    method Turn(calm: bool, ghost flight: Option<Flight>, ghost confirmed: seq<Effect>)
      requires Linked(flight, confirmed)
      modifies this
      ensures Linked(flight, confirmed) && Extends(old(c).processed, c.processed)
      ensures calm ==> CalmTurn(old(View()), View())
    {
      hide Frame, Ledger, Faithful, AllHonest, Take, Receives;
      if !c.open {
        return;
      }
      var idle := *;
      if !calm && idle {
        Drop(Some(IdleExpired), flight, confirmed);
      } else if c.reply != [] {
        SendReply(calm, flight, confirmed);
      } else {
        assert Least(|toServer|, BUFFER) <= |toServer|;
        var n: nat :| n <= |toServer| && n <= BUFFER && (calm && toServer != [] ==> n > 0);
        var gone := *;
        if n > 0 {
          ReceiveRequest(n, calm, flight, confirmed);
        } else if !calm && gone {
          Drop(Some(ClientGone), flight, confirmed);
        }
      }
    }

    method SendReply(calm: bool, ghost flight: Option<Flight>, ghost confirmed: seq<Effect>)
      requires Linked(flight, confirmed) && c.open && c.reply != []
      modifies this
      ensures Linked(flight, confirmed) && c.processed == old(c).processed
      ensures calm ==> exists n :: 0 < n <= |old(c).reply| && View() == Sends(old(View()), n)
    {
      hide Frame, Ledger, Faithful, Channel;
      var failed := *;
      if !calm && failed {
        Drop(Some(WriteFailed), flight, confirmed);
        return;
      }
      assert 0 < |c.reply| <= |c.reply|;
      var n: nat :| n <= |c.reply| && (calm ==> n > 0);
      toClient := toClient + c.reply[..n];
      c := c.(reply := c.reply[n..]);
      LinkedExceptReply(flight, confirmed, old(toServer), old(toClient), old(c), toClient, c.reply);
      if c.reply == [] && c.closeAfterReply {
        Drop(c.reason, flight, confirmed);
      }
      assert calm ==> View() == Sends(old(View()), n);
    }

    method ReceiveRequest(n: nat, calm: bool, ghost flight: Option<Flight>, ghost confirmed: seq<Effect>)
      requires Linked(flight, confirmed) && c.open && 0 < n <= |toServer|
      modifies this
      ensures Linked(flight, confirmed) && Extends(old(c).processed, c.processed)
      ensures calm ==> exists length :: 0 < length <= MAXIMUM_FRAME && View() == Receives(old(View()), n, length)
    {
      hide LinkInv, Take, AllHonest, Frame;
      var length: nat :| 0 < length <= MAXIMUM_FRAME;
      ReceptionKeeps(flight, confirmed, toServer, toClient, c, n);
      var taken := Take(c, toServer[..n]);
      toServer, c := toServer[n..], After(c, taken);
      if taken.Served? {
        AnswerExists(c.processed);
        AcknowledgementIsHonest(c, taken.id, length);
        var reply :| AllHonest(reply, c.processed);
        reply := if calm then Acknowledgement(c, taken.id, length) else reply;
        var last := c.processed[taken.id].0.Close?;
        AnswerKeeps(flight, confirmed, toServer, toClient, c, reply, last);
        c := c.(reply := reply, closeAfterReply := last);
        var disconnect := *;
        if !calm && disconnect {
          c := c.(open := false);
        }
      }
      assert calm ==> View() == Receives(old(View()), n, length);
    }
  }

  lemma AcknowledgementIsHonest(c: Connection, id: nat, length: nat)
    requires id in c.processed
    ensures AllHonest(Acknowledgement(c, id, length), c.processed)
  {
  }

  lemma FrameLength(m: Message, length: nat)
    ensures |Frame(m, length)| == length
  {
  }

  /** The answer to the last request, all of it. */
  ghost predicate WholeAnswer(f: Flight, c: Connection, line: seq<Byte>) {
    exists length :: 0 < length <= MAXIMUM_FRAME && line == Frame(Response(f.id, f.op, true, c.voltage), length)
  }

  /**
    Nothing but the last request and its answer is anywhere on the link:
    the request is not yet processed, or the answer is what the client has
    received, what is on its way and what the server still holds, in this order.
  */
  ghost predicate Exchanging(f: Flight, l: Link, received: seq<Byte>) {
    if f.id !in l.c.processed then
      received == [] && l.toClient == [] && l.c.reply == [] && l.c.open && |l.c.input| < |f.frame|
    else
      && l.toServer == [] && l.c.input == [] && WholeAnswer(f, l.c, received + l.toClient + l.c.reply)
      && l.c.closeAfterReply == f.op.Close? && l.c.open == !(f.op.Close? && l.c.reply == [])
  }

  /** What is left to move before the client has its answer. */
  ghost function Work(f: Flight, l: Link): nat {
    |l.toClient| + 2 * |l.c.reply| + 2 * |l.toServer| + (if f.id in l.c.processed then 0 else 2 * MAXIMUM_FRAME)
  }

  /** While the answer is under way, a calm turn hands on some of what the server holds. */
  lemma AnsweringStep(f: Flight, a: Link, b: Link, received: seq<Byte>)
    requires CalmTurn(a, b) && Exchanging(f, a, received) && f.id in a.c.processed
    ensures Exchanging(f, b, received) && f.id in b.c.processed
    ensures if a.c.reply == [] then b == a else Work(f, b) < Work(f, a)
  {
    hide Frame, Take, Receives, Honest;
    if a.c.reply != [] {
      var n :| 0 < n <= |a.c.reply| && b == Sends(a, n);
      assert received + b.toClient + b.c.reply == received + a.toClient + a.c.reply;
    }
  }

  /** While the request is under way, a calm turn takes in some of it; once it is whole it is answered. */
  lemma AskingStep(f: Flight, confirmed: seq<Effect>, a: Link, b: Link)
    requires LinkInv(Some(f), confirmed, a.toServer, a.toClient, a.c) && CalmTurn(a, b) && Exchanging(f, a, [])
    requires f.id !in a.c.processed
    ensures Exchanging(f, b, [])
    ensures f.offset < |f.frame| ==> f.id !in b.c.processed
    ensures if a.toServer == [] then b == a else Work(f, b) < Work(f, a)
  {
    hide Frame, Take, Execute, Ledger, Benign, AllHonest, Sends;
    if a.toServer != [] {
      var n, length :| 0 < n <= |a.toServer| && n <= BUFFER && 0 < length <= MAXIMUM_FRAME && b == Receives(a, n, length);
      TakeServes(f, a.toServer, a.c, n);
      if |a.c.input| + n >= |f.frame| {
        ExecuteServes(f, confirmed, a.c);
        FrameLength(Response(f.id, f.op, true, b.c.voltage), length);
        assert [] + b.toClient + b.c.reply == Frame(Response(f.id, f.op, true, b.c.voltage), length);
      }
    }
  }

  /** A calm turn keeps the exchange together, and moves what the server can move. */
  lemma CalmStep(f: Flight, confirmed: seq<Effect>, a: Link, b: Link, received: seq<Byte>)
    requires LinkInv(Some(f), confirmed, a.toServer, a.toClient, a.c) && CalmTurn(a, b) && Exchanging(f, a, received)
    ensures Exchanging(f, b, received) && Work(f, b) <= Work(f, a)
    ensures f.offset < |f.frame| ==> f.id !in b.c.processed
    ensures if a.toServer == [] && a.c.reply == [] then b == a else Work(f, b) < Work(f, a)
  {
    hide CalmTurn, Ledger, AllHonest, Benign, WellFormed, WholeAnswer;
    if f.id in a.c.processed {
      AnsweringStep(f, a, b, received);
    } else {
      AskingStep(f, confirmed, a, b);
    }
  }

  lemma AnswerExists(processed: map<nat, (Op, real)>)
    ensures exists reply :: AllHonest(reply, processed)
  {
    assert AllHonest([], processed);
  }

  lemma LinkedExceptReply(flight: Option<Flight>, confirmed: seq<Effect>, toServer: seq<Byte>, toClient: seq<Byte>, c: Connection,
                          moreToClient: seq<Byte>, reply: seq<Byte>)
    requires LinkInv(flight, confirmed, toServer, toClient, c)
    requires AllHonest(moreToClient, c.processed) && AllHonest(reply, c.processed)
    ensures LinkInv(flight, confirmed, toServer, moreToClient, c.(reply := reply))
  {
    hide Frame;
  }

  lemma AnswerKeeps(flight: Option<Flight>, confirmed: seq<Effect>, toServer: seq<Byte>, toClient: seq<Byte>, c: Connection,
                    reply: seq<Byte>, last: bool)
    requires LinkInv(flight, confirmed, toServer, toClient, c) && AllHonest(reply, c.processed)
    ensures LinkInv(flight, confirmed, toServer, toClient, c.(reply := reply, closeAfterReply := last))
    ensures LinkInv(flight, confirmed, toServer, toClient, c.(reply := reply, closeAfterReply := last, open := false))
  {
    hide Frame;
  }

  /** A piece of a request arrives: it is never rejected, and everything stays linked. */
  lemma ReceptionKeeps(flight: Option<Flight>, confirmed: seq<Effect>, toServer: seq<Byte>, toClient: seq<Byte>, c: Connection, n: nat)
    requires LinkInv(flight, confirmed, toServer, toClient, c) && c.open && 0 < n <= |toServer|
    ensures var taken := Take(c, toServer[..n]);
            && !taken.Rejected?
            && LinkInv(flight, confirmed, toServer[n..], toClient, taken.c)
            && (taken.Served? ==> taken.id in taken.c.processed)
            && Extends(c.processed, taken.c.processed)
  {
    hide Take, Execute, Frame;
    assert flight.Some?;
    var f := flight.value;
    TakeServes(f, toServer, c, n);
    assert c.input + toServer == f.frame[..f.offset];
    if |c.input| + n < |f.frame| {
      var next := c.(input := c.input + toServer[..n]);
      assert next.input + toServer[n..] == c.input + toServer;
    } else {
      ExecuteServes(f, confirmed, c);
      var t := Execute(c.(input := [], lastId := f.id), f.id, f.op, f.value);
      hide Ledger, Faithful;
      StillHonest(toClient, c.processed, t.c.processed);
      StillHonest(c.reply, c.processed, t.c.processed);
    }
  }

  // -------------------------------------------------------------- the driver

  datatype Double = Finite(value: real) | NotFinite

  datatype Result = Success(value: Option<real>) | Failure | Indeterminate

  /** An apply that was at least partly sent and whose answer was not accepted. */
  predicate Doubtful(flight: Option<Flight>) {
    flight.Some? && flight.value.op.Apply? && !flight.value.acknowledged && flight.value.offset > 0
  }

  /** The end-to-end account: the journal is what was confirmed, plus at most the doubtful apply. */
  lemma JournalIsAccounted(flight: Option<Flight>, confirmed: seq<Effect>, toServer: seq<Byte>, toClient: seq<Byte>, c: Connection)
    requires LinkInv(flight, confirmed, toServer, toClient, c)
    ensures Values(c.journal) == Values(confirmed) ||
            (Doubtful(flight) && Values(c.journal) == Values(confirmed) + [flight.value.value])
    ensures Benign(c.reason)
  {
    hide Frame;
  }

  predicate InRange(voltage: Double) {
    voltage.Finite? && 0.0 <= voltage.value <= 60.0
  }

  lemma EndHasNewline(bytes: seq<Byte>)
    requires EndsInNewline(bytes)
    ensures HasNewline(bytes)
  {
  }

  /** A line of the answer that has its newline is the whole answer. */
  lemma AnswerIsWhole(f: Flight, c: Connection, received: seq<Byte>, rest: seq<Byte>)
    requires WholeAnswer(f, c, received + rest) && 0.0 <= c.voltage <= 60.0
    ensures |received| + |rest| <= MAXIMUM_FRAME
    ensures HasNewline(received) <==> rest == []
    ensures rest == [] ==> EndsInNewline(received) && Parse(received) == Some(Response(f.id, f.op, true, c.voltage))
  {
    var m := Response(f.id, f.op, true, c.voltage);
    var length :| 0 < length <= MAXIMUM_FRAME && received + rest == Frame(m, length);
    FrameLength(m, length);
    if rest == [] {
      assert received == received + rest;
      FrameParses(m, length);
    } else {
      assert received == Frame(m, length)[..|received|];
      PrefixHasNoNewline(m, length, |received|);
    }
  }

  /** Sending more of the request leaves the exchange undisturbed. */
  lemma MoreIsUndisturbed(f: Flight, offset: nat, before: Link, now: Link)
    requires Exchanging(f, before, []) && f.id !in before.c.processed && now == before.(toServer := now.toServer)
    ensures Exchanging(f.(offset := offset), now, [])
  {
  }

  lemma EnoughIsEnough(f: Flight, l: Link)
    ensures Work(f, l) <= |l.toClient| + 2 * |l.c.reply| + 2 * |l.toServer| + 2 * MAXIMUM_FRAME
  {
  }

  lemma NothingIsHonest(processed: map<nat, (Op, real)>)
    ensures AllHonest([], processed) && !HasNewline([])
  {
  }

  lemma PieceArrives(flight: Option<Flight>, confirmed: seq<Effect>, l: Link, received: seq<Byte>, count: nat)
    requires LinkInv(flight, confirmed, l.toServer, l.toClient, l.c) && AllHonest(received, l.c.processed) && count <= |l.toClient|
    ensures AllHonest(received + l.toClient[..count], l.c.processed)
    ensures LinkInv(flight, confirmed, l.toServer, l.toClient[count..], l.c)
  {
    hide Frame, Channel, Faithful, Ledger;
  }

  /** Until the client has the whole answer, a byte is on its way to it or the server has something to move. */
  lemma SomethingIsLeft(f: Flight, confirmed: seq<Effect>, l: Link, received: seq<Byte>)
    requires LinkInv(Some(f), confirmed, l.toServer, l.toClient, l.c) && Exchanging(f, l, received)
    requires f.offset == |f.frame| && !HasNewline(received)
    ensures l.toServer != [] || l.c.reply != [] || l.toClient != []
  {
    hide Frame, HasNewline, Parse, EndsInNewline;
    if f.id in l.c.processed {
      assert received + l.toClient + l.c.reply == received + (l.toClient + l.c.reply);
      AnswerIsWhole(f, l.c, received, l.toClient + l.c.reply);
    } else {
      assert |l.c.input + l.toServer| == |f.frame|;
    }
  }

  /** The next piece of the answer fits, and has the newline exactly if nothing follows it. */
  lemma AnswerFits(f: Flight, confirmed: seq<Effect>, l: Link, received: seq<Byte>, count: nat)
    requires LinkInv(Some(f), confirmed, l.toServer, l.toClient, l.c) && Exchanging(f, l, received) && 0 < count <= |l.toClient|
    ensures var more := received + l.toClient[..count];
            var rest := l.(toClient := l.toClient[count..]);
            && |more| <= MAXIMUM_FRAME && Exchanging(f, rest, more) && Work(f, rest) < Work(f, l)
            && f.id in l.c.processed && 0.0 <= l.c.voltage <= 60.0
            && (HasNewline(more) ==>
                  && rest.toClient == [] && l.c.reply == [] && l.toServer == [] && l.c.input == []
                  && l.c.open == !f.op.Close? && EndsInNewline(more)
                  && Parse(more) == Some(Response(f.id, f.op, true, l.c.voltage)))
  {
    hide Frame, HasNewline, Parse, EndsInNewline;
    var more := received + l.toClient[..count];
    var rest := l.toClient[count..] + l.c.reply;
    assert received + l.toClient + l.c.reply == more + rest;
    assert received + l.toClient + l.c.reply == more + l.toClient[count..] + l.c.reply;
    AnswerIsWhole(f, l.c, more, rest);
  }

  lemma RequestStarts(flight: Option<Flight>, confirmed: seq<Effect>, toServer: seq<Byte>, toClient: seq<Byte>, c: Connection, f: Flight)
    requires LinkInv(flight, confirmed, toServer, toClient, c) && WellFormed(f) && f.offset == 0 && !f.acknowledged
    requires f.op.Hello? <==> flight.None?
    requires if flight.Some? then flight.value.acknowledged && f.id > flight.value.id else f.id > 0
    ensures LinkInv(Some(f), confirmed, toServer, toClient, c) && f.id !in c.processed
  {
    hide Frame;
  }

  lemma MoreIsSent(f: Flight, confirmed: seq<Effect>, toServer: seq<Byte>, toClient: seq<Byte>, c: Connection, count: nat)
    requires LinkInv(Some(f), confirmed, toServer, toClient, c) && 0 < count <= |f.frame| - f.offset
    ensures LinkInv(Some(f.(offset := f.offset + count)), confirmed,
                    toServer + f.frame[f.offset..f.offset + count], toClient, c)
  {
    hide Frame;
    assert c.input + (toServer + f.frame[f.offset..f.offset + count]) == (c.input + toServer) + f.frame[f.offset..f.offset + count];
    assert f.frame[..f.offset] + f.frame[f.offset..f.offset + count] == f.frame[..f.offset + count];
  }

  lemma AnswerIsAccepted(f: Flight, confirmed: seq<Effect>, toServer: seq<Byte>, toClient: seq<Byte>, c: Connection)
    requires LinkInv(Some(f), confirmed, toServer, toClient, c) && f.id in c.processed && !f.acknowledged
    ensures var now := if f.op.Apply? then confirmed + [Effect(f.id, f.value)] else confirmed;
            && LinkInv(Some(f.(acknowledged := true)), now, toServer, toClient, c)
            && c.journal == now && c.processed[f.id] == (f.op, LastValue(now))
            && (f.op.Apply? ==> c.processed[f.id].1 == f.value)
  {
    hide Frame;
  }

  /** An acknowledgement of this request that the server sent means that it was processed. */
  lemma AcknowledgementIsTrue(frame: seq<Byte>, c: Connection, id: nat, op: Op, value: real)
    requires AllHonest(frame, c.processed) && Parse(frame) == Some(Response(id, op, true, value))
    ensures id in c.processed && c.processed[id] == (op, value)
  {
    assert Honest(frame[0], c.processed);
  }

  function Values(journal: seq<Effect>): seq<real> {
    seq(|journal|, i requires 0 <= i < |journal| => journal[i].value)
  }

  /** The values of the applies that were reported as successful, in order. */
  function Confirmed(calls: seq<(Op, Double)>, results: seq<Result>): seq<real>
    requires |calls| == |results|
  {
    if calls == [] then []
    else
      var k := |calls| - 1;
      Confirmed(calls[..k], results[..k]) +
      (if calls[k].0.Apply? && calls[k].1.Finite? && results[k].Success? then [calls[k].1.value] else [])
  }

  lemma NothingConfirmed(calls: seq<(Op, Double)>)
    ensures Confirmed(calls[..0], []) == [] && Values([]) == []
  {
  }

  lemma ConfirmedGrows(calls: seq<(Op, Double)>, results: seq<Result>, r: Result)
    requires |results| < |calls|
    ensures var k := |results|;
            Confirmed(calls[..k + 1], results + [r]) ==
            Confirmed(calls[..k], results) +
            (if calls[k].0.Apply? && calls[k].1.Finite? && r.Success? then [calls[k].1.value] else [])
  {
    var k := |results|;
    assert calls[..k + 1][..k] == calls[..k] && (results + [r])[..k] == results;
  }

  function Last(values: seq<real>): real {
    if values == [] then 0.0 else values[|values| - 1]
  }

  /** Every success was applied once, in order; a plain failure never was; an indeterminate result leaves one apply open. */
  predicate Explains(calls: seq<(Op, Double)>, results: seq<Result>, applied: seq<real>)
    requires |calls| == |results|
  {
    || applied == Confirmed(calls, results)
    || exists i :: 0 <= i < |calls| && results[i].Indeterminate? && calls[i].0.Apply? && calls[i].1.Finite?
                   && applied == Confirmed(calls, results) + [calls[i].1.value]
  }

  /** After an indeterminate result every call fails, and a read reports the last confirmed voltage. */
  predicate Told(calls: seq<(Op, Double)>, results: seq<Result>)
    requires |results| <= |calls|
  {
    && (forall i, j :: 0 <= i < j < |results| && results[i].Indeterminate? ==> results[j].Failure?)
    && (forall i :: 0 <= i < |results| && calls[i].0.Read? && results[i].Success? ==>
          results[i].value == Some(Last(Confirmed(calls[..i], results[..i]))))
  }

  /** Every read succeeds, and every apply of a voltage within range; nothing is indeterminate. */
  predicate AsAsked(calls: seq<(Op, Double)>, results: seq<Result>)
    requires |results| <= |calls|
  {
    forall i :: 0 <= i < |results| ==>
      !results[i].Indeterminate? && (results[i].Success? <==> calls[i].0.Read? || InRange(calls[i].1))
  }

  /** The voltages within range that were to be applied, in order. */
  function Asked(calls: seq<(Op, Double)>): seq<real> {
    if calls == [] then []
    else
      var k := |calls| - 1;
      Asked(calls[..k]) + (if calls[k].0.Apply? && InRange(calls[k].1) then [calls[k].1.value] else [])
  }

  lemma NothingTold(calls: seq<(Op, Double)>)
    ensures Told(calls, []) && AsAsked(calls, [])
  {
  }

  lemma ToldGrows(calls: seq<(Op, Double)>, results: seq<Result>, r: Result)
    requires |results| < |calls| && Told(calls, results)
    requires (exists i :: 0 <= i < |results| && results[i].Indeterminate?) ==> r.Failure?
    requires calls[|results|].0.Read? && r.Success? ==> r.value == Some(Last(Confirmed(calls[..|results|], results)))
    ensures Told(calls, results + [r])
  {
    hide Confirmed, Last;
    var now := results + [r];
    assert forall i :: 0 <= i <= |results| ==> now[..i] == results[..i];
    assert results[..|results|] == results;
  }

  lemma AsAskedGrows(calls: seq<(Op, Double)>, results: seq<Result>, r: Result)
    requires |results| < |calls| && AsAsked(calls, results) && !r.Indeterminate?
    requires r.Success? <==> calls[|results|].0.Read? || InRange(calls[|results|].1)
    ensures AsAsked(calls, results + [r])
  {
    hide InRange;
  }

  lemma {:induction false} AskedIsConfirmed(calls: seq<(Op, Double)>, results: seq<Result>)
    requires |calls| == |results| && AsAsked(calls, results)
    requires forall i :: 0 <= i < |calls| ==> calls[i].0.Apply? || calls[i].0.Read?
    ensures Confirmed(calls, results) == Asked(calls)
    ensures forall i :: 0 <= i < |results| ==> !results[i].Indeterminate?
  {
    if calls != [] {
      var k := |calls| - 1;
      AskedIsConfirmed(calls[..k], results[..k]);
    }
  }

  class TcpVoltageDriver {
    const server: Simulator
    var connected: bool
    var sequence: nat
    ghost var flight: Option<Flight>
    /** The effects of the applies that were reported as successful. */
    ghost var confirmed: seq<Effect>

    constructor (server: Simulator)
      requires server.toServer == [] && server.toClient == [] && server.c == CONNECTED
      ensures Valid() && this.server == server && !connected && flight.None? && confirmed == []
    {
      this.server := server;
      connected, sequence, flight, confirmed := false, 0, None, [];
    }

    ghost predicate Linked()
      reads this, server
    {
      server.Linked(flight, confirmed) && sequence == (if flight.Some? then flight.value.id else 0)
    }

    /** Between exchanges. */
    ghost predicate Valid()
      reads this, server
    {
      Linked() && (connected ==> flight.Some? && flight.value.acknowledged)
    }

    /** Nothing is on its way in either direction. */
    ghost predicate Quiet()
      reads this, server
    {
      connected ==> server.c.open && server.toServer == [] && server.toClient == [] && server.c.reply == [] && server.c.input == []
    }

    /** The last request, its answer and nothing else are on the link. */
    ghost predicate Undisturbed(received: seq<Byte>)
      reads this, server
    {
      flight.Some? && Exchanging(flight.value, server.View(), received)
    }

    ghost function Remaining(): nat
      reads this, server
    {
      if flight.Some? then Work(flight.value, server.View()) else 0
    }

    /** Meanwhile, the server goes on by itself, on a calm link for a turn at least; `received` is what the client has of the answer. */
    method Elapse(calm: bool, ghost received: seq<Byte>)
      requires Linked()
      modifies server
      ensures Linked() && Extends(old(server.c).processed, server.c.processed)
      ensures calm && old(Undisturbed(received)) ==>
        && Undisturbed(received) && Remaining() <= old(Remaining())
        && (flight.value.offset < |flight.value.frame| ==> flight.value.id !in server.c.processed)
        && (if old(server.toServer) == [] && old(server.c).reply == [] then server.View() == old(server.View())
            else Remaining() < old(Remaining()))
    {
      hide LinkInv, CalmTurn, Exchanging, Work;
      ghost var still := calm && Undisturbed(received);
      assert calm ==> 1 > 0;
      var turns: nat :| calm ==> turns > 0;
      ghost var all := turns;
      while turns > 0
        invariant Linked() && Extends(old(server.c).processed, server.c.processed)
        invariant turns <= all && (turns == all ==> server.View() == old(server.View()))
        invariant still ==> Undisturbed(received) && Remaining() <= old(Remaining())
        invariant still && turns < all ==>
          && (flight.value.offset < |flight.value.frame| ==> flight.value.id !in server.c.processed)
          && (if old(server.toServer) == [] && old(server.c).reply == [] then server.View() == old(server.View())
              else Remaining() < old(Remaining()))
      {
        ghost var before := server.View();
        ghost var linked := server.Linked(flight, confirmed);
        server.Turn(calm, flight, confirmed);
        if still { CalmStep(flight.value, confirmed, before, server.View(), received); }
        turns := turns - 1;
      }
    }

    /** Hand the request to TCP piece by piece; `patience` is what is left of the budget. */
    method Send(frame: seq<Byte>, calm: bool) returns (ok: bool, possiblySent: bool)
      requires Linked() && flight.Some? && flight.value.frame == frame && flight.value.offset == 0
      modifies server, `flight
      ensures Linked() && flight.Some?
      ensures flight.value == old(flight).value.(offset := flight.value.offset)
      ensures possiblySent <==> flight.value.offset > 0
      ensures ok ==> flight.value.offset == |frame|
      ensures calm && old(Undisturbed([]) && flight.value.id !in server.c.processed) ==> ok && Undisturbed([])
    {
      hide LinkInv, CalmTurn, Exchanging, Work;
      ghost var still := calm && Undisturbed([]) && flight.value.id !in server.c.processed;
      var offset := 0;
      possiblySent := false;
      assert calm ==> |frame| >= |frame|;
      var patience: nat :| calm ==> patience >= |frame|;
      while offset < |frame|
        invariant offset <= |frame|
        invariant Linked() && flight == Some(old(flight).value.(offset := offset))
        invariant possiblySent <==> offset > 0
        invariant still ==> patience >= |frame| - offset && Undisturbed([]) && flight.value.id !in server.c.processed
        decreases patience
      {
        if patience == 0 {
          return false, possiblySent;
        }
        Elapse(calm, []);
        assert calm ==> 0 < |frame| - offset <= |frame| - offset;
        var count: nat :| calm ==> 0 < count <= |frame| - offset;
        if 0 < count <= |frame| - offset {
          MoreIsSent(flight.value, confirmed, server.toServer, server.toClient, server.c, count);
          ghost var before := server.View();
          possiblySent := true;
          server.toServer := server.toServer + frame[offset..offset + count];
          offset := offset + count;
          if still { MoreIsUndisturbed(flight.value, offset, before, server.View()); }
          flight := Some(flight.value.(offset := offset));
        }
        patience := patience - 1;
      }
      ok := true;
    }

    /** The answer, once all of the request has been handed over; `patience` is what is left of the budget. */
    method Receive(calm: bool) returns (frame: Option<seq<Byte>>)
      requires Linked() && flight.Some? && flight.value.offset == |flight.value.frame|
      modifies server
      ensures Linked()
      ensures frame.Some? ==> AllHonest(frame.value, server.c.processed) && EndsInNewline(frame.value)
      ensures frame.Some? ==> |frame.value| <= MAXIMUM_FRAME
      ensures calm && old(Undisturbed([]) && flight.value.offset == |flight.value.frame|) ==>
        && frame.Some? && flight.value.id in server.c.processed && Undisturbed(frame.value)
        && server.toClient == [] && server.c.reply == [] && server.toServer == [] && server.c.input == []
        && Parse(frame.value) == Some(Response(flight.value.id, flight.value.op, true, server.c.voltage))
        && server.c.open == !flight.value.op.Close? && 0.0 <= server.c.voltage <= 60.0
    {
      hide LinkInv, CalmTurn, Exchanging, Work, HasNewline, EndsInNewline, AllHonest, Parse;
      ghost var still := calm && Undisturbed([]) && flight.value.offset == |flight.value.frame|;
      NothingIsHonest(server.c.processed);
      var received := [];
      var enough := |server.toClient| + 2 * |server.c.reply| + 2 * |server.toServer| + 2 * MAXIMUM_FRAME + 1;
      if still { EnoughIsEnough(flight.value, server.View()); }
      assert calm ==> enough >= enough;
      var patience: nat :| calm ==> patience >= enough;
      while patience > 0
        invariant Linked() && AllHonest(received, server.c.processed)
        invariant !HasNewline(received)
        invariant still ==> Undisturbed(received) && patience > Remaining()
      {
        ghost var before := server.c.processed;
        if still { SomethingIsLeft(flight.value, confirmed, server.View(), received); }
        Elapse(calm, received);
        StillHonest(received, before, server.c.processed);
        assert Least(|server.toClient|, BUFFER) <= BUFFER;
        assert server.toClient != [] ==> 0 < Least(|server.toClient|, BUFFER) <= |server.toClient|;
        var count: nat :| calm && server.toClient != [] ==> 0 < count <= |server.toClient| && count <= BUFFER;
        if 0 < count <= |server.toClient| && count <= BUFFER {
          ghost var l := server.View();
          if still { AnswerFits(flight.value, confirmed, l, received, count); }
          if |received| + count > MAXIMUM_FRAME {
            return None;
          }
          PieceArrives(flight, confirmed, l, received, count);
          received := received + server.toClient[..count];
          server.toClient := server.toClient[count..];
          if HasNewline(received) {
            return if EndsInNewline(received) then Some(received) else None;
          }
        }
        patience := patience - 1;
      }
      frame := None;
    }

    /** One request and its answer; any failure, and an answer that is too late, gives the connection up for good. */
    method Exchange(op: Op, value: real, calm: bool, late: bool) returns (r: Result)
      requires Linked() && (connected ==> if op.Hello? then flight.None? else flight.Some? && flight.value.acknowledged)
      requires op.Apply? ==> 0.0 <= value <= 60.0
      modifies this, server
      ensures Valid() && (r.Success? <==> connected)
      ensures sequence == old(sequence) + (if old(connected) then 1 else 0)
      ensures r.Success? && !op.Apply? && !op.Read? ==> r.value.None?
      ensures !old(connected) ==> r.Failure? && flight == old(flight)
      ensures old(connected) && op.Apply? && !r.Success? ==>
        flight.Some? && flight.value.id == sequence && (r.Indeterminate? <==> flight.value.offset > 0)
      ensures confirmed == old(confirmed) + (if op.Apply? && r.Success? then [Effect(sequence, value)] else [])
      ensures r.Success? && (op.Apply? || op.Read?) ==> r.value == Some(LastValue(confirmed))
      ensures Doubtful(flight) ==> flight == old(flight) || (r.Indeterminate? && flight.value.value == value)
      ensures r.Indeterminate? ==> op.Apply? && old(connected) && !connected
      ensures late ==> !r.Success?
      ensures calm && !late && old(connected && Quiet()) ==> r.Success? && (!op.Close? ==> Quiet())
    {
      hide LinkInv, Frame, CalmTurn, Parse, AllHonest, EndsInNewline, HasNewline, LastValue, WholeAnswer, Work;
      ghost var still := calm && connected && Quiet();
      if !connected {
        return Failure;
      }
      sequence := sequence + 1;
      var length: nat :| 0 < length <= REQUEST_LIMIT;
      var frame := Frame(Request(sequence, op, value), length);
      ghost var f := Flight(sequence, op, value, frame, 0, false);
      FrameLength(Request(sequence, op, value), length);
      RequestStarts(flight, confirmed, server.toServer, server.toClient, server.c, f);
      flight := Some(f);
      var ok, possiblySent := Send(frame, calm);
      var answer := None;
      if ok {
        answer := Receive(calm);
      }
      if answer.Some? {
        var parsed := Parse(answer.value);
        if parsed.Some? && parsed.value.Response? && parsed.value.ok && parsed.value.id == sequence && parsed.value.op == op {
          var payload := op.Apply? || op.Read?;
          if (payload ==> 0.0 <= parsed.value.value <= 60.0) && !late {
            AcknowledgementIsTrue(answer.value, server.c, sequence, op, parsed.value.value);
            AnswerIsAccepted(flight.value, confirmed, server.toServer, server.toClient, server.c);
            confirmed := if op.Apply? then confirmed + [Effect(sequence, value)] else confirmed;
            flight := Some(flight.value.(acknowledged := true));
            return Success(if payload then Some(parsed.value.value) else None);
          }
        }
      }
      connected := false;
      r := if op.Apply? && possiblySent then Indeterminate else Failure;
    }

    /** An apply or a read. */
    method Invoke(op: Op, voltage: Double, calm: bool) returns (r: Result)
      requires Valid() && (op.Apply? || op.Read?)
      modifies this, server
      ensures Valid() && (connected ==> old(connected))
      ensures op.Apply? && r.Success? ==> voltage.Finite? && 0.0 <= voltage.value <= 60.0
      ensures Values(confirmed) == old(Values(confirmed)) + (if op.Apply? && r.Success? then [voltage.value] else [])
      ensures r.Success? ==> connected && r.value == Some(Last(Values(confirmed)))
      ensures !old(connected) ==> r.Failure?
      ensures Doubtful(flight) ==> flight == old(flight) || (r.Indeterminate? && voltage == Finite(flight.value.value))
      ensures r.Indeterminate? ==> op.Apply? && !connected
      ensures calm && old(connected && Quiet()) ==> Quiet() && connected && (r.Success? <==> op.Read? || InRange(voltage))
    {
      hide LinkInv;
      if op.Apply? && (voltage.NotFinite? || voltage.value < 0.0 || voltage.value > 60.0) {
        return Failure;
      }
      var locked := *;
      if !calm && !locked {
        return Failure;
      }
      var late := *;
      r := Exchange(op, if op.Apply? then voltage.value else 0.0, calm, late && !calm);
    }

    /** Connect, then introduce the client. */
    method Initialize(calm: bool) returns (r: Result)
      requires Valid() && !connected && flight.None?
      modifies this, server
      ensures Valid() && (r.Success? <==> connected)
      ensures confirmed == old(confirmed) && !Doubtful(flight) && !r.Indeterminate?
      ensures calm && old(server.View()) == Link([], [], CONNECTED) ==> r.Success? && Quiet()
    {
      hide LinkInv;
      var reachable := *;
      if !calm && !reachable {
        return Failure;
      }
      connected := true;
      label Connected:
      assert old(server.View()) == Link([], [], CONNECTED) ==> Quiet();
      var late := *;
      r := Exchange(Hello, 0.0, calm, late && !calm);
    }

    method Shutdown(calm: bool) returns (r: Result)
      requires Valid()
      modifies this, server
      ensures Valid() && !connected && !r.Indeterminate?
      ensures confirmed == old(confirmed) && (Doubtful(flight) ==> flight == old(flight))
      ensures calm && old(connected && Quiet()) ==> r.Success?
    {
      hide LinkInv;
      var late := *;
      r := Exchange(Close, 0.0, calm, late && !calm);
      connected := false;
    }

    /** The calls of a session, one after the other. */
    method Perform(calls: seq<(Op, Double)>, calm: bool) returns (results: seq<Result>)
      requires Valid() && confirmed == [] && !Doubtful(flight)
      requires forall i :: 0 <= i < |calls| ==> calls[i].0.Apply? || calls[i].0.Read?
      modifies this, server
      ensures Valid() && |results| == |calls| && Told(calls, results)
      ensures Values(confirmed) == Confirmed(calls, results)
      ensures Doubtful(flight) ==> exists i :: 0 <= i < |calls| && results[i].Indeterminate? && calls[i] == (Apply, Finite(flight.value.value))
      ensures calm && old(connected && Quiet()) ==> connected && Quiet() && AsAsked(calls, results)
    {
      NothingConfirmed(calls);
      hide LinkInv, Confirmed, Values, Last, Told, Quiet, AsAsked, InRange;
      ghost var still := calm && connected && Quiet();
      results := [];
      NothingTold(calls);
      ghost var doubt: nat := 0;
      while |results| < |calls|
        invariant |results| <= |calls| && Valid()
        invariant Values(confirmed) == Confirmed(calls[..|results|], results)
        invariant Doubtful(flight) ==>
          doubt < |results| && calls[doubt] == (Apply, Finite(flight.value.value)) && results[doubt].Indeterminate?
        invariant forall i :: 0 <= i < |results| && results[i].Indeterminate? ==> !connected
        invariant Told(calls, results)
        invariant still ==> connected && Quiet() && AsAsked(calls, results)
      {
        var k := |results|;
        ghost var earlier, before := results, flight;
        var r := Invoke(calls[k].0, calls[k].1, calm);
        results := results + [r];
        doubt := if Doubtful(flight) && flight != before then k else doubt;
        ConfirmedGrows(calls, earlier, r);
        assert Confirmed(calls[..k], earlier) + [] == Confirmed(calls[..k], earlier);
        ToldGrows(calls, earlier, r);
        if still { AsAskedGrows(calls, earlier, r); }
      }
      assert calls[..|results|] == calls;
    }

    /** A whole session: whatever was cut and wherever, and however long the server goes on, the journal is explained by the results. */
    method Session(calls: seq<(Op, Double)>, calm: bool) returns (results: seq<Result>)
      requires Valid() && !connected && flight.None? && confirmed == []
      requires forall i :: 0 <= i < |calls| ==> calls[i].0.Apply? || calls[i].0.Read?
      modifies this, server
      ensures |results| == |calls| && Explains(calls, results, Values(server.c.journal))
      ensures Told(calls, results)
      ensures Benign(server.c.reason)
      ensures calm && old(server.View()) == Link([], [], CONNECTED) ==>
                AsAsked(calls, results) && Values(server.c.journal) == Asked(calls)
    {
      hide LinkInv, Confirmed, Values, Told, Quiet, AsAsked;
      var greeting := Initialize(calm);
      results := Perform(calls, calm);
      var farewell := Shutdown(calm);
      Elapse(false, []);
      JournalIsAccounted(flight, confirmed, server.toServer, server.toClient, server.c);
      if AsAsked(calls, results) { AskedIsConfirmed(calls, results); }
    }
  }
}
