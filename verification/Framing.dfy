/**
  Length-prefixed frames over a byte pipe, as both sides implement them: the
  engine reads in resumable pieces that may time out, the worker reads blocking.
*/
module Framing {
  import opened Wrappers

  type Byte = b: int | 0 <= b < 256

  type Bytes = seq<Byte>

  const MAXIMUM := 1024 * 1024
  const BUFFER := 8192

  // ------------------------------------------------------------- the length

  function Power256(i: nat): nat
    requires i <= 4
  {
    match i
    case 0 => 1
    case 1 => 0x100
    case 2 => 0x1_0000
    case 3 => 0x100_0000
    case _ => 0x1_0000_0000
  }

  /** n >> (8 * i) */
  function Shift(n: nat, i: nat): nat {
    if i == 0 then n else Shift(n / 256, i - 1)
  }

  function Digit(n: nat, i: nat): Byte {
    Shift(n, i) % 256
  }

  /** Four bytes, the least significant first. */
  function Length(n: nat): (b: Bytes)
    ensures |b| == 4
  {
    [Digit(n, 0), Digit(n, 1), Digit(n, 2), Digit(n, 3)]
  }

  function Value(b: Bytes): nat
    requires |b| == 4
  {
    b[0] as int + 0x100 * b[1] as int + 0x1_0000 * b[2] as int + 0x100_0000 * b[3] as int
  }

  lemma Digits(n: nat)
    ensures Length(n) == [n % 256, n / 256 % 256, n / 256 / 256 % 256, n / 256 / 256 / 256 % 256]
  {
    var a := n / 256;
    var b := a / 256;
    assert Shift(n, 1) == Shift(a, 0) && Shift(n, 2) == Shift(a, 1) && Shift(n, 3) == Shift(a, 2);
    assert Shift(a, 2) == Shift(b, 1) && Shift(a, 1) == Shift(b, 0) && Shift(b, 1) == Shift(b / 256, 0);
  }

  lemma LengthRoundTrip(n: nat)
    requires n < 0x1_0000_0000
    ensures Value(Length(n)) == n
  {
    Digits(n);
    hide Length;
    var a := n / 256;
    var b := a / 256;
    var c := b / 256;
    assert n == 256 * a + n % 256;
    assert a == 256 * b + a % 256;
    assert b == 256 * c + b % 256;
    assert c < 256;
  }

  lemma ValueRoundTrip(b: Bytes)
    requires |b| == 4
    ensures Value(b) < 0x1_0000_0000 && Length(Value(b)) == b
  {
    var v := Value(b);
    Digits(v);
    hide Length;
    assert v / 256 == b[1] as int + 0x100 * b[2] as int + 0x1_0000 * b[3] as int;
    assert v / 256 / 256 == b[2] as int + 0x100 * b[3] as int;
    assert v / 256 / 256 / 256 == b[3] as int;
  }

  // ------------------------------------------------------------- the stream

  predicate Sized(body: Bytes) {
    0 < |body| <= MAXIMUM
  }

  function Encode(body: Bytes): (frame: Bytes)
    ensures |frame| == 4 + |body|
  {
    Length(|body|) + body
  }

  function Stream(bodies: seq<Bytes>): Bytes {
    if bodies == [] then [] else Encode(bodies[0]) + Stream(bodies[1..])
  }

  /** A stream that starts with one frame starts with no other. */
  lemma FirstFrameIsUnique(a: Bytes, rest: Bytes, b: Bytes, more: Bytes)
    requires |a| < 0x1_0000_0000 && |b| < 0x1_0000_0000
    requires Encode(a) + rest == Encode(b) + more
    ensures a == b && rest == more
  {
    var all := Encode(a) + rest;
    assert all[..4] == Length(|a|) && all[..4] == Length(|b|);
    LengthRoundTrip(|a|);
    LengthRoundTrip(|b|);
    assert all[4..4 + |a|] == a && all[4..4 + |a|] == b;
    assert all[4 + |a|..] == rest && all[4 + |a|..] == more;
  }

  lemma StreamStarts(bodies: seq<Bytes>)
    requires bodies != [] && Sized(bodies[0])
    ensures Stream(bodies) == Encode(bodies[0]) + Stream(bodies[1..])
    ensures |Stream(bodies)| >= 4 + |bodies[0]| && Stream(bodies)[..4] == Length(|bodies[0]|) && Value(Length(|bodies[0]|)) == |bodies[0]|
  {
    LengthRoundTrip(|bodies[0]|);
    hide Length, Value;
  }

  /** One look at a stream of good frames finds exactly its first frame, or nothing. */
  lemma NextOfStream(bodies: seq<Bytes>, parses: Bytes -> bool)
    requires forall body :: body in bodies ==> Sized(body) && parses(body)
    ensures forall body, rest :: Sized(body) && Stream(bodies) == Encode(body) + rest ==>
      bodies != [] && body == bodies[0] && rest == Stream(bodies[1..])
    ensures forall b: Bytes, rest :: |b| == 4 && Stream(bodies) == b + rest ==> 0 < Value(b) <= MAXIMUM
  {
    if bodies != [] {
      assert bodies[0] in bodies;
      StreamStarts(bodies);
    }
    forall body, rest | Sized(body) && Stream(bodies) == Encode(body) + rest
      ensures bodies != [] && body == bodies[0] && rest == Stream(bodies[1..])
    {
      assert |Stream(bodies)| >= 4;
      FirstFrameIsUnique(body, rest, bodies[0], Stream(bodies[1..]));
    }
    forall b: Bytes, rest | |b| == 4 && Stream(bodies) == b + rest
      ensures 0 < Value(b) <= MAXIMUM
    {
      assert |Stream(bodies)| >= 4;
      assert b == Stream(bodies)[..4];
    }
  }

  // -------------------------------------------------------- the engine's side

  datatype Received = Frame(body: Bytes) | TimedOut | Disconnected | InvalidLength | Malformed(body: Bytes)

  /** What the next transfer brings: so many bytes, the deadline, or the end of the pipe. */
  datatype Transfer = Piece(size: nat) | Expires | Gone

  function Min(a: nat, b: nat): nat {
    if a < b then a else b
  }

  /** Part of one frame: at most its length, or no more than the length says. */
  predicate Partial(input: Bytes) {
    |input| > 4 ==> 0 < Value(input[..4]) <= MAXIMUM && |input| <= 4 + Value(input[..4])
  }

  predicate BadLength(input: Bytes)
    requires |input| >= 4
  {
    !(0 < Value(input[..4]) <= MAXIMUM)
  }

  /** How many bytes Read asks for next. */
  function Wanted(input: Bytes): nat
    requires Partial(input) && (|input| >= 4 ==> !BadLength(input))
  {
    if |input| < 4 then 4 - |input| else 4 + Value(input[..4]) - |input|
  }

  datatype Outcome = Outcome(r: Received, input: Bytes, pipe: Bytes, script: seq<Transfer>)

  /** The next transfer brings something. */
  predicate Continues(input: Bytes, pipe: Bytes, script: seq<Transfer>)
    requires Partial(input)
  {
    && (|input| >= 4 ==> !BadLength(input)) && Wanted(input) > 0
    && script != [] && script[0].Piece? && script[0].size > 0 && pipe != []
  }

  function NextSize(input: Bytes, pipe: Bytes, script: seq<Transfer>): nat
    requires Partial(input) && Continues(input, pipe, script)
  {
    Min(Min(script[0].size, Wanted(input)), Min(BUFFER, |pipe|))
  }

  /** One call of Read. */
  function Look(input: Bytes, pipe: Bytes, script: seq<Transfer>, parses: Bytes -> bool): Outcome
    requires Partial(input)
    decreases |script|
  {
    if Continues(input, pipe, script) then
      var n := NextSize(input, pipe, script);
      StillPartial(input, pipe, n);
      Look(input + pipe[..n], pipe[n..], script[1..], parses)
    else if |input| >= 4 && BadLength(input) then
      Outcome(InvalidLength, input, pipe, script)
    else if Wanted(input) == 0 then
      if parses(input[4..]) then Outcome(Frame(input[4..]), [], pipe, script)
      else Outcome(Malformed(input[4..]), input, pipe, script)
    else if script == [] then Outcome(TimedOut, input, pipe, script)
    else if script[0].Expires? || (script[0].Piece? && script[0].size > 0) then Outcome(TimedOut, input, pipe, script[1..])
    else Outcome(Disconnected, input, pipe, script[1..])
  }

  /** Bytes of the next frame are never asked for while this one is incomplete. */
  lemma StillPartial(input: Bytes, pipe: Bytes, n: nat)
    requires Partial(input) && (|input| >= 4 ==> !BadLength(input)) && n <= |pipe| && n <= Wanted(input)
    ensures Partial(input + pipe[..n])
    ensures |input| >= 4 ==> (input + pipe[..n])[..4] == input[..4]
  {
    assert |input| == 4 ==> input[..4] == input;
  }

  /** What is left of the script once its leading pieces have brought `need` bytes; None when something else comes first. */
  function After(need: nat, cap: nat, script: seq<Transfer>): Option<seq<Transfer>>
    requires cap > 0
    decreases |script|
  {
    if need == 0 then Some(script)
    else if script == [] || !script[0].Piece? || script[0].size == 0 then None
    else After(need - Min(Min(script[0].size, need), cap), cap, script[1..])
  }

  /** The same for the rest of a frame of which `have` bytes are there: the length first, then the body. */
  function AfterFrame(have: nat, size: nat, script: seq<Transfer>): Option<seq<Transfer>>
    requires have <= 4 + size
  {
    if have >= 4 then After(4 + size - have, BUFFER, script)
    else
      var left := After(4 - have, BUFFER, script);
      if left.Some? then After(size, BUFFER, left.value) else None
  }

  lemma NextPiece(have: nat, size: nat, script: seq<Transfer>)
    requires have < 4 + size && script != [] && script[0].Piece? && script[0].size > 0
    ensures var n := Min(Min(script[0].size, if have < 4 then 4 - have else 4 + size - have), BUFFER);
            AfterFrame(have, size, script) == AfterFrame(have + n, size, script[1..])
  {
    if have < 4 {
      var n := Min(script[0].size, 4 - have);
      assert After(4 - have, BUFFER, script) == After(4 - have - n, BUFFER, script[1..]);
    }
  }

  /** What a call of Read says is what happened to the bytes that were there, in `input` or in the pipe. */
  predicate Accounts(o: Outcome, bytes: Bytes, parses: Bytes -> bool) {
    && Partial(o.input)
    && match o.r
       case Frame(body) => Sized(body) && parses(body) && o.input == [] && bytes == Encode(body) + o.pipe
       case Malformed(body) => Sized(body) && !parses(body) && o.input == Encode(body) && bytes == o.input + o.pipe
       case InvalidLength => |o.input| == 4 && BadLength(o.input) && bytes == o.input + o.pipe
       case _ => bytes == o.input + o.pipe
  }

  lemma WholeFrame(input: Bytes)
    requires Partial(input) && |input| >= 4 && !BadLength(input) && Wanted(input) == 0
    ensures Sized(input[4..]) && input == Encode(input[4..])
  {
    ValueRoundTrip(input[..4]);
    assert input == input[..4] + input[4..];
  }

  lemma NextLook(input: Bytes, pipe: Bytes, script: seq<Transfer>, parses: Bytes -> bool)
    requires Partial(input) && Continues(input, pipe, script)
    ensures var n := NextSize(input, pipe, script);
            && 0 < n <= Wanted(input) && n <= |pipe| && Partial(input + pipe[..n]) && input + pipe[..n] + pipe[n..] == input + pipe
            && Look(input, pipe, script, parses) == Look(input + pipe[..n], pipe[n..], script[1..], parses)
  {
    var n := NextSize(input, pipe, script);
    StillPartial(input, pipe, n);
    hide Value;
    assert input + pipe[..n] + pipe[n..] == input + pipe;
  }

  lemma LastLook(input: Bytes, pipe: Bytes, script: seq<Transfer>, parses: Bytes -> bool)
    requires Partial(input) && !Continues(input, pipe, script)
    ensures Accounts(Look(input, pipe, script, parses), input + pipe, parses)
  {
    if |input| >= 4 && !BadLength(input) && Wanted(input) == 0 { WholeFrame(input); }
    hide Value, Encode;
  }

  /** No byte is lost or invented, whatever happens. */
  lemma {:induction false} LookKeeps(input: Bytes, pipe: Bytes, script: seq<Transfer>, parses: Bytes -> bool)
    requires Partial(input)
    ensures Accounts(Look(input, pipe, script, parses), input + pipe, parses)
    decreases |script|
  {
    hide Look, Value, Encode, Accounts, Partial;
    if Continues(input, pipe, script) {
      NextLook(input, pipe, script, parses);
      var n := NextSize(input, pipe, script);
      LookKeeps(input + pipe[..n], pipe[n..], script[1..], parses);
    } else {
      LastLook(input, pipe, script, parses);
    }
  }

  lemma HeaderOf(input: Bytes, pipe: Bytes, body: Bytes, rest: Bytes)
    requires Sized(body) && input + pipe == Encode(body) + rest && Partial(input) && |input| >= 4
    ensures input[..4] == Length(|body|) && Value(input[..4]) == |body| && !BadLength(input)
    ensures |input| <= 4 + |body|
  {
    LengthRoundTrip(|body|);
    hide Value, Length;
    assert (input + pipe)[..4] == input[..4];
  }

  /** The frame and nothing else has been taken, and with it that part of the script; or something came before the end of it. */
  predicate Arrived(o: Outcome, left: Option<seq<Transfer>>, parses: Bytes -> bool, body: Bytes, rest: Bytes) {
    if left.None? then o.r.TimedOut? || o.r.Disconnected?
    else if parses(body) then o == Outcome(Frame(body), [], rest, left.value)
    else o == Outcome(Malformed(body), Encode(body), rest, left.value)
  }

  lemma FrameEnds(input: Bytes, pipe: Bytes, script: seq<Transfer>, parses: Bytes -> bool, body: Bytes, rest: Bytes)
    requires Partial(input) && Sized(body) && input + pipe == Encode(body) + rest && !Continues(input, pipe, script)
    requires |input| <= 4 + |body| && (|input| >= 4 ==> Value(input[..4]) == |body| && !BadLength(input))
    ensures Arrived(Look(input, pipe, script, parses), AfterFrame(|input|, |body|, script), parses, body, rest)
  {
    hide Value, Length, AfterFrame;
    assert |input| + |pipe| == 4 + |body| + |rest|;
    if |input| == 4 + |body| {
      assert (input + pipe)[..4 + |body|] == Encode(body) && (input + pipe)[4 + |body|..] == rest;
      assert input == Encode(body) && pipe == rest && input[4..] == body;
      NothingWanted(|input|, |body|, script);
    } else {
      NothingBrought(|input|, |body|, script);
    }
  }

  /** A frame whose bytes come is returned; it is not returned only when a time-out or the end of the pipe comes first. */
  lemma {:induction false} FrameArrives(input: Bytes, pipe: Bytes, script: seq<Transfer>, parses: Bytes -> bool, body: Bytes, rest: Bytes)
    requires Partial(input) && Sized(body) && input + pipe == Encode(body) + rest
    ensures |input| <= 4 + |body|
    ensures Arrived(Look(input, pipe, script, parses), AfterFrame(|input|, |body|, script), parses, body, rest)
    decreases |script|
  {
    hide Look, Value, Length, AfterFrame, Encode, Arrived;
    if |input| >= 4 { HeaderOf(input, pipe, body, rest); }
    if Continues(input, pipe, script) {
      NextLook(input, pipe, script, parses);
      var n := NextSize(input, pipe, script);
      assert |input| + |pipe| == 4 + |body| + |rest|;
      FrameArrives(input + pipe[..n], pipe[n..], script[1..], parses, body, rest);
      NextPiece(|input|, |body|, script);
    } else {
      FrameEnds(input, pipe, script, parses, body, rest);
    }
  }

  lemma NothingWanted(have: nat, size: nat, script: seq<Transfer>)
    requires have == 4 + size
    ensures AfterFrame(have, size, script) == Some(script)
  {
  }

  lemma NothingBrought(have: nat, size: nat, script: seq<Transfer>)
    requires have < 4 + size && (script == [] || !script[0].Piece? || script[0].size == 0)
    ensures AfterFrame(have, size, script).None?
  {
  }

  /** A length is refused exactly when its four bytes come and are out of bounds. */
  lemma {:induction false} InvalidExactly(input: Bytes, pipe: Bytes, script: seq<Transfer>, parses: Bytes -> bool)
    requires Partial(input)
    ensures Look(input, pipe, script, parses).r.InvalidLength? <==>
            |input| <= 4 <= |input + pipe| && BadLength(input + pipe) && After(4 - |input|, BUFFER, script).Some?
    decreases |script|
  {
    hide Value;
    assert |input| >= 4 ==> (input + pipe)[..4] == input[..4];
    if Continues(input, pipe, script) {
      hide Look;
      NextLook(input, pipe, script, parses);
      var n := NextSize(input, pipe, script);
      InvalidExactly(input + pipe[..n], pipe[n..], script[1..], parses);
    }
  }

  /** The pipe is not cut: pieces and time-outs only. */
  predicate Uncut(script: seq<Transfer>) {
    forall i :: 0 <= i < |script| ==> script[i].Expires? || (script[i].Piece? && script[i].size > 0)
  }

  function Pieces(script: seq<Transfer>): nat {
    if script == [] then 0 else (if script[0].Piece? then 1 else 0) + Pieces(script[1..])
  }

  function Expiries(script: seq<Transfer>): nat {
    if script == [] then 0 else (if script[0].Expires? then 1 else 0) + Expiries(script[1..])
  }

  /** With enough pieces, a call that does not return the frame has used up a time-out. */
  lemma {:induction false} FrameOrExpiry(input: Bytes, pipe: Bytes, script: seq<Transfer>, parses: Bytes -> bool, body: Bytes, rest: Bytes)
    requires Partial(input) && Sized(body) && input + pipe == Encode(body) + rest
    requires Uncut(script) && Pieces(script) >= |pipe|
    ensures var o := Look(input, pipe, script, parses);
            && Uncut(o.script) && Pieces(o.script) >= |o.pipe| && Expiries(o.script) <= Expiries(script)
            && (o.r.TimedOut? || o.r == (if parses(body) then Frame(body) else Malformed(body)))
            && (o.r.TimedOut? ==> Expiries(o.script) < Expiries(script))
    decreases |script|
  {
    if |input| >= 4 { HeaderOf(input, pipe, body, rest); }
    hide Value, Length;
    assert |input| + |pipe| == 4 + |body| + |rest|;
    if Continues(input, pipe, script) {
      hide Look;
      NextLook(input, pipe, script, parses);
      var n := NextSize(input, pipe, script);
      FrameOrExpiry(input + pipe[..n], pipe[n..], script[1..], parses, body, rest);
    } else if Wanted(input) == 0 {
      assert (input + pipe)[4..4 + |body|] == body;
      assert input[4..] == body;
    }
  }

  /** How a call that returns no frame ends is told by the last transfer it asked for; all before it brought something. */
  lemma {:induction false} LastTransferDecides(input: Bytes, pipe: Bytes, script: seq<Transfer>, parses: Bytes -> bool) returns (used: nat)
    requires Partial(input)
    ensures used <= |script| && Look(input, pipe, script, parses).script == script[used..]
    ensures forall i :: 0 <= i < used - 1 ==> script[i].Piece? && script[i].size > 0
    ensures var o := Look(input, pipe, script, parses);
            && (o.r.Disconnected? <==> used > 0 && (script[used - 1] == Gone || script[used - 1] == Piece(0)))
            && (used > 0 && script[used - 1] == Expires ==> o.r.TimedOut?)
            && (o.r.TimedOut? ==> (used > 0 && script[used - 1] == Expires) || used == |script| || o.pipe == [])
    decreases |script|
  {
    hide Value;
    if Continues(input, pipe, script) {
      hide Look;
      NextLook(input, pipe, script, parses);
      var n := NextSize(input, pipe, script);
      used := LastTransferDecides(input + pipe[..n], pipe[n..], script[1..], parses);
      used := used + 1;
    } else {
      used := |script| - |Look(input, pipe, script, parses).script|;
    }
  }

  class PipeChannel {
    /** What the peer has written and nobody has read yet. */
    var pipe: Bytes
    /** What has been read of a frame that is not complete. */
    var input: Bytes
    /** What the transfers to come will bring. */
    var script: seq<Transfer>
    /** The message parser accepts these bytes. */
    const parses: Bytes -> bool

    constructor (parses: Bytes -> bool, script: seq<Transfer>)
      ensures pipe == [] && input == [] && this.parses == parses && this.script == script
    {
      this.parses, this.script := parses, script;
      pipe, input := [], [];
    }

    method DecodeLength() returns (size: nat)
      requires |input| >= 4
      ensures size == Value(input[..4])
    {
      size := 0;
      var i := 0;
      while i < 4
        invariant 0 <= i <= 4
        invariant size == (match i
                           case 0 => 0
                           case 1 => input[0] as int
                           case 2 => input[0] as int + 0x100 * input[1] as int
                           case 3 => input[0] as int + 0x100 * input[1] as int + 0x1_0000 * input[2] as int
                           case _ => Value(input[..4]))
      {
        size := size + input[i] as int * Power256(i);
        i := i + 1;
      }
    }

    method Read() returns (r: Received)
      requires Partial(input)
      modifies this
      ensures Partial(input)
      ensures Outcome(r, input, pipe, script) == Look(old(input), old(pipe), old(script), parses)
    {
      hide Value;
      var target := 4;
      while true
        invariant Partial(input) && (|input| < 4 ==> target == 4)
        invariant Look(input, pipe, script, parses) == Look(old(input), old(pipe), old(script), parses)
        decreases |script|
      {
        if |input| >= 4 {
          var size := DecodeLength();
          if size == 0 || size > MAXIMUM {
            return InvalidLength;
          }
          target := 4 + size;
          if |input| == target {
            var body := input[4..];
            if !parses(body) {
              return Malformed(body);
            }
            input := [];
            return Frame(body);
          }
        }
        if script == [] {
          return TimedOut;
        }
        var transfer := script[0];
        script := script[1..];
        if transfer.Expires? {
          return TimedOut;
        }
        if transfer.Gone? || transfer.size == 0 {
          return Disconnected;
        }
        if pipe == [] {
          return TimedOut;
        }
        var received := Min(Min(transfer.size, target - |input|), Min(BUFFER, |pipe|));
        StillPartial(input, pipe, received);
        input := input + pipe[..received];
        pipe := pipe[received..];
      }
    }

    /** Repeated reads until the pipe is cut or the calls are used up. */
    method ReadAll(calls: nat, ghost bodies: seq<Bytes>) returns (received: seq<Bytes>)
      requires Partial(input) && input + pipe == Stream(bodies)
      requires forall body :: body in bodies ==> Sized(body) && parses(body)
      modifies this
      ensures Partial(input) && |received| <= |bodies| && received == bodies[..|received|]
      ensures input + pipe == Stream(bodies[|received|..])
      ensures Uncut(old(script)) && Pieces(old(script)) >= |old(pipe)| && calls >= |bodies| + Expiries(old(script)) ==>
                received == bodies && input == [] && pipe == []
    {
      hide Look, Pieces, Expiries, Uncut, Value, Length, BadLength, Encode;
      ghost var plenty := Uncut(script) && Pieces(script) >= |pipe|;
      received := [];
      for i := 0 to calls
        invariant Partial(input) && |received| <= |bodies| && received == bodies[..|received|]
        invariant input + pipe == Stream(bodies[|received|..])
        invariant plenty && received != bodies ==>
          Uncut(script) && Pieces(script) >= |pipe| && i + |bodies| - |received| + Expiries(script) <= |bodies| + Expiries(old(script))
      {
        ghost var rest := bodies[|received|..];
        LookKeeps(input, pipe, script, parses);
        if rest != [] {
          assert rest[0] in bodies;
          FrameArrives(input, pipe, script, parses, rest[0], Stream(rest[1..]));
          if Uncut(script) && Pieces(script) >= |pipe| {
            FrameOrExpiry(input, pipe, script, parses, rest[0], Stream(rest[1..]));
          }
        }
        var r := Read();
        if r.Frame? {
          received := received + [r.body];
        } else if !r.TimedOut? {
          break;
        }
      }
    }

    /** WriteBytes: whatever pieces the pipe takes, it takes them in order. */
    method WriteBytes(bytes: Bytes) returns (ok: bool)
      modifies `pipe, `script
      ensures ok <==> After(|bytes|, |bytes| + 1, old(script)).Some?
      ensures ok ==> pipe == old(pipe) + bytes && Some(script) == After(|bytes|, |bytes| + 1, old(script))
      ensures !ok ==> exists n :: 0 <= n < |bytes| && pipe == old(pipe) + bytes[..n]
    {
      var written := 0;
      while written < |bytes|
        invariant 0 <= written <= |bytes| && pipe == old(pipe) + bytes[..written]
        invariant After(|bytes| - written, |bytes| + 1, script) == After(|bytes|, |bytes| + 1, old(script))
        decreases |script|
      {
        if script == [] {
          return false;
        }
        var transfer := script[0];
        script := script[1..];
        if !transfer.Piece? || transfer.size == 0 {
          return false;
        }
        var count := Min(transfer.size, |bytes| - written);
        pipe := pipe + bytes[written..written + count];
        assert bytes[..written] + bytes[written..written + count] == bytes[..written + count];
        written := written + count;
      }
      assert bytes[..|bytes|] == bytes;
      ok := true;
    }

    method Write(body: Bytes) returns (ok: bool)
      modifies `pipe, `script
      ensures ok <==> Sized(body) && parses(body) && After(4 + |body|, 5 + |body|, old(script)).Some?
      ensures ok ==> pipe == old(pipe) + Encode(body)
      ensures !ok ==> exists n :: 0 <= n < |Encode(body)| && pipe == old(pipe) + Encode(body)[..n]
      ensures !(Sized(body) && parses(body)) ==> pipe == old(pipe)
    {
      assert pipe == pipe + Encode(body)[..0];
      if !Sized(body) || !parses(body) {
        return false;
      }
      var header := [];
      for i := 0 to 4
        invariant header == Length(|body|)[..i]
      {
        header := header + [Digit(|body|, i)];
      }
      assert header + body == Encode(body);
      ok := WriteBytes(header + body);
    }
  }

  // -------------------------------------------------------- the worker's side

  class Transport {
    var pipe: Bytes
    const parses: Bytes -> bool

    constructor (parses: Bytes -> bool)
      ensures pipe == [] && this.parses == parses
    {
      this.parses := parses;
      pipe := [];
    }

    /** Block until `count` bytes have come; None when the engine has closed the pipe. */
    method ReadExactly(count: nat) returns (data: Option<Bytes>)
      modifies `pipe
      ensures data.Some? ==> |data.value| == count && old(pipe) == data.value + pipe
      ensures data.None? ==> |old(pipe)| < count
    {
      var read: Bytes := [];
      while |read| < count
        invariant |read| <= count && old(pipe) == read + pipe
      {
        if pipe == [] {
          return None;
        }
        var received: nat :| 0 < received <= |pipe| && received <= count - |read|;
        read := read + pipe[..received];
        pipe := pipe[received..];
      }
      data := Some(read);
    }

    method Receive() returns (r: Received)
      modifies `pipe
      ensures r.Frame? ==> Sized(r.body) && parses(r.body) && old(pipe) == Encode(r.body) + pipe
      ensures r.Malformed? ==> Sized(r.body) && !parses(r.body) && old(pipe) == Encode(r.body) + pipe
      ensures r.InvalidLength? ==> exists b: Bytes :: |b| == 4 && !(0 < Value(b) <= MAXIMUM) && old(pipe) == b + pipe
      ensures r.Disconnected? ==> |old(pipe)| < 4 || |old(pipe)| < 4 + Value(old(pipe)[..4])
      ensures !r.TimedOut?
    {
      var header := ReadExactly(4);
      if header.None? {
        return Disconnected;
      }
      var size := Value(header.value);
      if !(0 < size <= MAXIMUM) {
        return InvalidLength;
      }
      var body := ReadExactly(size);
      if body.None? {
        return Disconnected;
      }
      ValueRoundTrip(header.value);
      assert old(pipe) == header.value + (body.value + pipe);
      r := if parses(body.value) then Frame(body.value) else Malformed(body.value);
    }

    /** A frame is written whole, or the write fails with as much of it in the pipe as the pipe took. */
    method Send(body: Bytes, taken: nat) returns (ok: bool)
      modifies `pipe
      ensures ok <==> 0 < |body| <= 1024 * 1024 && taken >= 4 + |body|
      ensures ok ==> pipe == old(pipe) + Encode(body)
      ensures 0 < |body| <= 1024 * 1024 && !ok ==> pipe == old(pipe) + Encode(body)[..taken]
      ensures !(0 < |body| <= 1024 * 1024) ==> pipe == old(pipe)
    {
      if !Sized(body) {
        return false;
      }
      var block := Length(|body|) + body;
      var count := Min(taken, |block|);
      pipe := pipe + block[..count];
      ok := count == |block|;
    }

    /** Until nothing more comes: exactly the frames that were written, in order. */
    method ReceiveAll(ghost bodies: seq<Bytes>) returns (received: seq<Bytes>)
      requires pipe == Stream(bodies) && forall body :: body in bodies ==> Sized(body) && parses(body)
      modifies `pipe
      ensures received == bodies
    {
      received := [];
      while true
        invariant |received| <= |bodies| && received == bodies[..|received|]
        invariant pipe == Stream(bodies[|received|..])
        decreases |bodies| - |received|
      {
        ghost var rest := bodies[|received|..];
        NextOfStream(rest, parses);
        if rest != [] {
          assert rest[0] in rest;
          StreamStarts(rest);
        }
        var r := Receive();
        if r.Disconnected? {
          break;
        }
        received := received + [r.body];
      }
    }
  }
}
