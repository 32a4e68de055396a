/**
 The KISS framing of tools/kiss_test_client.py: the encoder, and the decoder that takes a stream
 in pieces. Commands and ports are integers; the source masks both to four bits.
 */
module Kiss {
  import opened Bytes
  import opened Options

  const FEND: Byte := 0xC0
  const FESC: Byte := 0xDB
  const TFEND: Byte := 0xDC
  const TFESC: Byte := 0xDD
  const RETURN: Byte := 0xFF

  // ---- encoding ----

  /** The type byte of a frame. */
  function Kind(command: int, port: int): Byte {
    if command == RETURN then RETURN else (port % 16) * 16 + command % 16
  }

  function EscapedByte(b: Byte): seq<Byte> {
    if b == FEND then [FESC, TFEND] else if b == FESC then [FESC, TFESC] else [b]
  }

  function Escaped(data: seq<Byte>): seq<Byte> {
    if data == [] then [] else Escaped(data[..|data| - 1]) + EscapedByte(data[|data| - 1])
  }

  /** Type byte and data, escaped, between two FENDs. */
  function Encoded(data: seq<Byte>, command: int, port: int): seq<Byte> {
    [FEND] + Escaped([Kind(command, port)] + data) + [FEND]
  }

  method KissEncode(data: seq<Byte>, command: int, port: int) returns (out: seq<Byte>)
    ensures out == Encoded(data, command, port)
  {
    var content := [Kind(command, port)] + data;
    out := [FEND];
    for i := 0 to |content|
      invariant out == [FEND] + Escaped(content[..i])
    {
      var b := content[i];
      assert content[..i + 1][..i] == content[..i];
      if b == FEND {
        out := out + [FESC, TFEND];
      } else if b == FESC {
        out := out + [FESC, TFESC];
      } else {
        out := out + [b];
      }
    }
    assert content[..|content|] == content;
    out := out + [FEND];
  }

  /** Encoded interiors contain no FEND. */
  lemma {:induction false} EscapedHasNoFend(data: seq<Byte>)
    ensures FEND !in Escaped(data)
  {
    if data != [] { EscapedHasNoFend(data[..|data| - 1]); }
  }

  /** The bytes that need an escape. */
  function Specials(data: seq<Byte>): nat {
    if data == [] then 0
    else Specials(data[..|data| - 1]) + if data[|data| - 1] == FEND || data[|data| - 1] == FESC then 1 else 0
  }

  /** Nothing else is escaped. */
  lemma {:induction false} EscapedLength(data: seq<Byte>)
    ensures |Escaped(data)| == |data| + Specials(data)
  {
    if data != [] { EscapedLength(data[..|data| - 1]); }
  }

  /** A frame of both special bytes, byte for byte. */
  lemma EncodedBytes(data: seq<Byte>)
    requires data == [0xC0, 0xDB, 0x41]
    ensures Encoded(data, 2, 3) == [0xC0, 0x32, 0xDB, 0xDC, 0xDB, 0xDD, 0x41, 0xC0]
  {
    var all := [Kind(2, 3)] + data;
    assert all[..3][..2] == all[..2] && all[..2][..1] == all[..1] && all[..1][..0] == [];
    assert Escaped(all[..1]) == [0x32];
    assert Escaped(all[..2]) == [0x32, 0xDB, 0xDC];
    assert Escaped(all[..3]) == [0x32, 0xDB, 0xDC, 0xDB, 0xDD];
    assert Escaped(all) == Escaped(all[..3]) + [0x41];
  }

  // ---- decoding ----

  /** A decoded frame, or what was wrong with one. */
  datatype Item =
    | Frame(port: int, command: int, data: seq<Byte>)
    | EndedInsideEscape
    | AfterFesc(byte: Byte)

  /** The decoder's fields. */
  datatype State = State(buffer: seq<Byte>, inFrame: bool, escaped: bool, bad: Option<Item>)

  const START := State([], false, false, None)

  function FrameOf(buffer: seq<Byte>): Item
    requires buffer != []
  {
    if buffer[0] == RETURN then Frame(0, RETURN, buffer[1..])
    else Frame(buffer[0] / 16, buffer[0] % 16, buffer[1..])
  }

  /** What a FEND completes: nothing outside a frame or after no bytes at all. */
  function Completed(s: State): seq<Item> {
    if !s.inFrame then []
    else if s.bad.Some? then [s.bad.value]
    else if s.escaped then [EndedInsideEscape]
    else if s.buffer != [] then [FrameOf(s.buffer)]
    else []
  }

  function Next(s: State, b: Byte): State {
    if b == FEND then State([], true, false, None)
    else if !s.inFrame || s.bad.Some? then s
    else if s.escaped then
      if b == TFEND then s.(escaped := false, buffer := s.buffer + [FEND])
      else if b == TFESC then s.(escaped := false, buffer := s.buffer + [FESC])
      else s.(escaped := false, bad := Some(AfterFesc(b)))
    else if b == FESC then s.(escaped := true)
    else s.(buffer := s.buffer + [b])
  }

  /** The state after a stream, and the items it yields. */
  function Run(s: State, stream: seq<Byte>): State {
    if stream == [] then s else Next(Run(s, stream[..|stream| - 1]), stream[|stream| - 1])
  }

  function Items(s: State, stream: seq<Byte>): seq<Item> {
    if stream == [] then []
    else
      var rest, b := stream[..|stream| - 1], stream[|stream| - 1];
      Items(s, rest) + if b == FEND then Completed(Run(s, rest)) else []
  }

  class KissDecoder {
    var buffer: seq<Byte>
    var inFrame: bool
    var escaped: bool
    var bad: Option<Item>

    function Current(): State
      reads this
    {
      State(buffer, inFrame, escaped, bad)
    }

    constructor ()
      ensures Current() == START
    {
      buffer, inFrame, escaped, bad := [], false, false, None;
    }

    method Push(chunk: seq<Byte>) returns (out: seq<Item>)
      modifies this
      ensures Current() == Run(old(Current()), chunk)
      ensures out == Items(old(Current()), chunk)
    {
      out := [];
      for i := 0 to |chunk|
        invariant Current() == Run(old(Current()), chunk[..i])
        invariant out == Items(old(Current()), chunk[..i])
      {
        var b := chunk[i];
        assert chunk[..i + 1][..i] == chunk[..i];
        var item := PushByte(b);
        out := out + item;
      }
      assert chunk[..|chunk|] == chunk;
    }

    /** The loop's body: one byte. */
    method PushByte(b: Byte) returns (out: seq<Item>)
      modifies this
      ensures Current() == Next(old(Current()), b)
      ensures out == if b == FEND then Completed(old(Current())) else []
    {
      out := [];
      if b == FEND {
        if inFrame {
          if bad.Some? || escaped {
            out := [if bad.Some? then bad.value else EndedInsideEscape];
          } else if buffer != [] {
            var kind := buffer[0];
            if kind == RETURN {
              out := [Frame(0, RETURN, buffer[1..])];
            } else {
              out := [Frame(kind / 16, kind % 16, buffer[1..])];
            }
          }
        }
        buffer, inFrame, escaped, bad := [], true, false, None;
        return;
      }
      if !inFrame || bad.Some? {
        return;
      }
      if escaped {
        escaped := false;
        if b == TFEND {
          buffer := buffer + [FEND];
        } else if b == TFESC {
          buffer := buffer + [FESC];
        } else {
          bad := Some(AfterFesc(b));
        }
      } else if b == FESC {
        escaped := true;
      } else {
        buffer := buffer + [b];
      }
    }
  }

  // ---- chunks ----

  lemma {:induction false} RunConcat(s: State, a: seq<Byte>, b: seq<Byte>)
    ensures Run(s, a + b) == Run(Run(s, a), b)
    ensures Items(s, a + b) == Items(s, a) + Items(Run(s, a), b)
  {
    if b == [] {
      assert a + b == a;
    } else {
      var rest := b[..|b| - 1];
      RunConcat(s, a, rest);
      assert (a + b)[..|a + b| - 1] == a + rest;
    }
  }

  /** What a decoder yields over a sequence of pushes. */
  function PushedItems(s: State, chunks: seq<seq<Byte>>): seq<Item> {
    if chunks == [] then []
    else
      var rest := chunks[..|chunks| - 1];
      PushedItems(s, rest) + Items(Run(s, Flat(rest)), chunks[|chunks| - 1])
  }

  /** How the stream is cut into chunks does not matter. */
  lemma {:induction false} ChunkingIsIrrelevant(s: State, chunks: seq<seq<Byte>>)
    ensures PushedItems(s, chunks) == Items(s, Flat(chunks))
  {
    if chunks != [] {
      var rest := chunks[..|chunks| - 1];
      ChunkingIsIrrelevant(s, rest);
      FlatLast(chunks);
      RunConcat(s, Flat(rest), chunks[|chunks| - 1]);
    }
  }

  // ---- round trip ----

  /** Inside a frame, with `buffer` received and no escape under way. */
  function Receiving(buffer: seq<Byte>): State {
    State(buffer, true, false, None)
  }

  /** Escaped bytes arrive as they were. */
  lemma {:induction false} EscapedArrives(buffer: seq<Byte>, data: seq<Byte>)
    ensures Run(Receiving(buffer), Escaped(data)) == Receiving(buffer + data)
  {
    if data == [] {
      assert buffer + [] == buffer;
    } else {
      var rest, b := data[..|data| - 1], data[|data| - 1];
      EscapedArrives(buffer, rest);
      RunConcat(Receiving(buffer), Escaped(rest), EscapedByte(b));
      ByteArrives(buffer + rest, b);
      LastByte(buffer, data);
    }
  }

  lemma LastByte(buffer: seq<Byte>, data: seq<Byte>)
    requires data != []
    ensures buffer + data[..|data| - 1] + [data[|data| - 1]] == buffer + data
  {
  }

  lemma ByteArrives(buffer: seq<Byte>, b: Byte)
    ensures Run(Receiving(buffer), EscapedByte(b)) == Receiving(buffer + [b])
  {
    var s, e := Receiving(buffer), EscapedByte(b);
    RunOne(s, e[0]);
    if |e| == 2 {
      RunConcat(s, [e[0]], [e[1]]);
      RunOne(Next(s, e[0]), e[1]);
      assert e == [e[0]] + [e[1]];
    } else {
      assert e == [b];
    }
  }

  lemma {:induction false} NoFendNoItems(s: State, stream: seq<Byte>)
    requires FEND !in stream
    ensures Items(s, stream) == []
  {
    if stream != [] { NoFendNoItems(s, stream[..|stream| - 1]); }
  }

  lemma RunOne(s: State, b: Byte)
    ensures Run(s, [b]) == Next(s, b)
    ensures Items(s, [b]) == if b == FEND then Completed(s) else []
  {
    assert [b][..0] == [];
  }

  /** A frame on the wire finishes whatever was under way and then yields what it carries. */
  lemma FrameOnTheWire(s: State, data: seq<Byte>, command: int, port: int)
    ensures Items(s, Encoded(data, command, port))
         == Completed(s) + [FrameOf([Kind(command, port)] + data)]
    ensures Run(s, Encoded(data, command, port)) == Receiving([])
  {
    var content := [Kind(command, port)] + data;
    ContentOnTheWire(s, content);
    RunConcat(s, [FEND] + Escaped(content), [FEND]);
    RunOne(Receiving(content), FEND);
  }

  lemma ContentOnTheWire(s: State, content: seq<Byte>)
    ensures Run(s, [FEND] + Escaped(content)) == Receiving(content)
    ensures Items(s, [FEND] + Escaped(content)) == Completed(s)
  {
    RunOne(s, FEND);
    RunConcat(s, [FEND], Escaped(content));
    assert Items(Receiving([]), Escaped(content)) == [] by {
      EscapedHasNoFend(content);
      NoFendNoItems(Receiving([]), Escaped(content));
    }
    assert Run(Receiving([]), Escaped(content)) == Receiving(content) by {
      EscapedArrives([], content);
      assert [] + content == content;
    }
  }

  /** The frames whose command and port survive encoding: nibbles, except the combination that
      reads as RETURN, and RETURN itself at port 0. */
  predicate Survives(command: int, port: int) {
    || (0 <= command < 16 && 0 <= port < 16 && !(command == 15 && port == 15))
    || (command == RETURN && port == 0)
  }

  /** The round trip holds exactly for those. */
  lemma RoundTripExactly(data: seq<Byte>, command: int, port: int)
    ensures Items(Receiving([]), Encoded(data, command, port))
              == [FrameOf([Kind(command, port)] + data)]
    ensures FrameOf([Kind(command, port)] + data) == Frame(port, command, data)
       <==> Survives(command, port)
  {
    FrameOnTheWire(Receiving([]), data, command, port);
    FrameSurvives(data, command, port);
  }

  lemma FrameSurvives(data: seq<Byte>, command: int, port: int)
    ensures FrameOf([Kind(command, port)] + data) == Frame(port, command, data)
       <==> Survives(command, port)
  {
    assert ([Kind(command, port)] + data)[1..] == data;
    KindSplits(command, port);
  }

  lemma KindSplits(command: int, port: int)
    ensures var k := Kind(command, port);
            if command == RETURN then k == RETURN
            else k / 16 == port % 16 && k % 16 == command % 16
                 && (k == RETURN <==> port % 16 == 15 && command % 16 == 15)
  {
  }

  // ---- any stream at all ----

  /** What stands between two FENDs, its escapes undone; or the first thing wrong with it. */
  datatype Unescaping = Clean(data: seq<Byte>) | Broken(item: Item)

  function Behind(b: Byte, u: Unescaping): Unescaping {
    match u
    case Clean(data) => Clean([b] + data)
    case Broken(_) => u
  }

  function Unescaped(body: seq<Byte>): Unescaping {
    if body == [] then Clean([])
    else if body[0] != FESC then Behind(body[0], Unescaped(body[1..]))
    else if |body| == 1 then Broken(EndedInsideEscape)
    else if body[1] == TFEND then Behind(FEND, Unescaped(body[2..]))
    else if body[1] == TFESC then Behind(FESC, Unescaped(body[2..]))
    else Broken(AfterFesc(body[1]))
  }

  /** What it is decoded as. */
  function Decoded(body: seq<Byte>): seq<Item> {
    match Unescaped(body)
    case Clean(data) => if data == [] then [] else [FrameOf(data)]
    case Broken(item) => [item]
  }

  function DecodedAll(bodies: seq<seq<Byte>>): seq<Item> {
    if bodies == [] then [] else DecodedAll(bodies[..|bodies| - 1]) + Decoded(bodies[|bodies| - 1])
  }

  /** Each of the bodies, and the FEND that ends it. */
  function Ended(bodies: seq<seq<Byte>>): seq<Byte> {
    if bodies == [] then [] else Ended(bodies[..|bodies| - 1]) + (bodies[|bodies| - 1] + [FEND])
  }

  lemma {:induction false} BadStays(s: State, rest: seq<Byte>)
    requires s.bad.Some? && FEND !in rest
    ensures Run(s, rest) == s
  {
    if rest != [] { BadStays(s, rest[..|rest| - 1]); }
  }

  lemma {:induction false} NoiseStays(s: State, noise: seq<Byte>)
    requires !s.inFrame && FEND !in noise
    ensures Run(s, noise) == s
  {
    if noise != [] { NoiseStays(s, noise[..|noise| - 1]); }
  }

  /** Whether the decoder, having read a body, holds what it unescapes to. */
  predicate Holds(s: State, buffer: seq<Byte>, u: Unescaping) {
    match u
    case Clean(data) => s == Receiving(buffer + data)
    case Broken(EndedInsideEscape) => s.inFrame && s.escaped && s.bad.None?
    case Broken(item) => s.inFrame && s.bad == Some(item)
  }

  lemma {:induction false} BodyIsRead(buffer: seq<Byte>, body: seq<Byte>)
    requires FEND !in body
    ensures Holds(Run(Receiving(buffer), body), buffer, Unescaped(body))
    decreases |body|
  {
    if body == [] {
      assert buffer + [] == buffer;
    } else if body[0] != FESC {
      ReadThen(buffer, body, 1, body[0]);
    } else if |body| == 1 {
      assert body == [FESC];
      RunOne(Receiving(buffer), FESC);
    } else if body[1] == TFEND {
      TwoRead(buffer, body);
      ReadThen(buffer, body, 2, FEND);
    } else if body[1] == TFESC {
      TwoRead(buffer, body);
      ReadThen(buffer, body, 2, FESC);
    } else {
      TwoRead(buffer, body);
      assert body == body[..2] + body[2..];
      RunConcat(Receiving(buffer), body[..2], body[2..]);
      BadStays(Run(Receiving(buffer), body[..2]), body[2..]);
    }
  }

  lemma TwoRead(buffer: seq<Byte>, body: seq<Byte>)
    requires |body| >= 2 && FEND !in body
    ensures Run(Receiving(buffer), body[..2]) == Next(Next(Receiving(buffer), body[0]), body[1])
  {
    assert body[..2] == [body[0]] + [body[1]];
    RunConcat(Receiving(buffer), [body[0]], [body[1]]);
    RunOne(Receiving(buffer), body[0]);
    RunOne(Next(Receiving(buffer), body[0]), body[1]);
  }

  /** `b` received from the first `k` bytes, and then the rest. */
  lemma ReadThen(buffer: seq<Byte>, body: seq<Byte>, k: nat, b: Byte)
    requires 1 <= k <= 2 && k <= |body| && FEND !in body
    requires if k == 1 then b == body[0] != FESC
             else body[0] == FESC && ((body[1] == TFEND && b == FEND) || (body[1] == TFESC && b == FESC))
    ensures Holds(Run(Receiving(buffer), body), buffer, Behind(b, Unescaped(body[k..])))
    decreases |body|, 0
  {
    assert Run(Receiving(buffer), body[..k]) == Receiving(buffer + [b]) by {
      if k == 1 {
        assert body[..1] == [body[0]];
        RunOne(Receiving(buffer), body[0]);
      } else {
        TwoRead(buffer, body);
      }
    }
    assert body == body[..k] + body[k..];
    RunConcat(Receiving(buffer), body[..k], body[k..]);
    BodyIsRead(buffer + [b], body[k..]);
    BehindHolds(Run(Receiving(buffer), body), buffer, b, Unescaped(body[k..]));
  }

  lemma BehindHolds(s: State, buffer: seq<Byte>, b: Byte, u: Unescaping)
    requires Holds(s, buffer + [b], u)
    ensures Holds(s, buffer, Behind(b, u))
  {
    if u.Clean? { assert buffer + [b] + u.data == buffer + ([b] + u.data); }
  }

  /** Of any stream, cut at its FENDs: what comes before the first is lost, what comes after the last
      waits, and each piece between is decoded by itself. */
  lemma {:induction false} StreamIsDecoded(noise: seq<Byte>, bodies: seq<seq<Byte>>, tail: seq<Byte>)
    requires FEND !in noise && FEND !in tail && forall b <- bodies :: FEND !in b
    ensures Items(START, noise + [FEND] + Ended(bodies) + tail) == DecodedAll(bodies)
  {
    var stream := noise + [FEND] + Ended(bodies);
    PiecesAreDecoded(noise, bodies);
    RunConcat(START, stream, tail);
    NoFendNoItems(Run(START, stream), tail);
  }

  lemma {:induction false} PiecesAreDecoded(noise: seq<Byte>, bodies: seq<seq<Byte>>)
    requires FEND !in noise && forall b <- bodies :: FEND !in b
    ensures var stream := noise + [FEND] + Ended(bodies);
            Items(START, stream) == DecodedAll(bodies) && Run(START, stream) == Receiving([])
  {
    if bodies == [] {
      assert noise + [FEND] + [] == noise + [FEND];
      RunConcat(START, noise, [FEND]);
      NoiseStays(START, noise);
      NoFendNoItems(START, noise);
      RunOne(START, FEND);
    } else {
      var rest, body := bodies[..|bodies| - 1], bodies[|bodies| - 1];
      var stream := noise + [FEND] + Ended(rest);
      PiecesAreDecoded(noise, rest);
      assert noise + [FEND] + Ended(bodies) == stream + (body + [FEND]);
      RunConcat(START, stream, body + [FEND]);
      PieceIsDecoded(body);
    }
  }

  lemma PieceIsDecoded(body: seq<Byte>)
    requires FEND !in body
    ensures Items(Receiving([]), body + [FEND]) == Decoded(body)
    ensures Run(Receiving([]), body + [FEND]) == Receiving([])
  {
    RunConcat(Receiving([]), body, [FEND]);
    NoFendNoItems(Receiving([]), body);
    BodyIsRead([], body);
    RunOne(Run(Receiving([]), body), FEND);
    if Unescaped(body).Clean? { assert [] + Unescaped(body).data == Unescaped(body).data; }
  }

  /** A frame to send. */
  datatype Outgoing = Outgoing(data: seq<Byte>, command: int, port: int)

  function Wire(frames: seq<Outgoing>): seq<Byte> {
    if frames == [] then []
    else
      var f := frames[|frames| - 1];
      Wire(frames[..|frames| - 1]) + Encoded(f.data, f.command, f.port)
  }

  /** The frames as a receiver should see them. */
  function Sent(frames: seq<Outgoing>): seq<Item> {
    if frames == [] then []
    else
      var f := frames[|frames| - 1];
      Sent(frames[..|frames| - 1]) + [Frame(f.port, f.command, f.data)]
  }

  /** What the frames come back as. */
  function Arriving(frames: seq<Outgoing>): seq<Item> {
    if frames == [] then []
    else
      var f := frames[|frames| - 1];
      Arriving(frames[..|frames| - 1]) + [FrameOf([Kind(f.command, f.port)] + f.data)]
  }

  /** Any chunking of any number of encoded frames yields exactly those frames when each survives
      encoding, and otherwise does not. */
  lemma FramesThroughChunks(frames: seq<Outgoing>, chunks: seq<seq<Byte>>)
    requires Flat(chunks) == Wire(frames)
    ensures PushedItems(START, chunks) == Sent(frames) <==>
            forall i | 0 <= i < |frames| :: Survives(frames[i].command, frames[i].port)
  {
    ChunkingIsIrrelevant(START, chunks);
    FramesInOneStream(frames);
    ArriveAsSent(frames);
  }

  lemma {:induction false} FramesInOneStream(frames: seq<Outgoing>)
    ensures Items(START, Wire(frames)) == Arriving(frames)
    ensures Run(START, Wire(frames))
         == if frames == [] then START else Receiving([])
  {
    if frames != [] {
      var rest, f := frames[..|frames| - 1], frames[|frames| - 1];
      FramesInOneStream(rest);
      var s := Run(START, Wire(rest));
      assert Completed(s) == [];
      OneFrameMore(Wire(rest), s, f);
    }
  }

  lemma OneFrameMore(wire: seq<Byte>, s: State, f: Outgoing)
    requires s == Run(START, wire) && Completed(s) == []
    ensures var longer := wire + Encoded(f.data, f.command, f.port);
            && Items(START, longer) == Items(START, wire) + [FrameOf([Kind(f.command, f.port)] + f.data)]
            && Run(START, longer) == Receiving([])
  {
    RunConcat(START, wire, Encoded(f.data, f.command, f.port));
    FrameOnTheWire(s, f.data, f.command, f.port);
  }

  lemma {:induction false} ArriveAsSent(frames: seq<Outgoing>)
    ensures |Arriving(frames)| == |Sent(frames)| == |frames|
    ensures Arriving(frames) == Sent(frames) <==>
            forall i | 0 <= i < |frames| :: Survives(frames[i].command, frames[i].port)
  {
    if frames != [] {
      var n, f := |frames| - 1, frames[|frames| - 1];
      ArriveAsSent(frames[..n]);
      FrameSurvives(f.data, f.command, f.port);
      assert Arriving(frames)[..n] == Arriving(frames[..n]) && Sent(frames)[..n] == Sent(frames[..n]);
      assert Arriving(frames)[n] == FrameOf([Kind(f.command, f.port)] + f.data);
      assert Sent(frames)[n] == Frame(f.port, f.command, f.data);
    }
  }

  /** Command 15 on port 15 comes back as RETURN on port 0. */
  lemma LastNibblesReadAsReturn(data: seq<Byte>)
    ensures Items(START, Encoded(data, 15, 15)) == [Frame(0, RETURN, data)]
    ensures [Frame(0, RETURN, data)] != [Frame(15, 15, data)]
  {
    FrameOnTheWire(START, data, 15, 15);
    assert ([Kind(15, 15)] + data)[1..] == data;
  }

  /** From any state, after any garbage, the next encoded frame is recovered whole, as the last
      item. */
  lemma RecoversAfterGarbage(s: State, garbage: seq<Byte>, data: seq<Byte>, command: int, port: int)
    ensures var items := Items(s, garbage + Encoded(data, command, port));
            items != [] && items[|items| - 1] == FrameOf([Kind(command, port)] + data)
  {
    RunConcat(s, garbage, Encoded(data, command, port));
    FrameOnTheWire(Run(s, garbage), data, command, port);
  }
}
