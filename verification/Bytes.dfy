/** Bytes, 32-bit little-endian words, and streams that arrive in pieces. */
module Bytes {

  type Byte = x: nat | x < 256
  type Word = x: nat | x < 0x1_0000_0000

  /** A sample of silence: a float's zero. */
  const SILENT: Word := 0

  /** The pieces run together. */
  function Flat<T>(pieces: seq<seq<T>>): seq<T> {
    if pieces == [] then [] else pieces[0] + Flat(pieces[1..])
  }

  lemma {:induction false} FlatAppend<T>(pieces: seq<seq<T>>, last: seq<T>)
    ensures Flat(pieces + [last]) == Flat(pieces) + last
  {
    if pieces == [] {
      assert Flat([last]) == last + Flat([]);
    } else {
      assert (pieces + [last])[1..] == pieces[1..] + [last];
      FlatAppend(pieces[1..], last);
    }
  }

  lemma FlatLast<T>(pieces: seq<seq<T>>)
    requires pieces != []
    ensures Flat(pieces) == Flat(pieces[..|pieces| - 1]) + pieces[|pieces| - 1]
  {
    FlatAppend(pieces[..|pieces| - 1], pieces[|pieces| - 1]);
    assert pieces == pieces[..|pieces| - 1] + [pieces[|pieces| - 1]];
  }

  // ---- words ----

  function Packed(w: Word): (bs: seq<Byte>)
    ensures |bs| == 4
  {
    var q: nat := w / 256;
    var r: nat := q / 256;
    [w % 256, q % 256, r % 256, r / 256]
  }

  /** The lowest byte comes first. */
  lemma PackedIsLittleEndian(w: Word)
    ensures |Packed(w)| == 4
    ensures var b0: nat, b1: nat, b2: nat, b3: nat := Packed(w)[0], Packed(w)[1], Packed(w)[2], Packed(w)[3];
            b0 + 256 * b1 + 65_536 * b2 + 16_777_216 * b3 == w
  {
  }

  /** `low` below the digits of `high`. */
  function Shifted(low: Byte, high: nat): nat {
    var l: nat := low;
    l + 256 * high
  }

  lemma ShiftedDigits(low: Byte, high: nat)
    ensures Shifted(low, high) % 256 == low && Shifted(low, high) / 256 == high
  {
  }

  function Unpacked(bs: seq<Byte>): Word
    requires |bs| == 4
  {
    Shifted(bs[0], Shifted(bs[1], Shifted(bs[2], bs[3])))
  }

  lemma UnpackedPacked(w: Word)
    ensures Unpacked(Packed(w)) == w
  {
  }

  lemma PackedUnpacked(bs: seq<Byte>)
    requires |bs| == 4
    ensures Packed(Unpacked(bs)) == bs
  {
    ShiftedDigits(bs[0], Shifted(bs[1], Shifted(bs[2], bs[3])));
    ShiftedDigits(bs[1], Shifted(bs[2], bs[3]));
    ShiftedDigits(bs[2], bs[3]);
  }

  /** Words one after another on the wire, and read back. */
  function PackedAll(ws: seq<Word>): (bs: seq<Byte>)
    ensures |bs| == 4 * |ws|
  {
    if ws == [] then [] else Packed(ws[0]) + PackedAll(ws[1..])
  }

  function UnpackedAll(bs: seq<Byte>, n: nat): (ws: seq<Word>)
    requires |bs| == 4 * n
    ensures |ws| == n
  {
    if n == 0 then [] else [Unpacked(bs[..4])] + UnpackedAll(bs[4..], n - 1)
  }

  lemma {:induction false} UnpackedAllPacked(ws: seq<Word>)
    ensures UnpackedAll(PackedAll(ws), |ws|) == ws
  {
    if ws != [] {
      var bs := PackedAll(ws);
      UnpackedPacked(ws[0]);
      assert bs[..4] == Packed(ws[0]) && bs[4..] == PackedAll(ws[1..]);
      UnpackedAllPacked(ws[1..]);
    }
  }

  lemma {:induction false} PackedAllUnpacked(bs: seq<Byte>, n: nat)
    requires |bs| == 4 * n
    ensures PackedAll(UnpackedAll(bs, n)) == bs
  {
    if n > 0 {
      PackedUnpacked(bs[..4]);
      PackedAllUnpacked(bs[4..], n - 1);
      assert UnpackedAll(bs, n)[1..] == UnpackedAll(bs[4..], n - 1);
      assert bs == bs[..4] + bs[4..];
    }
  }

  // ---- a stream read in pieces: what has come, from `at` on, and the pieces still to come ----

  lemma NothingTaken(sock: seq<seq<Byte>>)
    ensures [] + ([][0..] + Flat(sock)) == Flat(sock)
  {
  }

  lemma NothingMore(inbox: seq<Byte>, at: nat)
    requires at <= |inbox|
    ensures |inbox[at..] + Flat([])| == |inbox| - at
  {
  }

  lemma OnePieceMore(left: seq<Byte>, sock: seq<seq<Byte>>)
    requires sock != []
    ensures left + Flat(sock) == (left + sock[0]) + Flat(sock[1..])
  {
  }

  lemma Front(inbox: seq<Byte>, at: nat, sock: seq<seq<Byte>>, n: nat)
    requires at + n <= |inbox|
    ensures (inbox[at..] + Flat(sock))[..n] == inbox[at..at + n]
    ensures (inbox[at..] + Flat(sock))[n..] == inbox[at + n..] + Flat(sock)
  {
  }

  lemma TakenSoFar(returned: seq<Byte>, inbox: seq<Byte>, at: nat, sock: seq<seq<Byte>>, n: nat)
    requires at + n <= |inbox|
    ensures returned + (inbox[at..] + Flat(sock))
            == (returned + inbox[at..at + n]) + (inbox[at + n..] + Flat(sock))
  {
  }
}
