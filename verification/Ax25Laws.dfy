/**
 What callsigns, addresses and descriptions of `Ax25` are, told without the functions that make them.
 */
module Ax25Laws {
  import opened Bytes
  import opened Options
  import opened Ax25

  // ---- a callsign's text ----

  predicate IsDigit(c: char) {
    '0' <= c <= '9'
  }

  ghost predicate AllDigits(s: string) {
    forall i | 0 <= i < |s| :: IsDigit(s[i])
  }

  lemma {:induction false} DecimalIsDigits(n: nat)
    ensures Decimal(n) != "" && AllDigits(Decimal(n))
  {
    if n >= 10 {
      DecimalIsDigits(n / 10);
      DecimalIsDigits(n % 10);
    }
  }

  lemma {:induction false} DigitsJoin(a: string, d: char, value: int, digitNext: bool)
    requires AllDigits(a) && a != "" && IsDigit(d) && ParseDigits(a, value, digitNext).Some?
    ensures ParseDigits(a + [d], value, digitNext)
         == Some(10 * ParseDigits(a, value, digitNext).value + (d as int - '0' as int))
    decreases |a|
  {
    assert (a + [d])[1..] == a[1..] + [d];
    var next := 10 * value + (a[0] as int - '0' as int);
    if |a| == 1 {
      assert a[1..] == "" && a[1..] + [d] == [d];
      DigitsEnd(d, next);
    } else {
      DigitsJoin(a[1..], d, next, false);
    }
  }

  lemma DigitsEnd(d: char, value: int)
    requires IsDigit(d)
    ensures forall next :: ParseDigits([d], value, next) == Some(10 * value + (d as int - '0' as int))
  {
    assert [d][1..] == "";
  }

  /** Decimal digits read back as their number. */
  lemma {:induction false} DecimalReads(n: nat)
    ensures ParseDigits(Decimal(n), 0, true) == Some(n)
  {
    if n < 10 {
      DigitsEnd(Decimal(n)[0], 0);
    } else {
      DecimalReads(n / 10);
      DecimalIsDigits(n / 10);
      DigitsJoin(Decimal(n / 10), ('0' as int + n % 10) as char, 0, true);
    }
  }

  lemma NumberReads(n: nat)
    ensures ParseInt(Decimal(n)) == Some(n)
  {
    DecimalIsDigits(n);
    DecimalReads(n);
  }

  ghost predicate NoDash(s: string) {
    forall i | 0 <= i < |s| :: s[i] != '-'
  }

  lemma {:induction false} PartitionAtDash(base: string, text: string)
    requires NoDash(base)
    ensures Partition(base + "-" + text) == (base, text)
  {
    if base == "" {
      assert ("" + "-" + text)[1..] == text;
    } else {
      assert (base + "-" + text)[1..] == base[1..] + "-" + text;
      PartitionAtDash(base[1..], text);
      assert [base[0]] + base[1..] == base;
    }
  }

  lemma {:induction false} NothingToPartition(base: string)
    requires NoDash(base)
    ensures Partition(base) == (base, "")
  {
    if base != "" {
      NothingToPartition(base[1..]);
      assert [base[0]] + base[1..] == base;
    }
  }

  /** The same text in capitals: a small letter becomes the capital of its place in the alphabet. */
  ghost predicate InCapitals(s: string, u: string) {
    && |u| == |s|
    && forall i | 0 <= i < |s| ::
         if 'a' <= s[i] <= 'z' then 'A' <= u[i] <= 'Z' && u[i] as int - 'A' as int == s[i] as int - 'a' as int
         else u[i] == s[i]
  }

  lemma UpperOfCall(base: string, n: nat)
    requires NoDash(base)
    ensures Upper(base + "-" + Decimal(n)) == Upper(base) + "-" + Decimal(n)
    ensures NoDash(Upper(base)) && InCapitals(base, Upper(base))
  {
    DecimalIsDigits(n);
  }

  /** A base and a number read as a callsign exactly when the base has one to six characters and the
      number is at most fifteen; and a base alone is the callsign of number 0. */
  lemma CallsignReads(base: string, n: nat, capitals: string)
    requires NoDash(base) && InCapitals(base, capitals)
    ensures ParseCall(base + "-" + Decimal(n))
         == if 1 <= |base| <= 6 && n <= 15 then Some((capitals, n)) else None
    ensures ParseCall(base) == if 1 <= |base| <= 6 then Some((capitals, 0)) else None
  {
    UpperOfCall(base, n);
    assert capitals == Upper(base);
    PartitionAtDash(capitals, Decimal(n));
    NothingToPartition(capitals);
    DecimalIsDigits(n);
    NumberReads(n);
  }

  /** No callsign without its base, or with a base too long, whatever follows the dash. */
  lemma NoCallsign(base: string, text: string)
    requires NoDash(base) && !(1 <= |base| <= 6)
    ensures ParseCall(base + "-" + text).None?
  {
    var capitals := Upper(base);
    assert NoDash(capitals);
    assert Upper(base + "-" + text) == capitals + "-" + Upper(text);
    PartitionAtDash(capitals, Upper(text));
  }

  ghost predicate Blank(s: string) {
    forall i | 0 <= i < |s| :: IsSpace(s[i])
  }

  /** Stripping takes the blanks off both ends, and nothing else. */
  lemma {:induction false} StripTakesBlanks(before: string, text: string, after: string)
    requires Blank(before) && Blank(after)
    requires text != "" ==> !IsSpace(text[0]) && !IsSpace(text[|text| - 1])
    ensures Strip(before + text + after) == text
  {
    RightBlanksGo(before + text, after);
    if text == "" {
      assert before + "" == before && "" + before == before;
      RightBlanksGo("", before);
      assert StripRight(before) == "";
    } else {
      LeftBlanksGo(before, text);
    }
  }

  lemma {:induction false} RightBlanksGo(s: string, after: string)
    requires Blank(after)
    ensures StripRight(s + after) == StripRight(s)
  {
    if after == "" {
      assert s + after == s;
    } else {
      assert (s + after)[..|s + after| - 1] == s + after[..|after| - 1];
      RightBlanksGo(s, after[..|after| - 1]);
    }
  }

  lemma {:induction false} LeftBlanksGo(before: string, text: string)
    requires Blank(before) && text != "" && !IsSpace(text[0])
    ensures StripLeft(before + text) == text
  {
    if before == "" {
      assert before + text == text;
    } else {
      assert (before + text)[1..] == before[1..] + text;
      LeftBlanksGo(before[1..], text);
    }
  }

  // ---- an address's bytes ----

  /** The bits of a byte, the lowest first, that spell `low`, `ssid`, the two reserved ones and `high`. */
  ghost predicate SsidBits(b: Byte, low: bool, ssid: nat, high: bool) {
    b == (if low then 1 else 0) + 2 * ssid + 32 + 64 + (if high then 128 else 0)
  }

  /** Six characters, blanks after the base, each shifted left by one; then the end bit, the number,
      the reserved bits set, and the command bit. */
  lemma AddressBytes(call: string, last: bool, commandBit: bool)
    requires ParseCall(call).Some? && forall i | 0 <= i < |ParseCall(call).value.0| :: ParseCall(call).value.0[i] as int < 128
    ensures Address(call, last, commandBit).Some?
    ensures var (base, ssid), raw := ParseCall(call).value, Address(call, last, commandBit).value;
            && |raw| == 7 && SsidBits(raw[6], last, ssid, commandBit)
            && forall i | 0 <= i < 6 :: raw[i] == if i < |base| then 2 * base[i] as int else 2 * ' ' as int
  {
  }

  // ---- what is shown ----

  const HEX := "0123456789ABCDEF"

  /** The names one by one, with commas between. */
  lemma {:induction false} JoinedFromTheFront(names: seq<string>)
    requires names != []
    ensures Joined(names) == if |names| == 1 then names[0] else names[0] + "," + Joined(names[1..])
  {
    if |names| > 1 {
      var n := |names| - 1;
      JoinedFromTheFront(names[..n]);
      if n > 1 {
        assert names[..n][1..] == names[1..][..n - 1];
      }
    }
  }

  /** Printable characters as they are, and a dot for any other byte. */
  ghost predicate ShownAs(info: seq<Byte>, shown: string) {
    && |shown| == |info|
    && forall i | 0 <= i < |info| ::
         if 32 <= info[i] <= 126 then shown[i] as int == info[i] else shown[i] == '.'
  }

  /** The line for a frame of any control byte: the path, the byte in hexadecimal, and the information,
      which for a UI frame begins after the PID. */
  lemma DescribeOfAny(calls: seq<string>, control: Byte, rest: seq<Byte>, shown: string)
    requires 2 <= |calls| <= 11 && AllPlain(calls)
    requires ShownAs(if control == 3 && |rest| > 0 then rest[1..] else rest, shown)
    ensures AllCallsigns(calls)
    ensures DescribedFrom(Fields(calls, |calls|) + ([control] + rest), [], 0)
         == Some(Canonical(calls[1]) + ">" + Canonical(calls[0])
                 + (if |calls| > 2 then "," + Joined(Names(calls)[2..]) else "")
                 + " [ctl 0x" + [HEX[control / 16], HEX[control % 16]] + "]: " + shown)
  {
    var fields, names := Fields(calls, |calls|), Names(calls);
    FieldsRead(calls, [control] + rest);
    DescribesFields(names, fields + ([control] + rest), 0);
    assert names[..0] == [];
    FieldsLength(calls, |calls|);
    FinishedAny(fields, names, control, rest);
    LineShown(names, control, rest, shown);
  }

  lemma FieldsRead(calls: seq<string>, tail: seq<Byte>)
    requires AllPlain(calls)
    ensures AllCallsigns(calls) && AllRead(Names(calls), Fields(calls, |calls|) + tail)
  {
    FieldsAre(calls);
    forall j | 0 <= j < |calls|
      ensures Reads(Fields(calls, |calls|) + tail, 7 * j, j, Names(calls)[j], j + 1 == |calls|)
    {
      FieldReads(Fields(calls, |calls|), calls, tail, j);
    }
  }

  lemma FinishedAny(fields: seq<Byte>, names: seq<string>, control: Byte, rest: seq<Byte>)
    requires |names| >= 2
    ensures Finished(fields + ([control] + rest), names, |fields|)
         == Some(Line(names, control, if control == 3 && |rest| > 0 then rest[1..] else rest))
  {
    var frame := fields + ([control] + rest);
    assert frame[|fields|] == control && frame[|fields| + 1..] == rest;
  }

  lemma LineShown(names: seq<string>, control: Byte, rest: seq<Byte>, shown: string)
    requires |names| >= 2 && forall i | 0 <= i < |names| :: names[i] != ""
    requires ShownAs(if control == 3 && |rest| > 0 then rest[1..] else rest, shown)
    ensures Line(names, control, if control == 3 && |rest| > 0 then rest[1..] else rest)
         == names[1] + ">" + names[0] + (if |names| > 2 then "," + Joined(names[2..]) else "")
            + " [ctl 0x" + [HEX[control / 16], HEX[control % 16]] + "]: " + shown
  {
    assert Printable(if control == 3 && |rest| > 0 then rest[1..] else rest) == shown;
    if |names| > 2 { JoinedNotEmpty(names[2..]); }
    ControlShown(control);
    var head := names[1] + ">" + names[0] + (if |names| > 2 then "," + Joined(names[2..]) else "");
    assert Joined(names[2..]) != "" <==> |names| > 2;
    assert Line(names, control, if control == 3 && |rest| > 0 then rest[1..] else rest) == head + ControlText(control) + shown;
    JoinFive(head, " [ctl 0x", [HEX[control / 16], HEX[control % 16]], "]: ", shown);
  }

  lemma JoinFive(a: string, b: string, c: string, d: string, e: string)
    ensures a + (b + c + d) + e == a + b + c + d + e
  {
  }

  lemma ControlShown(control: Byte)
    ensures ControlText(control) == " [ctl 0x" + [HEX[control / 16], HEX[control % 16]] + "]: "
  {
    HexIsDigit(control / 16);
    HexIsDigit(control % 16);
  }

  lemma HexIsDigit(n: nat)
    requires n < 16
    ensures HexDigit(n) == HEX[n]
  {
  }

  // ---- when anything is shown at all ----

  /** Whether the `j`th seven bytes are the last address of their frame, if they are an address: letters
      and digits, blanks around them. */
  function EndOf(frame: seq<Byte>, j: nat): Option<bool> {
    if 7 * j + 7 <= |frame| then EndBit(frame[7 * j..7 * j + 7]) else None
  }

  function EndBit(raw: seq<Byte>): Option<bool>
    requires |raw| == 7
  {
    if FieldText(raw) != "" && AllAlnum(FieldText(raw)) then Some(raw[6] % 2 == 1) else None
  }

  /** `n` addresses begin the frame, told from the `k`th on: the last and no other is marked so, and
      something follows. */
  ghost predicate Addressed(ends: nat -> Option<bool>, length: nat, k: nat, n: nat) {
    k < n && 7 * n < length && forall j: nat | k <= j < n :: ends(j) == Some(j + 1 == n)
  }

  /** Two to eleven addresses. */
  ghost predicate Describable(ends: nat -> Option<bool>, length: nat, k: nat) {
    exists n: nat :: 2 <= n <= 11 && Addressed(ends, length, k, n)
  }

  /** A frame is described exactly when it begins with two to eleven addresses, the last and no other
      with its end bit set, and does not end there. */
  lemma DescribedExactly(frame: seq<Byte>)
    ensures DescribedFrom(frame, [], 0).Some? <==> Describable((j: nat) => EndOf(frame, j), |frame|, 0)
  {
    DescribedOnward(frame, (j: nat) => EndOf(frame, j), [], 0, 0);
  }

  lemma {:induction false} DescribedOnward(frame: seq<Byte>, ends: nat -> Option<bool>, names: seq<string>, k: nat,
                                           offset: nat)
    requires |names| == k <= 10 && offset == 7 * k && forall j: nat :: ends(j) == EndOf(frame, j)
    ensures DescribedFrom(frame, names, offset).Some? <==> Describable(ends, |frame|, k)
    decreases 10 - k
  {
    FieldRead(frame, names, offset, k);
    DescribableByFirst(ends, |frame|, k);
    if ends(k) == Some(false) && k < 10 {
      DescribedOnward(frame, ends, names + [FieldName(frame[offset..offset + 7], k)], k + 1, offset + 7);
    }
  }

  /** One turn of the describer's loop. */
  lemma FieldRead(frame: seq<Byte>, names: seq<string>, offset: nat, k: nat)
    requires |names| == k && offset == 7 * k
    ensures EndOf(frame, k).None? ==> DescribedFrom(frame, names, offset).None?
    ensures EndOf(frame, k) == Some(true) ==>
              (DescribedFrom(frame, names, offset).Some? <==> k >= 1 && offset + 7 < |frame|)
    ensures EndOf(frame, k) == Some(false) ==>
              DescribedFrom(frame, names, offset)
              == if k >= 10 then None
                 else DescribedFrom(frame, names + [FieldName(frame[offset..offset + 7], k)], offset + 7)
  {
  }

  lemma DescribableByFirst(ends: nat -> Option<bool>, length: nat, k: nat)
    requires k <= 10
    ensures ends(k).None? ==> !Describable(ends, length, k)
    ensures ends(k) == Some(true) ==> (Describable(ends, length, k) <==> k >= 1 && 7 * k + 7 < length)
    ensures ends(k) == Some(false) ==>
              (Describable(ends, length, k) <==> k < 10 && Describable(ends, length, k + 1))
  {
    if k >= 1 && 7 * k + 7 < length && ends(k) == Some(true) { assert Addressed(ends, length, k, k + 1); }
    if ends(k) == Some(false) { DescribableOneLess(ends, length, k, k + 1); }
  }

  lemma DescribableOneLess(ends: nat -> Option<bool>, length: nat, k: nat, after: nat)
    requires ends(k) == Some(false) && after == k + 1 <= 11
    ensures Describable(ends, length, k) <==> k < 10 && Describable(ends, length, after)
  {
    forall n: nat ensures Addressed(ends, length, k, n) == Addressed(ends, length, after, n) {
    }
  }
}
