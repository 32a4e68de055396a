/**
 The AX.25 UI frames of tools/kiss_test_client.py, built and described. Callsigns are ASCII.
 None stands for the ValueError of an unusable callsign, and for the describer's own None.
 */
module Ax25 {
  import opened Bytes
  import opened Options

  // ---- the parts of Python's text handling the source uses ----

  function UpperChar(c: char): char {
    if 'a' <= c <= 'z' then (c as int - 32) as char else c
  }

  function Upper(s: string): (u: string)
    ensures |u| == |s|
  {
    seq(|s|, i requires 0 <= i < |s| => UpperChar(s[i]))
  }

  predicate IsSpace(c: char) {
    c == ' ' || 9 <= c as int <= 13 || 28 <= c as int <= 31
  }

  function StripRight(s: string): string {
    if s != "" && IsSpace(s[|s| - 1]) then StripRight(s[..|s| - 1]) else s
  }

  function StripLeft(s: string): string {
    if s != "" && IsSpace(s[0]) then StripLeft(s[1..]) else s
  }

  function Strip(s: string): string {
    StripLeft(StripRight(s))
  }

  predicate IsAlnum(c: char) {
    '0' <= c <= '9' || 'A' <= c <= 'Z' || 'a' <= c <= 'z'
  }

  predicate AllAlnum(s: string) {
    forall i | 0 <= i < |s| :: IsAlnum(s[i])
  }

  /** What precedes the first "-", and what follows it. */
  function Partition(s: string): (string, string) {
    if s == "" then ("", "")
    else if s[0] == '-' then ("", s[1..])
    else var (base, rest) := Partition(s[1..]); ([s[0]] + base, rest)
  }

  /** `int(text)`: blanks around it, a sign, digits with single underscores between them. */
  function ParseInt(text: string): Option<int> {
    var t := Strip(text);
    if t != "" && t[0] == '-' then
      var d := ParseDigits(t[1..], 0, true);
      if d.Some? then Some(-d.value) else None
    else if t != "" && t[0] == '+' then ParseDigits(t[1..], 0, true)
    else ParseDigits(t, 0, true)
  }

  function ParseDigits(t: string, value: int, digitNext: bool): Option<int> {
    if t == "" then if digitNext then None else Some(value)
    else if '0' <= t[0] <= '9' then
      ParseDigits(t[1..], 10 * value + (t[0] as int - '0' as int), false)
    else if t[0] == '_' && !digitNext then ParseDigits(t[1..], value, true)
    else None
  }

  function Decimal(n: nat): string {
    if n < 10 then [('0' as int + n) as char] else Decimal(n / 10) + Decimal(n % 10)
  }

  function HexDigit(n: nat): char
    requires n < 16
  {
    if n < 10 then ('0' as int + n) as char else ('A' as int + n - 10) as char
  }

  // ---- building ----

  /** A callsign's base and SSID, when it is one. */
  function ParseCall(call: string): (r: Option<(string, nat)>)
    ensures r.Some? ==> 1 <= |r.value.0| <= 6 && r.value.1 <= 15
  {
    var (base, text) := Partition(Upper(call));
    var ssid := if text == "" then Some(0) else ParseInt(text);
    if ssid.None? || !(1 <= |base| <= 6) || !(0 <= ssid.value <= 15) then None
    else Some((base, ssid.value))
  }

  function Padded(base: string): (s: string)
    requires |base| <= 6
    ensures |s| == 6
  {
    base + seq(6 - |base|, _ => ' ')
  }

  function Shifted(s: string): (bytes: seq<Byte>)
    ensures |bytes| == |s|
  {
    seq(|s|, i requires 0 <= i < |s| => (2 * s[i] as int) % 256)
  }

  function SsidByte(ssid: nat, last: bool, commandBit: bool): Byte
    requires ssid <= 15
  {
    0x60 + 2 * ssid + (if commandBit then 0x80 else 0) + if last then 1 else 0
  }

  /** A callsign as AX.25 carries it: six characters shifted left, then the SSID byte. */
  function Address(call: string, last: bool, commandBit: bool): (r: Option<seq<Byte>>)
    ensures r.Some? <==> ParseCall(call).Some?
    ensures r.Some? ==> |r.value| == 7
  {
    match ParseCall(call)
    case None => None
    case Some((base, ssid)) => Some(Shifted(Padded(base)) + [SsidByte(ssid, last, commandBit)])
  }

  /** The calls of a frame in the order they go on the air. */
  function AirOrder(source: string, destination: string, via: seq<string>): seq<string> {
    [destination, source] + via
  }

  ghost predicate AllCallsigns(calls: seq<string>) {
    forall i | 0 <= i < |calls| :: ParseCall(calls[i]).Some?
  }

  /** The address fields of the first `k` of `calls`: the first is the command's, and the last
      of all ends them. */
  function Fields(calls: seq<string>, k: nat): seq<Byte>
    requires k <= |calls| && forall i | 0 <= i < k :: ParseCall(calls[i]).Some?
  {
    if k == 0 then []
    else Fields(calls, k - 1) + Address(calls[k - 1], k == |calls|, k == 1).value
  }

  /** A UI frame: addresses, control 0x03, PID 0xF0, the information. */
  method Ax25Ui(source: string, destination: string, info: seq<Byte>, via: seq<string>)
    returns (r: Option<seq<Byte>>)
    ensures r.Some? <==> AllCallsigns(AirOrder(source, destination, via))
    ensures r.Some? ==>
              var calls := AirOrder(source, destination, via);
              r.value == Fields(calls, |calls|) + [0x03, 0xF0] + info
  {
    ghost var calls := AirOrder(source, destination, via);
    assert calls[0] == destination && calls[1] == source;
    var to := Address(destination, false, true);
    if to.None? { return None; }
    var from := Address(source, via == [], false);
    if from.None? { return None; }
    var out := to.value + from.value;
    assert Fields(calls, 1) == to.value;
    for index := 0 to |via|
      invariant forall i | 0 <= i < index + 2 :: ParseCall(calls[i]).Some?
      invariant out == Fields(calls, index + 2)
    {
      assert calls[index + 2] == via[index];
      var digi := Address(via[index], index == |via| - 1, false);
      if digi.None? { return None; }
      out := out + digi.value;
    }
    r := Some(out + [0x03, 0xF0] + info);
  }

  // ---- describing ----

  function Unshifted(raw: seq<Byte>): (s: string)
    ensures |s| == |raw|
  {
    seq(|raw|, i requires 0 <= i < |raw| => (raw[i] / 2) as char)
  }

  /** The text of an address field. */
  function FieldText(raw: seq<Byte>): string
    requires |raw| == 7
  {
    Strip(Unshifted(raw[..6]))
  }

  /** The name a field is shown by, after `before` others: a star for a digipeater that has
      repeated the frame. */
  function FieldName(raw: seq<Byte>, before: nat): string
    requires |raw| == 7
  {
    var ssid := (raw[6] / 2) % 16;
    FieldText(raw) + (if ssid != 0 then "-" + Decimal(ssid) else "")
      + if before >= 2 && raw[6] >= 128 then "*" else ""
  }

  function Joined(names: seq<string>): string {
    if names == [] then ""
    else if |names| == 1 then names[0]
    else Joined(names[..|names| - 1]) + "," + names[|names| - 1]
  }

  function Printable(info: seq<Byte>): (s: string)
    ensures |s| == |info|
  {
    seq(|info|, i requires 0 <= i < |info| =>
      if 32 <= info[i] < 127 then info[i] as char else '.')
  }

  /** The line shown for the names of a frame, its control byte and its information. */
  function Line(names: seq<string>, control: Byte, info: seq<Byte>): string
    requires |names| >= 2
  {
    var path := Joined(names[2..]);
    names[1] + ">" + names[0] + (if path != "" then "," + path else "")
      + ControlText(control) + Printable(info)
  }

  function ControlText(control: Byte): string {
    " [ctl 0x" + [HexDigit(control / 16), HexDigit(control % 16)] + "]: "
  }

  /** What follows the addresses. */
  function Finished(frame: seq<Byte>, names: seq<string>, offset: nat): Option<string> {
    if |names| < 2 || offset >= |frame| then None
    else
      var control, rest := frame[offset], frame[offset + 1..];
      Some(Line(names, control, if control == 0x03 && rest != [] then rest[1..] else rest))
  }

  /** The description, from the address field at `offset` on. */
  function DescribedFrom(frame: seq<Byte>, names: seq<string>, offset: nat): Option<string>
    decreases |frame| - offset
  {
    if offset + 7 > |frame| then None
    else
      var raw := frame[offset..offset + 7];
      if FieldText(raw) == "" || !AllAlnum(FieldText(raw)) then None
      else
        var more := names + [FieldName(raw, |names|)];
        if raw[6] % 2 == 1 then Finished(frame, more, offset + 7)
        else if |more| > 10 then None
        else DescribedFrom(frame, more, offset + 7)
  }

  method Ax25Describe(frame: seq<Byte>) returns (r: Option<string>)
    ensures r == DescribedFrom(frame, [], 0)
  {
    var calls := [];
    var offset := 0;
    while true
      invariant offset <= |frame| || offset == 0
      invariant DescribedFrom(frame, [], 0) == DescribedFrom(frame, calls, offset)
      decreases |frame| - offset
    {
      if offset + 7 > |frame| {
        return None;
      }
      var raw := frame[offset..offset + 7];
      var text := FieldText(raw);
      if text == "" || !AllAlnum(text) {
        return None;
      }
      var ssid := (raw[6] / 2) % 16;
      var name := text + if ssid != 0 then "-" + Decimal(ssid) else "";
      if |calls| >= 2 && raw[6] >= 128 {
        name := name + "*";
      }
      assert name == FieldName(raw, |calls|);
      calls := calls + [name];
      offset := offset + 7;
      if raw[6] % 2 == 1 {
        break;
      }
      if |calls| > 10 {
        return None;
      }
    }
    r := Finished(frame, calls, offset);
  }

  // ---- one address there and back ----

  lemma {:induction false} StripRightPadding(base: string, n: nat)
    requires base != "" && !IsSpace(base[|base| - 1])
    ensures StripRight(base + seq(n, _ => ' ')) == base
  {
    var padded := base + seq(n, _ => ' ');
    if n > 0 {
      StripRightPadding(base, n - 1);
      assert padded[..|padded| - 1] == base + seq(n - 1, _ => ' ');
    } else {
      assert padded == base;
    }
  }

  lemma AlnumIsNoSpace(c: char)
    requires IsAlnum(c)
    ensures !IsSpace(c) && c as int < 128
  {
  }

  lemma PaddingStrips(base: string)
    requires 1 <= |base| <= 6 && AllAlnum(base)
    ensures Strip(Padded(base)) == base
  {
    AlnumIsNoSpace(base[0]);
    AlnumIsNoSpace(base[|base| - 1]);
    StripRightPadding(base, 6 - |base|);
  }

  lemma ShiftUndone(s: string)
    requires forall i | 0 <= i < |s| :: s[i] as int < 128
    ensures Unshifted(Shifted(s)) == s
  {
    forall i | 0 <= i < |s| ensures Unshifted(Shifted(s))[i] == s[i] {
      assert (2 * s[i] as int) % 256 == 2 * s[i] as int;
    }
  }

  lemma SsidByteParts(ssid: nat, last: bool, commandBit: bool)
    requires ssid <= 15
    ensures var b := SsidByte(ssid, last, commandBit);
            (b / 2) % 16 == ssid && (b % 2 == 1 <==> last) && (b >= 128 <==> commandBit)
  {
  }

  /** A callsign that the describer can show: letters and digits. */
  predicate Plain(call: string) {
    ParseCall(call).Some? && AllAlnum(ParseCall(call).value.0)
  }

  /** A callsign in its canonical form: upper case, no SSID of zero. */
  function Canonical(call: string): (name: string)
    requires Plain(call)
    ensures name != ""
  {
    var (base, ssid) := ParseCall(call).value;
    base + if ssid != 0 then "-" + Decimal(ssid) else ""
  }

  lemma AddressThereAndBack(call: string, last: bool, commandBit: bool, before: nat)
    requires Plain(call)
    ensures var raw := Address(call, last, commandBit).value;
            && FieldText(raw) != "" && AllAlnum(FieldText(raw))
            && FieldName(raw, before) == Canonical(call) + (if before >= 2 && commandBit then "*" else "")
            && (raw[6] % 2 == 1 <==> last)
  {
    var (base, ssid) := ParseCall(call).value;
    var raw := Address(call, last, commandBit).value;
    assert raw[..6] == Shifted(Padded(base));
    forall i | 0 <= i < 6 ensures Padded(base)[i] as int < 128 {
      if i < |base| { AlnumIsNoSpace(base[i]); }
    }
    ShiftUndone(Padded(base));
    PaddingStrips(base);
    SsidByteParts(ssid, last, commandBit);
  }

  // ---- whole frames there and back ----

  lemma {:induction false} FieldAt(calls: seq<string>, k: nat, i: nat)
    requires i < k <= |calls| && AllCallsigns(calls)
    ensures |Fields(calls, k)| == 7 * k
    ensures Fields(calls, k)[7 * i..7 * i + 7] == Address(calls[i], i + 1 == |calls|, i == 0).value
  {
    FieldsLength(calls, k);
    FieldsLength(calls, k - 1);
    var before, last := Fields(calls, k - 1), Address(calls[k - 1], k == |calls|, k == 1).value;
    if i < k - 1 {
      FieldAt(calls, k - 1, i);
      SliceOfPrefix(before, last, 7 * i, 7 * i + 7);
    } else {
      SliceAfterPrefix(before, last);
    }
  }

  lemma SliceOfPrefix(a: seq<Byte>, b: seq<Byte>, lo: nat, hi: nat)
    requires lo <= hi <= |a|
    ensures (a + b)[lo..hi] == a[lo..hi]
  {
  }

  lemma SliceAfterPrefix(a: seq<Byte>, b: seq<Byte>)
    ensures (a + b)[|a|..|a| + |b|] == b
  {
  }

  lemma {:induction false} FieldsLength(calls: seq<string>, k: nat)
    requires k <= |calls| && AllCallsigns(calls)
    ensures |Fields(calls, k)| == 7 * k
  {
    if k > 0 { FieldsLength(calls, k - 1); }
  }

  ghost predicate AllPlain(calls: seq<string>) {
    forall i | 0 <= i < |calls| :: Plain(calls[i])
  }

  function Names(calls: seq<string>): (names: seq<string>)
    requires forall i | 0 <= i < |calls| :: Plain(calls[i])
    ensures |names| == |calls|
  {
    seq(|calls|, i requires 0 <= i < |calls| => Canonical(calls[i]))
  }

  /** The end-of-addresses bit is set on the last address only. */
  lemma EndBitOnLastOnly(calls: seq<string>, i: nat)
    requires AllCallsigns(calls) && i < |calls|
    ensures |Fields(calls, |calls|)| == 7 * |calls|
    ensures Fields(calls, |calls|)[7 * i + 6] % 2 == 1 <==> i == |calls| - 1
  {
    FieldAt(calls, |calls|, i);
    var raw := Fields(calls, |calls|)[7 * i..7 * i + 7];
    assert raw[6] == Fields(calls, |calls|)[7 * i + 6];
    SsidByteParts(ParseCall(calls[i]).value.1, i + 1 == |calls|, i == 0);
  }

  /** The address field at `offset` reads as `name`, and ends the addresses if `last`. */
  ghost predicate Reads(frame: seq<Byte>, offset: nat, before: nat, name: string, last: bool) {
    && offset + 7 <= |frame|
    && var raw := frame[offset..offset + 7];
    && FieldText(raw) != "" && AllAlnum(FieldText(raw))
    && FieldName(raw, before) == name
    && (raw[6] % 2 == 1 <==> last)
  }

  /** One turn of the describer's loop over such a field. */
  lemma DescribesOne(frame: seq<Byte>, names: seq<string>, offset: nat, name: string, last: bool)
    requires Reads(frame, offset, |names|, name, last)
    ensures DescribedFrom(frame, names, offset)
         == if last then Finished(frame, names + [name], offset + 7)
            else if |names| >= 10 then None
            else DescribedFrom(frame, names + [name], offset + 7)
  {
  }

  ghost predicate AreFields(fields: seq<Byte>, calls: seq<string>)
    requires AllCallsigns(calls)
  {
    && |fields| == 7 * |calls|
    && forall i | 0 <= i < |calls| ::
         7 * i + 7 <= |fields|
         && fields[7 * i..7 * i + 7] == Address(calls[i], i + 1 == |calls|, i == 0).value
  }

  lemma FieldsAre(calls: seq<string>)
    requires AllCallsigns(calls)
    ensures AreFields(Fields(calls, |calls|), calls)
  {
    FieldsLength(calls, |calls|);
    forall i | 0 <= i < |calls|
      ensures Fields(calls, |calls|)[7 * i..7 * i + 7] == Address(calls[i], i + 1 == |calls|, i == 0).value
    {
      FieldAt(calls, |calls|, i);
    }
  }

  lemma FieldReads(fields: seq<Byte>, calls: seq<string>, tail: seq<Byte>, i: nat)
    requires AllCallsigns(calls) && AreFields(fields, calls) && i < |calls| && Plain(calls[i])
    ensures Reads(fields + tail, 7 * i, i, Canonical(calls[i]), i + 1 == |calls|)
  {
    SliceOfPrefix(fields, tail, 7 * i, 7 * i + 7);
    AddressReads(fields + tail, 7 * i, calls[i], i + 1 == |calls|, i == 0, i);
  }

  lemma AddressReads(frame: seq<Byte>, offset: nat, call: string, last: bool, commandBit: bool, before: nat)
    requires Plain(call) && (before >= 2 ==> !commandBit) && offset + 7 <= |frame|
    requires frame[offset..offset + 7] == Address(call, last, commandBit).value
    ensures Reads(frame, offset, before, Canonical(call), last)
  {
    AddressThereAndBack(call, last, commandBit, before);
    assert Canonical(call) + "" == Canonical(call);
  }

  ghost predicate AllRead(names: seq<string>, frame: seq<Byte>) {
    forall j | 0 <= j < |names| :: Reads(frame, 7 * j, j, names[j], j + 1 == |names|)
  }

  lemma DescribesNext(names: seq<string>, frame: seq<Byte>, i: nat)
    requires i < |names| && AllRead(names, frame)
    ensures DescribedFrom(frame, names[..i], 7 * i)
         == if i + 1 == |names| then Finished(frame, names, 7 * |names|)
            else if i >= 10 then None
            else DescribedFrom(frame, names[..i + 1], 7 * (i + 1))
  {
    DescribesOne(frame, names[..i], 7 * i, names[i], i + 1 == |names|);
    assert names[..i] + [names[i]] == names[..i + 1];
    if i + 1 == |names| { assert names[..i + 1] == names; }
  }

  /** The describer reads the fields one by one, and gives up after the eleventh if more
      follow. */
  lemma {:induction false} DescribesFields(names: seq<string>, frame: seq<Byte>, i: nat)
    requires i < |names| && i <= 10 && AllRead(names, frame)
    ensures DescribedFrom(frame, names[..i], 7 * i)
         == if |names| <= 11 then Finished(frame, names, 7 * |names|) else None
    decreases |names| - i
  {
    DescribesNext(names, frame, i);
    if i + 1 < |names| && i < 10 { DescribesFields(names, frame, i + 1); }
  }

  /** The line a UI frame should be shown as. */
  function Summary(source: string, destination: string, via: seq<string>, info: seq<Byte>): string
    requires Plain(source) && Plain(destination) && forall i | 0 <= i < |via| :: Plain(via[i])
  {
    Canonical(source) + ">" + Canonical(destination)
      + (if via != [] then "," + Joined(Names(via)) else "")
      + " [ctl 0x03]: " + Printable(info)
  }

  lemma {:induction false} JoinedNotEmpty(names: seq<string>)
    requires names != [] && forall i | 0 <= i < |names| :: names[i] != ""
    ensures Joined(names) != ""
  {
  }

  /** Describing a built frame recovers source, destination, path and printable information for
      up to nine digipeaters, and nothing at all for more. */
  lemma DescribeOfUi(source: string, destination: string, via: seq<string>, info: seq<Byte>)
    requires Plain(source) && Plain(destination) && AllPlain(via)
    ensures AllCallsigns(AirOrder(source, destination, via))
    ensures var calls := AirOrder(source, destination, via);
            DescribedFrom(Fields(calls, |calls|) + [0x03, 0xF0] + info, [], 0)
              == if |via| <= 9 then Some(Summary(source, destination, via, info)) else None
  {
    var calls := AirOrder(source, destination, via);
    assert AllPlain(calls);
    var fields, tail, names := Fields(calls, |calls|), [0x03, 0xF0] + info, Names(calls);
    assert fields + [0x03, 0xF0] + info == fields + tail;
    FieldsAre(calls);
    forall j | 0 <= j < |calls|
      ensures Reads(fields + tail, 7 * j, j, names[j], j + 1 == |calls|)
    {
      FieldReads(fields, calls, tail, j);
    }
    DescribesFields(names, fields + tail, 0);
    FieldsLength(calls, |calls|);
    FinishedUi(source, destination, via, info, fields);
    assert names[..0] == [];
  }

  /** So a frame through ten digipeaters is built, and not described. */
  lemma TenDigipeaters(info: seq<Byte>)
    ensures var via := ["D", "D", "D", "D", "D", "D", "D", "D", "D", "D"];
            AllCallsigns(AirOrder("S", "T", via))
            && DescribedFrom(Fields(AirOrder("S", "T", via), 12) + [0x03, 0xF0] + info, [], 0) == None
  {
    var via := ["D", "D", "D", "D", "D", "D", "D", "D", "D", "D"];
    OneLetter("D");
    OneLetter("S");
    OneLetter("T");
    DescribeOfUi("S", "T", via, info);
  }

  lemma OneLetter(s: string)
    requires |s| == 1 && 'A' <= s[0] <= 'Z'
    ensures Plain(s)
  {
    assert Upper(s) == s;
    assert s[1..] == "" && [s[0]] + "" == s;
    assert Partition("") == ("", "");
  }

  lemma FinishedUi(source: string, destination: string, via: seq<string>, info: seq<Byte>,
                   fields: seq<Byte>)
    requires Plain(source) && Plain(destination) && AllPlain(via)
    requires AllPlain(AirOrder(source, destination, via)) && |fields| == 7 * (|via| + 2)
    ensures Finished(fields + ([0x03, 0xF0] + info), Names(AirOrder(source, destination, via)),
                     7 * (|via| + 2))
         == Some(Summary(source, destination, via, info))
  {
    var names := Names(AirOrder(source, destination, via));
    FinishedAfter(fields, names, info);
    LineOfUi(source, destination, via, info, names);
  }

  lemma FinishedAfter(fields: seq<Byte>, names: seq<string>, info: seq<Byte>)
    requires |names| >= 2
    ensures Finished(fields + ([0x03, 0xF0] + info), names, |fields|)
         == Some(Line(names, 0x03, info))
  {
    var frame := fields + ([0x03, 0xF0] + info);
    assert frame[|fields|] == 0x03 && frame[|fields| + 1..] == [0xF0] + info;
    assert ([0xF0] + info)[1..] == info;
  }

  lemma LineOfUi(source: string, destination: string, via: seq<string>, info: seq<Byte>,
                 names: seq<string>)
    requires Plain(source) && Plain(destination) && AllPlain(via)
    requires AllPlain(AirOrder(source, destination, via))
    requires names == Names(AirOrder(source, destination, via))
    ensures Line(names, 0x03, info) == Summary(source, destination, via, info)
  {
    assert names[0] == Canonical(destination) && names[1] == Canonical(source);
    assert names[2..] == Names(via);
    if via != [] { JoinedNotEmpty(Names(via)); }
    assert ControlText(0x03) == " [ctl 0x03]: ";
  }
}
