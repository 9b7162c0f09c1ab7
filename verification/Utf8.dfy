/** UTF-8 as section 3 of RFC 3629 defines it, and the check `String::from_utf8` makes. */
module Utf8 {
  import opened Common
  import Text

  type byte = b: int | 0 <= b < 256

  /** The lowest six bits of a value, as a continuation byte. */
  function Continued(v: nat): byte {
    var low: int := v % 0x40;
    0x80 + low
  }

  /** The bits that are left, marked with the length of the sequence. */
  function Leading(mark: nat, v: nat): byte
    requires mark + v < 256
  {
    mark + v
  }

  function EncodeChar(c: char): (b: seq<byte>)
    ensures |b| == Text.Utf8Width(c)
  {
    var v: nat := c as int;
    if v < 0x80 then [v]
    else if v < 0x800 then [Leading(0xC0, v / 0x40), Continued(v)]
    else if v < 0x10000 then [Leading(0xE0, v / 0x40 / 0x40), Continued(v / 0x40), Continued(v)]
    else [Leading(0xF0, v / 0x40 / 0x40 / 0x40), Continued(v / 0x40 / 0x40), Continued(v / 0x40), Continued(v)]
  }

  function Encode(s: string): seq<byte> {
    if s == [] then [] else EncodeChar(s[0]) + Encode(s[1..])
  }

  predicate IsContinued(b: byte) {
    0x80 <= b <= 0xBF
  }

  /** Six more bits. */
  function Extend(v: nat, b: byte): nat
    requires IsContinued(b)
  {
    v * 0x40 + (b - 0x80)
  }

  /** The value of the leading sequence, by its length; shorter forms and surrogates are refused. */
  function FirstValue(b: seq<byte>): Option<nat> {
    if |b| >= 1 && b[0] < 0x80 then Some(b[0])
    else if |b| >= 2 && 0xC2 <= b[0] <= 0xDF && IsContinued(b[1]) then
      Some(Extend(b[0] - 0xC0, b[1]))
    else if |b| >= 3 && 0xE0 <= b[0] <= 0xEF && IsContinued(b[1]) && IsContinued(b[2]) then
      var v := Extend(Extend(b[0] - 0xE0, b[1]), b[2]);
      if v < 0x800 || 0xD800 <= v <= 0xDFFF then None else Some(v)
    else if |b| >= 4 && 0xF0 <= b[0] <= 0xF4 && IsContinued(b[1]) && IsContinued(b[2]) && IsContinued(b[3]) then
      var v := Extend(Extend(Extend(b[0] - 0xF0, b[1]), b[2]), b[3]);
      if v < 0x10000 || v > 0x10FFFF then None else Some(v)
    else None
  }

  lemma ExtendContinued(v: nat)
    ensures Extend(v / 0x40, Continued(v)) == v
  {
  }

  lemma ContinuedExtend(v: nat, b: byte)
    requires IsContinued(b)
    ensures Extend(v, b) / 0x40 == v && Continued(Extend(v, b)) == b
  {
  }

  function First(b: seq<byte>): (r: Option<char>)
    ensures r.Some? ==> Text.Utf8Width(r.value) <= |b|
  {
    match FirstValue(b)
    case None => None
    case Some(v) => Some(v as char)
  }

  function Decode(b: seq<byte>): Option<string> {
    if b == [] then Some([])
    else
      match First(b)
      case None => None
      case Some(c) =>
        match Decode(b[Text.Utf8Width(c)..])
        case None => None
        case Some(rest) => Some([c] + rest)
  }

  lemma TwoBytes(v: nat, high: nat, b: seq<byte>)
    requires 0x80 <= v < 0x800 && high == v / 0x40
    requires |b| >= 2 && b[0] == 0xC0 + high && b[1] == Continued(v)
    ensures FirstValue(b) == Some(v)
  {
    ExtendContinued(v);
  }

  lemma ThreeBytes(v: nat, middle: nat, high: nat, b: seq<byte>)
    requires 0x800 <= v < 0x10000 && !(0xD800 <= v <= 0xDFFF) && middle == v / 0x40 && high == middle / 0x40
    requires |b| >= 3 && b[0] == 0xE0 + high && b[1] == Continued(middle) && b[2] == Continued(v)
    ensures FirstValue(b) == Some(v)
  {
    ExtendContinued(v);
    ExtendContinued(middle);
  }

  lemma FourBytes(v: nat, low: nat, middle: nat, high: nat, b: seq<byte>)
    requires 0x10000 <= v <= 0x10FFFF && low == v / 0x40 && middle == low / 0x40 && high == middle / 0x40
    requires |b| >= 4 && b[0] == 0xF0 + high
    requires b[1] == Continued(middle) && b[2] == Continued(low) && b[3] == Continued(v)
    ensures FirstValue(b) == Some(v)
  {
    ExtendContinued(v);
    ExtendContinued(low);
    ExtendContinued(middle);
  }

  lemma FirstOfEncoded(c: char, rest: seq<byte>)
    ensures First(EncodeChar(c) + rest) == Some(c)
  {
    var v: nat := c as int;
    var front := EncodeChar(c);
    var b := front + rest;
    assert forall i :: 0 <= i < |front| ==> b[i] == front[i];
    if v >= 0x10000 {
      FourBytes(v, v / 0x40, v / 0x40 / 0x40, v / 0x40 / 0x40 / 0x40, b);
    } else if v >= 0x800 {
      ThreeBytes(v, v / 0x40, v / 0x40 / 0x40, b);
    } else if v >= 0x80 {
      TwoBytes(v, v / 0x40, b);
    }
  }

  lemma FirstEncodes(b: seq<byte>)
    requires First(b).Some?
    ensures EncodeChar(First(b).value) == b[..Text.Utf8Width(First(b).value)]
  {
    var v := FirstValue(b).value;
    if b[0] >= 0xF0 {
      var x: nat := b[0] - 0xF0;
      ContinuedExtend(x, b[1]);
      ContinuedExtend(Extend(x, b[1]), b[2]);
      ContinuedExtend(Extend(Extend(x, b[1]), b[2]), b[3]);
    } else if b[0] >= 0xE0 {
      var x: nat := b[0] - 0xE0;
      ContinuedExtend(x, b[1]);
      ContinuedExtend(Extend(x, b[1]), b[2]);
    } else if b[0] >= 0x80 {
      ContinuedExtend(b[0] - 0xC0, b[1]);
    }
  }

  lemma {:induction false} DecodeEncoded(s: string)
    ensures Decode(Encode(s)) == Some(s)
  {
    if s != [] {
      var rest := Encode(s[1..]);
      FirstOfEncoded(s[0], rest);
      assert (EncodeChar(s[0]) + rest)[Text.Utf8Width(s[0])..] == rest;
      DecodeEncoded(s[1..]);
      assert s == [s[0]] + s[1..];
    }
  }

  lemma EncodeCons(c: char, s: string)
    ensures Encode([c] + s) == EncodeChar(c) + Encode(s)
  {
    assert ([c] + s)[1..] == s;
  }

  lemma {:induction false} EncodeDecoded(b: seq<byte>)
    requires Decode(b).Some?
    ensures Encode(Decode(b).value) == b
  {
    if b != [] {
      var c := First(b).value;
      var k := Text.Utf8Width(c);
      var tail := b[k..];
      assert Decode(b) == Some([c] + Decode(tail).value);
      EncodeDecoded(tail);
      EncodeCons(c, Decode(tail).value);
      FirstEncodes(b);
      assert b == b[..k] + tail;
    }
  }

  /** A byte string is valid exactly when it encodes some text, and then it decodes to that text alone. */
  lemma {:induction false} DecodesExactly(b: seq<byte>, s: string)
    ensures Decode(b) == Some(s) <==> b == Encode(s)
  {
    if Decode(b) == Some(s) {
      EncodeDecoded(b);
    }
    DecodeEncoded(s);
  }

  lemma {:induction false} EncodeConcat(a: string, b: string)
    ensures Encode(a + b) == Encode(a) + Encode(b)
  {
    if a == [] {
      assert a + b == b;
    } else {
      EncodeConcat(a[1..], b);
      assert (a + b)[1..] == a[1..] + b;
      AppendAssociates(EncodeChar(a[0]), Encode(a[1..]), Encode(b));
    }
  }

  lemma {:induction false} EncodedLength(s: string)
    ensures |Encode(s)| == Text.Utf8Bytes(s)
  {
    if s != [] {
      EncodedLength(s[1..]);
      Text.Utf8BytesConcat([s[0]], s[1..]);
      assert s == [s[0]] + s[1..];
      assert [s[0]][..0] == [];
    }
  }

  /** A byte below 0x80 stands for itself: no other character has it anywhere in its encoding. */
  lemma {:induction false} AsciiStaysAscii(s: string, c: char)
    requires c as int < 0x80
    ensures c as int in Encode(s) <==> c in s
  {
    if s != [] {
      AsciiStaysAscii(s[1..], c);
      CharHoldsOnlyItself(s[0], c);
      assert s == [s[0]] + s[1..];
    }
  }

  lemma CharHoldsOnlyItself(d: char, c: char)
    requires c as int < 0x80
    ensures c as int in EncodeChar(d) <==> c == d
  {
  }

  lemma LastByte(s: string, c: char)
    requires c as int < 0x80 && s != []
    ensures Encode(s) != [] && (Encode(s)[|Encode(s)| - 1] == c as int <==> s[|s| - 1] == c)
  {
    var init, last := s[..|s| - 1], s[|s| - 1];
    assert s == init + [last];
    EncodeConcat(init, [last]);
    assert Encode([last]) == EncodeChar(last) + [];
    CharHoldsOnlyItself(last, c);
    var b := EncodeChar(last);
    assert b[|b| - 1] in b;
    if last == c { assert b == [c as int]; }
  }
}
