/** UTF-8 as RFC 3629 defines it: the encoding table of section 3 and the octet grammar of section 4. */
module Utf8Standard {
  import opened Bytes

  type CodePoint = bv32

  predicate Scalar(c: CodePoint) {
    c <= 0x10FFFF && !(0xD800 <= c <= 0xDFFF)
  }

  predicate Scalars(text: seq<CodePoint>) {
    forall i :: 0 <= i < |text| ==> Scalar(text[i])
  }

  function Tail(c: CodePoint): Byte {
    0x80 | (c & 0x3F) as bv8
  }

  /** The table of section 3. */
  function Encode(c: CodePoint): (bytes: seq<Byte>)
    requires Scalar(c)
    ensures 1 <= |bytes| <= 4
  {
    if c < 0x80 then [c as bv8]
    else if c < 0x800 then [0xC0 | (c >> 6) as bv8, Tail(c)]
    else if c < 0x10000 then [0xE0 | (c >> 12) as bv8, Tail(c >> 6), Tail(c)]
    else [0xF0 | (c >> 18) as bv8, Tail(c >> 12), Tail(c >> 6), Tail(c)]
  }

  function EncodeAll(text: seq<CodePoint>): (bytes: seq<Byte>)
    requires Scalars(text)
  {
    if text == [] then [] else Encode(text[0]) + EncodeAll(text[1..])
  }

  predicate IsTail(b: Byte) {
    0x80 <= b <= 0xBF
  }

  /** The productions UTF8-1 to UTF8-4 of section 4. */
  predicate Utf8Char(s: seq<Byte>) {
    match |s|
    case 1 => s[0] <= 0x7F
    case 2 => 0xC2 <= s[0] <= 0xDF && IsTail(s[1])
    case 3 =>
      && IsTail(s[2])
      && ( || (s[0] == 0xE0 && 0xA0 <= s[1] <= 0xBF)
           || (0xE1 <= s[0] <= 0xEC && IsTail(s[1]))
           || (s[0] == 0xED && 0x80 <= s[1] <= 0x9F)
           || (0xEE <= s[0] <= 0xEF && IsTail(s[1])))
    case 4 =>
      && IsTail(s[2]) && IsTail(s[3])
      && ( || (s[0] == 0xF0 && 0x90 <= s[1] <= 0xBF)
           || (0xF1 <= s[0] <= 0xF3 && IsTail(s[1]))
           || (s[0] == 0xF4 && 0x80 <= s[1] <= 0x8F))
    case _ => false
  }

  /** UTF8-octets: some way to cut the bytes into characters. */
  predicate WellFormed(s: seq<Byte>) {
    s == [] || exists n :: 1 <= n <= |s| && Utf8Char(s[..n]) && WellFormed(s[n..])
  }

  lemma {:induction false} EncodeAllCons(c: CodePoint, rest: seq<CodePoint>)
    requires Scalar(c) && Scalars(rest)
    ensures Scalars([c] + rest)
    ensures EncodeAll([c] + rest) == Encode(c) + EncodeAll(rest)
  {
    hide Scalar, Encode;
    assert ([c] + rest)[1..] == rest;
  }

  lemma {:induction false} EncodeAllNothing()
    ensures EncodeAll([]) == []
  {
  }

  lemma {:induction false} EncodeAllAppends(a: seq<CodePoint>, b: seq<CodePoint>)
    requires Scalars(a) && Scalars(b)
    ensures Scalars(a + b)
    ensures EncodeAll(a + b) == EncodeAll(a) + EncodeAll(b)
  {
    hide Scalar, Encode, EncodeAll;
    if a == [] {
      EncodeAllNothing();
      assert a + b == b;
    } else {
      var c, rest := a[0], a[1..];
      EncodeAllAppends(rest, b);
      EncodeAllCons(c, rest);
      EncodeAllCons(c, rest + b);
      assert a == [c] + rest && a + b == [c] + (rest + b);
    }
  }

  /** Cutting the text at `k` cuts the bytes where the first `k` characters end. */
  lemma {:induction false} EncodeAllSplits(text: seq<CodePoint>, k: nat)
    requires Scalars(text) && k <= |text|
    ensures Scalars(text[..k]) && Scalars(text[k..])
    ensures EncodeAll(text) == EncodeAll(text[..k]) + EncodeAll(text[k..])
  {
    hide Scalar, Encode, EncodeAll;
    assert text == text[..k] + text[k..];
    EncodeAllAppends(text[..k], text[k..]);
  }

  lemma {:induction false} EncodeAllOne(c: CodePoint)
    requires Scalar(c)
    ensures EncodeAll([c]) == Encode(c)
  {
    hide Scalar, Encode;
    assert EncodeAll([c]) == Encode(c) + EncodeAll([]);
  }
}

/** The decoder of cli/linenoise.c. */
module Utf8 {
  import opened Bytes
  import opened Utf8Standard

  predicate Continues(b: Byte) {
    b & 0xC0 == 0x80
  }

  /** utf8ByteLen */
  function ByteLen(b: Byte): (n: nat)
    ensures 1 <= n <= 4
  {
    if b & 0x80 == 0 then 1
    else if b & 0xE0 == 0xC0 then 2
    else if b & 0xF0 == 0xE0 then 3
    else if b & 0xF8 == 0xF0 then 4
    else 1
  }

  function Two(a: Byte, b: Byte): CodePoint {
    ((a & 0x1F) as bv32 << 6) | (b & 0x3F) as bv32
  }

  function Three(a: Byte, b: Byte, c: Byte): CodePoint {
    ((a & 0x0F) as bv32 << 12) | ((b & 0x3F) as bv32 << 6) | (c & 0x3F) as bv32
  }

  function Four(a: Byte, b: Byte, c: Byte, d: Byte): CodePoint {
    ((a & 0x07) as bv32 << 18) | ((b & 0x3F) as bv32 << 12) | ((c & 0x3F) as bv32 << 6) | (d & 0x3F) as bv32
  }

  /** utf8DecodeChar at index `i`; its length is the lead byte's `ByteLen`. */
  function DecodeChar(s: seq<Byte>, i: nat): CodePoint
    requires i < |s| && i + ByteLen(s[i]) <= |s|
  {
    if s[i] & 0x80 == 0 then s[i] as bv32
    else if s[i] & 0xE0 == 0xC0 then Two(s[i], s[i + 1])
    else if s[i] & 0xF0 == 0xE0 then Three(s[i], s[i + 1], s[i + 2])
    else if s[i] & 0xF8 == 0xF0 then Four(s[i], s[i + 1], s[i + 2], s[i + 3])
    else s[i] as bv32
  }

  lemma {:induction false} OneByte(c: CodePoint)
    requires c < 0x80
    ensures (c as bv8) & 0x80 == 0 && (c as bv8) as bv32 == c
  {
  }

  lemma {:induction false} TailShape(c: CodePoint)
    ensures Tail(c) & 0xC0 == 0x80 && Tail(c) & 0x3F == (c & 0x3F) as bv8 && IsTail(Tail(c))
  {
  }

  lemma {:induction false} TwoBytes(c: CodePoint)
    requires 0x80 <= c < 0x800
    ensures (c >> 6) < 0x20
    ensures var a := 0xC0 | (c >> 6) as bv8;
            a & 0x80 != 0 && a & 0xE0 == 0xC0 && 0xC2 <= a <= 0xDF && Two(a, Tail(c)) == c
  {
  }

  lemma {:induction false} ThreeBytes(c: CodePoint)
    requires 0x800 <= c < 0x10000
    ensures (c >> 12) < 0x10
    ensures var a := 0xE0 | (c >> 12) as bv8;
            a & 0x80 != 0 && a & 0xE0 != 0xC0 && a & 0xF0 == 0xE0 && Three(a, Tail(c >> 6), Tail(c)) == c
  {
  }

  lemma {:induction false} FourBytes(c: CodePoint)
    requires 0x10000 <= c <= 0x10FFFF
    ensures (c >> 18) < 0x8
    ensures var a := 0xF0 | (c >> 18) as bv8;
            && a & 0x80 != 0 && a & 0xE0 != 0xC0 && a & 0xF0 != 0xE0 && a & 0xF8 == 0xF0
            && Four(a, Tail(c >> 12), Tail(c >> 6), Tail(c)) == c
  {
  }

  /** What scanning relies on: the lead byte tells the length, and only the other bytes continue. */
  lemma {:induction false} EncodeShape(c: CodePoint)
    requires Scalar(c)
    ensures ByteLen(Encode(c)[0]) == |Encode(c)|
    ensures !Continues(Encode(c)[0])
    ensures forall i :: 0 < i < |Encode(c)| ==> Continues(Encode(c)[i])
  {
    hide Two, Three, Four;
    TailShape(c);
    TailShape(c >> 6);
    TailShape(c >> 12);
    if c < 0x80 { OneByte(c); LeadShape(c as bv8); }
    else if c < 0x800 { TwoBytes(c); LeadShape(0xC0 | (c >> 6) as bv8); }
    else if c < 0x10000 { ThreeBytes(c); LeadShape(0xE0 | (c >> 12) as bv8); }
    else { FourBytes(c); LeadShape(0xF0 | (c >> 18) as bv8); }
  }

  lemma {:induction false} LeadShape(b: Byte)
    ensures b & 0x80 == 0 ==> b & 0xC0 != 0x80
    ensures b & 0xE0 == 0xC0 ==> b & 0xC0 != 0x80
    ensures b & 0xF0 == 0xE0 ==> b & 0xC0 != 0x80
    ensures b & 0xF8 == 0xF0 ==> b & 0xC0 != 0x80
  {
  }

  /** The decoder inverts the table, wherever in a buffer the character stands. */
  lemma {:induction false} DecodeCharInvertsEncode(s: seq<Byte>, i: nat, c: CodePoint)
    requires Scalar(c) && i + |Encode(c)| <= |s| && s[i..i + |Encode(c)|] == Encode(c)
    ensures ByteLen(s[i]) == |Encode(c)| && DecodeChar(s, i) == c
  {
    hide Two, Three, Four;
    EncodeShape(c);
    var e := s[i..i + |Encode(c)|];
    assert s[i] == e[0] && (|e| > 1 ==> s[i + 1] == e[1]) && (|e| > 2 ==> s[i + 2] == e[2])
           && (|e| > 3 ==> s[i + 3] == e[3]);
    if c < 0x80 { OneByte(c); }
    else if c < 0x800 { TwoBytes(c); }
    else if c < 0x10000 { ThreeBytes(c); }
    else { FourBytes(c); }
  }

  lemma {:induction false} TwoUnpacks(a: Byte, b: Byte)
    requires 0xC2 <= a <= 0xDF && IsTail(b)
    ensures a & 0x80 != 0 && a & 0xE0 == 0xC0
    ensures var c := Two(a, b);
            0x80 <= c < 0x800 && (c >> 6) < 0x20 && 0xC0 | (c >> 6) as bv8 == a && Tail(c) == b
  {
  }

  lemma {:induction false} TwoGrammar(s: seq<Byte>)
    requires |s| == 2 && Utf8Char(s)
    ensures ByteLen(s[0]) == 2 && Scalar(DecodeChar(s, 0)) && Encode(DecodeChar(s, 0)) == s
  {
    hide Two, Tail;
    TwoUnpacks(s[0], s[1]);
  }

  lemma {:induction false} ThreeUnpacks(a: Byte, b: Byte, c: Byte)
    requires a & 0xF0 == 0xE0 && b & 0xC0 == 0x80 && c & 0xC0 == 0x80
    ensures var r := Three(a, b, c);
            (r >> 12) < 0x10 && 0xE0 | (r >> 12) as bv8 == a && Tail(r >> 6) == b && Tail(r) == c
  {
  }

  lemma {:induction false} ThreeRange(a: Byte, b: Byte, c: Byte)
    requires 0xE0 <= a <= 0xEF && IsTail(b)
    requires (a == 0xE0 ==> 0xA0 <= b) && (a == 0xED ==> b <= 0x9F)
    ensures var r := Three(a, b, c); 0x800 <= r < 0x10000 && !(0xD800 <= r <= 0xDFFF)
  {
  }

  lemma {:induction false} ThreeLead(a: Byte)
    requires 0xE0 <= a <= 0xEF
    ensures a & 0x80 != 0 && a & 0xE0 != 0xC0 && a & 0xF0 == 0xE0
  {
  }

  lemma {:induction false} TailMask(b: Byte)
    ensures b & 0xC0 == 0x80 <==> IsTail(b)
  {
  }

  lemma {:induction false} ThreeEncodes(r: CodePoint, a: Byte, b: Byte, c: Byte)
    requires 0x800 <= r < 0x10000 && !(0xD800 <= r <= 0xDFFF)
    requires (r >> 12) < 0x10 && 0xE0 | (r >> 12) as bv8 == a && Tail(r >> 6) == b && Tail(r) == c
    ensures Scalar(r) && Encode(r) == [a, b, c]
  {
    hide Tail;
  }

  lemma {:induction false} ThreeChar(a: Byte, b: Byte, c: Byte)
    requires 0xE0 <= a <= 0xEF && IsTail(b) && IsTail(c)
    requires (a == 0xE0 ==> 0xA0 <= b) && (a == 0xED ==> b <= 0x9F)
    ensures var r := Three(a, b, c); Scalar(r) && Encode(r) == [a, b, c]
  {
    hide Three, Tail, Scalar, Encode, IsTail;
    TailMask(b);
    TailMask(c);
    ThreeLead(a);
    ThreeRange(a, b, c);
    ThreeUnpacks(a, b, c);
    ThreeEncodes(Three(a, b, c), a, b, c);
  }

  lemma {:induction false} ThreeGrammar(s: seq<Byte>)
    requires |s| == 3 && Utf8Char(s)
    ensures ByteLen(s[0]) == 3 && Scalar(DecodeChar(s, 0)) && Encode(DecodeChar(s, 0)) == s
  {
    hide Three, Scalar, Encode;
    ThreeLead(s[0]);
    ThreeChar(s[0], s[1], s[2]);
  }

  lemma {:induction false} FourUnpacks(a: Byte, b: Byte, c: Byte, d: Byte)
    requires a & 0xF8 == 0xF0 && b & 0xC0 == 0x80 && c & 0xC0 == 0x80 && d & 0xC0 == 0x80
    ensures var r := Four(a, b, c, d);
            && (r >> 18) < 0x8 && 0xF0 | (r >> 18) as bv8 == a
            && Tail(r >> 12) == b && Tail(r >> 6) == c && Tail(r) == d
  {
  }

  lemma {:induction false} FourRange(a: Byte, b: Byte, c: Byte, d: Byte)
    requires 0xF0 <= a <= 0xF4 && IsTail(b)
    requires (a == 0xF0 ==> 0x90 <= b) && (a == 0xF4 ==> b <= 0x8F)
    ensures 0x10000 <= Four(a, b, c, d) <= 0x10FFFF
  {
  }

  lemma {:induction false} FourLead(a: Byte)
    requires 0xF0 <= a <= 0xF4
    ensures a & 0x80 != 0 && a & 0xE0 != 0xC0 && a & 0xF0 != 0xE0 && a & 0xF8 == 0xF0
  {
  }

  lemma {:induction false} FourEncodes(r: CodePoint, a: Byte, b: Byte, c: Byte, d: Byte)
    requires 0x10000 <= r <= 0x10FFFF
    requires (r >> 18) < 0x8 && 0xF0 | (r >> 18) as bv8 == a
    requires Tail(r >> 12) == b && Tail(r >> 6) == c && Tail(r) == d
    ensures Scalar(r) && Encode(r) == [a, b, c, d]
  {
    hide Tail;
  }

  lemma {:induction false} FourChar(a: Byte, b: Byte, c: Byte, d: Byte)
    requires 0xF0 <= a <= 0xF4 && IsTail(b) && IsTail(c) && IsTail(d)
    requires (a == 0xF0 ==> 0x90 <= b) && (a == 0xF4 ==> b <= 0x8F)
    ensures var r := Four(a, b, c, d); Scalar(r) && Encode(r) == [a, b, c, d]
  {
    hide Four, Tail, Scalar, Encode, IsTail;
    TailMask(b);
    TailMask(c);
    TailMask(d);
    FourLead(a);
    FourRange(a, b, c, d);
    FourUnpacks(a, b, c, d);
    FourEncodes(Four(a, b, c, d), a, b, c, d);
  }

  lemma {:induction false} FourGrammar(s: seq<Byte>)
    requires |s| == 4 && Utf8Char(s)
    ensures ByteLen(s[0]) == 4 && Scalar(DecodeChar(s, 0)) && Encode(DecodeChar(s, 0)) == s
  {
    hide Four, Scalar, Encode;
    FourLead(s[0]);
    FourChar(s[0], s[1], s[2], s[3]);
  }

  lemma {:induction false} OneGrammar(s: seq<Byte>)
    requires |s| == 1 && Utf8Char(s)
    ensures ByteLen(s[0]) == 1 && Scalar(DecodeChar(s, 0)) && Encode(DecodeChar(s, 0)) == s
  {
  }

  /** One character of the grammar is one row of the table. */
  lemma {:induction false} EncodeInvertsDecodeChar(s: seq<Byte>)
    requires Utf8Char(s)
    ensures ByteLen(s[0]) == |s| && Scalar(DecodeChar(s, 0)) && Encode(DecodeChar(s, 0)) == s
  {
    hide Scalar, Encode, DecodeChar;
    match |s| {
      case 1 => OneGrammar(s);
      case 2 => TwoGrammar(s);
      case 3 => ThreeGrammar(s);
      case 4 => FourGrammar(s);
      case _ =>
    }
  }

  lemma {:induction false} EncodeIsUtf8Char(c: CodePoint)
    requires Scalar(c)
    ensures Utf8Char(Encode(c))
  {
    TailShape(c);
    TailShape(c >> 6);
    TailShape(c >> 12);
  }

  /** The grammar of section 4 accepts exactly the encodings of section 3. */
  lemma {:induction false} WellFormedIffEncoded(s: seq<Byte>)
    ensures WellFormed(s) <==> exists text :: Scalars(text) && EncodeAll(text) == s
  {
    if WellFormed(s) {
      var text := TextOf(s);
    }
    if text :| Scalars(text) && EncodeAll(text) == s {
      EncodeAllIsWellFormed(text);
    }
  }

  lemma {:induction false} TextOf(s: seq<Byte>) returns (text: seq<CodePoint>)
    requires WellFormed(s)
    ensures Scalars(text) && EncodeAll(text) == s
  {
    hide Utf8Char, Scalar, Encode, ByteLen, DecodeChar;
    if s == [] {
      text := [];
    } else {
      var n :| 1 <= n <= |s| && Utf8Char(s[..n]) && WellFormed(s[n..]);
      EncodeInvertsDecodeChar(s[..n]);
      var rest := TextOf(s[n..]);
      text := [DecodeChar(s[..n], 0)] + rest;
      assert text[1..] == rest;
    }
  }

  lemma {:induction false} EncodeAllIsWellFormed(text: seq<CodePoint>)
    requires Scalars(text)
    ensures WellFormed(EncodeAll(text))
  {
    hide Utf8Char, Scalar, Encode;
    if text != [] {
      EncodeAllIsWellFormed(text[1..]);
      EncodeIsUtf8Char(text[0]);
      var s, n := EncodeAll(text), |Encode(text[0])|;
      assert s[..n] == Encode(text[0]) && s[n..] == EncodeAll(text[1..]);
    }
  }

  /** Bytes determine the text. */
  lemma {:induction false} EncodeAllInjective(a: seq<CodePoint>, b: seq<CodePoint>)
    requires Scalars(a) && Scalars(b) && EncodeAll(a) == EncodeAll(b)
    ensures a == b
  {
    hide Scalar, Encode, ByteLen, DecodeChar;
    if a != [] && b != [] {
      var s := EncodeAll(a);
      assert s[0..|Encode(a[0])|] == Encode(a[0]) && s[0..|Encode(b[0])|] == Encode(b[0]);
      DecodeCharInvertsEncode(s, 0, a[0]);
      DecodeCharInvertsEncode(s, 0, b[0]);
      assert s[|Encode(a[0])|..] == EncodeAll(a[1..]) == EncodeAll(b[1..]);
      EncodeAllInjective(a[1..], b[1..]);
      assert a == [a[0]] + a[1..] && b == [b[0]] + b[1..];
    }
  }
}
