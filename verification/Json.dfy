/** Strings of JSON as RFC 8259 defines them in section 7, on UTF-8 bytes. */
module JsonStandard {
  import opened Bytes
  import opened Common
  import U = Utf8Standard

  const QUOTE: Byte := 0x22
  const BACKSLASH: Byte := 0x5C
  const SLASH: Byte := 0x2F
  const LF: Byte := 0x0A
  const CR: Byte := 0x0D
  const TAB: Byte := 0x09

  predicate IsHex(b: Byte) {
    0x30 <= b <= 0x39 || 0x41 <= b <= 0x46 || 0x61 <= b <= 0x66
  }

  function HexValue(b: Byte): bv32
    requires IsHex(b)
  {
    if b <= 0x39 then (b - 0x30) as bv32 else if b <= 0x46 then (b - 0x37) as bv32 else (b - 0x57) as bv32
  }

  predicate HasUnit(s: seq<Byte>) {
    && |s| >= 6 && s[0] == BACKSLASH && s[1] == 0x75
    && IsHex(s[2]) && IsHex(s[3]) && IsHex(s[4]) && IsHex(s[5])
  }

  /** The 16-bit unit of a six-character escape. */
  function Unit(s: seq<Byte>): bv32
    requires HasUnit(s)
  {
    (HexValue(s[2]) << 12) | (HexValue(s[3]) << 8) | (HexValue(s[4]) << 4) | HexValue(s[5])
  }

  predicate High(u: bv32) {
    0xD800 <= u <= 0xDBFF
  }

  predicate Low(u: bv32) {
    0xDC00 <= u <= 0xDFFF
  }

  /** The code point of an escape at the front, and the escape's length; surrogates must come in pairs. */
  function Escaped(s: seq<Byte>): (r: Option<(U.CodePoint, nat)>)
    ensures r.Some? ==> r.value.1 <= |s| && r.value.1 > 0
  {
    if !HasUnit(s) then None
    else
      var u := Unit(s);
      if High(u) then
        if HasUnit(s[6..]) && Low(Unit(s[6..])) then
          Some((0x10000 + ((u - 0xD800) << 10) + (Unit(s[6..]) - 0xDC00), 12))
        else None
      else if Low(u) then None
      else Some((u, 6))
  }

  /** The two-character escapes. */
  function Short(b: Byte): Option<Byte> {
    if b == QUOTE || b == BACKSLASH || b == SLASH then Some(b)
    else if b == 0x62 then Some(0x08)
    else if b == 0x66 then Some(0x0C)
    else if b == 0x6E then Some(LF)
    else if b == 0x72 then Some(CR)
    else if b == 0x74 then Some(TAB)
    else None
  }

  function Prepend(a: seq<Byte>, rest: Option<seq<Byte>>): Option<seq<Byte>> {
    if rest.None? then None else Some(a + rest.value)
  }

  /** What the characters between two quotation marks stand for, if they are a string at all. */
  function Decode(s: seq<Byte>): Option<seq<Byte>> {
    if s == [] then Some([])
    else if s[0] != BACKSLASH then
      if s[0] == QUOTE || s[0] < 0x20 then None else Prepend([s[0]], Decode(s[1..]))
    else if |s| >= 2 && Short(s[1]).Some? then Prepend([Short(s[1]).value], Decode(s[2..]))
    else
      var e := Escaped(s);
      if e.None? || !U.Scalar(e.value.0) then None
      else Prepend(U.Encode(e.value.0), Decode(s[e.value.1..]))
  }
}

/** json_escape of modules/mod_ai.c. */
module AiJson {
  import opened Bytes
  import opened Common
  import opened JsonStandard
  import U = Utf8Standard

  function HexDigit(d: Byte): Byte {
    if d < 10 then 0x30 + d else 0x57 + d
  }

  /** What one byte is written as. */
  function Written(c: Byte): (r: seq<Byte>)
    ensures 1 <= |r| <= 6
  {
    if c == QUOTE || c == BACKSLASH then [BACKSLASH, c]
    else if c == LF then [BACKSLASH, 0x6E]
    else if c == CR then [BACKSLASH, 0x72]
    else if c == TAB then [BACKSLASH, 0x74]
    else if c < 0x20 then [BACKSLASH, 0x75, 0x30, 0x30, HexDigit(c >> 4), HexDigit(c & 0xF)]
    else [c]
  }

  function WrittenAll(text: seq<Byte>): seq<Byte> {
    if text == [] then [] else Written(text[0]) + WrittenAll(text[1..])
  }

  /** How many bytes of the text are written before the loop sees too little room. */
  function Consumed(text: seq<Byte>, j: nat, max: nat): (k: nat)
    ensures k <= |text|
    decreases |text|
  {
    if text == [] || j + 8 >= max then 0 else 1 + Consumed(text[1..], j + |Written(text[0])|, max)
  }

  lemma {:induction false} WrittenAllAppends(a: seq<Byte>, c: Byte)
    ensures WrittenAll(a + [c]) == WrittenAll(a) + Written(c)
  {
    hide Written;
    if a == [] {
      assert WrittenAll([c]) == Written(c) + WrittenAll([c][1..]);
      assert [] + [c] == [c];
    } else {
      assert (a + [c])[1..] == a[1..] + [c];
      WrittenAllAppends(a[1..], c);
    }
  }

  /** `text` is the C string's bytes; the buffer's length is `max`. */
  method JsonEscape(text: seq<Byte>, out: array<Byte>) returns (j: nat)
    requires 0 !in text && out.Length > 0
    modifies out
    ensures j < out.Length && out[j] == 0
    ensures out[..j] == WrittenAll(text[..Consumed(text, 0, out.Length)])
  {
    hide Written;
    j := 0;
    var i := 0;
    while i < |text| && j + 8 < out.Length
      invariant 0 <= i <= |text| && j < out.Length
      invariant out[..j] == WrittenAll(text[..i])
      invariant Consumed(text, 0, out.Length) == i + Consumed(text[i..], j, out.Length)
    {
      var w := Write(out, j, text[i]);
      WrittenAllAppends(text[..i], text[i]);
      assert text[..i] + [text[i]] == text[..i + 1] && text[i..][1..] == text[i + 1..];
      j, i := j + w, i + 1;
    }
    ghost var done := out[..j];
    out[j] := 0;
    assert out[..j] == done;
  }

  /** The switch of the loop. */
  method Write(out: array<Byte>, j: nat, c: Byte) returns (w: nat)
    requires j + 8 < out.Length
    modifies out
    ensures w == |Written(c)| && out[..j + w] == old(out[..j]) + Written(c)
  {
    if c == QUOTE || c == BACKSLASH {
      out[j], out[j + 1] := BACKSLASH, c;
      w := 2;
    } else if c == LF {
      out[j], out[j + 1] := BACKSLASH, 0x6E;
      w := 2;
    } else if c == CR {
      out[j], out[j + 1] := BACKSLASH, 0x72;
      w := 2;
    } else if c == TAB {
      out[j], out[j + 1] := BACKSLASH, 0x74;
      w := 2;
    } else if c < 0x20 {
      out[j], out[j + 1], out[j + 2], out[j + 3] := BACKSLASH, 0x75, 0x30, 0x30;
      out[j + 4], out[j + 5] := HexDigit(c >> 4), HexDigit(c & 0xF);
      w := 6;
    } else {
      out[j] := c;
      w := 1;
    }
  }

  lemma {:induction false} EnoughRoom(text: seq<Byte>, j: nat, max: nat)
    requires j + 6 * |text| + 4 <= max
    ensures Consumed(text, j, max) == |text|
    decreases |text|
  {
    hide Written;
    if text != [] { EnoughRoom(text[1..], j + |Written(text[0])|, max); }
  }

  /** In the buffer append_message allocates nothing is cut off. */
  lemma {:induction false} NeverTruncates(text: seq<Byte>)
    ensures Consumed(text, 0, 6 * |text| + 4) == |text|
  {
    EnoughRoom(text, 0, 6 * |text| + 4);
  }

  lemma {:induction false} HexDigitReads(d: Byte)
    requires d < 0x10
    ensures IsHex(HexDigit(d)) && HexValue(HexDigit(d)) == d as bv32
  {
  }

  lemma {:induction false} Nibbles(c: Byte)
    requires c < 0x20
    ensures c >> 4 < 0x10 && c & 0xF < 0x10
    ensures ((c >> 4) as bv32 << 4) | (c & 0xF) as bv32 == c as bv32
  {
  }

  lemma {:induction false} ZeroDigit()
    ensures IsHex(0x30) && HexValue(0x30) == 0
  {
  }

  lemma {:induction false} OrZeros(a: bv32, b: bv32)
    ensures ((0 as bv32) << 12) | ((0 as bv32) << 8) | (a << 4) | b == (a << 4) | b
  {
  }

  lemma {:induction false} ControlUnit(c: Byte, rest: seq<Byte>)
    requires c < 0x20
    ensures var e := [BACKSLASH, 0x75, 0x30, 0x30, HexDigit(c >> 4), HexDigit(c & 0xF)] + rest;
            HasUnit(e) && Unit(e) == c as bv32
  {
    hide HexDigit, HexValue, IsHex;
    Nibbles(c);
    HexDigitReads(c >> 4);
    HexDigitReads(c & 0xF);
    ZeroDigit();
    OrZeros((c >> 4) as bv32, (c & 0xF) as bv32);
  }

  lemma {:induction false} SmallScalar(c: Byte)
    requires c < 0x20
    ensures U.Scalar(c as bv32) && U.Encode(c as bv32) == [c] && !High(c as bv32) && !Low(c as bv32)
  {
  }

  lemma {:induction false} ControlDecodes(c: Byte, rest: seq<Byte>)
    requires c < 0x20
    ensures var e := [BACKSLASH, 0x75, 0x30, 0x30, HexDigit(c >> 4), HexDigit(c & 0xF)];
            Decode(e + rest) == Prepend([c], Decode(rest))
  {
    hide HexDigit, Unit, IsHex, High, Low, U.Encode, U.Scalar;
    var e := [BACKSLASH, 0x75, 0x30, 0x30, HexDigit(c >> 4), HexDigit(c & 0xF)];
    ControlUnit(c, rest);
    SmallScalar(c);
    assert (e + rest)[6..] == rest;
  }

  lemma {:induction false} ByteDecodes(c: Byte, rest: seq<Byte>)
    ensures Decode(Written(c) + rest) == Prepend([c], Decode(rest))
  {
    hide HexDigit, Escaped;
    if c < 0x20 && c != LF && c != CR && c != TAB {
      ControlDecodes(c, rest);
    } else if |Written(c)| == 2 {
      assert (Written(c) + rest)[2..] == rest;
    } else {
      assert (Written(c) + rest)[1..] == rest;
    }
  }

  /** A JSON reader gets back exactly the text that was escaped. */
  lemma {:induction false} EscapeRoundTrips(text: seq<Byte>)
    ensures Decode(WrittenAll(text)) == Some(text)
  {
    hide Decode, Written;
    if text == [] {
      DecodeNothing();
    } else {
      ByteDecodes(text[0], WrittenAll(text[1..]));
      EscapeRoundTrips(text[1..]);
      assert text == [text[0]] + text[1..];
    }
  }

  lemma {:induction false} DecodeNothing()
    ensures Decode([]) == Some([])
  {
  }
}

/** nws_json_escape and the string scan of json_str, in modules/mod_nws.c. */
module NwsJson {
  import opened Bytes
  import opened Common
  import opened JsonStandard
  import U = Utf8Standard

  /** What one byte is printed as; control characters other than the three named are skipped. */
  function Printed(c: Byte): (r: seq<Byte>)
    ensures |r| <= 2
  {
    if c == QUOTE || c == BACKSLASH then [BACKSLASH, c]
    else if c == LF then [BACKSLASH, 0x6E]
    else if c == CR then [BACKSLASH, 0x72]
    else if c == TAB then [BACKSLASH, 0x74]
    else if c < 0x20 then []
    else [c]
  }

  function PrintedAll(text: seq<Byte>): seq<Byte> {
    if text == [] then [] else Printed(text[0]) + PrintedAll(text[1..])
  }

  function Consumed(text: seq<Byte>, j: nat, max: nat): (k: nat)
    ensures k <= |text|
    decreases |text|
  {
    if text == [] || j + 2 >= max then 0 else 1 + Consumed(text[1..], j + |Printed(text[0])|, max)
  }

  lemma {:induction false} PrintedAllAppends(a: seq<Byte>, c: Byte)
    ensures PrintedAll(a + [c]) == PrintedAll(a) + Printed(c)
  {
    hide Printed;
    if a == [] {
      assert PrintedAll([c]) == Printed(c) + PrintedAll([c][1..]);
      assert [] + [c] == [c];
    } else {
      assert (a + [c])[1..] == a[1..] + [c];
      PrintedAllAppends(a[1..], c);
    }
  }

  /** `text` is the C string's bytes; the result is the bytes before the NUL written to `out`. */
  method Escape(text: seq<Byte>, out: array<Byte>) returns (j: nat)
    requires 0 !in text && out.Length >= 2
    modifies out
    ensures j < out.Length && out[j] == 0
    ensures out[..j] == PrintedAll(text[..Consumed(text, 0, out.Length)])
  {
    hide Printed;
    j := 0;
    var i := 0;
    while i < |text| && j < out.Length - 2
      invariant 0 <= i <= |text| && j < out.Length
      invariant out[..j] == PrintedAll(text[..i])
      invariant Consumed(text, 0, out.Length) == i + Consumed(text[i..], j, out.Length)
    {
      var w := Print(out, j, text[i]);
      PrintedAllAppends(text[..i], text[i]);
      assert text[..i] + [text[i]] == text[..i + 1] && text[i..][1..] == text[i + 1..];
      j, i := j + w, i + 1;
    }
    ghost var done := out[..j];
    out[j] := 0;
    assert out[..j] == done;
  }

  method Print(out: array<Byte>, j: nat, c: Byte) returns (w: nat)
    requires j + 2 < out.Length
    modifies out
    ensures w == |Printed(c)| && out[..j + w] == old(out[..j]) + Printed(c)
  {
    if c == QUOTE || c == BACKSLASH {
      out[j], out[j + 1] := BACKSLASH, c;
      w := 2;
    } else if c == LF {
      out[j], out[j + 1] := BACKSLASH, 0x6E;
      w := 2;
    } else if c == CR {
      out[j], out[j + 1] := BACKSLASH, 0x72;
      w := 2;
    } else if c == TAB {
      out[j], out[j + 1] := BACKSLASH, 0x74;
      w := 2;
    } else if c < 0x20 {
      w := 0;
    } else {
      out[j] := c;
      w := 1;
    }
  }

  /** The escape character `c` after a backslash, the `u` escapes apart. */
  function Unescaped(c: Byte): Byte {
    if c == 0x6E then LF else if c == 0x72 then CR else if c == 0x74 then TAB else c
  }

  /**
   * The pieces the scan yields from just after the opening quote, each kept or dropped whole: six bytes for
   * a `\uXXXX`, which is copied as it stands, one for anything else.
   */
  function Pieces(s: seq<Byte>): seq<seq<Byte>> {
    if s == [] || s[0] == QUOTE then []
    else if s[0] != BACKSLASH || |s| == 1 then [[s[0]]] + Pieces(s[1..])
    else if s[1] != 0x75 then [[Unescaped(s[1])]] + Pieces(s[2..])
    else if |s| >= 6 then [s[..6]] + Pieces(s[6..])
    else Pieces(s[1..])
  }

  /** The buffer after the pieces, each appended if it leaves room for the NUL. */
  function Fill(w: seq<Byte>, pieces: seq<seq<Byte>>, max: nat): seq<Byte>
    decreases |pieces|
  {
    if pieces == [] then w
    else Fill(if |w| + |pieces[0]| < max then w + pieces[0] else w, pieces[1..], max)
  }

  function Flatten(pieces: seq<seq<Byte>>): seq<Byte> {
    if pieces == [] then [] else pieces[0] + Flatten(pieces[1..])
  }

  /** The string scan of json_str; `s` is what follows the opening quote, up to the document's NUL. */
  method Scan(s: seq<Byte>, out: array<Byte>) returns (w: nat)
    requires 0 !in s && out.Length > 0
    modifies out
    ensures w < out.Length && out[w] == 0
    ensures out[..w] == Fill([], Pieces(s), out.Length)
  {
    hide Fill, Pieces;
    w := 0;
    var p := 0;
    while p < |s| && s[p] != QUOTE
      invariant 0 <= p <= |s| && w < out.Length
      invariant Fill([], Pieces(s), out.Length) == Fill(out[..w], Pieces(s[p..]), out.Length)
      decreases |s| - p
    {
      FirstPiece(s, p, out[..w], out.Length);
      if s[p] == BACKSLASH && p + 1 < |s| {
        var c := s[p + 1];
        if c == 0x75 {
          if p + 5 < |s| {
            w := Append(out, w, s[p..p + 6]);
            p := p + 6;
          } else {
            p := p + 1;
          }
        } else {
          w := Append(out, w, [Unescaped(c)]);
          p := p + 2;
        }
      } else {
        w := Append(out, w, [s[p]]);
        p := p + 1;
      }
    }
    ghost var done := out[..w];
    StopsHere(s[p..], done, out.Length);
    out[w] := 0;
    assert out[..w] == done;
  }

  lemma {:induction false} StopsHere(s: seq<Byte>, w: seq<Byte>, max: nat)
    requires s == [] || s[0] == QUOTE
    ensures Fill(w, Pieces(s), max) == w
  {
  }

  function Room(w: seq<Byte>, piece: seq<Byte>, max: nat): seq<Byte> {
    if |w| + |piece| < max then w + piece else w
  }

  lemma {:induction false} FillOne(w: seq<Byte>, piece: seq<Byte>, rest: seq<seq<Byte>>, max: nat)
    ensures Fill(w, [piece] + rest, max) == Fill(Room(w, piece, max), rest, max)
  {
    assert ([piece] + rest)[1..] == rest;
  }

  /** What one turn of the scan takes. */
  lemma {:induction false} FirstPiece(s: seq<Byte>, p: nat, w: seq<Byte>, max: nat)
    requires p < |s| && s[p] != QUOTE
    ensures var all := Fill(w, Pieces(s[p..]), max);
            if s[p] == BACKSLASH && p + 1 < |s| then
              if s[p + 1] != 0x75 then all == Fill(Room(w, [Unescaped(s[p + 1])], max), Pieces(s[p + 2..]), max)
              else if p + 5 < |s| then all == Fill(Room(w, s[p..p + 6], max), Pieces(s[p + 6..]), max)
              else all == Fill(w, Pieces(s[p + 1..]), max)
            else all == Fill(Room(w, [s[p]], max), Pieces(s[p + 1..]), max)
  {
    hide Fill, Unescaped;
    var t := s[p..];
    assert t[1..] == s[p + 1..];
    if s[p] == BACKSLASH && p + 1 < |s| {
      if s[p + 1] != 0x75 {
        assert t[2..] == s[p + 2..];
        FillOne(w, [Unescaped(s[p + 1])], Pieces(s[p + 2..]), max);
      } else if p + 5 < |s| {
        assert t[6..] == s[p + 6..] && t[..6] == s[p..p + 6];
        FillOne(w, s[p..p + 6], Pieces(s[p + 6..]), max);
      }
    } else {
      FillOne(w, [s[p]], Pieces(s[p + 1..]), max);
    }
  }

  method Append(out: array<Byte>, w: nat, piece: seq<Byte>) returns (n: nat)
    requires w < out.Length
    modifies out
    ensures n < out.Length && out[..n] == Room(old(out[..w]), piece, out.Length)
  {
    if w + |piece| < out.Length {
      forall i | 0 <= i < |piece| { out[w + i] := piece[i]; }
      return w + |piece|;
    }
    return w;
  }

  lemma {:induction false} FillFits(w: seq<Byte>, pieces: seq<seq<Byte>>, max: nat)
    requires |w| + |Flatten(pieces)| < max
    ensures Fill(w, pieces, max) == w + Flatten(pieces)
    decreases |pieces|
  {
    if pieces != [] {
      FillFits(w + pieces[0], pieces[1..], max);
      assert w + pieces[0] + Flatten(pieces[1..]) == w + Flatten(pieces);
    }
  }

  /** The text without the control characters that are not printed. */
  function Kept(text: seq<Byte>): (k: seq<Byte>)
    ensures |k| <= |text|
  {
    if text == [] then [] else (if |Printed(text[0])| == 0 then [] else [text[0]]) + Kept(text[1..])
  }

  predicate Printable(text: seq<Byte>) {
    forall i :: 0 <= i < |text| ==> text[i] >= 0x20 || text[i] == LF || text[i] == CR || text[i] == TAB
  }

  lemma {:induction false} BytePieces(c: Byte, rest: seq<Byte>)
    ensures Pieces(Printed(c) + rest) == (if |Printed(c)| == 0 then [] else [[c]]) + Pieces(rest)
  {
    if |Printed(c)| == 2 {
      assert (Printed(c) + rest)[2..] == rest;
    } else if |Printed(c)| == 1 {
      assert (Printed(c) + rest)[1..] == rest;
    } else {
      assert Printed(c) + rest == rest;
    }
  }

  /** Reading a printed text back yields what was printed of it, up to the closing quote and no further. */
  lemma {:induction false} ScanReadsPrinted(text: seq<Byte>, rest: seq<Byte>)
    ensures Flatten(Pieces(PrintedAll(text) + [QUOTE] + rest)) == Kept(text)
  {
    hide Printed;
    var tail := [QUOTE] + rest;
    if text == [] {
      assert PrintedAll(text) + [QUOTE] + rest == tail;
    } else {
      var c, more := text[0], PrintedAll(text[1..]) + [QUOTE] + rest;
      assert PrintedAll(text) + [QUOTE] + rest == Printed(c) + more;
      BytePieces(c, more);
      ScanReadsPrinted(text[1..], rest);
      if |Printed(c)| == 0 {
        assert [] + Pieces(more) == Pieces(more);
      } else {
        assert ([[c]] + Pieces(more))[1..] == Pieces(more);
      }
    }
  }

  lemma {:induction false} KeptIffPrintable(text: seq<Byte>)
    ensures Kept(text) == text <==> Printable(text)
  {
    if text != [] {
      KeptIffPrintable(text[1..]);
      assert text == [text[0]] + text[1..];
      if |Printed(text[0])| == 0 {
        assert |Kept(text)| < |text|;
      } else {
        assert Kept(text)[1..] == Kept(text[1..]);
      }
    }
  }

  lemma {:induction false} EnoughRoom(text: seq<Byte>, j: nat, max: nat)
    requires j + 2 * |text| < max
    ensures Consumed(text, j, max) == |text|
    decreases |text|
  {
    hide Printed;
    if text != [] { EnoughRoom(text[1..], j + |Printed(text[0])|, max); }
  }

  /**
   * With output buffers of twice the field's size, printing cuts nothing off, and scanning the result into
   * a field of that size gives the text back exactly when its only control characters are the three named.
   */
  lemma {:induction false} PrintThenScan(text: seq<Byte>, rest: seq<Byte>, field: nat)
    requires |text| < field
    ensures Consumed(text, 0, 2 * field) == |text|
    ensures var printed := PrintedAll(text[..Consumed(text, 0, 2 * field)]);
            Fill([], Pieces(printed + [QUOTE] + rest), field) == text <==> Printable(text)
  {
    hide Printed, Pieces, Fill, Printable, Flatten, PrintedAll;
    EnoughRoom(text, 0, 2 * field);
    assert text[..|text|] == text;
    ScanReadsPrinted(text, rest);
    FillFits([], Pieces(PrintedAll(text) + [QUOTE] + rest), field);
    KeptIffPrintable(text);
  }

  /** The pieces that are kept, in order. */
  function KeptPieces(w: nat, pieces: seq<seq<Byte>>, max: nat): seq<seq<Byte>>
    decreases |pieces|
  {
    if pieces == [] then []
    else if w + |pieces[0]| < max then [pieces[0]] + KeptPieces(w + |pieces[0]|, pieces[1..], max)
    else KeptPieces(w, pieces[1..], max)
  }

  /** How many pieces fit before the first that does not. */
  function Leading(w: nat, pieces: seq<seq<Byte>>, max: nat): (k: nat)
    ensures k <= |pieces|
    ensures k < |pieces| ==> w + |Flatten(pieces[..k])| + |pieces[k]| >= max
    decreases |pieces|
  {
    if pieces == [] || w + |pieces[0]| >= max then 0
    else
      var k := Leading(w + |pieces[0]|, pieces[1..], max);
      assert pieces[..k + 1][1..] == pieces[1..][..k];
      1 + k
  }

  lemma {:induction false} FillIsKept(w: seq<Byte>, pieces: seq<seq<Byte>>, max: nat)
    ensures Fill(w, pieces, max) == w + Flatten(KeptPieces(|w|, pieces, max))
    decreases |pieces|
  {
    if pieces == [] {
      assert w + [] == w;
    } else {
      var fits := |w| + |pieces[0]| < max;
      FillIsKept(if fits then w + pieces[0] else w, pieces[1..], max);
      if fits {
        var rest := KeptPieces(|w| + |pieces[0]|, pieces[1..], max);
        assert ([pieces[0]] + rest)[1..] == rest;
        assert w + pieces[0] + Flatten(rest) == w + (pieces[0] + Flatten(rest));
      }
    }
  }

  /** No piece fits any more. */
  predicate AllTooLong(w: nat, pieces: seq<seq<Byte>>, max: nat) {
    forall j :: 0 <= j < |pieces| ==> w + |pieces[j]| >= max
  }

  lemma {:induction false} KeptIsEmptyIff(w: nat, pieces: seq<seq<Byte>>, max: nat)
    ensures KeptPieces(w, pieces, max) == [] <==> AllTooLong(w, pieces, max)
    ensures KeptPieces(w, pieces, max) != [] ==> w + |KeptPieces(w, pieces, max)[0]| < max
    decreases |pieces|
  {
    if pieces != [] {
      var rest := pieces[1..];
      KeptIsEmptyIff(w, rest, max);
      assert forall j :: 0 < j < |pieces| ==> pieces[j] == rest[j - 1];
      assert forall j :: 0 <= j < |rest| ==> rest[j] == pieces[j + 1];
    }
  }

  lemma {:induction false} FlattenNothing()
    ensures Flatten([]) == []
  {
  }

  lemma {:induction false} FlattenCons(p: seq<Byte>, rest: seq<seq<Byte>>)
    ensures Flatten([p] + rest) == p + Flatten(rest)
  {
    assert ([p] + rest)[1..] == rest;
  }

  /** The kept pieces are the leading ones and then what fits of the others. */
  lemma {:induction false} KeptAfterLeading(w: nat, pieces: seq<seq<Byte>>, max: nat)
    ensures var k := Leading(w, pieces, max);
            KeptPieces(w, pieces, max) == pieces[..k] + KeptPieces(w + |Flatten(pieces[..k])|, pieces[k..], max)
    decreases |pieces|
  {
    hide Flatten, KeptPieces, Leading;
    var k := Leading(w, pieces, max);
    FlattenNothing();
    OneFits(w, pieces, max);
    if pieces == [] || w + |pieces[0]| >= max {
      assert pieces[..0] == [] && pieces[0..] == pieces;
    } else {
      var p, rest := pieces[0], pieces[1..];
      KeptAfterLeading(w + |p|, rest, max);
      var head, tail := rest[..k - 1], rest[k - 1..];
      FlattenCons(p, head);
      assert pieces[..k] == [p] + head && pieces[k..] == tail;
      var more := KeptPieces(w + |Flatten(pieces[..k])|, tail, max);
      assert [p] + (head + more) == ([p] + head) + more;
    }
  }

  lemma {:induction false} OneFits(w: nat, pieces: seq<seq<Byte>>, max: nat)
    ensures if pieces == [] || w + |pieces[0]| >= max then Leading(w, pieces, max) == 0
            else
              var v, rest := w + |pieces[0]|, pieces[1..];
              && Leading(w, pieces, max) == 1 + Leading(v, rest, max)
              && KeptPieces(w, pieces, max) == [pieces[0]] + KeptPieces(v, rest, max)
  {
    hide Flatten;
  }

  /**
   * What is kept is the string cut off, exactly when after the first piece that does not fit there is no
   * room left for any later piece either.
   */
  lemma {:induction false} TruncatesCleanlyIff(pieces: seq<seq<Byte>>, max: nat)
    ensures Fill([], pieces, max) == Flatten(KeptPieces(0, pieces, max))
    ensures var k := Leading(0, pieces, max);
            KeptPieces(0, pieces, max) <= pieces <==> AllTooLong(|Flatten(pieces[..k])|, pieces[k..], max)
  {
    var k, kept := Leading(0, pieces, max), KeptPieces(0, pieces, max);
    FillIsKept([], pieces, max);
    KeptAfterLeading(0, pieces, max);
    var w := |Flatten(pieces[..k])|;
    var more := KeptPieces(w, pieces[k..], max);
    KeptIsEmptyIff(w, pieces[k..], max);
    if more == [] {
      assert kept == pieces[..k];
    } else {
      assert kept[k] == more[0] && |more[0]| < |pieces[k]|;
    }
  }

  /** Every piece is one byte. */
  predicate OneByOne(pieces: seq<seq<Byte>>) {
    forall i :: 0 <= i < |pieces| ==> |pieces[i]| == 1
  }

  lemma {:induction false} OneByOneLength(pieces: seq<seq<Byte>>)
    requires OneByOne(pieces)
    ensures |Flatten(pieces)| == |pieces|
  {
    if pieces != [] { OneByOneLength(pieces[1..]); }
  }

  lemma {:induction false} LeadingFits(w: nat, pieces: seq<seq<Byte>>, max: nat)
    requires w < max
    ensures w + |Flatten(pieces[..Leading(w, pieces, max)])| < max
    decreases |pieces|
  {
    hide Flatten;
    FlattenNothing();
    if pieces != [] && w + |pieces[0]| < max {
      var rest := pieces[1..];
      LeadingFits(w + |pieces[0]|, rest, max);
      var k := Leading(w + |pieces[0]|, rest, max);
      FlattenCons(pieces[0], rest[..k]);
      assert pieces[..k + 1] == [pieces[0]] + rest[..k];
    }
  }

  /** A text without `\uXXXX` is always cut off cleanly, after as many characters as fit before the NUL. */
  lemma {:induction false} PlainTextIsCutOff(pieces: seq<seq<Byte>>, max: nat)
    requires max > 0 && OneByOne(pieces)
    ensures var n := Min(|pieces|, max - 1);
            KeptPieces(0, pieces, max) == pieces[..n] && Fill([], pieces, max) == Flatten(pieces[..n])
  {
    hide Flatten, KeptPieces, Fill;
    var k := Leading(0, pieces, max);
    TruncatesCleanlyIff(pieces, max);
    LeadingFits(0, pieces, max);
    OneByOneLength(pieces[..k]);
    KeptAfterLeading(0, pieces, max);
    KeptIsEmptyIff(|Flatten(pieces[..k])|, pieces[k..], max);
  }

  /** A `\uXXXX` that does not fit leaves a hole: what follows it is still taken. */
  lemma {:induction false} LongPieceLeavesAHole()
    ensures var s := [BACKSLASH, 0x75, 0x30, 0x30, 0x65, 0x39, 0x61, QUOTE];
            Fill([], Pieces(s), 4) == [0x61] && !([0x61] <= Flatten(Pieces(s)))
  {
    var s := [BACKSLASH, 0x75, 0x30, 0x30, 0x65, 0x39, 0x61, QUOTE];
    assert s[6..] == [0x61, QUOTE] && s[6..][1..] == [QUOTE];
    assert Pieces([QUOTE]) == [];
    assert Pieces([0x61, QUOTE]) == [[0x61]];
    assert Pieces(s) == [s[..6]] + [[0x61]];
    var p := Pieces(s);
    assert p[1..] == [[0x61]] && p[1..][1..] == [];
    assert Fill([], p[1..], 4) == Fill([0x61], [], 4);
    assert Flatten(p)[0] == BACKSLASH;
  }

  // ---- Against the standard's reader ----

  /** The only escapes are of a quotation mark, a backslash, a slash, a line feed, a return and a tab. */
  predicate SimplyEscaped(s: seq<Byte>) {
    if s == [] then true
    else if s[0] != BACKSLASH then SimplyEscaped(s[1..])
    else
      |s| >= 2 && (s[1] == QUOTE || s[1] == BACKSLASH || s[1] == SLASH || s[1] == 0x6E || s[1] == 0x72 || s[1] == 0x74)
      && SimplyEscaped(s[2..])
  }

  lemma {:induction false} PlainPiece(s: seq<Byte>, tail: seq<Byte>)
    requires s != [] && s[0] != BACKSLASH && s[0] != QUOTE
    ensures Flatten(Pieces(s + tail)) == [s[0]] + Flatten(Pieces(s[1..] + tail))
  {
    assert (s + tail)[1..] == s[1..] + tail;
    FlattenCons([s[0]], Pieces(s[1..] + tail));
    hide Flatten;
  }

  lemma {:induction false} ShortPiece(s: seq<Byte>, tail: seq<Byte>)
    requires |s| >= 2 && s[0] == BACKSLASH && s[1] != 0x75
    ensures Flatten(Pieces(s + tail)) == [Unescaped(s[1])] + Flatten(Pieces(s[2..] + tail))
  {
    assert (s + tail)[2..] == s[2..] + tail;
    FlattenCons([Unescaped(s[1])], Pieces(s[2..] + tail));
    hide Flatten, Unescaped;
  }

  /** A `\uXXXX` is copied as it stands. */
  lemma {:induction false} UnitPiece(s: seq<Byte>, tail: seq<Byte>)
    requires |s| >= 6 && s[0] == BACKSLASH && s[1] == 0x75
    ensures Flatten(Pieces(s + tail)) == s[..6] + Flatten(Pieces(s[6..] + tail))
  {
    assert (s + tail)[6..] == s[6..] + tail && (s + tail)[..6] == s[..6];
    FlattenCons(s[..6], Pieces(s[6..] + tail));
    hide Flatten;
  }

  lemma {:induction false} LongerThan(a: seq<Byte>, b: seq<Byte>, x: seq<Byte>, y: seq<Byte>)
    requires |a| > |b| && |x| >= |y|
    ensures |a + x| > |b + y| && a + x != b + y
  {
  }

  lemma {:induction false} SameFirst(c: Byte, d: Byte, x: seq<Byte>, y: seq<Byte>)
    ensures [c] + x == [d] + y <==> c == d && x == y
  {
    if [c] + x == [d] + y {
      assert ([c] + x)[0] == c && ([d] + y)[0] == d && ([c] + x)[1..] == x && ([d] + y)[1..] == y;
    }
  }

  lemma {:induction false} ShortIsUnescaped(c: Byte)
    requires Short(c).Some?
    ensures c != 0x75
    ensures Unescaped(c) == Short(c).value
            <==> c == QUOTE || c == BACKSLASH || c == SLASH || c == 0x6E || c == 0x72 || c == 0x74
  {
  }

  /**
   * Of a string that section 7 of RFC 8259 allows, the scan yields what that standard says it stands for
   * exactly when it is simply escaped: `\b` and `\f` come out as letters, and `\uXXXX` as it is written.
   */
  lemma {:induction false} ScanReadsStandardIff(s: seq<Byte>, rest: seq<Byte>)
    requires Decode(s).Some?
    ensures var raw := Flatten(Pieces(s + ([QUOTE] + rest)));
            |raw| >= |Decode(s).value| && (raw == Decode(s).value <==> SimplyEscaped(s))
    decreases |s|
  {
    hide Pieces, Flatten, Unescaped, Short, U.Encode, U.Scalar, Unit, High, Low;
    var tail := [QUOTE] + rest;
    if s == [] {
      assert s + tail == tail;
      NothingLeft(rest);
    } else if s[0] != BACKSLASH {
      PlainPiece(s, tail);
      ScanReadsStandardIff(s[1..], rest);
      SameFirst(s[0], s[0], Flatten(Pieces(s[1..] + tail)), Decode(s[1..]).value);
    } else if |s| >= 2 && Short(s[1]).Some? {
      ShortIsUnescaped(s[1]);
      ShortPiece(s, tail);
      ScanReadsStandardIff(s[2..], rest);
      SameFirst(Unescaped(s[1]), Short(s[1]).value, Flatten(Pieces(s[2..] + tail)), Decode(s[2..]).value);
    } else {
      UnitsAreLonger(s, rest);
      NotShort(s);
    }
  }

  lemma {:induction false} NotShort(s: seq<Byte>)
    requires |s| >= 2 && s[0] == BACKSLASH && Short(s[1]).None?
    ensures !SimplyEscaped(s)
  {
  }

  lemma {:induction false} NothingLeft(rest: seq<Byte>)
    ensures Flatten(Pieces([QUOTE] + rest)) == [] && Decode([]) == Some([]) && SimplyEscaped([])
  {
  }

  lemma {:induction false} UnitsAreLonger(s: seq<Byte>, rest: seq<Byte>)
    requires Decode(s).Some? && s != [] && s[0] == BACKSLASH && !(|s| >= 2 && Short(s[1]).Some?)
    ensures |s| >= 6 && s[1] == 0x75
    ensures |Flatten(Pieces(s + ([QUOTE] + rest)))| > |Decode(s).value|
    decreases |s|, 0
  {
    hide Pieces, Flatten, Unescaped, Short, U.Encode, U.Scalar, Unit, High, Low, SimplyEscaped;
    var tail := [QUOTE] + rest;
    var e := Escaped(s).value;
    UnitPiece(s, tail);
    if e.1 == 12 {
      assert s[6..][6..] == s[12..];
      UnitPiece(s[6..], tail);
    }
    ScanReadsStandardIff(s[e.1..], rest);
  }
}
