/** Most-significant-first bit strings, and cutting them into fixed-width groups. */
module Bits {
  import opened Common

  /** The `n` low-order bits of `v`. */
  function ToBits(v: nat, n: nat): (r: seq<bool>)
    ensures |r| == n
  {
    if n == 0 then [] else ToBits(v / 2, n - 1) + [v % 2 == 1]
  }

  function FromBits(bits: seq<bool>): nat {
    if bits == [] then 0
    else 2 * FromBits(bits[..|bits| - 1]) + (if bits[|bits| - 1] then 1 else 0)
  }

  /** The bits of several `n`-bit groups, in order. */
  function Spread(groups: seq<nat>, n: nat): (r: seq<bool>)
    ensures |r| == |groups| * n
  {
    if groups == [] then []
    else
      assert |groups| * n == (|groups| - 1) * n + n;
      Spread(groups[..|groups| - 1], n) + ToBits(groups[|groups| - 1], n)
  }

  /** The whole `n`-bit groups of a bit string; fewer than `n` bits left over are dropped. */
  function Pack(bits: seq<bool>, n: nat): seq<nat>
    requires n > 0
    decreases |bits|
  {
    if |bits| < n then [] else [FromBits(bits[..n])] + Pack(bits[n..], n)
  }

  lemma {:induction false} FromToBits(v: nat, n: nat)
    requires v < Pow2(n)
    ensures FromBits(ToBits(v, n)) == v
  {
    if n > 0 {
      FromToBits(v / 2, n - 1);
      assert ToBits(v, n)[..n - 1] == ToBits(v / 2, n - 1);
    }
  }

  lemma {:induction false} ToFromBits(bits: seq<bool>)
    ensures FromBits(bits) < Pow2(|bits|)
    ensures ToBits(FromBits(bits), |bits|) == bits
  {
    if bits != [] {
      ToFromBits(bits[..|bits| - 1]);
    }
  }

  lemma {:induction false} FromBitsConcat(a: seq<bool>, b: seq<bool>)
    ensures FromBits(a + b) == FromBits(a) * Pow2(|b|) + FromBits(b)
  {
    if b == [] {
      assert a + b == a;
    } else {
      var b' := b[..|b| - 1];
      FromBitsConcat(a, b');
      assert (a + b)[..|a + b| - 1] == a + b';
      assert FromBits(a) * Pow2(|b|) == 2 * (FromBits(a) * Pow2(|b'|));
    }
  }

  /** Cutting off `q` whole groups at the front cuts the packing. */
  lemma {:induction false} PackConcat(a: seq<bool>, b: seq<bool>, n: nat, q: nat)
    requires n > 0 && |a| == q * n
    ensures Pack(a + b, n) == Pack(a, n) + Pack(b, n)
    decreases q
  {
    if q == 0 {
      assert a + b == b;
    } else {
      assert |a| == (q - 1) * n + n;
      assert (a + b)[..n] == a[..n] && (a + b)[n..] == a[n..] + b;
      PackConcat(a[n..], b, n, q - 1);
    }
  }

  /** Packing undoes spreading, whatever fewer than `n` bits follow. */
  lemma {:induction false} PackSpread(groups: seq<nat>, n: nat, junk: seq<bool>)
    requires n > 0 && |junk| < n
    requires forall i :: 0 <= i < |groups| ==> groups[i] < Pow2(n)
    ensures Pack(Spread(groups, n) + junk, n) == groups
  {
    hide FromBits, ToBits, Pow2;
    if groups == [] {
      assert Spread(groups, n) + junk == junk;
    } else {
      var init, last := groups[..|groups| - 1], groups[|groups| - 1];
      PackSpread(init, n, []);
      assert Spread(init, n) + [] == Spread(init, n);
      var tail := ToBits(last, n) + junk;
      assert Spread(groups, n) + junk == Spread(init, n) + tail;
      PackConcat(Spread(init, n), tail, n, |init|);
      assert tail[..n] == ToBits(last, n) && tail[n..] == junk;
      FromToBits(last, n);
      assert Pack(tail, n) == [last] + Pack(junk, n);
    }
  }

  /** Spreading undoes packing when no bits are left over. */
  lemma {:induction false} SpreadPack(bits: seq<bool>, n: nat, q: nat)
    requires n > 0 && |bits| == q * n
    ensures Spread(Pack(bits, n), n) == bits
    ensures forall i :: 0 <= i < |Pack(bits, n)| ==> Pack(bits, n)[i] < Pow2(n)
    decreases q
  {
    hide FromBits, ToBits, Pow2;
    if q > 0 {
      assert |bits| == (q - 1) * n + n;
      SpreadPack(bits[n..], n, q - 1);
      ToFromBits(bits[..n]);
      SpreadCons(FromBits(bits[..n]), Pack(bits[n..], n), n);
    }
  }

  lemma {:induction false} SpreadCons(g: nat, groups: seq<nat>, n: nat)
    ensures Spread([g] + groups, n) == ToBits(g, n) + Spread(groups, n)
  {
    if groups == [] {
      assert ([g] + groups)[..0] == [];
    } else {
      var init := groups[..|groups| - 1];
      SpreadCons(g, init, n);
      assert ([g] + groups)[..|groups|] == [g] + init;
    }
  }
}

/** RFC 4648 section 6: the encoder. */
module Base32Standard {
  import opened Bytes
  import opened Bits
  import opened Common

  const ALPHABET: string := "ABCDEFGHIJKLMNOPQRSTUVWXYZ234567"

  function ByteValues(bytes: seq<Byte>): (r: seq<nat>)
    ensures |r| == |bytes|
  {
    seq(|bytes|, i requires 0 <= i < |bytes| => bytes[i] as nat)
  }

  /** Zero bits that complete the final 5-bit group. */
  function FillBits(n: nat): (r: seq<bool>)
    ensures |r| < 5 && (n + |r|) % 5 == 0
  {
    seq((5 - n % 5) % 5, _ => false)
  }

  function Groups(bytes: seq<Byte>): seq<nat> {
    var bits := Spread(ByteValues(bytes), 8);
    Pack(bits + FillBits(|bits|), 5)
  }

  /** Table 3 of the standard, as a formula. */
  function Letter(v: nat): char
    requires v < 32
  {
    if v < 26 then 'A' + v as char else '2' + (v - 26) as char
  }

  lemma {:induction false} LetterIsTabled(v: nat)
    requires v < 32
    ensures ALPHABET[v] == Letter(v)
  {
  }

  function Letters(groups: seq<nat>): (r: string)
    requires forall i :: 0 <= i < |groups| ==> groups[i] < 32
    ensures |r| == |groups|
  {
    seq(|groups|, i requires 0 <= i < |groups| => Letter(groups[i]))
  }

  lemma {:induction false} GroupsAreFiveBits(bytes: seq<Byte>)
    ensures forall i :: 0 <= i < |Groups(bytes)| ==> Groups(bytes)[i] < 32
    ensures var bits := Spread(ByteValues(bytes), 8);
            Spread(Groups(bytes), 5) == bits + FillBits(|bits|)
  {
    var bits := Spread(ByteValues(bytes), 8);
    var all := bits + FillBits(|bits|);
    SpreadPack(all, 5, |all| / 5);
    assert Pow2(5) == 32;
  }

  function Encode(bytes: seq<Byte>): string {
    GroupsAreFiveBits(bytes);
    var groups := Groups(bytes);
    Letters(groups) + seq((8 - |groups| % 8) % 8, _ => '=')
  }
}

/** The decoder of modules/mod_otp.c. */
module Base32 {
  import Arith
  import opened Bytes
  import opened Bits
  import opened Common
  import Std = Base32Standard

  predicate Stops(c: char) {
    c == '\0' || c == '='
  }

  function Upper(c: char): char {
    if 'a' <= c <= 'z' then c - 32 as char else c
  }

  /** The position of `c` in the alphabet, as strchr finds it. */
  function IndexOf(c: char): (r: Option<nat>)
    ensures r.Some? ==> r.value < 32
  {
    if 'A' <= c <= 'Z' then Some((c - 'A') as nat)
    else if '2' <= c <= '7' then Some((c - '2') as nat + 26)
    else None
  }

  lemma {:induction false} IndexOfLetter(v: nat)
    requires v < 32
    ensures var c := Std.Letter(v);
            IndexOf(c) == Some(v) && Upper(c) == c && !Stops(c)
  {
  }

  lemma {:induction false} LetterOfIndex(c: char)
    requires IndexOf(c).Some?
    ensures Std.Letter(IndexOf(c).value) == c
  {
  }

  /** The formula is what searching the standard's table finds. */
  lemma {:induction false} IndexOfIsStrchr(c: char, v: nat)
    ensures IndexOf(c) == Some(v) <==> v < 32 && Std.ALPHABET[v] == c
  {
    hide IndexOf, Std.Letter;
    if IndexOf(c) == Some(v) { LetterOfIndex(c); }
    if v < 32 {
      Std.LetterIsTabled(v);
      IndexOfLetter(v);
    }
  }

  /** The 5-bit values that a key string stands for, up to '=' or the end. */
  function Values(s: string): (r: seq<nat>)
    ensures forall i :: 0 <= i < |r| ==> r[i] < 32
  {
    if s == [] || Stops(s[0]) then []
    else
      match IndexOf(Upper(s[0]))
      case None => Values(s[1..])
      case Some(v) => [v] + Values(s[1..])
  }

  function AsByte(value: nat): Byte {
    (value % 256) as Byte
  }

  function AsBytes(values: seq<nat>): (r: seq<Byte>)
    ensures |r| == |values|
  {
    seq(|values|, i requires 0 <= i < |values| => AsByte(values[i]))
  }

  function BitsOf(s: string): seq<bool> {
    Spread(Values(s), 5)
  }

  /** The whole bytes in a key string. */
  function Decoded(s: string): seq<Byte> {
    AsBytes(Pack(BitsOf(s), 8))
  }

  // ---- What the decoder promises ----

  lemma {:induction false} ValuesOfLetters(groups: seq<nat>, fill: string)
    requires forall i :: 0 <= i < |groups| ==> groups[i] < 32
    requires fill != [] ==> Stops(fill[0])
    ensures Values(Std.Letters(groups) + fill) == groups
  {
    hide IndexOf, Upper, Std.Letter;
    var s := Std.Letters(groups) + fill;
    if groups == [] {
      assert s == fill;
    } else {
      IndexOfLetter(groups[0]);
      assert s[1..] == Std.Letters(groups[1..]) + fill;
      ValuesOfLetters(groups[1..], fill);
      assert s[0] == Std.Letter(groups[0]);
      hide Stops;
      assert groups == [groups[0]] + groups[1..];
    }
  }

  lemma {:induction false} BytesOfValues(bytes: seq<Byte>)
    ensures AsBytes(Std.ByteValues(bytes)) == bytes
    ensures forall i :: 0 <= i < |bytes| ==> Std.ByteValues(bytes)[i] < Pow2(8)
  {
    assert Pow2(8) == 256;
    forall i | 0 <= i < |bytes|
      ensures AsBytes(Std.ByteValues(bytes))[i] == bytes[i]
    {
      ByteRoundTrip(bytes[i]);
    }
  }

  lemma {:induction false} ByteRoundTrip(b: Byte)
    ensures b as nat < 256 && (b as nat % 256) as Byte == b
  {
    assert b as nat % 256 == b as nat;
  }

  lemma {:induction false} EncodeValues(bytes: seq<Byte>)
    ensures Values(Std.Encode(bytes)) == Std.Groups(bytes)
  {
    hide Std.Groups, Std.Letters, Std.Letter, Std.FillBits, Std.ByteValues, Spread, Pack, Values, IndexOf, Upper;
    Std.GroupsAreFiveBits(bytes);
    var groups := Std.Groups(bytes);
    ValuesOfLetters(groups, seq((8 - |groups| % 8) % 8, _ => '='));
  }

  /** Decoding undoes the standard's encoding. */
  lemma {:induction false} RoundTrip(bytes: seq<Byte>)
    ensures Decoded(Std.Encode(bytes)) == bytes
  {
    hide Std.Encode, Std.Groups, Std.FillBits, Values, AsBytes, Std.ByteValues;
    EncodeValues(bytes);
    Std.GroupsAreFiveBits(bytes);
    BytesOfValues(bytes);
    var bits := Spread(Std.ByteValues(bytes), 8);
    PackSpread(Std.ByteValues(bytes), 8, Std.FillBits(|bits|));
  }

  function UpperAll(s: string): (r: string)
    ensures |r| == |s|
  {
    seq(|s|, i requires 0 <= i < |s| => Upper(s[i]))
  }

  /** Case does not matter. */
  lemma {:induction false} CaseIsIgnored(s: string)
    ensures Values(UpperAll(s)) == Values(s)
    ensures Decoded(UpperAll(s)) == Decoded(s)
  {
    if s != [] {
      CaseIsIgnored(s[1..]);
      assert UpperAll(s)[1..] == UpperAll(s[1..]);
    }
  }

  /** Nor do spaces, dashes and whatever else is outside the alphabet. */
  lemma {:induction false} StrayCharactersAreIgnored(a: string, c: char, b: string)
    requires IndexOf(Upper(c)).None? && !Stops(c)
    ensures Values(a + [c] + b) == Values(a + b)
    ensures Decoded(a + [c] + b) == Decoded(a + b)
  {
    if a == [] {
      assert (a + [c] + b)[1..] == b && a + b == b;
    } else {
      StrayCharactersAreIgnored(a[1..], c, b);
      assert (a + [c] + b)[1..] == a[1..] + [c] + b;
      assert (a + b)[1..] == a[1..] + b;
    }
  }

  /** Small letters stand for the capitals. */
  lemma {:induction false} SmallLetters(v: nat)
    requires v < 26
    ensures IndexOf(Upper('a' + v as char)) == Some(v) && IndexOf(Upper('A' + v as char)) == Some(v)
  {
    IndexOfIsStrchr('A' + v as char, v);
    Std.LetterIsTabled(v);
    hide IndexOf;
  }

  /** An equals sign and a NUL end the key, whatever follows, and no other character does. */
  lemma {:induction false} NothingAfterTheEnd(a: string, c: char, b: string)
    ensures Stops(c) <==> c == '=' || c == '\0'
    ensures Stops(c) ==> Values(a + [c] + b) == Values(a) && Decoded(a + [c] + b) == Decoded(a)
  {
    hide IndexOf, Upper;
    if a == [] {
      assert a + [c] + b == [c] + b;
    } else {
      NothingAfterTheEnd(a[1..], c, b);
      assert (a + [c] + b)[1..] == a[1..] + [c] + b;
    }
  }

  // ---- The accumulator ----

  /** A C int: 32 bits, two's complement, wrapping. */
  function Int32(x: int): (r: int)
    ensures -0x8000_0000 <= r < 0x8000_0000
  {
    (x + 0x8000_0000) % 0x1_0000_0000 - 0x8000_0000
  }

  /** The C accumulator agrees with the one that never overflows, modulo 2^32. */
  ghost predicate Agree(buffer: int, acc: int) {
    (buffer - acc) % 0x1_0000_0000 == 0
  }

  /** Eight bits of the accumulator, `k` above the bottom: an arithmetic shift, then truncation. */
  function Window(buffer: int, k: nat): (r: nat)
    ensures r < 256
  {
    buffer / Pow2(k) % 256
  }

  /** Only the low 12 bits of the accumulator are ever read. */
  lemma {:induction false} OnlyLowBitsAreRead(x: int, y: int, k: nat)
    requires k <= 4 && Agree(x, y)
    ensures Window(x, k) == Window(y, k)
  {
    var d := (x - y) / 0x1_0000_0000 * 0x10_0000;
    assert x == y + 4096 * d;
    assert Pow2(0) == 1 && Pow2(1) == 2 && Pow2(2) == 4 && Pow2(3) == 8 && Pow2(4) == 16;
    var p, t := Pow2(k), Pow2(4 - k);
    assert p * t == 16;
    assert x == y + (256 * (t * d)) * p by {
      assert (256 * (t * d)) * p == 256 * ((p * t) * d);
    }
    Arith.DivShift(y, p, 256 * (t * d));
    Multiple256(y / p, t * d);
  }

  lemma {:induction false} Multiple256(q: int, e: int)
    ensures (q + 256 * e) % 256 == q % 256
  {
  }

  lemma {:induction false} WindowOfSum(x: nat, y: nat, z: nat, k: nat)
    requires y < 256 && z < Pow2(k)
    ensures Window((x * 256 + y) * Pow2(k) + z, k) == y
  {
    Arith.DivUnique((x * 256 + y) * Pow2(k) + z, Pow2(k), x * 256 + y, z);
    assert (x * 256 + y) % 256 == y;
  }

  /** In an accumulator that never overflowed, the window is the group that starts 8+k bits from the end. */
  lemma {:induction false} WindowIsGroup(a: seq<bool>, b: seq<bool>, c: seq<bool>)
    requires |b| == 8
    ensures Window(FromBits(a + b + c), |c|) == FromBits(b)
  {
    hide Window;
    FromBitsConcat(a + b, c);
    FromBitsConcat(a, b);
    ToFromBits(b);
    ToFromBits(c);
    assert Pow2(8) == 256;
    WindowOfSum(FromBits(a), FromBits(b), FromBits(c), |c|);
  }

  lemma {:induction false} AppendGroup(bits: seq<bool>, v: nat)
    requires v < 32
    ensures FromBits(bits + ToBits(v, 5)) == FromBits(bits) * 32 + v
  {
    assert Pow2(5) == 32;
    FromBitsConcat(bits, ToBits(v, 5));
    FromToBits(v, 5);
  }

  lemma {:induction false} PackShort(rest: seq<bool>)
    requires |rest| < 16
    ensures Pack(rest, 8) == if |rest| < 8 then [] else [FromBits(rest[..8])]
  {
    if |rest| >= 8 {
      assert Pack(rest[8..], 8) == [];
    }
  }

  /** Packing with room for one more group adds exactly the group after the first `q`. */
  lemma {:induction false} PackNext(a: seq<bool>, rest: seq<bool>, q: nat)
    requires |a| == 8 * q && |rest| < 16
    ensures Pack(a + rest, 8) == Pack(a, 8) + (if |rest| < 8 then [] else [FromBits(rest[..8])])
  {
    PackConcat(a, rest, 8, q);
    PackShort(rest);
  }

  /** Reading on can only add bytes. */
  lemma {:induction false} PackGrows(bits: seq<bool>, more: seq<bool>)
    ensures Pack(bits, 8) <= Pack(bits + more, 8)
  {
    var q := |bits| / 8;
    var a, rest := bits[..8 * q], bits[8 * q..];
    assert bits == a + rest && bits + more == a + (rest + more);
    PackConcat(a, rest, 8, q);
    PackConcat(a, rest + more, 8, q);
  }

  lemma {:induction false} PackFive(a: seq<bool>, rest: seq<bool>, five: seq<bool>, q: nat)
    requires |a| == 8 * q && |rest| < 8 && |five| == 5
    ensures |rest| + 5 >= 8 ==>
              Pack(a + (rest + five), 8)
              == Pack(a + rest, 8) + [Window(FromBits(a + (rest + five)), |rest| - 3)]
    ensures |rest| + 5 < 8 ==> Pack(a + (rest + five), 8) == Pack(a + rest, 8)
  {
    hide Window;
    PackNext(a, rest, q);
    PackNext(a, rest + five, q);
    if |rest| + 5 >= 8 {
      var b, c := (rest + five)[..8], (rest + five)[8..];
      assert a + (rest + five) == a + b + c;
      WindowIsGroup(a, b, c);
    }
  }

  /** What five more bits add to the packed bytes. */
  lemma {:induction false} PackFiveMore(bits: seq<bool>, five: seq<bool>, count: nat, bitsLeft: nat)
    requires |five| == 5 && bitsLeft < 8 && |bits| == 8 * count + bitsLeft
    ensures bitsLeft + 5 >= 8 ==>
              Pack(bits + five, 8) == Pack(bits, 8) + [Window(FromBits(bits + five), bitsLeft - 3)]
    ensures bitsLeft + 5 < 8 ==> Pack(bits + five, 8) == Pack(bits, 8)
  {
    hide Window, Pack, FromBits;
    var a, rest := bits[..8 * count], bits[8 * count..];
    assert bits == a + rest && bits + five == a + (rest + five);
    PackFive(a, rest, five, count);
  }

  /** One 5-bit value is shifted in; `bitsLeft` counts the bits not yet written out. */
  lemma {:induction false} ShiftIn(bits: seq<bool>, v: nat, count: nat, bitsLeft: nat, buffer: int)
    requires v < 32 && bitsLeft < 8 && |bits| == 8 * count + bitsLeft
    requires Agree(buffer, FromBits(bits))
    ensures var bits' := bits + ToBits(v, 5);
            && Agree(Int32(buffer * 32 + v), FromBits(bits'))
            && (bitsLeft + 5 >= 8 ==>
                  Pack(bits', 8) == Pack(bits, 8) + [Window(Int32(buffer * 32 + v), bitsLeft - 3)])
            && (bitsLeft + 5 < 8 ==> Pack(bits', 8) == Pack(bits, 8))
  {
    hide Window, Int32, Agree;
    AppendGroup(bits, v);
    ShiftKeepsAgreement(buffer, FromBits(bits), v);
    PackFiveMore(bits, ToBits(v, 5), count, bitsLeft);
    if bitsLeft + 5 >= 8 {
      OnlyLowBitsAreRead(Int32(buffer * 32 + v), FromBits(bits + ToBits(v, 5)), bitsLeft - 3);
    }
  }

  lemma {:induction false} ShiftKeepsAgreement(buffer: int, acc: int, v: nat)
    requires Agree(buffer, acc)
    ensures Agree(Int32(buffer * 32 + v), acc * 32 + v)
  {
    var d := (buffer - acc) / 0x1_0000_0000;
    assert buffer == acc + 0x1_0000_0000 * d;
    var y := buffer * 32 + v;
    var e := (Int32(y) - y) / 0x1_0000_0000;
    assert Int32(y) == y + 0x1_0000_0000 * e;
    assert Int32(y) - (acc * 32 + v) == 0x1_0000_0000 * (32 * d + e);
  }

  lemma {:induction false} AppendByte(values: seq<nat>, w: nat)
    ensures AsBytes(values + [w]) == AsBytes(values) + [AsByte(w)]
  {
    hide AsByte;
    var all := values + [w];
    assert forall i :: 0 <= i < |values| ==> AsBytes(all)[i] == AsByte(all[i]) == AsBytes(values)[i];
  }

  lemma {:induction false} BitsOfStep(s: string)
    requires s != [] && !Stops(s[0])
    ensures match IndexOf(Upper(s[0]))
            case None => BitsOf(s) == BitsOf(s[1..])
            case Some(v) => BitsOf(s) == ToBits(v, 5) + BitsOf(s[1..])
  {
    match IndexOf(Upper(s[0]))
    case None =>
    case Some(v) => SpreadCons(v, Values(s[1..]), 5);
  }

  /** Output stops early only when the buffer is full, and then it is a prefix. */
  lemma {:induction false} StopEarly(bits: seq<bool>, rest: seq<bool>, full: nat)
    requires |Pack(bits, 8)| >= full
    ensures |Pack(bits + rest, 8)| >= full
    ensures AsBytes(Pack(bits, 8))[..full] == AsBytes(Pack(bits + rest, 8))[..full]
  {
    PackGrows(bits, rest);
  }

  /** One byte written after the `count` already there. */
  method PutByte(out: array<Byte>, count: nat, w: nat, ghost packed: seq<nat>)
    requires count < out.Length && out[..count] == AsBytes(packed)
    modifies out
    ensures out[..count + 1] == AsBytes(packed + [w])
    ensures out[count + 1..] == old(out[..])[count + 1..]
  {
    hide AsBytes, AsByte;
    AppendByte(packed, w);
    out[count] := AsByte(w);
    assert out[..count + 1] == old(out[..count]) + [AsByte(w)];
  }

  method Decode(encoded: string, out: array<Byte>, outMax: nat) returns (count: nat)
    requires outMax <= out.Length
    modifies out
    ensures count == Min(|Decoded(encoded)|, outMax)
    ensures out[..count] == Decoded(encoded)[..count]
    ensures out[count..] == old(out[..])[count..]
  {
    hide Window, IndexOf, Upper, AsByte, AsBytes, BitsOf, Values;
    var buffer, bitsLeft := 0, 0;
    assert Agree(buffer, FromBits([])) && Pack([], 8) == [];
    hide Agree, Int32, FromBits, ToBits, Pack, Pow2;
    count := 0;
    ghost var bits: seq<bool>, packed: seq<nat> := [], [];
    var i := 0;
    while i < |encoded| && !Stops(encoded[i])
      invariant i <= |encoded| && BitsOf(encoded) == bits + BitsOf(encoded[i..])
      invariant bitsLeft < 8 && |bits| == 8 * count + bitsLeft && count <= outMax
      invariant Agree(buffer, FromBits(bits))
      invariant packed == Pack(bits, 8) && |packed| == count
      invariant out[..count] == AsBytes(packed)
      invariant out[count..] == old(out[..])[count..]
    {
      BitsOfStep(encoded[i..]);
      assert encoded[i..][1..] == encoded[i + 1..];
      var p := IndexOf(Upper(encoded[i]));
      if p.Some? {
        ShiftIn(bits, p.value, count, bitsLeft, buffer);
        ghost var more := BitsOf(encoded[i + 1..]);
        assert bits + (ToBits(p.value, 5) + more) == (bits + ToBits(p.value, 5)) + more;
        bits := bits + ToBits(p.value, 5);
        buffer := Int32(buffer * 32 + p.value);
        bitsLeft := bitsLeft + 5;
        if bitsLeft >= 8 {
          var w := Window(buffer, bitsLeft - 8);
          if count >= outMax {
            AppendByte(packed, w);
            StopEarly(bits, more, count);
            return;
          }
          PutByte(out, count, w, packed);
          packed := packed + [w];
          count := count + 1;
          bitsLeft := bitsLeft - 8;
        }
      }
      i := i + 1;
    }
    NothingLeft(encoded[i..]);
    assert bits + [] == bits;
  }

  lemma {:induction false} NothingLeft(s: string)
    requires s == [] || Stops(s[0])
    ensures BitsOf(s) == []
  {
  }
}
