/** FIPS 180-4: SHA-1 as the standard states it. */
module Sha1Standard {
  import opened Bytes

  type Word = bv32

  /** The five chaining (or working) variables a, b, c, d, e. */
  datatype Chain = Chain(a: Word, b: Word, c: Word, d: Word, e: Word)

  // Section 5.3.1.
  const INITIAL: Chain := Chain(0x67452301, 0xEFCDAB89, 0x98BADCFE, 0x10325476, 0xC3D2E1F0)

  // Section 4.1.1.
  function Ch(x: Word, y: Word, z: Word): Word {
    (x & y) ^ (!x & z)
  }

  function Parity(x: Word, y: Word, z: Word): Word {
    x ^ y ^ z
  }

  function Maj(x: Word, y: Word, z: Word): Word {
    (x & y) ^ (x & z) ^ (y & z)
  }

  function F(t: nat, x: Word, y: Word, z: Word): Word {
    if t < 20 then Ch(x, y, z)
    else if t < 40 then Parity(x, y, z)
    else if t < 60 then Maj(x, y, z)
    else Parity(x, y, z)
  }

  // Section 4.2.1.
  function K(t: nat): Word {
    if t < 20 then 0x5A827999
    else if t < 40 then 0x6ED9EBA1
    else if t < 60 then 0x8F1BBCDC
    else 0xCA62C1D6
  }

  /** The fewest zero bytes that bring a message of `n` bytes plus the 0x80 byte to 56 modulo 64. */
  function ZeroCount(n: nat): (k: nat)
    ensures k < 64 && (n + k + 9) % 64 == 0
  {
    if n % 64 <= 55 then 55 - n % 64 else 119 - n % 64
  }

  /** Section 5.1.1: a one bit, the fewest zero bits that reach 448 modulo 512, the 64-bit length. */
  function Pad(message: seq<Byte>): (r: seq<Byte>)
    ensures |r| % 64 == 0 && |r| == |message| + 9 + ZeroCount(|message|)
  {
    message + [0x80] + Zeros(ZeroCount(|message|)) + BigEndian(8 * |message|, 8)
  }

  /** The message, one bit, zero bits, and the length in bits in the last 64. */
  lemma {:induction false} PadShape(message: seq<Byte>)
    ensures var r, n, z := Pad(message), |message|, ZeroCount(|message|);
            && z < 64 && |r| == n + 1 + z + 8
            && r[..n] == message && r[n] == 0x80
            && (forall i :: n < i <= n + z ==> r[i] == 0)
            && r[n + 1 + z..] == BigEndian(8 * n, 8)
  {
    hide BigEndian;
    var n, z := |message|, ZeroCount(|message|);
    var zeros, length := Zeros(z), BigEndian(8 * n, 8);
    var r := Pad(message);
    assert r == message + [0x80] + zeros + length;
    forall i | n < i <= n + z
      ensures r[i] == 0
    {
      assert r[i] == zeros[i - n - 1];
    }
  }

  function WordAt(block: seq<Byte>, i: nat): Word
    requires 4 * i + 4 <= |block|
  {
    (block[4 * i] as Word << 24) | (block[4 * i + 1] as Word << 16)
    | (block[4 * i + 2] as Word << 8) | block[4 * i + 3] as Word
  }

  // Section 6.1.2, step 1.
  function Schedule(block: seq<Byte>, t: nat): Word
    requires |block| == 64
  {
    if t < 16 then WordAt(block, t)
    else Blend(Schedule(block, t - 3), Schedule(block, t - 8),
               Schedule(block, t - 14), Schedule(block, t - 16))
  }

  function Blend(x: Word, y: Word, z: Word, u: Word): Word {
    (x ^ y ^ z ^ u).RotateLeft(1)
  }

  // Section 3.2: addition of words is modulo 2^32.
  function Add(x: Word, y: Word): Word {
    x + y
  }

  function Sum(r: Word, f: Word, e: Word, k: Word, w: Word): Word {
    Add(Add(Add(Add(r, f), e), k), w)
  }

  function Round(v: Chain, t: nat, w: Word): Chain {
    Chain(Sum(v.a.RotateLeft(5), F(t, v.b, v.c, v.d), v.e, K(t), w), v.a, v.b.RotateLeft(30), v.c, v.d)
  }

  // Section 6.1.2, step 3: the first `t` rounds.
  function Rounds(v: Chain, block: seq<Byte>, t: nat): Chain
    requires |block| == 64
  {
    if t == 0 then v
    else Round(Rounds(v, block, t - 1), t - 1, Schedule(block, t - 1))
  }

  // Section 6.1.2, step 4.
  function Compress(h: Chain, block: seq<Byte>): Chain
    requires |block| == 64
  {
    var v := Rounds(h, block, 80);
    Chain(Add(h.a, v.a), Add(h.b, v.b), Add(h.c, v.c), Add(h.d, v.d), Add(h.e, v.e))
  }

  function HashBlocks(h: Chain, padded: seq<Byte>): Chain
    requires |padded| % 64 == 0
    decreases |padded|
  {
    if |padded| == 0 then h
    else HashBlocks(Compress(h, padded[..64]), padded[64..])
  }

  function WordBytes(w: Word): (r: seq<Byte>)
    ensures |r| == 4
  {
    [(w >> 24) as Byte, ((w >> 16) & 0xFF) as Byte, ((w >> 8) & 0xFF) as Byte, (w & 0xFF) as Byte]
  }

  function Digest(h: Chain): (r: seq<Byte>)
    ensures |r| == 20
  {
    WordBytes(h.a) + WordBytes(h.b) + WordBytes(h.c) + WordBytes(h.d) + WordBytes(h.e)
  }

  function Sha1(message: seq<Byte>): (r: seq<Byte>)
    ensures |r| == 20
  {
    Digest(HashBlocks(INITIAL, Pad(message)))
  }
}

/** The SHA-1 of modules/mod_otp.c, proved to compute the standard's function. */
module Sha1 {
  import opened Bytes
  import Std = Sha1Standard

  type Word = bv32

  function Rotl(x: Word, n: bv6): Word
    requires 0 < n < 32
  {
    (x << n) | (x >> (32 - n))
  }

  /** The code's shift pair is a rotation. */
  lemma {:induction false} RotlIsRotation(x: Word)
    ensures Rotl(x, 1) == x.RotateLeft(1)
    ensures Rotl(x, 5) == x.RotateLeft(5)
    ensures Rotl(x, 30) == x.RotateLeft(30)
  {
  }

  // The code's own Ch and Maj, written with inclusive or.
  function ChOr(x: Word, y: Word, z: Word): Word {
    (x & y) | (!x & z)
  }

  function MajOr(x: Word, y: Word, z: Word): Word {
    (x & y) | (x & z) | (y & z)
  }

  lemma {:induction false} DisjointOrIsXor(x: Word, y: Word, z: Word)
    ensures (x & y) | (!x & z) == (x & y) ^ (!x & z)
  {
  }

  lemma {:induction false} MajorityOrIsXor(x: Word, y: Word, z: Word)
    ensures (x & y) | (x & z) | (y & z) == (x & y) ^ (x & z) ^ (y & z)
  {
  }

  lemma {:induction false} ChOrIsCh(x: Word, y: Word, z: Word)
    ensures ChOr(x, y, z) == Std.Ch(x, y, z)
  {
    DisjointOrIsXor(x, y, z);
  }

  lemma {:induction false} MajOrIsMaj(x: Word, y: Word, z: Word)
    ensures MajOr(x, y, z) == Std.Maj(x, y, z)
  {
    MajorityOrIsXor(x, y, z);
  }

  lemma {:induction false} BlendForm(x: Word, y: Word, z: Word, u: Word)
    ensures Rotl(x ^ y ^ z ^ u, 1) == Std.Blend(x, y, z, u)
  {
    RotlIsRotation(x ^ y ^ z ^ u);
  }

  function View(state: seq<Word>): Std.Chain
    requires |state| == 5
  {
    Std.Chain(state[0], state[1], state[2], state[3], state[4])
  }

  method Load(block: seq<Byte>, i: nat) returns (w: Word)
    requires i < 16 && |block| == 64
    ensures w == Std.WordAt(block, i)
  {
    w := (block[i * 4] as Word << 24) | (block[i * 4 + 1] as Word << 16)
         | (block[i * 4 + 2] as Word << 8) | block[i * 4 + 3] as Word;
  }

  method Extend(x: Word, y: Word, z: Word, u: Word) returns (w: Word)
    ensures w == Std.Blend(x, y, z, u)
  {
    BlendForm(x, y, z, u);
    w := Rotl(x ^ y ^ z ^ u, 1);
  }

  /** The message schedule w[0..80]. */
  method Expand(block: seq<Byte>) returns (w: array<Word>)
    requires |block| == 64
    ensures fresh(w) && w.Length == 80
    ensures forall k :: 0 <= k < 80 ==> w[k] == Std.Schedule(block, k)
  {
    hide Std.Blend, Std.WordAt;
    w := new Word[80];
    var i := 0;
    while i < 16
      invariant 0 <= i <= 16
      invariant forall k :: 0 <= k < i ==> w[k] == Std.Schedule(block, k)
    {
      w[i] := Load(block, i);
      i := i + 1;
    }
    while i < 80
      invariant 16 <= i <= 80
      invariant forall k :: 0 <= k < i ==> w[k] == Std.Schedule(block, k)
    {
      w[i] := Extend(w[i - 3], w[i - 8], w[i - 14], w[i - 16]);
      i := i + 1;
    }
  }

  /** The round function and constant of round `i`. */
  method Select(i: nat, b: Word, c: Word, d: Word) returns (f: Word, k: Word)
    requires i < 80
    ensures f == Std.F(i, b, c, d) && k == Std.K(i)
  {
    hide ChOr, MajOr, Std.Ch, Std.Maj, Std.Parity;
    ChOrIsCh(b, c, d);
    MajOrIsMaj(b, c, d);
    if i < 20 {
      f, k := ChOr(b, c, d), 0x5A827999;
    } else if i < 40 {
      f, k := Std.Parity(b, c, d), 0x6ED9EBA1;
    } else if i < 60 {
      f, k := MajOr(b, c, d), 0x8F1BBCDC;
    } else {
      f, k := Std.Parity(b, c, d), 0xCA62C1D6;
    }
  }

  lemma {:induction false} RoundsStep(v: Std.Chain, block: seq<Byte>, i: nat)
    requires |block| == 64
    ensures Std.Rounds(v, block, 0) == v
    ensures Std.Rounds(v, block, i + 1) == Std.Round(Std.Rounds(v, block, i), i, Std.Schedule(block, i))
  {
  }

  /** The eighty rounds over the five working variables. */
  method Churn(start: Std.Chain, ghost block: seq<Byte>, w: array<Word>) returns (v: Std.Chain)
    requires |block| == 64 && w.Length == 80
    requires forall k :: 0 <= k < 80 ==> w[k] == Std.Schedule(block, k)
    ensures v == Std.Rounds(start, block, 80)
  {
    hide Std.Sum, Std.F, Std.K, Rotl, Std.Schedule;
    var a, b, c, d, e := start.a, start.b, start.c, start.d, start.e;
    RoundsStep(start, block, 0);
    var i := 0;
    while i < 80
      invariant 0 <= i <= 80
      invariant Std.Chain(a, b, c, d, e) == Std.Rounds(start, block, i)
    {
      var f, k := Select(i, b, c, d);
      RotlIsRotation(a);
      RotlIsRotation(b);
      var t := Std.Sum(Rotl(a, 5), f, e, k, w[i]);
      RoundsStep(start, block, i);
      e := d;
      d := c;
      c := Rotl(b, 30);
      b := a;
      a := t;
      i := i + 1;
    }
    v := Std.Chain(a, b, c, d, e);
  }

  method Transform(state: array<Word>, block: seq<Byte>)
    requires state.Length == 5 && |block| == 64
    modifies state
    ensures View(state[..]) == Std.Compress(old(View(state[..])), block)
  {
    hide Std.Add, Std.Rounds;
    var w := Expand(block);
    var v := Churn(View(state[..]), block, w);
    state[0] := Std.Add(state[0], v.a);
    state[1] := Std.Add(state[1], v.b);
    state[2] := Std.Add(state[2], v.c);
    state[3] := Std.Add(state[3], v.d);
    state[4] := Std.Add(state[4], v.e);
  }

  lemma {:induction false} HashBlocksStep(h: Std.Chain, padded: seq<Byte>, i: nat)
    requires |padded| % 64 == 0 && i % 64 == 0 && i + 64 <= |padded|
    ensures Std.HashBlocks(h, padded[i..])
         == Std.HashBlocks(Std.Compress(h, padded[i..i + 64]), padded[i + 64..])
  {
    assert padded[i..][..64] == padded[i..i + 64];
    assert padded[i..][64..] == padded[i + 64..];
  }

  /** What the code still has to hash once `i` bytes, a whole number of blocks, are done. */
  function Rest(data: seq<Byte>, i: nat): seq<Byte>
    requires i <= |data|
  {
    data[i..] + [0x80] + Zeros(Std.ZeroCount(|data|)) + BigEndian(8 * |data|, 8)
  }

  lemma {:induction false} RestOfPadding(data: seq<Byte>, i: nat)
    requires i <= |data|
    ensures Std.Pad(data)[i..] == Rest(data, i)
    ensures i + 64 <= |data| ==> Std.Pad(data)[i..i + 64] == data[i..i + 64]
  {
    assert Std.Pad(data) == data[..i] + Rest(data, i);
  }

  /** The remainder takes one block when it leaves room for the length, two when it does not. */
  lemma {:induction false} RestBlocks(data: seq<Byte>, i: nat)
    requires i % 64 == 0 && i <= |data| < i + 64
    ensures var rem := data[i..] + [0x80];
            if |rem| <= 56 then Rest(data, i) == rem + Zeros(56 - |rem|) + BigEndian(8 * |data|, 8)
            else Rest(data, i) == (rem + Zeros(64 - |rem|)) + (Zeros(56) + BigEndian(8 * |data|, 8))
  {
    hide BigEndian;
    assert |data| % 64 == |data| - i;
    var rem := data[i..] + [0x80];
    if |rem| > 56 {
      assert Zeros(120 - |rem|) == Zeros(64 - |rem|) + Zeros(56);
    }
  }

  /** Writes the 64-bit bit count into the last eight bytes. */
  method PutLength(block: array<Byte>, len: nat)
    requires block.Length == 64 && len < 0x2000_0000_0000_0000
    modifies block
    ensures block[..] == old(block[..56]) + BigEndian(8 * len, 8)
  {
    hide BigEndian, Pow256;
    var bits := len * 8 % 0x1_0000_0000_0000_0000;
    var j := 0;
    while j < 8
      invariant 0 <= j <= 8
      invariant block[..56] == old(block[..56])
      invariant forall k :: 0 <= k < j ==> block[56 + k] == BigEndian(8 * len, 8)[k]
    {
      BigEndianAt(8 * len, 8, j);
      block[56 + j] := (bits / Pow256(7 - j) % 256) as Byte;
      j := j + 1;
    }
  }

  /** The tail of the hash: pads data[i..] into one or two blocks and absorbs them. */
  method Finish(state: array<Word>, data: seq<Byte>, i: nat)
    requires state.Length == 5 && |data| < 0x2000_0000_0000_0000
    requires i % 64 == 0 && i <= |data| < i + 64
    requires |Rest(data, i)| % 64 == 0
    modifies state
    ensures View(state[..]) == Std.HashBlocks(old(View(state[..])), Rest(data, i))
  {
    hide Std.Compress;
    RestBlocks(data, i);
    var block := new Byte[64];
    var rem := |data| - i;
    forall j | 0 <= j < rem { block[j] := data[i + j]; }
    block[rem] := 0x80;
    rem := rem + 1;
    ghost var tail := data[i..] + [0x80];
    assert block[..rem] == tail;
    ghost var h, length := View(state[..]), BigEndian(8 * |data|, 8);
    ghost var last := tail + Zeros(if rem > 56 then 0 else 56 - rem) + length;
    if rem > 56 {
      forall j | rem <= j < 64 { block[j] := 0; }
      assert block[..] == tail + Zeros(64 - rem);
      last := Zeros(56) + length;
      HashTwo(h, block[..], last);
      Transform(state, block[..]);
      rem := 0;
    }
    assert Std.HashBlocks(View(state[..]), last) == Std.HashBlocks(h, Rest(data, i));
    forall j | rem <= j < 56 { block[j] := 0; }
    assert block[..56] == last[..56];
    PutLength(block, |data|);
    assert block[..] == last;
    HashOne(View(state[..]), last);
    Transform(state, block[..]);
  }

  lemma {:induction false} HashOne(h: Std.Chain, block: seq<Byte>)
    requires |block| == 64
    ensures Std.HashBlocks(h, block) == Std.Compress(h, block)
  {
    assert block[..64] == block && block[64..] == [];
  }

  lemma {:induction false} HashTwo(h: Std.Chain, first: seq<Byte>, second: seq<Byte>)
    requires |first| == |second| == 64
    ensures Std.HashBlocks(h, first + second) == Std.HashBlocks(Std.Compress(h, first), second)
  {
    assert (first + second)[..64] == first && (first + second)[64..] == second;
  }

  function WordAt(h: Std.Chain, j: nat): Word
    requires j < 5
  {
    if j == 0 then h.a else if j == 1 then h.b else if j == 2 then h.c else if j == 3 then h.d else h.e
  }

  lemma {:induction false} DigestAt(h: Std.Chain, j: nat)
    requires j < 5
    ensures Std.Digest(h)[4 * j..4 * j + 4] == Std.WordBytes(WordAt(h, j))
  {
    hide Std.WordBytes;
    var a, b, c, d, e := Std.WordBytes(h.a), Std.WordBytes(h.b), Std.WordBytes(h.c),
                         Std.WordBytes(h.d), Std.WordBytes(h.e);
    assert Std.Digest(h) == a + b + c + d + e;
  }

  method Emit(state: array<Word>) returns (out: seq<Byte>)
    requires state.Length == 5
    ensures out == Std.Digest(View(state[..]))
  {
    hide Std.Digest;
    out := [];
    var j := 0;
    while j < 5
      invariant 0 <= j <= 5
      invariant out == Std.Digest(View(state[..]))[..4 * j]
    {
      DigestAt(View(state[..]), j);
      assert state[j] == WordAt(View(state[..]), j);
      var w := EmitWord(state[j]);
      out := out + w;
      j := j + 1;
    }
  }

  method EmitWord(w: Word) returns (r: seq<Byte>)
    ensures r == Std.WordBytes(w)
  {
    r := [(w >> 24) as Byte, ((w >> 16) & 0xFF) as Byte, ((w >> 8) & 0xFF) as Byte, (w & 0xFF) as Byte];
  }

  method Sha1(data: seq<Byte>) returns (out: seq<Byte>)
    requires |data| < 0x2000_0000_0000_0000
    ensures out == Std.Sha1(data)
  {
    hide Std.Pad, Std.Compress, Std.Digest, Rest;
    var state := new Word[5] [0x67452301, 0xEFCDAB89, 0x98BADCFE, 0x10325476, 0xC3D2E1F0];
    ghost var padded := Std.Pad(data);
    assert padded[0..] == padded;
    var i := 0;
    while i + 64 <= |data|
      invariant i % 64 == 0 && i <= |data|
      invariant Std.HashBlocks(View(state[..]), padded[i..]) == Std.HashBlocks(Std.INITIAL, padded)
    {
      RestOfPadding(data, i);
      HashBlocksStep(View(state[..]), padded, i);
      Transform(state, data[i..i + 64]);
      i := i + 64;
    }
    RestOfPadding(data, i);
    Finish(state, data, i);
    out := Emit(state);
  }
}
