/** RFC 2104 section 2, over SHA-1: B = 64, L = 20. */
module HmacStandard {
  import opened Bytes
  import Sha1Standard

  function XorEach(s: seq<Byte>, pad: Byte): (r: seq<Byte>)
    ensures |r| == |s|
  {
    seq(|s|, i requires 0 <= i < |s| => s[i] ^ pad)
  }

  /** The key, hashed first when it is longer than a block, then zero-filled to a block. */
  function BlockKey(key: seq<Byte>): (r: seq<Byte>)
    ensures |r| == 64
  {
    var k := if |key| > 64 then Sha1Standard.Sha1(key) else key;
    k + Zeros(64 - |k|)
  }

  function Hmac(key: seq<Byte>, text: seq<Byte>): (r: seq<Byte>)
    ensures |r| == 20
  {
    var k := BlockKey(key);
    Sha1Standard.Sha1(XorEach(k, 0x5C) + Sha1Standard.Sha1(XorEach(k, 0x36) + text))
  }
}

module Hmac {
  import opened Bytes
  import Sha1Standard
  import Sha1
  import Std = HmacStandard

  /** `memory` is whether the buffer for the inner message could be obtained. */
  method HmacSha1(key: seq<Byte>, msg: seq<Byte>, memory: bool) returns (out: seq<Byte>)
    requires |key| < 0x2000_0000_0000_0000 && 64 + |msg| < 0x2000_0000_0000_0000
    ensures out == if memory then Std.Hmac(key, msg) else Zeros(20)
  {
    hide Sha1Standard.Sha1;
    var kPad := new Byte[64];
    if |key| > 64 {
      var digest := Sha1.Sha1(key);
      forall i | 0 <= i < 20 { kPad[i] := digest[i]; }
      forall i | 20 <= i < 64 { kPad[i] := 0; }
    } else {
      forall i | 0 <= i < |key| { kPad[i] := key[i]; }
      forall i | |key| <= i < 64 { kPad[i] := 0; }
    }
    ghost var k := Std.BlockKey(key);
    assert kPad[..] == k;
    if !memory {
      return Zeros(20);
    }

    var inner := new Byte[64 + |msg|];
    forall i | 0 <= i < 64 { inner[i] := kPad[i] ^ 0x36; }
    forall i | 0 <= i < |msg| { inner[64 + i] := msg[i]; }
    assert inner[..] == Std.XorEach(k, 0x36) + msg;
    var innerHash := Sha1.Sha1(inner[..]);

    var outer := new Byte[84];
    forall i | 0 <= i < 64 { outer[i] := kPad[i] ^ 0x5C; }
    forall i | 0 <= i < 20 { outer[64 + i] := innerHash[i]; }
    assert outer[..] == Std.XorEach(k, 0x5C) + innerHash;
    out := Sha1.Sha1(outer[..]);
  }
}
