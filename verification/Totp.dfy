/** RFC 4226 section 5.3 and RFC 6238 section 4.2. */
module TotpStandard {
  import opened Bytes
  import Sha1Standard
  import HmacStandard

  function Pow10(k: nat): (r: nat)
    ensures r > 0
  {
    if k == 0 then 1 else 10 * Pow10(k - 1)
  }

  /** Dynamic truncation: the 31 low bits of the word at the offset that the last nibble gives. */
  function Truncate(mac: seq<Byte>): bv32
    requires |mac| == 20
  {
    var offset := (mac[19] & 0x0F) as nat;
    OffsetIsSmall(mac[19]);
    Sha1Standard.WordAt(mac[offset..offset + 4], 0) & 0x7FFF_FFFF
  }

  lemma {:induction false} OffsetIsSmall(b: Byte)
    ensures (b & 0x0F) as nat <= 15
  {
    assert b & 0x0F <= 15;
  }

  /** The HMAC-based one-time password of a counter. */
  function Hotp(secret: seq<Byte>, counter: nat, digits: nat): (r: nat)
    ensures r < Pow10(digits)
  {
    Truncate(HmacStandard.Hmac(secret, BigEndian(counter, 8))) as nat % Pow10(digits)
  }
}

/** TOTP as modules/mod_otp.c generates and verifies it. */
module Totp {
  import Arith
  import opened Bytes
  import opened Base32
  import opened Common
  import Sha1Standard
  import HmacStandard
  import Hmac
  import Std = TotpStandard

  const TWO_64: nat := 0x1_0000_0000_0000_0000

  /** Clearing the top bit of the first byte is clearing the top bit of the word. */
  lemma {:induction false} MaskFirstByte(b0: Byte, b1: Byte, b2: Byte, b3: Byte)
    ensures ((b0 & 0x7F) as bv32 << 24) | (b1 as bv32 << 16) | (b2 as bv32 << 8) | b3 as bv32
         == ((b0 as bv32 << 24) | (b1 as bv32 << 16) | (b2 as bv32 << 8) | b3 as bv32) & 0x7FFF_FFFF
  {
  }

  function MaskedWord(p: seq<Byte>): bv32
    requires |p| == 4
  {
    ((p[0] & 0x7F) as bv32 << 24) | (p[1] as bv32 << 16) | (p[2] as bv32 << 8) | p[3] as bv32
  }

  lemma {:induction false} MaskedWordIsTruncated(p: seq<Byte>)
    requires |p| == 4
    ensures MaskedWord(p) == Sha1Standard.WordAt(p, 0) & 0x7FFF_FFFF
  {
    MaskFirstByte(p[0], p[1], p[2], p[3]);
  }

  method PickCode(mac: seq<Byte>) returns (code: bv32)
    requires |mac| == 20
    ensures code == Std.Truncate(mac)
  {
    hide MaskedWord, Sha1Standard.WordAt;
    var offset := (mac[19] & 0x0F) as nat;
    Std.OffsetIsSmall(mac[19]);
    MaskedWordIsTruncated(mac[offset..offset + 4]);
    code := MaskedWord(mac[offset..offset + 4]);
  }

  /** The counter as eight bytes, filled in from the last one back. */
  method CounterBytes(counter0: nat) returns (msg: seq<Byte>)
    requires counter0 < TWO_64
    ensures msg == BigEndian(counter0, 8)
  {
    var a := new Byte[8];
    var counter := counter0;
    var i := 7;
    while i >= 0
      invariant -1 <= i <= 7
      invariant BigEndian(counter0, 8) == BigEndian(counter, (i + 1) as nat) + a[i + 1..]
    {
      a[i] := (counter % 256) as Byte;
      counter := counter / 256;
      i := i - 1;
    }
    assert a[0..] == a[..];
    msg := a[..];
  }

  method Generate(secret: seq<Byte>, timeVal: nat, step: nat, digits: nat) returns (code: nat)
    requires |secret| < 0x2000_0000_0000_0000 && timeVal < TWO_64
    requires step > 0 && digits <= 9
    ensures code == Std.Hotp(secret, timeVal / step, digits)
  {
    hide Std.Truncate, HmacStandard.Hmac, BigEndian;
    Arith.DivAtMost(timeVal, step);
    var msg := CounterBytes(timeVal / step);
    var mac := Hmac.HmacSha1(secret, msg, true);
    var word := PickCode(mac);
    var mod := PowerOfTen(digits);
    code := word as nat % mod;
  }

  method PowerOfTen(digits: nat) returns (mod: nat)
    ensures mod == Std.Pow10(digits)
  {
    mod := 1;
    var i := 0;
    while i < digits
      invariant 0 <= i <= digits
      invariant mod == Std.Pow10(i)
    {
      mod := mod * 10;
      i := i + 1;
    }
  }

  /** `now` moved by `i` time steps, in unsigned 64-bit arithmetic. */
  function ShiftedTime(now: nat, i: int): (r: nat)
    ensures r < TWO_64
  {
    (now + i * 30) % TWO_64
  }

  /** The first match among steps i, i+1, .., skew, as the counter it stands for. */
  function FirstMatch(secret: seq<Byte>, code: nat, now: nat, i: int, skew: int): Option<nat>
    decreases skew - i
  {
    if i > skew then None
    else if code == Std.Hotp(secret, ShiftedTime(now, i) / 30, 6) then Some(ShiftedTime(now, i) / 30)
    else FirstMatch(secret, code, now, i + 1, skew)
  }

  /** The value of a digit string. */
  function Decimal(s: string): nat
    requires forall i :: 0 <= i < |s| ==> '0' <= s[i] <= '9'
  {
    if s == [] then 0 else 10 * Decimal(s[..|s| - 1]) + (s[|s| - 1] - '0') as nat
  }

  /** `n` written with `w` decimal digits, the highest first. */
  function Digits(n: nat, w: nat): (s: string)
    ensures |s| == w && forall i :: 0 <= i < |s| ==> '0' <= s[i] <= '9'
  {
    if w == 0 then "" else Digits(n / 10, w - 1) + ['0' + (n % 10) as char]
  }

  /** Reading what is written gives the number back. */
  lemma {:induction false} DecimalReadsDigits(n: nat, w: nat)
    requires n < Std.Pow10(w)
    ensures Decimal(Digits(n, w)) == n
  {
    if w > 0 {
      DecimalReadsDigits(n / 10, w - 1);
      var s := Digits(n, w);
      assert s[..w - 1] == Digits(n / 10, w - 1) && s[w - 1] == '0' + (n % 10) as char;
    }
  }

  /** And a string of digits is the one writing of its value. */
  lemma {:induction false} DigitsOfDecimal(s: string)
    requires forall i :: 0 <= i < |s| ==> '0' <= s[i] <= '9'
    ensures Decimal(s) < Std.Pow10(|s|) && Digits(Decimal(s), |s|) == s
  {
    if s != [] {
      var init, d := s[..|s| - 1], (s[|s| - 1] - '0') as nat;
      DigitsOfDecimal(init);
      assert Decimal(s) == 10 * Decimal(init) + d && d < 10;
      assert Decimal(s) / 10 == Decimal(init) && Decimal(s) % 10 == d;
      assert '0' + d as char == s[|s| - 1];
    }
  }

  /** What verifying `code` against a Base32 key gives at time `now`. */
  function Verdict(key: string, code: string, now: nat, skew: int): Option<nat>
    requires forall i :: 0 <= i < |code| ==> '0' <= code[i] <= '9'
  {
    var all := Decoded(key);
    var secret := all[..Min(|all|, 64)];
    if secret == [] then None else FirstMatch(secret, Decimal(code), now, -skew, skew)
  }

  method VerifyAt(key: string, codeStr: string, now: nat, skew: int) returns (matched: Option<nat>)
    requires forall i :: 0 <= i < |codeStr| ==> '0' <= codeStr[i] <= '9'
    ensures matched == Verdict(key, codeStr, now, skew)
  {
    hide Std.Hotp, Decoded;
    var buf := new Byte[64];
    var len := Base32.Decode(key, buf, 64);
    if len == 0 {
      return None;
    }
    var secret := buf[..len];
    var code := Decimal(codeStr);
    var i := -skew;
    while i <= skew
      invariant -skew <= i
      invariant FirstMatch(secret, code, now, -skew, skew) == FirstMatch(secret, code, now, i, skew)
    {
      var t := ShiftedTime(now, i);
      var expected := Generate(secret, t, 30, 6);
      if code == expected {
        return Some(t / 30);
      }
      i := i + 1;
    }
    return None;
  }

  // ---- What verification promises ----

  predicate InRange(now: nat, skew: nat) {
    30 * skew <= now && now + 30 * skew < TWO_64
  }

  lemma {:induction false} ShiftedCounter(now: nat, i: int, skew: nat)
    requires InRange(now, skew) && 0 - skew <= i <= skew
    ensures ShiftedTime(now, i) / 30 == now / 30 + i
  {
    assert 0 <= now + i * 30 < TWO_64;
    assert (now + i * 30) / 30 == now / 30 + i;
  }

  /** The counter found is the least in the tail of the window that matches; None means that none does. */
  lemma {:induction false} FirstMatchIsLeast(secret: seq<Byte>, code: nat, now: nat, i: int, skew: nat)
    requires InRange(now, skew) && 0 - skew <= i <= skew + 1
    ensures match FirstMatch(secret, code, now, i, skew)
            case Some(c) =>
              && now / 30 + i <= c <= now / 30 + skew && code == Std.Hotp(secret, c, 6)
              && forall d: nat :: now / 30 + i <= d < c ==> code != Std.Hotp(secret, d, 6)
            case None =>
              forall d: nat :: now / 30 + i <= d <= now / 30 + skew ==> code != Std.Hotp(secret, d, 6)
    decreases skew + 1 - i
  {
    hide Std.Hotp;
    if i <= skew {
      ShiftedCounter(now, i, skew);
      FirstMatchIsLeast(secret, code, now, i + 1, skew);
    }
  }

  /** A code verifies exactly when some counter within `skew` steps of now produces it, and the least one is reported. */
  lemma {:induction false} VerdictIsLeastMatch(key: string, code: string, now: nat, skew: nat)
    requires forall i :: 0 <= i < |code| ==> '0' <= code[i] <= '9'
    requires InRange(now, skew)
    ensures var all := Decoded(key);
            var secret := all[..Min(|all|, 64)];
            match Verdict(key, code, now, skew)
            case Some(c) =>
              && now / 30 - skew <= c <= now / 30 + skew && secret != []
              && Decimal(code) == Std.Hotp(secret, c, 6)
              && forall d: nat :: now / 30 - skew <= d < c ==> Decimal(code) != Std.Hotp(secret, d, 6)
            case None =>
              secret != [] ==>
                forall d: nat :: now / 30 - skew <= d <= now / 30 + skew ==> Decimal(code) != Std.Hotp(secret, d, 6)
  {
    hide Std.Hotp, Decoded, Decimal;
    var all := Decoded(key);
    FirstMatchIsLeast(all[..Min(|all|, 64)], Decimal(code), now, 0 - skew, skew);
  }

  /**
   * In terms of what is typed: six digits verify exactly when they are the RFC 4226 code, written out, of some
   * counter within `skew` steps of now, and the least such counter is reported.
   */
  lemma {:induction false} VerifiesWhatIsWritten(key: string, code: string, now: nat, skew: nat)
    requires |code| == 6 && forall i :: 0 <= i < |code| ==> '0' <= code[i] <= '9'
    requires InRange(now, skew)
    ensures var all := Decoded(key);
            var secret := all[..Min(|all|, 64)];
            match Verdict(key, code, now, skew)
            case Some(c) =>
              && now / 30 - skew <= c <= now / 30 + skew && secret != []
              && code == Digits(Std.Hotp(secret, c, 6), 6)
              && forall d: nat :: now / 30 - skew <= d < c ==> code != Digits(Std.Hotp(secret, d, 6), 6)
            case None =>
              secret != [] ==>
                forall d: nat :: now / 30 - skew <= d <= now / 30 + skew ==> code != Digits(Std.Hotp(secret, d, 6), 6)
  {
    hide Std.Hotp, Decoded, Decimal, Digits, Verdict;
    var all := Decoded(key);
    var secret := all[..Min(|all|, 64)];
    VerdictIsLeastMatch(key, code, now, skew);
    DigitsOfDecimal(code);
    forall d: nat | d <= now / 30 + skew
      ensures Decimal(code) == Std.Hotp(secret, d, 6) <==> code == Digits(Std.Hotp(secret, d, 6), 6)
    {
      DecimalReadsDigits(Std.Hotp(secret, d, 6), 6);
    }
  }
}
