/** The drop-oldest jitter ring between the phone and the radio, in modules/mod_freeswitch.c. */
module PhoneJitter {
  import opened Common

  const CAPACITY: nat := 1600

  type Sample = int

  /** The last `n` samples, or all there are. */
  function Newest(s: seq<Sample>, n: nat): seq<Sample> {
    if |s| <= n then s else s[|s| - n..]
  }

  function Silence(n: nat): (z: seq<Sample>)
    ensures |z| == n && forall i :: 0 <= i < n ==> z[i] == 0
  {
    if n == 0 then [] else [0] + Silence(n - 1)
  }

  lemma {:induction false} NewestAppends(a: seq<Sample>, b: seq<Sample>, n: nat)
    ensures Newest(Newest(a, n) + b, n) == Newest(a + b, n)
  {
  }

  /** The `count` samples of the ring from `readPos` on. */
  function Ring(a: seq<Sample>, readPos: nat, count: nat): (s: seq<Sample>)
    requires |a| == CAPACITY && readPos < CAPACITY && count <= CAPACITY
    ensures |s| == count
  {
    seq(count, i requires 0 <= i < count => a[Wrap(readPos + i, CAPACITY)])
  }

  lemma {:induction false} RingGrows(a: seq<Sample>, r: nat, count: nat, x: Sample)
    requires |a| == CAPACITY && r < CAPACITY && count < CAPACITY
    ensures Ring(a[Wrap(r + count, CAPACITY) := x], r, count + 1) == Ring(a, r, count) + [x]
  {
    var s := Ring(a[Wrap(r + count, CAPACITY) := x], r, count + 1);
    forall i | 0 <= i <= count
      ensures s[i] == (Ring(a, r, count) + [x])[i]
    {
      assert i < count ==> Wrap(r + i, CAPACITY) != Wrap(r + count, CAPACITY);
    }
  }

  lemma {:induction false} RingTurns(a: seq<Sample>, r: nat, x: Sample)
    requires |a| == CAPACITY && r < CAPACITY
    ensures Ring(a[r := x], Wrap(r + 1, CAPACITY), CAPACITY) == Ring(a, r, CAPACITY)[1..] + [x]
  {
    var s := Ring(a[r := x], Wrap(r + 1, CAPACITY), CAPACITY);
    forall i | 0 <= i < CAPACITY
      ensures s[i] == (Ring(a, r, CAPACITY)[1..] + [x])[i]
    {
      assert Wrap(Wrap(r + 1, CAPACITY) + i, CAPACITY) == if i < CAPACITY - 1 then Wrap(r + (i + 1), CAPACITY) else r;
    }
  }

  lemma {:induction false} RingShrinks(a: seq<Sample>, r: nat, count: nat)
    requires |a| == CAPACITY && r < CAPACITY && 0 < count <= CAPACITY
    ensures a[r] == Ring(a, r, count)[0]
    ensures Ring(a, Wrap(r + 1, CAPACITY), count - 1) == Ring(a, r, count)[1..]
  {
    assert Ring(a, r, count)[0] == a[Wrap(r + 0, CAPACITY)];
    forall i | 0 <= i < count - 1
      ensures Ring(a, Wrap(r + 1, CAPACITY), count - 1)[i] == Ring(a, r, count)[1..][i]
    {
      assert Wrap(Wrap(r + 1, CAPACITY) + i, CAPACITY) == Wrap(r + (i + 1), CAPACITY);
    }
  }

  class JitterBuf {
    const buf: array<Sample>
    var writePos: nat
    var readPos: nat
    var count: nat

    ghost predicate Valid()
      reads this
    {
      && buf.Length == CAPACITY && readPos < CAPACITY && count <= CAPACITY
      && writePos == Wrap(readPos + count, CAPACITY)
    }

    /** The queued samples, oldest first. */
    ghost function Contents(): (s: seq<Sample>)
      requires Valid()
      reads this, buf
      ensures |s| == count
    {
      Ring(buf[..], readPos, count)
    }

    constructor ()
      ensures Valid() && fresh(buf) && Contents() == []
    {
      buf := new Sample[CAPACITY](_ => 0);
      writePos, readPos, count := 0, 0, 0;
    }

    method Reset()
      requires Valid()
      modifies this, buf
      ensures Valid() && Contents() == []
    {
      writePos, readPos, count := 0, 0, 0;
      forall i | 0 <= i < buf.Length { buf[i] := 0; }
    }

    method WriteOne(x: Sample)
      requires Valid()
      modifies this, buf
      ensures Valid() && Contents() == Newest(old(Contents()) + [x], CAPACITY)
    {
      hide Newest, Ring;
      ghost var s, a, r := Contents(), buf[..], readPos;
      buf[writePos] := x;
      assert buf[..] == a[writePos := x];
      NextSlot(writePos, CAPACITY);
      writePos := (writePos + 1) % CAPACITY;
      if count < CAPACITY {
        RingGrows(a, r, count, x);
        count := count + 1;
      } else {
        RingTurns(a, r, x);
        NextSlot(readPos, CAPACITY);
        readPos := (readPos + 1) % CAPACITY;
      }
      PushOne(s, x);
    }

    /** Takes the oldest sample. */
    method ReadOne() returns (x: Sample)
      requires Valid() && count > 0
      modifies this
      ensures Valid() && x == old(Contents())[0] && Contents() == old(Contents())[1..]
    {
      hide Ring;
      RingShrinks(buf[..], readPos, count);
      x := buf[readPos];
      NextSlot(readPos, CAPACITY);
      readPos := (readPos + 1) % CAPACITY;
      count := count - 1;
    }

    method Write(samples: seq<Sample>)
      requires Valid()
      modifies this, buf
      ensures Valid() && Contents() == Newest(old(Contents()) + samples, CAPACITY)
    {
      hide Newest;
      var i := 0;
      assert old(Contents()) + samples[..0] == old(Contents());
      NewestOfAll(old(Contents()));
      while i < |samples|
        invariant 0 <= i <= |samples|
        invariant Valid() && Contents() == Newest(old(Contents()) + samples[..i], CAPACITY)
      {
        WriteOne(samples[i]);
        NewestAppends(old(Contents()) + samples[..i], [samples[i]], CAPACITY);
        assert old(Contents()) + samples[..i] + [samples[i]] == old(Contents()) + samples[..i + 1];
        i := i + 1;
      }
      assert samples[..i] == samples;
    }

    /** Fills `out` with what is queued and then with silence. */
    method Read(out: array<Sample>) returns (read: nat)
      requires Valid() && out != buf
      modifies this, out
      ensures Valid() && read == Min(old(count), out.Length)
      ensures out[..] == old(Contents())[..read] + Silence(out.Length - read)
      ensures Contents() == old(Contents())[read..]
    {
      read := 0;
      ghost var s := Contents();
      for i := 0 to out.Length
        invariant Valid() && read == Min(|s|, i) && Contents() == s[read..]
        invariant forall j :: 0 <= j < i ==> out[j] == if j < read then s[j] else 0
      {
        if count == 0 {
          out[i] := 0;
        } else {
          var x := ReadOne();
          out[i] := x;
          read := read + 1;
        }
      }
    }
  }

  lemma {:induction false} PushOne(s: seq<Sample>, x: Sample)
    requires |s| <= CAPACITY
    ensures Newest(s + [x], CAPACITY) == if |s| < CAPACITY then s + [x] else s[1..] + [x]
  {
  }

  lemma {:induction false} NewestOfAll(s: seq<Sample>)
    requires |s| <= CAPACITY
    ensures Newest(s, CAPACITY) == s
  {
  }

  datatype Op = Write(samples: seq<Sample>) | Read(n: nat)

  /** What is queued after a run, and the samples that went in and came out over it. */
  function Queued(run: seq<Op>): (q: seq<Sample>)
    ensures |q| <= CAPACITY
  {
    if run == [] then []
    else
      var q, op := Queued(run[..|run| - 1]), run[|run| - 1];
      match op
      case Write(samples) => Newest(q + samples, CAPACITY)
      case Read(n) => q[Min(|q|, n)..]
  }

  function Written(run: seq<Op>): seq<Sample> {
    if run == [] then []
    else
      var op := run[|run| - 1];
      Written(run[..|run| - 1]) + if op.Write? then op.samples else []
  }

  function Delivered(run: seq<Op>): seq<Sample> {
    if run == [] then []
    else
      var q, op := Queued(run[..|run| - 1]), run[|run| - 1];
      Delivered(run[..|run| - 1]) + if op.Read? then q[..Min(|q|, op.n)] else []
  }

  /** No write of the run finds too little room. */
  predicate Roomy(run: seq<Op>) {
    if run == [] then true
    else
      var init, op := run[..|run| - 1], run[|run| - 1];
      Roomy(init) && (op.Write? ==> |Queued(init)| + |op.samples| <= CAPACITY)
  }

  /** `q` is the end of `w`. */
  predicate EndOf(q: seq<Sample>, w: seq<Sample>) {
    |q| <= |w| && w == w[..|w| - |q|] + q
  }

  lemma {:induction false} WriteKeepsEnd(q: seq<Sample>, w: seq<Sample>, x: seq<Sample>, n: nat)
    requires EndOf(q, w)
    ensures EndOf(Newest(q + x, n), w + x)
    ensures w[..|w| - |q|] <= (w + x)[..|w + x| - |Newest(q + x, n)|]
  {
    hide Newest;
    var gone, all := w[..|w| - |q|], q + x;
    NewestIsEnd(all, n);
    var k, kept := |all| - |Newest(all, n)|, Newest(all, n);
    assert w + x == gone + all;
    var now := gone + all[..k];
    assert gone + all == now + kept;
    assert (w + x)[..|w + x| - |kept|] == now;
  }

  lemma {:induction false} NewestIsEnd(s: seq<Sample>, n: nat)
    ensures |Newest(s, n)| <= |s| && s == s[..|s| - |Newest(s, n)|] + Newest(s, n)
  {
  }

  lemma {:induction false} ReadKeepsEnd(q: seq<Sample>, w: seq<Sample>, k: nat)
    requires EndOf(q, w) && k <= |q|
    ensures EndOf(q[k..], w)
    ensures w[..|w| - |q[k..]|] == w[..|w| - |q|] + q[..k]
  {
    var gone := w[..|w| - |q|];
    assert q == q[..k] + q[k..];
    assert w == gone + q[..k] + q[k..];
  }

  /** Queued is always the newest of what was written: only the oldest is ever dropped. */
  lemma {:induction false} QueuedIsNewest(run: seq<Op>)
    ensures EndOf(Queued(run), Written(run))
  {
    hide EndOf, Newest;
    if run == [] {
      EndOfNothing();
    } else {
      var init, op := run[..|run| - 1], run[|run| - 1];
      QueuedIsNewest(init);
      match op
      case Write(samples) => WriteKeepsEnd(Queued(init), Written(init), samples, CAPACITY);
      case Read(n) =>
        ReadKeepsEnd(Queued(init), Written(init), Min(|Queued(init)|, n));
        assert Written(init) + [] == Written(init);
    }
  }

  lemma {:induction false} EndOfNothing()
    ensures EndOf([], [])
  {
  }

  /** Without overflow the ring is a FIFO that loses nothing. */
  lemma {:induction false} RoomyIsLossless(run: seq<Op>)
    requires Roomy(run)
    ensures Delivered(run) + Queued(run) == Written(run)
  {
    if run != [] {
      var init, op := run[..|run| - 1], run[|run| - 1];
      RoomyIsLossless(init);
      var q := Queued(init);
      if op.Write? {
        assert Delivered(init) + (q + op.samples) == Delivered(init) + q + op.samples;
      } else {
        var k := Min(|q|, op.n);
        assert q == q[..k] + q[k..];
        assert Delivered(init) + q[..k] + q[k..] == Delivered(init) + q;
      }
    }
  }

  /** `sub` is `s` with some elements left out. */
  predicate Subsequence(sub: seq<Sample>, s: seq<Sample>) {
    if sub == [] then true
    else if s == [] then false
    else if sub[|sub| - 1] == s[|s| - 1] && Subsequence(sub[..|sub| - 1], s[..|s| - 1]) then true
    else Subsequence(sub, s[..|s| - 1])
  }

  lemma {:induction false} SubsequenceGrows(sub: seq<Sample>, s: seq<Sample>, t: seq<Sample>)
    requires Subsequence(sub, s)
    ensures Subsequence(sub, s + t) && Subsequence(sub + t, s + t)
    decreases |t|
  {
    if t == [] {
      assert s + t == s && sub + t == sub;
    } else {
      var init := t[..|t| - 1];
      SubsequenceGrows(sub, s, init);
      assert (s + t)[..|s + t| - 1] == s + init && (sub + t)[..|sub + t| - 1] == sub + init;
    }
  }

  /** What has left the ring: everything written but what is queued. */
  function Passed(run: seq<Op>): (p: seq<Sample>)
    ensures p + Queued(run) == Written(run)
  {
    QueuedIsNewest(run);
    Written(run)[..|Written(run)| - |Queued(run)|]
  }

  /** Over any run, overflow or not, what comes out is what went in, in order, with some left out. */
  lemma {:induction false} DeliveryKeepsOrder(run: seq<Op>)
    ensures Subsequence(Delivered(run), Passed(run))
  {
    hide Subsequence, EndOf, Newest;
    if run == [] {
      EmptySubsequence(Passed(run));
    } else {
      var init, op := run[..|run| - 1], run[|run| - 1];
      DeliveryKeepsOrder(init);
      QueuedIsNewest(init);
      EndIsShort(Queued(init), Written(init));
      match op
      case Write(samples) =>
        WriteKeepsEnd(Queued(init), Written(init), samples, CAPACITY);
        var more := Passed(run)[|Passed(init)|..];
        assert Passed(run) == Passed(init) + more;
        SubsequenceGrows(Delivered(init), Passed(init), more);
        assert Delivered(run) == Delivered(init);
      case Read(n) =>
        var k := Min(|Queued(init)|, n);
        ReadKeepsEnd(Queued(init), Written(init), k);
        assert Written(init) + [] == Written(init);
        SubsequenceGrows(Delivered(init), Passed(init), Queued(init)[..k]);
    }
  }

  lemma {:induction false} EndIsShort(q: seq<Sample>, w: seq<Sample>)
    requires EndOf(q, w)
    ensures |q| <= |w|
  {
  }

  lemma {:induction false} EmptySubsequence(s: seq<Sample>)
    ensures Subsequence([], s)
  {
  }
}

/** Voice detection on the phone audio and the transmitter it keys. */
module PhoneVox {
  import opened Common

  const FRAME_MS: int := 20

  datatype Config = Config(holdMs: int, attack: int)

  /** What a tick reads from the jitter ring: nothing, a frame over the threshold, or one under it. */
  datatype Frame = Empty | Loud | Quiet

  datatype Vox = Vox(frames: nat, hold: int, held: bool)

  const RESET: Vox := Vox(0, 0, false)

  /** One tick: vad_process and the PTT decision that follows it. */
  function Hear(c: Config, v: Vox, f: Frame): Vox {
    match f
    case Empty => v.(held := false)
    case Loud => Vox(v.frames + 1, c.holdMs, v.frames + 1 >= c.attack || v.held)
    case Quiet =>
      if v.hold > 0 then Vox(0, v.hold - FRAME_MS, v.hold - FRAME_MS > 0) else Vox(0, v.hold, false)
  }

  class Detector {
    const config: Config
    var speechFrames: nat
    var holdRemaining: int
    var pttHeld: bool
    // every tick so far
    ghost var ticks: seq<Frame>

    ghost function View(): Vox
      reads this
    {
      Vox(speechFrames, holdRemaining, pttHeld)
    }

    ghost predicate Valid()
      reads this
    {
      View() == After(config, ticks)
    }

    constructor (config: Config)
      ensures Valid() && ticks == [] && this.config == config
    {
      this.config := config;
      speechFrames, holdRemaining, pttHeld := 0, 0, false;
      ticks := [];
    }

    method VadProcess(loud: bool) returns (speaking: bool)
      modifies this`speechFrames, this`holdRemaining
      ensures Vox(speechFrames, holdRemaining, speaking) == Hear(config, old(View()), if loud then Loud else Quiet)
    {
      if loud {
        speechFrames := speechFrames + 1;
        holdRemaining := config.holdMs;
        if speechFrames >= config.attack { return true; }
        return pttHeld;
      }
      speechFrames := 0;
      if holdRemaining > 0 {
        holdRemaining := holdRemaining - FRAME_MS;
        if holdRemaining > 0 { return true; }
      }
      return false;
    }

    /** A tick that keys the transmitter confirms speech exactly when its own frame is loud. */
    method VoxProcess(f: Frame)
      requires Valid()
      modifies this
      ensures Valid() && ticks == old(ticks) + [f]
      ensures config.attack >= 1 && pttHeld && !old(pttHeld) ==>
                && (LoudStreak(ticks) >= config.attack <==> f == Loud)
                && (f == Quiet ==> config.holdMs > FRAME_MS && LoudStreak(ticks) == 0)
    {
      ghost var was, before := View(), ticks;
      var speaking := false;
      if f != Empty { speaking := VadProcess(f == Loud); }
      if speaking {
        if !pttHeld { pttHeld := true; }
      } else if pttHeld {
        pttHeld := false;
      }
      ticks := ticks + [f];
      assert View() == Hear(config, was, f) && ticks[..|before|] == before;
      if config.attack >= 1 && Keys(config, ticks) { KeyingTickConfirmsIffLoud(config, ticks); }
    }
  }

  function After(c: Config, run: seq<Frame>): Vox {
    if run == [] then RESET else Hear(c, After(c, run[..|run| - 1]), run[|run| - 1])
  }

  /** How many frames in a row were loud at the end of the run, ticks without a frame aside. */
  function LoudStreak(run: seq<Frame>): nat {
    if run == [] then 0
    else
      var n := LoudStreak(run[..|run| - 1]);
      match run[|run| - 1]
      case Empty => n
      case Loud => n + 1
      case Quiet => 0
  }

  /** The transmitter is keyed by the last tick of the run. */
  predicate Keys(c: Config, run: seq<Frame>) {
    run != [] && After(c, run).held && !After(c, run[..|run| - 1]).held
  }

  lemma {:induction false} CountersMeasure(c: Config, run: seq<Frame>)
    ensures After(c, run).frames == LoudStreak(run)
    ensures After(c, run).hold <= if c.holdMs > 0 then c.holdMs else 0
  {
    if run != [] { CountersMeasure(c, run[..|run| - 1]); }
  }

  predicate ConfirmsSpeech(c: Config, run: seq<Frame>) {
    Keys(c, run) ==> LoudStreak(run) >= c.attack
  }

  lemma {:induction false} ShortHoldConfirms(c: Config, run: seq<Frame>)
    requires c.attack >= 1 && c.holdMs <= FRAME_MS
    ensures ConfirmsSpeech(c, run)
  {
    if run != [] {
      CountersMeasure(c, run);
      CountersMeasure(c, run[..|run| - 1]);
    }
  }

  /** One click, a gap and a quiet frame. */
  lemma {:induction false} LongHoldKeysOnSilence(c: Config)
    requires c.attack >= 1 && c.holdMs > FRAME_MS
    ensures !ConfirmsSpeech(c, [Loud, Empty, Quiet])
  {
    var run := [Loud, Empty, Quiet];
    assert run[..2] == [Loud, Empty] && run[..2][..1] == [Loud] && run[..2][..1][..0] == [];
    assert After(c, [Loud]) == Hear(c, RESET, Loud);
    assert After(c, [Loud, Empty]).hold == c.holdMs;
  }

  /**
   * "Keying means as many loud frames in a row as the attack setting asks for" is not kept in general: the
   * hold that a single loud frame arms makes a later quiet frame report speech. It is kept for every run
   * exactly when the hold is no longer than one frame.
   */
  lemma {:induction false} KeysOnlyOnSpeechIff(c: Config)
    requires c.attack >= 1
    ensures (forall run :: ConfirmsSpeech(c, run)) <==> c.holdMs <= FRAME_MS
  {
    if c.holdMs <= FRAME_MS {
      forall run ensures ConfirmsSpeech(c, run) { ShortHoldConfirms(c, run); }
    } else {
      LongHoldKeysOnSilence(c);
    }
  }

  /** Of the ticks that key the transmitter, those that confirm speech are exactly the ones with a loud frame. */
  lemma {:induction false} KeyingTickConfirmsIffLoud(c: Config, run: seq<Frame>)
    requires c.attack >= 1 && Keys(c, run)
    ensures LoudStreak(run) >= c.attack <==> run[|run| - 1] == Loud
    ensures run[|run| - 1] == Quiet ==> c.holdMs > FRAME_MS && LoudStreak(run) == 0
  {
    CountersMeasure(c, run);
    CountersMeasure(c, run[..|run| - 1]);
  }

  /** How many quiet frames have come since the last loud one, if any was loud. */
  function QuietSince(run: seq<Frame>): Option<nat> {
    if run == [] then None
    else
      var n := QuietSince(run[..|run| - 1]);
      match run[|run| - 1]
      case Empty => n
      case Loud => Some(0)
      case Quiet => if n.Some? then Some(n.value + 1) else None
  }

  /** The hold that is left, once a loud frame has armed it. */
  lemma {:induction false} HoldMeasures(c: Config, run: seq<Frame>)
    ensures match QuietSince(run)
            case None => After(c, run).hold == 0
            case Some(n) =>
              if c.holdMs > 20 * n then After(c, run).hold == c.holdMs - 20 * n else After(c, run).hold <= 0
  {
    if run != [] { HoldMeasures(c, run[..|run| - 1]); }
  }

  /**
   * Over every run the phone is on the air after a tick exactly when its frame is loud and either enough loud
   * ones have come in a row or it was on the air already, or its frame is quiet and the hold has not run out.
   */
  lemma {:induction false} OnAirIff(c: Config, run: seq<Frame>)
    requires run != []
    ensures After(c, run).held
            <==> match run[|run| - 1]
                 case Empty => false
                 case Loud => LoudStreak(run) >= c.attack || After(c, run[..|run| - 1]).held
                 case Quiet => QuietSince(run).Some? && c.holdMs > 20 * QuietSince(run).value
  {
    CountersMeasure(c, run);
    CountersMeasure(c, run[..|run| - 1]);
    HoldMeasures(c, run);
    HoldMeasures(c, run[..|run| - 1]);
  }
}
