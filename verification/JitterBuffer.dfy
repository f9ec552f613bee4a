/**
 * The receive side of modules/mod_link.c as a function of its inputs: jitter buffer, playout pacing and
 * the link's push-to-talk, with what follows over every run.
 */
module JitterSpec {
  import opened Common

  const SLOTS: nat := 5
  const MAX_MISSES: nat := 5
  const FRAME_MS: int := 60
  const MAX_PAYLOAD: nat := 256
  const BUDGET: nat := 10

  type Payload = seq<bv8>

  datatype Slot = Slot(inUse: bool, number: nat, payload: Payload)

  datatype Buffer = Buffer(started: bool, cursor: nat, nextPlay: int, misses: nat, late: nat, overflow: nat,
                           slots: seq<Slot>)

  predicate Sound(b: Buffer) {
    |b.slots| == SLOTS && b.cursor < 0x1_0000 && forall i :: 0 <= i < SLOTS ==> b.slots[i].number < 0x1_0000
  }

  const FREE: Slot := Slot(false, 0, [])

  const EMPTY: Buffer := Buffer(false, 0, 0, 0, 0, 0, [FREE, FREE, FREE, FREE, FREE])

  /** The distance from `cursor` to `number` as a signed 16-bit difference. */
  function Delta(number: nat, cursor: nat): (d: int)
    ensures -0x8000 <= d < 0x8000
  {
    (number - cursor + 0x8000) % 0x1_0000 - 0x8000
  }

  /** It is the one number in that range congruent to the distance. */
  lemma {:induction false} DeltaIsTheShortWay(number: nat, cursor: nat, d: int)
    ensures d == Delta(number, cursor) <==> -0x8000 <= d < 0x8000 && (number - cursor - d) % 0x1_0000 == 0
  {
    var e := Delta(number, cursor);
    var k := (number - cursor + 0x8000) / 0x1_0000;
    assert number - cursor == e + 0x1_0000 * k;
    assert (number - cursor - d) == (e - d) + 0x1_0000 * k;
  }

  function Clear(slots: seq<Slot>): (r: seq<Slot>)
    ensures |r| == |slots|
  {
    seq(|slots|, i requires 0 <= i < |slots| => slots[i].(inUse := false))
  }

  function Reset(b: Buffer): (r: Buffer)
    ensures Sound(b) ==> Sound(r)
  {
    b.(slots := Clear(b.slots), started := false, cursor := 0, nextPlay := 0, misses := 0)
  }

  function StartAt(b: Buffer, number: nat, playAt: int): Buffer {
    b.(cursor := number, nextPlay := playAt, started := true)
  }

  predicate Late(b: Buffer, number: nat) {
    b.started && -200 < Delta(number, b.cursor) < 0
  }

  predicate TooFar(b: Buffer, number: nat) {
    b.started && !(-200 <= Delta(number, b.cursor) <= 200)
  }

  function Store(b: Buffer, number: nat, payload: Payload): (r: Buffer)
    requires Sound(b) && number < 0x1_0000
    ensures Sound(r)
  {
    var s := b.slots[number % SLOTS];
    b.(slots := b.slots[number % SLOTS := Slot(true, number, payload)],
       overflow := b.overflow + if s.inUse && s.number != number then 1 else 0)
  }

  function Insert(b: Buffer, target: int, now: int, number: nat, payload: Payload): (r: Buffer)
    requires Sound(b) && number < 0x1_0000
    ensures Sound(r)
  {
    if !(0 < |payload| <= MAX_PAYLOAD) then b
    else if Late(b, number) then b.(late := b.late + 1)
    else if TooFar(b, number) then Store(StartAt(Reset(b), number, now + target), number, payload)
    else if !b.started then Store(StartAt(b, number, now + target), number, payload)
    else Store(b, number, payload)
  }

  /** What one playout instant hands to the decoder. */
  datatype Frame = Decoded(number: nat, payload: Payload) | Concealed(number: nat)

  function NextFrame(b: Buffer): Frame
    requires Sound(b)
  {
    var s := b.slots[b.cursor % SLOTS];
    if s.inUse && s.number == b.cursor then Decoded(b.cursor, s.payload) else Concealed(b.cursor)
  }

  function Pop(b: Buffer): (r: Buffer)
    requires Sound(b)
    ensures Sound(r)
  {
    var i := b.cursor % SLOTS;
    var hit := NextFrame(b).Decoded?;
    b.(slots := if hit then b.slots[i := b.slots[i].(inUse := false)] else b.slots,
       misses := if hit then 0 else b.misses + 1,
       cursor := (b.cursor + 1) % 0x1_0000,
       nextPlay := b.nextPlay + FRAME_MS)
  }

  // ---- The receiver around the buffer ----

  datatype LinkEvent = RxAssert | RxDrop

  /** `ptt` is requests minus releases by this module, `events` what it fired, `frames` what it played. */
  datatype Receiver = Receiver(buffer: Buffer, active: bool, muted: bool, held: bool, ptt: int, lastRecv: int,
                               errors: nat, events: seq<LinkEvent>, frames: seq<Frame>)

  const INITIAL: Receiver := Receiver(EMPTY, false, false, false, 0, 0, 0, [], [])

  function Assert(r: Receiver): Receiver {
    if r.held then r else r.(held := true, ptt := r.ptt + 1, events := r.events + [RxAssert])
  }

  function Drop(r: Receiver): Receiver {
    if r.held then r.(held := false, ptt := r.ptt - 1, events := r.events + [RxDrop]) else r
  }

  /** One pop; `decoded` is the decoder's sample count, zero, or a negative error. */
  function PopOne(r: Receiver, now: int, decoded: int): (q: Receiver)
    requires Sound(r.buffer)
    ensures Sound(q.buffer)
  {
    var r1 := r.(buffer := Pop(r.buffer), frames := r.frames + [NextFrame(r.buffer)]);
    if decoded > 0 then Assert(r1).(lastRecv := now)
    else if decoded < 0 then r1.(errors := r1.errors + 1)
    else r1
  }

  /** The decoder's answers during one poll, in order. */
  function At(decoded: seq<int>, i: int): int {
    if 0 <= i < |decoded| then decoded[i] else 0
  }

  /** The playout loop with `budget` pops to go. */
  function Playout(r: Receiver, now: int, budget: nat, decoded: seq<int>): (q: Receiver)
    requires Sound(r.buffer)
    ensures Sound(q.buffer)
    decreases budget
  {
    if budget == 0 || now < r.buffer.nextPlay then r
    else
      var r1 := PopOne(r, now, At(decoded, BUDGET - budget));
      if r1.buffer.misses >= MAX_MISSES then Drop(r1.(buffer := Reset(r1.buffer)))
      else Playout(r1, now, budget - 1, decoded)
  }

  /** Packets, polls of the receive path, server mute, and the ends of a session. */
  datatype Input =
    | Packet(now: int, number: nat, payload: Payload)
    | Poll(now: int, decoded: seq<int>)
    | SetMuted(now: int, muted: bool)
    | SessionUp(now: int)
    | Cleanup(now: int)

  predicate GoodInput(x: Input) {
    x.Packet? ==> x.number < 0x1_0000
  }

  function Step(r: Receiver, target: int, tail: int, x: Input): (q: Receiver)
    requires Sound(r.buffer) && GoodInput(x)
    ensures Sound(q.buffer)
  {
    match x
    case Packet(now, number, payload) =>
      if r.active then r.(buffer := Insert(r.buffer, target, now, number, payload), lastRecv := now) else r
    case Poll(now, decoded) =>
      if !r.active then r
      else
        var r1 := if r.buffer.started && !r.muted then Playout(r, now, BUDGET, decoded) else r;
        if r1.held && now - r1.lastRecv > tail then Drop(r1) else r1
    case SetMuted(_, muted) => r.(muted := muted)
    case SessionUp(_) => r.(active := true)
    case Cleanup(_) =>
      var r1 := Drop(r);
      r1.(buffer := Reset(r1.buffer), active := false)
  }

  predicate GoodRun(run: seq<Input>) {
    forall i :: 0 <= i < |run| ==> GoodInput(run[i])
  }

  /** The receiver after a run. */
  function After(run: seq<Input>, target: int, tail: int): (r: Receiver)
    requires GoodRun(run)
    ensures Sound(r.buffer)
  {
    if run == [] then INITIAL
    else Step(After(run[..|run| - 1], target, tail), target, tail, run[|run| - 1])
  }

  predicate ClockRuns(run: seq<Input>) {
    forall i, j :: 0 <= i <= j < |run| ==> run[i].now <= run[j].now
  }

  // ---- Push-to-talk and events in lockstep ----

  /**
   * Asserts and drops alternate, starting with an assert; after an odd number of them PTT is held, with one
   * request more than releases, and after an even number there are as many of each.
   */
  predicate Alternates(r: Receiver) {
    && (forall i :: 0 <= i < |r.events| ==> r.events[i] == if i % 2 == 0 then RxAssert else RxDrop)
    && (r.held <==> |r.events| % 2 == 1)
    && r.ptt == |r.events| % 2
  }

  lemma {:induction false} AssertDropAlternate(r: Receiver)
    requires Alternates(r)
    ensures Alternates(Assert(r)) && Alternates(Drop(r))
  {
  }

  lemma {:induction false} PopOneAlternates(r: Receiver, now: int, decoded: int)
    requires Sound(r.buffer) && Alternates(r)
    ensures Alternates(PopOne(r, now, decoded))
    ensures Alternates(Drop(PopOne(r, now, decoded).(buffer := Reset(PopOne(r, now, decoded).buffer))))
  {
    hide Assert, Drop;
    var r1 := r.(buffer := Pop(r.buffer), frames := r.frames + [NextFrame(r.buffer)]);
    AssertDropAlternate(r1);
    var r2 := PopOne(r, now, decoded);
    AssertDropAlternate(r2.(buffer := Reset(r2.buffer)));
  }

  lemma {:induction false} PlayoutAlternates(r: Receiver, now: int, budget: nat, decoded: seq<int>)
    requires Sound(r.buffer) && Alternates(r)
    ensures Alternates(Playout(r, now, budget, decoded))
    decreases budget
  {
    hide Sound, PopOne, Drop, Alternates, Reset;
    if budget > 0 && now >= r.buffer.nextPlay {
      PopOneAlternates(r, now, At(decoded, BUDGET - budget));
      PlayoutAlternates(PopOne(r, now, At(decoded, BUDGET - budget)), now, budget - 1, decoded);
    }
  }

  lemma {:induction false} StepAlternates(r: Receiver, target: int, tail: int, x: Input)
    requires Sound(r.buffer) && GoodInput(x) && Alternates(r)
    ensures Alternates(Step(r, target, tail, x))
  {
    hide Sound, Insert, Reset, Playout;
    if x.Poll? && r.active && r.buffer.started && !r.muted {
      PlayoutAlternates(r, x.now, BUDGET, x.decoded);
    }
  }

  lemma {:induction false} EventsAlternate(run: seq<Input>, target: int, tail: int)
    requires GoodRun(run)
    ensures Alternates(After(run, target, tail))
  {
    hide Step;
    if run != [] {
      var before := run[..|run| - 1];
      EventsAlternate(before, target, tail);
      StepAlternates(After(before, target, tail), target, tail, run[|run| - 1]);
    }
  }

  // ---- Pacing ----

  /** The input puts a payload into the buffer or counts it late. */
  predicate Offers(r: Receiver, x: Input) {
    x.Packet? && r.active && 0 < |x.payload| <= MAX_PAYLOAD
  }

  /** When the first payload was offered. */
  function FirstOffer(run: seq<Input>, target: int, tail: int): Option<int>
    requires GoodRun(run)
  {
    if run == [] then None
    else
      var before, x := run[..|run| - 1], run[|run| - 1];
      var t := FirstOffer(before, target, tail);
      if t.Some? then t else if Offers(After(before, target, tail), x) then Some(x.now) else None
  }

  /** No more frames than real time since `start` allows, after the initial delay. */
  predicate Paced(r: Receiver, start: int, target: int, now: int) {
    |r.frames| >= 1 ==> FRAME_MS * (|r.frames| - 1) <= now - start - target
  }

  predicate PacedSchedule(r: Receiver, start: int, target: int, now: int) {
    && start <= now && Paced(r, start, target, now)
    && (r.buffer.started ==> FRAME_MS * |r.frames| <= r.buffer.nextPlay - start - target)
  }

  lemma {:induction false} PlayoutPaced(r: Receiver, now: int, budget: nat, decoded: seq<int>, start: int, target: int)
    requires Sound(r.buffer) && r.buffer.started && PacedSchedule(r, start, target, now)
    ensures PacedSchedule(Playout(r, now, budget, decoded), start, target, now)
    decreases budget
  {
    hide Sound, Alternates;
    if budget > 0 && now >= r.buffer.nextPlay {
      PlayoutPaced(PopOne(r, now, At(decoded, BUDGET - budget)), now, budget - 1, decoded, start, target);
    }
  }

  lemma {:induction false} StepPaced(r: Receiver, target: int, tail: int, x: Input, start: int, was: int)
    requires Sound(r.buffer) && GoodInput(x) && target >= FRAME_MS
    requires PacedSchedule(r, start, target, was) && was <= x.now
    ensures PacedSchedule(Step(r, target, tail, x), start, target, x.now)
  {
    hide Sound, Delta;
    if x.Poll? && r.active && r.buffer.started && !r.muted {
      PlayoutPaced(r, x.now, BUDGET, x.decoded, start, target);
    }
  }

  lemma {:induction false} StepIdle(r: Receiver, target: int, tail: int, x: Input)
    requires Sound(r.buffer) && GoodInput(x) && !r.buffer.started && r.frames == []
    ensures var q := Step(r, target, tail, x);
            if Offers(r, x) then PacedSchedule(q, x.now, target, x.now)
            else !q.buffer.started && q.frames == []
  {
    hide Sound, Delta;
  }

  lemma {:induction false} RunPaced(run: seq<Input>, target: int, tail: int)
    requires GoodRun(run) && ClockRuns(run) && target >= FRAME_MS
    ensures var r := After(run, target, tail);
            match FirstOffer(run, target, tail)
            case None => !r.buffer.started && r.frames == []
            case Some(start) => run != [] && PacedSchedule(r, start, target, run[|run| - 1].now)
  {
    hide Step, Offers, PacedSchedule;
    if run != [] {
      var before, x := run[..|run| - 1], run[|run| - 1];
      RunPaced(before, target, tail);
      match FirstOffer(before, target, tail)
      case None => StepIdle(After(before, target, tail), target, tail, x);
      case Some(start) =>
        StepPaced(After(before, target, tail), target, tail, x, start, before[|before| - 1].now);
    }
  }

  /** The pacing promise for one run: audio never gets ahead of real time. */
  predicate NeverAhead(run: seq<Input>, target: int, tail: int)
    requires GoodRun(run)
  {
    run != [] ==>
      match FirstOffer(run, target, tail)
      case None => After(run, target, tail).frames == []
      case Some(start) => Paced(After(run, target, tail), start, target, run[|run| - 1].now)
  }

  /** A far jump just after the first frame restarts the clock with less than a frame of delay. */
  function FarJumpRun(target: int): seq<Input> {
    [SessionUp(0), Packet(0, 0, [1]), Poll(target, []), Packet(target, 1000, [1]), Poll(2 * target, [])]
  }

  lemma {:induction false} OneMore(run: seq<Input>, x: Input, target: int, tail: int)
    requires GoodRun(run) && GoodInput(x)
    ensures GoodRun(run + [x])
    ensures After(run + [x], target, tail) == Step(After(run, target, tail), target, tail, x)
    ensures FirstOffer(run + [x], target, tail) ==
            if FirstOffer(run, target, tail).Some? then FirstOffer(run, target, tail)
            else if Offers(After(run, target, tail), x) then Some(x.now) else None
  {
    assert (run + [x])[..|run|] == run;
  }

  /** A poll at the very moment the next frame is due plays that frame and no other. */
  lemma {:induction false} PollWhenDue(r: Receiver, target: int, tail: int)
    requires Sound(r.buffer) && r.active && r.buffer.started && !r.muted && r.buffer.misses == 0
    ensures var q := Step(r, target, tail, Poll(r.buffer.nextPlay, []));
            && q.buffer == Pop(r.buffer) && |q.frames| == |r.frames| + 1 && q.active && !q.muted
  {
    hide Sound, NextFrame;
    var p := PopOne(r, r.buffer.nextPlay, 0);
    assert Playout(p, r.buffer.nextPlay, BUDGET - 1, []) == p;
  }

  lemma {:induction false} FarJumpStates(target: int, tail: int)
    requires 0 <= target < FRAME_MS
    ensures var run := FarJumpRun(target);
            GoodRun(run) && FirstOffer(run, target, tail) == Some(0) && |After(run, target, tail).frames| == 2
  {
    hide After, FirstOffer, Pop, Playout;
    var x := FarJumpRun(target);
    NothingYet(target, tail);
    OneMore([], x[0], target, tail);
    OneMore([x[0]], x[1], target, tail);
    assert [x[0]] + [x[1]] == x[..2] && [] + [x[0]] == [x[0]];
    var s2 := After(x[..2], target, tail);
    PollWhenDue(s2, target, tail);
    OneMore(x[..2], x[2], target, tail);
    assert x[..2] + [x[2]] == x[..3];
    var s3 := After(x[..3], target, tail);
    AfterFirstPop(s2.buffer);
    OneMore(x[..3], x[3], target, tail);
    assert x[..3] + [x[3]] == x[..4];
    var s4 := After(x[..4], target, tail);
    assert Delta(1000, 1) == 999;
    PollWhenDue(s4, target, tail);
    OneMore(x[..4], x[4], target, tail);
    assert x[..4] + [x[4]] == x;
  }

  lemma {:induction false} NothingYet(target: int, tail: int)
    ensures After([], target, tail) == INITIAL && FirstOffer([], target, tail) == None
  {
  }

  lemma {:induction false} AfterFirstPop(b: Buffer)
    requires Sound(b) && b.started && b.cursor == 0 && b.slots[0] == Slot(true, 0, [1])
    ensures Pop(b).started && Pop(b).cursor == 1 && Pop(b).misses == 0
  {
  }

  /** A number too far from the cursor to be anything but a new start. */
  function Elsewhere(b: Buffer): (number: nat)
    ensures number < 0x1_0000
  {
    (b.cursor + 1000) % 0x1_0000
  }

  lemma {:induction false} ElsewhereIsTooFar(b: Buffer)
    requires Sound(b) && b.started
    ensures TooFar(b, Elsewhere(b)) && !Late(b, Elsewhere(b))
  {
    DeltaIsTheShortWay(Elsewhere(b), b.cursor, 1000);
    hide Delta;
  }

  /** `k` times at one and the same moment a packet from elsewhere and a poll. */
  function JumpRun(k: nat, target: int, tail: int): (run: seq<Input>)
    ensures GoodRun(run) && forall i :: 0 <= i < |run| ==> run[i].now == 0
  {
    if k == 0 then [SessionUp(0)]
    else
      var run := JumpRun(k - 1, target, tail);
      run + [Packet(0, Elsewhere(After(run, target, tail).buffer), [1])] + [Poll(0, [])]
  }

  /** With no delay at all, or less, each start plays at once. */
  lemma {:induction false} JumpPlays(r: Receiver, target: int, tail: int)
    requires target <= 0 && Sound(r.buffer) && r.active && !r.muted
    ensures var q := Step(r, target, tail, Packet(0, Elsewhere(r.buffer), [1]));
            && q.frames == r.frames && q.active && !q.muted
            && var p := Step(q, target, tail, Poll(0, []));
               |p.frames| > |r.frames| && p.active && !p.muted
  {
    hide Delta, NextFrame, Sound, Clear;
    if r.buffer.started { ElsewhereIsTooFar(r.buffer); }
    var q := Step(r, target, tail, Packet(0, Elsewhere(r.buffer), [1]));
    assert q.buffer.started && q.buffer.nextPlay == target;
    var q1 := PopOne(q, 0, 0);
    PlayoutGrows(q1, 0, BUDGET - 1, []);
  }

  lemma {:induction false} PlayoutGrows(r: Receiver, now: int, budget: nat, decoded: seq<int>)
    requires Sound(r.buffer)
    ensures var q := Playout(r, now, budget, decoded); |q.frames| >= |r.frames| && q.active == r.active && q.muted == r.muted
    decreases budget
  {
    hide Sound, NextFrame, Pop;
    if budget > 0 && now >= r.buffer.nextPlay {
      PlayoutGrows(PopOne(r, now, At(decoded, BUDGET - budget)), now, budget - 1, decoded);
    }
  }

  lemma {:induction false} JumpsPlay(k: nat, target: int, tail: int)
    requires target <= 0
    ensures var run := JumpRun(k, target, tail);
            var r := After(run, target, tail);
            && r.active && !r.muted && |r.frames| >= k
            && (k > 0 ==> FirstOffer(run, target, tail) == Some(0))
  {
    hide After, FirstOffer, Step;
    if k == 0 {
      NothingYet(target, tail);
      OneMore([], SessionUp(0), target, tail);
      assert [] + [SessionUp(0)] == [SessionUp(0)];
      SessionOpens(target, tail);
    } else {
      JumpsPlay(k - 1, target, tail);
      var run := JumpRun(k - 1, target, tail);
      var r := After(run, target, tail);
      var x := Packet(0, Elsewhere(r.buffer), [1]);
      JumpPlays(r, target, tail);
      OneMore(run, x, target, tail);
      OneMore(run + [x], Poll(0, []), target, tail);
      if FirstOffer(run, target, tail).Some? { FirstAtZero(run, target, tail); }
    }
  }

  lemma {:induction false} SessionOpens(target: int, tail: int)
    ensures var r := Step(INITIAL, target, tail, SessionUp(0)); r.active && !r.muted
  {
  }

  lemma {:induction false} FirstAtZero(run: seq<Input>, target: int, tail: int)
    requires GoodRun(run) && (forall i :: 0 <= i < |run| ==> run[i].now == 0) && FirstOffer(run, target, tail).Some?
    ensures FirstOffer(run, target, tail) == Some(0)
  {
    hide After;
    if !FirstOffer(run[..|run| - 1], target, tail).None? { FirstAtZero(run[..|run| - 1], target, tail); }
  }

  /**
   * No pattern of packets, polls, mutes, far jumps and session ends pushes audio out faster than real
   * time, exactly when the initial delay is at least one frame. The code takes any delay, negative ones too.
   */
  lemma {:induction false} PacingIffDelayIsAFrame(target: int, tail: int)
    ensures target >= FRAME_MS <==>
            forall run: seq<Input> | GoodRun(run) && ClockRuns(run) :: NeverAhead(run, target, tail)
  {
    hide FirstOffer, After;
    if target >= FRAME_MS {
      forall run: seq<Input> | GoodRun(run) && ClockRuns(run)
        ensures NeverAhead(run, target, tail)
      {
        RunPaced(run, target, tail);
      }
    } else if target > 0 {
      FarJumpStates(target, tail);
      assert !NeverAhead(FarJumpRun(target), target, tail);
    } else {
      var run := JumpRun(2 - target, target, tail);
      JumpsPlay(2 - target, target, tail);
      assert run != [] && ClockRuns(run) && !NeverAhead(run, target, tail);
    }
  }
}

/** The module's globals, changed in place as the C code changes them. */
module LinkReceiver {
  import opened JitterSpec

  lemma {:induction false} DeltaOfCursor(number: nat)
    requires number < 0x1_0000
    ensures Delta(number, number) == 0
  {
  }

  class Link {
    // g_jb and its bookkeeping
    const jb: array<Slot>
    var initialized: bool
    var cursor: nat
    var nextPlay: int
    var consecMiss: nat
    var late: nat
    var overflow: nat
    // session and push-to-talk
    var sessionActive: bool
    var muted: bool
    var pttHeld: bool
    var ptt: int
    var lastRecv: int
    var decodeErr: nat
    const targetMs: int
    const tailMs: int
    // what has been fired and played so far
    ghost var events: seq<LinkEvent>
    ghost var frames: seq<Frame>

    ghost function BufferView(): Buffer
      reads this, jb
    {
      Buffer(initialized, cursor, nextPlay, consecMiss, late, overflow, jb[..])
    }

    ghost function View(): Receiver
      reads this, jb
    {
      Receiver(BufferView(), sessionActive, muted, pttHeld, ptt, lastRecv, decodeErr, events, frames)
    }

    ghost predicate Valid()
      reads this, jb
    {
      jb.Length == SLOTS && Sound(BufferView())
    }

    constructor (targetMs: int, tailMs: int)
      ensures Valid() && View() == INITIAL && this.targetMs == targetMs && this.tailMs == tailMs
    {
      jb := new Slot[SLOTS](_ => FREE);
      initialized, cursor, nextPlay, consecMiss, late, overflow := false, 0, 0, 0, 0, 0;
      sessionActive, muted, pttHeld, ptt, lastRecv, decodeErr := false, false, false, 0, 0, 0;
      this.targetMs, this.tailMs := targetMs, tailMs;
      events, frames := [], [];
      new;
      assert jb[..] == EMPTY.slots;
    }

    method JbReset()
      requires Valid()
      modifies this`initialized, this`cursor, this`nextPlay, this`consecMiss, jb
      ensures Valid() && View() == old(View()).(buffer := Reset(old(BufferView())))
    {
      var i := 0;
      while i < SLOTS
        invariant 0 <= i <= SLOTS
        invariant forall k :: 0 <= k < SLOTS ==>
                    jb[k] == if k < i then old(jb[k]).(inUse := false) else old(jb[k])
        invariant View() == old(View()).(buffer := old(BufferView()).(slots := jb[..]))
        modifies jb
      {
        jb[i] := jb[i].(inUse := false);
        i := i + 1;
      }
      assert jb[..] == Clear(old(jb[..]));
      initialized := false;
      cursor := 0;
      nextPlay := 0;
      consecMiss := 0;
    }

    method JbInsert(now: int, number: nat, payload: Payload)
      requires Valid() && number < 0x1_0000
      modifies this`initialized, this`cursor, this`nextPlay, this`consecMiss, this`late, this`overflow, jb
      ensures Valid() && View() == old(View()).(buffer := Insert(old(BufferView()), targetMs, now, number, payload))
    {
      hide Delta, Store, Clear, Reset;
      if |payload| == 0 || |payload| > MAX_PAYLOAD {
        return;
      }
      DeltaOfCursor(number);
      if !initialized {
        StartPlayout(number, now);
      }
      var delta := Delta(number, cursor);
      if delta < 0 && delta > -200 {
        late := late + 1;
        return;
      }
      if delta > 200 || delta < -200 {
        JbReset();
        StartPlayout(number, now);
      }
      StorePacket(number, payload);
    }

    method StartPlayout(number: nat, now: int)
      requires Valid() && number < 0x1_0000
      modifies this`initialized, this`cursor, this`nextPlay
      ensures Valid() && View() == old(View()).(buffer := StartAt(old(BufferView()), number, now + targetMs))
    {
      cursor := number;
      nextPlay := now + targetMs;
      initialized := true;
    }

    method StorePacket(number: nat, payload: Payload)
      requires Valid() && number < 0x1_0000
      modifies this`overflow, jb
      ensures Valid() && View() == old(View()).(buffer := Store(old(BufferView()), number, payload))
    {
      var idx := number % SLOTS;
      if jb[idx].inUse && jb[idx].number != number {
        overflow := overflow + 1;
      }
      jb[idx] := Slot(true, number, payload);
    }

    method RxAssert()
      requires Valid()
      modifies this
      ensures Valid() && View() == Assert(old(View()))
      ensures Alternates(old(View())) ==> Alternates(View())
    {
      if Alternates(View()) { AssertDropAlternate(View()); }
      hide Alternates;
      if pttHeld {
        return;
      }
      ptt := ptt + 1;
      pttHeld := true;
      events := events + [LinkEvent.RxAssert];
    }

    method RxDrop()
      requires Valid()
      modifies this
      ensures Valid() && View() == Drop(old(View()))
      ensures Alternates(old(View())) ==> Alternates(View())
    {
      if Alternates(View()) { AssertDropAlternate(View()); }
      hide Alternates;
      if !pttHeld {
        return;
      }
      ptt := ptt - 1;
      pttHeld := false;
      events := events + [LinkEvent.RxDrop];
    }

    /** Takes the frame that is due out of the buffer. */
    method TakeFrame() returns (hit: bool)
      requires Valid()
      modifies this, jb
      ensures Valid() && hit == NextFrame(old(BufferView())).Decoded?
      ensures View() == old(View()).(buffer := Pop(old(BufferView())))
    {
      var idx := cursor % SLOTS;
      hit := jb[idx].inUse && jb[idx].number == cursor;
      if hit {
        jb[idx] := jb[idx].(inUse := false);
        consecMiss := 0;
      } else {
        consecMiss := consecMiss + 1;
      }
      cursor := (cursor + 1) % 0x1_0000;
      nextPlay := nextPlay + FRAME_MS;
    }

    /** One turn of the playout loop, up to the ghost-stream check. */
    method PlayOne(now: int, dlen: int)
      requires Valid()
      modifies this, jb
      ensures Valid() && View() == PopOne(old(View()), now, dlen)
    {
      hide Pop, NextFrame;
      frames := frames + [NextFrame(BufferView())];
      var _ := TakeFrame();
      if dlen > 0 {
        RxAssert();
        lastRecv := now;
      } else if dlen < 0 {
        decodeErr := decodeErr + 1;
      }
    }

    method PlayoutTick(now: int, decoded: seq<int>)
      requires Valid()
      modifies this, jb
      ensures Valid()
      ensures View() == if old(initialized && sessionActive && !muted) then Playout(old(View()), now, BUDGET, decoded)
                        else old(View())
    {
      hide Sound, PopOne, Drop, Reset;
      if !initialized || !sessionActive || muted {
        return;
      }
      var budget: nat := BUDGET;
      while budget > 0 && now >= nextPlay
        invariant Valid() && budget <= BUDGET
        invariant Playout(View(), now, budget, decoded) == Playout(old(View()), now, BUDGET, decoded)
      {
        PlayOne(now, At(decoded, BUDGET - budget));
        budget := budget - 1;
        if consecMiss >= MAX_MISSES {
          JbReset();
          RxDrop();
          return;
        }
      }
    }

    /** One packet that the receive loop took off the socket. */
    method OnPacket(now: int, number: nat, payload: Payload)
      requires Valid() && number < 0x1_0000
      modifies this, jb
      ensures Valid() && View() == Step(old(View()), targetMs, tailMs, Packet(now, number, payload))
    {
      if !sessionActive {
        return;
      }
      JbInsert(now, number, payload);
      lastRecv := now;
    }

    /** The end of the receive path: playout, then the wall-clock backstop for PTT. */
    method OnPoll(now: int, decoded: seq<int>)
      requires Valid()
      modifies this, jb
      ensures Valid() && View() == Step(old(View()), targetMs, tailMs, Poll(now, decoded))
    {
      hide Sound, Playout, Drop;
      if !sessionActive {
        return;
      }
      PlayoutTick(now, decoded);
      if pttHeld && now - lastRecv > tailMs {
        RxDrop();
      }
    }

    method SessionCleanup(now: int)
      requires Valid()
      modifies this, jb
      ensures Valid() && View() == Step(old(View()), targetMs, tailMs, Cleanup(now))
    {
      RxDrop();
      JbReset();
      sessionActive := false;
    }
  }
}
