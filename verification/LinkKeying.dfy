/** When the link of modules/mod_link.c holds the transmitter, and how many frames each poll plays. */
module LinkKeying {
  import opened Common
  import opened JitterSpec
  import opened Delivery

  // ---- One poll ----

  /** The frames at the end of the stream that were concealed, in a row. */
  function Trail(frames: seq<Frame>, base: nat): nat
    requires base <= |frames|
  {
    if |frames| == base || frames[|frames| - 1].Decoded? then 0 else 1 + Trail(frames[..|frames| - 1], base)
  }

  /** How many frames have fallen due by `now`. */
  function DueCount(nextPlay: int, now: int): nat {
    if now < nextPlay then 0 else (now - nextPlay) / 60 + 1
  }

  /** Among `k` answers of the decoder from number `from` on, one gave samples. */
  predicate Samples(decoded: seq<int>, from: nat, k: nat) {
    exists i :: from <= i < from + k && At(decoded, i) > 0
  }

  function Failures(decoded: seq<int>, from: nat, k: nat): nat {
    if k == 0 then 0 else Failures(decoded, from, k - 1) + if At(decoded, from + k - 1) < 0 then 1 else 0
  }

  /** The miss counter is the run of concealed frames since playout started, and it has not reached five. */
  predicate Counted(r: Receiver, base: nat) {
    && base <= |r.frames| && r.buffer.misses < 5
    && (if r.buffer.started then r.buffer.misses == Trail(r.frames, base) else r.buffer.misses == 0)
  }

  /** What a poll that plays from answer `from` on, with `budget` frames to go, does beside moving the buffer. */
  predicate Polled(r: Receiver, q: Receiver, now: int, from: nat, budget: nat, decoded: seq<int>, base: nat) {
    && r.frames <= q.frames && base <= |r.frames|
    && var k := |q.frames| - |r.frames|;
       && k <= Min(budget, DueCount(r.buffer.nextPlay, now))
       && (q.buffer.started ==> Counted(q, base) && k == Min(budget, DueCount(r.buffer.nextPlay, now)))
       && (!q.buffer.started ==> k > 0 && Trail(q.frames, base) == 5 && q.buffer.misses == 0)
       && (q.held <==> q.buffer.started && (r.held || Samples(decoded, from, k)))
       && q.lastRecv == (if Samples(decoded, from, k) then now else r.lastRecv)
       && q.errors == r.errors + Failures(decoded, from, k)
       && q.active == r.active && q.muted == r.muted
  }

  lemma {:induction false} PopCounts(r: Receiver, now: int, decoded: int, base: nat)
    requires Sound(r.buffer) && r.buffer.started && Counted(r, base)
    ensures var p := PopOne(r, now, decoded);
            && p.frames == r.frames + [NextFrame(r.buffer)] && p.buffer.started
            && p.buffer.misses == Trail(p.frames, base) <= 5
            && p.buffer.nextPlay == r.buffer.nextPlay + 60
            && (p.held <==> r.held || decoded > 0)
            && p.lastRecv == (if decoded > 0 then now else r.lastRecv)
            && p.errors == r.errors + (if decoded < 0 then 1 else 0)
            && p.active == r.active && p.muted == r.muted
  {
    var p := PopOne(r, now, decoded);
    assert p.frames[..|p.frames| - 1] == r.frames;
  }

  lemma {:induction false} DueLater(nextPlay: int, now: int)
    requires now >= nextPlay
    ensures DueCount(nextPlay, now) == 1 + DueCount(nextPlay + 60, now)
  {
  }

  lemma {:induction false} OneMoreAnswer(decoded: seq<int>, from: nat, k: nat)
    ensures Samples(decoded, from, k + 1) <==> At(decoded, from) > 0 || Samples(decoded, from + 1, k)
    ensures Failures(decoded, from, k + 1) == (if At(decoded, from) < 0 then 1 else 0) + Failures(decoded, from + 1, k)
  {
    if k > 0 { OneMoreAnswer(decoded, from, k - 1); }
    if i :| from <= i < from + (k + 1) && At(decoded, i) > 0 {
      assert i == from || from + 1 <= i < from + 1 + k;
    }
  }

  lemma {:induction false} PlayoutPolls(r: Receiver, now: int, budget: nat, decoded: seq<int>, base: nat)
    requires Sound(r.buffer) && r.buffer.started && Counted(r, base) && budget <= BUDGET
    ensures Polled(r, Playout(r, now, budget, decoded), now, BUDGET - budget, budget, decoded, base)
    decreases budget
  {
    hide Sound, PopOne, At, Trail, DueCount, NextFrame, Failures, Samples;
    var from := BUDGET - budget;
    if budget > 0 && now >= r.buffer.nextPlay {
      var p := PopOne(r, now, At(decoded, from));
      PopCounts(r, now, At(decoded, from), base);
      DueLater(r.buffer.nextPlay, now);
      if p.buffer.misses >= MAX_MISSES {
        OneMoreAnswer(decoded, from, 0);
        NoAnswer(decoded, from + 1);
        EndsStream(p);
      } else {
        PlayoutPolls(p, now, budget - 1, decoded, base);
        var q := Playout(p, now, budget - 1, decoded);
        OneMoreAnswer(decoded, from, |q.frames| - |p.frames|);
      }
    } else {
      NoAnswer(decoded, from);
      NotDue(r.buffer.nextPlay, now);
    }
  }

  lemma {:induction false} NoAnswer(decoded: seq<int>, from: nat)
    ensures !Samples(decoded, from, 0) && Failures(decoded, from, 0) == 0
  {
  }

  lemma {:induction false} NotDue(nextPlay: int, now: int)
    ensures now < nextPlay ==> DueCount(nextPlay, now) == 0
  {
  }

  lemma {:induction false} EndsStream(p: Receiver)
    requires Sound(p.buffer)
    ensures var q := Drop(p.(buffer := Reset(p.buffer)));
            && !q.held && !q.buffer.started && q.buffer.misses == 0 && q.frames == p.frames
            && q.lastRecv == p.lastRecv && q.errors == p.errors && q.active == p.active && q.muted == p.muted
  {
  }

  // ---- What happened, step by step ----

  /** The last step of the run played frames, and one of them decoded to samples. */
  predicate Spoke(run: seq<Input>, target: int, tail: int)
    requires GoodRun(run)
  {
    && run != [] && run[|run| - 1].Poll?
    && var was, now := After(run[..|run| - 1], target, tail), After(run, target, tail);
       |now.frames| >= |was.frames| && Samples(run[|run| - 1].decoded, 0, |now.frames| - |was.frames|)
  }

  predicate FiveMissed(frames: seq<Frame>, base: nat) {
    |frames| >= base + 5 && forall i :: |frames| - 5 <= i < |frames| ==> frames[i].Concealed?
  }

  /** The last step played the fifth frame in a row, since playout started, for which there was no packet. */
  predicate RanDry(run: seq<Input>, target: int, tail: int)
    requires GoodRun(run)
  {
    && run != [] && run[|run| - 1].Poll?
    && var before := run[..|run| - 1];
       |After(run, target, tail).frames| > |After(before, target, tail).frames|
       && FiveMissed(After(run, target, tail).frames, StreamOf(before, target, tail).base)
  }

  predicate SessionIsUp(run: seq<Input>) {
    run != []
    && var x := run[|run| - 1];
       x.SessionUp? || (!x.Cleanup? && SessionIsUp(run[..|run| - 1]))
  }

  /** When a packet last came in during a session, or a frame last decoded to samples. */
  function LastHeard(run: seq<Input>, target: int, tail: int): int
    requires GoodRun(run)
  {
    if run == [] then 0
    else
      var before, x := run[..|run| - 1], run[|run| - 1];
      if (x.Packet? && SessionIsUp(before)) || Spoke(run, target, tail) then x.now else LastHeard(before, target, tail)
  }

  /** The last step was a poll that heard nothing for longer than the tail. */
  predicate Lapsed(run: seq<Input>, target: int, tail: int)
    requires GoodRun(run)
  {
    run != [] && run[|run| - 1].Poll? && run[|run| - 1].now - LastHeard(run, target, tail) > tail
  }

  /** What makes the link let go: five frames missed in a row, the lapse of the tail, the end of the session. */
  predicate LetsGo(run: seq<Input>, target: int, tail: int)
    requires GoodRun(run)
  {
    run != [] && (RanDry(run, target, tail) || Lapsed(run, target, tail) || run[|run| - 1].Cleanup?)
  }

  lemma {:induction false} TrailIsFive(frames: seq<Frame>, base: nat)
    requires base <= |frames|
    ensures Trail(frames, base) <= |frames| - base
    ensures forall i :: |frames| - Trail(frames, base) <= i < |frames| ==> frames[i].Concealed?
    ensures Trail(frames, base) >= 5 <==> FiveMissed(frames, base)
  {
    if |frames| > base && frames[|frames| - 1].Concealed? {
      var init := frames[..|frames| - 1];
      TrailIsFive(init, base);
      assert forall i :: 0 <= i < |init| ==> init[i] == frames[i];
      if FiveMissed(frames, base) { TrailAtLeast(frames, base, 5); }
    }
  }

  lemma {:induction false} TrailAtLeast(frames: seq<Frame>, base: nat, n: nat)
    requires base + n <= |frames| && forall i :: |frames| - n <= i < |frames| ==> frames[i].Concealed?
    ensures Trail(frames, base) >= n
  {
    if n > 0 { TrailAtLeast(frames[..|frames| - 1], base, n - 1); }
  }

  /** What every run keeps. */
  predicate Heard(r: Receiver, base: nat, up: bool, heard: int) {
    Counted(r, base) && r.active == up && (r.held ==> r.active) && r.lastRecv == heard
  }

  predicate Polls(r: Receiver, x: Input) {
    x.Poll? && r.active && r.buffer.started && !r.muted
  }

  lemma {:induction false} PollStep(r: Receiver, target: int, tail: int, x: Input, base: nat)
    requires Sound(r.buffer) && Polls(r, x) && Counted(r, base)
    ensures var q := Step(r, target, tail, x);
            && r.frames <= q.frames
            && var k := |q.frames| - |r.frames|;
               var heard := if Samples(x.decoded, 0, k) then x.now else r.lastRecv;
               && Counted(q, base) && q.active && q.lastRecv == heard
               && (q.held <==> && (r.held || Samples(x.decoded, 0, k))
                               && !(k > 0 && FiveMissed(q.frames, base)) && x.now - heard <= tail)
               && q.errors == r.errors + Failures(x.decoded, 0, k)
               && k <= Min(10, DueCount(r.buffer.nextPlay, x.now))
               && (!FiveMissed(q.frames, base) ==> k == Min(10, DueCount(r.buffer.nextPlay, x.now)))
  {
    hide Sound, Playout, Trail, Failures, Samples, DueCount, FiveMissed;
    PlayoutPolls(r, x.now, BUDGET, x.decoded, base);
    var p := Playout(r, x.now, BUDGET, x.decoded);
    TrailIsFive(p.frames, base);
    TrailIsFive(r.frames, base);
    if |p.frames| == |r.frames| { assert p.frames == r.frames; }
  }

  /** No other step plays a frame, fails to decode, or keys the transmitter; a cleanup lets go of it. */
  lemma {:induction false} OtherStep(r: Receiver, target: int, tail: int, x: Input, base: nat, up: bool, heard: int)
    requires Sound(r.buffer) && GoodInput(x) && !Polls(r, x) && Heard(r, base, up, heard)
    ensures var q := Step(r, target, tail, x);
            && q.frames == r.frames && q.errors == r.errors
            && q.active == (x.SessionUp? || (!x.Cleanup? && r.active))
            && q.lastRecv == (if x.Packet? && r.active then x.now else r.lastRecv)
            && (q.held <==> r.held && !x.Cleanup? && !(x.Poll? && x.now - r.lastRecv > tail))
            && Counted(q, if Starts(r, x) then |r.frames| else base)
  {
    hide Sound, Delta, Trail, Clear;
    TrailNothing(r.frames);
  }

  lemma {:induction false} TrailNothing(frames: seq<Frame>)
    ensures Trail(frames, |frames|) == 0
  {
  }

  lemma {:induction false} NoFrames(run: seq<Input>, target: int, tail: int)
    requires GoodRun(run) && run != []
    requires After(run, target, tail).frames == After(run[..|run| - 1], target, tail).frames
    ensures !Spoke(run, target, tail) && !RanDry(run, target, tail)
  {
    hide After, At;
  }

  /** One step: the link holds the transmitter when it did or has just spoken, and nothing lets go. */
  lemma {:induction false} StepHolds(run: seq<Input>, target: int, tail: int)
    requires GoodRun(run) && run != []
    requires var before := run[..|run| - 1];
             Heard(After(before, target, tail), StreamOf(before, target, tail).base, SessionIsUp(before),
                   LastHeard(before, target, tail))
    ensures Heard(After(run, target, tail), StreamOf(run, target, tail).base, SessionIsUp(run), LastHeard(run, target, tail))
    ensures After(run, target, tail).held
            <==> (After(run[..|run| - 1], target, tail).held || Spoke(run, target, tail)) && !LetsGo(run, target, tail)
  {
    hide Step, Sound, Starts, Samples, FiveMissed, Counted, Failures, DueCount, Late;
    var before, x := run[..|run| - 1], run[|run| - 1];
    var r, base := After(before, target, tail), StreamOf(before, target, tail).base;
    assert After(run, target, tail) == Step(r, target, tail, x);
    if Polls(r, x) {
      PollStep(r, target, tail, x, base);
    } else {
      OtherStep(r, target, tail, x, base, SessionIsUp(before), LastHeard(before, target, tail));
      NoFrames(run, target, tail);
    }
    BaseMoves(r, StreamOf(before, target, tail), x);
  }

  lemma {:induction false} BaseMoves(r: Receiver, s: Stream, x: Input)
    ensures Follow(r, s, x).base == if Starts(r, x) then |r.frames| else s.base
    ensures Starts(r, x) ==> x.Packet?
  {
    hide Late, TooFar;
  }

  lemma {:induction false} RunHeard(run: seq<Input>, target: int, tail: int)
    requires GoodRun(run)
    ensures Heard(After(run, target, tail), StreamOf(run, target, tail).base, SessionIsUp(run), LastHeard(run, target, tail))
  {
    hide Step, Heard, Follow, Spoke, LetsGo;
    if run == [] {
      NothingHeard();
    } else {
      RunHeard(run[..|run| - 1], target, tail);
      StepHolds(run, target, tail);
    }
  }

  lemma {:induction false} NothingHeard()
    ensures Heard(INITIAL, 0, false, 0)
  {
  }

  /** Step `j` of the run lets go. */
  predicate LetsGoAt(run: seq<Input>, target: int, tail: int, j: nat)
    requires GoodRun(run) && j < |run|
  {
    LetsGo(run[..j + 1], target, tail)
  }

  /** Step `k` spoke, and no step from it on has let go. */
  predicate SpokenSince(run: seq<Input>, target: int, tail: int, k: nat)
    requires GoodRun(run)
  {
    && k < |run| && Spoke(run[..k + 1], target, tail)
    && forall j :: k <= j < |run| ==> !LetsGoAt(run, target, tail, j)
  }

  /**
   * After every run the link holds the transmitter exactly when some poll has played a frame that decoded to
   * samples and since then there have been no five frames missed in a row, no lapse of the tail and no end
   * of the session.
   */
  lemma {:induction false} HeldIffSpokenSince(run: seq<Input>, target: int, tail: int)
    requires GoodRun(run)
    ensures After(run, target, tail).held <==> exists k: nat :: SpokenSince(run, target, tail, k)
  {
    hide Step, Heard, Spoke, LetsGo;
    if run == [] {
      NothingHeard();
    } else {
      var before := run[..|run| - 1];
      HeldIffSpokenSince(before, target, tail);
      RunHeard(before, target, tail);
      StepHolds(run, target, tail);
      assert run[..|run|] == run;
      if After(run, target, tail).held {
        if After(before, target, tail).held && !Spoke(run, target, tail) {
          var k: nat :| SpokenSince(before, target, tail, k);
          SinceLonger(run, target, tail, k);
        } else {
          assert SpokenSince(run, target, tail, |before|);
        }
      }
      if k: nat :| SpokenSince(run, target, tail, k) {
        assert !LetsGoAt(run, target, tail, |before|);
        if k < |before| { SinceLonger(run, target, tail, k); }
      }
    }
  }

  lemma {:induction false} SinceLonger(run: seq<Input>, target: int, tail: int, k: nat)
    requires GoodRun(run) && run != [] && k < |run| - 1
    ensures SpokenSince(run, target, tail, k)
            <==> SpokenSince(run[..|run| - 1], target, tail, k) && !LetsGo(run, target, tail)
  {
    hide Spoke, LetsGo;
    var before := run[..|run| - 1];
    assert run[..|run|] == run && before[..k + 1] == run[..k + 1];
    forall j | 0 <= j < |before|
      ensures LetsGoAt(run, target, tail, j) == LetsGoAt(before, target, tail, j)
    {
      assert before[..j + 1] == run[..j + 1];
    }
    assert LetsGoAt(run, target, tail, |before|) == LetsGo(run, target, tail);
  }

  /**
   * A poll during an unmuted session, while playout is on, plays every frame that has fallen due, ten at the
   * most, unless the stream runs dry in it, and counts each failure of the decoder; nothing else plays any.
   */
  lemma {:induction false} PollPlaysWhatIsDue(run: seq<Input>, target: int, tail: int, x: Input)
    requires GoodRun(run) && GoodInput(x)
    ensures var r, q := After(run, target, tail), Step(After(run, target, tail), target, tail, x);
            var k := |q.frames| - |r.frames|;
            if Polls(r, x)
            then && 0 <= k <= Min(10, DueCount(r.buffer.nextPlay, x.now))
                 && (k < Min(10, DueCount(r.buffer.nextPlay, x.now)) ==>
                       FiveMissed(q.frames, StreamOf(run, target, tail).base))
                 && q.errors == r.errors + Failures(x.decoded, 0, k)
            else q.frames == r.frames && q.errors == r.errors
  {
    hide Step, Sound, Starts, Samples, FiveMissed, Failures, DueCount, After, Counted;
    RunHeard(run, target, tail);
    var r, base := After(run, target, tail), StreamOf(run, target, tail).base;
    if Polls(r, x) {
      PollStep(r, target, tail, x, base);
    } else {
      OtherStep(r, target, tail, x, base, SessionIsUp(run), LastHeard(run, target, tail));
    }
  }

  /** What the server last said about muting. */
  function MutedBy(run: seq<Input>): bool {
    if run == [] then false
    else
      var x := run[|run| - 1];
      if x.SetMuted? then x.muted else MutedBy(run[..|run| - 1])
  }

  lemma {:induction false} PollOff(r: Receiver, target: int, tail: int, x: Input, base: nat)
    requires Sound(r.buffer) && Polls(r, x) && Counted(r, base)
    ensures var q := Step(r, target, tail, x);
            q.buffer.started <==> !(|q.frames| > |r.frames| && FiveMissed(q.frames, base))
    ensures Step(r, target, tail, x).muted == r.muted
  {
    hide Sound, Playout, Trail, Failures, Samples, DueCount, FiveMissed;
    PlayoutPolls(r, x.now, BUDGET, x.decoded, base);
    var p := Playout(r, x.now, BUDGET, x.decoded);
    TrailIsFive(p.frames, base);
    TrailIsFive(r.frames, base);
  }

  lemma {:induction false} OtherOff(r: Receiver, target: int, tail: int, x: Input)
    requires Sound(r.buffer) && GoodInput(x) && !Polls(r, x)
    ensures var q := Step(r, target, tail, x);
            && (q.buffer.started <==> Offers(r, x) || (r.buffer.started && !x.Cleanup?))
            && q.muted == if x.SetMuted? then x.muted else r.muted
  {
    hide Sound, Delta, Clear;
  }

  /**
   * Playout is on exactly from a packet taken during a session until the stream runs dry or the session ends;
   * what is muted, and whether there is a session, is what was last said about it. While playout is off no
   * packet waits.
   */
  lemma {:induction false} PlayoutOnIff(run: seq<Input>, target: int, tail: int)
    requires GoodRun(run) && run != []
    ensures var before, x := run[..|run| - 1], run[|run| - 1];
            var r, q := After(before, target, tail), After(run, target, tail);
            && (q.buffer.started <==>
                  Offers(r, x) || (r.buffer.started && !x.Cleanup? && !RanDry(run, target, tail)))
            && q.muted == MutedBy(run) && q.active == SessionIsUp(run)
            && (!q.buffer.started ==> forall i :: 0 <= i < SLOTS ==> !q.buffer.slots[i].inUse)
  {
    hide Step, Sound, Starts, Samples, FiveMissed, Counted, Failures, DueCount, Late, Holds, Latest;
    var before, x := run[..|run| - 1], run[|run| - 1];
    var r := After(before, target, tail);
    assert After(run, target, tail) == Step(r, target, tail, x);
    RunHeard(before, target, tail);
    RunHeard(run, target, tail);
    MutedAlong(before, target, tail);
    RunHolds(run, target, tail);
    if !After(run, target, tail).buffer.started {
      SilentIsEmpty(After(run, target, tail).buffer, Latest(run, target, tail));
    }
    if Polls(r, x) {
      PollOff(r, target, tail, x, StreamOf(before, target, tail).base);
    } else {
      OtherOff(r, target, tail, x);
      OtherStep(r, target, tail, x, StreamOf(before, target, tail).base, SessionIsUp(before),
                LastHeard(before, target, tail));
      NoFrames(run, target, tail);
    }
  }

  lemma {:induction false} MutedAlong(run: seq<Input>, target: int, tail: int)
    requires GoodRun(run)
    ensures After(run, target, tail).muted == MutedBy(run)
  {
    hide Step, Sound, Counted, FiveMissed;
    if run != [] {
      var before, x := run[..|run| - 1], run[|run| - 1];
      MutedAlong(before, target, tail);
      var r := After(before, target, tail);
      RunHeard(before, target, tail);
      if Polls(r, x) {
        PollOff(r, target, tail, x, StreamOf(before, target, tail).base);
      } else {
        OtherOff(r, target, tail, x);
      }
    }
  }
}
