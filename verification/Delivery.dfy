/** What the link's jitter buffer delivers, over whole runs. */
module Delivery {
  import opened Common
  import opened JitterSpec

  // ---- Delivery ----

  /** The last payload stored for each sequence number since the buffer was last emptied. */
  function Latest(run: seq<Input>, target: int, tail: int): map<nat, Payload>
    requires GoodRun(run)
  {
    if run == [] || !After(run, target, tail).buffer.started then map[]
    else
      var before, x := run[..|run| - 1], run[|run| - 1];
      LatestAfter(After(before, target, tail), Latest(before, target, tail), x)
  }

  function LatestAfter(r: Receiver, latest: map<nat, Payload>, x: Input): map<nat, Payload> {
    if !Offers(r, x) || Late(r.buffer, x.number) then latest
    else if TooFar(r.buffer, x.number) then map[x.number := x.payload]
    else latest[x.number := x.payload]
  }

  /** Every occupied slot holds the latest payload of the number it carries, in that number's place. */
  predicate Holds(b: Buffer, latest: map<nat, Payload>) {
    && |b.slots| == SLOTS
    && forall i :: 0 <= i < SLOTS && b.slots[i].inUse ==>
         var n := b.slots[i].number;
         b.started && n % SLOTS == i && n in latest && latest[n] == b.slots[i].payload
  }

  /** The frames played from `b` on: numbers in order, payloads the latest ones. */
  predicate Faithful(b: Buffer, latest: map<nat, Payload>, frames: seq<Frame>) {
    forall k :: 0 <= k < |frames| ==>
      && frames[k].number == (b.cursor + k) % 0x1_0000
      && (frames[k].Decoded? ==> frames[k].number in latest && frames[k].payload == latest[frames[k].number])
  }

  function Played(r: Receiver, now: int, budget: nat, decoded: seq<int>): seq<Frame>
    requires Sound(r.buffer)
    decreases budget
  {
    if budget == 0 || now < r.buffer.nextPlay then []
    else
      var r1 := PopOne(r, now, At(decoded, BUDGET - budget));
      [NextFrame(r.buffer)] + if r1.buffer.misses >= MAX_MISSES then [] else Played(r1, now, budget - 1, decoded)
  }

  lemma {:induction false} PopOneFrames(r: Receiver, now: int, decoded: int)
    requires Sound(r.buffer)
    ensures PopOne(r, now, decoded).frames == r.frames + [NextFrame(r.buffer)]
    ensures forall q: Receiver :: Drop(q).frames == q.frames
  {
  }

  lemma {:induction false} Associative(a: seq<Frame>, f: Frame, b: seq<Frame>)
    ensures (a + [f]) + b == a + ([f] + b)
  {
  }

  lemma {:induction false} PlayedIsAppended(r: Receiver, now: int, budget: nat, decoded: seq<int>)
    requires Sound(r.buffer)
    ensures Playout(r, now, budget, decoded).frames == r.frames + Played(r, now, budget, decoded)
    decreases budget
  {
    hide Sound, PopOne, Drop, NextFrame, Reset;
    if budget > 0 && now >= r.buffer.nextPlay {
      var r1 := PopOne(r, now, At(decoded, BUDGET - budget));
      PopOneFrames(r, now, At(decoded, BUDGET - budget));
      PlayedIsAppended(r1, now, budget - 1, decoded);
      var rest := if r1.buffer.misses >= MAX_MISSES then [] else Played(r1, now, budget - 1, decoded);
      Associative(r.frames, NextFrame(r.buffer), rest);
    }
  }

  lemma {:induction false} PopHolds(b: Buffer, latest: map<nat, Payload>)
    requires Sound(b) && b.started && Holds(b, latest)
    ensures Holds(Pop(b), latest) && Faithful(b, latest, [NextFrame(b)])
    ensures Holds(Reset(Pop(b)), map[])
  {
  }

  lemma {:induction false} PlayoutHolds(r: Receiver, now: int, budget: nat, decoded: seq<int>, latest: map<nat, Payload>)
    requires Sound(r.buffer) && r.buffer.started && Holds(r.buffer, latest)
    ensures var q := Playout(r, now, budget, decoded);
            Holds(q.buffer, if q.buffer.started then latest else map[])
    ensures Faithful(r.buffer, latest, Played(r, now, budget, decoded))
    decreases budget
  {
    hide Sound, Holds, NextFrame, Faithful;
    if budget > 0 && now >= r.buffer.nextPlay {
      PopHolds(r.buffer, latest);
      var r1 := PopOne(r, now, At(decoded, BUDGET - budget));
      PlayoutHolds(r1, now, budget - 1, decoded, latest);
      if r1.buffer.misses < MAX_MISSES {
        FaithfulCons(r.buffer, latest, NextFrame(r.buffer), Played(r1, now, budget - 1, decoded));
      } else {
        assert [NextFrame(r.buffer)] + [] == [NextFrame(r.buffer)];
      }
    } else {
      NothingPlayed(r.buffer, latest);
    }
  }

  lemma {:induction false} NothingPlayed(b: Buffer, latest: map<nat, Payload>)
    ensures Faithful(b, latest, [])
  {
  }

  lemma {:induction false} FaithfulCons(b: Buffer, latest: map<nat, Payload>, f: Frame, frames: seq<Frame>)
    requires Sound(b) && Faithful(Pop(b), latest, frames) && Faithful(b, latest, [f])
    ensures Faithful(b, latest, [f] + frames)
  {
    var all := [f] + frames;
    forall k | 0 <= k < |all|
      ensures all[k].number == (b.cursor + k) % 0x1_0000
      ensures all[k].Decoded? ==> all[k].number in latest && all[k].payload == latest[all[k].number]
    {
      if k == 0 {
        assert all[0] == [f][0];
      } else {
        assert all[k] == frames[k - 1];
        assert (Pop(b).cursor + (k - 1)) % 0x1_0000 == (b.cursor + k) % 0x1_0000;
      }
    }
  }

  lemma {:induction false} InsertHolds(r: Receiver, target: int, now: int, number: nat, payload: Payload, latest: map<nat, Payload>)
    requires Sound(r.buffer) && number < 0x1_0000 && Holds(r.buffer, latest) && r.active
    ensures Holds(Insert(r.buffer, target, now, number, payload), LatestAfter(r, latest, Packet(now, number, payload)))
  {
    hide Delta;
  }

  lemma {:induction false} StepHolds(r: Receiver, target: int, tail: int, x: Input, latest: map<nat, Payload>)
    requires Sound(r.buffer) && GoodInput(x) && Holds(r.buffer, latest)
    ensures var q := Step(r, target, tail, x);
            Holds(q.buffer, if q.buffer.started then LatestAfter(r, latest, x) else map[])
  {
    hide Delta, Playout, Insert, Late, TooFar;
    match x
    case Packet(now, number, payload) =>
      if r.active {
        InsertHolds(r, target, now, number, payload, latest);
      }
    case Poll(now, decoded) =>
      if r.active && r.buffer.started && !r.muted {
        PlayoutHolds(r, now, BUDGET, decoded, latest);
      }
    case _ =>
  }

  lemma {:induction false} RunHolds(run: seq<Input>, target: int, tail: int)
    requires GoodRun(run)
    ensures Holds(After(run, target, tail).buffer, Latest(run, target, tail))
  {
    hide Step, LatestAfter;
    if run != [] {
      var before := run[..|run| - 1];
      RunHolds(before, target, tail);
      StepHolds(After(before, target, tail), target, tail, run[|run| - 1], Latest(before, target, tail));
    }
  }

  /** Each poll plays consecutive numbers, and a decoded frame is the latest payload of its own number. */
  lemma {:induction false} PollIsFaithful(run: seq<Input>, target: int, tail: int, now: int, decoded: seq<int>)
    requires GoodRun(run)
    requires var r := After(run, target, tail); r.active && r.buffer.started && !r.muted
    ensures var r := After(run, target, tail);
            var played := Played(r, now, BUDGET, decoded);
            && Step(r, target, tail, Poll(now, decoded)).frames == r.frames + played
            && Faithful(r.buffer, Latest(run, target, tail), played)
  {
    var r := After(run, target, tail);
    RunHolds(run, target, tail);
    PlayedIsAppended(r, now, BUDGET, decoded);
    PlayoutHolds(r, now, BUDGET, decoded, Latest(run, target, tail));
  }

  /** Two numbers of one five-slot window share a slot only across the wrap, and then they are 65535 and 0. */
  lemma {:induction false} SlotsCollideOnlyAtTheWrap(cursor: nat, i: nat, j: nat)
    requires cursor < 0x1_0000 && i < j < SLOTS
    ensures var m, n := (cursor + i) % 0x1_0000, (cursor + j) % 0x1_0000;
            m % SLOTS == n % SLOTS <==> m == 0xFFFF && n == 0
  {
    assert 0x1_0000 % SLOTS == 1;
  }

  // ---- Packets from behind the cursor ----

  /** Every packet waiting in `b` still waits in `c`. */
  predicate Keeps(b: Buffer, c: Buffer) {
    |b.slots| == |c.slots| && forall i :: 0 <= i < |b.slots| && b.slots[i].inUse ==> c.slots[i] == b.slots[i]
  }

  predicate GoodPayload(payload: Payload) {
    0 < |payload| <= MAX_PAYLOAD
  }

  /** A buffer at `cursor` with something waiting in every slot. */
  function Full(cursor: nat): Buffer {
    var s := Slot(true, (cursor + 1) % 0x1_0000, [0]);
    Buffer(true, cursor, 0, 0, 0, 0, [s, s, s, s, s])
  }

  /**
   * A packet from behind the cursor leaves whatever waits alone exactly when it is fewer than 200 behind:
   * only those are dropped as late.
   */
  lemma {:induction false} BehindKeepsPendingIff(cursor: nat, number: nat, target: int, now: int, payload: Payload)
    requires cursor < 0x1_0000 && number < 0x1_0000 && GoodPayload(payload) && Delta(number, cursor) < 0
    ensures (forall b :: Sound(b) && b.started && b.cursor == cursor ==> Keeps(b, Insert(b, target, now, number, payload)))
            <==> -200 < Delta(number, cursor)
  {
    hide Delta;
    if Delta(number, cursor) <= -200 {
      BehindDisplaces(cursor, number, target, now, payload);
      assert Sound(Full(cursor)) && Full(cursor).started && Full(cursor).cursor == cursor;
    }
  }

  lemma {:induction false} BehindDisplaces(cursor: nat, number: nat, target: int, now: int, payload: Payload)
    requires cursor < 0x1_0000 && number < 0x1_0000 && GoodPayload(payload) && Delta(number, cursor) <= -200
    ensures Sound(Full(cursor)) && !Keeps(Full(cursor), Insert(Full(cursor), target, now, number, payload))
  {
    var b := Full(cursor);
    var c, i := Insert(b, target, now, number, payload), number % SLOTS;
    assert c.slots[i].number == number && b.slots[i].inUse;
    DeltaIsTheShortWay(number, cursor, 1);
    assert number != (cursor + 1) % 0x1_0000;
    hide Delta;
  }

  /**
   * Exactly 200 behind is neither late nor a jump: the packet is stored, whatever waits in its slot. 200 is a
   * multiple of the slots, so that is the slot of the frame due next, which is then concealed; with a cursor
   * below 200 the number wraps, and it is the frame after next that is concealed.
   */
  lemma {:induction false} TwoHundredBehindSilences(b: Buffer, target: int, now: int, payload: Payload)
    requires Sound(b) && b.started && GoodPayload(payload)
    ensures var c := Insert(b, target, now, (b.cursor - 200) % 0x1_0000, payload);
            if b.cursor >= 200 then NextFrame(c) == Concealed(b.cursor)
            else NextFrame(c) == NextFrame(b) && NextFrame(Pop(c)) == Concealed(b.cursor + 1)
  {
    var n := (b.cursor - 200) % 0x1_0000;
    DeltaIsTheShortWay(n, b.cursor, -200);
    assert n == if b.cursor >= 200 then b.cursor - 200 else b.cursor + 65336;
    assert n % SLOTS == if b.cursor >= 200 then b.cursor % SLOTS else (b.cursor + 1) % SLOTS;
    hide Delta;
  }

  /** Slot `i` of `b` with the packet in it, a packet of another number there counted as pushed out. */
  predicate Stored(b: Buffer, c: Buffer, number: nat, payload: Payload) {
    && |b.slots| == |c.slots| == 5 && c.slots[number % 5] == Slot(true, number, payload) && c.late == b.late
    && c.overflow == b.overflow + if b.slots[number % 5].inUse && b.slots[number % 5].number != number then 1 else 0
  }

  predicate OthersStay(b: Buffer, c: Buffer, number: nat) {
    |b.slots| == |c.slots| && forall i :: 0 <= i < |b.slots| && i != number % 5 ==> c.slots[i] == b.slots[i]
  }

  /**
   * What a packet `d` ahead of the cursor does, or behind it if `d` is negative. From 199 to 1 behind it is
   * counted late and nothing else; up to 200 away otherwise it is stored and playout goes on as it was; any
   * further it empties the buffer and playout starts anew with it, `target` from now.
   */
  lemma {:induction false} PacketByDistance(b: Buffer, d: int, target: int, now: int, payload: Payload)
    requires Sound(b) && b.started && -0x8000 <= d < 0x8000 && 0 < |payload| <= 256
    ensures var number := (b.cursor + d) % 0x1_0000;
            var c := Insert(b, target, now, number, payload);
            if -200 < d < 0 then c == b.(late := b.late + 1)
            else if -200 <= d <= 200 then
              && Stored(b, c, number, payload) && OthersStay(b, c, number)
              && c.started && c.cursor == b.cursor && c.nextPlay == b.nextPlay && c.misses == b.misses
            else
              && c.slots[number % 5] == Slot(true, number, payload) && c.late == b.late && c.overflow == b.overflow
              && (forall i :: 0 <= i < 5 && i != number % 5 ==> !c.slots[i].inUse)
              && c.started && c.cursor == number && c.nextPlay == now + target && c.misses == 0
  {
    DeltaIsTheShortWay((b.cursor + d) % 0x1_0000, b.cursor, d);
    hide Delta;
  }

  /** Out of silence any packet starts playout; an empty or oversized one is never taken. */
  lemma {:induction false} FirstPacket(b: Buffer, number: nat, target: int, now: int, payload: Payload)
    requires Sound(b) && number < 0x1_0000
    ensures var c := Insert(b, target, now, number, payload);
            if |payload| == 0 || |payload| > 256 then c == b
            else !b.started ==>
                   && Stored(b, c, number, payload) && OthersStay(b, c, number)
                   && c.started && c.cursor == number && c.nextPlay == now + target
  {
    hide Delta;
  }

  // ---- Streams ----

  /**
   * What has happened since playout last started: the sequence number it started at, the number of frames
   * played before, and the packets stored, by their place in a stream that counts on without wrapping.
   * `last` is which of 0 and 65535 was stored last.
   */
  datatype Stream = Stream(first: int, base: nat, arrived: set<int>, last: Option<nat>)

  /** What 16 bits show of a place in the stream. */
  function Wire(j: int): (n: nat)
    ensures n < 0x1_0000
  {
    j % 0x1_0000
  }

  function Ahead(number: nat, cursor: nat): (d: nat)
    ensures d < 0x1_0000
  {
    (number - cursor) % 0x1_0000
  }

  predicate Twin(number: nat) {
    number == 0 || number == 0xFFFF
  }

  function LastTwin(last: Option<nat>, number: nat): Option<nat> {
    if Twin(number) then Some(number) else last
  }

  /** The place in the stream that is due next. */
  function Position(r: Receiver, s: Stream): int {
    s.first + |r.frames| - s.base
  }

  /** The packet starts playout, out of silence or by a far jump. */
  predicate Starts(r: Receiver, x: Input) {
    Offers(r, x) && (!r.buffer.started || TooFar(r.buffer, x.number))
  }

  function Follow(r: Receiver, s: Stream, x: Input): Stream {
    if !Offers(r, x) then s
    else if Starts(r, x) then Stream(x.number, |r.frames|, {x.number as int}, LastTwin(None, x.number))
    else if Late(r.buffer, x.number) then s
    else
      s.(arrived := s.arrived + {Position(r, s) + Ahead(x.number, r.buffer.cursor)}, last := LastTwin(s.last, x.number))
  }

  function StreamOf(run: seq<Input>, target: int, tail: int): Stream
    requires GoodRun(run)
  {
    if run == [] then Stream(0, 0, {}, None)
    else
      var before := run[..|run| - 1];
      Follow(After(before, target, tail), StreamOf(before, target, tail), run[|run| - 1])
  }

  /** The frames since the start carry consecutive numbers, and the cursor is the next. */
  predicate Numbered(r: Receiver, s: Stream) {
    && s.base <= |r.frames|
    && (forall i :: s.base <= i < |r.frames| ==> r.frames[i].number == Wire(s.first + i - s.base))
    && (r.buffer.started ==> r.buffer.cursor == Wire(Position(r, s)))
  }

  lemma {:induction false} NextWire(j: int)
    ensures Wire(j + 1) == (Wire(j) + 1) % 0x1_0000
  {
  }

  lemma {:induction false} PopOneNumbered(r: Receiver, s: Stream, now: int, decoded: int)
    requires Sound(r.buffer) && r.buffer.started && Numbered(r, s)
    ensures var q := PopOne(r, now, decoded); Numbered(q, s) && q.buffer.started
  {
    hide Wire;
    NextWire(Position(r, s));
  }

  lemma {:induction false} PlayoutNumbered(r: Receiver, s: Stream, now: int, budget: nat, decoded: seq<int>)
    requires Sound(r.buffer) && r.buffer.started && Numbered(r, s)
    ensures Numbered(Playout(r, now, budget, decoded), s)
    decreases budget
  {
    hide Sound, PopOne, Wire;
    if budget > 0 && now >= r.buffer.nextPlay {
      PopOneNumbered(r, s, now, At(decoded, BUDGET - budget));
      PlayoutNumbered(PopOne(r, now, At(decoded, BUDGET - budget)), s, now, budget - 1, decoded);
    }
  }

  lemma {:induction false} StepNumbered(r: Receiver, s: Stream, target: int, tail: int, x: Input)
    requires Sound(r.buffer) && GoodInput(x) && Numbered(r, s)
    ensures Numbered(Step(r, target, tail, x), Follow(r, s, x))
  {
    hide Delta, Playout, Ahead;
    if x.Poll? && r.active && r.buffer.started && !r.muted {
      PlayoutNumbered(r, s, x.now, BUDGET, x.decoded);
    }
    if Starts(r, x) { assert Wire(x.number) == x.number; }
    hide Wire;
  }

  /** Over every run the frames since playout last started carry its number, the next, and so on. */
  lemma {:induction false} CursorsAreConsecutive(run: seq<Input>, target: int, tail: int)
    requires GoodRun(run)
    ensures Numbered(After(run, target, tail), StreamOf(run, target, tail))
  {
    hide Step, Follow, Numbered;
    if run == [] {
      NothingNumbered();
    } else {
      var before := run[..|run| - 1];
      CursorsAreConsecutive(before, target, tail);
      StepNumbered(After(before, target, tail), StreamOf(before, target, tail), target, tail, run[|run| - 1]);
    }
  }

  lemma {:induction false} NothingNumbered()
    ensures Numbered(INITIAL, Stream(0, 0, {}, None))
  {
  }

  /** Frame `k` was played by step `j` of the run. */
  predicate PlayedAt(run: seq<Input>, target: int, tail: int, j: nat, k: nat)
    requires GoodRun(run)
  {
    j < |run| && |After(run[..j], target, tail).frames| <= k < |After(run[..j + 1], target, tail).frames|
  }

  /** It holds the payload stored last for its number when it was played, counting from the last reset. */
  predicate LatestThen(run: seq<Input>, target: int, tail: int, j: nat, f: Frame)
    requires GoodRun(run)
  {
    j <= |run|
    && var latest := Latest(run[..j], target, tail);
       f.Decoded? ==> f.number in latest && f.payload == latest[f.number]
  }

  lemma {:induction false} FramesGrow(r: Receiver, target: int, tail: int, x: Input)
    requires Sound(r.buffer) && GoodInput(x)
    ensures Step(r, target, tail, x).frames
            == r.frames + (if x.Poll? && r.active && r.buffer.started && !r.muted
                           then Played(r, x.now, BUDGET, x.decoded) else [])
  {
    hide Sound, Insert, Reset, Playout, Played;
    if x.Poll? && r.active && r.buffer.started && !r.muted {
      PlayedIsAppended(r, x.now, BUDGET, x.decoded);
    } else {
      assert r.frames + [] == r.frames;
    }
  }

  /** Over every run each decoded frame is the latest payload stored for exactly its number. */
  lemma {:induction false} DeliveryIsFaithful(run: seq<Input>, target: int, tail: int, k: nat)
    requires GoodRun(run) && k < |After(run, target, tail).frames|
    ensures exists j: nat ::
              PlayedAt(run, target, tail, j, k) && LatestThen(run, target, tail, j, After(run, target, tail).frames[k])
  {
    hide Step, Latest, Sound, LatestThen, PlayedAt;
    var before, x := run[..|run| - 1], run[|run| - 1];
    var r := After(before, target, tail);
    FramesGrow(r, target, tail, x);
    if k < |r.frames| {
      DeliveryIsFaithful(before, target, tail, k);
      var j: nat :| PlayedAt(before, target, tail, j, k) && LatestThen(before, target, tail, j, r.frames[k]);
      EarlierStep(run, target, tail, j, k);
    } else {
      LastStepPlays(run, target, tail, k);
    }
  }

  lemma {:induction false} EarlierStep(run: seq<Input>, target: int, tail: int, j: nat, k: nat)
    requires GoodRun(run) && run != []
    requires var before := run[..|run| - 1];
             && PlayedAt(before, target, tail, j, k) && k < |After(before, target, tail).frames|
             && LatestThen(before, target, tail, j, After(before, target, tail).frames[k])
             && After(before, target, tail).frames <= After(run, target, tail).frames
    ensures PlayedAt(run, target, tail, j, k) && LatestThen(run, target, tail, j, After(run, target, tail).frames[k])
  {
    hide Step, Latest, After;
    var before := run[..|run| - 1];
    assert before[..j] == run[..j] && before[..j + 1] == run[..j + 1];
  }

  lemma {:induction false} LastStepPlays(run: seq<Input>, target: int, tail: int, k: nat)
    requires GoodRun(run) && run != []
    requires |After(run[..|run| - 1], target, tail).frames| <= k < |After(run, target, tail).frames|
    ensures var j := |run| - 1;
            PlayedAt(run, target, tail, j, k) && LatestThen(run, target, tail, j, After(run, target, tail).frames[k])
  {
    hide Step, Latest, Sound, Played;
    var before, x := run[..|run| - 1], run[|run| - 1];
    var r, j := After(before, target, tail), |before|;
    assert run[..j] == before && run[..j + 1] == run;
    FramesGrow(r, target, tail, x);
    PollIsFaithful(before, target, tail, x.now, x.decoded);
  }

  // ---- When everything sent is played ----

  /** A sender's stream: the payload at each place. */
  type Sender = int -> Payload

  /** A packet that is not late is at most four ahead of the cursor and carries what was sent. */
  predicate OnTime(r: Receiver, s: Stream, x: Input, sent: Sender) {
    Offers(r, x) && r.buffer.started && !Late(r.buffer, x.number) ==>
      var d := Ahead(x.number, r.buffer.cursor);
      d <= 4 && x.payload == sent(Position(r, s) + d)
  }

  /** Since playout last started every packet was on time. */
  predicate Kept(run: seq<Input>, target: int, tail: int, sent: Sender)
    requires GoodRun(run)
  {
    run != []
    && var before, x := run[..|run| - 1], run[|run| - 1];
       var r := After(before, target, tail);
       if Starts(r, x) then x.payload == sent(x.number)
       else Kept(before, target, tail, sent) && OnTime(r, StreamOf(before, target, tail), x, sent)
  }

  /** The place `j` falls due by `now` when the place `at` is due at `nextPlay`. */
  predicate Due(nextPlay: int, at: int, j: int, now: int) {
    nextPlay + FRAME_MS * (j - at) <= now
  }

  /** Stored, and not pushed out: of 65535 and 0, which share a slot, the one stored last stays. */
  predicate Ready(s: Stream, j: int) {
    j in s.arrived && (Twin(Wire(j)) ==> s.last == Some(Wire(j)))
  }

  predicate AllReady(s: Stream, nextPlay: int, at: int, now: int, budget: nat) {
    forall j :: at <= j < at + budget && Due(nextPlay, at, j, now) ==> Ready(s, j)
  }

  predicate Plays(r: Receiver, x: Input) {
    x.Poll? && r.active && r.buffer.started && !r.muted
  }

  /** Since playout last started every packet was ready when it fell due. */
  predicate Prompt(run: seq<Input>, target: int, tail: int)
    requires GoodRun(run)
  {
    run == []
    || var before, x := run[..|run| - 1], run[|run| - 1];
       var r, s := After(before, target, tail), StreamOf(before, target, tail);
       Starts(r, x)
       || (Prompt(before, target, tail)
           && (Plays(r, x) ==> AllReady(s, r.buffer.nextPlay, Position(r, s), x.now, BUDGET)))
  }

  /** The frame that the place `j` should give. */
  function SentFrame(j: int, sent: Sender): Frame {
    Decoded(Wire(j), sent(j))
  }

  /** The frames are what was sent at the places from `at` on. */
  predicate SentFrom(frames: seq<Frame>, at: int, sent: Sender) {
    forall k :: 0 <= k < |frames| ==> frames[k] == SentFrame(at + k, sent)
  }

  /** The frames since the start are what was sent, each and in order, with nothing concealed. */
  predicate Delivered(r: Receiver, s: Stream, sent: Sender) {
    s.base <= |r.frames| && SentFrom(r.frames[s.base..], s.first, sent)
  }

  predicate Holding(b: Buffer, number: nat)
    requires |b.slots| == SLOTS
  {
    b.slots[number % SLOTS].inUse && b.slots[number % SLOTS].number == number
  }

  /** From the place `at` on, the five-slot window holds exactly the packets that are ready. */
  predicate Pending(b: Buffer, s: Stream, at: int, sent: Sender) {
    && |b.slots| == SLOTS
    && (forall j :: j in s.arrived ==> j <= at + 4)
    && (forall i :: 0 <= i < SLOTS && b.slots[i].inUse ==>
          b.slots[i].number < 0x1_0000 && b.slots[i].number % SLOTS == i && Ahead(b.slots[i].number, Wire(at)) <= 4)
    && (forall j :: at <= j <= at + 4 ==>
          && (Holding(b, Wire(j)) <==> Ready(s, j))
          && (Ready(s, j) ==> b.slots[Wire(j) % SLOTS].payload == sent(j)))
  }

  lemma {:induction false} WireAhead(at: int, d: nat)
    requires d < 0x1_0000
    ensures Ahead(Wire(at + d), Wire(at)) == d
    ensures Wire(at + d) == (Wire(at) + d) % 0x1_0000
  {
  }

  lemma {:induction false} AheadWire(at: int, number: nat)
    requires number < 0x1_0000
    ensures Wire(at + Ahead(number, Wire(at))) == number
  {
  }

  lemma {:induction false} WindowSlots(at: int, j: int, k: int)
    requires at <= j <= at + 4 && at <= k <= at + 4 && j != k
    ensures Wire(j) != Wire(k)
    ensures Wire(j) % SLOTS == Wire(k) % SLOTS <==> Twin(Wire(j)) && Twin(Wire(k))
  {
    WireAhead(at, j - at);
    WireAhead(at, k - at);
    if j < k {
      SlotsCollideOnlyAtTheWrap(Wire(at), j - at, k - at);
    } else {
      SlotsCollideOnlyAtTheWrap(Wire(at), k - at, j - at);
    }
  }

  // ---- The window is kept ----

  lemma {:induction false} StartPends(b: Buffer, s: Stream, number: nat, payload: Payload, sent: Sender)
    requires Sound(b) && number < 0x1_0000 && b.started && b.cursor == number
    requires forall i :: 0 <= i < SLOTS ==> !b.slots[i].inUse
    requires s.first == number && s.arrived == {number as int} && s.last == LastTwin(None, number) && payload == sent(number)
    ensures Pending(Store(b, number, payload), s, number, sent)
  {
    var c := Store(b, number, payload);
    assert Wire(number) == number;
    WireAhead(number, 0);
    forall j | number < j <= number + 4
      ensures !Holding(c, Wire(j)) && !Ready(s, j)
    {
      WindowSlots(number, j, number);
    }
  }

  lemma {:induction false} StorePends(b: Buffer, s: Stream, at: int, number: nat, payload: Payload, sent: Sender)
    requires Sound(b) && Pending(b, s, at, sent) && number < 0x1_0000 && Ahead(number, Wire(at)) <= 4
    requires payload == sent(at + Ahead(number, Wire(at)))
    ensures var k := at + Ahead(number, Wire(at));
            var t := s.(arrived := s.arrived + {k}, last := LastTwin(s.last, number));
            Pending(Store(b, number, payload), t, at, sent)
  {
    hide Wire, Ahead, Twin;
    var k := at + Ahead(number, Wire(at));
    var t := s.(arrived := s.arrived + {k}, last := LastTwin(s.last, number));
    var c := Store(b, number, payload);
    AheadWire(at, number);
    forall j | at <= j <= at + 4
      ensures Holding(c, Wire(j)) <==> Ready(t, j)
      ensures Ready(t, j) ==> c.slots[Wire(j) % SLOTS].payload == sent(j)
    {
      if j != k {
        WindowSlots(at, j, k);
        OtherStays(b, s, at, j, number, payload, k);
      }
    }
  }

  /** Storing `number` leaves another packet of the window alone, but for its twin, which it pushes out. */
  lemma {:induction false} OtherStays(b: Buffer, s: Stream, at: int, j: int, number: nat, payload: Payload, k: int)
    requires Sound(b) && number < 0x1_0000 && number == Wire(k) && Wire(j) != number && j != k
    requires Wire(j) % SLOTS == number % SLOTS <==> Twin(Wire(j)) && Twin(number)
    requires Holding(b, Wire(j)) <==> Ready(s, j)
    ensures var t := s.(arrived := s.arrived + {k}, last := LastTwin(s.last, number));
            var c := Store(b, number, payload);
            && (Holding(c, Wire(j)) <==> Ready(t, j))
            && (Ready(t, j) ==> Ready(s, j) && c.slots[Wire(j) % SLOTS] == b.slots[Wire(j) % SLOTS])
  {
    hide Wire, Twin;
  }

  lemma {:induction false} PopPends(b: Buffer, s: Stream, at: int, sent: Sender)
    requires Sound(b) && Pending(b, s, at, sent) && b.cursor == Wire(at) && Ready(s, at)
    ensures NextFrame(b) == Decoded(Wire(at), sent(at)) && Pop(b).misses == 0
    ensures Pending(Pop(b), s, at + 1, sent) && Pop(b).cursor == Wire(at + 1)
  {
    hide Wire, Ahead, Twin, Ready;
    assert Holding(b, Wire(at));
    NextWire(at);
    var c := Pop(b);
    forall i | 0 <= i < SLOTS && c.slots[i].inUse
      ensures Ahead(c.slots[i].number, Wire(at + 1)) <= 4
    {
      NotTheCursor(b, s, at, i, sent);
    }
    forall j | at + 1 <= j <= at + 5
      ensures Holding(c, Wire(j)) <==> Ready(s, j)
      ensures Ready(s, j) ==> c.slots[Wire(j) % SLOTS].payload == sent(j)
    {
      if j <= at + 4 {
        PopLeaves(b, s, at, j, sent);
      } else {
        BeyondTheWindow(b, s, at, sent);
      }
    }
  }

  /** What is left in use after a pop is in the window that has moved on. */
  lemma {:induction false} NotTheCursor(b: Buffer, s: Stream, at: int, i: nat, sent: Sender)
    requires Sound(b) && Pending(b, s, at, sent) && b.cursor == Wire(at) && Holding(b, Wire(at))
    requires i < SLOTS && Pop(b).slots[i].inUse
    ensures Pop(b).slots[i] == b.slots[i] && Ahead(b.slots[i].number, Wire(at + 1)) <= 3
  {
    var n := b.slots[i].number;
    assert i != Wire(at) % SLOTS;
    AheadWire(at, n);
    var d := Ahead(n, Wire(at));
    assert d != 0;
    WireAhead(at + 1, d - 1);
  }

  lemma {:induction false} PopLeaves(b: Buffer, s: Stream, at: int, j: int, sent: Sender)
    requires Sound(b) && Pending(b, s, at, sent) && b.cursor == Wire(at) && Ready(s, at) && at < j <= at + 4
    ensures Holding(Pop(b), Wire(j)) <==> Ready(s, j)
    ensures Ready(s, j) ==> Pop(b).slots[Wire(j) % SLOTS].payload == sent(j)
  {
    WindowSlots(at, j, at);
    hide Wire, Ahead;
    assert Holding(b, Wire(at)) && (Holding(b, Wire(j)) <==> Ready(s, j));
  }

  lemma {:induction false} BeyondTheWindow(b: Buffer, s: Stream, at: int, sent: Sender)
    requires Sound(b) && Pending(b, s, at, sent) && b.cursor == Wire(at) && Holding(b, Wire(at))
    ensures !Holding(Pop(b), Wire(at + 5)) && !Ready(s, at + 5)
  {
    hide Twin;
    var n := Wire(at + 5);
    WireAhead(at, 5);
    if Holding(Pop(b), n) {
      NotTheCursor(b, s, at, n % SLOTS, sent);
    }
  }

  lemma {:induction false} NotReadyIsConcealed(b: Buffer, s: Stream, at: int, sent: Sender)
    requires Sound(b) && Pending(b, s, at, sent) && b.cursor == Wire(at) && !Ready(s, at)
    ensures NextFrame(b) == Concealed(Wire(at))
  {
    hide Wire, Ready;
    assert !Holding(b, Wire(at));
  }

  lemma {:induction false} SentAppends(a: seq<Frame>, b: seq<Frame>, at: int, sent: Sender)
    ensures SentFrom(a + b, at, sent) <==> SentFrom(a, at, sent) && SentFrom(b, at + |a|, sent)
  {
    hide SentFrame;
    var all := a + b;
    if SentFrom(all, at, sent) {
      assert forall k :: 0 <= k < |a| ==> a[k] == all[k];
      forall k | 0 <= k < |b|
        ensures b[k] == SentFrame(at + |a| + k, sent)
      {
        assert all[|a| + k] == SentFrame(at + (|a| + k), sent);
      }
    }
    if SentFrom(a, at, sent) && SentFrom(b, at + |a|, sent) {
      forall k | 0 <= k < |all|
        ensures all[k] == SentFrame(at + k, sent)
      {
        if k >= |a| { assert b[k - |a|] == SentFrame(at + |a| + (k - |a|), sent); }
      }
    }
  }

  lemma {:induction false} SentCons(f: Frame, frames: seq<Frame>, at: int, sent: Sender)
    ensures SentFrom([f] + frames, at, sent) <==> f == SentFrame(at, sent) && SentFrom(frames, at + 1, sent)
  {
    hide SentFrame;
    SentAppends([f], frames, at, sent);
    assert SentFrom([f], at, sent) <==> [f][0] == SentFrame(at + 0, sent);
  }

  lemma {:induction false} AllReadyCons(s: Stream, nextPlay: int, at: int, now: int, budget: nat)
    requires budget > 0 && nextPlay <= now
    ensures AllReady(s, nextPlay, at, now, budget)
            <==> Ready(s, at) && AllReady(s, nextPlay + FRAME_MS, at + 1, now, budget - 1)
  {
    hide Ready;
    assert forall j :: Due(nextPlay, at, j, now) <==> Due(nextPlay + FRAME_MS, at + 1, j, now);
  }

  /** A poll plays what was sent exactly when every packet was ready in time, and then the window is kept. */
  lemma {:induction false} PlayoutDelivers(r: Receiver, s: Stream, at: int, now: int, budget: nat, decoded: seq<int>, sent: Sender)
    requires Sound(r.buffer) && r.buffer.started && r.buffer.cursor == Wire(at) && Pending(r.buffer, s, at, sent)
    ensures var played := Played(r, now, budget, decoded);
            && (SentFrom(played, at, sent) <==> AllReady(s, r.buffer.nextPlay, at, now, budget))
            && (SentFrom(played, at, sent) ==> Pending(Playout(r, now, budget, decoded).buffer, s, at + |played|, sent))
    decreases budget
  {
    hide Sound, Pending, NextFrame, Ready, AllReady, SentFrom, Wire, Pop, PopOne, At;
    if budget > 0 && now >= r.buffer.nextPlay {
      AllReadyCons(s, r.buffer.nextPlay, at, now, budget);
      var d := At(decoded, BUDGET - budget);
      var r1 := PopOne(r, now, d);
      PoppedBuffer(r, now, d);
      var rest := if r1.buffer.misses >= MAX_MISSES then [] else Played(r1, now, budget - 1, decoded);
      SentCons(NextFrame(r.buffer), rest, at, sent);
      if Ready(s, at) {
        PopPends(r.buffer, s, at, sent);
        PlayoutDelivers(r1, s, at + 1, now, budget - 1, decoded, sent);
      } else {
        NotReadyIsConcealed(r.buffer, s, at, sent);
      }
    } else {
      NothingDue(s, r.buffer.nextPlay, at, now, budget, sent);
    }
  }

  lemma {:induction false} PoppedBuffer(r: Receiver, now: int, decoded: int)
    requires Sound(r.buffer)
    ensures PopOne(r, now, decoded).buffer == Pop(r.buffer)
    ensures Pop(r.buffer).started == r.buffer.started && Pop(r.buffer).nextPlay == r.buffer.nextPlay + FRAME_MS
  {
  }

  lemma {:induction false} NothingDue(s: Stream, nextPlay: int, at: int, now: int, budget: nat, sent: Sender)
    requires budget == 0 || now < nextPlay
    ensures AllReady(s, nextPlay, at, now, budget) && SentFrom([], at, sent)
  {
  }

  // ---- Runs ----

  /** What a run keeps: delivered so far exactly when prompt so far, and then the window is in order. */
  predicate InStep(r: Receiver, s: Stream, prompt: bool, sent: Sender) {
    && (Delivered(r, s, sent) <==> prompt)
    && (prompt && r.buffer.started ==> Pending(r.buffer, s, Position(r, s), sent))
  }

  lemma {:induction false} StartInStep(r: Receiver, s: Stream, target: int, tail: int, x: Input, sent: Sender)
    requires Sound(r.buffer) && GoodInput(x) && Starts(r, x) && x.payload == sent(x.number)
    requires !r.buffer.started ==> forall i :: 0 <= i < SLOTS ==> !r.buffer.slots[i].inUse
    ensures InStep(Step(r, target, tail, x), Follow(r, s, x), true, sent)
  {
    hide Delta, Pending;
    var b := if r.buffer.started then Reset(r.buffer) else r.buffer;
    StartPends(StartAt(b, x.number, x.now + target), Follow(r, s, x), x.number, x.payload, sent);
  }

  lemma {:induction false} OnTimeIsNear(b: Buffer, number: nat)
    requires Sound(b) && number < 0x1_0000 && Ahead(number, b.cursor) <= 4
    ensures !Late(b, number) && !TooFar(b, number)
  {
    DeltaIsTheShortWay(number, b.cursor, Ahead(number, b.cursor));
  }

  lemma {:induction false} PacketInStep(r: Receiver, s: Stream, target: int, tail: int, x: Input, prompt: bool, sent: Sender)
    requires Sound(r.buffer) && GoodInput(x) && x.Packet? && !Starts(r, x) && OnTime(r, s, x, sent)
    requires Numbered(r, s) && InStep(r, s, prompt, sent)
    ensures InStep(Step(r, target, tail, x), Follow(r, s, x), prompt, sent)
  {
    hide Delta, Pending, Ahead, Wire, Store;
    if Offers(r, x) && !Late(r.buffer, x.number) {
      OnTimeIsNear(r.buffer, x.number);
      StoreChanges(r.buffer, x.number, x.payload);
      if prompt { StorePends(r.buffer, s, Position(r, s), x.number, x.payload, sent); }
    } else if Offers(r, x) && prompt {
      LateLeaves(r.buffer, s, Position(r, s), sent);
    }
  }

  lemma {:induction false} StoreChanges(b: Buffer, number: nat, payload: Payload)
    requires Sound(b) && number < 0x1_0000
    ensures Store(b, number, payload).started == b.started
  {
  }

  lemma {:induction false} LateLeaves(b: Buffer, s: Stream, at: int, sent: Sender)
    requires Pending(b, s, at, sent)
    ensures Pending(b.(late := b.late + 1), s, at, sent)
  {
  }

  lemma {:induction false} DeliveredAppends(r: Receiver, q: Receiver, played: seq<Frame>, s: Stream, sent: Sender)
    requires q.frames == r.frames + played && s.base <= |r.frames|
    ensures Delivered(q, s, sent) <==> Delivered(r, s, sent) && SentFrom(played, Position(r, s), sent)
  {
    hide SentFrom;
    assert q.frames[s.base..] == r.frames[s.base..] + played;
    SentAppends(r.frames[s.base..], played, s.first, sent);
  }

  lemma {:induction false} PollInStep(r: Receiver, s: Stream, target: int, tail: int, x: Input, prompt: bool, sent: Sender)
    requires Sound(r.buffer) && Plays(r, x) && Numbered(r, s) && InStep(r, s, prompt, sent)
    ensures InStep(Step(r, target, tail, x), s,
                   prompt && AllReady(s, r.buffer.nextPlay, Position(r, s), x.now, BUDGET), sent)
  {
    hide Delivered, Pending, AllReady, SentFrom, Played, Playout, Wire, Sound;
    var at, q := Position(r, s), Step(r, target, tail, x);
    var played := Played(r, x.now, BUDGET, x.decoded);
    FramesGrow(r, target, tail, x);
    DeliveredAppends(r, q, played, s, sent);
    PollKeepsBuffer(r, target, tail, x);
    if prompt {
      PlayoutDelivers(r, s, at, x.now, BUDGET, x.decoded, sent);
    }
  }

  lemma {:induction false} PollKeepsBuffer(r: Receiver, target: int, tail: int, x: Input)
    requires Sound(r.buffer) && Plays(r, x)
    ensures Step(r, target, tail, x).buffer == Playout(r, x.now, BUDGET, x.decoded).buffer
  {
    hide Playout, Sound;
  }

  lemma {:induction false} OtherInStep(r: Receiver, s: Stream, target: int, tail: int, x: Input, prompt: bool, sent: Sender)
    requires Sound(r.buffer) && GoodInput(x) && !x.Packet? && !Plays(r, x) && InStep(r, s, prompt, sent)
    ensures InStep(Step(r, target, tail, x), Follow(r, s, x), prompt, sent)
  {
    hide Pending, Wire, Playout, Clear;
  }

  lemma {:induction false} SilentIsEmpty(b: Buffer, latest: map<nat, Payload>)
    requires Holds(b, latest) && !b.started
    ensures forall i :: 0 <= i < SLOTS ==> !b.slots[i].inUse
  {
  }

  lemma {:induction false} RunInStep(run: seq<Input>, target: int, tail: int, sent: Sender)
    requires GoodRun(run) && Kept(run, target, tail, sent)
    ensures InStep(After(run, target, tail), StreamOf(run, target, tail), Prompt(run, target, tail), sent)
  {
    hide Step, Follow, InStep, Numbered, AllReady, Starts, Plays, OnTime, Holds, Latest, Sound;
    var before, x := run[..|run| - 1], run[|run| - 1];
    var r, s := After(before, target, tail), StreamOf(before, target, tail);
    if Starts(r, x) {
      RunHolds(before, target, tail);
      if !r.buffer.started { SilentIsEmpty(r.buffer, Latest(before, target, tail)); }
      StartInStep(r, s, target, tail, x, sent);
    } else {
      RunInStep(before, target, tail, sent);
      CursorsAreConsecutive(before, target, tail);
      var prompt := Prompt(before, target, tail);
      if Plays(r, x) {
        PlaysIsPoll(r, s, x);
        PollInStep(r, s, target, tail, x, prompt, sent);
      } else if x.Packet? {
        PacketInStep(r, s, target, tail, x, prompt, sent);
      } else {
        OtherInStep(r, s, target, tail, x, prompt, sent);
      }
    }
  }

  lemma {:induction false} PlaysIsPoll(r: Receiver, s: Stream, x: Input)
    requires Plays(r, x)
    ensures Follow(r, s, x) == s
  {
  }

  /**
   * Over whole runs, across the wrap too: let every packet since playout started be late or at most four
   * ahead of the cursor and carry what the sender sent. Then what has been played since is the sent stream,
   * each packet in its place and nothing concealed, exactly when each packet was ready when it fell due:
   * stored, and if it is 65535 or 0, stored after the other of the two.
   */
  lemma {:induction false} StreamIsDeliveredIffPrompt(run: seq<Input>, target: int, tail: int, sent: Sender)
    requires GoodRun(run) && Kept(run, target, tail, sent)
    ensures Delivered(After(run, target, tail), StreamOf(run, target, tail), sent) <==> Prompt(run, target, tail)
  {
    hide After, StreamOf, Kept, Prompt, Delivered;
    RunInStep(run, target, tail, sent);
  }

  // ---- Short of the wrap ----

  /** What has been stored lies between the start and four past the place due next. */
  predicate Placed(r: Receiver, s: Stream) {
    && s.base <= |r.frames| && 0 <= s.first
    && forall j :: j in s.arrived ==> s.first <= j <= Position(r, s) + 4
  }

  predicate BeforeWrap(s: Stream) {
    forall j :: j in s.arrived ==> j < 0x1_0000
  }

  /** Of 65535 and 0, the one stored last is the later in the stream. */
  predicate LastFits(s: Stream) {
    s.last == if 0xFFFF in s.arrived then Some(0xFFFF) else if 0 in s.arrived then Some(0) else None
  }

  lemma {:induction false} StartPlaced(r: Receiver, s: Stream, target: int, tail: int, x: Input)
    requires Sound(r.buffer) && GoodInput(x) && Starts(r, x)
    ensures Placed(Step(r, target, tail, x), Follow(r, s, x)) && LastFits(Follow(r, s, x))
  {
    hide Insert;
  }

  lemma {:induction false} StepPlaced(r: Receiver, s: Stream, target: int, tail: int, x: Input, sent: Sender)
    requires Sound(r.buffer) && GoodInput(x) && !Starts(r, x) && OnTime(r, s, x, sent)
    requires Numbered(r, s) && Placed(r, s) && (BeforeWrap(s) ==> LastFits(s))
    ensures var t := Follow(r, s, x);
            && Placed(Step(r, target, tail, x), t)
            && s.arrived <= t.arrived
            && (BeforeWrap(t) ==> LastFits(t))
  {
    hide Step, Delta, Played, Sound;
    FramesGrow(r, target, tail, x);
    if Offers(r, x) && !Late(r.buffer, x.number) {
      AheadWire(Position(r, s), x.number);
    }
  }

  lemma {:induction false} RunPlaced(run: seq<Input>, target: int, tail: int, sent: Sender)
    requires GoodRun(run) && Kept(run, target, tail, sent)
    ensures var r, s := After(run, target, tail), StreamOf(run, target, tail);
            Placed(r, s) && (BeforeWrap(s) ==> LastFits(s))
  {
    hide Step, Follow, Numbered, Starts, OnTime, Placed, LastFits, BeforeWrap;
    var before, x := run[..|run| - 1], run[|run| - 1];
    var r, s := After(before, target, tail), StreamOf(before, target, tail);
    if Starts(r, x) {
      StartPlaced(r, s, target, tail, x);
    } else {
      RunPlaced(before, target, tail, sent);
      CursorsAreConsecutive(before, target, tail);
      StepPlaced(r, s, target, tail, x, sent);
    }
  }

  predicate AllStored(s: Stream, nextPlay: int, at: int, now: int, budget: nat) {
    forall j :: at <= j < at + budget && Due(nextPlay, at, j, now) ==> j in s.arrived
  }

  /** Since playout last started every packet had been stored when it fell due. */
  predicate Supplied(run: seq<Input>, target: int, tail: int)
    requires GoodRun(run)
  {
    run == []
    || var before, x := run[..|run| - 1], run[|run| - 1];
       var r, s := After(before, target, tail), StreamOf(before, target, tail);
       Starts(r, x)
       || (Supplied(before, target, tail)
           && (Plays(r, x) ==> AllStored(s, r.buffer.nextPlay, Position(r, s), x.now, BUDGET)))
  }

  lemma {:induction false} StoredIsReady(r: Receiver, s: Stream, now: int)
    requires Placed(r, s) && BeforeWrap(s) && LastFits(s)
    requires AllStored(s, r.buffer.nextPlay, Position(r, s), now, BUDGET)
    ensures AllReady(s, r.buffer.nextPlay, Position(r, s), now, BUDGET)
  {
    hide Due;
    forall j | j in s.arrived && j >= Position(r, s)
      ensures Ready(s, j)
    {
      assert Wire(j) == j;
    }
  }

  lemma {:induction false} SuppliedIsPrompt(run: seq<Input>, target: int, tail: int, sent: Sender)
    requires GoodRun(run) && Kept(run, target, tail, sent) && BeforeWrap(StreamOf(run, target, tail))
    requires Supplied(run, target, tail)
    ensures Prompt(run, target, tail)
  {
    hide Step, Numbered, Starts, OnTime, Placed, LastFits, AllStored, AllReady, Plays;
    var before, x := run[..|run| - 1], run[|run| - 1];
    var r, s := After(before, target, tail), StreamOf(before, target, tail);
    if !Starts(r, x) {
      assert s.arrived <= StreamOf(run, target, tail).arrived;
      SuppliedIsPrompt(before, target, tail, sent);
      RunPlaced(before, target, tail, sent);
      if Plays(r, x) { StoredIsReady(r, s, x.now); }
    }
  }

  /**
   * On a run that does not cross from 65535 to 0: if since playout started every packet was late or at most
   * four ahead and is the sender's, and each had been stored when it fell due, then what has been played is
   * the sent stream from the starting number on, in order, every packet once and nothing concealed.
   */
  lemma {:induction false} SentStreamIsPlayed(run: seq<Input>, target: int, tail: int, sent: Sender)
    requires GoodRun(run) && Kept(run, target, tail, sent) && BeforeWrap(StreamOf(run, target, tail))
    requires Supplied(run, target, tail)
    ensures var r, s := After(run, target, tail), StreamOf(run, target, tail);
            && s.base <= |r.frames|
            && forall i :: s.base <= i < |r.frames| ==>
                 var j := s.first + i - s.base;
                 r.frames[i] == Decoded(Wire(j), sent(j))
  {
    hide After, StreamOf, Kept, Prompt, Supplied, BeforeWrap, Wire;
    SuppliedIsPrompt(run, target, tail, sent);
    StreamIsDeliveredIffPrompt(run, target, tail, sent);
    var r, s := After(run, target, tail), StreamOf(run, target, tail);
    forall i | s.base <= i < |r.frames|
      ensures r.frames[i] == SentFrame(s.first + i - s.base, sent)
    {
      assert r.frames[s.base..][i - s.base] == SentFrame(s.first + (i - s.base), sent);
    }
  }

  // ---- At the wrap ----

  /** A session, 65535, then 0 while 65535 is still waiting, and a poll when 65535 falls due. */
  function WrapRun(target: nat): seq<Input> {
    [SessionUp(0), Packet(0, 0xFFFF, [1]), Packet(0, 0, [2]), Poll(target, [])]
  }

  function WrapSender(j: int): Payload {
    if j == 0xFFFF then [1] else [2]
  }

  lemma {:induction false} OneMoreInput(run: seq<Input>, x: Input, target: int, tail: int, sent: Sender)
    requires GoodRun(run) && GoodInput(x)
    ensures GoodRun(run + [x])
    ensures var r, s := After(run, target, tail), StreamOf(run, target, tail);
            && After(run + [x], target, tail) == Step(r, target, tail, x)
            && StreamOf(run + [x], target, tail) == Follow(r, s, x)
            && (Kept(run + [x], target, tail, sent) <==>
                  if Starts(r, x) then x.payload == sent(x.number)
                  else Kept(run, target, tail, sent) && OnTime(r, s, x, sent))
            && (Supplied(run + [x], target, tail) <==>
                  || Starts(r, x)
                  || (Supplied(run, target, tail)
                      && (Plays(r, x) ==> AllStored(s, r.buffer.nextPlay, Position(r, s), x.now, BUDGET))))
  {
    hide Step, Follow, Starts, OnTime, Plays, AllStored;
    assert (run + [x])[..|run|] == run;
  }

  /** The receiver after the two packets: 0 stands where 65535 stood. */
  function BothStored(target: nat): Receiver {
    INITIAL.(active := true, lastRecv := 0,
             buffer := EMPTY.(started := true, cursor := 0xFFFF, nextPlay := target, overflow := 1,
                              slots := [Slot(true, 0, [2]), FREE, FREE, FREE, FREE]))
  }

  lemma {:induction false} StorePackets(target: nat, tail: int)
    ensures var r1 := INITIAL.(active := true);
            && Step(INITIAL, target, tail, SessionUp(0)) == r1
            && Starts(r1, Packet(0, 0xFFFF, [1]))
            && var r2 := Step(r1, target, tail, Packet(0, 0xFFFF, [1]));
               && !Starts(r2, Packet(0, 0, [2])) && !Late(r2.buffer, 0) && r2.buffer.started && r2.buffer.cursor == 0xFFFF
               && r2.active && r2.frames == []
               && Step(r2, target, tail, Packet(0, 0, [2])) == BothStored(target)
  {
    assert Delta(0, 0xFFFF) == 1;
    var r2 := Step(INITIAL.(active := true), target, tail, Packet(0, 0xFFFF, [1]));
    assert r2.buffer.slots == [Slot(true, 0xFFFF, [1]), FREE, FREE, FREE, FREE];
    assert Step(r2, target, tail, Packet(0, 0, [2])).buffer.slots == [Slot(true, 0, [2]), FREE, FREE, FREE, FREE];
  }

  lemma {:induction false} PollConceals(target: nat, tail: int)
    ensures Step(BothStored(target), target, tail, Poll(target, [])).frames == [Concealed(0xFFFF)]
  {
    var r := BothStored(target);
    var r1 := PopOne(r, target, 0);
    assert NextFrame(r.buffer) == Concealed(0xFFFF) && r1.buffer.nextPlay == target + FRAME_MS;
    assert Playout(r1, target, BUDGET - 1, []) == r1;
    assert r1.frames == [] + [Concealed(0xFFFF)];
  }

  /** Both packets are in time and the sender's, yet 0 pushes 65535 out and 65535 is concealed. */
  lemma {:induction false} WrapPushesOut(target: nat, tail: int)
    ensures GoodRun(WrapRun(target)) && ClockRuns(WrapRun(target))
    ensures Kept(WrapRun(target), target, tail, WrapSender) && Supplied(WrapRun(target), target, tail)
    ensures After(WrapRun(target), target, tail).frames == [Concealed(0xFFFF)]
    ensures !Prompt(WrapRun(target), target, tail)
  {
    hide After, StreamOf, Kept, Supplied, Step, Late, TooFar, Prompt, BothStored, Delta;
    var sent := WrapSender;
    var x1, x2, x3, x4 := SessionUp(0), Packet(0, 0xFFFF, [1]), Packet(0, 0, [2]), Poll(target, []);
    NoRun(target, tail);
    StorePackets(target, tail);
    OneMoreInput([], x1, target, tail, sent);
    OneMoreInput([] + [x1], x2, target, tail, sent);
    OneMoreInput([] + [x1] + [x2], x3, target, tail, sent);
    var run := [] + [x1] + [x2] + [x3];
    OneMoreInput(run, x4, target, tail, sent);
    assert WrapRun(target) == run + [x4];
    BothAreStored(target);
    PollConceals(target, tail);
    assert StreamOf(run, target, tail) == Stream(0xFFFF, 0, {0xFFFF, 0x1_0000}, Some(0));
    StreamIsDeliveredIffPrompt(WrapRun(target), target, tail, sent);
    ConcealedIsNotSent(After(WrapRun(target), target, tail), StreamOf(WrapRun(target), target, tail), sent);
  }

  lemma {:induction false} ConcealedIsNotSent(r: Receiver, s: Stream, sent: Sender)
    requires r.frames == [Concealed(0xFFFF)] && s.base == 0
    ensures !Delivered(r, s, sent)
  {
    assert r.frames[0..][0] == Concealed(0xFFFF);
  }

  lemma {:induction false} NoRun(target: int, tail: int)
    ensures After([], target, tail) == INITIAL && StreamOf([], target, tail) == Stream(0, 0, {}, None)
    ensures Supplied([], target, tail)
  {
  }

  lemma {:induction false} BothAreStored(target: nat)
    ensures var r := BothStored(target);
            && Sound(r.buffer) && r.buffer.started && r.active && !r.muted && r.frames == [] && r.buffer.nextPlay == target
            && Plays(r, Poll(target, []))
            && AllStored(Stream(0xFFFF, 0, {0xFFFF, 0x1_0000}, Some(0)), target, 0xFFFF, target, BUDGET)
  {
  }
}
