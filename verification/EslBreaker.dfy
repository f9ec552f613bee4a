/** The event-socket connection of modules/mod_freeswitch.c and the circuit breaker on its reconnects. */
module BreakerSpec {
  import opened Common

  const MAX_ATTEMPTS: nat := 16
  const FRAME_MS: nat := 20
  const FIRST_WAIT: nat := 1000
  const LONGEST_WAIT: nat := 30000

  /** What one block read from the socket turns out to be; `udp` is how opening the audio sockets goes. */
  datatype Udp = RxFails | BindFails | TxFails | Opens
  datatype Block =
    | AuthRequest | ReplyOk | Answer(uuid: string, udp: Udp) | Progress | Hangup(uuid: string) | Other
  datatype Recv = Nothing | Closed | Blocks(blocks: seq<Block>)

  datatype Esl = Esl(open: bool, authed: bool, waitMs: nat, failures: nat, tripped: bool, ticks: nat, enabled: bool)

  /** One poll, with the outcomes it would meet; or a new configuration. */
  datatype Input = Poll(connects: bool, recv: Recv) | Configure(enabled: bool)

  function RecordFailure(e: Esl): Esl {
    var f := e.(failures := e.failures + 1);
    if f.failures >= MAX_ATTEMPTS then f.(tripped := true)
    else f.(ticks := e.waitMs / FRAME_MS, waitMs := Min(LONGEST_WAIT, e.waitMs * 2))
  }

  function Authenticate(e: Esl): Esl {
    if e.authed then e
    else e.(authed := true, waitMs := FIRST_WAIT, failures := 0, tripped := false, ticks := 0)
  }

  function Disconnect(e: Esl): Esl {
    e.(open := false, authed := false)
  }

  function ReadBlocks(e: Esl, blocks: seq<Block>): Esl {
    if blocks == [] then e
    else
      var r := ReadBlocks(e, blocks[..|blocks| - 1]);
      if blocks[|blocks| - 1].ReplyOk? then Authenticate(r) else r
  }

  function PollEsl(e: Esl, connects: bool, recv: Recv): Esl {
    if !e.open then
      if !e.enabled || e.tripped then e
      else if e.ticks > 0 then e.(ticks := e.ticks - 1)
      else if connects then e.(open := true, authed := false)
      else RecordFailure(e)
    else
      match recv
      case Nothing => e
      case Blocks(blocks) => ReadBlocks(e, blocks)
      case Closed => if e.authed then Disconnect(e) else RecordFailure(Disconnect(e))
  }

  function Reset(e: Esl, enabled: bool): Esl {
    e.(enabled := enabled, failures := 0, tripped := false, ticks := 0, waitMs := FIRST_WAIT)
  }

  function StepEsl(e: Esl, x: Input): Esl {
    match x
    case Poll(connects, recv) => PollEsl(e, connects, recv)
    case Configure(enabled) => Reset(e, enabled)
  }

  const INITIAL := Esl(false, false, FIRST_WAIT, 0, false, 0, false)

  /** The wait that follows failure number `k + 1`. */
  function Backoff(k: nat): nat {
    Min(LONGEST_WAIT, FIRST_WAIT * Pow2(k))
  }

  predicate Regular(e: Esl) {
    && e.failures <= MAX_ATTEMPTS && (e.tripped <==> e.failures >= MAX_ATTEMPTS)
    && e.waitMs == Backoff(Min(e.failures, MAX_ATTEMPTS - 1))
    && (e.authed ==> e.open && e.failures == 0)
    && (e.open ==> !e.tripped && e.ticks == 0)
  }

  lemma {:induction false} BackoffDoubles(k: nat)
    ensures Backoff(k + 1) == Min(LONGEST_WAIT, Backoff(k) * 2)
  {
  }

  lemma {:induction false} BackoffStarts()
    ensures Backoff(0) == FIRST_WAIT
  {
  }

  lemma {:induction false} ReadBlocksShape(e: Esl, blocks: seq<Block>)
    ensures ReadBlocks(e, blocks) == if ReplyOk in blocks then Authenticate(e) else e
  {
    if blocks != [] {
      var init, last := blocks[..|blocks| - 1], blocks[|blocks| - 1];
      ReadBlocksShape(e, init);
      assert blocks == init + [last];
    }
  }

  lemma {:induction false} FailureKeeps(e: Esl)
    requires Regular(e) && !e.open && !e.authed && !e.tripped
    ensures Regular(RecordFailure(e))
  {
    hide Backoff;
    BackoffDoubles(e.failures);
  }

  lemma {:induction false} StepEslKeeps(e: Esl, x: Input)
    requires Regular(e)
    ensures Regular(StepEsl(e, x))
  {
    hide Backoff, RecordFailure, ReadBlocks;
    BackoffStarts();
    match x
    case Configure(_) =>
    case Poll(connects, recv) =>
      if !e.open {
        if e.enabled && !e.tripped && e.ticks == 0 && !connects { FailureKeeps(e); }
      } else if recv.Blocks? {
        ReadBlocksShape(e, recv.blocks);
      } else if recv.Closed? && !e.authed {
        FailureKeeps(Disconnect(e));
      }
  }

  function After(e: Esl, run: seq<Input>): Esl {
    if run == [] then e else StepEsl(After(e, run[..|run| - 1]), run[|run| - 1])
  }

  /** On every run the circuit is open exactly from the sixteenth failure in a row on. */
  lemma {:induction false} CircuitOpensAtSixteen(run: seq<Input>)
    ensures Regular(After(INITIAL, run))
    ensures After(INITIAL, run).tripped <==> After(INITIAL, run).failures == MAX_ATTEMPTS
  {
    hide StepEsl;
    if run == [] {
      BackoffStarts();
    } else {
      CircuitOpensAtSixteen(run[..|run| - 1]);
      StepEslKeeps(After(INITIAL, run[..|run| - 1]), run[|run| - 1]);
    }
  }

  /** The step calls connect(). */
  predicate Attempts(e: Esl, x: Input) {
    x.Poll? && !e.open && e.enabled && !e.tripped && e.ticks == 0
  }

  /** The step ends a series of failures: authentication, or a new configuration. */
  predicate Restarts(e: Esl, x: Input) {
    x.Configure? || (e.open && !e.authed && x.recv.Blocks? && ReplyOk in x.recv.blocks)
  }

  /** The step is a failed attempt, refused at once or after the connection was pending. */
  predicate Fails(e: Esl, x: Input) {
    (Attempts(e, x) && !x.connects) || (x.Poll? && e.open && !e.authed && x.recv.Closed?)
  }

  function AttemptCount(e: Esl, run: seq<Input>): nat {
    if run == [] then 0
    else
      var init, last := run[..|run| - 1], run[|run| - 1];
      AttemptCount(e, init) + if Attempts(After(e, init), last) then 1 else 0
  }

  predicate Uninterrupted(e: Esl, run: seq<Input>) {
    forall i :: 0 <= i < |run| ==> !Restarts(After(e, run[..i]), run[i])
  }

  /** Failures recorded and the attempt still pending. */
  function Spent(e: Esl): nat {
    e.failures + if e.open && !e.authed then 1 else 0
  }

  lemma {:induction false} AttemptIsSpent(e: Esl, x: Input)
    requires Regular(e) && !Restarts(e, x)
    ensures Spent(StepEsl(e, x)) == Spent(e) + if Attempts(e, x) then 1 else 0
  {
    hide Backoff, ReadBlocks;
    if x.Poll? && e.open && x.recv.Blocks? { ReadBlocksShape(e, x.recv.blocks); }
  }

  /** Every attempt, refused at once or later, is paid for. */
  lemma {:induction false} AttemptsArePaid(e: Esl, run: seq<Input>)
    requires Regular(e) && Uninterrupted(e, run)
    ensures Regular(After(e, run)) && Spent(After(e, run)) == Spent(e) + AttemptCount(e, run)
  {
    hide StepEsl, Regular, Attempts, Restarts;
    if run != [] {
      var init, last := run[..|run| - 1], run[|run| - 1];
      assert forall i :: 0 <= i < |init| ==> init[..i] == run[..i] && init[i] == run[i];
      AttemptsArePaid(e, init);
      assert !Restarts(After(e, run[..|run| - 1]), run[|run| - 1]);
      AttemptIsSpent(After(e, init), last);
      StepEslKeeps(After(e, init), last);
    }
  }

  /** Between restarts no run makes more than sixteen connection attempts. */
  lemma {:induction false} AtMostSixteenAttempts(e: Esl, run: seq<Input>)
    requires Regular(e) && Uninterrupted(e, run)
    ensures AttemptCount(e, run) <= MAX_ATTEMPTS - Spent(e)
  {
    hide StepEsl;
    AttemptsArePaid(e, run);
  }

  predicate AllPolls(run: seq<Input>) {
    forall i :: 0 <= i < |run| ==> run[i].Poll?
  }

  /** A failure sets the countdown by its place in the series; the sixteenth stops the series. */
  lemma {:induction false} FailureSetsWait(e: Esl, x: Input)
    requires Regular(e) && Fails(e, x)
    ensures var f, k := StepEsl(e, x), e.failures + 1;
            && f.failures == k && !f.open
            && (k < MAX_ATTEMPTS ==> !f.tripped && f.ticks == Min(30000, 1000 * Pow2(k - 1)) / 20)
            && (k == MAX_ATTEMPTS ==> f.tripped)
  {
  }

  lemma {:induction false} CountdownHolds(e: Esl, run: seq<Input>)
    requires !e.open && e.enabled && !e.tripped && AllPolls(run) && |run| <= e.ticks
    ensures After(e, run) == e.(ticks := e.ticks - |run|) && AttemptCount(e, run) == 0
  {
    if run != [] { CountdownHolds(e, run[..|run| - 1]); }
  }

  /**
   * After the `k`th failure in a row, `k` below 16, the next attempt comes after exactly
   * min(30000, 1000 * 2^(k - 1)) / 20 polls, whatever those polls meet.
   */
  lemma {:induction false} NextAttemptWaits(e: Esl, x: Input, run: seq<Input>, next: Input)
    requires Regular(e) && Fails(e, x) && e.enabled && AllPolls(run) && next.Poll?
    requires e.failures + 1 < MAX_ATTEMPTS
    ensures var f, wait := StepEsl(e, x), Min(30000, 1000 * Pow2(e.failures)) / 20;
            && (|run| <= wait ==> AttemptCount(f, run) == 0)
            && (|run| <= wait ==> (Attempts(After(f, run), next) <==> |run| == wait))
  {
    hide StepEsl, AttemptCount, After;
    FailureSetsWait(e, x);
    var f := StepEsl(e, x);
    assert f.enabled by { EnabledStays(e, x); }
    if |run| <= f.ticks { CountdownHolds(f, run); }
  }

  lemma {:induction false} EnabledStays(e: Esl, x: Input)
    requires x.Poll?
    ensures StepEsl(e, x).enabled == e.enabled
  {
    hide ReadBlocks;
    if x.recv.Blocks? { ReadBlocksShape(e, x.recv.blocks); }
  }

  /** An open circuit stays open until the configuration is read again: polling never tries again. */
  lemma {:induction false} OpenCircuitStaysOpen(e: Esl, run: seq<Input>)
    requires Regular(e) && e.tripped && AllPolls(run)
    ensures After(e, run) == e && AttemptCount(e, run) == 0
  {
    if run != [] { OpenCircuitStaysOpen(e, run[..|run| - 1]); }
  }

  // ---- The connection ----

  /**
   * The connection is open exactly from an attempt that connects until the peer closes it, and authenticated
   * exactly from the reply to the password on.
   */
  lemma {:induction false} ConnectionIff(e: Esl, x: Input)
    requires Regular(e)
    ensures var f, closes := StepEsl(e, x), x.Poll? && x.recv.Closed?;
            && (f.open <==> if e.open then !closes else Attempts(e, x) && x.connects)
            && (f.authed <==> e.open && !closes && (e.authed || (x.Poll? && x.recv.Blocks? && ReplyOk in x.recv.blocks)))
            && f.enabled == if x.Configure? then x.enabled else e.enabled
  {
    hide Backoff;
    if x.Poll? && x.recv.Blocks? { ReadBlocksShape(e, x.recv.blocks); }
    hide ReadBlocks, RecordFailure;
    RecordKeepsOpen(e);
    RecordKeepsOpen(Disconnect(e));
  }

  lemma {:induction false} RecordKeepsOpen(e: Esl)
    ensures var f := RecordFailure(e); f.open == e.open && f.authed == e.authed && f.enabled == e.enabled
  {
  }

  /** A failed attempt adds one to the series, authentication and a new configuration begin a new one, nothing else counts. */
  lemma {:induction false} FailuresIff(e: Esl, x: Input)
    requires Regular(e)
    ensures var f := StepEsl(e, x);
            && f.failures == (if Restarts(e, x) then 0 else if Fails(e, x) then e.failures + 1 else e.failures)
            && (Restarts(e, x) ==> f.ticks == 0 && !f.tripped)
            && (!Restarts(e, x) && !Fails(e, x) ==>
                  f.ticks == if x.Poll? && !e.open && e.enabled && !e.tripped && e.ticks > 0 then e.ticks - 1 else e.ticks)
  {
    hide Backoff;
    if x.Poll? && x.recv.Blocks? { ReadBlocksShape(e, x.recv.blocks); }
    hide ReadBlocks;
  }
}
