/**
 * The call state machine of modules/mod_freeswitch.c as a function of its events: three timers, two audio
 * taps, two sockets and this module's share of the transmitter's PTT count.
 */
module CallSpec {
  import opened Timers
  import B = BreakerSpec

  datatype CallState = Idle | Dialing | Ringing | Connected
  datatype Callback = CallTimeout | DialTimeout | InactivityTimeout
  datatype Tap = RadioTap | PlaybackTap

  datatype Config = Config(maxCallMs: int, dialMs: int, inactivityMs: int, adminOnly: bool)

  /** `rx` and `tx` say which audio socket is open; `ptt` is requests minus releases by this module. */
  datatype Call = Call(state: CallState, uuid: string, active: bool, rx: bool, tx: bool, taps: set<Tap>,
                       callTimer: int, dialTimer: int, inactivityTimer: int, timers: Timers<Callback>,
                       held: bool, ptt: int, cor: bool)

  datatype Bridge = Bridge(call: Call, esl: B.Esl)

  /** `allowed`: the number passes the checks; `sent`: the originate command goes out; `speaking`: the VAD. */
  datatype Input =
    | Dial(allowed: bool, sent: bool) | HangUp | CorAssert | CorDrop
    | Tick(connects: bool, recv: B.Recv, speaking: bool)
    | Fire(id: int) | Shutdown | Configure(enabled: bool)

  const NO_CALL: Call := Call(Idle, "", false, false, false, {}, -1, -1, -1, Timers(map[], map[], 1), false, 0, false)
  const INITIAL: Bridge := Bridge(NO_CALL, B.INITIAL)

  function DropCallTimer(s: Call): Call {
    if s.callTimer >= 0 then s.(timers := Cancel(s.timers, s.callTimer), callTimer := -1) else s
  }

  function DropDialTimer(s: Call): Call {
    if s.dialTimer >= 0 then s.(timers := Cancel(s.timers, s.dialTimer), dialTimer := -1) else s
  }

  function DropInactivityTimer(s: Call): Call {
    if s.inactivityTimer >= 0 then s.(timers := Cancel(s.timers, s.inactivityTimer), inactivityTimer := -1) else s
  }

  function ArmCallTimer(c: Config, s: Call): Call {
    var (t, id) := Create(s.timers, c.maxCallMs, CallTimeout);
    s.(timers := t, callTimer := id)
  }

  function ArmDialTimer(c: Config, s: Call): Call {
    var (t, id) := Create(s.timers, c.dialMs, DialTimeout);
    s.(timers := t, dialTimer := id)
  }

  function ArmInactivityTimer(c: Config, s: Call): Call {
    var (t, id) := Create(s.timers, c.inactivityMs, InactivityTimeout);
    s.(timers := t, inactivityTimer := id)
  }

  function ReleaseVox(s: Call): Call {
    if s.held then s.(held := false, ptt := s.ptt - 1) else s
  }

  function CloseBridge(s: Call): Call {
    ReleaseVox(s)
    .(active := false, taps := s.taps - {RadioTap, PlaybackTap}, rx := false, tx := false, state := Idle, uuid := "")
  }

  function Teardown(s: Call): Call {
    CloseBridge(DropInactivityTimer(DropDialTimer(DropCallTimer(s))))
  }

  function HangUpCall(s: Call): Call {
    if s.state == Idle then s else Teardown(s)
  }

  function OpenUdp(s: Call, udp: B.Udp): Call {
    match udp
    case RxFails => s.(rx := false)
    case BindFails => s.(rx := false)
    case TxFails => s.(rx := false, tx := false)
    case Opens => s.(rx := true, tx := true)
  }

  function StartBridge(s: Call): Call {
    s.(taps := s.taps + {RadioTap, PlaybackTap}, held := false, active := true)
  }

  function SetUpAudio(c: Config, s: Call, udp: B.Udp): Call {
    var s1 := OpenUdp(s, udp);
    if !udp.Opens? then HangUpCall(s1)
    else ArmInactivityTimer(c, ArmCallTimer(c, DropDialTimer(StartBridge(s1))))
  }

  function OnBlock(c: Config, s: Call, block: B.Block): Call {
    match block
    case Answer(uuid, udp) =>
      if (s.state == Dialing || s.state == Ringing) && (s.uuid == "" || uuid == s.uuid) then
        SetUpAudio(c, s.(uuid := if s.uuid == "" then uuid else s.uuid, state := Connected), udp)
      else s
    case Progress => if s.state == Dialing then s.(state := Ringing) else s
    case Hangup(uuid) => if s.state != Idle && (s.uuid == "" || uuid == s.uuid) then Teardown(s) else s
    case _ => s
  }

  function OnBlocks(c: Config, s: Call, blocks: seq<B.Block>): Call {
    if blocks == [] then s
    else OnBlock(c, OnBlocks(c, s, blocks[..|blocks| - 1]), blocks[|blocks| - 1])
  }

  function OnPoll(c: Config, s: Call, open: bool, recv: B.Recv): Call {
    if !open then s
    else
      match recv
      case Nothing => s
      case Blocks(blocks) => OnBlocks(c, s, blocks)
      case Closed => if s.state != Idle then Teardown(s) else s
  }

  function OnVox(s: Call, speaking: bool): Call {
    if !s.active || s.cor then s
    else if speaking then if s.held then s else s.(held := true, ptt := s.ptt + 1)
    else ReleaseVox(s)
  }

  function OnDial(c: Config, s: Call, e: B.Esl, allowed: bool, sent: bool): Call {
    if !e.enabled || s.state != Idle || !e.authed || c.adminOnly || !allowed then s
    else if !sent then s.(uuid := "")
    else ArmDialTimer(c, s.(uuid := "", state := Dialing))
  }

  function OnCorAssert(c: Config, s: Call): Call {
    var s1 := s.(cor := true);
    if s1.active && s1.inactivityTimer >= 0 then ArmInactivityTimer(c, DropInactivityTimer(s1)) else s1
  }

  /** A live one-shot timer has left the service and its callback runs. */
  function OnTimer(s: Call, callback: Callback): Call {
    match callback
    case CallTimeout => Teardown(s.(callTimer := -1))
    case DialTimeout => Teardown(s.(dialTimer := -1))
    case InactivityTimeout => HangUpCall(s.(inactivityTimer := -1))
  }

  function OnFire(s: Call, id: int): Call
    requires id in s.timers.armed
  {
    OnTimer(s.(timers := Cancel(s.timers, id)), s.timers.armed[id])
  }

  predicate Enabled(b: Bridge, x: Input) {
    x.Fire? ==> x.id in b.call.timers.armed
  }

  function Step(c: Config, b: Bridge, x: Input): Bridge
    requires Enabled(b, x)
  {
    match x
    case Dial(allowed, sent) => b.(call := OnDial(c, b.call, b.esl, allowed, sent))
    case HangUp => b.(call := HangUpCall(b.call))
    case CorAssert => b.(call := OnCorAssert(c, b.call))
    case CorDrop => b.(call := b.call.(cor := false))
    case Tick(connects, recv, speaking) =>
      if !b.esl.enabled then b
      else Bridge(OnVox(OnPoll(c, b.call, b.esl.open, recv), speaking), B.PollEsl(b.esl, connects, recv))
    case Fire(id) => b.(call := OnFire(b.call, id))
    case Shutdown => b.(call := HangUpCall(b.call))
    case Configure(enabled) => b.(esl := B.Reset(b.esl, enabled))
  }

  // ---- What every run keeps ----

  predicate Names(timers: Timers<Callback>, id: int, callback: Callback) {
    id == -1 || (id in timers.armed && timers.armed[id] == callback)
  }

  /** Every live timer is held by the variable of its kind, so none can fire unexpectedly. */
  ghost predicate TimersHeld(s: Call) {
    && Sound(s.timers)
    && Names(s.timers, s.callTimer, CallTimeout) && Names(s.timers, s.dialTimer, DialTimeout)
    && Names(s.timers, s.inactivityTimer, InactivityTimeout)
    && forall id :: id in s.timers.armed ==> id == s.callTimer || id == s.dialTimer || id == s.inactivityTimer
  }

  /** The audio bridge is up exactly while connected: flag, both sockets and both taps together. */
  predicate BridgeFitsState(s: Call) {
    && (s.active <==> s.state == Connected) && (s.rx <==> s.state == Connected) && (s.tx <==> s.state == Connected)
    && s.taps == (if s.state == Connected then {RadioTap, PlaybackTap} else {})
  }

  /** A timer runs exactly in its states, unless its configured delay is not positive. */
  predicate TimersFitState(c: Config, s: Call) {
    && (s.callTimer != -1 <==> s.state == Connected && c.maxCallMs > 0)
    && (s.inactivityTimer != -1 <==> s.state == Connected && c.inactivityMs > 0)
    && (s.dialTimer != -1 <==> (s.state == Dialing || s.state == Ringing) && c.dialMs > 0)
  }

  /** The module holds the transmitter at most once, and only in a connected call. */
  predicate PttFits(s: Call) {
    s.ptt == (if s.held then 1 else 0) && (s.held ==> s.state == Connected)
  }

  ghost predicate InStep(c: Config, s: Call) {
    TimersHeld(s) && BridgeFitsState(s) && TimersFitState(c, s) && PttFits(s) && (s.state != Connected ==> s.uuid == "")
  }

  /** Nothing of a call is left. */
  predicate Clean(s: Call) {
    && s.state == Idle && s.uuid == "" && !s.active && !s.rx && !s.tx && s.taps == {} && !s.held && s.ptt == 0
    && s.callTimer == s.dialTimer == s.inactivityTimer == -1 && s.timers.armed == map[]
  }

  ghost predicate Invariant(c: Config, b: Bridge) {
    InStep(c, b.call) && B.Regular(b.esl) && (b.call.state != Idle ==> b.esl.authed)
  }

  /** A timer variable is unset or names a possible id. */
  ghost predicate Settable(s: Call) {
    && -1 !in s.timers.armed
    && s.callTimer >= -1 && s.dialTimer >= -1 && s.inactivityTimer >= -1
  }

  lemma {:induction false} DropsTakeOut(s: Call)
    requires Settable(s)
    ensures var t := DropCallTimer(s);
            t == s.(timers := t.timers, callTimer := -1) && t.timers.armed.Keys == s.timers.armed.Keys - {s.callTimer}
    ensures var t := DropDialTimer(s);
            t == s.(timers := t.timers, dialTimer := -1) && t.timers.armed.Keys == s.timers.armed.Keys - {s.dialTimer}
    ensures var t := DropInactivityTimer(s);
            && t == s.(timers := t.timers, inactivityTimer := -1)
            && t.timers.armed.Keys == s.timers.armed.Keys - {s.inactivityTimer}
  {
  }

  lemma {:induction false} DropsEmptyTheService(s: Call)
    requires TimersHeld(s)
    ensures var t := DropInactivityTimer(DropDialTimer(DropCallTimer(s)));
            && t.timers.armed == map[] && t.callTimer == t.dialTimer == t.inactivityTimer == -1
            && t == s.(timers := t.timers, callTimer := -1, dialTimer := -1, inactivityTimer := -1)
  {
    hide DropCallTimer, DropDialTimer, DropInactivityTimer;
    var s1 := DropCallTimer(s);
    DropsTakeOut(s);
    var s2 := DropDialTimer(s1);
    DropsTakeOut(s1);
    DropsTakeOut(s2);
    var left := DropInactivityTimer(s2).timers.armed;
    assert left.Keys == s.timers.armed.Keys - {s.callTimer} - {s.dialTimer} - {s.inactivityTimer};
    assert forall id :: id in s.timers.armed.Keys ==> id in {s.callTimer, s.dialTimer, s.inactivityTimer};
    assert left.Keys == {};
  }

  /** Whatever the call had, teardown leaves none of it: timers, sockets, taps and PTT. */
  lemma {:induction false} TeardownLeavesNothing(s: Call)
    requires TimersHeld(s) && s.taps <= {RadioTap, PlaybackTap} && s.ptt == (if s.held then 1 else 0)
    ensures Clean(Teardown(s))
  {
    hide TimersHeld, DropCallTimer, DropDialTimer, DropInactivityTimer;
    DropsEmptyTheService(s);
  }

  lemma {:induction false} CleanInStep(c: Config, s: Call)
    requires Clean(s) && Sound(s.timers)
    ensures InStep(c, s)
  {
  }

  lemma {:induction false} HangUpKeeps(c: Config, s: Call)
    requires InStep(c, s)
    ensures InStep(c, HangUpCall(s)) && Clean(HangUpCall(s))
  {
    if s.state == Idle {
      assert forall id :: id in s.timers.armed.Keys ==> id == -1;
      assert s.timers.armed.Keys == {};
    } else {
      TeardownLeavesNothing(s);
    }
  }

  /** A live timer fires: its variable is cleared, and the call it belonged to is torn down. */
  lemma {:induction false} FireCleans(c: Config, s: Call, id: int)
    requires InStep(c, s) && id in s.timers.armed
    ensures Clean(OnFire(s, id)) && Sound(OnFire(s, id).timers)
  {
    var rest := s.(timers := Cancel(s.timers, id));
    match s.timers.armed[id]
    case CallTimeout => TeardownLeavesNothing(rest.(callTimer := -1));
    case DialTimeout => TeardownLeavesNothing(rest.(dialTimer := -1));
    case InactivityTimeout => TeardownLeavesNothing(rest.(inactivityTimer := -1));
  }

  lemma {:induction false} AnswerKeeps(c: Config, s: Call, uuid: string, udp: B.Udp)
    requires InStep(c, s) && (s.state == Dialing || s.state == Ringing)
    ensures InStep(c, SetUpAudio(c, s.(uuid := uuid, state := Connected), udp))
    ensures udp.Opens? ==> SetUpAudio(c, s.(uuid := uuid, state := Connected), udp).state == Connected
    ensures !udp.Opens? ==> Clean(SetUpAudio(c, s.(uuid := uuid, state := Connected), udp))
  {
    if !udp.Opens? {
      TeardownLeavesNothing(OpenUdp(s.(uuid := uuid, state := Connected), udp));
    }
  }

  lemma {:induction false} BlockKeeps(c: Config, s: Call, block: B.Block)
    requires InStep(c, s)
    ensures InStep(c, OnBlock(c, s, block))
    ensures s.state == Idle ==> OnBlock(c, s, block) == s
  {
    hide SetUpAudio, Teardown;
    match block
    case Answer(uuid, udp) =>
      if s.state == Dialing || s.state == Ringing { AnswerKeeps(c, s, uuid, udp); }
    case Hangup(uuid) => if s.state != Idle { HangUpKeeps(c, s); }
    case _ =>
  }

  lemma {:induction false} BlocksKeep(c: Config, s: Call, blocks: seq<B.Block>)
    requires InStep(c, s)
    ensures InStep(c, OnBlocks(c, s, blocks))
    ensures s.state == Idle ==> OnBlocks(c, s, blocks) == s
  {
    hide InStep, OnBlock;
    if blocks != [] {
      BlocksKeep(c, s, blocks[..|blocks| - 1]);
      BlockKeeps(c, OnBlocks(c, s, blocks[..|blocks| - 1]), blocks[|blocks| - 1]);
    }
  }

  lemma {:induction false} PollKeeps(c: Config, s: Call, open: bool, recv: B.Recv)
    requires InStep(c, s)
    ensures InStep(c, OnPoll(c, s, open, recv))
    ensures s.state == Idle ==> OnPoll(c, s, open, recv) == s
    ensures open && recv.Closed? ==> OnPoll(c, s, open, recv).state == Idle
  {
    hide Teardown;
    if open && recv.Blocks? { BlocksKeep(c, s, recv.blocks); }
    else if open && recv.Closed? { HangUpKeeps(c, s); }
  }

  lemma {:induction false} VoxKeeps(c: Config, s: Call, speaking: bool)
    requires InStep(c, s)
    ensures InStep(c, OnVox(s, speaking)) && OnVox(s, speaking).state == s.state
  {
  }

  lemma {:induction false} DialKeeps(c: Config, s: Call, e: B.Esl, allowed: bool, sent: bool)
    requires InStep(c, s)
    ensures InStep(c, OnDial(c, s, e, allowed, sent))
    ensures OnDial(c, s, e, allowed, sent).state != Idle ==> s.state != Idle || e.authed
  {
  }

  lemma {:induction false} CorAssertKeeps(c: Config, s: Call)
    requires InStep(c, s)
    ensures InStep(c, OnCorAssert(c, s))
  {
  }

  lemma {:induction false} AuthedStays(e: B.Esl, connects: bool, recv: B.Recv)
    requires B.Regular(e) && e.authed && !recv.Closed?
    ensures B.PollEsl(e, connects, recv).authed
  {
    hide B.ReadBlocks;
    if recv.Blocks? { B.ReadBlocksShape(e, recv.blocks); }
  }

  lemma {:induction false} TickKeeps(c: Config, b: Bridge, connects: bool, recv: B.Recv, speaking: bool)
    requires Invariant(c, b)
    ensures Invariant(c, Step(c, b, Tick(connects, recv, speaking)))
  {
    hide InStep, OnPoll, OnVox, B.PollEsl, B.Regular;
    var e := b.esl;
    PollKeeps(c, b.call, e.open, recv);
    VoxKeeps(c, OnPoll(c, b.call, e.open, recv), speaking);
    B.StepEslKeeps(e, B.Poll(connects, recv));
    assert b.call.state != Idle ==> e.open by { OpenWhenAuthed(e); }
    if b.call.state != Idle && !recv.Closed? { AuthedStays(e, connects, recv); }
  }

  lemma {:induction false} OpenWhenAuthed(e: B.Esl)
    requires B.Regular(e)
    ensures e.authed ==> e.open
  {
  }

  lemma {:induction false} ConfigureKeeps(c: Config, b: Bridge, enabled: bool)
    requires Invariant(c, b)
    ensures Invariant(c, Step(c, b, Configure(enabled)))
  {
    hide InStep, B.Regular;
    B.StepEslKeeps(b.esl, B.Configure(enabled));
  }

  lemma {:induction false} StepKeeps(c: Config, b: Bridge, x: Input)
    requires Invariant(c, b) && Enabled(b, x)
    ensures Invariant(c, Step(c, b, x))
  {
    hide InStep, Teardown, OnDial, OnCorAssert, OnFire, HangUpCall;
    match x
    case Dial(allowed, sent) => DialKeeps(c, b.call, b.esl, allowed, sent);
    case HangUp => HangUpKeeps(c, b.call);
    case Shutdown => HangUpKeeps(c, b.call);
    case CorAssert => CorAssertKeeps(c, b.call); CorKeepsState(c, b.call);
    case CorDrop => CorDropKeeps(c, b.call);
    case Tick(connects, recv, speaking) => TickKeeps(c, b, connects, recv, speaking);
    case Fire(id) => FireIsClean(c, b.call, id);
    case Configure(enabled) => ConfigureKeeps(c, b, enabled);
  }

  lemma {:induction false} CorKeepsState(c: Config, s: Call)
    ensures OnCorAssert(c, s).state == s.state
  {
  }

  lemma {:induction false} CorDropKeeps(c: Config, s: Call)
    requires InStep(c, s)
    ensures InStep(c, s.(cor := false))
  {
  }

  lemma {:induction false} FireIsClean(c: Config, s: Call, id: int)
    requires InStep(c, s) && id in s.timers.armed
    ensures Clean(OnFire(s, id)) && InStep(c, OnFire(s, id))
  {
    hide OnFire, InStep;
    FireCleans(c, s, id);
    CleanInStep(c, OnFire(s, id));
  }

  // ---- Runs ----

  predicate Legal(c: Config, run: seq<Input>)
    decreases |run|, 0
  {
    run == [] || (var init := run[..|run| - 1]; Legal(c, init) && Enabled(After(c, init), run[|run| - 1]))
  }

  function After(c: Config, run: seq<Input>): Bridge
    requires Legal(c, run)
    decreases |run|, 1
  {
    if run == [] then INITIAL
    else
      var init := run[..|run| - 1];
      assert Legal(c, init);
      Step(c, After(c, init), run[|run| - 1])
  }

  lemma {:induction false} RunKeeps(c: Config, run: seq<Input>)
    requires Legal(c, run)
    ensures Invariant(c, After(c, run))
    decreases |run|
  {
    hide Invariant, Step;
    if run == [] {
      InitialInvariant(c);
    } else {
      var init := run[..|run| - 1];
      RunKeeps(c, init);
      StepKeeps(c, After(c, init), run[|run| - 1]);
    }
  }

  lemma {:induction false} InitialInvariant(c: Config)
    ensures Invariant(c, INITIAL)
  {
    B.BackoffStarts();
  }

  /**
   * The lifecycle in lockstep after every run: connected, the active flag, both sockets, both taps and the
   * call's timers come and go together; the dial timer covers dialing and ringing; the transmitter is held
   * at most once and only while connected.
   */
  lemma {:induction false} Lockstep(c: Config, run: seq<Input>)
    requires Legal(c, run) && c.maxCallMs > 0 && c.inactivityMs > 0 && c.dialMs > 0
    ensures var s := After(c, run).call;
            && (s.state == Connected <==> s.active) && (s.active <==> s.rx) && (s.active <==> s.tx)
            && (s.active <==> RadioTap in s.taps) && (s.active <==> PlaybackTap in s.taps)
            && (s.active <==> s.callTimer in s.timers.armed) && (s.active <==> s.inactivityTimer in s.timers.armed)
            && (s.state == Dialing || s.state == Ringing <==> s.dialTimer in s.timers.armed)
            && s.ptt == (if s.held then 1 else 0) && (s.held ==> s.state == Connected)
            && (s.state == Idle ==> Clean(s))
            && (s.state != Idle ==> After(c, run).esl.authed)
  {
    hide Legal, After;
    RunKeeps(c, run);
    var s := After(c, run).call;
    assert -1 !in s.timers.armed;
    if s.state == Idle { HangUpKeeps(c, s); }
  }

  /** The block ends the call. */
  predicate EndsCall(s: Call, block: B.Block) {
    match block
    case Hangup(uuid) => s.uuid == "" || uuid == s.uuid
    case Answer(uuid, udp) => !udp.Opens? && (s.state == Dialing || s.state == Ringing)
    case _ => false
  }

  /** Block `i` of a read ends the call as the blocks before it have left it. */
  predicate EndsAt(c: Config, s: Call, blocks: seq<B.Block>, i: nat) {
    i < |blocks| && EndsCall(OnBlocks(c, s, blocks[..i]), blocks[i])
  }

  /** Every way a call can end. */
  ghost predicate Ends(c: Config, b: Bridge, x: Input) {
    || x.HangUp? || x.Shutdown? || x.Fire?
    || (x.Tick? && b.esl.enabled && b.esl.open
        && (x.recv.Closed? || (x.recv.Blocks? && exists i: nat :: EndsAt(c, b.call, x.recv.blocks, i))))
  }

  lemma {:induction false} EndingBlock(c: Config, s: Call, block: B.Block)
    requires InStep(c, s) && EndsCall(s, block)
    ensures Clean(OnBlock(c, s, block))
  {
    hide SetUpAudio, Teardown;
    HangUpKeeps(c, s);
    if block.Answer? { AnswerKeeps(c, s, block.uuid, block.udp); }
  }

  /** A read that ends the call at some block leaves nothing of it, whatever blocks follow. */
  lemma {:induction false} EndingBlocks(c: Config, s: Call, blocks: seq<B.Block>, i: nat)
    requires InStep(c, s) && EndsAt(c, s, blocks, i)
    ensures Clean(OnBlocks(c, s, blocks))
  {
    hide InStep, OnBlock, EndsCall;
    var init, last := blocks[..|blocks| - 1], blocks[|blocks| - 1];
    BlocksKeep(c, s, init);
    if i == |init| {
      EndingBlock(c, OnBlocks(c, s, init), last);
    } else {
      assert init[..i] == blocks[..i];
      EndingBlocks(c, s, init, i);
      BlockKeeps(c, OnBlocks(c, s, init), last);
    }
  }

  /** Whichever path ends the call, an audio bridge that could not be opened included, nothing is left. */
  lemma {:induction false} EveryEndIsClean(c: Config, b: Bridge, x: Input)
    requires Invariant(c, b) && Enabled(b, x) && Ends(c, b, x)
    ensures Clean(Step(c, b, x).call)
  {
    hide InStep, Teardown, OnFire, OnBlocks, B.PollEsl, B.Regular, EndsAt;
    var s := b.call;
    HangUpKeeps(c, s);
    match x
    case Fire(id) => FireIsClean(c, s, id);
    case Tick(connects, recv, speaking) =>
      if recv.Blocks? {
        var i: nat :| EndsAt(c, s, recv.blocks, i);
        EndingBlocks(c, s, recv.blocks, i);
      }
      assert OnVox(OnPoll(c, s, b.esl.open, recv), speaking) == OnPoll(c, s, b.esl.open, recv);
    case _ =>
  }

  /** No call can be stuck: while one is up a timer is live, and every live timer ends it cleanly. */
  lemma {:induction false} CallAlwaysEnds(c: Config, b: Bridge)
    requires Invariant(c, b) && b.call.state != Idle && c.maxCallMs > 0 && c.dialMs > 0
    ensures exists id :: id in b.call.timers.armed
    ensures forall id :: id in b.call.timers.armed ==> Clean(Step(c, b, Fire(id)).call)
  {
    var s := b.call;
    assert if s.state == Connected then s.callTimer in s.timers.armed else s.dialTimer in s.timers.armed;
    forall id | id in s.timers.armed ensures Clean(Step(c, b, Fire(id)).call) {
      FireCleans(c, s, id);
    }
  }
}

/** The module's globals and handlers. */
module FreeSwitch {
  import opened Timers
  import opened CallSpec
  import B = BreakerSpec

  class Globals {
    const config: Config
    // call state
    var callState: CallState
    var callActive: bool
    var callUuid: string
    var callTimer: int
    var inactivityTimer: int
    var dialTimer: int
    var udpRxOpen: bool
    var udpTxOpen: bool
    var corActive: bool
    var voxPttHeld: bool
    // event socket
    var enabled: bool
    var eslOpen: bool
    var eslAuthed: bool
    var eslReconnectMs: nat
    var eslConsecFailures: nat
    var eslCircuitOpen: bool
    var eslBackoffTicks: nat
    // the core: its timers, the registered taps, this module's share of the PTT count
    var timers: Timers<Callback>
    var taps: set<Tap>
    var ptt: int

    ghost function CallView(): Call
      reads this
    {
      Call(callState, callUuid, callActive, udpRxOpen, udpTxOpen, taps, callTimer, dialTimer, inactivityTimer,
                timers, voxPttHeld, ptt, corActive)
    }

    ghost function EslView(): B.Esl
      reads this
    {
      B.Esl(eslOpen, eslAuthed, eslReconnectMs, eslConsecFailures, eslCircuitOpen, eslBackoffTicks, enabled)
    }

    ghost function View(): Bridge
      reads this
    {
      Bridge(CallView(), EslView())
    }

    constructor (config: Config)
      ensures View() == INITIAL && this.config == config
    {
      this.config := config;
      callState, callActive, callUuid := Idle, false, "";
      callTimer, inactivityTimer, dialTimer := -1, -1, -1;
      udpRxOpen, udpTxOpen, corActive, voxPttHeld := false, false, false, false;
      enabled, eslOpen, eslAuthed, eslReconnectMs := false, false, false, 1000;
      eslConsecFailures, eslCircuitOpen, eslBackoffTicks := 0, false, 0;
      timers, taps, ptt := Timers(map[], map[], 1), {}, 0;
    }

    method TimerCreate(ms: int, callback: Callback) returns (id: int)
      modifies this`timers
      ensures (timers, id) == Create(old(timers), ms, callback)
    {
      var (t, i) := Create(timers, ms, callback);
      timers := t;
      id := i;
    }

    // ---- Event socket ----

    method EslDisconnect()
      modifies this`eslOpen, this`eslAuthed
      ensures EslView() == B.Disconnect(old(EslView()))
    {
      if eslOpen { eslOpen := false; }
      eslAuthed := false;
    }

    method EslRecordConnectFailure()
      modifies this`eslConsecFailures, this`eslCircuitOpen, this`eslBackoffTicks, this`eslReconnectMs
      ensures EslView() == B.RecordFailure(old(EslView()))
    {
      eslConsecFailures := eslConsecFailures + 1;
      if eslConsecFailures >= B.MAX_ATTEMPTS {
        eslCircuitOpen := true;
        return;
      }
      eslBackoffTicks := eslReconnectMs / B.FRAME_MS;
      eslReconnectMs := eslReconnectMs * 2;
      if eslReconnectMs > 30000 { eslReconnectMs := 30000; }
    }

    method EslAuthReply()
      modifies this`eslAuthed, this`eslReconnectMs, this`eslConsecFailures, this`eslCircuitOpen, this`eslBackoffTicks
      ensures EslView() == B.Authenticate(old(EslView()))
    {
      if !eslAuthed {
        eslAuthed, eslReconnectMs := true, 1000;
        eslConsecFailures, eslCircuitOpen, eslBackoffTicks := 0, false, 0;
      }
    }

    method EslHandleEvent(block: B.Block)
      modifies this
      ensures CallView() == OnBlock(config, old(CallView()), block)
      ensures EslView() == if block.ReplyOk? then B.Authenticate(old(EslView())) else old(EslView())
    {
      hide Teardown, SetUpAudio, B.Authenticate;
      match block
      case AuthRequest =>
      case ReplyOk => EslAuthReply();
      case Answer(uuid, udp) =>
        if callState == Dialing || callState == Ringing {
          if callUuid == "" || uuid == callUuid {
            if callUuid == "" { callUuid := uuid; }
            callState := Connected;
            CallSetupAudio(udp);
          }
        }
      case Progress =>
        if callState == Dialing { callState := Ringing; }
      case Hangup(uuid) =>
        if callState != Idle && (callUuid == "" || uuid == callUuid) { CallTeardown(); }
      case Other =>
    }

    method EslProcessBuffer(blocks: seq<B.Block>)
      modifies this
      ensures CallView() == OnBlocks(config, old(CallView()), blocks)
      ensures EslView() == B.ReadBlocks(old(EslView()), blocks)
    {
      hide OnBlock, B.Authenticate;
      var i := 0;
      while i < |blocks|
        invariant 0 <= i <= |blocks|
        invariant CallView() == OnBlocks(config, old(CallView()), blocks[..i])
        invariant EslView() == B.ReadBlocks(old(EslView()), blocks[..i])
      {
        EslHandleEvent(blocks[i]);
        assert blocks[..i + 1][..i] == blocks[..i];
        i := i + 1;
      }
      assert blocks[..i] == blocks;
    }

    method EslPeerClosed()
      modifies this
      ensures CallView() == if old(callState) != Idle then Teardown(old(CallView())) else old(CallView())
      ensures EslView() == if old(eslAuthed) then B.Disconnect(old(EslView())) else B.RecordFailure(B.Disconnect(old(EslView())))
    {
      hide Teardown, B.RecordFailure, B.Disconnect;
      var preAuth := !eslAuthed;
      EslDisconnect();
      if callState != Idle { CallTeardown(); }
      if preAuth { EslRecordConnectFailure(); }
    }

    /** A poll that finds no connection. */
    method EslReconnect(connects: bool)
      requires !eslOpen
      modifies this`eslOpen, this`eslAuthed, this`eslConsecFailures, this`eslCircuitOpen, this`eslBackoffTicks,
               this`eslReconnectMs
      ensures EslView() == B.PollEsl(old(EslView()), connects, B.Nothing)
    {
      hide B.RecordFailure;
      if !enabled || eslCircuitOpen { return; }
      if eslBackoffTicks > 0 {
        eslBackoffTicks := eslBackoffTicks - 1;
        return;
      }
      if connects {
        eslOpen, eslAuthed := true, false;
      } else {
        EslRecordConnectFailure();
      }
    }

    method EslPoll(connects: bool, recv: B.Recv)
      modifies this
      ensures CallView() == OnPoll(config, old(CallView()), old(eslOpen), recv)
      ensures EslView() == B.PollEsl(old(EslView()), connects, recv)
    {
      hide OnBlocks, B.ReadBlocks, Teardown, B.RecordFailure, B.Disconnect;
      if !eslOpen {
        EslReconnect(connects);
        return;
      }
      match recv
      case Nothing =>
      case Blocks(blocks) =>
        EslProcessBuffer(blocks);
      case Closed => EslPeerClosed();
    }

    // ---- Audio sockets ----

    method UdpOpen(udp: B.Udp) returns (ok: bool)
      modifies this`udpRxOpen, this`udpTxOpen
      ensures CallView() == OpenUdp(old(CallView()), udp) && ok == udp.Opens?
    {
      udpRxOpen := !udp.RxFails?;
      if udp.RxFails? { return false; }
      if udp.BindFails? {
        udpRxOpen := false;
        return false;
      }
      udpTxOpen := !udp.TxFails?;
      if udp.TxFails? {
        udpRxOpen := false;
        return false;
      }
      return true;
    }

    // ---- Call state machine ----

    method AutopatchDial(allowed: bool, sent: bool)
      modifies this`callState, this`callUuid, this`dialTimer, this`timers
      ensures CallView() == OnDial(config, old(CallView()), EslView(), allowed, sent)
    {
      hide Create;
      if !enabled || callState != Idle || !eslAuthed || config.adminOnly || !allowed { return; }
      callUuid := "";
      if !sent { return; }
      callState := Dialing;
      dialTimer := TimerCreate(config.dialMs, DialTimeout);
    }

    method AutopatchHangup()
      modifies this
      ensures CallView() == HangUpCall(old(CallView())) && EslView() == old(EslView())
    {
      if callState == Idle { return; }
      CallTeardown();
    }

    method CallSetupAudio(udp: B.Udp)
      modifies this
      ensures CallView() == SetUpAudio(config, old(CallView()), udp) && EslView() == old(EslView())
    {
      hide DropDialTimer, HangUpCall, StartBridge, ArmCallTimer, ArmInactivityTimer, OpenUdp, CallView;
      var ok := UdpOpen(udp);
      if !ok {
        AutopatchHangup();
        return;
      }
      RegisterTaps();
      CancelDialTimer();
      StartCallTimer();
      StartInactivityTimer();
    }

    method CancelCallTimer()
      modifies this`timers, this`callTimer
      ensures CallView() == DropCallTimer(old(CallView()))
    {
      hide Cancel;
      if callTimer >= 0 {
        timers := Cancel(timers, callTimer);
        callTimer := -1;
      }
    }

    method CancelDialTimer()
      modifies this`timers, this`dialTimer
      ensures CallView() == DropDialTimer(old(CallView()))
    {
      hide Cancel;
      if dialTimer >= 0 {
        timers := Cancel(timers, dialTimer);
        dialTimer := -1;
      }
    }

    method CancelInactivityTimer()
      modifies this`timers, this`inactivityTimer
      ensures CallView() == DropInactivityTimer(old(CallView()))
    {
      hide Cancel;
      if inactivityTimer >= 0 {
        timers := Cancel(timers, inactivityTimer);
        inactivityTimer := -1;
      }
    }

    method StartCallTimer()
      modifies this`timers, this`callTimer
      ensures CallView() == ArmCallTimer(config, old(CallView()))
    {
      hide Create;
      callTimer := TimerCreate(config.maxCallMs, CallTimeout);
    }

    method StartInactivityTimer()
      modifies this`timers, this`inactivityTimer
      ensures CallView() == ArmInactivityTimer(config, old(CallView()))
    {
      hide Create;
      inactivityTimer := TimerCreate(config.inactivityMs, InactivityTimeout);
    }

    method RegisterTaps()
      modifies this`taps, this`voxPttHeld, this`callActive
      ensures CallView() == StartBridge(old(CallView()))
    {
      taps := taps + {RadioTap};
      taps := taps + {PlaybackTap};
      assert taps == old(taps) + {RadioTap, PlaybackTap};
      voxPttHeld := false;
      callActive := true;
    }

    method ReleaseBridge()
      modifies this`callActive, this`taps, this`udpRxOpen, this`udpTxOpen, this`ptt, this`voxPttHeld,
               this`callState, this`callUuid
      ensures CallView() == CloseBridge(old(CallView()))
    {
      CloseSockets();
      ReleaseVoxPtt();
      callState := Idle;
      callUuid := "";
    }

    method CloseSockets()
      modifies this`callActive, this`taps, this`udpRxOpen, this`udpTxOpen
      ensures !callActive && !udpRxOpen && !udpTxOpen && taps == old(taps) - {RadioTap, PlaybackTap}
    {
      callActive := false;
      taps := taps - {RadioTap};
      taps := taps - {PlaybackTap};
      udpRxOpen, udpTxOpen := false, false;
    }

    method ReleaseVoxPtt()
      modifies this`ptt, this`voxPttHeld
      ensures !voxPttHeld && ptt == old(ptt) - if old(voxPttHeld) then 1 else 0
    {
      if voxPttHeld {
        ptt := ptt - 1;
        voxPttHeld := false;
      }
    }

    method CallTeardown()
      modifies this
      ensures CallView() == Teardown(old(CallView())) && EslView() == old(EslView())
    {
      hide DropCallTimer, DropDialTimer, DropInactivityTimer, CloseBridge, CallView;
      CancelCallTimer();
      CancelDialTimer();
      CancelInactivityTimer();
      ReleaseBridge();
    }

    /** The timer service fires a live one-shot timer. */
    method TimerFires(id: int)
      requires id in timers.armed
      modifies this
      ensures CallView() == OnFire(old(CallView()), id) && EslView() == old(EslView())
    {
      hide Teardown, HangUpCall, Cancel;
      var callback := timers.armed[id];
      timers := Cancel(timers, id);
      match callback
      case CallTimeout =>
        callTimer := -1;
        CallTeardown();
      case DialTimeout =>
        dialTimer := -1;
        CallTeardown();
      case InactivityTimeout =>
        inactivityTimer := -1;
        AutopatchHangup();
    }

    method CorAsserted()
      modifies this`corActive, this`timers, this`inactivityTimer
      ensures CallView() == OnCorAssert(config, old(CallView()))
    {
      corActive := true;
      if callActive && inactivityTimer >= 0 {
        timers := Cancel(timers, inactivityTimer);
        inactivityTimer := TimerCreate(config.inactivityMs, InactivityTimeout);
      }
    }

    method VoxProcessAndQueue(speaking: bool)
      modifies this`voxPttHeld, this`ptt
      ensures callActive && !corActive ==> CallView() == OnVox(old(CallView()), speaking)
    {
      if speaking {
        if !voxPttHeld {
          ptt := ptt + 1;
          voxPttHeld := true;
        }
      } else if voxPttHeld {
        ptt := ptt - 1;
        voxPttHeld := false;
      }
    }

    method OnTick(connects: bool, recv: B.Recv, speaking: bool)
      modifies this
      ensures View() == Step(config, old(View()), Tick(connects, recv, speaking))
    {
      hide OnPoll, B.PollEsl;
      if !enabled { return; }
      EslPoll(connects, recv);
      if callActive && !corActive { VoxProcessAndQueue(speaking); }
    }

    method Reconfigure(on: bool)
      modifies this`enabled, this`eslConsecFailures, this`eslCircuitOpen, this`eslBackoffTicks, this`eslReconnectMs
      ensures EslView() == B.Reset(old(EslView()), on)
    {
      enabled := on;
      eslConsecFailures, eslCircuitOpen, eslBackoffTicks, eslReconnectMs := 0, false, 0, 1000;
    }

    /** Any event, as the dispatcher delivers it. */
    method Handle(x: Input)
      requires Enabled(View(), x)
      modifies this
      ensures View() == Step(config, old(View()), x)
      ensures Invariant(config, old(View())) ==> Invariant(config, View())
      ensures Invariant(config, old(View())) && Ends(config, old(View()), x) ==> Clean(CallView())
    {
      hide Invariant, Ends, Clean, Enabled, Step;
      if Invariant(config, View()) {
        StepKeeps(config, View(), x);
        if Ends(config, View(), x) { EveryEndIsClean(config, View(), x); }
      }
      Dispatch(x);
    }

    method Dispatch(x: Input)
      requires Enabled(View(), x)
      modifies this
      ensures View() == Step(config, old(View()), x)
    {
      hide HangUpCall, OnFire, OnCorAssert, OnPoll, OnDial, B.PollEsl, B.Reset;
      match x
      case Dial(allowed, sent) => AutopatchDial(allowed, sent);
      case HangUp => AutopatchHangup();
      case CorAssert => CorAsserted();
      case CorDrop => corActive := false;
      case Tick(connects, recv, speaking) => OnTick(connects, recv, speaking);
      case Fire(id) => TimerFires(id);
      case Shutdown => if callState != Idle { AutopatchHangup(); } else { HangUpIdle(CallView()); }
      case Configure(on) => Reconfigure(on);
    }

    /** Unloading ends the call and closes the event socket. */
    method Unload()
      requires Invariant(config, View())
      modifies this
      ensures Clean(CallView()) && !eslOpen && !eslAuthed
    {
      hide Teardown, Invariant;
      assert InStep(config, CallView()) by { InvariantInStep(config, View()); }
      HangUpKeeps(config, CallView());
      if callState != Idle { CallTeardown(); }
      EslDisconnect();
    }
  }

  lemma {:induction false} HangUpIdle(s: Call)
    requires s.state == Idle
    ensures HangUpCall(s) == s
  {
  }

  lemma {:induction false} InvariantInStep(c: Config, b: Bridge)
    requires Invariant(c, b)
    ensures InStep(c, b.call)
  {
  }
}
