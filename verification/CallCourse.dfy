/**
 * The course of a telephone call in modules/mod_freeswitch.c: which events begin, connect and end it, who
 * holds the transmitter meanwhile, and how long its timers are set.
 */
module CallCourse {
  import opened Timers
  import opened CallSpec
  import B = BreakerSpec

  // ---- One block of a read ----

  /** The hang-up of the call `uuid`, or of any while the call has no name yet. */
  predicate HangsUp(uuid: string, block: B.Block) {
    block.Hangup? && (uuid == "" || block.uuid == uuid)
  }

  /** While dialing or ringing: any answer, and any hang-up, is the call's own. */
  predicate Decides(block: B.Block) {
    block.Answer? || block.Hangup?
  }

  predicate Calling(s: Call) {
    s.state == Dialing || s.state == Ringing
  }

  lemma {:induction false} BlockStates(c: Config, s: Call, block: B.Block)
    requires InStep(c, s)
    ensures var q := OnBlock(c, s, block);
            && (q.state == Connected <==>
                  || (s.state == Connected && !HangsUp(s.uuid, block))
                  || (Calling(s) && block.Answer? && block.udp.Opens?))
            && (q.state == Dialing <==> s.state == Dialing && !Decides(block) && !block.Progress?)
            && (q.state == Ringing <==> (s.state == Dialing && block.Progress?) || (s.state == Ringing && !Decides(block)))
            && (q.state == Connected ==> q.uuid == if s.state == Connected then s.uuid else block.uuid)
  {
    hide Create, Cancel, TimersHeld, Names;
  }

  // ---- Whole reads ----

  /** Block `i` answers the call, none before it has decided it, and none after it hangs it up again. */
  predicate Connects(blocks: seq<B.Block>, i: nat) {
    && i < |blocks| && blocks[i].Answer? && blocks[i].udp.Opens?
    && (forall j :: 0 <= j < i ==> !Decides(blocks[j]))
    && forall j :: i < j < |blocks| ==> !HangsUp(blocks[i].uuid, blocks[j])
  }

  predicate Undecided(blocks: seq<B.Block>) {
    forall j :: 0 <= j < |blocks| ==> !Decides(blocks[j])
  }

  predicate KeepsUp(uuid: string, blocks: seq<B.Block>) {
    forall j :: 0 <= j < |blocks| ==> !HangsUp(uuid, blocks[j])
  }

  /** The same, by the last block of the read and those before it. */
  predicate ConnectsLast(init: seq<B.Block>, last: B.Block, i: nat) {
    if i < |init| then Connects(init, i) && !HangsUp(init[i].uuid, last)
    else i == |init| && Undecided(init) && last.Answer? && last.udp.Opens?
  }

  lemma {:induction false} ConnectsLonger(blocks: seq<B.Block>, i: nat)
    requires blocks != []
    ensures Connects(blocks, i) <==> ConnectsLast(blocks[..|blocks| - 1], blocks[|blocks| - 1], i)
  {
    var init := blocks[..|blocks| - 1];
    assert forall j :: 0 <= j < |init| ==> init[j] == blocks[j];
    hide HangsUp, Decides;
  }

  lemma {:induction false} UndecidedLonger(blocks: seq<B.Block>)
    requires blocks != []
    ensures Undecided(blocks) <==> Undecided(blocks[..|blocks| - 1]) && !Decides(blocks[|blocks| - 1])
    ensures forall uuid :: KeepsUp(uuid, blocks)
                           <==> KeepsUp(uuid, blocks[..|blocks| - 1]) && !HangsUp(uuid, blocks[|blocks| - 1])
  {
    var init := blocks[..|blocks| - 1];
    assert blocks == init + [blocks[|blocks| - 1]];
    hide HangsUp, Decides;
  }

  lemma {:induction false} OneConnects(blocks: seq<B.Block>, i: nat, j: nat)
    requires Connects(blocks, i) && Connects(blocks, j)
    ensures i == j && !Undecided(blocks)
  {
  }

  /** A read brings a call up exactly when it answers it and does not hang it up again. */
  lemma {:induction false} ReadConnectsIff(c: Config, s: Call, blocks: seq<B.Block>)
    requires InStep(c, s) && Calling(s)
    ensures var q := OnBlocks(c, s, blocks);
            && (q.state == Connected <==> exists i: nat :: Connects(blocks, i))
            && (Calling(q) <==> Undecided(blocks))
            && forall i: nat :: Connects(blocks, i) ==> q.uuid == blocks[i].uuid
  {
    hide InStep, OnBlock, HangsUp, Decides, Connects, Undecided;
    if blocks == [] {
      NothingRead();
    } else {
      var init, last := blocks[..|blocks| - 1], blocks[|blocks| - 1];
      var r := OnBlocks(c, s, init);
      ReadConnectsIff(c, s, init);
      BlocksKeep(c, s, init);
      BlockStates(c, r, last);
      UndecidedLonger(blocks);
      forall i: nat ensures Connects(blocks, i) <==> ConnectsLast(init, last, i) {
        ConnectsLonger(blocks, i);
      }
      forall i: nat | Connects(init, i)
        ensures i < |init| && init[i].Answer? && !Undecided(init) && blocks[i] == init[i]
      {
        OneConnects(init, i, i);
        ConnectsInside(init, i);
      }
      forall i: nat | Connects(blocks, i) ensures i < |blocks| && blocks[i].Answer? {
        ConnectsInside(blocks, i);
      }
      DecidingBlock(last);
      if r.state == Connected {
        var i: nat :| Connects(init, i);
        assert blocks[i].uuid == r.uuid;
        if !HangsUp(r.uuid, last) { assert Connects(blocks, i); }
      } else if Calling(r) && last.Answer? && last.udp.Opens? {
        assert Connects(blocks, |init|);
      }
    }
  }

  lemma {:induction false} ConnectsInside(blocks: seq<B.Block>, i: nat)
    requires Connects(blocks, i)
    ensures i < |blocks| && blocks[i].Answer?
  {
  }

  lemma {:induction false} DecidingBlock(block: B.Block)
    ensures block.Answer? || block.Hangup? <==> Decides(block)
    ensures Decides(block) ==> !block.Progress?
  {
  }

  lemma {:induction false} NothingRead()
    ensures Undecided([]) && forall i: nat :: !Connects([], i)
  {
  }

  /** A read leaves a connected call up exactly when it brings no hang-up of that call. */
  lemma {:induction false} ReadKeepsIff(c: Config, s: Call, blocks: seq<B.Block>)
    requires InStep(c, s) && s.state == Connected
    ensures var q := OnBlocks(c, s, blocks);
            && (q.state == Connected <==> KeepsUp(s.uuid, blocks))
            && (q.state == Connected ==> q.uuid == s.uuid) && (q.state != Connected ==> q.state == Idle)
  {
    hide InStep, OnBlock, HangsUp, Decides;
    if blocks != [] {
      var init, last := blocks[..|blocks| - 1], blocks[|blocks| - 1];
      ReadKeepsIff(c, s, init);
      BlocksKeep(c, s, init);
      BlockStates(c, OnBlocks(c, s, init), last);
      UndecidedLonger(blocks);
    }
  }

  // ---- Every event ----

  /** The tick reads these blocks from the socket. */
  predicate Reads(b: Bridge, x: Input) {
    x.Tick? && b.esl.enabled && b.esl.open && x.recv.Blocks?
  }

  /** The event ends any call there is: a hang-up here, a timer, the shutdown, the loss of the connection. */
  predicate EndsAny(b: Bridge, x: Input) {
    x.HangUp? || x.Shutdown? || x.Fire? || (x.Tick? && b.esl.enabled && b.esl.open && x.recv.Closed?)
  }

  lemma {:induction false} PollStates(c: Config, s: Call, open: bool, recv: B.Recv)
    requires InStep(c, s)
    ensures var q := OnPoll(c, s, open, recv);
            if open && recv.Blocks? then q == OnBlocks(c, s, recv.blocks)
            else if open && recv.Closed? then q.state == Idle
            else q == s
  {
    hide Teardown, TimersHeld;
    HangUpKeeps(c, s);
  }

  lemma {:induction false} TickStates(c: Config, b: Bridge, x: Input)
    requires Invariant(c, b) && x.Tick?
    ensures var q := Step(c, b, x).call;
            if Reads(b, x) then q.state == OnBlocks(c, b.call, x.recv.blocks).state
            else q.state == if EndsAny(b, x) then Idle else b.call.state
  {
    hide InStep, OnPoll, OnVox, OnBlocks, B.PollEsl, B.Regular;
    PollKeeps(c, b.call, b.esl.open, x.recv);
    PollStates(c, b.call, b.esl.open, x.recv);
    VoxKeeps(c, OnPoll(c, b.call, b.esl.open, x.recv), x.speaking);
  }

  /** A call is begun exactly by a dial that is allowed and sent, while enabled, authenticated and open to users. */
  lemma {:induction false} BegunIff(c: Config, b: Bridge, x: Input)
    requires Invariant(c, b) && Enabled(b, x) && b.call.state == Idle
    ensures var q := Step(c, b, x).call;
            && (q.state != Idle <==> x == Dial(true, true) && b.esl.enabled && b.esl.authed && !c.adminOnly)
            && (q.state != Idle ==> q.state == Dialing && q.uuid == "")
  {
    hide InStep, B.Regular, OnBlocks, Teardown, OnVox, B.PollEsl;
    if x.Tick? {
      TickStates(c, b, x);
      if Reads(b, x) { BlocksKeep(c, b.call, x.recv.blocks); }
    }
    if x.Fire? { FireIsClean(c, b.call, x.id); }
  }

  /** A call that is not up comes up exactly by a read that answers it, sockets and all, and does not hang it up again. */
  lemma {:induction false} ConnectsIff(c: Config, b: Bridge, x: Input)
    requires Invariant(c, b) && Enabled(b, x) && b.call.state != Connected
    ensures Step(c, b, x).call.state == Connected
            <==> Calling(b.call) && Reads(b, x) && exists i: nat :: Connects(x.recv.blocks, i)
  {
    hide InStep, B.Regular, OnBlocks, Teardown, OnVox, B.PollEsl, Connects, Undecided;
    if x.Tick? {
      TickStates(c, b, x);
      if Reads(b, x) {
        if Calling(b.call) { ReadConnectsIff(c, b.call, x.recv.blocks); } else { BlocksKeep(c, b.call, x.recv.blocks); }
      }
    }
    HangUpKeeps(c, b.call);
    if x.Fire? { FireIsClean(c, b.call, x.id); }
  }

  /**
   * A call being made is over exactly when an event ends any call, or a read decides it and it does not come
   * up; one that is up, exactly when an event ends any call or a read hangs up that very call.
   */
  lemma {:induction false} OverIff(c: Config, b: Bridge, x: Input)
    requires Invariant(c, b) && Enabled(b, x) && b.call.state != Idle
    ensures Step(c, b, x).call.state == Idle
            <==> EndsAny(b, x)
                 || (Reads(b, x) && if b.call.state == Connected then !KeepsUp(b.call.uuid, x.recv.blocks)
                                    else !Undecided(x.recv.blocks) && !exists i: nat :: Connects(x.recv.blocks, i))
  {
    hide InStep, B.Regular, OnBlocks, Teardown, OnVox, B.PollEsl, Connects, Undecided, KeepsUp;
    if x.Tick? {
      TickStates(c, b, x);
      if Reads(b, x) {
        if b.call.state == Connected { ReadKeepsIff(c, b.call, x.recv.blocks); }
        else { ReadConnectsIff(c, b.call, x.recv.blocks); }
      }
    }
    HangUpKeeps(c, b.call);
    if x.Fire? { FireIsClean(c, b.call, x.id); }
  }

  // ---- The transmitter ----

  /** A tick of an enabled module decides who holds the transmitter; no other event begins to. */
  lemma {:induction false} HeldIff(c: Config, b: Bridge, x: Input)
    requires Invariant(c, b) && Enabled(b, x)
    ensures var q := Step(c, b, x).call;
            && (q.held <==> q.active && if x.Tick? && b.esl.enabled && !b.call.cor then x.speaking else b.call.held)
            && q.ptt == (if q.held then 1 else 0)
            && (q.cor <==> x.CorAssert? || (b.call.cor && !x.CorDrop?))
  {
    hide InStep, B.Regular, OnBlocks, OnPoll, Teardown, B.PollEsl, OnFire, OnDial;
    StepKeeps(c, b, x);
    HeldInStep(c, b.call);
    HeldInStep(c, Step(c, b, x).call);
    match x
    case Tick(_, recv, speaking) =>
      PollHolds(c, b.call, b.esl.open, recv);
      PollKeeps(c, b.call, b.esl.open, recv);
      HeldInStep(c, OnPoll(c, b.call, b.esl.open, recv));
    case Fire(id) => FireIsClean(c, b.call, id); CorStays(b.call, id);
    case Dial(allowed, sent) => DialHolds(c, b.call, b.esl, allowed, sent);
    case HangUp => HangUpHolds(c, b.call);
    case Shutdown => HangUpHolds(c, b.call);
    case _ =>
  }

  lemma {:induction false} HeldInStep(c: Config, s: Call)
    requires InStep(c, s)
    ensures (s.active <==> s.state == Connected) && (s.held ==> s.active) && s.ptt == (if s.held then 1 else 0)
  {
  }

  lemma {:induction false} CorStays(s: Call, id: int)
    requires id in s.timers.armed
    ensures OnFire(s, id).cor == s.cor
  {
    TeardownKeepsCor(s.(timers := Cancel(s.timers, id), callTimer := -1));
    TeardownKeepsCor(s.(timers := Cancel(s.timers, id), dialTimer := -1));
    TeardownKeepsCor(s.(timers := Cancel(s.timers, id), inactivityTimer := -1));
    hide Cancel, Teardown;
  }

  lemma {:induction false} TeardownKeepsCor(s: Call)
    ensures Teardown(s).cor == s.cor
  {
    hide Cancel;
    assert DropCallTimer(s).cor == s.cor;
  }

  lemma {:induction false} DialHolds(c: Config, s: Call, e: B.Esl, allowed: bool, sent: bool)
    ensures var q := OnDial(c, s, e, allowed, sent); q.held == s.held && q.active == s.active && q.cor == s.cor
  {
  }

  lemma {:induction false} HangUpHolds(c: Config, s: Call)
    requires InStep(c, s)
    ensures var q := HangUpCall(s); !q.active && !q.held && q.cor == s.cor
  {
    HangUpKeeps(c, s);
    hide TimersHeld, Create, Cancel;
  }

  lemma {:induction false} BlockHolds(c: Config, s: Call, block: B.Block)
    requires InStep(c, s)
    ensures var q := OnBlock(c, s, block); q.cor == s.cor && (q.held <==> q.active && s.held)
  {
    BlockKeeps(c, s, block);
    HeldInStep(c, s);
    hide Create, Cancel, TimersHeld, Names, TimersFitState;
  }

  lemma {:induction false} BlocksHold(c: Config, s: Call, blocks: seq<B.Block>)
    requires InStep(c, s)
    ensures var q := OnBlocks(c, s, blocks); q.cor == s.cor && (q.held <==> q.active && s.held)
  {
    hide InStep, OnBlock;
    HeldInStep(c, s);
    if blocks != [] {
      var init := blocks[..|blocks| - 1];
      BlocksHold(c, s, init);
      BlocksKeep(c, s, init);
      BlocksKeep(c, s, blocks);
      BlockHolds(c, OnBlocks(c, s, init), blocks[|blocks| - 1]);
      BlockKeeps(c, OnBlocks(c, s, init), blocks[|blocks| - 1]);
      HeldInStep(c, OnBlocks(c, s, init));
      HeldInStep(c, OnBlocks(c, s, blocks));
      if s.held { ReadKeepsIff(c, s, init); }
    }
  }

  lemma {:induction false} PollHolds(c: Config, s: Call, open: bool, recv: B.Recv)
    requires InStep(c, s)
    ensures var q := OnPoll(c, s, open, recv); q.cor == s.cor && (q.held <==> q.active && s.held)
  {
    hide InStep, OnBlocks, Teardown;
    HeldInStep(c, s);
    if open && recv.Blocks? {
      BlocksHold(c, s, recv.blocks);
    } else if open && recv.Closed? {
      HangUpHolds(c, s);
    }
  }

  /** The events of a call in which the caller is on the air when a radio user keys up. */
  const TALKED_OVER: seq<Input> :=
    [] + [Configure(true)] + [Tick(true, B.Nothing, false)] + [Tick(true, B.Blocks([B.ReplyOk]), false)]
    + [Dial(true, true)] + [Tick(true, B.Blocks([B.Answer("u", B.Opens)]), true)]
    + [CorAssert] + [Tick(true, B.Nothing, false)]

  lemma {:induction false} OneMore(c: Config, run: seq<Input>, x: Input)
    requires Legal(c, run) && Enabled(After(c, run), x)
    ensures Legal(c, run + [x]) && After(c, run + [x]) == Step(c, After(c, run), x)
  {
    assert (run + [x])[..|run|] == run;
  }

  lemma {:induction false} NothingYet(c: Config)
    ensures Legal(c, []) && After(c, []) == INITIAL
  {
  }

  lemma {:induction false} LastBlock(e: B.Esl, c: Config, s: Call, block: B.Block)
    ensures B.ReadBlocks(e, [block]) == if block.ReplyOk? then B.Authenticate(e) else e
    ensures OnBlocks(c, s, [block]) == OnBlock(c, s, block)
  {
    assert [block][..0] == [] && B.ReadBlocks(e, []) == e && OnBlocks(c, s, []) == s;
  }

  /**
   * While a radio user is keyed up the detector is not asked: the phone's hold on the transmitter stays as it
   * was, though the caller has stopped talking.
   */
  lemma {:induction false} TalkedOverStaysHeld(c: Config)
    requires !c.adminOnly
    ensures Legal(c, TALKED_OVER)
    ensures var s := After(c, TALKED_OVER).call; s.cor && s.held && s.ptt == 1
  {
    hide After, Legal, Create, B.ReadBlocks, OnBlocks;
    NothingYet(c);
    var r1 := [] + [Configure(true)];
    OneMore(c, [], Configure(true));
    var r2 := r1 + [Tick(true, B.Nothing, false)];
    OneMore(c, r1, Tick(true, B.Nothing, false));
    var r3 := r2 + [Tick(true, B.Blocks([B.ReplyOk]), false)];
    LastBlock(After(c, r2).esl, c, After(c, r2).call, B.ReplyOk);
    OneMore(c, r2, Tick(true, B.Blocks([B.ReplyOk]), false));
    var r4 := r3 + [Dial(true, true)];
    OneMore(c, r3, Dial(true, true));
    var answer := Tick(true, B.Blocks([B.Answer("u", B.Opens)]), true);
    LastBlock(After(c, r4).esl, c, After(c, r4).call, B.Answer("u", B.Opens));
    var r5 := r4 + [answer];
    OneMore(c, r4, answer);
    OneMore(c, r5, CorAssert);
    OneMore(c, r5 + [CorAssert], Tick(true, B.Nothing, false));
  }

  // ---- The delays ----

  /** Every timer of the call is set for its own time. */
  predicate SetRight(c: Config, s: Call) {
    && (s.callTimer != -1 ==> Runs(s.timers, s.callTimer, c.maxCallMs))
    && (s.dialTimer != -1 ==> Runs(s.timers, s.dialTimer, c.dialMs))
    && (s.inactivityTimer != -1 ==> Runs(s.timers, s.inactivityTimer, c.inactivityMs))
  }

  lemma {:induction false} IdleSetsNothing(c: Config, s: Call)
    requires InStep(c, s) && s.state == Idle
    ensures SetRight(c, s)
  {
  }

  lemma {:induction false} AnswerSetsRight(c: Config, s: Call, uuid: string)
    requires InStep(c, s) && Calling(s)
    ensures SetRight(c, SetUpAudio(c, s.(uuid := uuid, state := Connected), B.Opens))
  {
  }

  lemma {:induction false} BlockSetsRight(c: Config, s: Call, block: B.Block)
    requires InStep(c, s) && SetRight(c, s)
    ensures SetRight(c, OnBlock(c, s, block))
  {
    hide InStep, SetUpAudio, Teardown;
    BlockKeeps(c, s, block);
    BlockStates(c, s, block);
    var q := OnBlock(c, s, block);
    if q.state == Idle {
      IdleSetsNothing(c, q);
    } else if block.Answer? && Calling(s) {
      AnswerSetsRight(c, s, if s.uuid == "" then block.uuid else s.uuid);
    } else {
      assert q == s || q == s.(state := Ringing);
    }
  }

  lemma {:induction false} BlocksSetRight(c: Config, s: Call, blocks: seq<B.Block>)
    requires InStep(c, s) && SetRight(c, s)
    ensures SetRight(c, OnBlocks(c, s, blocks))
  {
    hide InStep, SetRight, OnBlock;
    if blocks != [] {
      var init := blocks[..|blocks| - 1];
      BlocksSetRight(c, s, init);
      BlocksKeep(c, s, init);
      BlockSetsRight(c, OnBlocks(c, s, init), blocks[|blocks| - 1]);
    }
  }

  lemma {:induction false} PollSetsRight(c: Config, s: Call, open: bool, recv: B.Recv)
    requires InStep(c, s) && SetRight(c, s)
    ensures SetRight(c, OnPoll(c, s, open, recv))
  {
    hide InStep, OnBlocks, Teardown, SetRight;
    PollKeeps(c, s, open, recv);
    if open && recv.Blocks? { BlocksSetRight(c, s, recv.blocks); }
    if open && recv.Closed? { IdleSetsNothing(c, OnPoll(c, s, open, recv)); }
  }

  lemma {:induction false} CorAssertSetsRight(c: Config, s: Call)
    requires InStep(c, s) && SetRight(c, s)
    ensures SetRight(c, OnCorAssert(c, s))
    ensures s.active && c.inactivityMs > 0 ==> OnCorAssert(c, s).inactivityTimer == s.timers.nextId
  {
  }

  lemma {:induction false} DialSetsRight(c: Config, s: Call, e: B.Esl, allowed: bool, sent: bool)
    requires InStep(c, s) && SetRight(c, s)
    ensures SetRight(c, OnDial(c, s, e, allowed, sent))
  {
  }

  lemma {:induction false} VoxSetsRight(c: Config, s: Call, speaking: bool)
    requires SetRight(c, s)
    ensures SetRight(c, OnVox(s, speaking))
  {
  }

  lemma {:induction false} StepSetsRight(c: Config, b: Bridge, x: Input)
    requires Invariant(c, b) && Enabled(b, x) && SetRight(c, b.call)
    ensures SetRight(c, Step(c, b, x).call)
  {
    hide InStep, B.Regular, OnPoll, OnVox, OnFire, OnDial, OnCorAssert, HangUpCall, B.PollEsl, SetRight;
    StepKeeps(c, b, x);
    match x
    case Tick(_, recv, speaking) =>
      PollSetsRight(c, b.call, b.esl.open, recv);
      VoxSetsRight(c, OnPoll(c, b.call, b.esl.open, recv), speaking);
    case Fire(id) => FireIsClean(c, b.call, id); IdleSetsNothing(c, OnFire(b.call, id));
    case Dial(allowed, sent) => DialSetsRight(c, b.call, b.esl, allowed, sent);
    case HangUp => HangUpKeeps(c, b.call); IdleSetsNothing(c, HangUpCall(b.call));
    case Shutdown => HangUpKeeps(c, b.call); IdleSetsNothing(c, HangUpCall(b.call));
    case CorAssert => CorAssertSetsRight(c, b.call);
    case CorDrop => SameTimers(c, b.call);
    case Configure(_) =>
  }

  lemma {:induction false} SameTimers(c: Config, s: Call)
    requires SetRight(c, s)
    ensures SetRight(c, s.(cor := false))
  {
  }

  /** After every run each live timer of the call has been set for the time configured for it. */
  lemma {:induction false} TimersAreSetRight(c: Config, run: seq<Input>)
    requires Legal(c, run)
    ensures SetRight(c, After(c, run).call)
  {
    hide Step, Invariant, SetRight;
    if run == [] {
      NothingSet(c);
    } else {
      var before, x := run[..|run| - 1], run[|run| - 1];
      assert run == before + [x];
      TimersAreSetRight(c, before);
      RunKeeps(c, before);
      StepSetsRight(c, After(c, before), x);
    }
  }

  lemma {:induction false} NothingSet(c: Config)
    ensures After(c, []) == INITIAL && SetRight(c, INITIAL.call)
  {
  }

  /** A radio user who keys up during a call starts the inactivity time anew. */
  lemma {:induction false} CorRestartsInactivity(c: Config, run: seq<Input>)
    requires Legal(c, run) && After(c, run).call.state == Connected && c.inactivityMs > 0
    ensures var s, q := After(c, run).call, Step(c, After(c, run), CorAssert).call;
            && q.inactivityTimer !in s.timers.armed && Runs(q.timers, q.inactivityTimer, c.inactivityMs)
            && s.inactivityTimer !in q.timers.armed
  {
    hide After, Legal;
    RunKeeps(c, run);
    hide B.Regular;
  }
}
