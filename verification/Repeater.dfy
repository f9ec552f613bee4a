/** The repeater state machine of modules/mod_repeater.c as a function of its events. */
module RepeaterSpec {
  import opened Timers

  datatype State = Idle | Receiving | TailWait | HangWait | RxTimeout | Bridging

  // The hang timer runs the same callback as the tail timer.
  datatype Callback = TailExpired | TotExpired | DebounceExpired

  datatype Config = Config(tailMs: int, hangMs: int, totMs: int, debounceMs: int, requireId: bool, relay: bool)

  datatype Event = StateChange(was: State, now: State) | TailStart | TailExpire | RxTimedOut

  /** `ptt` is requests minus releases by this module; `fired` lists its events so far. */
  datatype Repeater = Repeater(state: State, tail: int, hang: int, tot: int, debounce: int, identified: bool,
                               timers: Timers<Callback>, ptt: int, fired: seq<Event>)

  datatype Input =
    | CorAssert | CorDrop | LinkRxAssert | LinkRxDrop | CallerIdentified | CallerCleared
    | Fire(id: int)

  const INITIAL: Repeater := Repeater(Idle, -1, -1, -1, -1, false, Timers(map[], map[], 1), 0, [])

  function ChangeState(s: Repeater, to: State): Repeater {
    if to == s.state then s else s.(state := to, fired := s.fired + [StateChange(s.state, to)])
  }

  function RequestPtt(c: Config, s: Repeater): Repeater {
    if c.relay then s.(ptt := s.ptt + 1) else s
  }

  function ReleasePtt(c: Config, s: Repeater): Repeater {
    if c.relay then s.(ptt := s.ptt - 1) else s
  }

  function ArmTail(c: Config, s: Repeater): Repeater {
    var (t, id) := Create(s.timers, c.tailMs, TailExpired);
    s.(timers := t, tail := id)
  }

  function ArmHang(c: Config, s: Repeater): Repeater {
    var (t, id) := Create(s.timers, c.hangMs, TailExpired);
    s.(timers := t, hang := id)
  }

  function ArmTot(c: Config, s: Repeater): Repeater {
    var (t, id) := Create(s.timers, c.totMs, TotExpired);
    s.(timers := t, tot := id)
  }

  function ArmDebounce(c: Config, s: Repeater): Repeater {
    var ms := if c.requireId && c.debounceMs < 500 then 500 else c.debounceMs;
    var (t, id) := Create(s.timers, ms, DebounceExpired);
    s.(timers := t, debounce := id)
  }

  function DropTail(s: Repeater): Repeater {
    if s.tail >= 0 then s.(timers := Cancel(s.timers, s.tail), tail := -1) else s
  }

  function DropHang(s: Repeater): Repeater {
    if s.hang >= 0 then s.(timers := Cancel(s.timers, s.hang), hang := -1) else s
  }

  function DropTot(s: Repeater): Repeater {
    if s.tot >= 0 then s.(timers := Cancel(s.timers, s.tot), tot := -1) else s
  }

  function DropDebounce(s: Repeater): Repeater {
    if s.debounce >= 0 then s.(timers := Cancel(s.timers, s.debounce), debounce := -1) else s
  }

  function StartReceiving(c: Config, emergency: bool, s: Repeater): Repeater {
    var s1 := ChangeState(RequestPtt(c, s), Receiving);
    if emergency then s1 else ArmTot(c, s1)
  }

  function OnCorAssert(c: Config, emergency: bool, s: Repeater): Repeater {
    match s.state
    case Idle =>
      var s1 := s.(identified := false);
      if Debounces(c) then ArmDebounce(c, DropDebounce(s1))
      else StartReceiving(c, emergency, s1)
    case TailWait => ChangeState(DropTail(s), Receiving)
    case HangWait => ArmTot(c, DropTot(ChangeState(DropHang(s), Receiving)))
    case _ => s
  }

  function OnCorDrop(c: Config, s: Repeater): Repeater {
    if s.debounce >= 0 then DropDebounce(s)
    else
      match s.state
      case Receiving =>
        var s1 := ArmTail(c, ChangeState(DropTot(s), TailWait));
        s1.(fired := s1.fired + [TailStart])
      case RxTimeout => ChangeState(ReleasePtt(c, s), Idle)
      case _ => s
  }

  /** A live one-shot timer has left the service and its callback runs. */
  function OnTimer(c: Config, emergency: bool, s: Repeater, callback: Callback): Repeater {
    match callback
    case TailExpired =>
      var s1 := s.(tail := -1);
      if s1.state == TailWait then ArmHang(c, ChangeState(s1.(fired := s1.fired + [TailExpire]), HangWait))
      else if s1.state == HangWait then ChangeState(ReleasePtt(c, s1.(hang := -1)), Idle)
      else s1
    case TotExpired =>
      var s1 := s.(tot := -1);
      if emergency then s1 else ChangeState(s1.(fired := s1.fired + [RxTimedOut]), RxTimeout)
    case DebounceExpired =>
      var s1 := s.(debounce := -1);
      if s1.state != Idle || (c.requireId && !s1.identified) then s1 else StartReceiving(c, emergency, s1)
  }

  predicate Enabled(s: Repeater, x: Input) {
    x.Fire? ==> x.id in s.timers.armed
  }

  function Step(c: Config, emergency: bool, s: Repeater, x: Input): Repeater
    requires Enabled(s, x)
  {
    match x
    case CorAssert => OnCorAssert(c, emergency, s)
    case CorDrop => OnCorDrop(c, s)
    case LinkRxAssert => if s.state == Idle then ChangeState(s, Bridging) else s
    case LinkRxDrop => if s.state == Bridging then ChangeState(s, Idle) else s
    case CallerIdentified => s.(identified := true)
    case CallerCleared => if s.state == Idle then s.(identified := false) else s
    case Fire(id) => OnTimer(c, emergency, s.(timers := Cancel(s.timers, id)), s.timers.armed[id])
  }

  // ---- What every run keeps ----

  /** What configuration loading leaves: the ranges the module clamps to. */
  predicate Configured(c: Config) {
    && 0 <= c.tailMs <= 30000 && 0 <= c.hangMs <= 10000
    && 10000 <= c.totMs <= 600000 && 0 <= c.debounceMs <= 5000
  }

  /** A timer variable names a live timer with its callback, or none. */
  predicate Names(timers: Timers<Callback>, id: int, callback: Callback) {
    id == -1 || (id in timers.armed && timers.armed[id] == callback)
  }

  /** Each timer is held only in its own states. */
  predicate TimersFitState(s: Repeater) {
    && (s.tail != -1 ==> s.state == TailWait)
    && (s.hang != -1 ==> s.state == HangWait)
    && (s.tot != -1 ==> s.state == Receiving)
    && (s.debounce != -1 ==> s.state == Idle || s.state == Bridging)
  }

  /** Debounce is used only when it is configured. */
  predicate Debounces(c: Config) {
    c.debounceMs > 0 || c.requireId
  }

  /** Every live timer is held by exactly one variable, so none can fire unexpectedly. */
  ghost predicate TimersHeld(s: Repeater) {
    && Sound(s.timers)
    && Names(s.timers, s.tail, TailExpired) && Names(s.timers, s.hang, TailExpired)
    && Names(s.timers, s.tot, TotExpired) && Names(s.timers, s.debounce, DebounceExpired)
    && forall id :: id in s.timers.armed ==> id == s.tail || id == s.hang || id == s.tot || id == s.debounce
  }

  /** With a positive delay the tail and hang states always have their timer. */
  predicate WaitsAreTimed(c: Config, s: Repeater) {
    && (s.state == TailWait ==> (s.tail != -1 <==> c.tailMs > 0))
    && (s.state == HangWait ==> (s.hang != -1 <==> c.hangMs > 0))
    && (s.debounce != -1 ==> Debounces(c))
  }

  predicate Busy(s: State) {
    s == Receiving || s == TailWait || s == HangWait || s == RxTimeout
  }

  /** The transmitter is keyed once through the busy states of a relaying repeater, and not otherwise. */
  predicate PttFits(c: Config, s: Repeater) {
    s.ptt == if c.relay && Busy(s.state) then 1 else 0
  }

  ghost predicate Invariant(c: Config, s: Repeater) {
    TimersFitState(s) && TimersHeld(s) && WaitsAreTimed(c, s) && PttFits(c, s)
  }

  lemma {:induction false} StartReceivingKeeps(c: Config, emergency: bool, s: Repeater)
    requires Configured(c) && Invariant(c, s) && s.state == Idle && s.debounce == -1
    ensures Invariant(c, StartReceiving(c, emergency, s))
  {
  }

  lemma {:induction false} DebounceStartKeeps(c: Config, s: Repeater)
    requires Configured(c) && Invariant(c, s) && s.state == Idle && Debounces(c)
    ensures Invariant(c, ArmDebounce(c, DropDebounce(s)))
  {
  }

  lemma {:induction false} RekeyKeeps(c: Config, s: Repeater)
    requires Configured(c) && Invariant(c, s)
    ensures s.state == TailWait ==> Invariant(c, ChangeState(DropTail(s), Receiving))
    ensures s.state == HangWait ==> Invariant(c, ArmTot(c, DropTot(ChangeState(DropHang(s), Receiving))))
  {
  }

  lemma {:induction false} CorAssertKeeps(c: Config, emergency: bool, s: Repeater)
    requires Configured(c) && Invariant(c, s)
    ensures Invariant(c, OnCorAssert(c, emergency, s))
  {
    hide ArmDebounce, DropDebounce, StartReceiving, ChangeState, DropTail, DropTot, DropHang, ArmTot;
    if s.state == Idle {
      var s1 := s.(identified := false);
      if Debounces(c) {
        DebounceStartKeeps(c, s1);
      } else {
        StartReceivingKeeps(c, emergency, s1);
      }
    }
    RekeyKeeps(c, s);
  }

  lemma {:induction false} UnkeyKeeps(c: Config, s: Repeater)
    requires Configured(c) && Invariant(c, s) && s.state == Receiving
    ensures Invariant(c, ArmTail(c, ChangeState(DropTot(s), TailWait)))
  {
  }

  lemma {:induction false} DropDebounceKeeps(c: Config, s: Repeater)
    requires Configured(c) && Invariant(c, s) && s.debounce >= 0
    ensures Invariant(c, DropDebounce(s))
  {
  }

  lemma {:induction false} CorDropKeeps(c: Config, s: Repeater)
    requires Configured(c) && Invariant(c, s)
    ensures Invariant(c, OnCorDrop(c, s))
  {
    hide ArmTail, DropTot, DropDebounce;
    if s.debounce >= 0 {
      DropDebounceKeeps(c, s);
    } else if s.state == Receiving {
      UnkeyKeeps(c, s);
    }
  }

  /** The state in which a callback runs: its own timer has left the service. */
  ghost predicate Fired(c: Config, s: Repeater, callback: Callback) {
    && TimersFitState(s) && Sound(s.timers) && PttFits(c, s)
    && (s.debounce != -1 ==> Debounces(c))
    && match callback
       case TailExpired =>
         && (s.state == TailWait || s.state == HangWait) && s.timers.armed == map[]
         && s.tot == -1 && s.debounce == -1
       case TotExpired =>
         && s.state == Receiving && s.timers.armed == map[] && s.tail == -1 && s.hang == -1 && s.debounce == -1
       case DebounceExpired =>
         && (s.state == Idle || s.state == Bridging) && s.timers.armed == map[]
         && s.tail == -1 && s.hang == -1 && s.tot == -1
  }

  /** No two timers are ever live together, so firing one leaves none. */
  lemma {:induction false} FireLeavesNone(c: Config, s: Repeater, id: int)
    requires Invariant(c, s) && id in s.timers.armed
    ensures Fired(c, s.(timers := Cancel(s.timers, id)), s.timers.armed[id])
  {
    forall j | j in s.timers.armed
      ensures j == id
    {
    }
    assert Cancel(s.timers, id).armed == map[];
  }

  lemma {:induction false} CallbackKeeps(c: Config, emergency: bool, s: Repeater, callback: Callback)
    requires Configured(c) && Fired(c, s, callback)
    ensures Invariant(c, OnTimer(c, emergency, s, callback))
  {
  }

  lemma {:induction false} FireKeeps(c: Config, emergency: bool, s: Repeater, id: int)
    requires Configured(c) && Invariant(c, s) && id in s.timers.armed
    ensures Invariant(c, Step(c, emergency, s, Fire(id)))
  {
    hide Invariant, Fired, OnTimer;
    FireLeavesNone(c, s, id);
    CallbackKeeps(c, emergency, s.(timers := Cancel(s.timers, id)), s.timers.armed[id]);
  }

  lemma {:induction false} StepKeeps(c: Config, emergency: bool, s: Repeater, x: Input)
    requires Configured(c) && Invariant(c, s) && Enabled(s, x)
    ensures Invariant(c, Step(c, emergency, s, x))
  {
    match x
    case CorAssert => CorAssertKeeps(c, emergency, s);
    case CorDrop => CorDropKeeps(c, s);
    case Fire(id) => FireKeeps(c, emergency, s, id);
    case _ =>
  }

  lemma {:induction false} NothingElseLive(c: Config, s: Repeater)
    requires Invariant(c, s)
    ensures s.timers.armed - {s.tail, s.hang, s.tot, s.debounce} == map[]
  {
    var held := {s.tail, s.hang, s.tot, s.debounce};
    forall id | id in s.timers.armed.Keys
      ensures id in held
    {
      assert id in s.timers.armed;
    }
    assert (s.timers.armed - held).Keys == s.timers.armed.Keys - held == {};
  }

  lemma {:induction false} InitialInvariant(c: Config)
    ensures Invariant(c, INITIAL)
  {
  }

  // ---- Runs ----

  /** One event, with the core's emergency flag at that moment. */
  datatype Moment = Moment(emergency: bool, input: Input)

  predicate Legal(c: Config, run: seq<Moment>)
    decreases |run|, 0
  {
    run == [] ||
    (Legal(c, run[..|run| - 1]) && Enabled(After(c, run[..|run| - 1]), run[|run| - 1].input))
  }

  function After(c: Config, run: seq<Moment>): Repeater
    requires Legal(c, run)
    decreases |run|, 1
  {
    if run == [] then INITIAL
    else Step(c, run[|run| - 1].emergency, After(c, run[..|run| - 1]), run[|run| - 1].input)
  }

  /** Timers, states and the transmitter fit together after every run. */
  lemma {:induction false} RunKeeps(c: Config, run: seq<Moment>)
    requires Configured(c) && Legal(c, run)
    ensures Invariant(c, After(c, run))
  {
    hide Invariant, Step;
    if run == [] {
      InitialInvariant(c);
    } else {
      var before, m := run[..|run| - 1], run[|run| - 1];
      RunKeeps(c, before);
      StepKeeps(c, m.emergency, After(c, before), m.input);
    }
  }

  /** A timeout begins only by the time-out timer, while receiving, and never in an emergency. */
  lemma {:induction false} NoTimeoutInEmergency(c: Config, run: seq<Moment>)
    requires Configured(c) && run != [] && Legal(c, run)
    requires After(c, run).state == RxTimeout && After(c, run[..|run| - 1]).state != RxTimeout
    ensures var s, m := After(c, run[..|run| - 1]), run[|run| - 1];
            !m.emergency && s.state == Receiving && m.input.Fire? && s.timers.armed[m.input.id] == TotExpired
  {
    hide After;
    RunKeeps(c, run[..|run| - 1]);
    LastStep(c, run);
  }

  lemma {:induction false} LastStep(c: Config, run: seq<Moment>)
    requires run != [] && Legal(c, run)
    ensures var s, m := After(c, run[..|run| - 1]), run[|run| - 1];
            Enabled(s, m.input) && After(c, run) == Step(c, m.emergency, s, m.input)
  {
  }

  /** A key-up that is admitted. */
  function AdmittedRun(c: Config): seq<Moment> {
    [Moment(false, CorAssert), Moment(false, CallerIdentified)]
    + (if Debounces(c) then [Moment(false, Fire(1))] else [])
  }

  /** A key-up that is admitted, then unkeyed. */
  function KeyedRun(c: Config): seq<Moment> {
    AdmittedRun(c) + [Moment(false, CorDrop)]
  }

  lemma {:induction false} OneMore(c: Config, run: seq<Moment>, m: Moment)
    requires Legal(c, run) && Enabled(After(c, run), m.input)
    ensures Legal(c, run + [m]) && After(c, run + [m]) == Step(c, m.emergency, After(c, run), m.input)
  {
    assert (run + [m])[..|run|] == run;
  }

  lemma {:induction false} FirstKey(c: Config)
    requires Configured(c)
    ensures var s := Step(c, false, INITIAL, CorAssert);
            if Debounces(c) then s == INITIAL.(debounce := 1, timers := Timers(map[1 := DebounceExpired], map[1 := if c.requireId && c.debounceMs < 500 then 500 else c.debounceMs], 2))
            else s.state == Receiving && s.debounce == -1 && TimesOut(s)
  {
  }

  /** The time-out timer is live. */
  predicate TimesOut(s: Repeater) {
    s.tot in s.timers.armed && s.timers.armed[s.tot] == TotExpired
  }

  lemma {:induction false} Unkey(c: Config, s: Repeater)
    requires s.state == Receiving && s.debounce == -1
    ensures Step(c, false, s, CorDrop).state == TailWait
  {
  }

  lemma {:induction false} Admit(c: Config, s: Repeater)
    requires s.state == Idle && s.identified && 1 in s.timers.armed && s.timers.armed[1] == DebounceExpired
    requires Configured(c)
    ensures var q := Step(c, false, s, Fire(1)); q.state == Receiving && q.debounce == -1 && TimesOut(q)
  {
  }

  lemma {:induction false} AdmittedRunReceives(c: Config)
    requires Configured(c)
    ensures Legal(c, AdmittedRun(c))
    ensures var s := After(c, AdmittedRun(c)); s.state == Receiving && s.debounce == -1 && TimesOut(s)
  {
    hide After, Legal, OnCorAssert, OnCorDrop, OnTimer;
    Nothing(c);
    FirstKey(c);
    var a, i, f := Moment(false, CorAssert), Moment(false, CallerIdentified), Moment(false, Fire(1));
    OneMore(c, [], a);
    assert [] + [a] == [a];
    OneMore(c, [a], i);
    assert [a] + [i] == [a, i];
    if Debounces(c) {
      Admit(c, After(c, [a, i]));
      OneMore(c, [a, i], f);
    } else {
      assert [a, i] + [] == [a, i];
    }
  }

  lemma {:induction false} KeyedRunWaits(c: Config)
    requires Configured(c)
    ensures Legal(c, KeyedRun(c)) && After(c, KeyedRun(c)).state == TailWait
  {
    hide After, Legal, OnCorDrop, AdmittedRun;
    AdmittedRunReceives(c);
    Unkey(c, After(c, AdmittedRun(c)));
    OneMore(c, AdmittedRun(c), Moment(false, CorDrop));
  }

  lemma {:induction false} Nothing(c: Config)
    ensures Legal(c, []) && After(c, []) == INITIAL
  {
  }

  /**
   * "Tail timer armed" and "waiting out the tail" are the same thing on every run exactly when the tail
   * time is positive: the timer service refuses a zero delay, and the state then has nothing to end it.
   */
  lemma {:induction false} TailTimedIffPositive(c: Config)
    requires Configured(c)
    ensures c.tailMs > 0 <==>
            forall run: seq<Moment> | Legal(c, run) ::
              After(c, run).state == TailWait <==> After(c, run).tail in After(c, run).timers.armed
  {
    if c.tailMs > 0 {
      forall run: seq<Moment> | Legal(c, run)
        ensures After(c, run).state == TailWait <==> After(c, run).tail in After(c, run).timers.armed
      {
        RunKeeps(c, run);
        TailTimed(c, After(c, run));
      }
    } else {
      KeyedRunWaits(c);
      RunKeeps(c, KeyedRun(c));
      TailTimed(c, After(c, KeyedRun(c)));
    }
  }

  lemma {:induction false} TailTimed(c: Config, s: Repeater)
    requires Invariant(c, s)
    ensures c.tailMs > 0 ==> (s.state == TailWait <==> s.tail in s.timers.armed)
    ensures c.tailMs <= 0 ==> s.tail !in s.timers.armed
  {
  }

  // ---- Unloading ----

  /** What is left of the requests made of the transmitter when the module is unloaded. */
  function PttAfterUnload(c: Config, s: Repeater): int {
    if c.relay && (s.state == Receiving || s.state == TailWait || s.state == HangWait) then s.ptt - 1 else s.ptt
  }

  /** Unloading lets go of the transmitter, whenever it comes, exactly when no time-out is on. */
  lemma {:induction false} UnloadReleasesIff(c: Config, run: seq<Moment>)
    requires Configured(c) && Legal(c, run)
    ensures PttAfterUnload(c, After(c, run)) == 0 <==> !(c.relay && After(c, run).state == RxTimeout)
  {
    hide After;
    RunKeeps(c, run);
  }

  /** A key-up that lasts until the time-out timer fires. */
  function TimedOutRun(c: Config): seq<Moment>
    requires Configured(c)
  {
    AdmittedRunReceives(c);
    AdmittedRun(c) + [Moment(false, Fire(After(c, AdmittedRun(c)).tot))]
  }

  /** Such a run ends with the transmitter requested, and unloading there leaves it so. */
  lemma {:induction false} UnloadInTimeoutKeepsPtt(c: Config)
    requires Configured(c) && c.relay
    ensures Legal(c, TimedOutRun(c)) && After(c, TimedOutRun(c)).state == RxTimeout
    ensures PttAfterUnload(c, After(c, TimedOutRun(c))) == 1
  {
    hide After, Legal, AdmittedRun, OnCorAssert, OnCorDrop;
    AdmittedRunReceives(c);
    OneMore(c, AdmittedRun(c), Moment(false, Fire(After(c, AdmittedRun(c)).tot)));
    RunKeeps(c, TimedOutRun(c));
  }

  // ---- The closed repeater ----

  /** The state that the first `n` events of the run lead to. */
  function StateAt(c: Config, run: seq<Moment>, n: nat): State
    requires Legal(c, run) && n <= |run|
  {
    LegalPrefix(c, run, n);
    After(c, run[..n]).state
  }

  /** Event `k` takes the repeater from idle to receiving, and it has been busy ever since. */
  predicate SessionFrom(c: Config, run: seq<Moment>, k: nat)
    requires Legal(c, run)
  {
    && k < |run| && StateAt(c, run, k) == Idle && StateAt(c, run, k + 1) == Receiving
    && forall j: nat :: k < j <= |run| ==> Busy(StateAt(c, run, j))
  }

  lemma {:induction false} SameState(c: Config, run: seq<Moment>, m: Moment, n: nat)
    requires Legal(c, run + [m]) && Legal(c, run) && n <= |run|
    ensures StateAt(c, run + [m], n) == StateAt(c, run, n)
  {
    assert (run + [m])[..n] == run[..n];
  }

  lemma {:induction false} StateAtEnd(c: Config, run: seq<Moment>)
    requires Legal(c, run)
    ensures StateAt(c, run, |run|) == After(c, run).state
  {
    assert run[..|run|] == run;
  }

  /** The busy states are entered only from idle, and only by receiving. */
  lemma {:induction false} BusyBeginsReceiving(c: Config, s: Repeater, m: Moment)
    requires Configured(c) && Invariant(c, s) && Enabled(s, m.input)
    requires !Busy(s.state) && Busy(Step(c, m.emergency, s, m.input).state)
    ensures s.state == Idle && Step(c, m.emergency, s, m.input).state == Receiving
  {
  }

  /** Whenever the repeater is busy, one event has begun it and no idle moment lies between. */
  lemma {:induction false} BusyHasSession(c: Config, run: seq<Moment>)
    requires Configured(c) && Legal(c, run) && Busy(After(c, run).state)
    ensures exists k: nat :: SessionFrom(c, run, k)
  {
    hide Step, Invariant, StateAt;
    var before, m := run[..|run| - 1], run[|run| - 1];
    assert run == before + [m];
    LastStep(c, run);
    StateAtEnd(c, run);
    StateAtEnd(c, before);
    SameState(c, before, m, |before|);
    if Busy(After(c, before).state) {
      BusyHasSession(c, before);
      var k: nat :| SessionFrom(c, before, k);
      SameState(c, before, m, k);
      forall j: nat | k < j <= |run|
        ensures Busy(StateAt(c, run, j)) && (j == k + 1 ==> StateAt(c, run, j) == Receiving)
      {
        if j <= |before| { SameState(c, before, m, j); }
      }
      assert SessionFrom(c, run, k);
    } else {
      RunKeeps(c, before);
      BusyBeginsReceiving(c, After(c, before), m);
      assert SessionFrom(c, run, |before|);
    }
  }

  /** Event `a` of the run is a COR assert that finds the repeater idle: it opens an access cycle. */
  predicate Opens(c: Config, run: seq<Moment>, a: nat)
    requires Legal(c, run) && a < |run|
  {
    LegalPrefix(c, run, a);
    run[a].input == CorAssert && After(c, run[..a]).state == Idle
  }

  /** Event `j` is a CALLER_CLEARED that finds the repeater idle, the only kind it acts on. */
  predicate Revokes(c: Config, run: seq<Moment>, j: nat)
    requires Legal(c, run) && j < |run|
  {
    LegalPrefix(c, run, j);
    run[j].input == CallerCleared && After(c, run[..j]).state == Idle
  }

  lemma {:induction false} LegalPrefix(c: Config, run: seq<Moment>, n: nat)
    requires Legal(c, run) && n <= |run|
    ensures Legal(c, run[..n])
    decreases |run|
  {
    if n == |run| {
      assert run[..n] == run;
    } else {
      LegalPrefix(c, run[..|run| - 1], n);
      assert run[..|run| - 1][..n] == run[..n];
    }
  }

  /** `i` identifies a caller, and nothing after it opens a new cycle or revokes it. */
  predicate Identification(c: Config, run: seq<Moment>, i: nat)
    requires Legal(c, run)
  {
    && i < |run| && run[i].input == CallerIdentified
    && forall j: nat :: i < j < |run| ==> !Opens(c, run, j) && !Revokes(c, run, j)
  }

  /** `a` opens the cycle under way: no later event opens one, and COR has not dropped since. */
  predicate OpenCycle(c: Config, run: seq<Moment>, a: nat)
    requires Legal(c, run)
  {
    && a < |run| && Opens(c, run, a)
    && forall j: nat :: a < j < |run| ==> !Opens(c, run, j) && run[j].input != CorDrop
  }

  /** The event at `j < |run|` of a longer run is the event of the shorter one. */
  lemma {:induction false} SameEvent(c: Config, run: seq<Moment>, m: Moment, j: nat)
    requires Legal(c, run + [m]) && Legal(c, run) && j < |run|
    ensures Opens(c, run + [m], j) == Opens(c, run, j) && Revokes(c, run + [m], j) == Revokes(c, run, j)
  {
    assert (run + [m])[..j] == run[..j];
  }

  lemma {:induction false} IdentifiedHasCause(c: Config, run: seq<Moment>)
    requires Legal(c, run) && After(c, run).identified
    ensures exists i: nat :: Identification(c, run, i)
  {
    hide OnCorAssert, OnCorDrop, OnTimer;
    var before, m := run[..|run| - 1], run[|run| - 1];
    assert run == before + [m];
    LastStep(c, run);
    assert run[..|before|] == before;
    if m.input == CallerIdentified {
      assert Identification(c, run, |before|);
    } else {
      IdentifiedBefore(c, After(c, before), m);
      IdentifiedHasCause(c, before);
      var i: nat :| Identification(c, before, i);
      forall j: nat | i < j < |run|
        ensures !Opens(c, run, j) && !Revokes(c, run, j)
      {
        if j < |before| {
          SameEvent(c, before, m, j);
        }
      }
      assert Identification(c, run, i);
    }
  }

  /** Only CALLER_IDENTIFIED sets the flag; an idle COR assert and an idle clear reset it. */
  lemma {:induction false} IdentifiedBefore(c: Config, s: Repeater, m: Moment)
    requires Enabled(s, m.input) && m.input != CallerIdentified
    requires Step(c, m.emergency, s, m.input).identified
    ensures s.identified
    ensures !(s.state == Idle && (m.input == CorAssert || m.input == CallerCleared))
  {
  }

  lemma {:induction false} DebounceHasCause(c: Config, run: seq<Moment>)
    requires Configured(c) && Legal(c, run) && After(c, run).debounce != -1
    ensures exists a: nat :: OpenCycle(c, run, a)
  {
    hide OnCorAssert, OnCorDrop, OnTimer;
    var before, m := run[..|run| - 1], run[|run| - 1];
    assert run == before + [m];
    LastStep(c, run);
    assert run[..|before|] == before;
    RunKeeps(c, before);
    if m.input == CorAssert && After(c, before).state == Idle {
      assert OpenCycle(c, run, |before|);
    } else {
      DebouncedBefore(c, After(c, before), m);
      DebounceHasCause(c, before);
      var a: nat :| OpenCycle(c, before, a);
      SameEvent(c, before, m, a);
      forall j: nat | a < j < |run|
        ensures !Opens(c, run, j) && run[j].input != CorDrop
      {
        if j < |before| {
          SameEvent(c, before, m, j);
        }
      }
      assert OpenCycle(c, run, a);
    }
  }

  lemma {:induction false} DebouncedBefore(c: Config, s: Repeater, m: Moment)
    requires Invariant(c, s) && Enabled(s, m.input) && !(m.input == CorAssert && s.state == Idle)
    requires Step(c, m.emergency, s, m.input).debounce != -1
    ensures s.debounce != -1 && m.input != CorDrop
  {
  }

  /** How RECEIVING is entered: out of a passed debounce, or by a rekey. */
  lemma {:induction false} WaysIn(c: Config, s: Repeater, m: Moment)
    requires Configured(c) && c.requireId && Invariant(c, s) && Enabled(s, m.input)
    requires s.state != Receiving && Step(c, m.emergency, s, m.input).state == Receiving
    ensures if s.state == Idle
            then m.input.Fire? && s.timers.armed[m.input.id] == DebounceExpired && s.identified && s.debounce != -1
            else m.input == CorAssert && (s.state == TailWait || s.state == HangWait)
  {
  }

  /** Event `k` begins a session, after a cycle opened at `a` and an identification at `i`. */
  predicate Admission(c: Config, run: seq<Moment>, k: nat, a: nat, i: nat)
    requires Legal(c, run)
  {
    && SessionFrom(c, run, k)
    && (LegalPrefix(c, run, k); OpenCycle(c, run[..k], a) && Identification(c, run[..k], i) && a < i)
  }

  lemma {:induction false} EntryIsIdentified(c: Config, run: seq<Moment>)
    requires Configured(c) && c.requireId && run != [] && Legal(c, run)
    requires After(c, run).state == Receiving && After(c, run[..|run| - 1]).state == Idle
    ensures var before := run[..|run| - 1];
            exists a: nat, i: nat :: OpenCycle(c, before, a) && Identification(c, before, i) && a < i
  {
    hide Step, Invariant;
    var before, m := run[..|run| - 1], run[|run| - 1];
    LastStep(c, run);
    RunKeeps(c, before);
    WaysIn(c, After(c, before), m);
    IdentifiedHasCause(c, before);
    DebounceHasCause(c, before);
    var i: nat :| Identification(c, before, i);
    var a: nat :| OpenCycle(c, before, a);
    assert OpenCycle(c, before, a) && Identification(c, before, i) && a < i;
  }

  /**
   * Nobody gets through a closed repeater unidentified: whenever it is busy, in whatever state and after
   * however many rekeys, one event has begun the session out of idle, it has not been idle since, and
   * before that event came the COR assert opening the cycle and after it a CALLER_IDENTIFIED that no idle
   * CALLER_CLEARED had revoked.
   */
  lemma {:induction false} EverySessionIsAdmitted(c: Config, run: seq<Moment>)
    requires Configured(c) && c.requireId && Legal(c, run) && Busy(After(c, run).state)
    ensures exists k: nat, a: nat, i: nat :: Admission(c, run, k, a, i)
  {
    hide Step, Invariant, OpenCycle, Identification, After, Legal;
    BusyHasSession(c, run);
    var k: nat :| SessionFrom(c, run, k);
    LegalPrefix(c, run, k);
    LegalPrefix(c, run, k + 1);
    var entry := run[..k + 1];
    assert entry[..|entry| - 1] == run[..k];
    EntryIsIdentified(c, entry);
    var a: nat, i: nat :| OpenCycle(c, run[..k], a) && Identification(c, run[..k], i) && a < i;
    assert Admission(c, run, k, a, i);
  }

  /**
   * How a closed repeater comes to receive: out of idle after an identification, or by a rekey out of the
   * tail or hang of a session that was begun out of idle after one.
   */
  lemma {:induction false} ClosedRepeaterAdmitsIdentified(c: Config, run: seq<Moment>)
    requires Configured(c) && c.requireId && run != [] && Legal(c, run)
    requires After(c, run).state == Receiving && After(c, run[..|run| - 1]).state != Receiving
    ensures var before, s := run[..|run| - 1], After(c, run[..|run| - 1]);
            if s.state == Idle
            then exists a: nat, i: nat :: OpenCycle(c, before, a) && Identification(c, before, i) && a < i
            else && run[|run| - 1].input == CorAssert && (s.state == TailWait || s.state == HangWait)
                 && exists k: nat, a: nat, i: nat :: Admission(c, before, k, a, i)
  {
    hide Step, Invariant, OpenCycle, Identification, Admission;
    var before, m := run[..|run| - 1], run[|run| - 1];
    LastStep(c, run);
    RunKeeps(c, before);
    WaysIn(c, After(c, before), m);
    if After(c, before).state == Idle {
      EntryIsIdentified(c, run);
    } else {
      EverySessionIsAdmitted(c, before);
    }
  }

  /** A clear while debounce runs, then the end of any bridging, then the debounce timer. */
  function ClearThenExpire(c: Config, s: Repeater): Repeater
    requires s.debounce in s.timers.armed
  {
    var s1 := Step(c, false, s, CallerCleared);
    var s2 := Step(c, false, s1, LinkRxDrop);
    Step(c, false, s2, Fire(s.debounce))
  }

  /**
   * The stronger promise, no CALLER_CLEARED at all since the identification, is not kept: a clear that
   * arrives while the link is bridging is ignored, and the caller is still admitted. It is kept exactly
   * for clears that arrive in idle.
   */
  lemma {:induction false} ClearIsHonouredIffIdle(c: Config, s: Repeater)
    requires Configured(c) && c.requireId && Invariant(c, s) && s.identified && s.debounce != -1
    ensures ClearThenExpire(c, s).state != Receiving <==> s.state == Idle
  {
  }

  /** Such a state is reachable: COR, then the link, then an identification. */
  lemma {:induction false} BridgedClearIsIgnored(c: Config)
    requires Configured(c) && c.requireId
    ensures var run := [Moment(false, CorAssert), Moment(false, LinkRxAssert), Moment(false, CallerIdentified),
                        Moment(false, CallerCleared), Moment(false, LinkRxDrop), Moment(false, Fire(1))];
            Legal(c, run) && After(c, run).state == Receiving
  {
    hide After, Legal;
    var m := [Moment(false, CorAssert), Moment(false, LinkRxAssert), Moment(false, CallerIdentified),
              Moment(false, CallerCleared), Moment(false, LinkRxDrop), Moment(false, Fire(1))];
    Nothing(c);
    OneMore(c, [], m[0]);
    assert [] + [m[0]] == m[..1];
    OneMore(c, m[..1], m[1]);
    assert m[..1] + [m[1]] == m[..2];
    OneMore(c, m[..2], m[2]);
    assert m[..2] + [m[2]] == m[..3];
    OneMore(c, m[..3], m[3]);
    assert m[..3] + [m[3]] == m[..4];
    OneMore(c, m[..4], m[4]);
    assert m[..4] + [m[4]] == m[..5];
    OneMore(c, m[..5], m[5]);
    assert m[..5] + [m[5]] == m;
  }
}

/** The module's globals and handlers. */
module RepeaterModule {
  import opened Timers
  import opened RepeaterSpec

  class Globals {
    const config: Config
    var state: State
    var tailTimer: int
    var hangTimer: int
    var totTimer: int
    var debounceTimer: int
    var callerIdentified: bool
    // the core: its timers, this module's share of the PTT count, and the events it has seen
    var timers: Timers<Callback>
    var ptt: int
    var fired: seq<Event>

    ghost function View(): Repeater
      reads this
    {
      Repeater(state, tailTimer, hangTimer, totTimer, debounceTimer, callerIdentified, timers, ptt, fired)
    }

    constructor (config: Config)
      ensures View() == INITIAL && this.config == config
    {
      this.config := config;
      state := Idle;
      tailTimer, hangTimer, totTimer, debounceTimer := -1, -1, -1, -1;
      callerIdentified := false;
      timers, ptt, fired := Timers(map[], map[], 1), 0, [];
    }

    method TimerCreate(ms: int, callback: Callback) returns (id: int)
      modifies this`timers
      ensures (timers, id) == Create(old(timers), ms, callback)
    {
      var (t, i) := Create(timers, ms, callback);
      timers := t;
      id := i;
    }

    method ChangeTo(to: State)
      modifies this`state, this`fired
      ensures View() == ChangeState(old(View()), to)
    {
      if to == state {
        return;
      }
      var was := state;
      state := to;
      fired := fired + [StateChange(was, to)];
    }

    method BeginReceiving(emergency: bool)
      modifies this
      ensures View() == StartReceiving(config, emergency, old(View()))
    {
      if config.relay {
        ptt := ptt + 1;
      }
      ChangeTo(Receiving);
      if !emergency {
        totTimer := TimerCreate(config.totMs, TotExpired);
      }
    }

    method TailExpiredCallback()
      modifies this
      ensures View() == OnTimer(config, false, old(View()), TailExpired)
    {
      tailTimer := -1;
      if state == TailWait {
        fired := fired + [TailExpire];
        ChangeTo(HangWait);
        hangTimer := TimerCreate(config.hangMs, TailExpired);
      } else if state == HangWait {
        hangTimer := -1;
        if config.relay {
          ptt := ptt - 1;
        }
        ChangeTo(Idle);
      }
    }

    method DebounceExpiredCallback(emergency: bool)
      modifies this
      ensures View() == OnTimer(config, emergency, old(View()), DebounceExpired)
    {
      debounceTimer := -1;
      if state != Idle {
        return;
      }
      if config.requireId && !callerIdentified {
        return;
      }
      BeginReceiving(emergency);
    }

    method TotExpiredCallback(emergency: bool)
      modifies this
      ensures View() == OnTimer(config, emergency, old(View()), TotExpired)
    {
      totTimer := -1;
      if emergency {
        return;
      }
      fired := fired + [RxTimedOut];
      ChangeTo(RxTimeout);
    }

    /** The timer service fires a live one-shot timer. */
    method TimerFires(id: int, emergency: bool)
      requires id in timers.armed
      modifies this
      ensures View() == Step(config, emergency, old(View()), Fire(id))
    {
      var callback := timers.armed[id];
      timers := Cancel(timers, id);
      match callback
      case TailExpired => TailExpiredCallback();
      case TotExpired => TotExpiredCallback(emergency);
      case DebounceExpired => DebounceExpiredCallback(emergency);
    }

    method CorAsserted(emergency: bool)
      modifies this
      ensures View() == OnCorAssert(config, emergency, old(View()))
    {
      match state
      case Idle =>
        callerIdentified := false;
        if config.debounceMs > 0 || config.requireId {
          var debounce := config.debounceMs;
          if config.requireId && debounce < 500 {
            debounce := 500;
          }
          if debounceTimer >= 0 {
            timers := Cancel(timers, debounceTimer);
          }
          debounceTimer := TimerCreate(debounce, DebounceExpired);
        } else {
          BeginReceiving(emergency);
        }
      case TailWait =>
        if tailTimer >= 0 {
          timers := Cancel(timers, tailTimer);
          tailTimer := -1;
        }
        ChangeTo(Receiving);
      case HangWait =>
        if hangTimer >= 0 {
          timers := Cancel(timers, hangTimer);
          hangTimer := -1;
        }
        ChangeTo(Receiving);
        if totTimer >= 0 {
          timers := Cancel(timers, totTimer);
        }
        totTimer := TimerCreate(config.totMs, TotExpired);
      case _ =>
    }

    method CorDropped()
      modifies this
      ensures View() == OnCorDrop(config, old(View()))
    {
      if debounceTimer >= 0 {
        timers := Cancel(timers, debounceTimer);
        debounceTimer := -1;
        return;
      }
      match state
      case Receiving =>
        if totTimer >= 0 {
          timers := Cancel(timers, totTimer);
          totTimer := -1;
        }
        ChangeTo(TailWait);
        tailTimer := TimerCreate(config.tailMs, TailExpired);
        fired := fired + [TailStart];
      case RxTimeout =>
        if config.relay {
          ptt := ptt - 1;
        }
        ChangeTo(Idle);
      case _ =>
    }

    /** Any event, as the dispatcher delivers it. */
    method Handle(m: Moment)
      requires Enabled(View(), m.input)
      modifies this
      ensures View() == Step(config, m.emergency, old(View()), m.input)
      ensures Configured(config) && Invariant(config, old(View())) ==> Invariant(config, View())
    {
      hide Invariant, OnCorAssert, OnCorDrop, OnTimer;
      if Configured(config) && Invariant(config, View()) { StepKeeps(config, m.emergency, View(), m.input); }
      match m.input
      case CorAssert => CorAsserted(m.emergency);
      case CorDrop => CorDropped();
      case LinkRxAssert =>
        if state == Idle {
          ChangeTo(Bridging);
        }
      case LinkRxDrop =>
        if state == Bridging {
          ChangeTo(Idle);
        }
      case CallerIdentified => callerIdentified := true;
      case CallerCleared =>
        if state == Idle {
          callerIdentified := false;
        }
      case Fire(id) => TimerFires(id, m.emergency);
    }

    /** Unloading cancels every timer, and releases the transmitter except in a time-out. */
    method Unload()
      requires Configured(config) && Invariant(config, View())
      modifies this
      ensures timers.armed == map[]
      ensures ptt == PttAfterUnload(config, old(View()))
      ensures ptt == 0 <==> !(config.relay && old(state) == RxTimeout)
    {
      NothingElseLive(config, View());
      if tailTimer >= 0 {
        timers := Cancel(timers, tailTimer);
      }
      if hangTimer >= 0 {
        timers := Cancel(timers, hangTimer);
      }
      if totTimer >= 0 {
        timers := Cancel(timers, totTimer);
      }
      if debounceTimer >= 0 {
        timers := Cancel(timers, debounceTimer);
      }
      if config.relay && (state == Receiving || state == TailWait || state == HangWait) {
        ptt := ptt - 1;
      }
      assert timers.armed == old(timers.armed) - {tailTimer, hangTimer, totTimer, debounceTimer};
    }
  }
}
