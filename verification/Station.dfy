/**
 * The link receiver, the repeater and the Morse identifier running together. Events are delivered
 * synchronously: what the link fires goes to the repeater, what the repeater fires goes to the identifier.
 */
module Station {
  import opened Timers
  import J = JitterSpec
  import R = RepeaterSpec
  import W = CwIdSpec

  datatype Config = Config(targetMs: int, linkTailMs: int, repeater: R.Config, cwid: W.Config)

  datatype Station = Station(link: J.Receiver, repeater: R.Repeater, cwid: W.CwId)

  const INITIAL: Station := Station(J.INITIAL, R.INITIAL, W.INITIAL)

  datatype Input =
    | Link(packet: J.Input)
    | Radio(event: R.Input)
    | CwTimer(id: int)
    | CwPreempted

  datatype Moment = Moment(emergency: bool, env: W.Env, input: Input)

  /** The link's two events come from the link alone. */
  predicate Enabled(s: Station, x: Input) {
    match x
    case Link(l) => J.Sound(s.link.buffer) && J.GoodInput(l)
    case Radio(r) => R.Enabled(s.repeater, r) && r != R.LinkRxAssert && r != R.LinkRxDrop
    case CwTimer(id) => id in s.cwid.timers.armed
    case CwPreempted => true
  }

  /** One event for the repeater, and what it fires for the identifier. */
  function ToRepeater(c: Config, m: Moment, s: Station, x: R.Input): Station
    requires R.Enabled(s.repeater, x)
  {
    var r := R.Step(c.repeater, m.emergency, s.repeater, x);
    s.(repeater := r, cwid := W.HearAll(c.cwid, m.env, s.cwid, Fresh(s.repeater.fired, r.fired)))
  }

  /** What has been added at the end. */
  function Fresh<T>(was: seq<T>, now: seq<T>): seq<T> {
    if |was| <= |now| then now[|was|..] else []
  }

  function OfLink(e: J.LinkEvent): R.Input {
    match e
    case RxAssert => R.LinkRxAssert
    case RxDrop => R.LinkRxDrop
  }

  function ToRepeaterAll(c: Config, m: Moment, s: Station, xs: seq<J.LinkEvent>): Station
    decreases |xs|
  {
    if xs == [] then s else ToRepeaterAll(c, m, ToRepeater(c, m, s, OfLink(xs[0])), xs[1..])
  }

  function Step(c: Config, m: Moment, s: Station): Station
    requires Enabled(s, m.input)
  {
    match m.input
    case Link(x) =>
      var l := J.Step(s.link, c.targetMs, c.linkTailMs, x);
      ToRepeaterAll(c, m, s.(link := l), Fresh(s.link.events, l.events))
    case Radio(x) => ToRepeater(c, m, s, x)
    case CwTimer(id) => s.(cwid := W.OnTimer(m.env, s.cwid, id))
    case CwPreempted => s.(cwid := W.OnPreempted(s.cwid))
  }

  predicate Configured(c: Config) {
    R.Configured(c.repeater) && c.cwid.mode == W.OnCall && c.cwid.intervalMs > 0
  }

  // ---- The repeater's events tell its state ----

  /** Following the state changes from `was` leads to `now`, each from where the one before ended. */
  predicate Leads(was: R.State, xs: seq<R.Event>, now: R.State)
    decreases |xs|
  {
    if xs == [] then was == now
    else (xs[0].StateChange? ==> xs[0].was == was) && Leads(if xs[0].StateChange? then xs[0].now else was, xs[1..], now)
  }

  lemma {:induction false} Leads0(was: R.State)
    ensures Leads(was, [], was)
  {
  }

  lemma {:induction false} Leads1(was: R.State, x: R.Event)
    requires x.StateChange? ==> x.was == was
    ensures Leads(was, [x], if x.StateChange? then x.now else was)
  {
    assert [x][1..] == [];
  }

  lemma {:induction false} Leads2(was: R.State, x: R.Event, y: R.Event)
    requires x.StateChange? ==> x.was == was
    requires y.StateChange? ==> y.was == if x.StateChange? then x.now else was
    ensures Leads(was, [x, y], if y.StateChange? then y.now else if x.StateChange? then x.now else was)
  {
    assert [x, y][1..] == [y];
    Leads1(if x.StateChange? then x.now else was, y);
  }

  /** The events of one repeater step, by handler. */
  function Fires(c: R.Config, emergency: bool, s: R.Repeater, x: R.Input): seq<R.Event>
    requires R.Enabled(s, x)
  {
    var now := R.Step(c, emergency, s, x).state;
    var change := if now == s.state then [] else [R.StateChange(s.state, now)];
    if x.CorDrop? && now == R.TailWait && s.state == R.Receiving then change + [R.TailStart]
    else if x.Fire? && s.timers.armed[x.id] == R.TailExpired && s.state == R.TailWait then [R.TailExpire] + change
    else if x.Fire? && s.timers.armed[x.id] == R.TotExpired && !emergency then [R.RxTimedOut] + change
    else change
  }

  lemma {:induction false} CorAssertFires(c: R.Config, emergency: bool, s: R.Repeater)
    ensures R.OnCorAssert(c, emergency, s).fired == s.fired + Fires(c, emergency, s, R.CorAssert)
  {
    hide Create, Cancel;
  }

  lemma {:induction false} CorDropFires(c: R.Config, emergency: bool, s: R.Repeater)
    ensures R.OnCorDrop(c, s).fired == s.fired + Fires(c, emergency, s, R.CorDrop)
  {
    hide Create, Cancel;
  }

  lemma {:induction false} TimerFires(c: R.Config, emergency: bool, s: R.Repeater, x: R.Input)
    requires R.Enabled(s, x) && x.Fire?
    ensures R.Step(c, emergency, s, x).fired == s.fired + Fires(c, emergency, s, x)
  {
    hide Create, Cancel, R.OnCorAssert, R.OnCorDrop;
  }

  lemma {:induction false} StepFires(c: R.Config, emergency: bool, s: R.Repeater, x: R.Input)
    requires R.Enabled(s, x)
    ensures R.Step(c, emergency, s, x).fired == s.fired + Fires(c, emergency, s, x)
  {
    CorAssertFires(c, emergency, s);
    CorDropFires(c, emergency, s);
    if x.Fire? {
      TimerFires(c, emergency, s, x);
    }
    hide R.OnCorAssert, R.OnCorDrop, R.OnTimer;
  }

  lemma {:induction false} FiresLead(c: R.Config, emergency: bool, s: R.Repeater, x: R.Input)
    requires R.Enabled(s, x)
    ensures Leads(s.state, Fires(c, emergency, s, x), R.Step(c, emergency, s, x).state)
  {
    hide R.Step, Leads;
    var now := R.Step(c, emergency, s, x).state;
    var change := R.StateChange(s.state, now);
    Leads0(s.state);
    Leads1(s.state, change);
    Leads1(s.state, R.TailExpire);
    Leads1(s.state, R.RxTimedOut);
    Leads2(s.state, change, R.TailStart);
    Leads2(s.state, R.TailExpire, change);
    Leads2(s.state, R.RxTimedOut, change);
    assert [R.TailExpire] + [] == [R.TailExpire] && [R.RxTimedOut] + [] == [R.RxTimedOut];
    assert [change] + [R.TailStart] == [change, R.TailStart];
    assert [R.TailExpire] + [change] == [R.TailExpire, change];
    assert [R.RxTimedOut] + [change] == [R.RxTimedOut, change];
  }

  /** What a repeater step appends leads from the old state to the new. */
  lemma {:induction false} StepTells(c: R.Config, emergency: bool, s: R.Repeater, x: R.Input)
    requires R.Enabled(s, x)
    ensures var q := R.Step(c, emergency, s, x);
            Fresh(s.fired, q.fired) == Fires(c, emergency, s, x) && Leads(s.state, Fires(c, emergency, s, x), q.state)
  {
    hide R.Step, Leads, Fires;
    StepFires(c, emergency, s, x);
    FiresLead(c, emergency, s, x);
  }

  // ---- What every run keeps ----

  /** The identifier is in conversation exactly while the repeater is not idle, with the timer that goes with it. */
  ghost predicate CwFits(s: W.CwId, state: R.State) {
    W.TimerFits(s) && (s.oc == W.OcActive <==> state != R.Idle)
  }

  lemma {:induction false} HearAllFits(c: W.Config, e: W.Env, s: W.CwId, was: R.State, xs: seq<R.Event>, now: R.State)
    requires c.mode == W.OnCall && c.intervalMs > 0 && CwFits(s, was) && Leads(was, xs, now)
    ensures CwFits(W.HearAll(c, e, s, xs), now)
    decreases |xs|
  {
    if xs != [] {
      W.HearFits(c, e, s, was, xs[0]);
      HearAllFits(c, e, W.Hear(c, e, s, xs[0]), if xs[0].StateChange? then xs[0].now else was, xs[1..], now);
    }
  }

  /** Repeater and identifier fit; the repeater bridges only while the link holds the transmitter. */
  ghost predicate Core(c: Config, s: Station, held: bool) {
    && R.Invariant(c.repeater, s.repeater)
    && CwFits(s.cwid, s.repeater.state)
    && (s.repeater.state == R.Bridging ==> held)
  }

  ghost predicate Invariant(c: Config, s: Station) {
    J.Sound(s.link.buffer) && J.Alternates(s.link) && Core(c, s, s.link.held)
  }

  /** A repeater event keeps the core; only a link assert may start bridging, and a drop always ends it. */
  lemma {:induction false} ToRepeaterKeeps(c: Config, m: Moment, s: Station, x: R.Input, held: bool)
    requires Configured(c) && Core(c, s, held) && R.Enabled(s.repeater, x)
    ensures var after := if x == R.LinkRxAssert then true else if x == R.LinkRxDrop then false else held;
            Core(c, ToRepeater(c, m, s, x), after)
    ensures ToRepeater(c, m, s, x).link == s.link
  {
    R.StepKeeps(c.repeater, m.emergency, s.repeater, x);
    StepTells(c.repeater, m.emergency, s.repeater, x);
    var r := R.Step(c.repeater, m.emergency, s.repeater, x);
    HearAllFits(c.cwid, m.env, s.cwid, s.repeater.state, Fresh(s.repeater.fired, r.fired), r.state);
    BridgingNeedsLink(c, m.emergency, s.repeater, x);
    hide R.Step, R.Invariant, CwFits;
  }

  lemma {:induction false} BridgingNeedsLink(c: Config, emergency: bool, r: R.Repeater, x: R.Input)
    requires R.Enabled(r, x)
    ensures R.Step(c.repeater, emergency, r, x).state == R.Bridging ==>
              x != R.LinkRxDrop && (x == R.LinkRxAssert || r.state == R.Bridging)
  {
  }

  /** Whether the transmitter is held after the first `n` link events. */
  function HeldAfter(n: nat): bool {
    n % 2 == 1
  }

  lemma {:induction false} LinkEventsKeep(c: Config, m: Moment, s: Station, events: seq<J.LinkEvent>, n: nat)
    requires Configured(c) && n <= |events| && Core(c, s, HeldAfter(n))
    requires forall i :: 0 <= i < |events| ==> events[i] == if i % 2 == 0 then J.RxAssert else J.RxDrop
    ensures var q := ToRepeaterAll(c, m, s, events[n..]); Core(c, q, HeldAfter(|events|)) && q.link == s.link
    decreases |events| - n
  {
    hide Core, ToRepeater, Configured;
    if n < |events| {
      ToRepeaterKeeps(c, m, s, OfLink(events[n]), HeldAfter(n));
      assert events[n..][1..] == events[n + 1..];
      LinkEventsKeep(c, m, ToRepeater(c, m, s, OfLink(events[n])), events, n + 1);
    }
  }

  lemma {:induction false} PlayoutFires(r: J.Receiver, now: int, budget: nat, decoded: seq<int>)
    requires J.Sound(r.buffer)
    ensures r.events <= J.Playout(r, now, budget, decoded).events
    decreases budget
  {
    hide J.Sound, J.Pop, J.NextFrame, J.Reset;
    if budget > 0 && now >= r.buffer.nextPlay {
      PlayoutFires(J.PopOne(r, now, J.At(decoded, J.BUDGET - budget)), now, budget - 1, decoded);
    }
  }

  lemma {:induction false} LinkStepFires(c: Config, r: J.Receiver, x: J.Input)
    requires J.Sound(r.buffer) && J.GoodInput(x)
    ensures r.events <= J.Step(r, c.targetMs, c.linkTailMs, x).events
  {
    hide J.Sound, J.Insert, J.Reset, J.Playout;
    if x.Poll? {
      PlayoutFires(r, x.now, J.BUDGET, x.decoded);
    }
  }

  lemma {:induction false} LinkInputKeeps(c: Config, m: Moment, s: Station)
    requires Configured(c) && Invariant(c, s) && m.input.Link? && Enabled(s, m.input)
    ensures Invariant(c, Step(c, m, s))
  {
    hide Core, J.Sound, J.Step, ToRepeaterAll;
    var x := m.input.packet;
    var l := J.Step(s.link, c.targetMs, c.linkTailMs, x);
    J.StepAlternates(s.link, c.targetMs, c.linkTailMs, x);
    LinkStepFires(c, s.link, x);
    SameCore(c, s, s.(link := l));
    LinkEventsKeep(c, m, s.(link := l), l.events, |s.link.events|);
  }

  lemma {:induction false} SameCore(c: Config, s: Station, q: Station)
    requires Core(c, s, s.link.held) && q.repeater == s.repeater && q.cwid == s.cwid
    ensures Core(c, q, s.link.held)
  {
  }

  lemma {:induction false} StepKeeps(c: Config, m: Moment, s: Station)
    requires Configured(c) && Invariant(c, s) && Enabled(s, m.input)
    ensures Invariant(c, Step(c, m, s))
  {
    match m.input
    case Link(x) => LinkInputKeeps(c, m, s);
    case Radio(x) => RadioKeeps(c, m, s);
    case CwTimer(id) => CwKeeps(c, m, s);
    case CwPreempted => CwKeeps(c, m, s);
    hide Step, Invariant;
  }

  lemma {:induction false} RadioKeeps(c: Config, m: Moment, s: Station)
    requires Configured(c) && Invariant(c, s) && m.input.Radio? && Enabled(s, m.input)
    ensures Invariant(c, Step(c, m, s))
  {
    ToRepeaterKeeps(c, m, s, m.input.event, s.link.held);
    hide R.Step, R.Invariant, CwFits;
  }

  lemma {:induction false} CwKeeps(c: Config, m: Moment, s: Station)
    requires Configured(c) && Invariant(c, s) && Enabled(s, m.input)
    requires m.input.CwTimer? || m.input.CwPreempted?
    ensures Invariant(c, Step(c, m, s))
  {
    hide R.Invariant;
    if m.input.CwTimer? {
      W.TimerKeepsFit(m.env, s.cwid, m.input.id);
    }
  }

  lemma {:induction false} InitialKeeps(c: Config)
    ensures Invariant(c, INITIAL)
  {
  }

  // ---- Runs ----

  predicate Legal(c: Config, s: Station, run: seq<Moment>)
    decreases |run|
  {
    run == [] || (Enabled(s, run[0].input) && Legal(c, Step(c, run[0], s), run[1..]))
  }

  function Run(c: Config, s: Station, run: seq<Moment>): Station
    requires Legal(c, s, run)
    decreases |run|
  {
    if run == [] then s else Run(c, Step(c, run[0], s), run[1..])
  }

  lemma {:induction false} RunKeeps(c: Config, s: Station, run: seq<Moment>)
    requires Configured(c) && Invariant(c, s) && Legal(c, s, run)
    ensures Invariant(c, Run(c, s, run))
    decreases |run|
  {
    hide Invariant, Step, Enabled, Configured;
    if run != [] {
      StepKeeps(c, run[0], s);
      RunKeeps(c, Step(c, run[0], s), run[1..]);
    }
  }

  /**
   * After every run: link asserts and drops alternate and bridging means the link holds the transmitter;
   * the identifier is in conversation exactly while the repeater is not idle, with its repeating timer
   * then, its one-shot in the tail, and none in idle.
   */
  lemma {:induction false} ThreeMachinesFit(c: Config, run: seq<Moment>)
    requires Configured(c) && Legal(c, INITIAL, run)
    ensures var s := Run(c, INITIAL, run);
            && J.Alternates(s.link)
            && (s.repeater.state == R.Bridging ==> s.link.held)
            && (s.cwid.oc == W.OcActive <==> s.repeater.state != R.Idle)
            && W.TimerFits(s.cwid)
            && R.Invariant(c.repeater, s.repeater)
  {
    InitialKeeps(c);
    RunKeeps(c, INITIAL, run);
    hide Run, Legal;
  }

  // ---- An interval of zero ----

  /** Leaving idle enters ACTIVE, and an interval that is not positive then gives it no timer. */
  lemma {:induction false} UntimedFromIdle(c: Config, m: Moment, s: Station, x: R.Input)
    requires R.Invariant(c.repeater, s.repeater) && R.Enabled(s.repeater, x) && s.repeater.state == R.Idle
    requires R.Step(c.repeater, m.emergency, s.repeater, x).state != R.Idle
    requires c.cwid.mode == W.OnCall && c.cwid.intervalMs <= 0 && s.cwid.oc == W.OcIdle
    ensures var q := ToRepeater(c, m, s, x).cwid; q.oc == W.OcActive && q.timer == -1 && !W.TimerFits(q)
  {
    hide R.Step, R.Invariant, Fires, Leads, W.HearAll;
    StepTells(c.repeater, m.emergency, s.repeater, x);
    FromIdle(c, m, s, x);
  }

  lemma {:induction false} StaysIdle(c: Config, m: Moment, s: Station, x: R.Input)
    requires R.Invariant(c.repeater, s.repeater) && R.Enabled(s.repeater, x) && s.repeater.state == R.Idle
    requires R.Step(c.repeater, m.emergency, s.repeater, x).state == R.Idle
    ensures ToRepeater(c, m, s, x).cwid == s.cwid
  {
    hide R.Step, R.Invariant, Fires, Leads;
    StepTells(c.repeater, m.emergency, s.repeater, x);
    StillIdle(c, m, s, x);
  }

  const DAY: W.Env := W.Env(false, false, true)

  function Hears(x: R.Input): Moment {
    Moment(false, DAY, Radio(x))
  }

  /** A key-up that is admitted. */
  function AdmittedRun(c: Config): seq<Moment> {
    [Hears(R.CorAssert)] + if R.Debounces(c.repeater) then [Hears(R.CallerIdentified)] + [Hears(R.Fire(1))] else []
  }

  lemma {:induction false} RunCons(c: Config, s: Station, m: Moment, rest: seq<Moment>)
    requires Enabled(s, m.input) && Legal(c, Step(c, m, s), rest)
    ensures Legal(c, s, [m] + rest) && Run(c, s, [m] + rest) == Run(c, Step(c, m, s), rest)
  {
    hide Step, Enabled;
    assert ([m] + rest)[1..] == rest;
  }

  lemma {:induction false} RunNothing(c: Config, s: Station)
    ensures Legal(c, s, []) && Run(c, s, []) == s
  {
  }

  lemma {:induction false} AdmittedRunIsUntimed(c: Config)
    requires R.Configured(c.repeater) && c.cwid.mode == W.OnCall && c.cwid.intervalMs <= 0
    ensures Legal(c, INITIAL, AdmittedRun(c)) && !W.TimerFits(Run(c, INITIAL, AdmittedRun(c)).cwid)
  {
    hide Run, Legal, R.OnCorAssert, R.Invariant, W.TimerFits, W.HearAll;
    var a, i, f := Hears(R.CorAssert), Hears(R.CallerIdentified), Hears(R.Fire(1));
    R.InitialInvariant(c.repeater);
    R.FirstKey(c.repeater);
    var s1 := ToRepeater(c, a, INITIAL, R.CorAssert);
    if R.Debounces(c.repeater) {
      StaysIdle(c, a, INITIAL, R.CorAssert);
      R.StepKeeps(c.repeater, false, R.INITIAL, R.CorAssert);
      var s2 := ToRepeater(c, i, s1, R.CallerIdentified);
      StaysIdle(c, i, s1, R.CallerIdentified);
      R.StepKeeps(c.repeater, false, s1.repeater, R.CallerIdentified);
      R.Admit(c.repeater, s2.repeater);
      UntimedFromIdle(c, f, s2, R.Fire(1));
      RunNothing(c, ToRepeater(c, f, s2, R.Fire(1)));
      RunCons(c, s2, f, []);
      assert [f] + [] == [f];
      RunCons(c, s1, i, [f]);
      RunCons(c, INITIAL, a, [i] + [f]);
    } else {
      UntimedFromIdle(c, a, INITIAL, R.CorAssert);
      RunNothing(c, s1);
      RunCons(c, INITIAL, a, []);
    }
  }

  /**
   * The identifier has the timer that goes with its state, on every run, exactly when the identification
   * interval is positive. The module caps the interval from above only.
   */
  lemma {:induction false} IdentifierTimedIff(c: Config)
    requires R.Configured(c.repeater) && c.cwid.mode == W.OnCall
    ensures c.cwid.intervalMs > 0 <==>
            forall run: seq<Moment> | Legal(c, INITIAL, run) :: W.TimerFits(Run(c, INITIAL, run).cwid)
  {
    hide Run, Legal, W.TimerFits, R.Configured, AdmittedRun;
    if c.cwid.intervalMs > 0 {
      forall run: seq<Moment> | Legal(c, INITIAL, run)
        ensures W.TimerFits(Run(c, INITIAL, run).cwid)
      {
        ThreeMachinesFit(c, run);
      }
    } else {
      AdmittedRunIsUntimed(c);
    }
  }

  // ---- Identification ----

  /** The identifier has work to do, or has done some since `sent` identifications. */
  predicate Owes(s: W.CwId, sent: nat) {
    s.sent >= sent && (s.pending || s.sent > sent)
  }

  /** As Owes, and the work is done whenever the repeater is idle. */
  predicate Settles(s: Station, sent: nat) {
    Owes(s.cwid, sent) && (s.repeater.state == R.Idle ==> s.cwid.sent > sent)
  }

  predicate Daytime(m: Moment) {
    !m.env.quiet && m.env.able
  }

  lemma {:induction false} HearSettles(c: W.Config, e: W.Env, s: W.CwId, was: R.State, x: R.Event, sent: nat)
    requires c.mode == W.OnCall && !e.quiet && e.able && CwFits(s, was)
    requires x.StateChange? ==> x.was == was
    requires Owes(s, sent) && (was == R.Idle ==> s.sent > sent)
    ensures var q, now := W.Hear(c, e, s, x), if x.StateChange? then x.now else was;
            Owes(q, sent) && (now == R.Idle ==> q.sent > sent)
  {
  }

  lemma {:induction false} HearAllSettles(c: W.Config, e: W.Env, s: W.CwId, was: R.State, xs: seq<R.Event>, now: R.State, sent: nat)
    requires c.mode == W.OnCall && c.intervalMs > 0 && !e.quiet && e.able && CwFits(s, was) && Leads(was, xs, now)
    requires Owes(s, sent) && (was == R.Idle ==> s.sent > sent)
    ensures var q := W.HearAll(c, e, s, xs); Owes(q, sent) && (now == R.Idle ==> q.sent > sent)
    decreases |xs|
  {
    hide W.Hear, CwFits, Owes;
    if xs != [] {
      var next := if xs[0].StateChange? then xs[0].now else was;
      HearSettles(c, e, s, was, xs[0], sent);
      HearAllFits1(c, e, s, was, xs[0]);
      HearAllSettles(c, e, W.Hear(c, e, s, xs[0]), next, xs[1..], now, sent);
    }
  }

  lemma {:induction false} HearAllFits1(c: W.Config, e: W.Env, s: W.CwId, was: R.State, x: R.Event)
    requires c.mode == W.OnCall && c.intervalMs > 0 && CwFits(s, was) && (x.StateChange? ==> x.was == was)
    ensures CwFits(W.Hear(c, e, s, x), if x.StateChange? then x.now else was)
  {
    W.HearFits(c, e, s, was, x);
  }

  lemma {:induction false} ToRepeaterSettles(c: Config, m: Moment, s: Station, x: R.Input, held: bool, sent: nat)
    requires Configured(c) && Core(c, s, held) && R.Enabled(s.repeater, x) && Daytime(m) && Settles(s, sent)
    ensures Settles(ToRepeater(c, m, s, x), sent)
  {
    hide R.Step, R.Invariant, Leads, Fires, W.HearAll, CwFits;
    StepTells(c.repeater, m.emergency, s.repeater, x);
    var r := R.Step(c.repeater, m.emergency, s.repeater, x);
    HearAllSettles(c.cwid, m.env, s.cwid, s.repeater.state, Fresh(s.repeater.fired, r.fired), r.state, sent);
  }

  lemma {:induction false} LinkEventsSettle(c: Config, m: Moment, s: Station, events: seq<J.LinkEvent>, n: nat, sent: nat)
    requires Configured(c) && n <= |events| && Core(c, s, HeldAfter(n)) && Daytime(m) && Settles(s, sent)
    requires forall i :: 0 <= i < |events| ==> events[i] == if i % 2 == 0 then J.RxAssert else J.RxDrop
    ensures Settles(ToRepeaterAll(c, m, s, events[n..]), sent)
    decreases |events| - n
  {
    hide Core, ToRepeater, Configured, Settles;
    if n < |events| {
      ToRepeaterKeeps(c, m, s, OfLink(events[n]), HeldAfter(n));
      ToRepeaterSettles(c, m, s, OfLink(events[n]), HeldAfter(n), sent);
      assert events[n..][1..] == events[n + 1..];
      LinkEventsSettle(c, m, ToRepeater(c, m, s, OfLink(events[n])), events, n + 1, sent);
    }
  }

  lemma {:induction false} StepSettles(c: Config, m: Moment, s: Station, sent: nat)
    requires Configured(c) && Invariant(c, s) && Enabled(s, m.input) && Daytime(m) && Settles(s, sent)
    ensures Settles(Step(c, m, s), sent)
  {
    hide R.Invariant, J.Sound, J.Step, ToRepeater, ToRepeaterAll, W.TimerFits;
    match m.input
    case Link(x) =>
      var l := J.Step(s.link, c.targetMs, c.linkTailMs, x);
      J.StepAlternates(s.link, c.targetMs, c.linkTailMs, x);
      LinkStepFires(c, s.link, x);
      SameCore(c, s, s.(link := l));
      LinkEventsSettle(c, m, s.(link := l), l.events, |s.link.events|, sent);
    case Radio(x) => ToRepeaterSettles(c, m, s, x, s.link.held, sent);
    case CwTimer(id) =>
    case CwPreempted =>
  }

  lemma {:induction false} RunSettles(c: Config, s: Station, run: seq<Moment>, sent: nat)
    requires Configured(c) && Invariant(c, s) && Legal(c, s, run) && Settles(s, sent)
    requires forall i :: 0 <= i < |run| ==> Daytime(run[i])
    ensures Settles(Run(c, s, run), sent)
    decreases |run|
  {
    hide Invariant, Step, Enabled, Configured, Settles, Daytime;
    if run != [] {
      StepKeeps(c, run[0], s);
      StepSettles(c, run[0], s, sent);
      RunSettles(c, Step(c, run[0], s), run[1..], sent);
    }
  }

  /** Nothing has begun, or an identification is owed. */
  predicate Opens(s: Station, sent: nat) {
    if s.repeater.state == R.Idle && s.cwid.oc == W.OcIdle then s.cwid.sent == sent else Settles(s, sent)
  }

  /** Leaving OC_IDLE marks an identification pending. */
  lemma {:induction false} ToRepeaterOpens(c: Config, m: Moment, s: Station, x: R.Input, held: bool)
    requires Configured(c) && Core(c, s, held) && R.Enabled(s.repeater, x) && s.cwid.oc == W.OcIdle
    ensures Opens(ToRepeater(c, m, s, x), s.cwid.sent)
  {
    hide R.Invariant;
    StepTells(c.repeater, m.emergency, s.repeater, x);
    if R.Step(c.repeater, m.emergency, s.repeater, x).state == R.Idle {
      StillIdle(c, m, s, x);
    } else {
      FromIdle(c, m, s, x);
    }
    hide R.Step, Fires;
  }

  lemma {:induction false} StillIdle(c: Config, m: Moment, s: Station, x: R.Input)
    requires R.Invariant(c.repeater, s.repeater) && R.Enabled(s.repeater, x) && s.repeater.state == R.Idle
    requires R.Step(c.repeater, m.emergency, s.repeater, x).state == R.Idle
    ensures Fires(c.repeater, m.emergency, s.repeater, x) == []
  {
  }

  lemma {:induction false} LinkEventsOpen(c: Config, m: Moment, s: Station, events: seq<J.LinkEvent>, n: nat, sent: nat)
    requires Configured(c) && n <= |events| && Core(c, s, HeldAfter(n)) && Daytime(m) && Opens(s, sent)
    requires forall i :: 0 <= i < |events| ==> events[i] == if i % 2 == 0 then J.RxAssert else J.RxDrop
    ensures Opens(ToRepeaterAll(c, m, s, events[n..]), sent)
    decreases |events| - n
  {
    hide Core, ToRepeater, Configured, Settles;
    if n < |events| {
      ToRepeaterKeeps(c, m, s, OfLink(events[n]), HeldAfter(n));
      if s.repeater.state == R.Idle && s.cwid.oc == W.OcIdle {
        ToRepeaterOpens(c, m, s, OfLink(events[n]), HeldAfter(n));
        assert events[n..][1..] == events[n + 1..];
        LinkEventsOpen(c, m, ToRepeater(c, m, s, OfLink(events[n])), events, n + 1, sent);
      } else {
        LinkEventsSettle(c, m, s, events, n, sent);
        SettledIsOpen(c, m, s, events[n..], HeldAfter(n), sent);
      }
    }
  }

  lemma {:induction false} SettledIsOpen(c: Config, m: Moment, s: Station, xs: seq<J.LinkEvent>, held: bool, sent: nat)
    requires s.cwid.oc != W.OcIdle || s.repeater.state != R.Idle
    requires Core(c, s, held) && Settles(ToRepeaterAll(c, m, s, xs), sent)
    ensures Opens(ToRepeaterAll(c, m, s, xs), sent)
  {
    hide W.HearAll, R.Step;
    LinkNeverIdles(c, m, s, xs);
  }

  /** The step that begins a busy period, on the radio or over the link, leaves an identification owed. */
  lemma {:induction false} KeyUpOwes(c: Config, m: Moment, s: Station)
    requires Configured(c) && Invariant(c, s) && Enabled(s, m.input) && (m.input.Link? ==> Daytime(m))
    requires s.cwid.oc == W.OcIdle && Step(c, m, s).repeater.state != R.Idle
    ensures Settles(Step(c, m, s), s.cwid.sent)
  {
    hide R.Invariant, J.Sound, J.Step, ToRepeater, ToRepeaterAll, Settles, W.TimerFits;
    match m.input
    case Link(x) =>
      var l := J.Step(s.link, c.targetMs, c.linkTailMs, x);
      J.StepAlternates(s.link, c.targetMs, c.linkTailMs, x);
      LinkStepFires(c, s.link, x);
      SameCore(c, s, s.(link := l));
      LinkEventsOpen(c, m, s.(link := l), l.events, |s.link.events|, s.cwid.sent);
    case Radio(x) => ToRepeaterOpens(c, m, s, x, s.link.held);
    case CwTimer(id) =>
    case CwPreempted =>
  }

  /** Out of idle the repeater fires just one event, the change itself. */
  lemma {:induction false} FromIdle(c: Config, m: Moment, s: Station, x: R.Input)
    requires R.Invariant(c.repeater, s.repeater) && R.Enabled(s.repeater, x) && s.repeater.state == R.Idle
    requires R.Step(c.repeater, m.emergency, s.repeater, x).state != R.Idle
    ensures var now := R.Step(c.repeater, m.emergency, s.repeater, x).state;
            && Fires(c.repeater, m.emergency, s.repeater, x) == [R.StateChange(R.Idle, now)]
            && W.HearAll(c.cwid, m.env, s.cwid, [R.StateChange(R.Idle, now)])
               == W.Hear(c.cwid, m.env, s.cwid, R.StateChange(R.Idle, now))
  {
    hide W.Hear;
    var now := R.Step(c.repeater, m.emergency, s.repeater, x).state;
    var e := R.StateChange(R.Idle, now);
    assert [e][1..] == [];
  }

  /**
   * Outside quiet hours, a busy period that begins from idle, by a radio or by the link, is never over
   * without an identification: whenever the repeater is idle again, at least one has been sent since.
   */
  lemma {:induction false} BusyPeriodIsIdentified(c: Config, s: Station, m: Moment, run: seq<Moment>)
    requires Configured(c) && Invariant(c, s) && Enabled(s, m.input) && (m.input.Link? ==> Daytime(m))
    requires s.cwid.oc == W.OcIdle && Step(c, m, s).repeater.state != R.Idle
    requires Legal(c, Step(c, m, s), run) && forall i :: 0 <= i < |run| ==> Daytime(run[i])
    ensures var q := Run(c, Step(c, m, s), run);
            q.repeater.state == R.Idle ==> q.cwid.sent > s.cwid.sent
  {
    hide Run, Legal, Step, Enabled, Daytime, Invariant, Configured;
    StepKeeps(c, m, s);
    KeyUpOwes(c, m, s);
    RunSettles(c, Step(c, m, s), run, s.cwid.sent);
  }

  /**
   * After the busy period comes the tail, and the tail ends in only two ways: its timer fires, which
   * identifies once more outside quiet hours, or somebody keys up again.
   */
  lemma {:induction false} TailEndsInIdOrRekey(c: Config, m: Moment, s: Station)
    requires Configured(c) && Invariant(c, s) && Enabled(s, m.input) && s.cwid.oc == W.OcTail
    ensures s.cwid.timer in s.cwid.timers.armed
    ensures var q := Step(c, m, s);
            match q.cwid.oc
            case OcTail => true
            case OcActive => q.repeater.state != R.Idle
            case OcIdle =>
              && m.input == CwTimer(s.cwid.timer)
              && (Daytime(m) ==> q.cwid.sent == s.cwid.sent + 1 && !q.cwid.pending)
  {
    StepKeeps(c, m, s);
    NotBackToIdle(c, m, s);
    hide R.Invariant, R.Step, ToRepeater, ToRepeaterAll, J.Sound, J.Step;
  }

  /** Hearing events never leads to OC_IDLE. */
  lemma {:induction false} HearNeverIdles(c: W.Config, e: W.Env, s: W.CwId, xs: seq<R.Event>)
    requires s.oc != W.OcIdle
    ensures W.HearAll(c, e, s, xs).oc != W.OcIdle
    decreases |xs|
  {
    if xs != [] {
      HearNeverIdles(c, e, W.Hear(c, e, s, xs[0]), xs[1..]);
    }
  }

  lemma {:induction false} LinkNeverIdles(c: Config, m: Moment, s: Station, xs: seq<J.LinkEvent>)
    requires s.cwid.oc != W.OcIdle
    ensures ToRepeaterAll(c, m, s, xs).cwid.oc != W.OcIdle
    decreases |xs|
  {
    hide W.HearAll, R.Step;
    if xs != [] {
      var r := R.Step(c.repeater, m.emergency, s.repeater, OfLink(xs[0]));
      HearNeverIdles(c.cwid, m.env, s.cwid, Fresh(s.repeater.fired, r.fired));
      LinkNeverIdles(c, m, ToRepeater(c, m, s, OfLink(xs[0])), xs[1..]);
    }
  }

  lemma {:induction false} NotBackToIdle(c: Config, m: Moment, s: Station)
    requires Enabled(s, m.input) && s.cwid.oc != W.OcIdle
    ensures !m.input.CwTimer? ==> Step(c, m, s).cwid.oc != W.OcIdle
  {
    hide W.HearAll, R.Step, J.Step, ToRepeaterAll, J.Sound;
    match m.input
    case Link(x) =>
      var l := J.Step(s.link, c.targetMs, c.linkTailMs, x);
      LinkNeverIdles(c, m, s.(link := l), Fresh(s.link.events, l.events));
    case Radio(x) =>
      var r := R.Step(c.repeater, m.emergency, s.repeater, x);
      HearNeverIdles(c.cwid, m.env, s.cwid, Fresh(s.repeater.fired, r.fired));
    case _ =>
  }
}
