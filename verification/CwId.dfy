/** The Morse identifier of modules/mod_cwid.c, in both of its modes. */
module CwIdSpec {
  import opened Timers
  import RepeaterSpec

  datatype Mode = Always | OnCall

  datatype OcState = OcIdle | OcActive | OcTail

  // ActiveTick is created repeating, TailTick one-shot.
  datatype Callback = ActiveTick | TailTick

  datatype Config = Config(mode: Mode, intervalMs: int, tailMs: int)

  /**
   * What a handler finds when it runs: quiet hours, a busy channel, and whether an identification can be
   * produced (a callsign is set and the encoder and its buffer are available).
   */
  datatype Env = Env(quiet: bool, busy: bool, able: bool)

  /** `sent` counts identifications queued. */
  datatype CwId = CwId(oc: OcState, timer: int, pending: bool, timers: Timers<Callback>, sent: nat)

  const INITIAL: CwId := CwId(OcIdle, -1, false, Timers(map[], map[], 1), 0)

  function Send(e: Env, s: CwId): CwId {
    if e.able then s.(pending := false, sent := s.sent + 1) else s
  }

  function CancelTimer(s: CwId): CwId {
    if s.timer >= 0 then s.(timers := Cancel(s.timers, s.timer), timer := -1) else s
  }

  function EnterActive(c: Config, s: CwId, fromIdle: bool): CwId {
    var s1 := CancelTimer(s);
    var (t, id) := Create(s1.timers, c.intervalMs, ActiveTick);
    s1.(oc := OcActive, pending := s1.pending || fromIdle, timers := t, timer := id)
  }

  function EnterTail(c: Config, s: CwId): CwId {
    var s1 := CancelTimer(s);
    var (t, id) := Create(s1.timers, if c.tailMs > 0 then c.tailMs else c.intervalMs, TailTick);
    s1.(oc := OcTail, timers := t, timer := id)
  }

  function OnStateChange(c: Config, e: Env, s: CwId, now: RepeaterSpec.State): CwId {
    var idle := now == RepeaterSpec.Idle;
    if c.mode == Always then if idle && s.pending && !e.quiet then Send(e, s) else s
    else
      match s.oc
      case OcIdle => if idle then s else EnterActive(c, s, true)
      case OcActive => if idle then EnterTail(c, if s.pending && !e.quiet then Send(e, s) else s) else s
      case OcTail => if idle then s else EnterActive(c, s, false)
  }

  function OnTailStart(e: Env, s: CwId): CwId {
    if s.pending && !e.quiet then Send(e, s) else s
  }

  /** One event of the repeater. */
  function Hear(c: Config, e: Env, s: CwId, x: RepeaterSpec.Event): CwId {
    match x
    case StateChange(_, now) => OnStateChange(c, e, s, now)
    case TailStart => OnTailStart(e, s)
    case _ => s
  }

  function HearAll(c: Config, e: Env, s: CwId, xs: seq<RepeaterSpec.Event>): CwId
    decreases |xs|
  {
    if xs == [] then s else HearAll(c, e, Hear(c, e, s, xs[0]), xs[1..])
  }

  /** A live timer fires; a repeating one stays in the service. */
  function OnTimer(e: Env, s: CwId, id: int): CwId
    requires id in s.timers.armed
  {
    match s.timers.armed[id]
    case ActiveTick =>
      if e.quiet then s else if !e.busy then Send(e, s) else s.(pending := true)
    case TailTick =>
      var s1 := s.(timers := Cancel(s.timers, id), timer := -1);
      (if e.quiet then s1 else Send(e, s1)).(oc := OcIdle)
  }

  /** The clock-aligned tick of the always mode. */
  function OnSchedule(e: Env, s: CwId): CwId {
    if e.quiet then s else if !e.busy then Send(e, s) else s.(pending := true)
  }

  /** Our own identification was cut off by an incoming transmission. */
  function OnPreempted(s: CwId): CwId {
    s.(pending := true)
  }

  /** Everything the module hears; `Tick` is the schedule of the always mode. */
  datatype Input = Hears(event: RepeaterSpec.Event) | Fires(id: int) | Tick | Preempted(source: string)

  predicate Enabled(s: CwId, x: Input) {
    x.Fires? ==> x.id in s.timers.armed
  }

  function Step(c: Config, e: Env, s: CwId, x: Input): CwId
    requires Enabled(s, x)
  {
    match x
    case Hears(event) => Hear(c, e, s, event)
    case Fires(id) => OnTimer(e, s, id)
    case Tick => OnSchedule(e, s)
    case Preempted(source) => if source == "cwid" then OnPreempted(s) else s
  }

  /** The one timer of the on-call machine fits its state: repeating, one-shot, or none. */
  ghost predicate TimerFits(s: CwId) {
    && Sound(s.timers)
    && match s.oc
       case OcIdle => s.timer == -1 && s.timers.armed == map[]
       case OcActive => s.timer >= 1 && s.timers.armed == map[s.timer := ActiveTick]
       case OcTail => s.timer >= 1 && s.timers.armed == map[s.timer := TailTick]
  }

  lemma {:induction false} CancelLeavesNone(s: CwId)
    requires TimerFits(s)
    ensures var s1 := CancelTimer(s); s1.timers.armed == map[] && s1.timer == -1 && Sound(s1.timers)
    ensures CancelTimer(s) == s.(timers := CancelTimer(s).timers, timer := -1)
  {
    if s.timer >= 0 {
      assert Cancel(s.timers, s.timer).armed == map[];
    }
  }

  /** Hearing one event keeps the timer fitting, and the machine is active just when the repeater is not idle. */
  lemma {:induction false} HearFits(c: Config, e: Env, s: CwId, was: RepeaterSpec.State, x: RepeaterSpec.Event)
    requires c.mode == OnCall && c.intervalMs > 0 && TimerFits(s)
    requires s.oc == OcActive <==> was != RepeaterSpec.Idle
    requires x.StateChange? ==> x.was == was
    ensures var q := Hear(c, e, s, x);
            TimerFits(q) && (q.oc == OcActive <==> (if x.StateChange? then x.now else was) != RepeaterSpec.Idle)
  {
    CancelLeavesNone(s);
    CancelLeavesNone(Send(e, s));
    hide CancelTimer;
  }

  lemma {:induction false} TimerKeepsFit(e: Env, s: CwId, id: int)
    requires TimerFits(s) && id in s.timers.armed
    ensures TimerFits(OnTimer(e, s, id))
    ensures OnTimer(e, s, id).oc == if s.oc == OcTail then OcIdle else s.oc
  {
    if s.oc == OcTail {
      assert Cancel(s.timers, id).armed == map[];
    }
  }

  // ---- No identification is forgotten ----

  datatype Moment = Moment(env: Env, input: Input)

  predicate Legal(c: Config, run: seq<Moment>)
    decreases |run|, 0
  {
    run == []
    || (Legal(c, run[..|run| - 1]) && Enabled(After(c, run[..|run| - 1]), run[|run| - 1].input))
  }

  function After(c: Config, run: seq<Moment>): CwId
    requires Legal(c, run)
    decreases |run|, 1
  {
    if run == [] then INITIAL
    else Step(c, run[|run| - 1].env, After(c, run[..|run| - 1]), run[|run| - 1].input)
  }

  /** The event calls for an identification that cannot go out at once. */
  predicate Calls(c: Config, s: CwId, m: Moment)
    requires Enabled(s, m.input)
  {
    match m.input
    case Preempted(source) => source == "cwid"
    case Tick => !m.env.quiet && m.env.busy
    case Fires(id) => s.timers.armed[id] == ActiveTick && !m.env.quiet && m.env.busy
    case Hears(x) => c.mode == OnCall && s.oc == OcIdle && x.StateChange? && x.now != RepeaterSpec.Idle
  }

  lemma {:induction false} PendingStep(c: Config, s: CwId, m: Moment)
    requires Enabled(s, m.input)
    ensures var q := Step(c, m.env, s, m.input);
            && s.sent <= q.sent
            && (Calls(c, s, m) ==> q.sent == s.sent)
            && (q.pending <==> Calls(c, s, m) || (s.pending && q.sent == s.sent))
  {
  }

  lemma {:induction false} LegalPrefix(c: Config, run: seq<Moment>, n: nat)
    requires Legal(c, run) && n <= |run|
    ensures Legal(c, run[..n])
    decreases |run|
  {
    if n == |run| {
      assert run[..n] == run;
    } else {
      LegalPrefix(c, run[..|run| - 1], n);
      assert run[..|run| - 1][..n] == run[..n];
    }
  }

  /** How many identifications the first `n` events have sent. */
  function SentBy(c: Config, run: seq<Moment>, n: nat): nat
    requires Legal(c, run) && n <= |run|
  {
    LegalPrefix(c, run, n);
    After(c, run[..n]).sent
  }

  /** Event `k` calls for an identification, and none has been sent since. */
  predicate Unanswered(c: Config, run: seq<Moment>, k: nat)
    requires Legal(c, run)
  {
    && k < |run|
    && (LegalPrefix(c, run, k); LegalPrefix(c, run, k + 1); EnabledAt(c, run, k); Calls(c, After(c, run[..k]), run[k]))
    && SentBy(c, run, k + 1) == SentBy(c, run, |run|)
  }

  lemma {:induction false} EnabledAt(c: Config, run: seq<Moment>, k: nat)
    requires Legal(c, run) && k < |run| && Legal(c, run[..k])
    ensures Enabled(After(c, run[..k]), run[k].input)
  {
    LegalPrefix(c, run, k + 1);
    assert run[..k + 1][..k] == run[..k];
  }

  lemma {:induction false} LastStep(c: Config, run: seq<Moment>)
    requires run != [] && Legal(c, run)
    ensures var s, m := After(c, run[..|run| - 1]), run[|run| - 1];
            Enabled(s, m.input) && After(c, run) == Step(c, m.env, s, m.input)
  {
  }

  lemma {:induction false} SameSent(c: Config, run: seq<Moment>, n: nat)
    requires run != [] && Legal(c, run) && n < |run|
    ensures SentBy(c, run, n) == SentBy(c, run[..|run| - 1], n)
    ensures SentBy(c, run, |run|) == After(c, run).sent
  {
    assert run[..|run| - 1][..n] == run[..n] && run[..|run|] == run;
  }

  lemma {:induction false} SentGrows(c: Config, run: seq<Moment>, n: nat)
    requires Legal(c, run) && n <= |run|
    ensures SentBy(c, run, n) <= After(c, run).sent
    decreases |run|
  {
    hide Step, Calls;
    if n == |run| {
      assert run[..n] == run;
    } else {
      var before := run[..|run| - 1];
      LastStep(c, run);
      PendingStep(c, After(c, before), run[|run| - 1]);
      SentGrows(c, before, n);
      SameSent(c, run, n);
    }
  }

  lemma {:induction false} UnansweredBefore(c: Config, run: seq<Moment>, k: nat)
    requires run != [] && Legal(c, run) && k + 1 < |run|
    ensures Unanswered(c, run, k)
            <==> Unanswered(c, run[..|run| - 1], k) && After(c, run).sent == After(c, run[..|run| - 1]).sent
  {
    hide Step, Calls;
    var before := run[..|run| - 1];
    SameSent(c, run, k + 1);
    SentGrows(c, before, k + 1);
    LastStep(c, run);
    PendingStep(c, After(c, before), run[|run| - 1]);
    assert before[..k] == run[..k] && before[..|before|] == before;
  }

  /** In both modes and after every run, an identification is pending exactly while some call for one is unanswered. */
  lemma {:induction false} PendingIffUnanswered(c: Config, run: seq<Moment>)
    requires Legal(c, run)
    ensures After(c, run).pending <==> exists k: nat :: Unanswered(c, run, k)
  {
    hide Step, Calls, Unanswered;
    if run == [] {
      NothingUnanswered(c);
    } else {
      var before, m := run[..|run| - 1], run[|run| - 1];
      var s := After(c, before);
      PendingIffUnanswered(c, before);
      LastStep(c, run);
      PendingStep(c, s, m);
      LastUnanswered(c, run);
      if k: nat :| Unanswered(c, run, k) && k + 1 < |run| {
        UnansweredBefore(c, run, k);
      }
      if s.pending && After(c, run).sent == s.sent {
        var k: nat :| Unanswered(c, before, k);
        UnansweredInside(c, before, k);
        UnansweredBefore(c, run, k);
      }
      forall k: nat | Unanswered(c, run, k)
        ensures k < |run|
      {
        UnansweredInside(c, run, k);
      }
    }
  }

  lemma {:induction false} NothingUnanswered(c: Config)
    ensures Legal(c, []) && !After(c, []).pending && forall k: nat :: !Unanswered(c, [], k)
  {
  }

  lemma {:induction false} UnansweredInside(c: Config, run: seq<Moment>, k: nat)
    requires Legal(c, run) && Unanswered(c, run, k)
    ensures k < |run|
  {
  }

  lemma {:induction false} LastUnanswered(c: Config, run: seq<Moment>)
    requires run != [] && Legal(c, run)
    ensures Enabled(After(c, run[..|run| - 1]), run[|run| - 1].input)
    ensures Unanswered(c, run, |run| - 1) <==> Calls(c, After(c, run[..|run| - 1]), run[|run| - 1])
  {
    hide Calls, Step;
    assert run[..|run|] == run;
  }

  /** The channel clears outside quiet hours, and an identification can be produced. */
  predicate Clears(c: Config, m: Moment) {
    && !m.env.quiet && m.env.able && m.input.Hears?
    && (m.input.event.TailStart? || (c.mode == Always && m.input.event.StateChange? && m.input.event.now == RepeaterSpec.Idle))
  }

  lemma {:induction false} ClearingSends(c: Config, s: CwId, m: Moment)
    requires Clears(c, m) && s.pending
    ensures var q := Step(c, m.env, s, m.input); q.sent == s.sent + 1 && !q.pending
  {
  }

  lemma {:induction false} TickSendsOrPends(c: Config, s: CwId, m: Moment)
    requires m.input.Tick? && !m.env.quiet && m.env.able
    ensures var q := Step(c, m.env, s, m.input); q.sent > s.sent || q.pending
  {
  }

  /** Since `n` events an identification has been sent, or one is pending. */
  lemma {:induction false} PendsUntilSent(c: Config, run: seq<Moment>, n: nat, sent: nat)
    requires Legal(c, run) && n <= |run|
    requires (LegalPrefix(c, run, n); var s := After(c, run[..n]); s.sent > sent || (s.sent == sent && s.pending))
    ensures After(c, run).sent > sent || (After(c, run).sent == sent && After(c, run).pending)
    decreases |run|
  {
    hide Step, Calls;
    if n == |run| {
      assert run[..n] == run;
    } else {
      var before := run[..|run| - 1];
      assert before[..n] == run[..n];
      PendsUntilSent(c, before, n, sent);
      LastStep(c, run);
      PendingStep(c, After(c, before), run[|run| - 1]);
    }
  }

  /**
   * In the always mode, and in the other, every scheduled tick outside quiet hours is answered at the latest
   * when the channel next clears: by then an identification has been sent since the tick.
   */
  lemma {:induction false} EveryTickIsAnswered(c: Config, run: seq<Moment>, k: nat)
    requires Legal(c, run) && k + 1 < |run|
    requires run[k].input.Tick? && !run[k].env.quiet && run[k].env.able && Clears(c, run[|run| - 1])
    ensures After(c, run).sent > SentBy(c, run, k)
  {
    hide Step, Calls, Clears;
    LegalPrefix(c, run, k);
    LegalPrefix(c, run, k + 1);
    var before, tick, sent := run[..|run| - 1], run[..k + 1], SentBy(c, run, k);
    assert tick[..k] == run[..k] && before[..k + 1] == tick;
    LastStep(c, tick);
    TickSendsOrPends(c, After(c, run[..k]), run[k]);
    PendingStep(c, After(c, run[..k]), run[k]);
    PendsUntilSent(c, before, k + 1, sent);
    LastStep(c, run);
    PendingStep(c, After(c, before), run[|run| - 1]);
    if After(c, before).pending { ClearingSends(c, After(c, before), run[|run| - 1]); }
  }
}

/** The module's globals and handlers. */
module CwIdModule {
  import opened Timers
  import opened CwIdSpec
  import RepeaterSpec

  class Globals {
    const config: Config
    var ocState: OcState
    var ocTimer: int
    var pending: bool
    var timers: Timers<Callback>
    var sent: nat

    ghost function View(): CwId
      reads this
    {
      CwId(ocState, ocTimer, pending, timers, sent)
    }

    constructor (config: Config)
      ensures View() == INITIAL && this.config == config
    {
      this.config := config;
      ocState, ocTimer, pending, timers, sent := OcIdle, -1, false, Timers(map[], map[], 1), 0;
    }

    method SendCwid(e: Env)
      modifies this
      ensures View() == Send(e, old(View()))
    {
      if !e.able {
        return;
      }
      sent := sent + 1;
      pending := false;
    }

    method OcCancelTimer()
      modifies this
      ensures View() == CancelTimer(old(View()))
    {
      if ocTimer >= 0 {
        timers := Cancel(timers, ocTimer);
        ocTimer := -1;
      }
    }

    method TimerCreate(ms: int, callback: Callback) returns (id: int)
      modifies this`timers
      ensures (timers, id) == Create(old(timers), ms, callback)
    {
      var (t, i) := Create(timers, ms, callback);
      timers := t;
      id := i;
    }

    method OcEnterActive(fromIdle: bool)
      modifies this
      ensures View() == EnterActive(config, old(View()), fromIdle)
    {
      OcCancelTimer();
      ocState := OcActive;
      if fromIdle {
        pending := true;
      }
      ocTimer := TimerCreate(config.intervalMs, ActiveTick);
    }

    method OcEnterTail()
      modifies this
      ensures View() == EnterTail(config, old(View()))
    {
      OcCancelTimer();
      ocState := OcTail;
      var tailMs := if config.tailMs > 0 then config.tailMs else config.intervalMs;
      ocTimer := TimerCreate(tailMs, TailTick);
    }

    method StateChanged(now: RepeaterSpec.State, e: Env)
      modifies this
      ensures View() == OnStateChange(config, e, old(View()), now)
    {
      if config.mode == Always {
        if now == RepeaterSpec.Idle && pending && !e.quiet {
          SendCwid(e);
        }
        return;
      }
      match ocState
      case OcIdle =>
        if now != RepeaterSpec.Idle {
          OcEnterActive(true);
        }
      case OcActive =>
        if now == RepeaterSpec.Idle {
          if pending && !e.quiet {
            SendCwid(e);
          }
          OcEnterTail();
        }
      case OcTail =>
        if now != RepeaterSpec.Idle {
          OcEnterActive(false);
        }
    }

    method TailStarted(e: Env)
      modifies this
      ensures View() == OnTailStart(e, old(View()))
    {
      if pending && !e.quiet {
        SendCwid(e);
      }
    }

    /** A live timer fires. */
    method TimerFires(id: int, e: Env)
      requires id in timers.armed
      modifies this
      ensures View() == OnTimer(e, old(View()), id)
    {
      match timers.armed[id]
      case ActiveTick =>
        if e.quiet {
          return;
        }
        if !e.busy {
          SendCwid(e);
        } else {
          pending := true;
        }
      case TailTick =>
        timers := Cancel(timers, id);
        ocTimer := -1;
        if !e.quiet {
          SendCwid(e);
        }
        ocState := OcIdle;
    }

    method Preempted(source: string)
      modifies this
      ensures View() == if source == "cwid" then OnPreempted(old(View())) else old(View())
    {
      if source != "cwid" {
        return;
      }
      pending := true;
    }

    /** The wall-clock tick of the always mode: nothing in quiet hours, else an identification now or owed. */
    method ScheduleTick(e: Env)
      modifies this
      ensures View() == OnSchedule(e, old(View()))
      ensures if e.quiet then View() == old(View()) else e.able ==> pending || sent > old(sent)
    {
      if e.quiet {
        return;
      }
      if !e.busy {
        SendCwid(e);
      } else {
        pending := true;
      }
    }

    /** Any event, as the dispatcher delivers it. */
    method Handle(m: Moment)
      requires Enabled(View(), m.input)
      modifies this
      ensures View() == Step(config, m.env, old(View()), m.input)
      ensures pending <==> Calls(config, old(View()), m) || (old(pending) && sent == old(sent))
    {
      hide OnStateChange, OnTimer, Calls;
      PendingStep(config, View(), m);
      match m.input
      case Hears(x) =>
        match x {
          case StateChange(_, now) => StateChanged(now, m.env);
          case TailStart => TailStarted(m.env);
          case _ =>
        }
      case Fires(id) => TimerFires(id, m.env);
      case Tick => ScheduleTick(m.env);
      case Preempted(source) => Preempted(source);
    }
  }
}
