/** When modules/mod_cwid.c identifies, which state it is in, and how long its timer is set. */
module CwIdLaws {
  import opened Timers
  import opened CwIdSpec
  import R = RepeaterSpec

  /**
   * The event brings an identification: a tick of either schedule on a free channel, the end of the tail, or
   * a pending one at the start of the repeater's tail or when the repeater goes idle after a conversation.
   */
  predicate Brings(c: Config, s: CwId, m: Moment)
    requires Enabled(s, m.input)
  {
    match m.input
    case Tick => !m.env.busy
    case Fires(id) => s.timers.armed[id] == TailTick || !m.env.busy
    case Hears(TailStart) => s.pending
    case Hears(StateChange(_, now)) => s.pending && now == R.Idle && (c.mode == Always || s.oc == OcActive)
    case _ => false
  }

  /** One identification is sent exactly when an event brings one outside quiet hours and it can be produced. */
  lemma {:induction false} SendsIff(c: Config, s: CwId, m: Moment)
    requires Enabled(s, m.input)
    ensures var q := Step(c, m.env, s, m.input);
            q.sent == s.sent + if Brings(c, s, m) && !m.env.quiet && m.env.able then 1 else 0
  {
  }

  /** The on-call timer, like the schedule, identifies at once on a free channel and owes one on a busy one. */
  lemma {:induction false} ActiveTickIdentifies(c: Config, s: CwId, m: Moment)
    requires Enabled(s, m.input) && m.input.Fires? && s.timers.armed[m.input.id] == ActiveTick
    requires !m.env.quiet && m.env.able
    ensures var q := Step(c, m.env, s, m.input);
            if m.env.busy then q.sent == s.sent && q.pending else q.sent == s.sent + 1 && !q.pending
  {
  }

  /** The event takes the identifier to `to`. */
  predicate Leads(c: Config, s: CwId, m: Moment, to: OcState)
    requires Enabled(s, m.input)
  {
    match m.input
    case Hears(StateChange(_, now)) =>
      c.mode == OnCall && if now == R.Idle then s.oc == OcActive && to == OcTail else to == OcActive
    case Fires(id) => s.timers.armed[id] == TailTick && to == OcIdle
    case _ => false
  }

  /** In every mode each change of state happens exactly on its own event. */
  lemma {:induction false} StatesIff(c: Config, s: CwId, m: Moment, to: OcState)
    requires Enabled(s, m.input) && to != s.oc
    ensures Step(c, m.env, s, m.input).oc == to <==> Leads(c, s, m, to)
  {
    hide Create, Cancel;
  }

  /** In conversation the timer runs for the interval, in the tail for the tail time or else the interval. */
  predicate SetRight(c: Config, s: CwId) {
    match s.oc
    case OcIdle => true
    case OcActive => Runs(s.timers, s.timer, c.intervalMs)
    case OcTail => Runs(s.timers, s.timer, if c.tailMs > 0 then c.tailMs else c.intervalMs)
  }

  lemma {:induction false} StepSetsRight(c: Config, s: CwId, m: Moment)
    requires c.mode == OnCall && c.intervalMs > 0 && TimerFits(s) && SetRight(c, s) && Enabled(s, m.input)
    ensures SetRight(c, Step(c, m.env, s, m.input))
  {
  }

  lemma {:induction false} NothingSet(c: Config)
    ensures TimerFits(INITIAL) && SetRight(c, INITIAL)
  {
  }

  function LastState(run: seq<Moment>): R.State {
    if run == [] then R.Idle
    else
      var x := run[|run| - 1].input;
      if x.Hears? && x.event.StateChange? then x.event.now else LastState(run[..|run| - 1])
  }

  /** The repeater's state changes in the run start each from where the one before ended. */
  predicate Chained(run: seq<Moment>) {
    run == []
    || (var before, x := run[..|run| - 1], run[|run| - 1].input;
        Chained(before) && (x.Hears? && x.event.StateChange? ==> x.event.was == LastState(before)))
  }

  lemma {:induction false} StepFits(c: Config, s: CwId, m: Moment, was: R.State)
    requires c.mode == OnCall && c.intervalMs > 0 && TimerFits(s) && Enabled(s, m.input)
    requires s.oc == OcActive <==> was != R.Idle
    requires m.input.Hears? && m.input.event.StateChange? ==> m.input.event.was == was
    ensures var q := Step(c, m.env, s, m.input);
            && TimerFits(q)
            && (q.oc == OcActive <==> (if m.input.Hears? && m.input.event.StateChange? then m.input.event.now else was) != R.Idle)
  {
    hide Hear, OnTimer;
    match m.input
    case Hears(event) => HearFits(c, m.env, s, was, event);
    case Fires(id) => TimerKeepsFit(m.env, s, id);
    case _ =>
  }

  /** After every run the on-call timer has been set for the time configured for its state. */
  lemma {:induction false} TimerIsSetRight(c: Config, run: seq<Moment>)
    requires c.mode == OnCall && c.intervalMs > 0 && Legal(c, run) && Chained(run)
    ensures var s := After(c, run); TimerFits(s) && SetRight(c, s) && (s.oc == OcActive <==> LastState(run) != R.Idle)
  {
    hide Step, TimerFits, SetRight;
    if run == [] {
      NothingSet(c);
    } else {
      var before, m := run[..|run| - 1], run[|run| - 1];
      TimerIsSetRight(c, before);
      LastStep(c, run);
      StepFits(c, After(c, before), m, LastState(before));
      StepSetsRight(c, After(c, before), m);
    }
  }
}
