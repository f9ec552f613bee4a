/**
 * How modules/mod_repeater.c goes from state to state: which event leaves each state and for which, how
 * long its timers are set, and that a busy repeater that is unkeyed winds down to idle.
 */
module RepeaterExits {
  import opened Timers
  import opened RepeaterSpec

  // ---- The exits ----

  /** What has to hold for a caller to be let in when nothing debounces, and when the debounce is over. */
  predicate Admitted(c: Config, s: Repeater, x: Input) {
    || (x == CorAssert && c.debounceMs <= 0 && !c.requireId)
    || (s.debounce != -1 && x == Fire(s.debounce) && (!c.requireId || s.identified))
  }

  /** The event takes the repeater from `was` to `to`. */
  predicate Leads(c: Config, s: Repeater, m: Moment, to: State) {
    match (s.state, to)
    case (Idle, Bridging) => m.input == LinkRxAssert
    case (Idle, Receiving) => Admitted(c, s, m.input)
    case (Bridging, Idle) => m.input == LinkRxDrop
    case (Receiving, TailWait) => m.input == CorDrop
    case (Receiving, RxTimeout) => s.tot != -1 && m.input == Fire(s.tot) && !m.emergency
    case (TailWait, Receiving) => m.input == CorAssert
    case (TailWait, HangWait) => s.tail != -1 && m.input == Fire(s.tail)
    case (HangWait, Receiving) => m.input == CorAssert
    case (HangWait, Idle) => s.hang != -1 && m.input == Fire(s.hang)
    case (RxTimeout, Idle) => m.input == CorDrop
    case _ => false
  }

  lemma {:induction false} CorExits(c: Config, s: Repeater, m: Moment, to: State)
    requires Configured(c) && Invariant(c, s) && to != s.state && (m.input == CorAssert || m.input == CorDrop)
    ensures Step(c, m.emergency, s, m.input).state == to <==> Leads(c, s, m, to)
  {
    hide Create, Cancel;
  }

  lemma {:induction false} FireIds(c: Config, s: Repeater, id: int)
    requires Invariant(c, s) && id in s.timers.armed
    ensures id >= 1
    ensures match s.timers.armed[id]
            case TailExpired => (s.state == TailWait && id == s.tail) || (s.state == HangWait && id == s.hang)
            case TotExpired => s.state == Receiving && id == s.tot
            case DebounceExpired => (s.state == Idle || s.state == Bridging) && id == s.debounce
  {
  }

  lemma {:induction false} FireExits(c: Config, s: Repeater, m: Moment, to: State)
    requires Configured(c) && Invariant(c, s) && Enabled(s, m.input) && to != s.state && m.input.Fire?
    ensures Step(c, m.emergency, s, m.input).state == to <==> Leads(c, s, m, to)
  {
    FireIds(c, s, m.input.id);
    assert TimersFitState(s);
    hide Create, Cancel, Invariant, TimersFitState;
  }

  /**
   * Every change of state: each of the ten that there are happens exactly on its own event, there is no
   * other, and back in idle this module asks nothing of the transmitter.
   */
  lemma {:induction false} ExitsIff(c: Config, s: Repeater, m: Moment, to: State)
    requires Configured(c) && Invariant(c, s) && Enabled(s, m.input) && to != s.state
    ensures var q := Step(c, m.emergency, s, m.input);
            && (q.state == to <==> Leads(c, s, m, to))
            && (q.state == Idle ==> q.ptt == 0)
  {
    StepKeeps(c, m.emergency, s, m.input);
    match m.input {
      case CorAssert => CorExits(c, s, m, to);
      case CorDrop => CorExits(c, s, m, to);
      case Fire(_) => FireExits(c, s, m, to);
      case _ =>
    }
    hide OnCorAssert, OnCorDrop, OnTimer;
  }

  /** An access cycle: debounced from an idle COR assert on, until COR drops or the debounce is over. */
  lemma {:induction false} DebouncedIff(c: Config, s: Repeater, m: Moment)
    requires Configured(c) && Invariant(c, s) && Enabled(s, m.input)
    ensures var q := Step(c, m.emergency, s, m.input);
            q.debounce != -1
            <==> || (m.input == CorAssert && s.state == Idle && (c.debounceMs > 0 || c.requireId))
                 || (s.debounce != -1 && m.input != CorDrop && m.input != Fire(s.debounce))
  {
    if m.input.Fire? { FireIds(c, s, m.input.id); }
  }

  /** A caller counts as identified from the identification on, until an idle COR assert or an idle clear. */
  lemma {:induction false} IdentifiedIff(c: Config, s: Repeater, m: Moment)
    requires Enabled(s, m.input)
    ensures Step(c, m.emergency, s, m.input).identified
            <==> || m.input == CallerIdentified
                 || (s.identified && !(s.state == Idle && (m.input == CorAssert || m.input == CallerCleared)))
  {
    hide Create, Cancel;
  }

  // ---- The delays ----

  /** Every timer is set for its own time; on a closed repeater the debounce lasts half a second at least. */
  predicate SetRight(c: Config, s: Repeater) {
    && (s.tail != -1 ==> Runs(s.timers, s.tail, c.tailMs))
    && (s.hang != -1 ==> Runs(s.timers, s.hang, c.hangMs))
    && (s.tot != -1 ==> Runs(s.timers, s.tot, c.totMs))
    && (s.debounce != -1 ==>
          Runs(s.timers, s.debounce, if c.requireId && c.debounceMs < 500 then 500 else c.debounceMs))
  }

  lemma {:induction false} StepSetsRight(c: Config, s: Repeater, m: Moment)
    requires Configured(c) && Invariant(c, s) && SetRight(c, s) && Enabled(s, m.input)
    ensures SetRight(c, Step(c, m.emergency, s, m.input))
  {
    match m.input
    case CorAssert => AssertSetsRight(c, s, m.emergency);
    case CorDrop => DropSetsRight(c, s);
    case Fire(id) => FireSetsRight(c, s, m.emergency, id);
    case _ =>
  }

  lemma {:induction false} AssertSetsRight(c: Config, s: Repeater, emergency: bool)
    requires Configured(c) && Invariant(c, s) && SetRight(c, s)
    ensures SetRight(c, OnCorAssert(c, emergency, s))
  {
  }

  lemma {:induction false} DropSetsRight(c: Config, s: Repeater)
    requires Configured(c) && Invariant(c, s) && SetRight(c, s)
    ensures SetRight(c, OnCorDrop(c, s))
  {
  }

  lemma {:induction false} FireSetsRight(c: Config, s: Repeater, emergency: bool, id: int)
    requires Configured(c) && Invariant(c, s) && SetRight(c, s) && id in s.timers.armed
    ensures SetRight(c, Step(c, emergency, s, Fire(id)))
  {
    FireIds(c, s, id);
    FireLeavesNone(c, s, id);
  }

  /** After every run each live timer has been set for the time configured for it. */
  lemma {:induction false} TimersAreSetRight(c: Config, run: seq<Moment>)
    requires Configured(c) && Legal(c, run)
    ensures SetRight(c, After(c, run))
  {
    hide Step, Invariant, SetRight;
    if run == [] {
      NothingSet(c);
    } else {
      var before := run[..|run| - 1];
      TimersAreSetRight(c, before);
      RunKeeps(c, before);
      LastStep(c, run);
      StepSetsRight(c, After(c, before), run[|run| - 1]);
    }
  }

  lemma {:induction false} NothingSet(c: Config)
    ensures Legal(c, []) && After(c, []) == INITIAL && SetRight(c, INITIAL)
  {
  }

  // ---- Winding down ----

  /** How many timers have yet to fire before an unkeyed repeater is idle. */
  function ToGo(s: State): nat {
    if s == TailWait then 2 else if s == HangWait then 1 else 0
  }

  /** Unkeyed and on the way to idle: the wait has its timer, and nothing else is live. */
  ghost predicate Winding(c: Config, s: Repeater) {
    && Invariant(c, s) && (s.state == TailWait || s.state == HangWait || s.state == Idle) && s.debounce == -1
  }

  lemma {:induction false} UnkeyedWinds(c: Config, s: Repeater, emergency: bool)
    requires Configured(c) && Invariant(c, s) && Busy(s.state)
    ensures Winding(c, Step(c, emergency, s, CorDrop))
  {
    StepKeeps(c, emergency, s, CorDrop);
    hide Invariant;
    BusyIsSettled(c, s);
  }

  lemma {:induction false} BusyIsSettled(c: Config, s: Repeater)
    requires Invariant(c, s) && Busy(s.state)
    ensures s.debounce == -1
  {
  }

  lemma {:induction false} FireWinds(c: Config, s: Repeater, emergency: bool, id: int)
    requires Configured(c) && Winding(c, s) && id in s.timers.armed
    ensures var q := Step(c, emergency, s, Fire(id)); Winding(c, q) && ToGo(q.state) + 1 == ToGo(s.state)
  {
    StepKeeps(c, emergency, s, Fire(id));
    FireIds(c, s, id);
    assert TimersFitState(s);
    hide Invariant, TimersFitState;
  }

  /** With positive times the wait has a live timer, and idle has none. */
  lemma {:induction false} WindingIsTimed(c: Config, s: Repeater)
    requires Configured(c) && Winding(c, s) && c.tailMs > 0 && c.hangMs > 0
    ensures s.state == Idle <==> s.timers.armed == map[]
    ensures s.state == Idle ==> s.ptt == 0
  {
    if s.state == Idle {
      assert forall id :: id in s.timers.armed.Keys ==> id == -1;
      assert s.timers.armed.Keys == {};
    } else {
      assert (if s.state == TailWait then s.tail else s.hang) in s.timers.armed;
    }
  }

  predicate OnlyFires(fires: seq<Moment>) {
    forall i :: 0 <= i < |fires| ==> fires[i].input.Fire?
  }

  lemma {:induction false} FiresWind(c: Config, run: seq<Moment>, fires: seq<Moment>)
    requires Configured(c) && Legal(c, run) && Winding(c, After(c, run)) && OnlyFires(fires) && Legal(c, run + fires)
    ensures var q := After(c, run + fires);
            Winding(c, q) && |fires| + ToGo(q.state) == ToGo(After(c, run).state)
    decreases |fires|
  {
    hide Step, Winding, Configured;
    if fires == [] {
      assert run + [] == run;
    } else {
      var init, m := fires[..|fires| - 1], fires[|fires| - 1];
      assert (run + fires)[..|run + fires| - 1] == run + init && (run + fires)[|run + fires| - 1] == m;
      FiresWind(c, run, init);
      FireWinds(c, After(c, run + init), m.emergency, m.input.id);
    }
  }

  /**
   * Nobody is kept on the air: from every busy moment of every run, once COR drops, whichever timers fire,
   * two firings at most lead to idle with the transmitter released, and until then a timer is live.
   */
  lemma {:induction false} UnkeyedReachesIdle(c: Config, run: seq<Moment>, emergency: bool, fires: seq<Moment>)
    requires Configured(c) && c.tailMs > 0 && c.hangMs > 0 && Legal(c, run) && Busy(After(c, run).state)
    requires OnlyFires(fires) && Legal(c, run + [Moment(emergency, CorDrop)] + fires)
    ensures var q := After(c, run + [Moment(emergency, CorDrop)] + fires);
            && |fires| <= 2 && (|fires| == 2 ==> q.state == Idle)
            && (q.state == Idle <==> q.timers.armed == map[])
            && (q.state == Idle ==> q.ptt == 0)
  {
    hide Step, Invariant, Winding, After, Legal, Configured;
    RunKeeps(c, run);
    UnkeyedWinds(c, After(c, run), emergency);
    OneMore(c, run, Moment(emergency, CorDrop));
    FiresWind(c, run + [Moment(emergency, CorDrop)], fires);
    var q := After(c, run + [Moment(emergency, CorDrop)] + fires);
    WindingIsTimed(c, q);
    WindingStates(c, q);
  }

  lemma {:induction false} WindingStates(c: Config, s: Repeater)
    requires Winding(c, s)
    ensures ToGo(s.state) == 0 <==> s.state == Idle
  {
  }
}
