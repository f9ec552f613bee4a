/** When the waits and the time-out of modules/mod_repeater.c are timed, over whole runs. */
module RepeaterTimers {
  import opened Timers
  import opened RepeaterSpec

  // ---- The hang time ----

  /** Without a tail timer nothing leads from the tail to the hang. */
  lemma {:induction false} NoTailNoHang(c: Config, s: Repeater, m: Moment)
    requires Configured(c) && Invariant(c, s) && Enabled(s, m.input) && c.tailMs == 0 && s.state != HangWait
    ensures Step(c, m.emergency, s, m.input).state != HangWait
  {
  }

  lemma {:induction false} HangIsUnreachable(c: Config, run: seq<Moment>)
    requires Configured(c) && Legal(c, run) && c.tailMs == 0
    ensures After(c, run).state != HangWait
  {
    hide Step, Invariant;
    if run != [] {
      var before := run[..|run| - 1];
      HangIsUnreachable(c, before);
      RunKeeps(c, before);
      LastStep(c, run);
      NoTailNoHang(c, After(c, before), run[|run| - 1]);
    }
  }

  /** A key-up that is admitted, unkeyed, and its tail timer firing. */
  function HangRun(c: Config): seq<Moment>
    requires Configured(c)
  {
    KeyedRunWaits(c);
    KeyedRun(c) + [Moment(false, Fire(After(c, KeyedRun(c)).tail))]
  }

  lemma {:induction false} TailFires(c: Config, s: Repeater)
    requires Configured(c) && Invariant(c, s) && s.state == TailWait && c.tailMs > 0
    ensures s.tail in s.timers.armed && Step(c, false, s, Fire(s.tail)).state == HangWait
  {
  }

  lemma {:induction false} HangRunHangs(c: Config)
    requires Configured(c) && c.tailMs > 0
    ensures Legal(c, HangRun(c)) && After(c, HangRun(c)).state == HangWait
  {
    hide Step, Invariant, KeyedRun;
    KeyedRunWaits(c);
    var s := After(c, KeyedRun(c));
    RunKeeps(c, KeyedRun(c));
    TailFires(c, s);
    OneMore(c, KeyedRun(c), Moment(false, Fire(s.tail)));
  }

  lemma {:induction false} HangTimed(c: Config, s: Repeater)
    requires Invariant(c, s)
    ensures c.hangMs > 0 ==> (s.state == HangWait <==> s.hang in s.timers.armed)
    ensures c.hangMs <= 0 ==> s.hang !in s.timers.armed
  {
  }

  /**
   * "Hang timer armed" and "waiting out the hang" are the same thing on every run exactly when the hang
   * time is positive, or the tail time is zero so that the hang is never reached.
   */
  lemma {:induction false} HangTimedIff(c: Config)
    requires Configured(c)
    ensures c.hangMs > 0 || c.tailMs == 0 <==>
            forall run: seq<Moment> | Legal(c, run) ::
              After(c, run).state == HangWait <==> After(c, run).hang in After(c, run).timers.armed
  {
    hide After, Legal, Invariant, HangRun;
    if c.hangMs > 0 || c.tailMs == 0 {
      forall run: seq<Moment> | Legal(c, run)
        ensures After(c, run).state == HangWait <==> After(c, run).hang in After(c, run).timers.armed
      {
        RunKeeps(c, run);
        HangTimed(c, After(c, run));
        if c.tailMs == 0 { HangIsUnreachable(c, run); }
      }
    } else {
      HangRunHangs(c);
      RunKeeps(c, HangRun(c));
      HangTimed(c, After(c, HangRun(c)));
    }
  }

  /** A wait without its timer goes on until somebody keys up: nothing else ends it. */
  lemma {:induction false} UntimedWaitNeedsRekey(c: Config, s: Repeater, m: Moment)
    requires Configured(c) && Invariant(c, s) && Enabled(s, m.input) && m.input != CorAssert
    requires (s.state == TailWait && c.tailMs == 0) || (s.state == HangWait && c.hangMs == 0)
    ensures Step(c, m.emergency, s, m.input).state == s.state
  {
  }

  // ---- The time-out ----

  /** Event `k` is the last to enter RECEIVING. */
  predicate LastEntry(c: Config, run: seq<Moment>, k: nat)
    requires Legal(c, run)
  {
    && k < |run| && StateAt(c, run, k) != Receiving
    && forall j: nat :: k < j <= |run| ==> StateAt(c, run, j) == Receiving
  }

  /** The entry arms the time-out: always out of the hang, never out of the tail, else unless in an emergency. */
  predicate EntryArms(c: Config, run: seq<Moment>, k: nat)
    requires Legal(c, run) && k < |run|
  {
    var was := StateAt(c, run, k);
    was != TailWait && (was == HangWait || !run[k].emergency)
  }

  /** Event `j` is the time-out timer firing. */
  predicate TotFires(c: Config, run: seq<Moment>, j: nat)
    requires Legal(c, run) && j < |run|
  {
    LegalPrefix(c, run, j);
    var s, x := After(c, run[..j]), run[j].input;
    x.Fire? && x.id in s.timers.armed && s.timers.armed[x.id] == TotExpired
  }

  lemma {:induction false} EntryStep(c: Config, s: Repeater, m: Moment)
    requires Configured(c) && Invariant(c, s) && Enabled(s, m.input)
    requires s.state != Receiving && Step(c, m.emergency, s, m.input).state == Receiving
    ensures var q := Step(c, m.emergency, s, m.input);
            q.tot in q.timers.armed <==> s.state != TailWait && (s.state == HangWait || !m.emergency)
  {
  }

  lemma {:induction false} ReceivingStep(c: Config, s: Repeater, m: Moment)
    requires Configured(c) && Invariant(c, s) && Enabled(s, m.input)
    requires s.state == Receiving && Step(c, m.emergency, s, m.input).state == Receiving
    ensures var q := Step(c, m.emergency, s, m.input);
            q.tot in q.timers.armed
            <==> s.tot in s.timers.armed && !(m.input.Fire? && s.timers.armed[m.input.id] == TotExpired)
    ensures m.input.Fire? && s.timers.armed[m.input.id] == TotExpired ==> m.emergency
  {
  }

  /** The time-out is armed: by the last entry, and not fired since. */
  predicate StillArmed(c: Config, run: seq<Moment>, k: nat)
    requires Legal(c, run)
  {
    k < |run| && EntryArms(c, run, k) && forall j: nat :: k < j < |run| ==> !TotFires(c, run, j)
  }

  lemma {:induction false} SameEntry(c: Config, run: seq<Moment>, m: Moment, k: nat)
    requires Legal(c, run + [m]) && Legal(c, run) && LastEntry(c, run, k)
    requires After(c, run + [m]).state == Receiving
    ensures LastEntry(c, run + [m], k)
    ensures StillArmed(c, run + [m], k) <==> StillArmed(c, run, k) && !TotFires(c, run + [m], |run|)
  {
    hide After, Legal, StateAt;
    var longer := run + [m];
    SameState(c, run, m, k);
    StateAtEnd(c, longer);
    forall j: nat | k < j <= |longer|
      ensures StateAt(c, longer, j) == Receiving
    {
      if j <= |run| { SameState(c, run, m, j); }
    }
    assert EntryArms(c, longer, k) <==> EntryArms(c, run, k);
    forall j: nat | k < j < |run|
      ensures TotFires(c, longer, j) <==> TotFires(c, run, j)
    {
      assert longer[..j] == run[..j];
    }
  }

  /**
   * Whenever the repeater receives, its time-out is live exactly when the last entry armed it and it has not
   * fired since: a rekey out of the tail does not arm it, and neither does an admission in an emergency, and
   * a time-out that fires in an emergency is gone.
   */
  lemma {:induction false} ReceivingIsTimedIff(c: Config, run: seq<Moment>)
    requires Configured(c) && Legal(c, run) && After(c, run).state == Receiving
    ensures exists k: nat :: LastEntry(c, run, k)
              && (After(c, run).tot in After(c, run).timers.armed <==> StillArmed(c, run, k))
  {
    hide Step, Invariant, StateAt, StillArmed, LastEntry;
    var before, m := run[..|run| - 1], run[|run| - 1];
    var s := After(c, before);
    assert run == before + [m];
    LastStep(c, run);
    RunKeeps(c, before);
    if s.state == Receiving {
      ReceivingIsTimedIff(c, before);
      var k: nat :| LastEntry(c, before, k) && (s.tot in s.timers.armed <==> StillArmed(c, before, k));
      SameEntry(c, before, m, k);
      ReceivingStep(c, s, m);
      assert run[..|before|] == before;
      assert LastEntry(c, run, k) && (After(c, run).tot in After(c, run).timers.armed <==> StillArmed(c, run, k));
    } else {
      EntryStep(c, s, m);
      FreshEntry(c, run);
      var k := |before|;
      assert LastEntry(c, run, k) && (After(c, run).tot in After(c, run).timers.armed <==> StillArmed(c, run, k));
    }
  }

  lemma {:induction false} FreshEntry(c: Config, run: seq<Moment>)
    requires Legal(c, run) && run != []
    requires After(c, run).state == Receiving && After(c, run[..|run| - 1]).state != Receiving
    ensures var k, s := |run| - 1, After(c, run[..|run| - 1]);
            && LastEntry(c, run, k)
            && (StillArmed(c, run, k) <==> s.state != TailWait && (s.state == HangWait || !run[k].emergency))
  {
    hide After, Legal;
    assert run[..|run|] == run;
  }

  /** A key-up that is admitted, unkeyed, and keyed again in the tail: never an emergency, and no time-out. */
  function RekeyedRun(c: Config): seq<Moment> {
    KeyedRun(c) + [Moment(false, CorAssert)]
  }

  lemma {:induction false} RekeyStep(c: Config, s: Repeater)
    requires Configured(c) && Invariant(c, s) && s.state == TailWait
    ensures var q := Step(c, false, s, CorAssert); q.state == Receiving && q.tot == -1 && q.tot !in q.timers.armed
  {
  }

  lemma {:induction false} RekeyedRunIsUntimed(c: Config)
    requires Configured(c)
    ensures Legal(c, RekeyedRun(c)) && forall i :: 0 <= i < |RekeyedRun(c)| ==> !RekeyedRun(c)[i].emergency
    ensures var s := After(c, RekeyedRun(c)); s.state == Receiving && s.tot == -1 && s.tot !in s.timers.armed
  {
    hide Step, Invariant, After, Legal;
    KeyedRunWaits(c);
    RunKeeps(c, KeyedRun(c));
    RekeyStep(c, After(c, KeyedRun(c)));
    OneMore(c, KeyedRun(c), Moment(false, CorAssert));
  }
}
