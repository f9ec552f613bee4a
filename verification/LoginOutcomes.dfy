/** What modules/mod_otp.c answers to each code, from the history of codes alone. */
module LoginOutcomes {
  import opened Common
  import opened OtpPolicy

  // ---- The history ----

  function CodesAfter(codes: seq<Command>, c: Command, o: Outcome): seq<Command> {
    match o
    case Wrong => codes + [c]
    case Accepted(_) => []
    case _ => codes
  }

  /** The user's wrong codes that were evaluated, since the user's last success. */
  function WrongCodes(run: seq<Command>, user: int): seq<Command> {
    if run == [] then []
    else
      var before, c := WrongCodes(run[..|run| - 1], user), run[|run| - 1];
      if c.user != user then before else CodesAfter(before, c, LastOutcome(run))
  }

  /** Less than 300 seconds passed from one wrong code's record to the next one's check. */
  predicate Follows(was: Command, next: Command) {
    next.now - was.recorded < 300
  }

  /** How many of the last codes follow one another. */
  function Streak(codes: seq<Command>): nat {
    if |codes| <= 1 then |codes|
    else if Follows(codes[|codes| - 2], codes[|codes| - 1]) then Streak(codes[..|codes| - 1]) + 1
    else 1
  }

  /** The last `n` codes follow one another. */
  predicate LastFollow(codes: seq<Command>, n: nat) {
    n <= |codes| && forall i :: |codes| - n < i < |codes| ==> Follows(codes[i - 1], codes[i])
  }

  lemma {:induction false} StreakIs(codes: seq<Command>, n: nat)
    requires n > 0
    ensures Streak(codes) >= n <==> LastFollow(codes, n)
  {
    if |codes| > 1 {
      var init, last := codes[..|codes| - 1], |codes| - 1;
      if Follows(codes[last - 1], codes[last]) {
        if n > 1 {
          StreakIs(init, n - 1);
          assert forall i :: 0 <= i < |init| ==> init[i] == codes[i];
          if LastFollow(codes, n) {
            assert forall i :: |init| - (n - 1) < i < |init| ==> Follows(codes[i - 1], codes[i]);
          }
          if LastFollow(init, n - 1) {
            forall i | |codes| - n < i < |codes|
              ensures Follows(codes[i - 1], codes[i])
            {
              if i < last { assert Follows(init[i - 1], init[i]); }
            }
          }
        }
      }
    }
  }

  /** Five wrong codes in a row count against the user at `now`: each follows the one before, and `now` the last. */
  predicate FiveCount(codes: seq<Command>, now: int) {
    LastFollow(codes, 5) && now - codes[|codes| - 1].recorded < 300
  }

  // ---- The table entry ----

  /** The entry counts the streak, unless the streak has run out. */
  predicate Counts(f: Failures, codes: seq<Command>, now: int) {
    && (codes != [] ==> f.last == codes[|codes| - 1].recorded)
    && (f.count == Streak(codes) || (f.count == 0 && codes != [] && now - f.last >= 300))
    && f.count <= 5
  }

  /** What each user's entry says at `now`; a user without one has given no wrong code, or found no slot. */
  predicate Kept(p: Policy, user: int, codes: seq<Command>, now: int) {
    user in p.locks ==> Counts(p.locks[user], codes, now)
  }

  lemma {:induction false} KeptLater(p: Policy, user: int, codes: seq<Command>, was: int, now: int)
    requires Kept(p, user, codes, was) && was <= now
    ensures Kept(p, user, codes, now)
  {
  }

  /** The user has a lockout slot, or has not needed one. */
  predicate HasSlot(p: Policy, user: int, codes: seq<Command>) {
    user in p.locks || codes == []
  }

  lemma {:induction false} LockedIff(p: Policy, c: Command, codes: seq<Command>)
    requires Kept(p, c.user, codes, c.now) && HasSlot(p, c.user, codes)
    ensures Attempt(p, c).1 == LockedOut <==> FiveCount(codes, c.now)
  {
    StreakIs(codes, 5);
    hide Streak, Follows;
  }

  lemma {:induction false} AppendStreak(codes: seq<Command>, c: Command)
    ensures Streak(codes + [c]) == if codes != [] && Follows(codes[|codes| - 1], c) then Streak(codes) + 1 else 1
  {
    assert (codes + [c])[..|codes|] == codes;
  }

  /** A user without an entry has given no wrong code, or found the table full. */
  predicate Slots(p: Policy, user: int, codes: seq<Command>) {
    user in p.locks || codes == [] || |p.locks| >= SLOTS
  }

  lemma {:induction false} StepKept(p: Policy, c: Command, user: int, codes: seq<Command>)
    requires Kept(p, user, codes, c.now) && Slots(p, user, codes) && c.now <= c.recorded
    ensures var (q, o) := Attempt(p, c);
            var now := if c.user == user then CodesAfter(codes, c, o) else codes;
            Kept(q, user, now, c.recorded) && (|p.locks| <= SLOTS ==> Slots(q, user, now))
  {
    AppendStreak(codes, c);
    LockSizesOthers(p, c, user);
    if |p.locks| <= SLOTS { LockSizes(p, c); }
    hide Streak;
    if c.user == user {
      if user in p.locks {
        OwnEntryAfter(p, c);
        StreakNothing();
        hide Attempt;
      }
    } else {
      hide Attempt;
    }
  }

  lemma {:induction false} StreakNothing()
    ensures Streak([]) == 0
  {
  }

  lemma {:induction false} LockSizesOthers(p: Policy, c: Command, user: int)
    ensures c.user != user ==>
              var q := Attempt(p, c).0;
              (user in q.locks <==> user in p.locks) && (user in p.locks ==> q.locks[user] == p.locks[user])
  {
  }

  // ---- Runs ----

  lemma {:induction false} LastCode(run: seq<Command>, c: Command, user: int)
    ensures WrongCodes(run + [c], user)
            == if c.user == user then CodesAfter(WrongCodes(run, user), c, LastOutcome(run + [c])) else WrongCodes(run, user)
    ensures AcceptedCounters(run + [c], user)
            == AcceptedCounters(run, user)
               + (if LastOutcome(run + [c]).Accepted? && c.user == user then [LastOutcome(run + [c]).counter] else [])
  {
    assert (run + [c])[..|run|] == run;
  }

  lemma {:induction false} ClockPrefix(run: seq<Command>, c: Command)
    requires ClockRuns(run + [c])
    ensures ClockRuns(run) && c.now <= c.recorded && (run != [] ==> run[|run| - 1].recorded <= c.now)
  {
    var all := run + [c];
    assert forall i :: 0 <= i < |run| ==> all[i] == run[i];
    assert all[|run|] == c;
  }

  lemma {:induction false} NothingKept(user: int)
    ensures After([]) == EMPTY && WrongCodes([], user) == [] && AcceptedCounters([], user) == []
  {
  }

  lemma {:induction false} RunKept(run: seq<Command>, user: int, now: int)
    requires ClockRuns(run) && (run != [] ==> run[|run| - 1].recorded <= now)
    ensures Kept(After(run), user, WrongCodes(run, user), now) && Slots(After(run), user, WrongCodes(run, user))
    ensures |After(run).locks| <= SLOTS
  {
    hide After, Attempt, WrongCodes, Kept, Slots, LastOutcome, CodesAfter;
    if run == [] {
      NothingKept(user);
      StartsKept(user, now);
    } else {
      var before, c := run[..|run| - 1], run[|run| - 1];
      assert run == before + [c];
      ClockPrefix(before, c);
      RunKept(before, user, c.now);
      OneMore(before, c);
      LastCode(before, c, user);
      StepKept(After(before), c, user, WrongCodes(before, user));
      LockSizes(After(before), c);
      KeptLater(After(run), user, WrongCodes(run, user), c.recorded, now);
    }
  }

  lemma {:induction false} StartsKept(user: int, now: int)
    ensures Kept(EMPTY, user, [], now) && Slots(EMPTY, user, [])
  {
  }

  /** The recorded counter is the highest accepted one; without a record none was accepted, or the table was full. */
  predicate Recorded(p: Policy, user: int, counters: seq<nat>) {
    if user in p.counters then (forall a :: a in counters ==> a <= p.counters[user]) && p.counters[user] in counters
    else counters == [] || |p.counters| >= SLOTS
  }

  lemma {:induction false} StepRecorded(p: Policy, c: Command, user: int, counters: seq<nat>)
    requires Recorded(p, user, counters) && |p.counters| <= SLOTS
    ensures var (q, o) := Attempt(p, c);
            && Recorded(q, user, counters + (if o.Accepted? && c.user == user then [o.counter] else []))
            && |q.counters| <= SLOTS
  {
    match Attempt(p, c).1 {
      case Accepted(k) => PutIfRoomSize(p.counters, c.user, k);
      case _ =>
    }
    assert counters + [] == counters;
    hide Forgiven, Locked;
  }

  lemma {:induction false} RunRecorded(run: seq<Command>, user: int)
    ensures Recorded(After(run), user, AcceptedCounters(run, user)) && |After(run).counters| <= SLOTS
  {
    hide After, Attempt, AcceptedCounters, Recorded, LastOutcome;
    if run == [] {
      NothingKept(user);
      StartsRecorded(user);
    } else {
      var before, c := run[..|run| - 1], run[|run| - 1];
      assert run == before + [c];
      RunRecorded(before, user);
      OneMore(before, c);
      LastCode(before, c, user);
      StepRecorded(After(before), c, user, AcceptedCounters(before, user));
    }
  }

  lemma {:induction false} StartsRecorded(user: int)
    ensures Recorded(EMPTY, user, [])
  {
  }

  lemma {:induction false} Evaluated(p: Policy, c: Command, counters: seq<nat>)
    requires Recorded(p, c.user, counters) && (c.user in p.counters || counters == [])
    requires Attempt(p, c).1 != LockedOut
    ensures Attempt(p, c).1 == match c.verdict
                               case None => Wrong
                               case Some(k) => if forall a :: a in counters ==> a < k then Accepted(k) else Replayed
  {
  }

  /**
   * What every login meets, on every run with a running clock and for every user with slots in the two
   * tables, or with no need of them yet. It is turned away exactly when five wrong codes in a row count
   * against the user, each within 300 seconds of the one before and the last within 300 seconds of now.
   * Otherwise a code that does not verify is wrong, and one that does is accepted exactly when its counter
   * is above every counter accepted from the user before.
   */
  lemma {:induction false} OutcomeIff(run: seq<Command>, c: Command)
    requires ClockRuns(run + [c])
    requires c.user in After(run).locks || WrongCodes(run, c.user) == []
    requires c.user in After(run).counters || AcceptedCounters(run, c.user) == []
    ensures var o := LastOutcome(run + [c]);
            && (o == LockedOut <==> FiveCount(WrongCodes(run, c.user), c.now))
            && (o != LockedOut ==>
                  o == match c.verdict
                       case None => Wrong
                       case Some(k) =>
                         if forall a :: a in AcceptedCounters(run, c.user) ==> a < k then Accepted(k) else Replayed)
  {
    hide After, Attempt, AcceptedCounters, Recorded, LastOutcome, WrongCodes, Kept, FiveCount;
    ClockPrefix(run, c);
    RunKept(run, c.user, c.now);
    RunRecorded(run, c.user);
    OneMore(run, c);
    LockedIff(After(run), c, WrongCodes(run, c.user));
    if LastOutcome(run + [c]) != LockedOut { Evaluated(After(run), c, AcceptedCounters(run, c.user)); }
  }
}
