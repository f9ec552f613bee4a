/**
 * What the lockout and replay tables of modules/mod_otp.c decide, stated over maps from user to entry
 * with room for 32 users each, and what follows over whole runs.
 */
module OtpPolicy {
  import opened Common

  const MAX_FAILURES: nat := 5
  const LOCKOUT_S: nat := 300
  const SLOTS: nat := 32

  datatype Failures = Failures(count: nat, last: int)

  datatype Policy = Policy(locks: map<int, Failures>, counters: map<int, nat>)

  datatype Outcome = LockedOut | Accepted(counter: nat) | Replayed | Wrong

  /**
   * One well-formed code from an identified user; `verdict` is the counter it verified against, if any. The
   * clock is read at the lockout check, `now`, and again when a failure is `recorded`.
   */
  datatype Command = Command(user: int, now: int, recorded: int, verdict: Option<nat>)

  predicate Locked(locks: map<int, Failures>, user: int, now: int) {
    user in locks && locks[user].count >= MAX_FAILURES && now - locks[user].last < LOCKOUT_S
  }

  /** A lockout that has run out forgets the failures. */
  function Forgiven(locks: map<int, Failures>, user: int, now: int): map<int, Failures> {
    if user in locks && now - locks[user].last >= LOCKOUT_S then locks[user := locks[user].(count := 0)] else locks
  }

  function PutIfRoom<V>(m: map<int, V>, user: int, v: V): map<int, V> {
    if user in m || |m| < SLOTS then m[user := v] else m
  }

  /** A code that verified against `counter`. */
  function Matched(p: Policy, user: int, counter: nat): (Policy, Outcome) {
    if user in p.counters && counter <= p.counters[user] then (p, Replayed)
    else
      (Policy(if user in p.locks then p.locks[user := p.locks[user].(count := 0)] else p.locks,
              PutIfRoom(p.counters, user, counter)),
       Accepted(counter))
  }

  /** A code that was evaluated. */
  function Settled(p: Policy, user: int, recorded: int, verdict: Option<nat>): (Policy, Outcome) {
    match verdict
    case Some(counter) => Matched(p, user, counter)
    case None =>
      var failures := if user in p.locks then p.locks[user].count else 0;
      (p.(locks := PutIfRoom(p.locks, user, Failures(failures + 1, recorded))), Wrong)
  }

  function Attempt(p: Policy, c: Command): (Policy, Outcome) {
    if Locked(p.locks, c.user, c.now) then (p, LockedOut)
    else Settled(p.(locks := Forgiven(p.locks, c.user, c.now)), c.user, c.recorded, c.verdict)
  }

  const EMPTY: Policy := Policy(map[], map[])

  /** The state after a run. */
  function After(run: seq<Command>): Policy {
    if run == [] then EMPTY else Attempt(After(run[..|run| - 1]), run[|run| - 1]).0
  }

  /** The outcome of the last command of a run. */
  function LastOutcome(run: seq<Command>): Outcome
    requires run != []
  {
    Attempt(After(run[..|run| - 1]), run[|run| - 1]).1
  }

  predicate ClockRuns(run: seq<Command>) {
    && (forall i :: 0 <= i < |run| ==> run[i].now <= run[i].recorded)
    && (forall i, j :: 0 <= i < j < |run| ==> run[i].recorded <= run[j].now)
  }

  // ---- Lockout ----

  function TimesAfter(times: seq<int>, c: Command, o: Outcome): seq<int> {
    match o
    case Wrong => times + [c.recorded]
    case Accepted(_) => []
    case _ => times
  }

  /** When `user` gave wrong codes that were evaluated, since the user's last success. */
  function WrongTimes(run: seq<Command>, user: int): seq<int> {
    if run == [] then []
    else
      var before, c := WrongTimes(run[..|run| - 1], user), run[|run| - 1];
      if c.user != user then before
      else TimesAfter(before, c, LastOutcome(run))
  }

  /** Any six in a row span the lockout time. */
  predicate SixSpanLockout(times: seq<int>) {
    forall i :: 0 <= i && i + 5 < |times| ==> times[i + 5] - times[i] >= LOCKOUT_S
  }

  predicate Ascending(times: seq<int>, upTo: int) {
    && (forall i, j :: 0 <= i <= j < |times| ==> times[i] <= times[j])
    && (times != [] ==> times[|times| - 1] <= upTo)
  }

  /**
   * How a table entry reflects the wrong codes so far: it counts the last few of them, and either it
   * counts all or a full lockout time separates those it counts from the ones before.
   */
  predicate Reflects(f: Failures, times: seq<int>, now: int) {
    && f.count <= MAX_FAILURES && f.count <= |times|
    && (times != [] ==> f.last == times[|times| - 1])
    && (f.count < |times| ==>
          (if f.count == 0 then now else times[|times| - f.count]) - times[|times| - f.count - 1] >= LOCKOUT_S)
  }

  predicate LockInvariant(p: Policy, user: int, times: seq<int>, now: int) {
    && Ascending(times, now)
    && |p.locks| <= SLOTS
    && (user in p.locks ==> Reflects(p.locks[user], times, now) && SixSpanLockout(times))
    && (user !in p.locks ==> times == [] || |p.locks| == SLOTS)
  }

  lemma {:induction false} WrongKeepsReflecting(f: Failures, times: seq<int>, was: int, now: int, recorded: int)
    requires Ascending(times, was) && was <= now <= recorded && SixSpanLockout(times) && Reflects(f, times, was)
    requires f.count < MAX_FAILURES || now - f.last >= LOCKOUT_S
    ensures var g := if now - f.last >= LOCKOUT_S then 0 else f.count;
            Reflects(Failures(g + 1, recorded), times + [recorded], recorded)
    ensures SixSpanLockout(times + [recorded]) && Ascending(times + [recorded], recorded)
  {
    var n := |times|;
    var times' := times + [recorded];
    if n >= 5 {
      var g := if now - f.last >= LOCKOUT_S then 0 else f.count;
      var p := n - g;
      assert times'[p] - times'[p - 1] >= LOCKOUT_S;
      assert times'[n - 5] <= times'[p - 1];
      assert times'[p] <= recorded;
    }
  }

  lemma {:induction false} FreshStart(last: int, now: int)
    ensures Reflects(Failures(0, last), [], now) && SixSpanLockout([]) && Ascending([], now)
  {
  }

  lemma {:induction false} LaterStillReflects(f: Failures, times: seq<int>, was: int, now: int)
    requires Reflects(f, times, was) && was <= now
    ensures Reflects(f, times, now)
    ensures now - f.last >= LOCKOUT_S ==> Reflects(f.(count := 0), times, now)
  {
  }

  lemma {:induction false} PutIfRoomSize<V>(m: map<int, V>, user: int, v: V)
    requires |m| <= SLOTS
    ensures |m| <= |PutIfRoom(m, user, v)| <= SLOTS
    ensures user in m ==> |PutIfRoom(m, user, v)| == |m|
  {
    if user in m {
      assert m[user := v].Keys == m.Keys;
    } else {
      assert m[user := v].Keys == m.Keys + {user};
    }
  }

  /** Entries are never dropped, and only a wrong code can add one. */
  lemma {:induction false} LockSizes(p: Policy, c: Command)
    requires |p.locks| <= SLOTS
    ensures |p.locks| <= |Attempt(p, c).0.locks| <= SLOTS
    ensures forall u :: u in p.locks ==> u in Attempt(p, c).0.locks
    ensures forall u :: u in Attempt(p, c).0.locks && u !in p.locks ==>
              u == c.user && Attempt(p, c).1 == Wrong && |p.locks| < SLOTS
    ensures forall u :: u in p.locks && u != c.user ==> Attempt(p, c).0.locks[u] == p.locks[u]
  {
    var locks := Forgiven(p.locks, c.user, c.now);
    assert locks.Keys == p.locks.Keys;
    if !Locked(p.locks, c.user, c.now) {
      PutIfRoomSize(locks, c.user, Failures((if c.user in locks then locks[c.user].count else 0) + 1, c.recorded));
      if c.user in locks {
        PutIfRoomSize(locks, c.user, locks[c.user].(count := 0));
      }
    }
  }

  /** The user's own entry, by outcome. */
  lemma {:induction false} OwnEntryAfter(p: Policy, c: Command)
    requires c.user in p.locks
    ensures var (q, o) := Attempt(p, c);
            var f := p.locks[c.user];
            var expired := c.now - f.last >= LOCKOUT_S;
            && c.user in q.locks
            && match o
               case LockedOut => q.locks[c.user] == f
               case Accepted(_) => q.locks[c.user] == f.(count := 0)
               case Replayed => q.locks[c.user] == if expired then f.(count := 0) else f
               case Wrong =>
                 && q.locks[c.user] == Failures((if expired then 0 else f.count) + 1, c.recorded)
                 && (f.count < MAX_FAILURES || expired)
  {
  }

  lemma {:induction false} OwnEntry(p: Policy, c: Command, times: seq<int>, was: int)
    requires LockInvariant(p, c.user, times, was) && was <= c.now <= c.recorded && c.user in p.locks
    ensures var (q, o) := Attempt(p, c);
            && c.user in q.locks && Ascending(TimesAfter(times, c, o), c.recorded)
            && Reflects(q.locks[c.user], TimesAfter(times, c, o), c.recorded)
            && SixSpanLockout(TimesAfter(times, c, o))
  {
    hide Attempt;
    OwnEntryAfter(p, c);
    var f := p.locks[c.user];
    LaterStillReflects(f, times, was, c.now);
    LaterStillReflects(f, times, was, c.recorded);
    if c.now - f.last >= LOCKOUT_S {
      LaterStillReflects(f.(count := 0), times, c.now, c.recorded);
    }
    FreshStart(f.last, c.recorded);
    assert Ascending(times, c.recorded);
    if Attempt(p, c).1 == Wrong {
      WrongKeepsReflecting(f, times, was, c.now, c.recorded);
    }
    hide Reflects, Ascending, SixSpanLockout;
  }

  lemma {:induction false} LockStep(p: Policy, c: Command, user: int, times: seq<int>, was: int)
    requires LockInvariant(p, user, times, was) && was <= c.now <= c.recorded
    ensures var (q, o) := Attempt(p, c);
            LockInvariant(q, user, if c.user == user then TimesAfter(times, c, o) else times, c.recorded)
  {
    LockSizes(p, c);
    if c.user != user {
      hide Attempt;
      LockLater(p, user, times, was, c.recorded);
    } else if user in p.locks {
      OwnEntry(p, c, times, was);
    }
  }

  lemma {:induction false} LockRun(run: seq<Command>, user: int, now: int)
    requires ClockRuns(run) && (run != [] ==> run[|run| - 1].recorded <= now)
    ensures LockInvariant(After(run), user, WrongTimes(run, user), now)
  {
    if run != [] {
      var before, c := run[..|run| - 1], run[|run| - 1];
      LockRun(before, user, c.now);
      LockStep(After(before), c, user, WrongTimes(before, user), c.now);
      LockLater(After(run), user, WrongTimes(run, user), c.recorded, now);
    }
  }

  lemma {:induction false} LockLater(p: Policy, user: int, times: seq<int>, was: int, now: int)
    requires LockInvariant(p, user, times, was) && was <= now
    ensures LockInvariant(p, user, times, now)
  {
    if user in p.locks {
      LaterStillReflects(p.locks[user], times, was, now);
    }
  }

  /**
   * Brute force is bounded: for a user with a table slot, six evaluated wrong codes with no success
   * between them always span 300 seconds, and the counter never passes 5.
   */
  lemma {:induction false} SixWrongCodesSpanLockout(run: seq<Command>, user: int)
    requires ClockRuns(run) && user in After(run).locks
    ensures SixSpanLockout(WrongTimes(run, user))
    ensures After(run).locks[user].count <= MAX_FAILURES
  {
    LockRun(run, user, if run == [] then 0 else run[|run| - 1].recorded);
  }

  /** The slot is needed: a user who finds the table full is evaluated every time and leaves no trace. */
  lemma {:induction false} WithoutSlotNeverLocked(p: Policy, c: Command)
    requires c.user !in p.locks && c.verdict.None?
    ensures Attempt(p, c).1 == Wrong
    ensures Attempt(p, c).0 == p <==> |p.locks| >= SLOTS
  {
  }

  // ---- Replay ----

  function AcceptedUsers(run: seq<Command>): set<int> {
    if run == [] then {}
    else AcceptedUsers(run[..|run| - 1]) + (if LastOutcome(run).Accepted? then {run[|run| - 1].user} else {})
  }

  function AcceptedCounters(run: seq<Command>, user: int): seq<nat> {
    if run == [] then []
    else
      AcceptedCounters(run[..|run| - 1], user)
      + (if LastOutcome(run).Accepted? && run[|run| - 1].user == user then [LastOutcome(run).counter] else [])
  }

  predicate StrictlyIncreasing(s: seq<nat>) {
    forall i, j :: 0 <= i < j < |s| ==> s[i] < s[j]
  }

  /** The table holds the last accepted counter of `user`, and nothing for a user never accepted. */
  predicate Recorded(run: seq<Command>, user: int) {
    var counters, s := After(run).counters, AcceptedCounters(run, user);
    && (user in counters <==> user in AcceptedUsers(run))
    && (user in counters ==> s != [] && s[|s| - 1] == counters[user])
  }

  lemma {:induction false} NoCountersBefore(run: seq<Command>, user: int)
    ensures user !in AcceptedUsers(run) ==> AcceptedCounters(run, user) == []
  {
    if run != [] {
      NoCountersBefore(run[..|run| - 1], user);
    }
  }

  /** What one command does to the record of one user. */
  lemma {:induction false} ReplayStep(run: seq<Command>, user: int)
    requires run != []
    ensures var before, c := run[..|run| - 1], run[|run| - 1];
            var p, q := After(before).counters, After(run).counters;
            if LastOutcome(run).Accepted? && c.user == user
            then (user in p || |p| < SLOTS ==> user in q && q[user] == LastOutcome(run).counter)
              && (user in p ==> p[user] < LastOutcome(run).counter)
            else (user in q <==> user in p) && (user in p ==> q[user] == p[user])
  {
  }

  lemma {:induction false} NothingAccepted(user: int)
    ensures AcceptedUsers([]) == {} && AcceptedCounters([], user) == [] && After([]).counters == map[]
  {
  }

  lemma {:induction false} AcceptedStep(run: seq<Command>, user: int)
    requires run != []
    ensures var before, c, o := run[..|run| - 1], run[|run| - 1], LastOutcome(run);
            && AcceptedUsers(run) == AcceptedUsers(before) + (if o.Accepted? then {c.user} else {})
            && AcceptedCounters(run, user)
               == AcceptedCounters(before, user) + (if o.Accepted? && c.user == user then [o.counter] else [])
  {
  }

  lemma {:induction false} ReplayRun(run: seq<Command>, user: int)
    requires |AcceptedUsers(run)| <= SLOTS
    ensures Recorded(run, user) && StrictlyIncreasing(AcceptedCounters(run, user))
  {
    hide Attempt, After, LastOutcome, AcceptedUsers, AcceptedCounters;
    if run == [] {
      NothingAccepted(user);
      return;
    }
    var before, c := run[..|run| - 1], run[|run| - 1];
    AcceptedStep(run, user);
    Subset(AcceptedUsers(before), AcceptedUsers(run));
    ReplayRun(before, user);
    NoCountersBefore(before, user);
    if LastOutcome(run).Accepted? && c.user == user && user !in AcceptedUsers(before) {
      CountersAreAccepted(before);
    }
    ReplayStep(run, user);
  }

  lemma {:induction false} CountersAreAccepted(run: seq<Command>)
    ensures After(run).counters.Keys <= AcceptedUsers(run)
    ensures |After(run).counters| <= |AcceptedUsers(run)|
  {
    hide AcceptedUsers, Attempt, After, LastOutcome;
    if run == [] {
      NothingAccepted(0);
    } else {
      CountersAreAccepted(run[..|run| - 1]);
      forall user | user in After(run).counters
        ensures user in AcceptedUsers(run)
      {
        AcceptedStep(run, user);
        ReplayStep(run, user);
      }
    }
    Subset(After(run).counters.Keys, AcceptedUsers(run));
    assert |After(run).counters| == |After(run).counters.Keys|;
  }

  lemma {:induction false} Subset<T>(a: set<T>, b: set<T>)
    requires a <= b
    ensures |a| <= |b|
  {
    assert b == a + (b - a);
  }

  /** With at most 32 users ever accepted, no user's accepted counter is ever repeated or passed back. */
  lemma {:induction false} AcceptedCountersIncrease(run: seq<Command>, user: int)
    requires |AcceptedUsers(run)| <= SLOTS
    ensures StrictlyIncreasing(AcceptedCounters(run, user))
  {
    ReplayRun(run, user);
  }

  /** A code is replayable exactly when its first acceptance found no slot. */
  lemma {:induction false} ReplayableIffNoSlot(p: Policy, c: Command, again: Command)
    requires Attempt(p, c).1.Accepted? && again.user == c.user && again.verdict == c.verdict
    requires c.now <= c.recorded <= again.now <= again.recorded
    ensures Attempt(Attempt(p, c).0, again).1.Accepted? <==> c.user !in p.counters && |p.counters| >= SLOTS
  {
  }

  // ---- The tables do fill up ----

  /** One command from each of the users 1 to `n`, all at time 0, each with the verdict given. */
  function OneEach(n: nat, verdict: Option<nat>): seq<Command> {
    if n == 0 then [] else OneEach(n - 1, verdict) + [Command(n, 0, 0, verdict)]
  }

  lemma {:induction false} OneMore(run: seq<Command>, c: Command)
    ensures (run + [c])[..|run|] == run
    ensures After(run + [c]) == Attempt(After(run), c).0 && LastOutcome(run + [c]) == Attempt(After(run), c).1
    ensures WrongTimes(run + [c], c.user) == TimesAfter(WrongTimes(run, c.user), c, LastOutcome(run + [c]))
  {
    assert (run + [c])[..|run|] == run;
  }

  predicate OnlyUpTo<V>(m: map<int, V>, n: nat) {
    |m| == n && forall u :: u in m ==> 1 <= u <= n
  }

  lemma {:induction false} OneEachWrong(n: nat)
    requires n <= SLOTS
    ensures OnlyUpTo(After(OneEach(n, None)).locks, n)
  {
    hide After, LastOutcome, WrongTimes, Attempt;
    if n == 0 {
      EmptyState();
    } else {
      OneEachWrong(n - 1);
      OneMore(OneEach(n - 1, None), Command(n, 0, 0, None));
      RefusedAnew(After(OneEach(n - 1, None)), Command(n, 0, 0, None));
    }
  }

  lemma {:induction false} RefusedAnew(p: Policy, c: Command)
    requires c.user !in p.locks && |p.locks| < SLOTS && c.verdict.None?
    ensures Attempt(p, c).0.locks == p.locks[c.user := Failures(1, c.recorded)]
    ensures |p.locks[c.user := Failures(1, c.recorded)]| == |p.locks| + 1
  {
    var m := p.locks;
    assert m[c.user := Failures(1, c.recorded)].Keys == m.Keys + {c.user};
  }

  lemma {:induction false} OneEachAccepted(n: nat)
    requires n <= SLOTS
    ensures OnlyUpTo(After(OneEach(n, Some(0))).counters, n)
  {
    hide After, LastOutcome, WrongTimes, Attempt;
    if n == 0 {
      EmptyState();
    } else {
      OneEachAccepted(n - 1);
      OneMore(OneEach(n - 1, Some(0)), Command(n, 0, 0, Some(0)));
      NotLocked(n - 1);
      AcceptedAnew(After(OneEach(n - 1, Some(0))), Command(n, 0, 0, Some(0)));
    }
  }

  lemma {:induction false} AcceptedAnew(p: Policy, c: Command)
    requires p.locks == map[] && c.user !in p.counters && |p.counters| < SLOTS && c.verdict.Some?
    ensures Attempt(p, c).0 == Policy(map[], p.counters[c.user := c.verdict.value])
    ensures |p.counters[c.user := c.verdict.value]| == |p.counters| + 1
  {
    var m := p.counters;
    assert m[c.user := c.verdict.value].Keys == m.Keys + {c.user};
  }

  lemma {:induction false} EmptyState()
    ensures After([]) == EMPTY
  {
  }

  /** Users who only gave good codes have no failures on record. */
  lemma {:induction false} NotLocked(n: nat)
    ensures After(OneEach(n, Some(0))).locks == map[]
  {
    hide After, LastOutcome, WrongTimes;
    if n == 0 {
      EmptyState();
    } else {
      NotLocked(n - 1);
      OneMore(OneEach(n - 1, Some(0)), Command(n, 0, 0, Some(0)));
    }
  }

  /** `k` wrong codes of user 33 at time 0, after one wrong code from each of 32 others. */
  function BruteForce(k: nat): seq<Command> {
    if k == 0 then OneEach(SLOTS, None) else BruteForce(k - 1) + [Command(33, 0, 0, None)]
  }

  lemma {:induction false} TimesOfOthers(n: nat)
    requires n <= SLOTS
    ensures WrongTimes(OneEach(n, None), 33) == []
  {
    if n > 0 {
      TimesOfOthers(n - 1);
      var run := OneEach(n, None);
      assert run[..|run| - 1] == OneEach(n - 1, None);
    }
  }

  lemma {:induction false} BruteForceCounts(k: nat)
    ensures After(BruteForce(k)) == After(OneEach(SLOTS, None))
    ensures WrongTimes(BruteForce(k), 33) == seq(k, _ => 0)
    ensures ClockRuns(BruteForce(k)) && forall i :: 0 <= i < |BruteForce(k)| ==> BruteForce(k)[i].now == BruteForce(k)[i].recorded == 0
  {
    hide After, LastOutcome, WrongTimes, OneEach;
    if k == 0 {
      TimesOfOthers(SLOTS);
      OneEachAtZero(SLOTS, None);
    } else {
      BruteForceCounts(k - 1);
      OneEachWrong(SLOTS);
      OneMore(BruteForce(k - 1), Command(33, 0, 0, None));
      WithoutSlotNeverLocked(After(BruteForce(k - 1)), Command(33, 0, 0, None));
      assert seq(k - 1, _ => 0) + [0] == seq(k, _ => 0);
    }
  }

  lemma {:induction false} OneEachAtZero(n: nat, verdict: Option<nat>)
    ensures forall i :: 0 <= i < |OneEach(n, verdict)| ==> OneEach(n, verdict)[i].now == OneEach(n, verdict)[i].recorded == 0
  {
    if n > 0 { OneEachAtZero(n - 1, verdict); }
  }

  /**
   * The 33rd user is not held back: on a reachable run six of that user's wrong codes are evaluated at one
   * and the same instant.
   */
  lemma {:induction false} FullTableLetsGuessesThrough()
    ensures ClockRuns(BruteForce(6)) && 33 !in After(BruteForce(6)).locks
    ensures WrongTimes(BruteForce(6), 33) == [0, 0, 0, 0, 0, 0]
    ensures !SixSpanLockout(WrongTimes(BruteForce(6), 33))
  {
    hide After, WrongTimes, OneEach, BruteForce, ClockRuns;
    BruteForceCounts(6);
    OneEachWrong(SLOTS);
    var times := WrongTimes(BruteForce(6), 33);
    assert times[0 + 5] - times[0] < LOCKOUT_S;
  }

  /** A code of user 33 presented twice, after one accepted code from each of 32 others. */
  const REPLAY: seq<Command> := OneEach(SLOTS, Some(0)) + [Command(33, 0, 0, Some(7))] + [Command(33, 0, 0, Some(7))]

  lemma {:induction false} AcceptedOfOthers(n: nat)
    requires n <= SLOTS
    ensures AcceptedCounters(OneEach(n, Some(0)), 33) == []
  {
    if n > 0 {
      AcceptedOfOthers(n - 1);
      var run := OneEach(n, Some(0));
      assert run[..|run| - 1] == OneEach(n - 1, Some(0));
    }
  }

  /** And one and the same code of the 33rd user is accepted twice. */
  lemma {:induction false} FullTableLetsReplaysThrough()
    ensures AcceptedCounters(REPLAY, 33) == [7, 7]
    ensures !StrictlyIncreasing(AcceptedCounters(REPLAY, 33))
  {
    hide After, LastOutcome, AcceptedCounters, AcceptedUsers, OneEach, Attempt;
    var others, c := OneEach(SLOTS, Some(0)), Command(33, 0, 0, Some(7));
    OneEachAccepted(SLOTS);
    NotLocked(SLOTS);
    AcceptedOfOthers(SLOTS);
    OneMore(others, c);
    OneMore(others + [c], c);
    AcceptedStep(others + [c], 33);
    AcceptedStep(REPLAY, 33);
    AcceptedWithoutTrace(After(others), c);
    var s := AcceptedCounters(REPLAY, 33);
    assert s == [] + [7] + [7] == [7, 7];
    assert !(s[0] < s[1]);
  }

  lemma {:induction false} AcceptedWithoutTrace(p: Policy, c: Command)
    requires c.user !in p.counters && |p.counters| >= SLOTS && c.user !in p.locks && c.verdict.Some?
    ensures Attempt(p, c) == (p, Accepted(c.verdict.value))
  {
  }
}
