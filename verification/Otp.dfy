/** A table of 32 per-user records in two parallel arrays; user 0 marks a slot never used. */
module UserTables {
  const SLOTS: nat := 32

  lemma {:induction false} UpdateSize<V>(m: map<int, V>, user: int, v: V)
    ensures |m[user := v]| == |m| + if user in m then 0 else 1
  {
    assert m[user := v].Keys == m.Keys + {user};
  }

  class UserTable<V(0)> {
    const users: array<int>
    const values: array<V>
    ghost var used: nat
    ghost var contents: map<int, V>
    ghost var slotOf: map<int, nat>

    /** Slots fill from the front, no user has two, and `contents` is what they hold. */
    ghost predicate Valid()
      reads this, users, values
    {
      && users as object != values && users.Length == values.Length == SLOTS
      && used <= SLOTS && |contents| == used && slotOf.Keys == contents.Keys
      && (forall i :: used <= i < SLOTS ==> users[i] == 0)
      && (forall i :: 0 <= i < used ==> users[i] > 0 && users[i] in contents && slotOf[users[i]] == i)
      && (forall u :: u in contents ==>
            slotOf[u] < used && users[slotOf[u]] == u && values[slotOf[u]] == contents[u])
    }

    constructor ()
      ensures Valid() && contents == map[]
      ensures fresh(users) && fresh(values)
    {
      users := new int[SLOTS](_ => 0);
      values := new V[SLOTS];
      used := 0;
      contents := map[];
      slotOf := map[];
    }

    /** The slot of `user`, or -1. */
    method Find(user: int) returns (slot: int)
      requires Valid() && user > 0
      ensures slot == -1 ==> user !in contents
      ensures slot != -1 ==>
                && 0 <= slot < used && slot < users.Length == values.Length == SLOTS
                && users[slot] == user && user in contents && values[slot] == contents[user]
    {
      var i := 0;
      while i < SLOTS
        invariant 0 <= i <= SLOTS
        invariant forall j :: 0 <= j < i ==> users[j] != user
      {
        if users[i] == user {
          return i;
        }
        i := i + 1;
      }
      return -1;
    }

    /** The slot of `user`, else the first free slot, else -1: stops at whichever comes first. */
    method FindOrFree(user: int) returns (slot: int)
      requires Valid() && user > 0
      ensures slot == -1 <==> user !in contents && |contents| == SLOTS
      ensures slot != -1 ==> 0 <= slot <= used && slot < users.Length == values.Length == SLOTS
      ensures slot != -1 && user in contents ==> slot < used && values[slot] == contents[user]
      ensures slot != -1 && user !in contents ==> slot == used
      ensures slot != -1 ==> (users[slot] == user <==> user in contents)
    {
      var i := 0;
      while i < SLOTS
        invariant 0 <= i <= used
        invariant forall j :: 0 <= j < i ==> users[j] != user
      {
        if users[i] == user || users[i] == 0 {
          return i;
        }
        i := i + 1;
      }
      return -1;
    }

    /** As FindOrFree, but remembers the first free slot while it looks on for `user`. */
    method FindRemembering(user: int) returns (slot: int, found: bool)
      requires Valid() && user > 0
      ensures found <==> user in contents
      ensures slot == -1 <==> user !in contents && |contents| == SLOTS
      ensures slot != -1 ==> 0 <= slot <= used && slot < users.Length == values.Length == SLOTS
      ensures found ==> 0 <= slot < used && users[slot] == user && values[slot] == contents[user]
      ensures slot != -1 && !found ==> slot == used
    {
      slot, found := -1, false;
      var i := 0;
      while i < SLOTS
        invariant 0 <= i <= SLOTS
        invariant forall j :: 0 <= j < i ==> users[j] != user
        invariant slot == if i <= used then -1 else used
      {
        if users[i] == user {
          return i, true;
        }
        if slot < 0 && users[i] == 0 {
          slot := i;
        }
        i := i + 1;
      }
    }

    method Put(slot: int, user: int, v: V)
      requires Valid() && user > 0 && 0 <= slot < SLOTS
      requires if user in contents then slot < used && users[slot] == user else slot == used
      modifies this, users, values
      ensures Valid() && contents == old(contents)[user := v]
    {
      UpdateSize(contents, user, v);
      assert user in contents ==> slotOf[user] == slot;
      if slot == used {
        used := used + 1;
      }
      users[slot] := user;
      values[slot] := v;
      contents := contents[user := v];
      slotOf := slotOf[user := slot];
      assert slotOf.Keys == contents.Keys;
      assert forall i :: 0 <= i < SLOTS ==> users[i] == if i == slot then user else old(users[i]);
    }
  }
}

/** Elevated sessions: a table of 64, one expiry timer each, and the core's elevated flags. */
module OtpSessions {
  import opened Timers

  const MAX_SESSIONS: nat := 64

  datatype Session = Session(user: int, active: bool, timer: int, startedAt: int)

  /** Who is elevated after `user` has logged in: nobody more when all sessions are others'. */
  function Elevate(elevated: set<int>, user: int): set<int> {
    if user in elevated || |elevated| < MAX_SESSIONS then elevated + {user} else elevated
  }

  /** A login elevates exactly when the user has a session already or one is left. */
  lemma {:induction false} ElevatedIff(elevated: set<int>, user: int)
    ensures user in Elevate(elevated, user) <==> user in elevated || |elevated| < MAX_SESSIONS
    ensures |elevated| <= MAX_SESSIONS ==> |Elevate(elevated, user)| <= MAX_SESSIONS
  {
    if user in elevated {
      assert elevated + {user} == elevated;
    }
  }

  function UsersOf(table: seq<Session>): set<int> {
    if table == [] then {}
    else
      var s := table[|table| - 1];
      UsersOf(table[..|table| - 1]) + if s.active then {s.user} else {}
  }

  /** No user has two active sessions. */
  predicate OneEachUser(table: seq<Session>) {
    forall i, j :: 0 <= i < j < |table| && table[i].active && table[j].active ==> table[i].user != table[j].user
  }

  predicate HasSession(table: seq<Session>, user: int) {
    exists i :: 0 <= i < |table| && table[i].active && table[i].user == user
  }

  lemma {:induction false} InUsers(table: seq<Session>, user: int)
    ensures user in UsersOf(table) <==> HasSession(table, user)
  {
    if table != [] {
      var init, k := table[..|table| - 1], |table| - 1;
      InUsers(init, user);
      if i :| 0 <= i < |init| && init[i].active && init[i].user == user {
        assert table[i] == init[i];
      }
      if i :| 0 <= i < |table| && table[i].active && table[i].user == user {
        assert i < k ==> init[i] == table[i];
      }
    }
  }

  /** There are as many users as sessions exactly when all sessions are active. */
  lemma {:induction false} CountUsers(table: seq<Session>)
    requires OneEachUser(table)
    ensures |UsersOf(table)| <= |table|
    ensures |UsersOf(table)| == |table| <==> forall i :: 0 <= i < |table| ==> table[i].active
  {
    if table != [] {
      hide HasSession;
      var init, last := table[..|table| - 1], table[|table| - 1];
      CountUsers(init);
      assert forall i :: 0 <= i < |init| ==> init[i] == table[i];
      if last.active {
        LastIsNew(table);
        InUsers(init, last.user);
      }
    }
  }

  lemma {:induction false} LastIsNew(table: seq<Session>)
    requires table != [] && OneEachUser(table) && table[|table| - 1].active
    ensures !HasSession(table[..|table| - 1], table[|table| - 1].user)
  {
  }

  /** The table is full exactly when 64 users are elevated. */
  lemma {:induction false} FullIffSixtyFour(s: Sessions)
    requires s.Valid()
    ensures s.Full() <==> |s.elevated| >= MAX_SESSIONS
    ensures |s.elevated| <= MAX_SESSIONS
  {
    hide UsersOf;
    var t := s.table[..];
    CountUsers(t);
    forall u
      ensures u in UsersOf(t) <==> u in s.elevated
    {
      InUsers(t, u);
      if u in s.elevated { assert t[s.sessionOf[u]].active && t[s.sessionOf[u]].user == u; }
    }
    assert UsersOf(t) == s.elevated;
    assert forall i :: 0 <= i < MAX_SESSIONS ==> t[i] == s.table[i];
  }

  class Sessions {
    const table: array<Session>
    const timeoutMs: int
    var timers: Timers<int>
    var elevated: set<int>
    ghost var sessionOf: map<int, nat>

    /**
     * A user is elevated exactly while a session is active for them, no user has two sessions, and
     * the live timers are exactly those of the active sessions.
     */
    ghost predicate Valid()
      reads this, table
    {
      && table.Length == MAX_SESSIONS && Sound(timers)
      && sessionOf.Keys == elevated
      && (forall i :: 0 <= i < MAX_SESSIONS && table[i].active ==>
            table[i].user in elevated && sessionOf[table[i].user] == i)
      && (forall u :: u in elevated ==>
            sessionOf[u] < MAX_SESSIONS && table[sessionOf[u]].active && table[sessionOf[u]].user == u)
      && (forall i :: 0 <= i < MAX_SESSIONS && table[i].active ==>
            if timeoutMs > 0 then table[i].timer in timers.armed && timers.armed[table[i].timer] == i
            else table[i].timer == -1)
      && (forall id :: id in timers.armed ==>
            0 <= timers.armed[id] < MAX_SESSIONS
            && table[timers.armed[id]].active && table[timers.armed[id]].timer == id)
    }

    ghost predicate Full()
      reads this, table
      requires table.Length == MAX_SESSIONS
    {
      forall i :: 0 <= i < MAX_SESSIONS ==> table[i].active
    }

    constructor (timeoutMs: int)
      ensures Valid() && elevated == {} && this.timeoutMs == timeoutMs && fresh(table)
    {
      table := new Session[MAX_SESSIONS](_ => Session(0, false, -1, 0));
      this.timeoutMs := timeoutMs;
      timers := Init();
      elevated := {};
      sessionOf := map[];
    }

    method Find(user: int) returns (slot: int)
      requires Valid()
      ensures slot == -1 <==> user !in elevated
      ensures slot != -1 ==> 0 <= slot < MAX_SESSIONS && table[slot].active && table[slot].user == user
    {
      var i := 0;
      while i < MAX_SESSIONS
        invariant 0 <= i <= MAX_SESSIONS
        invariant forall j :: 0 <= j < i && table[j].active ==> table[j].user != user
      {
        if table[i].active && table[i].user == user {
          return i;
        }
        i := i + 1;
      }
      return -1;
    }

    method FirstFree() returns (slot: int)
      requires Valid()
      ensures slot == -1 <==> Full()
      ensures slot != -1 ==> 0 <= slot < MAX_SESSIONS && !table[slot].active
    {
      var i := 0;
      while i < MAX_SESSIONS
        invariant 0 <= i <= MAX_SESSIONS
        invariant forall j :: 0 <= j < i ==> table[j].active
      {
        if !table[i].active {
          return i;
        }
        i := i + 1;
      }
      return -1;
    }

    /** As Valid, but no live timer belongs to `slot`. */
    ghost predicate Disarmed(slot: int)
      reads this, table
    {
      && table.Length == MAX_SESSIONS && 0 <= slot < MAX_SESSIONS && Sound(timers)
      && sessionOf.Keys == elevated
      && (forall i :: 0 <= i < MAX_SESSIONS && table[i].active ==>
            table[i].user in elevated && sessionOf[table[i].user] == i)
      && (forall u :: u in elevated ==>
            sessionOf[u] < MAX_SESSIONS && table[sessionOf[u]].active && table[sessionOf[u]].user == u)
      && (forall i :: 0 <= i < MAX_SESSIONS && table[i].active && i != slot ==>
            if timeoutMs > 0 then table[i].timer in timers.armed && timers.armed[table[i].timer] == i
            else table[i].timer == -1)
      && (forall id :: id in timers.armed ==>
            0 <= timers.armed[id] < MAX_SESSIONS && timers.armed[id] != slot
            && table[timers.armed[id]].active && table[timers.armed[id]].timer == id)
    }

    /** The timer that will end the user's session. */
    ghost function TimerOf(user: int): int
      requires table.Length == MAX_SESSIONS && user in sessionOf && sessionOf[user] < MAX_SESSIONS
      reads this, table
    {
      table[sessionOf[user]].timer
    }

    method Install(slot: int, user: int, now: int)
      requires Disarmed(slot)
      requires if user in elevated then table[slot].active && table[slot].user == user else !table[slot].active
      modifies this, table
      ensures Valid() && elevated == old(elevated) + {user}
      ensures timeoutMs > 0 ==> TimerOf(user) == old(timers.nextId) && Runs(timers, TimerOf(user), timeoutMs)
    {
      var (t, id) := Create(timers, timeoutMs, slot);
      timers := t;
      table[slot] := Session(user, true, id, now);
      elevated := elevated + {user};
      sessionOf := sessionOf[user := slot];
    }

    /** Starts or renews; with a full table and no session of their own the user gets nothing. */
    method Start(user: int, now: int)
      requires Valid()
      modifies this, table
      ensures Valid()
      ensures elevated == Elevate(old(elevated), user)
      ensures timeoutMs > 0 && user in elevated ==>
                Runs(timers, TimerOf(user), timeoutMs) && TimerOf(user) !in old(timers.armed)
    {
      FullIffSixtyFour(this);
      ElevatedIff(elevated, user);
      var slot := Find(user);
      if slot != -1 {
        if table[slot].timer >= 0 {
          timers := Cancel(timers, table[slot].timer);
        }
      } else {
        slot := FirstFree();
        if slot == -1 {
          return;
        }
      }
      assert Disarmed(slot);
      Install(slot, user, now);
    }

    /** A live one-shot timer fires: it leaves the service, then its session ends. */
    method Expire(id: int)
      requires Valid() && id in timers.armed
      modifies this, table
      ensures Valid() && id !in timers.armed
      ensures elevated == old(elevated) - {old(table[timers.armed[id]].user)}
    {
      var slot := timers.armed[id];
      timers := Cancel(timers, id);
      var s := table[slot];
      elevated := elevated - {s.user};
      sessionOf := sessionOf - {s.user};
      table[slot] := Session(s.user, false, -1, 0);
    }
  }
}

/** The *68 command handler of modules/mod_otp.c. */
module Otp {
  import opened Common
  import opened OtpPolicy
  import opened UserTables
  import opened OtpSessions
  import Totp

  datatype Reply = Denied | NotConfigured | InvalidCode | Decided(outcome: Outcome)

  class Handler {
    const lockout: UserTable<Failures>
    const lastCounter: UserTable<nat>
    const sessions: Sessions
    const timeSkew: int
    var currentCaller: int

    ghost function Repr(): set<object>
      reads this
    {
      {lockout, lockout.users, lockout.values, lastCounter, lastCounter.users, lastCounter.values,
       sessions, sessions.table}
    }

    ghost predicate Valid()
      reads this, Repr()
    {
      && lockout.Valid() && lastCounter.Valid() && sessions.Valid()
      && lockout.users != lastCounter.users
    }

    /** The two tables, as maps. */
    ghost function State(): Policy
      reads this, lockout, lastCounter
    {
      Policy(lockout.contents, lastCounter.contents)
    }

    constructor (timeSkew: int, sessionTimeoutMs: int)
      ensures Valid() && State() == EMPTY && currentCaller == 0 && sessions.elevated == {}
    {
      lockout := new UserTable();
      lastCounter := new UserTable();
      sessions := new Sessions(sessionTimeoutMs);
      this.timeSkew := timeSkew;
      currentCaller := 0;
    }

    method OnCallerIdentified(user: int)
      requires Valid()
      modifies this`currentCaller
      ensures Valid() && currentCaller == user
      ensures State() == old(State()) && sessions.elevated == old(sessions.elevated)
    {
      currentCaller := user;
    }

    /** True when the caller is locked out; forgets failures whose lockout has run out. */
    method CheckLockout(now: int) returns (locked: bool)
      requires Valid() && currentCaller > 0
      modifies lockout, lockout.users, lockout.values
      ensures Valid()
      ensures locked == Locked(old(lockout.contents), currentCaller, now)
      ensures lockout.contents ==
              if locked then old(lockout.contents)
              else Forgiven(old(lockout.contents), currentCaller, now)
    {
      hide UserTable.Valid, Sessions.Valid;
      locked := false;
      var slot := lockout.Find(currentCaller);
      if slot != -1 {
        var f := lockout.values[slot];
        if f.count >= MAX_FAILURES && now - f.last < LOCKOUT_S {
          return true;
        }
        if now - f.last >= LOCKOUT_S {
          lockout.Put(slot, currentCaller, f.(count := 0));
        }
      }
    }

    method RecordFailure(now: int)
      requires Valid() && currentCaller > 0
      modifies lockout, lockout.users, lockout.values
      ensures Valid()
      ensures lockout.contents ==
              PutIfRoom(old(lockout.contents), currentCaller,
                        Failures((if currentCaller in old(lockout.contents)
                                  then old(lockout.contents)[currentCaller].count else 0) + 1, now))
    {
      hide UserTable.Valid, Sessions.Valid;
      var slot := lockout.FindOrFree(currentCaller);
      if slot != -1 {
        var known := lockout.users[slot] == currentCaller;
        var failures := if known then lockout.values[slot].count else 0;
        lockout.Put(slot, currentCaller, Failures(failures + 1, now));
      }
    }

    method ClearFailures()
      requires Valid() && currentCaller > 0
      modifies lockout, lockout.users, lockout.values
      ensures Valid()
      ensures var was := old(lockout.contents);
              lockout.contents ==
              if currentCaller in was then was[currentCaller := was[currentCaller].(count := 0)] else was
    {
      hide UserTable.Valid, Sessions.Valid;
      var slot := lockout.Find(currentCaller);
      if slot != -1 {
        lockout.Put(slot, currentCaller, lockout.values[slot].(count := 0));
      }
    }

    /** A code that verified: the replay guard, then the lockout table on success. */
    method Match(counter: nat) returns (outcome: Outcome)
      requires Valid() && currentCaller > 0
      modifies lockout, lockout.users, lockout.values
      modifies lastCounter, lastCounter.users, lastCounter.values
      ensures Valid()
      ensures (State(), outcome) == Matched(old(State()), currentCaller, counter)
    {
      hide UserTable.Valid, Sessions.Valid;
      var slot, known := lastCounter.FindRemembering(currentCaller);
      if known && counter <= lastCounter.values[slot] {
        return Replayed;
      }
      if slot >= 0 {
        lastCounter.Put(slot, currentCaller, counter);
      }
      ClearFailures();
      return Accepted(counter);
    }

    method Settle(matched: Option<nat>, recorded: int) returns (outcome: Outcome)
      requires Valid() && currentCaller > 0
      modifies Repr()
      ensures Valid()
      ensures (State(), outcome) == Settled(old(State()), currentCaller, recorded, matched)
      ensures sessions.elevated ==
              if outcome.Accepted? then Elevate(old(sessions.elevated), currentCaller) else old(sessions.elevated)
    {
      hide Matched, PutIfRoom, UserTable.Valid, Sessions.Valid;
      match matched
      case Some(counter) =>
        outcome := Match(counter);
        if outcome.Accepted? {
          sessions.Start(currentCaller, recorded);
        }
      case None =>
        RecordFailure(recorded);
        outcome := Wrong;
    }

    /**
     * The whole command. `secret` is the caller's key when the caller is a known user with one, `data` the
     * digits dialled. The clock is read at the lockout check, `now`, at the verification, `verified`, and
     * when the result is `recorded`.
     */
    method OnOtpCommand(secret: Option<string>, data: Option<string>, now: int, verified: nat, recorded: int)
        returns (reply: Reply)
      requires Valid()
      modifies Repr()
      ensures Valid()
      ensures currentCaller <= 0 <==> reply == Denied
      ensures currentCaller > 0 && secret.None? <==> reply == NotConfigured
      ensures reply == InvalidCode <==>
              currentCaller > 0 && secret.Some?
              && !(data.Some? && |data.value| >= 6 && AllDigits(data.value[..6]))
      ensures !reply.Decided? ==> State() == old(State()) && sessions.elevated == old(sessions.elevated)
      ensures reply.Decided? ==>
                var verdict := Totp.Verdict(secret.value, data.value[..6], verified, timeSkew);
                (State(), reply.outcome) == Attempt(old(State()), Command(currentCaller, now, recorded, verdict))
      ensures reply.Decided? ==>
                sessions.elevated ==
                if reply.outcome.Accepted? then Elevate(old(sessions.elevated), currentCaller)
                else old(sessions.elevated)
    {
      hide Totp.Verdict, Settled, Forgiven, Locked, UserTable.Valid, Sessions.Valid;
      if currentCaller <= 0 {
        return Denied;
      }
      if secret.None? {
        return NotConfigured;
      }
      if data.None? || |data.value| < 6 {
        return InvalidCode;
      }
      var code := data.value[..6];
      if !AllDigits(code) {
        return InvalidCode;
      }
      var locked := CheckLockout(now);
      if locked {
        return Decided(LockedOut);
      }
      var matched := Totp.VerifyAt(secret.value, code, verified, timeSkew);
      var outcome := Settle(matched, recorded);
      return Decided(outcome);
    }
  }

  predicate AllDigits(s: string) {
    forall i :: 0 <= i < |s| ==> '0' <= s[i] <= '9'
  }
}

/** Real logins: each command carries a code, which is checked against the user's key. */
module OtpRuns {
  import opened Base32
  import opened Bytes
  import opened Common
  import opened OtpPolicy
  import opened OtpSessions
  import L = LoginOutcomes
  import Totp
  import Std = TotpStandard

  /** `now`, `verified` and `recorded` are the three readings of the clock. */
  datatype Login = Login(user: int, now: int, verified: nat, recorded: int, code: string)

  type Keys = int -> string

  predicate SixDigits(code: string) {
    |code| == 6 && forall k :: 0 <= k < |code| ==> '0' <= code[k] <= '9'
  }

  /** The clock stays away from the ends of 64-bit time by the skew, and codes are six digits, as the handler sees to. */
  predicate Genuine(logins: seq<Login>, skew: nat) {
    forall i :: 0 <= i < |logins| ==> Totp.InRange(logins[i].verified, skew) && SixDigits(logins[i].code)
  }

  function Commands(keys: Keys, logins: seq<Login>, skew: nat): (run: seq<Command>)
    requires Genuine(logins, skew)
    ensures |run| == |logins|
  {
    seq(|logins|, i requires 0 <= i < |logins| =>
      Command(logins[i].user, logins[i].now, logins[i].recorded,
              Totp.Verdict(keys(logins[i].user), logins[i].code, logins[i].verified, skew)))
  }

  /** `counter` is the smallest within `skew` steps of now whose code, written out, is the one given. */
  predicate LeastMatch(key: string, login: Login, skew: nat, counter: nat) {
    var secret := Decoded(key)[..Min(|Decoded(key)|, 64)];
    && login.verified / 30 - skew <= counter <= login.verified / 30 + skew
    && login.code == Totp.Digits(Std.Hotp(secret, counter, 6), 6)
    && forall d: nat :: login.verified / 30 - skew <= d < counter ==> login.code != Totp.Digits(Std.Hotp(secret, d, 6), 6)
  }

  lemma {:induction false} AcceptedIsVerdict(p: Policy, c: Command)
    requires Attempt(p, c).1.Accepted?
    ensures c.verdict == Some(Attempt(p, c).1.counter)
  {
  }

  lemma {:induction false} MatchIsLeast(key: string, login: Login, skew: nat, counter: nat)
    requires Totp.InRange(login.verified, skew) && SixDigits(login.code)
    requires Totp.Verdict(key, login.code, login.verified, skew) == Some(counter)
    ensures LeastMatch(key, login, skew, counter)
  {
    hide Decoded, Totp.Verdict, Totp.Digits, Std.Hotp;
    Totp.VerifiesWhatIsWritten(key, login.code, login.verified, skew);
  }

  /**
   * The whole promise over a run of logins, with at most 32 users ever accepted: every accepted counter lies
   * within the skew of the time its code was verified at and is the smallest there that gives the code, and the accepted
   * counters of each user strictly increase.
   */
  lemma {:induction false} AcceptedLoginsAreFreshAndGenuine(keys: Keys, logins: seq<Login>, skew: nat, user: int)
    requires Genuine(logins, skew) && |AcceptedUsers(Commands(keys, logins, skew))| <= SLOTS
    ensures var run := Commands(keys, logins, skew);
            && StrictlyIncreasing(AcceptedCounters(run, user))
            && forall i :: 0 <= i < |logins| && LastOutcome(run[..i + 1]).Accepted? ==>
                 LeastMatch(keys(logins[i].user), logins[i], skew, LastOutcome(run[..i + 1]).counter)
  {
    hide Attempt, AcceptedCounters, AcceptedUsers, LeastMatch, After, Totp.Verdict, Totp.Decimal, Decoded, Std.Hotp;
    var run := Commands(keys, logins, skew);
    AcceptedCountersIncrease(run, user);
    forall i | 0 <= i < |logins| && LastOutcome(run[..i + 1]).Accepted?
      ensures LeastMatch(keys(logins[i].user), logins[i], skew, LastOutcome(run[..i + 1]).counter)
    {
      var prefix := run[..i + 1];
      assert prefix[..|prefix| - 1] == run[..i] && prefix[|prefix| - 1] == run[i];
      AcceptedIsVerdict(After(run[..i]), run[i]);
      MatchIsLeast(keys(logins[i].user), logins[i], skew, LastOutcome(prefix).counter);
    }
  }

  function Key(key: string): seq<Byte> {
    Decoded(key)[..Min(|Decoded(key)|, 64)]
  }

  lemma {:induction false} LeastIsVerdict(key: string, login: Login, skew: nat, counter: nat)
    requires Totp.InRange(login.verified, skew) && SixDigits(login.code)
    requires Key(key) != [] && LeastMatch(key, login, skew, counter)
    ensures Totp.Verdict(key, login.code, login.verified, skew) == Some(counter)
  {
    hide Decoded, Totp.Verdict, Totp.Digits, Std.Hotp;
    Totp.VerifiesWhatIsWritten(key, login.code, login.verified, skew);
  }

  lemma {:induction false} OneMoreLogin(keys: Keys, logins: seq<Login>, login: Login, skew: nat)
    requires Genuine(logins + [login], skew)
    ensures Genuine(logins, skew) && Genuine([login], skew)
    ensures Commands(keys, logins + [login], skew) == Commands(keys, logins, skew) + Commands(keys, [login], skew)
  {
    hide Totp.Verdict;
    var all := logins + [login];
    assert forall i :: 0 <= i < |logins| ==> logins[i] == all[i];
    assert all[|logins|] == login;
  }

  /**
   * A good login is accepted: six digits that write the code of a counter within the skew, the least such
   * counter and above every one accepted from the user before, unless five wrong codes count against the user.
   */
  lemma {:induction false} GoodLoginIsAccepted(keys: Keys, logins: seq<Login>, login: Login, skew: nat, counter: nat)
    requires Genuine(logins + [login], skew) && ClockRuns(Commands(keys, logins + [login], skew))
    requires Genuine(logins, skew)
    requires var run := Commands(keys, logins, skew);
             && (login.user in After(run).locks || L.WrongCodes(run, login.user) == [])
             && (login.user in After(run).counters || AcceptedCounters(run, login.user) == [])
             && !L.FiveCount(L.WrongCodes(run, login.user), login.now)
             && forall a :: a in AcceptedCounters(run, login.user) ==> a < counter
    requires Key(keys(login.user)) != [] && LeastMatch(keys(login.user), login, skew, counter)
    ensures LastOutcome(Commands(keys, logins + [login], skew)) == Accepted(counter)
  {
    hide After, Attempt, AcceptedCounters, LastOutcome, L.WrongCodes, L.FiveCount, LeastMatch, Totp.Verdict, Decoded, Key;
    OneMoreLogin(keys, logins, login, skew);
    assert [login][0] == login;
    LeastIsVerdict(keys(login.user), login, skew, counter);
    var c := Commands(keys, [login], skew)[0];
    assert Commands(keys, [login], skew) == [c];
    L.OutcomeIff(Commands(keys, logins, skew), c);
  }

  // ---- The sessions run out ----

  /** Who is elevated after a run of commands, while no session expires. */
  function ElevatedAfter(run: seq<Command>): set<int> {
    if run == [] then {}
    else
      var before, c := ElevatedAfter(run[..|run| - 1]), run[|run| - 1];
      if LastOutcome(run).Accepted? then Elevate(before, c.user) else before
  }

  lemma {:induction false} FirstLogin(p: Policy, user: int)
    requires p.locks == map[] && user !in p.counters
    ensures Attempt(p, Command(user, 0, 0, Some(0))).1 == Accepted(0)
  {
  }

  lemma {:induction false} NotBefore(n: nat)
    ensures forall u :: u in After(OneEach(n, Some(0))).counters ==> 1 <= u <= n
  {
    hide After, LastOutcome;
    if n == 0 {
      EmptyState();
    } else {
      NotBefore(n - 1);
      OneMore(OneEach(n - 1, Some(0)), Command(n, 0, 0, Some(0)));
    }
  }

  /**
   * One good code each from the users 1 to `n`: all are accepted, and the first 64 are elevated. From the
   * 65th on a success elevates nobody.
   */
  lemma {:induction false} OnlySixtyFourAreElevated(n: nat)
    ensures n > 0 ==> LastOutcome(OneEach(n, Some(0))) == Accepted(0)
    ensures forall u :: u in ElevatedAfter(OneEach(n, Some(0))) <==> 1 <= u <= Min(n, MAX_SESSIONS)
    ensures |ElevatedAfter(OneEach(n, Some(0)))| == Min(n, MAX_SESSIONS)
  {
    hide After, LastOutcome, Attempt;
    if n > 0 {
      var run, c := OneEach(n - 1, Some(0)), Command(n, 0, 0, Some(0));
      OnlySixtyFourAreElevated(n - 1);
      NotBefore(n - 1);
      NotLocked(n - 1);
      OneMore(run, c);
      FirstLogin(After(run), n);
      assert ElevatedAfter(run + [c]) == Elevate(ElevatedAfter(run), n);
      assert n !in ElevatedAfter(run);
    }
  }
}
