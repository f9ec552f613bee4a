/**
 * The push sender of modules/mod_poc_apns.c: a token store, a job ring and one worker. The threads are
 * stepped one critical section at a time: whoever holds the store's lock keeps the others from it, while
 * the worker takes jobs and makes its attempts at any moment.
 */
module PushSpec {
  import opened Bytes
  import opened Common

  const MAX_TOKENS: nat := 128
  const QUEUE_SIZE: nat := 64

  type Uid = nat
  type Token = seq<Byte>

  datatype Entry = Entry(uid: Uid, token: Token, bundle: string, connected: bool)
  datatype Job = Job(uid: Uid, token: Token, bundle: string, talker: string, group: nat)

  /** Where `uid` stands in the store, or the store's length. */
  function IndexOf(store: seq<Entry>, uid: Uid): (i: nat)
    ensures i <= |store|
    ensures i < |store| ==> store[i].uid == uid
    ensures forall j :: 0 <= j < i ==> store[j].uid != uid
  {
    if store == [] then 0
    else if store[0].uid == uid then 0
    else 1 + IndexOf(store[1..], uid)
  }

  function Register(store: seq<Entry>, uid: Uid, token: Token, bundle: string): seq<Entry> {
    var i := IndexOf(store, uid);
    if |token| == 0 || |token| > 64 then store
    else if i < |store| then store[i := Entry(uid, token, bundle, true)]
    else if |store| >= MAX_TOKENS then store
    else store + [Entry(uid, token, bundle, true)]
  }

  function MarkDormant(store: seq<Entry>, uid: Uid): seq<Entry> {
    var i := IndexOf(store, uid);
    if i < |store| then store[i := store[i].(connected := false)] else store
  }

  function Evict(store: seq<Entry>, uid: Uid, token: Token): seq<Entry> {
    var i := IndexOf(store, uid);
    if i < |store| && store[i].token == token then store[i := store[|store| - 1]][..|store| - 1] else store
  }

  function JobFor(e: Entry, talker: string, group: nat): Job {
    Job(e.uid, e.token, e.bundle, talker, group)
  }

  // ---- The store is a map ----

  predicate Distinct(store: seq<Entry>) {
    forall i, j :: 0 <= i < j < |store| ==> store[i].uid != store[j].uid
  }

  predicate StoreOk(store: seq<Entry>) {
    Distinct(store) && |store| <= MAX_TOKENS
  }

  function Lookup(store: seq<Entry>, uid: Uid): Option<Entry> {
    var i := IndexOf(store, uid);
    if i < |store| then Some(store[i]) else None
  }

  lemma {:induction false} LookupIs(store: seq<Entry>, uid: Uid, i: nat)
    requires Distinct(store) && i < |store| && store[i].uid == uid
    ensures IndexOf(store, uid) == i && Lookup(store, uid) == Some(store[i])
  {
  }

  /** Registering gives `uid` its new token, connected, unless the store is full; nobody else notices. */
  lemma {:induction false} RegisterUpdates(store: seq<Entry>, uid: Uid, token: Token, bundle: string, u: Uid)
    requires StoreOk(store)
    ensures var r := Register(store, uid, token, bundle);
            && StoreOk(r)
            && Lookup(r, u) ==
               if u == uid && 0 < |token| <= 64 && (Lookup(store, uid).Some? || |store| < MAX_TOKENS)
               then Some(Entry(uid, token, bundle, true)) else Lookup(store, u)
  {
    var r := Register(store, uid, token, bundle);
    var i := IndexOf(r, u);
    if i < |r| { LookupIs(r, u, i); }
    var k := IndexOf(store, u);
    if k < |store| {
      assert r[k].uid == u;
      LookupIs(r, u, k);
    }
    if u == uid && |r| > |store| { LookupIs(r, u, |store|); }
  }

  /** Going dormant keeps the token and drops the connection; nobody else notices. */
  lemma {:induction false} MarkDormantUpdates(store: seq<Entry>, uid: Uid, u: Uid)
    requires StoreOk(store)
    ensures var r, e := MarkDormant(store, uid), Lookup(store, u);
            && StoreOk(r)
            && Lookup(r, u) == if u == uid && e.Some? then Some(e.value.(connected := false)) else e
  {
    var r := MarkDormant(store, uid);
    var k := IndexOf(store, u);
    if k < |store| { LookupIs(r, u, k); }
    var i := IndexOf(r, u);
    if i < |r| { assert store[i].uid == u; }
  }

  /**
   * Evicting takes `uid` out exactly when it still has the very token named; a token registered in the
   * meantime stays, and swapping the last entry into the gap loses nobody.
   */
  lemma {:induction false} EvictUpdates(store: seq<Entry>, uid: Uid, token: Token, u: Uid)
    requires StoreOk(store)
    ensures var r, e := Evict(store, uid, token), Lookup(store, u);
            && StoreOk(r)
            && Lookup(r, u) == if u == uid && e.Some? && e.value.token == token then None else e
  {
    var r, n := Evict(store, uid, token), |store|;
    var k, i := IndexOf(store, u), IndexOf(r, u);
    if |r| < n {
      var gap := IndexOf(store, uid);
      if k < n && k != gap {
        var now := if k == n - 1 then gap else k;
        assert r[now] == store[k];
      }
      if i < |r| {
        var was := if i == gap then n - 1 else i;
        assert store[was] == r[i];
        LookupIs(store, u, was);
      }
    }
  }

  // ---- The threads ----

  /** `Sending(next, ...)` is a push_all that holds the store's lock and has come to entry `next`. */
  datatype Pusher = Resting | Sending(next: nat, talker: string, group: nat, exclude: Uid, started: nat)

  datatype Worker = Waiting | Trying(job: Job, retried: bool, tries: nat) | Evicting(job: Job, tries: nat)

  /**
   * `offered` lists every job enqueued so far and `taken` every job the worker took; `tries` has the number
   * of attempts made for each job already counted as sent or failed.
   */
  datatype System = System(store: seq<Entry>, queue: seq<Job>, pusher: Pusher, worker: Worker,
                           sent: nat, failed: nat, evicted: nat,
                           offered: seq<Job>, taken: seq<Job>, tries: seq<nat>)

  const INITIAL: System := System([], [], Resting, Waiting, 0, 0, 0, [], [], [])

  datatype Action =
    | DoRegister(uid: Uid, token: Token, bundle: string) | DoMarkDormant(uid: Uid)
    | PushBegin(talker: string, group: nat, exclude: Uid) | PushNext | PushEnd
    | Take | Attempt(status: int) | DoEvict

  predicate Enabled(s: System, a: Action) {
    match a
    case DoRegister(_, _, _) => s.pusher.Resting?
    case DoMarkDormant(_) => s.pusher.Resting?
    case PushBegin(_, _, _) => s.pusher.Resting?
    case PushNext => s.pusher.Sending? && s.pusher.next < |s.store|
    case PushEnd => s.pusher.Sending? && s.pusher.next >= |s.store|
    case Take => s.worker.Waiting? && s.queue != []
    case Attempt(_) => s.worker.Trying?
    case DoEvict => s.worker.Evicting? && s.pusher.Resting?
  }

  /** The job is over after `tries` attempts. */
  function Finish(s: System, ok: bool, tries: nat): System {
    s.(worker := Waiting, sent := if ok then s.sent + 1 else s.sent, failed := if ok then s.failed else s.failed + 1,
       tries := s.tries + [tries])
  }

  predicate Dead(status: int) {
    status == 400 || status == 410
  }

  predicate WorthRetrying(status: int) {
    status == 403 || status == 429 || 500 <= status < 600
  }

  function OnAttempt(s: System, status: int): System
    requires s.worker.Trying?
  {
    var w := s.worker;
    if status == 200 then Finish(s, true, w.tries + 1)
    else if Dead(status) && !w.retried then s.(worker := Evicting(w.job, w.tries + 1))
    else if WorthRetrying(status) && !w.retried then s.(worker := Trying(w.job, true, w.tries + 1))
    else Finish(s, false, w.tries + 1)
  }

  function OnPushNext(s: System): System
    requires Enabled(s, PushNext)
  {
    var p, e := s.pusher, s.store[s.pusher.next];
    if e.uid == p.exclude || |s.queue| >= QUEUE_SIZE then s.(pusher := p.(next := p.next + 1))
    else
      var job := JobFor(e, p.talker, p.group);
      s.(pusher := p.(next := p.next + 1, started := p.started + 1),
         queue := s.queue + [job], offered := s.offered + [job])
  }

  function Step(s: System, a: Action): System
    requires Enabled(s, a)
  {
    match a
    case DoRegister(uid, token, bundle) => s.(store := Register(s.store, uid, token, bundle))
    case DoMarkDormant(uid) => s.(store := MarkDormant(s.store, uid))
    case PushBegin(talker, group, exclude) => s.(pusher := Sending(0, talker, group, exclude, 0))
    case PushNext => OnPushNext(s)
    case PushEnd => s.(pusher := Resting)
    case Take =>
      s.(queue := s.queue[1..], worker := Trying(s.queue[0], false, 0), taken := s.taken + [s.queue[0]])
    case Attempt(status) => OnAttempt(s, status)
    case DoEvict =>
      var w := s.worker;
      var left := Evict(s.store, w.job.uid, w.job.token);
      Finish(s.(store := left, evicted := s.evicted + |s.store| - |left|), false, w.tries)
  }

  // ---- What every interleaving keeps ----

  function InFlight(s: System): nat {
    if s.worker.Waiting? then 0 else 1
  }

  predicate WorkerOk(w: Worker) {
    match w
    case Waiting => true
    case Trying(_, retried, tries) => tries == if retried then 1 else 0
    case Evicting(_, tries) => tries == 1
  }

  predicate TriesOk(tries: seq<nat>) {
    forall i :: 0 <= i < |tries| ==> 1 <= tries[i] <= 2
  }

  predicate Invariant(s: System) {
    && StoreOk(s.store) && |s.queue| <= QUEUE_SIZE
    && s.offered == s.taken + s.queue
    && |s.taken| == s.sent + s.failed + InFlight(s) && |s.tries| == s.sent + s.failed
    && (!s.worker.Waiting? ==> s.taken[|s.taken| - 1] == s.worker.job)
    && WorkerOk(s.worker) && TriesOk(s.tries) && s.evicted <= s.failed
  }

  lemma {:induction false} EvictRemovesAtMostOne(store: seq<Entry>, uid: Uid, token: Token)
    ensures |store| - 1 <= |Evict(store, uid, token)| <= |store|
  {
  }

  lemma {:induction false} StepKeeps(s: System, a: Action)
    requires Invariant(s) && Enabled(s, a)
    ensures Invariant(Step(s, a))
  {
    hide Register, MarkDormant, Evict, StoreOk, Lookup;
    match a
    case DoRegister(uid, token, bundle) => RegisterUpdates(s.store, uid, token, bundle, uid);
    case DoMarkDormant(uid) => MarkDormantUpdates(s.store, uid, uid);
    case DoEvict =>
      EvictUpdates(s.store, s.worker.job.uid, s.worker.job.token, 0);
      EvictRemovesAtMostOne(s.store, s.worker.job.uid, s.worker.job.token);
    case Take =>
      assert s.queue == [s.queue[0]] + s.queue[1..];
      assert s.taken + s.queue == (s.taken + [s.queue[0]]) + s.queue[1..];
    case _ =>
  }

  predicate Legal(run: seq<Action>)
    decreases |run|, 0
  {
    run == [] || (var init := run[..|run| - 1]; Legal(init) && Enabled(After(init), run[|run| - 1]))
  }

  function After(run: seq<Action>): System
    requires Legal(run)
    decreases |run|, 1
  {
    if run == [] then INITIAL else Step(After(run[..|run| - 1]), run[|run| - 1])
  }

  lemma {:induction false} RunKeeps(run: seq<Action>)
    requires Legal(run)
    ensures Invariant(After(run))
    decreases |run|
  {
    hide Step, Invariant;
    if run == [] {
      InitialInvariant();
    } else {
      RunKeeps(run[..|run| - 1]);
      StepKeeps(After(run[..|run| - 1]), run[|run| - 1]);
    }
  }

  lemma {:induction false} InitialInvariant()
    ensures Invariant(INITIAL)
  {
  }

  /**
   * Conservation over any interleaving: every job enqueued is sent, failed, in flight or queued, and jobs
   * leave the ring in the order they entered it; each job counted took one attempt or two.
   */
  lemma {:induction false} JobsAreConserved(run: seq<Action>)
    requires Legal(run)
    ensures var s := After(run);
            && |s.offered| == s.sent + s.failed + InFlight(s) + |s.queue|
            && s.taken <= s.offered && s.offered[|s.taken|..] == s.queue
            && |s.tries| == s.sent + s.failed && TriesOk(s.tries)
            && Distinct(s.store) && |s.store| <= MAX_TOKENS && |s.queue| <= QUEUE_SIZE
  {
    hide After, Legal;
    RunKeeps(run);
  }

  /** Nothing but an eviction by the worker takes a token away, and only the token its job was sent to. */
  lemma {:induction false} OnlyTheDeadTokenGoes(run: seq<Action>, a: Action, u: Uid)
    requires Legal(run) && Enabled(After(run), a)
    requires Lookup(After(run).store, u).Some? && Lookup(Step(After(run), a).store, u).None?
    ensures a.DoEvict? && After(run).worker.job.uid == u
    ensures Lookup(After(run).store, u).value.token == After(run).worker.job.token
  {
    hide After, Legal, Register, MarkDormant, Evict, Lookup;
    RunKeeps(run);
    var s := After(run);
    match a
    case DoRegister(uid, token, bundle) => RegisterUpdates(s.store, uid, token, bundle, u);
    case DoMarkDormant(uid) => MarkDormantUpdates(s.store, uid, u);
    case DoEvict => EvictUpdates(s.store, s.worker.job.uid, s.worker.job.token, u);
    case _ =>
  }

  /** The store holds a token for the job's user other than the one the job goes to. */
  predicate HoldsAnother(s: System, job: Job) {
    var e := Lookup(s.store, job.uid);
    e.Some? && e.value.token != job.token && (s.worker.Waiting? || s.worker.job == job)
  }

  lemma {:induction false} AnotherTokenStays(s: System, a: Action, job: Job)
    requires Invariant(s) && Enabled(s, a) && HoldsAnother(s, job) && !a.Take?
    requires a.DoRegister? && a.uid == job.uid ==> a.token != job.token
    ensures HoldsAnother(Step(s, a), job)
  {
    hide Register, MarkDormant, Evict, Lookup, StoreOk;
    var u := job.uid;
    match a
    case DoRegister(uid, token, bundle) => RegisterUpdates(s.store, uid, token, bundle, u);
    case DoMarkDormant(uid) => MarkDormantUpdates(s.store, uid, u);
    case DoEvict => EvictUpdates(s.store, u, s.worker.job.token, u);
    case _ =>
  }

  lemma {:induction false} TakenGrows(s: System, a: Action)
    requires Enabled(s, a)
    ensures |Step(s, a).taken| == |s.taken| + if a.Take? then 1 else 0
  {
  }

  lemma {:induction false} LegalPrefix(run: seq<Action>, more: seq<Action>)
    requires Legal(run + more)
    ensures Legal(run) && |After(run).taken| <= |After(run + more).taken|
    decreases |more|
  {
    hide Step, Enabled;
    if more == [] {
      assert run + more == run;
    } else {
      var init := more[..|more| - 1];
      assert (run + more)[..|run + more| - 1] == run + init;
      LegalPrefix(run, init);
      TakenGrows(After(run + init), more[|more| - 1]);
    }
  }

  /**
   * A different token registered while a job is being tried is safe from that job: however the threads
   * interleave until the worker takes its next job, the job's own eviction included, the user keeps a token
   * other than the job's.
   */
  lemma {:induction false} NewerTokenSurvives(run: seq<Action>, more: seq<Action>, job: Job)
    requires Legal(run + more) && Legal(run)
    requires !After(run).worker.Waiting? && After(run).worker.job == job && HoldsAnother(After(run), job)
    requires |After(run + more).taken| == |After(run).taken|
    requires forall i :: 0 <= i < |more| && more[i].DoRegister? && more[i].uid == job.uid ==> more[i].token != job.token
    ensures HoldsAnother(After(run + more), job)
    decreases |more|
  {
    hide Step, HoldsAnother, Invariant;
    if more == [] {
      assert run + more == run;
    } else {
      var init, a := more[..|more| - 1], more[|more| - 1];
      assert (run + more)[..|run + more| - 1] == run + init;
      LegalPrefix(run, init);
      TakenGrows(After(run + init), a);
      NewerTokenSurvives(run, init, job);
      RunKeeps(run + init);
      AnotherTokenStays(After(run + init), a, job);
    }
  }

  /** The worker evicts `uid`, having been told that its very token is dead. */
  predicate AnsweredDead(s: System, a: Action, uid: Uid, token: Token) {
    a.DoEvict? && s.worker.Evicting? && s.worker.job.uid == uid && s.worker.job.token == token
  }

  lemma {:induction false} TokenStays(s: System, a: Action, uid: Uid, token: Token)
    requires Invariant(s) && Enabled(s, a)
    requires var e := Lookup(s.store, uid); e.Some? && e.value.token == token
    requires !(a.DoRegister? && a.uid == uid) && !AnsweredDead(s, a, uid, token)
    ensures var e := Lookup(Step(s, a).store, uid); e.Some? && e.value.token == token
  {
    hide Register, MarkDormant, Evict, Lookup, StoreOk;
    match a
    case DoRegister(u, t, bundle) => RegisterUpdates(s.store, u, t, bundle, uid);
    case DoMarkDormant(u) => MarkDormantUpdates(s.store, u, uid);
    case DoEvict => EvictUpdates(s.store, s.worker.job.uid, s.worker.job.token, uid);
    case _ =>
  }

  predicate HasToken(s: System, uid: Uid, token: Token) {
    var e := Lookup(s.store, uid);
    e.Some? && e.value.token == token
  }

  /** Step `i` of `more` neither registers `uid` again nor evicts it as dead. */
  predicate Harmless(run: seq<Action>, more: seq<Action>, i: nat, uid: Uid, token: Token)
    requires i < |more|
  {
    && !(more[i].DoRegister? && more[i].uid == uid)
    && Legal(run + more[..i]) && !AnsweredDead(After(run + more[..i]), more[i], uid, token)
  }

  lemma {:induction false} HarmlessPrefix(run: seq<Action>, more: seq<Action>, i: nat, uid: Uid, token: Token)
    requires i + 1 < |more| && Harmless(run, more, i, uid, token)
    ensures Harmless(run, more[..|more| - 1], i, uid, token)
  {
    hide Legal, After, AnsweredDead;
    assert more[..|more| - 1][..i] == more[..i];
  }

  /**
   * Through any number of jobs and under every interleaving a registered token stays, until its user
   * registers again or the worker evicts on behalf of a job sent to that very token.
   */
  lemma {:induction false} TokenStaysUntilAnsweredDead(run: seq<Action>, more: seq<Action>, uid: Uid, token: Token)
    requires Legal(run + more) && Legal(run) && HasToken(After(run), uid, token)
    requires forall i :: 0 <= i < |more| ==> Harmless(run, more, i, uid, token)
    ensures HasToken(After(run + more), uid, token)
    decreases |more|
  {
    hide Step, Harmless, HasToken, Invariant;
    if more == [] {
      assert run + more == run;
    } else {
      var init, a := more[..|more| - 1], more[|more| - 1];
      assert (run + more)[..|run + more| - 1] == run + init;
      forall i | 0 <= i < |init|
        ensures Harmless(run, init, i, uid, token)
      {
        HarmlessPrefix(run, more, i, uid, token);
      }
      TokenStaysUntilAnsweredDead(run, init, uid, token);
      RunKeeps(run + init);
      LastStepHarmless(run, more, uid, token);
    }
  }

  lemma {:induction false} LastStepHarmless(run: seq<Action>, more: seq<Action>, uid: Uid, token: Token)
    requires more != [] && Legal(run + more) && Harmless(run, more, |more| - 1, uid, token)
    requires var s := After(run + more[..|more| - 1]); Invariant(s) && HasToken(s, uid, token)
    ensures HasToken(After(run + more), uid, token)
  {
    hide Step, Lookup, Invariant, AnsweredDead;
    var init, a := more[..|more| - 1], more[|more| - 1];
    assert (run + more)[..|run + more| - 1] == run + init;
    TokenStays(After(run + init), a, uid, token);
  }

  /** The worker comes to evict only when the first answer to a job was 400 or 410. */
  lemma {:induction false} EvictingMeansDead(s: System, a: Action)
    requires Invariant(s) && Enabled(s, a) && !s.worker.Evicting? && Step(s, a).worker.Evicting?
    ensures a.Attempt? && Dead(a.status) && s.worker == Trying(Step(s, a).worker.job, false, 0)
  {
  }

  lemma {:induction false} OneMore(run: seq<Action>, a: Action)
    requires Legal(run) && Enabled(After(run), a)
    ensures Legal(run + [a]) && After(run + [a]) == Step(After(run), a)
  {
    assert (run + [a])[..|run|] == run;
  }

  lemma {:induction false} NothingDone()
    ensures Legal([]) && After([]) == INITIAL
  {
  }

  /** A token, a push, and a job answered 403 and on its retry 410, the answer for a token that is no more. */
  function LateVerdictRun(uid: Uid, token: Token): seq<Action> {
    [] + [DoRegister(uid, token, "")] + [PushBegin("", 0, uid + 1)] + [PushNext] + [PushEnd]
    + [Take] + [Attempt(403)] + [Attempt(410)]
  }

  lemma {:induction false} FirstToken(uid: Uid, token: Token)
    requires 0 < |token| <= 64
    ensures Register([], uid, token, "") == [Entry(uid, token, "", true)]
    ensures Lookup([Entry(uid, token, "", true)], uid) == Some(Entry(uid, token, "", true))
  {
  }

  /** The job has failed after two tries and the dead token is still in the store. */
  lemma {:induction false} DeadOnRetryStays(uid: Uid, token: Token)
    requires 0 < |token| <= 64
    ensures Legal(LateVerdictRun(uid, token))
    ensures var s := After(LateVerdictRun(uid, token));
            s.worker.Waiting? && s.tries == [2] && s.failed == 1 && s.evicted == 0 && HasToken(s, uid, token)
  {
    hide After, Legal, Register, Lookup;
    FirstToken(uid, token);
    NothingDone();
    var e := Entry(uid, token, "", true);
    var r1 := [] + [DoRegister(uid, token, "")];
    OneMore([], DoRegister(uid, token, ""));
    var r2 := r1 + [PushBegin("", 0, uid + 1)];
    OneMore(r1, PushBegin("", 0, uid + 1));
    assert After(r2).store == [e];
    OneMore(r2, PushNext);
    OneMore(r2 + [PushNext], PushEnd);
    var r4 := r2 + [PushNext] + [PushEnd];
    assert After(r4).queue == [] + [JobFor(e, "", 0)];
    OneMore(r4, Take);
    OneMore(r4 + [Take], Attempt(403));
    OneMore(r4 + [Take] + [Attempt(403)], Attempt(410));
  }

  // ---- What each answer means ----

  /**
   * An answer of 200 counts the job as sent. On the first try 400 and 410 send the worker to evict the token,
   * 403, 429 and the 500s to try once more; every other answer, and every other one to a retry, is a failure.
   */
  lemma {:induction false} AttemptIff(s: System, status: int)
    requires s.worker.Trying?
    ensures var q, w := Step(s, Attempt(status)), s.worker;
            && q.sent == s.sent + (if status == 200 then 1 else 0)
            && (q.worker == Evicting(w.job, w.tries + 1) <==> !w.retried && (status == 400 || status == 410))
            && (q.worker == Trying(w.job, true, w.tries + 1)
                <==> !w.retried && (status == 403 || status == 429 || 500 <= status < 600))
            && (q.worker.Evicting? || q.worker.Trying? || (q.worker.Waiting? && q.tries == s.tries + [w.tries + 1]))
            && q.failed == s.failed + (if q.worker.Waiting? && status != 200 then 1 else 0)
            && q.store == s.store && q.queue == s.queue
  {
  }

  /** An eviction takes the token out, if its user still has it, and counts the job as failed. */
  lemma {:induction false} EvictionFails(s: System, u: Uid)
    requires Invariant(s) && Enabled(s, DoEvict)
    ensures var q, job, e := Step(s, DoEvict), s.worker.job, Lookup(s.store, u);
            && q.worker.Waiting? && q.failed == s.failed + 1 && q.sent == s.sent
            && Lookup(q.store, u) == if u == job.uid && e.Some? && e.value.token == job.token then None else e
  {
    EvictUpdates(s.store, s.worker.job.uid, s.worker.job.token, u);
    hide Evict, Lookup;
  }
}
