/** The context of modules/mod_poc_apns.c: the token array, the job ring and the counters. */
module PushSender {
  import opened Common
  import opened PushSpec

  /** The jobs a push to everyone but `exclude` asks for, in store order. */
  function JobsFor(store: seq<Entry>, talker: string, group: nat, exclude: Uid): seq<Job> {
    if store == [] then []
    else
      var e := store[|store| - 1];
      JobsFor(store[..|store| - 1], talker, group, exclude)
      + if e.uid == exclude then [] else [JobFor(e, talker, group)]
  }

  class Context {
    const tokens: array<Entry>
    var tokenCount: nat
    const q: array<Job>
    var qHead: nat
    var qTail: nat
    var qSize: nat
    var sent: nat
    var failed: nat
    var dropped: nat

    ghost predicate Valid()
      reads this, tokens
    {
      && tokens.Length == MAX_TOKENS && tokenCount <= MAX_TOKENS && StoreOk(tokens[..tokenCount])
      && q.Length == QUEUE_SIZE && qTail < QUEUE_SIZE && qSize <= QUEUE_SIZE && qHead == Wrap(qTail + qSize, QUEUE_SIZE)
    }

    ghost function Store(): seq<Entry>
      requires Valid()
      reads this, tokens
    {
      tokens[..tokenCount]
    }

    /** The queued jobs, oldest first. */
    ghost function Queue(): (s: seq<Job>)
      requires q.Length == QUEUE_SIZE && qTail < QUEUE_SIZE && qSize <= QUEUE_SIZE
      reads this, q
      ensures |s| == qSize
    {
      seq(qSize, i requires 0 <= i < qSize && q.Length == QUEUE_SIZE && qTail < QUEUE_SIZE && qSize <= QUEUE_SIZE
                 reads this, q => q[Wrap(qTail + i, QUEUE_SIZE)])
    }

    constructor ()
      ensures Valid() && fresh(tokens) && fresh(q) && Store() == [] && Queue() == []
      ensures sent == failed == dropped == 0
    {
      tokens := new Entry[MAX_TOKENS](_ => Entry(0, [], "", false));
      q := new Job[QUEUE_SIZE](_ => Job(0, [], "", "", 0));
      tokenCount, qHead, qTail, qSize, sent, failed, dropped := 0, 0, 0, 0, 0, 0, 0;
    }

    /** The interleaved model's state while neither thread is inside anything. */
    ghost predicate Represents(s: System)
      requires Valid()
      reads this, tokens, q
    {
      && Store() == s.store && Queue() == s.queue && sent == s.sent && failed == s.failed
      && s.pusher.Resting? && s.worker.Waiting?
    }

    /** The scan every operation starts with; `i == tokenCount` when `uid` has no entry. */
    method Find(uid: Uid) returns (i: nat)
      requires Valid()
      ensures i == IndexOf(Store(), uid)
    {
      i := 0;
      while i < tokenCount && tokens[i].uid != uid
        invariant i <= tokenCount && forall j :: 0 <= j < i ==> tokens[j].uid != uid
      {
        i := i + 1;
      }
      assert i < tokenCount ==> Store()[i].uid == uid;
      assert forall j :: 0 <= j < i ==> Store()[j].uid != uid;
    }

    method RegisterToken(uid: Uid, token: Token, bundle: string)
      requires Valid()
      modifies tokens, this`tokenCount
      ensures Valid() && Store() == Register(old(Store()), uid, token, bundle)
    {
      hide IndexOf, StoreOk;
      if |token| == 0 || |token| > 64 { return; }
      RegisterUpdates(Store(), uid, token, bundle, uid);
      ghost var store := Store();
      var i := Find(uid);
      if i < tokenCount {
        tokens[i] := Entry(uid, token, bundle, true);
        assert tokens[..tokenCount] == store[i := Entry(uid, token, bundle, true)];
        return;
      }
      if tokenCount >= MAX_TOKENS { return; }
      tokens[tokenCount] := Entry(uid, token, bundle, true);
      tokenCount := tokenCount + 1;
      assert tokens[..tokenCount] == store + [Entry(uid, token, bundle, true)];
    }

    method SetDormant(uid: Uid)
      requires Valid()
      modifies tokens
      ensures Valid() && Store() == MarkDormant(old(Store()), uid)
    {
      hide IndexOf, StoreOk;
      MarkDormantUpdates(Store(), uid, uid);
      ghost var store := Store();
      var i := Find(uid);
      if i < tokenCount {
        if !tokens[i].connected {
          assert store[i := store[i].(connected := false)] == store;
          return;
        }
        tokens[i] := tokens[i].(connected := false);
        assert tokens[..tokenCount] == store[i := store[i].(connected := false)];
      }
    }

    method EvictTokenIfMatch(uid: Uid, token: Token)
      requires Valid()
      modifies tokens, this`tokenCount, this`dropped
      ensures Valid() && Store() == Evict(old(Store()), uid, token)
      ensures dropped + tokenCount == old(dropped + tokenCount)
    {
      hide IndexOf, StoreOk;
      EvictUpdates(Store(), uid, token, uid);
      ghost var store := Store();
      var i := Find(uid);
      if i < tokenCount && tokens[i].token == token {
        tokens[i] := tokens[tokenCount - 1];
        tokenCount := tokenCount - 1;
        dropped := dropped + 1;
        assert tokens[..tokenCount] == store[i := store[|store| - 1]][..|store| - 1];
      }
    }

    /** The producer's critical section; a full ring refuses the job. */
    method Enqueue(job: Job) returns (ok: bool)
      requires Valid()
      modifies q, this`qHead, this`qSize
      ensures Valid() && ok == (|old(Queue())| < QUEUE_SIZE)
      ensures Queue() == if ok then old(Queue()) + [job] else old(Queue())
    {
      hide StoreOk;
      if qSize >= QUEUE_SIZE { return false; }
      ghost var s := Queue();
      q[qHead] := job;
      NextSlot(qHead, QUEUE_SIZE);
      qHead := (qHead + 1) % QUEUE_SIZE;
      qSize := qSize + 1;
      forall i | 0 <= i < qSize ensures Queue()[i] == (s + [job])[i] {
        if i < |s| { assert s[i] == old(q[Wrap(qTail + i, QUEUE_SIZE)]); }
      }
      return true;
    }

    /** The worker's critical section, with something queued. */
    method Dequeue() returns (job: Job)
      requires Valid() && qSize > 0
      modifies this`qTail, this`qSize
      ensures Valid() && job == old(Queue())[0] && Queue() == old(Queue())[1..]
    {
      hide StoreOk;
      ghost var s, t := Queue(), qTail;
      assert s[0] == q[Wrap(t, QUEUE_SIZE)];
      job := q[qTail];
      NextSlot(qTail, QUEUE_SIZE);
      qTail := (qTail + 1) % QUEUE_SIZE;
      qSize := qSize - 1;
      forall i | 0 <= i < qSize ensures Queue()[i] == s[i + 1] {
        assert Wrap(qTail + i, QUEUE_SIZE) == Wrap(t + (i + 1), QUEUE_SIZE);
      }
    }

    /** With nobody else at the ring: every other user's job in store order, until the ring is full. */
    method PushAll(talker: string, group: nat, exclude: Uid) returns (started: nat)
      requires Valid()
      modifies q, this`qHead, this`qSize
      ensures Valid()
      ensures var jobs := JobsFor(Store(), talker, group, exclude);
              && started == Min(|jobs|, QUEUE_SIZE - |old(Queue())|)
              && Queue() == old(Queue()) + jobs[..started]
    {
      hide StoreOk;
      started := 0;
      var i := 0;
      while i < tokenCount
        invariant 0 <= i <= tokenCount && Valid()
        invariant var jobs := JobsFor(Store()[..i], talker, group, exclude);
                  && started == Min(|jobs|, QUEUE_SIZE - |old(Queue())|)
                  && Queue() == old(Queue()) + jobs[..started]
      {
        ghost var jobs := JobsFor(Store()[..i], talker, group, exclude);
        assert Store()[..i + 1][..i] == Store()[..i] && Store()[i] == tokens[i];
        if tokens[i].uid != exclude {
          var ok := Enqueue(JobFor(tokens[i], talker, group));
          if ok {
            assert (jobs + [JobFor(tokens[i], talker, group)])[..started + 1] == jobs[..started] + [JobFor(tokens[i], talker, group)];
            started := started + 1;
          } else {
            assert (jobs + [JobFor(tokens[i], talker, group)])[..started] == jobs[..started];
          }
        }
        i := i + 1;
      }
      assert Store()[..i] == Store();
    }

    /** The whole push is one push of the interleaved model that nobody steps into. */
    method Push(talker: string, group: nat, exclude: Uid, ghost s: System) returns (started: nat)
      requires Valid() && Represents(s)
      modifies q, this`qHead, this`qSize
      ensures Valid() && Represents(PushRest(Step(s, PushBegin(talker, group, exclude))))
    {
      hide StoreOk, PushRest, JobsFor;
      PushFromTheStart(s, talker, group, exclude);
      started := PushAll(talker, group, exclude);
    }

    /**
     * Drives one job; `answers` is what the service would answer to the attempts from here on. One attempt
     * is left after a retry, two before.
     */
    method ProcessJob(job: Job, retried: bool, answers: seq<int>) returns (tries: nat)
      requires Valid() && |answers| >= (if retried then 1 else 2)
      modifies tokens, this`tokenCount, this`dropped, this`sent, this`failed
      ensures Valid()
      ensures tries == (if !retried && WorthRetrying(answers[0]) then 2 else 1)
      ensures (sent, failed) == if answers[tries - 1] == 200 then (old(sent) + 1, old(failed)) else (old(sent), old(failed) + 1)
      ensures Store() == if !retried && Dead(answers[0]) then Evict(old(Store()), job.uid, job.token) else old(Store())
      decreases !retried
    {
      hide Evict, StoreOk;
      var status := answers[0];
      if status == 200 {
        sent := sent + 1;
        return 1;
      }
      if (status == 400 || status == 410) && !retried {
        EvictTokenIfMatch(job.uid, job.token);
        failed := failed + 1;
        return 1;
      }
      if (status == 403 || status == 429 || 500 <= status < 600) && !retried {
        var rest := ProcessJob(job, true, answers[1..]);
        return 1 + rest;
      }
      failed := failed + 1;
      return 1;
    }

    /** One turn of worker_main. */
    method WorkerTurn(answers: seq<int>, ghost s: System) returns (tries: nat)
      requires Valid() && qSize > 0 && |answers| >= 2 && Represents(s)
      modifies this, tokens
      ensures Valid() && Queue() == old(Queue())[1..]
      ensures Represents(TurnAlone(s, answers)) && TurnAlone(s, answers).tries == s.tries + [tries]
      ensures 1 <= tries <= 2 && sent + failed == old(sent + failed) + 1
      ensures sent == old(sent) + (if answers[tries - 1] == 200 then 1 else 0)
      ensures Store() == if Dead(answers[0]) then Evict(old(Store()), old(Queue())[0].uid, old(Queue())[0].token) else old(Store())
    {
      hide Evict, StoreOk, TurnAlone, WorthRetrying;
      TurnAgrees(s, answers);
      var job := Dequeue();
      tries := ProcessJob(job, false, answers);
    }
  }

  /** A worker's turn in the interleaved model, when nobody else steps in between. */
  function TurnAlone(s: System, answers: seq<int>): System
    requires s.worker.Waiting? && s.queue != [] && s.pusher.Resting? && |answers| >= 2
  {
    var s1 := Step(Step(s, Take), Attempt(answers[0]));
    match s1.worker
    case Waiting => s1
    case Trying(_, _, _) => Step(s1, Attempt(answers[1]))
    case Evicting(_, _) => Step(s1, DoEvict)
  }

  /** The worker's code and the interleaved model agree on a turn: attempts, counters, store and ring. */
  lemma {:induction false} TurnAgrees(s: System, answers: seq<int>)
    requires s.worker.Waiting? && s.queue != [] && s.pusher.Resting? && |answers| >= 2
    ensures var t, tries := TurnAlone(s, answers), if WorthRetrying(answers[0]) then 2 else 1;
            && t.worker.Waiting? && t.pusher == s.pusher && t.tries == s.tries + [tries]
            && t.sent == s.sent + (if answers[tries - 1] == 200 then 1 else 0)
            && t.sent + t.failed == s.sent + s.failed + 1
            && t.queue == s.queue[1..] && t.taken == s.taken + [s.queue[0]]
            && t.store == if Dead(answers[0]) then Evict(s.store, s.queue[0].uid, s.queue[0].token) else s.store
  {
    hide Evict;
  }

  /** The loop of push_all in the interleaved model, from entry `k` on, when nobody else steps in between. */
  function PushRest(s: System): System
    requires s.pusher.Sending?
    decreases |s.store| - s.pusher.next
  {
    if s.pusher.next >= |s.store| then Step(s, PushEnd) else PushRest(Step(s, PushNext))
  }

  /** The producer's code and the interleaved model agree on a push. */
  lemma {:induction false} PushAgrees(s: System, before: seq<Job>)
    requires s.pusher.Sending? && s.pusher.next <= |s.store| && |before| <= QUEUE_SIZE
    requires var p := s.pusher;
             var jobs := JobsFor(s.store[..p.next], p.talker, p.group, p.exclude);
             p.started == Min(|jobs|, QUEUE_SIZE - |before|) && s.queue == before + jobs[..p.started]
    ensures var p, t := s.pusher, PushRest(s);
            var jobs := JobsFor(s.store, p.talker, p.group, p.exclude);
            && t.pusher.Resting? && t.store == s.store && t.worker == s.worker && t.sent == s.sent && t.failed == s.failed
            && t.queue == before + jobs[..Min(|jobs|, QUEUE_SIZE - |before|)]
    decreases |s.store| - s.pusher.next
  {
    var p := s.pusher;
    if p.next >= |s.store| {
      assert s.store[..p.next] == s.store;
    } else {
      var jobs := JobsFor(s.store[..p.next], p.talker, p.group, p.exclude);
      assert s.store[..p.next + 1][..p.next] == s.store[..p.next];
      var job := JobFor(s.store[p.next], p.talker, p.group);
      assert (jobs + [job])[..p.started] == jobs[..p.started];
      if p.started == |jobs| { assert (jobs + [job])[..p.started + 1] == jobs[..p.started] + [job]; }
      PushAgrees(Step(s, PushNext), before);
    }
  }

  lemma {:induction false} PushFromTheStart(s: System, talker: string, group: nat, exclude: Uid)
    requires s.pusher.Resting? && |s.queue| <= QUEUE_SIZE
    ensures var t, jobs := PushRest(Step(s, PushBegin(talker, group, exclude))), JobsFor(s.store, talker, group, exclude);
            && t.pusher.Resting? && t.store == s.store && t.worker == s.worker && t.sent == s.sent && t.failed == s.failed
            && t.queue == s.queue + jobs[..Min(|jobs|, QUEUE_SIZE - |s.queue|)]
  {
    hide PushRest;
    assert s.store[..0] == [] && s.queue + [] == s.queue;
    PushAgrees(Step(s, PushBegin(talker, group, exclude)), s.queue);
  }

  /** A push is for every user in the store but the one excluded, each with their own token, and for nobody else. */
  lemma {:induction false} JobsReachTheOthers(store: seq<Entry>, talker: string, group: nat, exclude: Uid)
    ensures forall i :: 0 <= i < |store| && store[i].uid != exclude ==>
              Job(store[i].uid, store[i].token, store[i].bundle, talker, group) in JobsFor(store, talker, group, exclude)
    ensures forall job :: job in JobsFor(store, talker, group, exclude) ==>
              exists i :: 0 <= i < |store| && store[i].uid != exclude
                          && job == Job(store[i].uid, store[i].token, store[i].bundle, talker, group)
    ensures |JobsFor(store, talker, group, exclude)| <= |store|
  {
    if store != [] {
      var init := store[..|store| - 1];
      JobsReachTheOthers(init, talker, group, exclude);
      assert forall i :: 0 <= i < |init| ==> init[i] == store[i];
      forall job | job in JobsFor(store, talker, group, exclude)
        ensures exists i :: 0 <= i < |store| && store[i].uid != exclude
                            && job == Job(store[i].uid, store[i].token, store[i].bundle, talker, group)
      {
        if job in JobsFor(init, talker, group, exclude) {
          var i :| 0 <= i < |init| && init[i].uid != exclude
                   && job == Job(init[i].uid, init[i].token, init[i].bundle, talker, group);
          assert store[i] == init[i];
        }
      }
    }
  }
}
