/**
 * The single-producer, single-consumer sample ring of modules/mod_link.c, stepped as two threads: the
 * audio tap writes, the background thread reads or drains. Every access to a shared index or sample is
 * one step, and the threads interleave freely.
 */
module SampleRing {
  const N: nat := 96000

  type Sample = int
  type Depth = (int, int) -> int

  /** What the code computes: unsigned 32-bit subtraction, then the remainder. */
  function CodeDepth(w: int, r: int): int {
    (w - r) % 0x1_0000_0000 % N
  }

  /** How many samples lie between the read index and the write index. */
  function RingDepth(w: int, r: int): int {
    (w - r) % N
  }

  datatype Producer = Quiet | Writing(src: seq<Sample>, done: nat)

  datatype Consumer = Waiting | Reading(count: nat, dst: seq<Sample>) | Draining(upTo: nat)

  /**
   * `buf`, `w` and `r` are shared; the rest of the line is each thread's own. `published` and `taken`
   * record every sample the producer has made visible and how many of them the consumer has passed;
   * `output` is what the consumer has delivered.
   */
  datatype Ring = Ring(buf: seq<Sample>, w: nat, r: nat, producer: Producer, consumer: Consumer,
                       published: seq<Sample>, taken: nat, output: seq<Sample>)

  datatype Action =
    | StartWrite(src: seq<Sample>) | CopyIn | PublishWrite
    | StartRead(wanted: nat) | CopyOut | PublishRead
    | StartDrain | FinishDrain

  predicate Indexed(s: Ring) {
    |s.buf| == N && s.w < N && s.r < N
  }

  function Initial(buf: seq<Sample>): Ring {
    Ring(buf, 0, 0, Quiet, Waiting, [], 0, [])
  }

  predicate Enabled(s: Ring, a: Action) {
    match a
    case StartWrite(_) => s.producer.Quiet?
    case CopyIn => s.producer.Writing? && s.producer.done < |s.producer.src|
    case PublishWrite => s.producer.Writing? && s.producer.done == |s.producer.src|
    case StartRead(_) => s.consumer.Waiting?
    case CopyOut => s.consumer.Reading? && |s.consumer.dst| < s.consumer.count
    case PublishRead => s.consumer.Reading? && |s.consumer.dst| == s.consumer.count
    case StartDrain => s.consumer.Waiting?
    case FinishDrain => s.consumer.Draining? && s.consumer.upTo < N
  }

  /** One step; `depth` is how the fill level is computed from the two indices. */
  function Next(depth: Depth, s: Ring, a: Action): (q: Ring)
    requires Indexed(s) && Enabled(s, a)
    ensures Indexed(q)
  {
    match a
    case StartWrite(src) =>
      if N - 1 - depth(s.w, s.r) < |src| then s else s.(producer := Writing(src, 0))
    case CopyIn =>
      var p := s.producer;
      s.(buf := s.buf[(s.w + p.done) % N := p.src[p.done]], producer := p.(done := p.done + 1))
    case PublishWrite =>
      var src := s.producer.src;
      s.(w := (s.w + |src|) % N, producer := Quiet, published := s.published + src)
    case StartRead(wanted) =>
      var avail := depth(s.w, s.r);
      s.(consumer := Reading(if wanted > avail then if avail < 0 then 0 else avail else wanted, []))
    case CopyOut =>
      var c := s.consumer;
      s.(consumer := c.(dst := c.dst + [s.buf[(s.r + |c.dst|) % N]]))
    case PublishRead =>
      var c := s.consumer;
      s.(r := (s.r + c.count) % N, consumer := Waiting, taken := s.taken + c.count, output := s.output + c.dst)
    case StartDrain => s.(consumer := Draining(s.w))
    case FinishDrain =>
      s.(r := s.consumer.upTo, consumer := Waiting, taken := s.taken + RingDepth(s.consumer.upTo, s.r))
  }

  // ---- The two depths ----

  /** 96000 does not divide 2^32, so the code's depth is the true one exactly when the subtraction does not wrap. */
  lemma {:induction false} CodeDepthIsTrueIffOrdered(w: nat, r: nat)
    requires w < N && r < N
    ensures CodeDepth(w, r) == RingDepth(w, r) <==> w >= r
    ensures w < r && RingDepth(w, r) < 72704 ==> CodeDepth(w, r) == RingDepth(w, r) + 23296
    ensures w < r && RingDepth(w, r) >= 72704 ==> CodeDepth(w, r) == RingDepth(w, r) - 72704
  {
    if w >= r {
      assert (w - r) % 0x1_0000_0000 == w - r;
    } else {
      assert (w - r) % 0x1_0000_0000 == w - r + 0x1_0000_0000;
      assert 0x1_0000_0000 == 44739 * N + 23296;
      assert RingDepth(w, r) == w - r + N;
      assert w - r + 0x1_0000_0000 == RingDepth(w, r) + 44738 * N + 23296;
    }
  }

  // ---- Refinement of a bounded FIFO ----

  /** The queue that the ring stands for. */
  function Queue(s: Ring): seq<Sample>
    requires s.taken <= |s.published|
  {
    s.published[s.taken..]
  }

  predicate Stored(buf: seq<Sample>, at: nat, xs: seq<Sample>)
    requires |buf| == N
  {
    forall k :: 0 <= k < |xs| ==> buf[(at + k) % N] == xs[k]
  }

  /** The ring holds its queue, whatever stage the two threads have reached. */
  predicate Refines(s: Ring) {
    && Indexed(s) && s.taken <= |s.published|
    && |Queue(s)| == RingDepth(s.w, s.r) && Stored(s.buf, s.r, Queue(s))
    && (s.producer.Writing? ==>
          && s.producer.done <= |s.producer.src|
          && |Queue(s)| + |s.producer.src| <= N - 1
          && Stored(s.buf, s.w, s.producer.src[..s.producer.done]))
    && (s.consumer.Reading? ==>
          && |s.consumer.dst| <= s.consumer.count <= |Queue(s)|
          && s.consumer.dst == Queue(s)[..|s.consumer.dst|])
    && (s.consumer.Draining? ==> s.consumer.upTo < N && RingDepth(s.consumer.upTo, s.r) <= |Queue(s)|)
  }

  /** The bounded FIFO: a write adds at the back, a read takes from the front and delivers that, a drain drops. */
  predicate FifoStep(s: Ring, q: Ring, a: Action)
    requires s.taken <= |s.published| && q.taken <= |q.published|
  {
    match a
    case PublishWrite =>
      s.producer.Writing? && Queue(q) == Queue(s) + s.producer.src && |Queue(q)| <= N - 1 && q.output == s.output
    case PublishRead =>
      && s.consumer.Reading? && s.consumer.count <= |Queue(s)|
      && Queue(q) == Queue(s)[s.consumer.count..]
      && q.output == s.output + Queue(s)[..s.consumer.count]
    case FinishDrain =>
      && s.consumer.Draining? && RingDepth(s.consumer.upTo, s.r) <= |Queue(s)|
      && Queue(q) == Queue(s)[RingDepth(s.consumer.upTo, s.r)..] && q.output == s.output
    case _ => Queue(q) == Queue(s) && q.output == s.output
  }

  lemma {:induction false} SameSlot(a: nat, i: nat, j: nat)
    requires i < N && j < N
    ensures (a + i) % N == (a + j) % N <==> i == j
  {
  }

  lemma {:induction false} SlotAfter(a: nat, d: nat, i: nat)
    ensures ((a + d) % N + i) % N == (a + (d + i)) % N
  {
  }

  lemma {:induction false} WriteIndex(s: Ring)
    requires Refines(s)
    ensures s.w == (s.r + |Queue(s)|) % N
  {
  }

  /** Writing one sample beyond what is stored disturbs none of it. */
  lemma {:induction false} StoreOne(buf: seq<Sample>, at: nat, xs: seq<Sample>, i: nat, x: Sample)
    requires |buf| == N && Stored(buf, at, xs) && |xs| <= i < N
    ensures Stored(buf[(at + i) % N := x], at, xs)
    ensures i == |xs| ==> Stored(buf[(at + i) % N := x], at, xs + [x])
  {
    var after := buf[(at + i) % N := x];
    forall k | 0 <= k < |xs|
      ensures after[(at + k) % N] == xs[k]
    {
      SameSlot(at, k, i);
    }
  }

  lemma {:induction false} CopyInKeeps(depth: Depth, s: Ring)
    requires Refines(s) && Enabled(s, CopyIn)
    ensures Refines(Next(depth, s, CopyIn))
  {
    hide Stored;
    var p, n := s.producer, |Queue(s)|;
    WriteIndex(s);
    SlotAfter(s.r, n, p.done);
    StoreOne(s.buf, s.r, Queue(s), n + p.done, p.src[p.done]);
    StoreOne(s.buf, s.w, p.src[..p.done], p.done, p.src[p.done]);
    assert p.src[..p.done] + [p.src[p.done]] == p.src[..p.done + 1];
  }

  lemma {:induction false} StoredConcat(buf: seq<Sample>, r: nat, xs: seq<Sample>, w: nat, ys: seq<Sample>)
    requires |buf| == N && w == (r + |xs|) % N && Stored(buf, r, xs) && Stored(buf, w, ys)
    ensures Stored(buf, r, xs + ys)
  {
    forall k | 0 <= k < |xs + ys|
      ensures buf[(r + k) % N] == (xs + ys)[k]
    {
      if k >= |xs| {
        SlotAfter(r, |xs|, k - |xs|);
        assert buf[(w + (k - |xs|)) % N] == ys[k - |xs|];
      }
    }
  }

  lemma {:induction false} DepthAfterWrite(r: nat, n: nat, k: nat)
    requires r < N && n + k < N
    ensures RingDepth(((r + n) % N + k) % N, r) == n + k
  {
    SlotAfter(r, n, k);
  }

  lemma {:induction false} PublishWriteKeeps(depth: Depth, s: Ring)
    requires Refines(s) && Enabled(s, PublishWrite)
    ensures var q := Next(depth, s, PublishWrite); Refines(q) && FifoStep(s, q, PublishWrite)
  {
    hide Stored, RingDepth;
    var src, n, q := s.producer.src, |Queue(s)|, Next(depth, s, PublishWrite);
    WriteIndex(s);
    assert Queue(q) == Queue(s) + src;
    assert s.producer.src[..s.producer.done] == src;
    StoredConcat(s.buf, s.r, Queue(s), s.w, src);
    DepthAfterWrite(s.r, n, |src|);
  }

  lemma {:induction false} PublishReadKeeps(depth: Depth, s: Ring)
    requires Refines(s) && Enabled(s, PublishRead)
    ensures var q := Next(depth, s, PublishRead); Refines(q) && FifoStep(s, q, PublishRead)
  {
    var c, q := s.consumer, Next(depth, s, PublishRead);
    assert Queue(q) == Queue(s)[c.count..];
    WriteIndex(s);
    Advance(s, c.count, q);
  }

  lemma {:induction false} StoredAfter(buf: seq<Sample>, r: nat, xs: seq<Sample>, k: nat)
    requires |buf| == N && Stored(buf, r, xs) && k <= |xs|
    ensures Stored(buf, (r + k) % N, xs[k..])
  {
    var ys := xs[k..];
    forall j | 0 <= j < |ys|
      ensures buf[((r + k) % N + j) % N] == ys[j]
    {
      SlotAfter(r, k, j);
      assert buf[(r + (k + j)) % N] == xs[k + j];
    }
  }

  lemma {:induction false} DepthInRange(w: int, r: int)
    ensures 0 <= RingDepth(w, r) < N
  {
  }

  lemma {:induction false} DepthAfterRead(r: nat, n: nat, k: nat)
    requires r < N && k <= n < N
    ensures RingDepth((r + n) % N, (r + k) % N) == n - k
  {
    SlotAfter(r, k, n - k);
    var m := (r + k) % N;
    assert (r + n) % N == (m + (n - k)) % N;
  }

  /** Moving the read index `k` places on drops `k` samples from the queue. */
  lemma {:induction false} Advance(s: Ring, k: nat, q: Ring)
    requires Refines(s) && k <= |Queue(s)| && s.w == (s.r + |Queue(s)|) % N
    requires q.buf == s.buf && q.w == s.w && q.r == (s.r + k) % N && q.published == s.published
    requires q.taken == s.taken + k
    ensures |Queue(q)| == RingDepth(q.w, q.r) && Stored(q.buf, q.r, Queue(q))
  {
    hide Stored, RingDepth;
    assert Queue(q) == Queue(s)[k..];
    StoredAfter(s.buf, s.r, Queue(s), k);
    DepthInRange(s.w, s.r);
    DepthAfterRead(s.r, |Queue(s)|, k);
  }

  lemma {:induction false} FinishDrainKeeps(depth: Depth, s: Ring)
    requires Refines(s) && Enabled(s, FinishDrain)
    ensures var q := Next(depth, s, FinishDrain); Refines(q) && FifoStep(s, q, FinishDrain)
  {
    var k, q := RingDepth(s.consumer.upTo, s.r), Next(depth, s, FinishDrain);
    WriteIndex(s);
    assert s.consumer.upTo == (s.r + k) % N;
    Advance(s, k, q);
    assert Queue(q) == Queue(s)[k..];
  }

  lemma {:induction false} CopyOutKeeps(depth: Depth, s: Ring)
    requires Refines(s) && Enabled(s, CopyOut)
    ensures Refines(Next(depth, s, CopyOut))
  {
    var c := s.consumer;
    assert s.buf[(s.r + |c.dst|) % N] == Queue(s)[|c.dst|];
  }

  /** A look that lets a thread take or write no more than the true fill level allows. */
  predicate SafeLook(depth: Depth, s: Ring, a: Action) {
    match a
    case StartRead(wanted) => depth(s.w, s.r) <= RingDepth(s.w, s.r) || wanted <= RingDepth(s.w, s.r)
    case StartWrite(src) => N - 1 - depth(s.w, s.r) < |src| || |src| <= N - 1 - RingDepth(s.w, s.r)
    case _ => true
  }

  /** One step of either thread keeps the ring a FIFO exactly when the step is no unsafe look. */
  lemma {:induction false} StepRefinesIff(depth: Depth, s: Ring, a: Action)
    requires Refines(s) && Enabled(s, a)
    ensures Refines(Next(depth, s, a)) <==> SafeLook(depth, s, a)
    ensures SafeLook(depth, s, a) ==> FifoStep(s, Next(depth, s, a), a)
  {
    match a
    case CopyIn => CopyInKeeps(depth, s);
    case PublishWrite => PublishWriteKeeps(depth, s);
    case CopyOut => CopyOutKeeps(depth, s);
    case PublishRead => PublishReadKeeps(depth, s);
    case FinishDrain => FinishDrainKeeps(depth, s);
    case _ =>
  }

  // ---- Runs ----

  /** The state after a run, provided every step was enabled. */
  function Run(depth: Depth, s: Ring, run: seq<Action>): (q: Ring)
    requires Indexed(s) && Legal(depth, s, run)
    ensures Indexed(q)
    decreases |run|
  {
    if run == [] then s else Run(depth, Next(depth, s, run[0]), run[1..])
  }

  predicate Legal(depth: Depth, s: Ring, run: seq<Action>)
    requires Indexed(s)
    decreases |run|
  {
    run == [] || (Enabled(s, run[0]) && Legal(depth, Next(depth, s, run[0]), run[1..]))
  }

  /** The state after the first `k` steps. */
  function At(depth: Depth, s: Ring, run: seq<Action>, k: nat): (q: Ring)
    requires Indexed(s) && Legal(depth, s, run) && k <= |run|
    ensures Indexed(q)
    decreases k
  {
    if k == 0 then s else At(depth, Next(depth, s, run[0]), run[1..], k - 1)
  }

  lemma {:induction false} AtStep(depth: Depth, s: Ring, run: seq<Action>, k: nat)
    requires Indexed(s) && Legal(depth, s, run) && k < |run|
    ensures Enabled(At(depth, s, run, k), run[k])
    ensures At(depth, s, run, k + 1) == Next(depth, At(depth, s, run, k), run[k])
    decreases k
  {
    hide Next, Enabled;
    if k > 0 {
      AtStep(depth, Next(depth, s, run[0]), run[1..], k - 1);
    } else {
      assert At(depth, s, run, 1) == At(depth, Next(depth, s, run[0]), run[1..], 0);
    }
  }

  lemma {:induction false} AtEnd(depth: Depth, s: Ring, run: seq<Action>)
    requires Indexed(s) && Legal(depth, s, run)
    ensures At(depth, s, run, |run|) == Run(depth, s, run)
    decreases |run|
  {
    hide Next, Enabled;
    if run != [] { AtEnd(depth, Next(depth, s, run[0]), run[1..]); }
  }

  /** The ring holds its queue at every moment of the run. */
  predicate Throughout(depth: Depth, s: Ring, run: seq<Action>)
    requires Indexed(s) && Legal(depth, s, run)
  {
    forall k :: 0 <= k <= |run| ==> Refines(At(depth, s, run, k))
  }

  predicate AllSafe(depth: Depth, s: Ring, run: seq<Action>)
    requires Indexed(s) && Legal(depth, s, run)
  {
    forall k :: 0 <= k < |run| ==> SafeLook(depth, At(depth, s, run, k), run[k])
  }

  lemma {:induction false} SafeSoFar(depth: Depth, s: Ring, run: seq<Action>, k: nat)
    requires Indexed(s) && Refines(s) && Legal(depth, s, run) && k <= |run| && AllSafe(depth, s, run)
    ensures Refines(At(depth, s, run, k))
    ensures s.output == s.published[..s.taken] && FinishDrain !in run ==>
              var q := At(depth, s, run, k); q.taken <= |q.published| && q.output == q.published[..q.taken]
  {
    hide Refines, Enabled, Next, FifoStep, SafeLook, Legal;
    assert s.taken <= |s.published| by { RefinesBounds(s); }
    if k > 0 {
      SafeSoFar(depth, s, run, k - 1);
      var q := At(depth, s, run, k - 1);
      AtStep(depth, s, run, k - 1);
      StepRefinesIff(depth, q, run[k - 1]);
      RefinesBounds(q);
      RefinesBounds(Next(depth, q, run[k - 1]));
      if run[k - 1] != FinishDrain && q.output == q.published[..q.taken] { StepDelivers(depth, q, run[k - 1]); }
    }
  }

  lemma {:induction false} RefinesBounds(s: Ring)
    requires Refines(s)
    ensures Indexed(s) && s.taken <= |s.published|
  {
  }

  /** A step that is no drain leaves the output the published prefix. */
  lemma {:induction false} StepDelivers(depth: Depth, s: Ring, a: Action)
    requires Refines(s) && Enabled(s, a) && SafeLook(depth, s, a) && a != FinishDrain
    requires s.output == s.published[..s.taken]
    ensures var q := Next(depth, s, a); q.taken <= |q.published| && q.output == q.published[..q.taken]
  {
    hide Stored, RingDepth, SafeLook, Enabled;
    var q := Next(depth, s, a);
    StepRefinesIff(depth, s, a);
    if a.PublishRead? {
      assert q.published[..q.taken] == s.published[..s.taken] + Queue(s)[..s.consumer.count];
    } else {
      assert q.taken == s.taken && s.published <= q.published;
    }
  }

  /** The ring is a FIFO throughout a run exactly when every look of the run is safe. */
  lemma {:induction false} RunRefinesIff(depth: Depth, s: Ring, run: seq<Action>)
    requires Indexed(s) && Refines(s) && Legal(depth, s, run)
    ensures Throughout(depth, s, run) <==> AllSafe(depth, s, run)
  {
    hide Refines, Enabled, Next, FifoStep, SafeLook, Legal, At;
    if AllSafe(depth, s, run) {
      forall k | 0 <= k <= |run| ensures Refines(At(depth, s, run, k)) {
        SafeSoFar(depth, s, run, k);
      }
    }
    if Throughout(depth, s, run) {
      forall k | 0 <= k < |run| ensures SafeLook(depth, At(depth, s, run, k), run[k]) {
        assert Refines(At(depth, s, run, k)) && Refines(At(depth, s, run, k + 1));
        AtStep(depth, s, run, k);
        StepRefinesIff(depth, At(depth, s, run, k), run[k]);
      }
    }
  }

  /** On a run with safe looks and without drains every sample is delivered once, in order. */
  lemma {:induction false} RunDelivers(depth: Depth, s: Ring, run: seq<Action>)
    requires Indexed(s) && Refines(s) && Legal(depth, s, run) && AllSafe(depth, s, run)
    requires s.output == s.published[..s.taken] && FinishDrain !in run
    ensures var q := Run(depth, s, run); q.taken <= |q.published| && q.output == q.published[..q.taken]
  {
    hide Refines, Enabled, Next, AllSafe, Legal, At, Run;
    AtEnd(depth, s, run);
    SafeSoFar(depth, s, run, |run|);
  }

  lemma {:induction false} InitialRefines(buf: seq<Sample>)
    requires |buf| == N
    ensures Refines(Initial(buf))
  {
  }

  /** With the true depth the ring is a FIFO of 95,999 samples under every interleaving. */
  lemma {:induction false} TrueDepthRefinesFifo(buf: seq<Sample>, run: seq<Action>)
    requires |buf| == N && Legal(RingDepth, Initial(buf), run)
    ensures Throughout(RingDepth, Initial(buf), run)
    ensures var q := Run(RingDepth, Initial(buf), run);
            Refines(q) && (FinishDrain !in run ==> q.output == q.published[..q.taken])
  {
    hide Refines, Enabled, Next, Legal, At, Run;
    InitialRefines(buf);
    assert AllSafe(RingDepth, Initial(buf), run);
    RunRefinesIff(RingDepth, Initial(buf), run);
    AtEnd(RingDepth, Initial(buf), run);
    if FinishDrain !in run {
      RunDelivers(RingDepth, Initial(buf), run);
    }
  }

  // ---- Whole operations ----

  predicate ProducerOnly(run: seq<Action>) {
    forall k :: 0 <= k < |run| ==> run[k].StartWrite? || run[k].CopyIn? || run[k].PublishWrite?
  }

  /** What the producer does while the consumer waits to finish a drain. */
  predicate StillDraining(s: Ring, q: Ring) {
    && q.consumer == s.consumer && q.r == s.r && q.taken == s.taken && q.output == s.output && s.published <= q.published
  }

  lemma {:induction false} ProducerLeavesConsumer(depth: Depth, s: Ring, run: seq<Action>)
    requires Indexed(s) && Legal(depth, s, run) && ProducerOnly(run)
    ensures StillDraining(s, Run(depth, s, run))
    decreases |run|
  {
    if run != [] {
      assert run[0].StartWrite? || run[0].CopyIn? || run[0].PublishWrite?;
      ProducerLeavesConsumer(depth, Next(depth, s, run[0]), run[1..]);
    }
  }

  /**
   * A drain discards just what had been published when it began: whatever the producer does meanwhile,
   * afterwards the queue is what has been published since.
   */
  lemma {:induction false} DrainDiscardsAll(depth: Depth, s: Ring, run: seq<Action>)
    requires Refines(s) && s.consumer.Waiting?
    requires var d := Next(depth, s, StartDrain); Legal(depth, d, run) && AllSafe(depth, d, run) && ProducerOnly(run)
    ensures var q := Run(depth, Next(depth, s, StartDrain), run);
            && Enabled(q, FinishDrain)
            && var e := Next(depth, q, FinishDrain);
               && Refines(e) && e.taken == |s.published| <= |e.published|
               && Queue(e) == e.published[|s.published|..] && e.output == s.output
  {
    hide Run, Legal, AllSafe, At, Stored;
    var d := Next(depth, s, StartDrain);
    StepRefinesIff(depth, s, StartDrain);
    ProducerLeavesConsumer(depth, d, run);
    AtEnd(depth, d, run);
    SafeSoFar(depth, d, run, |run|);
    var q := Run(depth, d, run);
    StepRefinesIff(depth, q, FinishDrain);
  }

  // ---- When the code's own depth will do ----

  /** A read of up to 72,704 samples is safe exactly when the indices are in order or that many are there. */
  lemma {:induction false} SafeReadIff(s: Ring, wanted: nat)
    requires Indexed(s) && wanted <= 72704
    ensures SafeLook(CodeDepth, s, StartRead(wanted)) <==> s.w >= s.r || wanted <= RingDepth(s.w, s.r)
  {
    CodeDepthIsTrueIffOrdered(s.w, s.r);
    DepthInRange(s.w, s.r);
    hide CodeDepth, RingDepth;
  }

  /** A write of up to 23,296 samples is safe exactly when the indices are in order or there is room for it. */
  lemma {:induction false} SafeWriteIff(s: Ring, src: seq<Sample>)
    requires Indexed(s) && |src| <= 23296
    ensures SafeLook(CodeDepth, s, StartWrite(src)) <==> s.w >= s.r || |src| <= N - 1 - RingDepth(s.w, s.r)
  {
    CodeDepthIsTrueIffOrdered(s.w, s.r);
    DepthInRange(s.w, s.r);
    hide CodeDepth, RingDepth;
  }

  // The sizes the code uses: at most 20 ms per write of the tap, 60 ms per read of the encoder.
  const TAP: nat := 960
  const FRAME: nat := 2880

  predicate CodeSized(a: Action) {
    (a.StartWrite? ==> |a.src| <= TAP) && (a.StartRead? ==> a.wanted == FRAME)
  }

  /** What a caller can check before the look: indices in order, or a frame to take, or room to write. */
  predicate Warranted(s: Ring, a: Action) {
    match a
    case StartRead(wanted) => s.w >= s.r || wanted <= RingDepth(s.w, s.r)
    case StartWrite(src) => s.w >= s.r || |src| <= N - 1 - RingDepth(s.w, s.r)
    case _ => true
  }

  /**
   * The code's ring, with the code's sizes: it is a FIFO throughout a run, of any interleaving, exactly when
   * each read finds the indices in order or a whole frame there, and each write finds them in order or
   * room; and then, drains aside, what comes out is what went in.
   */
  lemma {:induction false} CodeRefinesFifoIff(buf: seq<Sample>, run: seq<Action>)
    requires |buf| == N && Legal(CodeDepth, Initial(buf), run) && forall k :: 0 <= k < |run| ==> CodeSized(run[k])
    ensures Throughout(CodeDepth, Initial(buf), run)
            <==> forall k :: 0 <= k < |run| ==> Warranted(At(CodeDepth, Initial(buf), run, k), run[k])
    ensures Throughout(CodeDepth, Initial(buf), run) && FinishDrain !in run ==>
              var q := Run(CodeDepth, Initial(buf), run); q.taken <= |q.published| && q.output == q.published[..q.taken]
  {
    hide Refines, Enabled, Next, Legal, At, Run, CodeDepth, RingDepth, Throughout;
    var s := Initial(buf);
    InitialRefines(buf);
    RunRefinesIff(CodeDepth, s, run);
    forall k | 0 <= k < |run|
      ensures SafeLook(CodeDepth, At(CodeDepth, s, run, k), run[k]) <==> Warranted(At(CodeDepth, s, run, k), run[k])
    {
      assert CodeSized(run[k]);
      match run[k]
      case StartRead(wanted) => SafeReadIff(At(CodeDepth, s, run, k), wanted);
      case StartWrite(src) => SafeWriteIff(At(CodeDepth, s, run, k), src);
      case _ =>
    }
    if AllSafe(CodeDepth, s, run) && FinishDrain !in run {
      RunDelivers(CodeDepth, s, run);
    }
  }

  // ---- A run on which the code's depth is wrong ----

  function FinishWrite(n: nat): seq<Action> {
    if n == 0 then [PublishWrite] else [CopyIn] + FinishWrite(n - 1)
  }

  function FinishRead(n: nat): seq<Action> {
    if n == 0 then [PublishRead] else [CopyOut] + FinishRead(n - 1)
  }

  /** What `n` slots from `at` on hold. */
  function Span(buf: seq<Sample>, at: nat, n: nat): (xs: seq<Sample>)
    requires |buf| == N
    ensures |xs| == n
  {
    seq(n, i requires 0 <= i < n => buf[(at + i) % N])
  }

  /** The buffer with `xs` written from `at` on, up to its end at most. */
  function Over(buf: seq<Sample>, at: nat, xs: seq<Sample>): (r: seq<Sample>)
    requires at + |xs| <= |buf|
    ensures |r| == |buf|
  {
    buf[..at] + xs + buf[at + |xs|..]
  }

  lemma {:induction false} OverOneMore(buf: seq<Sample>, at: nat, xs: seq<Sample>, i: nat)
    requires at + |xs| <= |buf| && i < |xs|
    ensures Over(buf, at, xs[..i])[at + i := xs[i]] == Over(buf, at, xs[..i + 1])
  {
  }

  lemma {:induction false} FinishWriteRuns(depth: Depth, s: Ring, before: seq<Sample>)
    requires Indexed(s) && s.producer.Writing? && s.producer.done <= |s.producer.src|
    requires |before| == N && s.w + |s.producer.src| <= N
    requires s.buf == Over(before, s.w, s.producer.src[..s.producer.done])
    ensures var run := FinishWrite(|s.producer.src| - s.producer.done);
            && Legal(depth, s, run)
            && Run(depth, s, run) == s.(buf := Over(before, s.w, s.producer.src), w := (s.w + |s.producer.src|) % N,
                                        producer := Quiet, published := s.published + s.producer.src)
    decreases |s.producer.src| - s.producer.done
  {
    hide Over;
    var p := s.producer;
    if p.done < |p.src| {
      var run := FinishWrite(|p.src| - p.done);
      assert run[0] == CopyIn && run[1..] == FinishWrite(|p.src| - (p.done + 1));
      OverOneMore(before, s.w, p.src, p.done);
      FinishWriteRuns(depth, Next(depth, s, CopyIn), before);
    } else {
      var q := Next(depth, s, PublishWrite);
      assert p.src[..p.done] == p.src;
      assert [PublishWrite][1..] == [] && Run(depth, q, []) == q;
    }
  }

  lemma {:induction false} FinishReadRuns(depth: Depth, s: Ring)
    requires Indexed(s) && s.consumer.Reading? && |s.consumer.dst| <= s.consumer.count
    requires s.consumer.dst == Span(s.buf, s.r, |s.consumer.dst|)
    ensures var run, n := FinishRead(s.consumer.count - |s.consumer.dst|), s.consumer.count;
            && Legal(depth, s, run)
            && Run(depth, s, run) == s.(r := (s.r + n) % N, consumer := Waiting, taken := s.taken + n,
                                        output := s.output + Span(s.buf, s.r, n))
    decreases s.consumer.count - |s.consumer.dst|
  {
    var c := s.consumer;
    if |c.dst| < c.count {
      var run := FinishRead(c.count - |c.dst|);
      assert run[0] == CopyOut && run[1..] == FinishRead(c.count - (|c.dst| + 1));
      assert Span(s.buf, s.r, |c.dst| + 1) == Span(s.buf, s.r, |c.dst|) + [s.buf[(s.r + |c.dst|) % N]];
      FinishReadRuns(depth, Next(depth, s, CopyOut));
    } else {
      var q := Next(depth, s, PublishRead);
      assert [PublishRead][1..] == [] && Run(depth, q, []) == q;
    }
  }

  lemma {:induction false} RunConcat(depth: Depth, s: Ring, a: seq<Action>, b: seq<Action>)
    requires Indexed(s) && Legal(depth, s, a) && Legal(depth, Run(depth, s, a), b)
    ensures Legal(depth, s, a + b) && Run(depth, s, a + b) == Run(depth, Run(depth, s, a), b)
    decreases |a|
  {
    hide Next, Enabled;
    if a == [] {
      assert a + b == b;
    } else {
      RunConcat(depth, Next(depth, s, a[0]), a[1..], b);
      assert (a + b)[1..] == a[1..] + b;
    }
  }

  /** A read that nobody steps into delivers as many samples as were asked for, or as many as it saw. */
  lemma {:induction false} ReadDelivers(depth: Depth, s: Ring, wanted: nat)
    requires Refines(s) && s.consumer.Waiting? && SafeLook(depth, s, StartRead(wanted)) && depth(s.w, s.r) >= 0
    ensures var k := if wanted <= depth(s.w, s.r) then wanted else depth(s.w, s.r);
            var run := [StartRead(wanted)] + FinishRead(k);
            && Legal(depth, s, run) && k <= |Queue(s)|
            && var q := Run(depth, s, run);
               && q.output == s.output + Queue(s)[..k] && q.taken == s.taken + k && q.published == s.published
  {
    var k := if wanted <= depth(s.w, s.r) then wanted else depth(s.w, s.r);
    var run := [StartRead(wanted)] + FinishRead(k);
    assert run[0] == StartRead(wanted) && run[1..] == FinishRead(k);
    var q := Next(depth, s, StartRead(wanted));
    FinishReadRuns(depth, q);
    assert Span(s.buf, s.r, k) == Queue(s)[..k];
  }

  lemma {:induction false} FinishWritePublishes(depth: Depth, s: Ring)
    requires Indexed(s) && s.producer.Writing? && s.producer.done <= |s.producer.src|
    ensures var run := FinishWrite(|s.producer.src| - s.producer.done);
            && Legal(depth, s, run)
            && var q := Run(depth, s, run);
               && q.published == s.published + s.producer.src && q.producer == Quiet
               && q.consumer == s.consumer && q.r == s.r && q.taken == s.taken && q.output == s.output
    decreases |s.producer.src| - s.producer.done
  {
    var p := s.producer;
    if p.done < |p.src| {
      var run := FinishWrite(|p.src| - p.done);
      assert run[0] == CopyIn && run[1..] == FinishWrite(|p.src| - (p.done + 1));
      FinishWritePublishes(depth, Next(depth, s, CopyIn));
    } else {
      var q := Next(depth, s, PublishWrite);
      assert [PublishWrite][1..] == [] && Run(depth, q, []) == q;
    }
  }

  /** A tap is taken whole exactly when it fits by the depth it saw, and otherwise changes nothing. */
  lemma {:induction false} TapIsTakenIff(depth: Depth, s: Ring, src: seq<Sample>)
    requires Indexed(s) && s.producer.Quiet?
    ensures |src| <= N - 1 - depth(s.w, s.r) ==>
              var run := [StartWrite(src)] + FinishWrite(|src|);
              && Legal(depth, s, run)
              && var q := Run(depth, s, run); q.published == s.published + src && q.taken == s.taken && q.producer == Quiet
    ensures |src| > N - 1 - depth(s.w, s.r) ==> Next(depth, s, StartWrite(src)) == s
  {
    if |src| <= N - 1 - depth(s.w, s.r) {
      var run := [StartWrite(src)] + FinishWrite(|src|);
      assert run[0] == StartWrite(src) && run[1..] == FinishWrite(|src|);
      FinishWritePublishes(depth, Next(depth, s, StartWrite(src)));
    }
  }

  function WriteBurst(src: seq<Sample>): seq<Action> {
    [StartWrite(src)] + FinishWrite(|src|)
  }

  function ReadBurst(n: nat): seq<Action> {
    [StartRead(n)] + FinishRead(n)
  }

  lemma {:induction false} WriteBurstRuns(s: Ring, src: seq<Sample>)
    requires Indexed(s) && s.producer.Quiet? && |src| <= N - 1 - CodeDepth(s.w, s.r) && s.w + |src| <= N
    ensures var run := WriteBurst(src);
            && Legal(CodeDepth, s, run)
            && Run(CodeDepth, s, run)
               == s.(buf := Over(s.buf, s.w, src), w := (s.w + |src|) % N, published := s.published + src)
  {
    hide CodeDepth;
    var run := WriteBurst(src);
    assert run[0] == StartWrite(src) && run[1..] == FinishWrite(|src|);
    assert Over(s.buf, s.w, src[..0]) == s.buf;
    FinishWriteRuns(CodeDepth, Next(CodeDepth, s, StartWrite(src)), s.buf);
  }

  lemma {:induction false} ReadBurstRuns(s: Ring, n: nat)
    requires Indexed(s) && s.consumer.Waiting? && n <= CodeDepth(s.w, s.r)
    ensures var run := ReadBurst(n);
            && Legal(CodeDepth, s, run)
            && Run(CodeDepth, s, run)
               == s.(r := (s.r + n) % N, taken := s.taken + n, output := s.output + Span(s.buf, s.r, n))
  {
    hide CodeDepth;
    var run := ReadBurst(n);
    assert run[0] == StartRead(n) && run[1..] == FinishRead(n);
    FinishReadRuns(CodeDepth, Next(CodeDepth, s, StartRead(n)));
  }

  /** The audio of 101 calls of the tap, just over two seconds. */
  predicate Taps(audio: seq<seq<Sample>>) {
    |audio| == 101 && forall k :: 0 <= k < |audio| ==> |audio[k]| == TAP
  }

  function Flatten(audio: seq<seq<Sample>>): seq<Sample> {
    if audio == [] then [] else Flatten(audio[..|audio| - 1]) + audio[|audio| - 1]
  }

  /** Three writes and a read. */
  function Round(audio: seq<seq<Sample>>, i: nat): seq<Action>
    requires 3 * i + 3 <= |audio|
  {
    WriteBurst(audio[3 * i]) + WriteBurst(audio[3 * i + 1]) + WriteBurst(audio[3 * i + 2]) + ReadBurst(FRAME)
  }

  /** `k` rounds: the steady state of the link. */
  function Rounds(audio: seq<seq<Sample>>, k: nat): seq<Action>
    requires 3 * k <= |audio|
  {
    if k == 0 then [] else Rounds(audio, k - 1) + Round(audio, k - 1)
  }

  function ReadBursts(k: nat): seq<Action> {
    if k == 0 then [] else ReadBursts(k - 1) + ReadBurst(FRAME)
  }

  /** The reader's loop: `k` frames while the depth reads a frame or more, and then it reads less. */
  predicate LoopReads(w: nat, r: nat, k: nat)
    decreases k
  {
    if k == 0 then CodeDepth(w, r) < FRAME else CodeDepth(w, r) >= FRAME && LoopReads(w, (r + FRAME) % N, k - 1)
  }

  /** 33 rounds and two more writes, the second of which wraps the write index. */
  function TwoLate(audio: seq<seq<Sample>>): seq<Action>
    requires Taps(audio)
  {
    Rounds(audio, 33) + WriteBurst(audio[99]) + WriteBurst(audio[100])
  }

  /** The ring after `j` writes, all in the first lap, and `i` reads. */
  predicate Steady(s: Ring, audio: seq<seq<Sample>>, j: nat, i: nat)
    requires Taps(audio)
  {
    && Indexed(s) && j <= 99 && 3 * i <= j && s.w == TAP * j && s.r == FRAME * i
    && s.producer.Quiet? && s.consumer.Waiting?
    && s.published == Flatten(audio[..j]) && s.taken == FRAME * i && s.output == Flatten(audio[..3 * i])
    && forall k :: 0 <= k < j ==> s.buf[TAP * k..TAP * k + TAP] == audio[k]
  }

  lemma {:induction false} CodeDepthAhead(w: nat, r: nat)
    requires r <= w < N
    ensures CodeDepth(w, r) == w - r
  {
    assert (w - r) % 0x1_0000_0000 == w - r;
  }

  lemma {:induction false} OneMoreTap(audio: seq<seq<Sample>>, j: nat)
    requires j < |audio|
    ensures Flatten(audio[..j + 1]) == Flatten(audio[..j]) + audio[j]
  {
    assert audio[..j + 1][..j] == audio[..j];
  }

  lemma {:induction false} ThreeMoreTaps(audio: seq<seq<Sample>>, k: nat)
    requires k + 3 <= |audio|
    ensures Flatten(audio[..k + 3]) == Flatten(audio[..k]) + (audio[k] + audio[k + 1] + audio[k + 2])
  {
    hide Flatten;
    OneMoreTap(audio, k);
    OneMoreTap(audio, k + 1);
    OneMoreTap(audio, k + 2);
  }

  lemma {:induction false} OverElsewhere(buf: seq<Sample>, at: nat, xs: seq<Sample>, lo: nat, hi: nat)
    requires at + |xs| <= |buf| && lo <= hi <= |buf| && (hi <= at || at + |xs| <= lo)
    ensures Over(buf, at, xs)[lo..hi] == buf[lo..hi]
    ensures Over(buf, at, xs)[at..at + |xs|] == xs
  {
  }

  lemma {:induction false} SteadyWrite(s: Ring, audio: seq<seq<Sample>>, j: nat, i: nat)
    requires Taps(audio) && Steady(s, audio, j, i) && j < 99
    ensures Legal(CodeDepth, s, WriteBurst(audio[j]))
    ensures Steady(Run(CodeDepth, s, WriteBurst(audio[j])), audio, j + 1, i)
  {
    hide Run, Legal, Over, CodeDepth, Flatten;
    CodeDepthAhead(s.w, s.r);
    WriteBurstRuns(s, audio[j]);
    OneMoreTap(audio, j);
    var q := Run(CodeDepth, s, WriteBurst(audio[j]));
    forall k | 0 <= k < j + 1
      ensures q.buf[TAP * k..TAP * k + TAP] == audio[k]
    {
      if k < j {
        OverElsewhere(s.buf, s.w, audio[j], TAP * k, TAP * k + TAP);
      } else {
        OverElsewhere(s.buf, s.w, audio[j], 0, 0);
      }
    }
  }

  lemma {:induction false} SpanIsThreeTaps(buf: seq<Sample>, audio: seq<seq<Sample>>, k: nat)
    requires |buf| == N && Taps(audio) && k + 3 <= 99
    requires forall i :: k <= i < k + 3 ==> buf[TAP * i..TAP * i + TAP] == audio[i]
    ensures Span(buf, TAP * k, FRAME) == audio[k] + audio[k + 1] + audio[k + 2]
  {
    var at := TAP * k;
    var span, taps := Span(buf, at, FRAME), audio[k] + audio[k + 1] + audio[k + 2];
    assert TAP * (k + 1) == at + TAP && TAP * (k + 2) == at + 2 * TAP;
    forall x | 0 <= x < FRAME
      ensures span[x] == taps[x]
    {
      assert (at + x) % N == at + x;
      if x < TAP {
        assert buf[at..at + TAP][x] == audio[k][x];
      } else if x < 2 * TAP {
        assert buf[at + TAP..at + TAP + TAP][x - TAP] == audio[k + 1][x - TAP];
      } else {
        assert buf[at + 2 * TAP..at + 2 * TAP + TAP][x - 2 * TAP] == audio[k + 2][x - 2 * TAP];
      }
    }
  }

  lemma {:induction false} SteadyRead(s: Ring, audio: seq<seq<Sample>>, i: nat)
    requires Taps(audio) && Steady(s, audio, 3 * i + 3, i)
    ensures CodeDepth(s.w, s.r) == FRAME
    ensures Legal(CodeDepth, s, ReadBurst(FRAME))
    ensures Steady(Run(CodeDepth, s, ReadBurst(FRAME)), audio, 3 * i + 3, i + 1)
  {
    hide Run, Legal, CodeDepth, Flatten, Span;
    CodeDepthAhead(s.w, s.r);
    ReadBurstRuns(s, FRAME);
    SpanIsThreeTaps(s.buf, audio, 3 * i);
    assert TAP * (3 * i) == FRAME * i;
    ThreeMoreTaps(audio, 3 * i);
  }

  lemma {:induction false} RoundRuns(s: Ring, audio: seq<seq<Sample>>, i: nat)
    requires Taps(audio) && Steady(s, audio, 3 * i, i) && 3 * i + 3 <= 99
    ensures Legal(CodeDepth, s, Round(audio, i))
    ensures Steady(Run(CodeDepth, s, Round(audio, i)), audio, 3 * i + 3, i + 1)
  {
    hide Run, Legal, WriteBurst, ReadBurst, Steady, CodeDepth;
    assert Indexed(s) by { SteadyIndexed(s, audio, 3 * i, i); }
    var a, b, c := WriteBurst(audio[3 * i]), WriteBurst(audio[3 * i + 1]), WriteBurst(audio[3 * i + 2]);
    SteadyWrite(s, audio, 3 * i, i);
    var s1 := Run(CodeDepth, s, a);
    SteadyWrite(s1, audio, 3 * i + 1, i);
    RunConcat(CodeDepth, s, a, b);
    var s2 := Run(CodeDepth, s1, b);
    SteadyWrite(s2, audio, 3 * i + 2, i);
    RunConcat(CodeDepth, s, a + b, c);
    var s3 := Run(CodeDepth, s2, c);
    SteadyRead(s3, audio, i);
    RunConcat(CodeDepth, s, a + b + c, ReadBurst(FRAME));
  }

  lemma {:induction false} SteadyIndexed(s: Ring, audio: seq<seq<Sample>>, j: nat, i: nat)
    requires Taps(audio) && Steady(s, audio, j, i)
    ensures Indexed(s)
  {
  }

  lemma {:induction false} RoundsRun(buf: seq<Sample>, audio: seq<seq<Sample>>, k: nat)
    requires |buf| == N && Taps(audio) && k <= 33
    ensures Legal(CodeDepth, Initial(buf), Rounds(audio, k))
    ensures Steady(Run(CodeDepth, Initial(buf), Rounds(audio, k)), audio, 3 * k, k)
  {
    hide Round, Rounds, CodeDepth, Run, Legal, Steady;
    var s0 := Initial(buf);
    if k == 0 {
      NoRounds(s0, audio);
    } else {
      RoundsRun(buf, audio, k - 1);
      var s := Run(CodeDepth, s0, Rounds(audio, k - 1));
      RoundRuns(s, audio, k - 1);
      OneMoreRound(audio, k);
      RunConcat(CodeDepth, s0, Rounds(audio, k - 1), Round(audio, k - 1));
    }
  }

  lemma {:induction false} NoRounds(s0: Ring, audio: seq<seq<Sample>>)
    requires Taps(audio) && Indexed(s0) && s0 == Initial(s0.buf)
    ensures Rounds(audio, 0) == [] && Legal(CodeDepth, s0, []) && Run(CodeDepth, s0, []) == s0
    ensures Steady(s0, audio, 0, 0)
  {
    assert audio[..0] == [];
  }

  lemma {:induction false} OneMoreRound(audio: seq<seq<Sample>>, k: nat)
    requires Taps(audio) && 0 < k <= 33
    ensures Rounds(audio, k) == Rounds(audio, k - 1) + Round(audio, k - 1)
  {
  }

  /** The buffer during the late reader's loop: the newest tap has taken the place of the oldest. */
  predicate Wrapped(buf: seq<Sample>, audio: seq<seq<Sample>>)
    requires Taps(audio)
  {
    && |buf| == N && buf[..TAP] == audio[100] && buf[95040..] == audio[99]
    && forall k :: 1 <= k < 99 ==> buf[TAP * k..TAP * k + TAP] == audio[k]
  }

  function LateOutput(audio: seq<seq<Sample>>, j: nat): seq<Sample>
    requires Taps(audio) && j <= 8
  {
    if j == 0 then Flatten(audio[..99]) else Flatten(audio) + Flatten(audio[1..3 * j - 1])
  }

  /** The ring after `j` frames of the late reader's loop. */
  predicate Late(s: Ring, audio: seq<seq<Sample>>, j: nat)
    requires Taps(audio)
  {
    && j <= 8 && Indexed(s) && Wrapped(s.buf, audio)
    && s.w == TAP && s.r == (95040 + FRAME * j) % N && s.consumer.Waiting?
    && s.published == Flatten(audio) && s.taken == 95040 + FRAME * j && s.output == LateOutput(audio, j)
  }

  lemma {:induction false} WrappingWrites(s: Ring, audio: seq<seq<Sample>>)
    requires Taps(audio) && Steady(s, audio, 99, 33)
    ensures Legal(CodeDepth, s, WriteBurst(audio[99]))
    ensures var s2 := Run(CodeDepth, s, WriteBurst(audio[99]));
            && Legal(CodeDepth, s2, WriteBurst(audio[100]))
            && Late(Run(CodeDepth, s2, WriteBurst(audio[100])), audio, 0)
  {
    hide Run, Legal, Over, CodeDepth, Flatten;
    CodeDepthAhead(s.w, s.r);
    WriteBurstRuns(s, audio[99]);
    var s2 := Run(CodeDepth, s, WriteBurst(audio[99]));
    assert s2.w == 0 && RingDepth(s2.w, s2.r) == 960;
    CodeDepthIsTrueIffOrdered(s2.w, s2.r);
    WriteBurstRuns(s2, audio[100]);
    OneMoreTap(audio, 99);
    OneMoreTap(audio, 100);
    assert audio[..101] == audio;
    forall k | 1 <= k < 99
      ensures Over(s2.buf, 0, audio[100])[TAP * k..TAP * k + TAP] == audio[k]
    {
      OverElsewhere(s.buf, 95040, audio[99], TAP * k, TAP * k + TAP);
      OverElsewhere(s2.buf, 0, audio[100], TAP * k, TAP * k + TAP);
    }
    OverElsewhere(s.buf, 95040, audio[99], 0, 0);
    OverElsewhere(s2.buf, 0, audio[100], 95040, 96000);
  }

  /** What the code takes for the fill level during the late reader's loop. */
  lemma {:induction false} LateDepth(r: nat, j: nat)
    requires j <= 8 && r == (95040 + FRAME * j) % N
    ensures CodeDepth(TAP, r) == 25216 - FRAME * j
    ensures RingDepth(TAP, r) == if j == 0 then 1920 else 97920 - FRAME * j
  {
    assert r == if j == 0 then 95040 else FRAME * j - TAP;
    CodeDepthIsTrueIffOrdered(TAP, r);
  }

  /** A later frame of the loop takes three taps of two seconds ago. */
  lemma {:induction false} LaterSpan(buf: seq<Sample>, audio: seq<seq<Sample>>, j: nat)
    requires Taps(audio) && Wrapped(buf, audio) && 0 < j < 8
    ensures LateOutput(audio, j) + Span(buf, (95040 + FRAME * j) % N, FRAME) == LateOutput(audio, j + 1)
  {
    hide Flatten, Span;
    var k := 3 * j - 1;
    assert (95040 + FRAME * j) % N == TAP * k;
    SpanIsThreeTaps(buf, audio, k);
    ThreeMoreTaps(audio[1..], k - 1);
    assert audio[1..][..k - 1] == audio[1..k] && audio[1..][..k + 2] == audio[1..k + 3];
    var three := audio[k] + audio[k + 1] + audio[k + 2];
    assert Flatten(audio) + Flatten(audio[1..k]) + three == Flatten(audio) + (Flatten(audio[1..k]) + three);
  }

  lemma {:induction false} LateSpan(buf: seq<Sample>, audio: seq<seq<Sample>>, j: nat)
    requires Taps(audio) && Wrapped(buf, audio) && j < 8
    ensures LateOutput(audio, j) + Span(buf, (95040 + FRAME * j) % N, FRAME) == LateOutput(audio, j + 1)
  {
    hide Flatten, Span;
    if j == 0 {
      assert buf[TAP * 1..TAP * 1 + TAP] == audio[1];
      SpanAcrossTheEnd(buf, audio);
      FirstLateFrame(audio);
    } else {
      LaterSpan(buf, audio, j);
    }
  }

  lemma {:induction false} LateFrame(s: Ring, audio: seq<seq<Sample>>, j: nat)
    requires Taps(audio) && Late(s, audio, j) && j < 8
    ensures Legal(CodeDepth, s, ReadBurst(FRAME)) && Late(Run(CodeDepth, s, ReadBurst(FRAME)), audio, j + 1)
  {
    hide Run, Legal, CodeDepth, Flatten, Span, LateOutput, Wrapped;
    LateDepth(s.r, j);
    ReadBurstRuns(s, FRAME);
    NextLateIndex(j);
    LateSpan(s.buf, audio, j);
  }

  lemma {:induction false} NextLateIndex(j: nat)
    ensures ((95040 + FRAME * j) % N + FRAME) % N == (95040 + FRAME * (j + 1)) % N
  {
    SlotAfter(95040, FRAME * j, FRAME);
  }

  lemma {:induction false} FirstLateFrame(audio: seq<seq<Sample>>)
    requires Taps(audio)
    ensures Flatten(audio[..99]) + (audio[99] + audio[100] + audio[1]) == Flatten(audio) + Flatten(audio[1..2])
  {
    hide Flatten;
    OneMoreTap(audio, 99);
    OneMoreTap(audio, 100);
    OneMoreTap(audio[1..], 0);
    FlattenNothing();
    assert audio[..101] == audio && audio[1..][..1] == audio[1..2] && audio[1..][..0] == [];
    assert [] + audio[1] == audio[1];
    assert Flatten(audio[..99]) + (audio[99] + audio[100] + audio[1])
           == Flatten(audio[..99]) + audio[99] + audio[100] + audio[1];
  }

  lemma {:induction false} FlattenNothing()
    ensures Flatten([]) == []
  {
  }

  lemma {:induction false} SpanAcrossTheEnd(buf: seq<Sample>, audio: seq<seq<Sample>>)
    requires Taps(audio) && |buf| == N
    requires buf[..960] == audio[100] && buf[960..1920] == audio[1] && buf[95040..] == audio[99]
    ensures Span(buf, 95040, FRAME) == audio[99] + audio[100] + audio[1]
  {
    var span, taps := Span(buf, 95040, FRAME), audio[99] + audio[100] + audio[1];
    forall x | 0 <= x < FRAME
      ensures span[x] == taps[x]
    {
      if x < TAP {
        assert buf[95040..][x] == audio[99][x];
      } else if x < 2 * TAP {
        assert (95040 + x) % N == x - TAP && buf[..960][x - TAP] == audio[100][x - TAP];
      } else {
        assert (95040 + x) % N == x - TAP && buf[960..1920][x - 2 * TAP] == audio[1][x - 2 * TAP];
      }
    }
  }

  lemma {:induction false} LateFrames(s: Ring, audio: seq<seq<Sample>>, j: nat)
    requires Taps(audio) && Late(s, audio, 0) && j <= 8
    ensures Legal(CodeDepth, s, ReadBursts(j)) && Late(Run(CodeDepth, s, ReadBursts(j)), audio, j)
  {
    hide Run, Legal, ReadBurst, Late;
    assert Indexed(s) by { LateIndexed(s, audio, 0); }
    NoBursts(s);
    if j > 0 {
      LateFrames(s, audio, j - 1);
      LateFrame(Run(CodeDepth, s, ReadBursts(j - 1)), audio, j - 1);
      RunConcat(CodeDepth, s, ReadBursts(j - 1), ReadBurst(FRAME));
    }
  }

  lemma {:induction false} LateIndexed(s: Ring, audio: seq<seq<Sample>>, j: nat)
    requires Taps(audio) && Late(s, audio, j)
    ensures Indexed(s)
  {
  }

  lemma {:induction false} NoBursts(s: Ring)
    requires Indexed(s)
    ensures ReadBursts(0) == [] && Legal(CodeDepth, s, []) && Run(CodeDepth, s, []) == s
  {
  }

  lemma {:induction false} LoopTakesEight(j: nat)
    requires j <= 8
    ensures LoopReads(TAP, (95040 + FRAME * j) % N, 8 - j)
    decreases 8 - j
  {
    hide CodeDepth;
    LateDepth((95040 + FRAME * j) % N, j);
    if j < 8 {
      NextLateIndex(j);
      LoopTakesEight(j + 1);
    }
  }

  lemma {:induction false} FlattenLength(audio: seq<seq<Sample>>)
    requires forall k :: 0 <= k < |audio| ==> |audio[k]| == TAP
    ensures |Flatten(audio)| == TAP * |audio|
  {
    if audio != [] { FlattenLength(audio[..|audio| - 1]); }
  }

  lemma {:induction false} TwoLateRuns(buf: seq<Sample>, audio: seq<seq<Sample>>)
    requires |buf| == N && Taps(audio)
    ensures Legal(CodeDepth, Initial(buf), TwoLate(audio))
    ensures Late(Run(CodeDepth, Initial(buf), TwoLate(audio)), audio, 0)
  {
    hide Next, Enabled, Run, Legal, CodeDepth, WriteBurst, Flatten, Over, Rounds, Steady, Late;
    var s0 := Initial(buf);
    RoundsRun(buf, audio, 33);
    var s1 := Run(CodeDepth, s0, Rounds(audio, 33));
    WrappingWrites(s1, audio);
    RunConcat(CodeDepth, s0, Rounds(audio, 33), WriteBurst(audio[99]));
    RunConcat(CodeDepth, s0, Rounds(audio, 33) + WriteBurst(audio[99]), WriteBurst(audio[100]));
  }

  /**
   * The code's own sizes, its own guard and its own loop: with 1920 samples in the ring the depth reads
   * 25,216 and the look is unsafe. The loop takes eight frames: everything published comes out, and then 22
   * taps of two seconds ago again, 21,120 samples more than were ever published.
   */
  lemma {:induction false} LateReadReplays(buf: seq<Sample>, audio: seq<seq<Sample>>)
    requires |buf| == N && Taps(audio)
    ensures Legal(CodeDepth, Initial(buf), TwoLate(audio) + ReadBursts(8))
    ensures Legal(CodeDepth, Initial(buf), TwoLate(audio))
    ensures var s := Run(CodeDepth, Initial(buf), TwoLate(audio));
            && RingDepth(s.w, s.r) == 1920 && CodeDepth(s.w, s.r) == 25216
            && !SafeLook(CodeDepth, s, StartRead(FRAME)) && LoopReads(s.w, s.r, 8)
    ensures var q := Run(CodeDepth, Initial(buf), TwoLate(audio) + ReadBursts(8));
            && q.published == Flatten(audio) && q.output == Flatten(audio) + Flatten(audio[1..23])
            && q.taken == |q.published| + 22 * TAP && !Refines(q)
  {
    hide Next, Enabled, Run, Legal, CodeDepth, RingDepth, ReadBursts, Flatten, TwoLate, LoopReads;
    TwoLateRuns(buf, audio);
    var s := Run(CodeDepth, Initial(buf), TwoLate(audio));
    LateDepth(s.r, 0);
    LoopTakesEight(0);
    LateFrames(s, audio, 8);
    RunConcat(CodeDepth, Initial(buf), TwoLate(audio), ReadBursts(8));
    FlattenLength(audio);
  }
}
