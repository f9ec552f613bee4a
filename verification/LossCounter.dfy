/** The per-window loss estimate of modules/mod_link.c on 16-bit RTP sequence numbers. */
module LossSpec {
  import opened JitterSpec

  const JUMP_CAP: int := 200

  datatype Quality = Quality(have: bool, last: nat, lost: nat, received: nat)

  /** One audio packet. */
  function Track(q: Quality, number: nat): Quality {
    if !q.have then Quality(true, number, q.lost, q.received + 1)
    else
      var d := Delta(number, q.last);
      if d > 0 then
        Quality(true, number, q.lost + (if d < JUMP_CAP then d - 1 else 0), q.received + 1)
      else if d == 0 then q
      else if d > -JUMP_CAP && q.lost > 0 then q.(lost := q.lost - 1, received := q.received + 1)
      else q.(received := q.received + 1)
  }

  function TrackAll(q: Quality, numbers: seq<nat>): Quality {
    if numbers == [] then q
    else Track(TrackAll(q, numbers[..|numbers| - 1]), numbers[|numbers| - 1])
  }

  /** The sender's packets are numbered without bound; `Wire` is what 16 bits show, from `base` on. */
  function Wire(base: nat, x: int): (r: nat)
    ensures r < 0x1_0000
  {
    (base + x) % 0x1_0000
  }

  function WireAll(base: nat, xs: seq<int>): (r: seq<nat>)
    ensures |r| == |xs|
  {
    seq(|xs|, i requires 0 <= i < |xs| => Wire(base, xs[i]))
  }

  /** The newest packet so far; the base itself counts as 0. */
  function Top(xs: seq<int>): (m: int)
    ensures m >= 0 && forall i :: 0 <= i < |xs| ==> xs[i] <= m
  {
    if xs == [] then 0
    else
      var m, x := Top(xs[..|xs| - 1]), xs[|xs| - 1];
      if x > m then x else m
  }

  predicate Distinct(xs: seq<int>) {
    forall i, j :: 0 <= i < j < |xs| ==> xs[i] != xs[j]
  }

  /** Each arrival is newer than the base and within 199 of the newest before it. */
  predicate Near(xs: seq<int>) {
    forall i :: 0 <= i < |xs| ==> xs[i] >= 1 && -JUMP_CAP < xs[i] - Top(xs[..i]) < JUMP_CAP
  }

  /** 1, 2, .., m. */
  ghost function UpTo(m: nat): (r: set<int>)
    ensures |r| == m && forall n :: n in r <==> 1 <= n <= m
  {
    if m == 0 then {} else UpTo(m - 1) + {m}
  }

  /** The packets between the base and the newest that have not arrived. */
  ghost function Missing(xs: seq<int>): set<int> {
    set n | n in UpTo(Top(xs)) && n !in xs
  }

  lemma {:induction false} SeenSize(xs: seq<int>)
    requires Distinct(xs)
    ensures |set x | x in xs| == |xs|
  {
    if xs != [] {
      var init, last := xs[..|xs| - 1], xs[|xs| - 1];
      SeenSize(init);
      assert (set x | x in xs) == (set x | x in init) + {last};
    }
  }

  /** Distinct arrivals leave exactly Top - count packets missing. */
  lemma {:induction false} MissingSize(xs: seq<int>)
    requires Distinct(xs) && forall i :: 0 <= i < |xs| ==> xs[i] >= 1
    ensures |Missing(xs)| == Top(xs) - |xs|
  {
    SeenSize(xs);
    var all, seen := UpTo(Top(xs)), set x | x in xs;
    assert seen <= all && Missing(xs) == all - seen;
    assert all == seen + (all - seen);
  }

  lemma {:induction false} DeltaOfWires(base: nat, x: int, m: int)
    requires -0x8000 <= x - m < 0x8000
    ensures Delta(Wire(base, x), Wire(base, m)) == x - m
  {
  }

  /** The tracker in a window that opened with `base` the newest packet seen. */
  predicate Tracks(q: Quality, base: nat, xs: seq<int>) {
    q.have && q.last == Wire(base, Top(xs)) && q.lost == Top(xs) - |xs| && q.received == |xs|
  }

  /** An arrival older than the newest fills one of the gaps, so there is one to fill. */
  lemma {:induction false} StaleFillsAGap(xs: seq<int>, x: int)
    requires Distinct(xs + [x]) && (forall i :: 0 <= i < |xs| ==> xs[i] >= 1) && 1 <= x < Top(xs)
    ensures Top(xs) - |xs| > 0
  {
    var ys := xs + [x];
    assert forall i :: 0 <= i < |xs| ==> xs[i] == ys[i];
    NotSeen(xs, x);
    MissingSize(xs);
    assert x in Missing(xs);
  }

  lemma {:induction false} NearLast(xs: seq<int>, x: int)
    requires Near(xs + [x])
    ensures x >= 1 && -JUMP_CAP < x - Top(xs) < JUMP_CAP
    ensures forall i :: 0 <= i < |xs| ==> xs[i] >= 1
  {
    var ys := xs + [x];
    assert ys[..|xs|] == xs && ys[|xs|] == x;
    assert forall i :: 0 <= i < |xs| ==> xs[i] == ys[i];
  }

  lemma {:induction false} TopGrows(xs: seq<int>, x: int)
    ensures Top(xs + [x]) == if x > Top(xs) then x else Top(xs)
  {
    assert (xs + [x])[..|xs|] == xs;
  }

  lemma {:induction false} TrackNear(q: Quality, base: nat, xs: seq<int>, x: int)
    requires Distinct(xs + [x]) && Near(xs + [x]) && Tracks(q, base, xs)
    ensures Tracks(Track(q, Wire(base, x)), base, xs + [x])
  {
    hide Wire, Delta, Distinct, Near, Top;
    NearLast(xs, x);
    TopGrows(xs, x);
    DeltaOfWires(base, x, Top(xs));
    NotSeen(xs, x);
    TopIsSeen(xs);
    if x < Top(xs) { StaleFillsAGap(xs, x); }
  }

  lemma {:induction false} NotSeen(xs: seq<int>, x: int)
    requires Distinct(xs + [x])
    ensures x !in xs
  {
    var ys := xs + [x];
    forall i | 0 <= i < |xs|
      ensures xs[i] != x
    {
      assert ys[i] != ys[|xs|];
    }
  }

  lemma {:induction false} TopIsSeen(xs: seq<int>)
    ensures Top(xs) == 0 || Top(xs) in xs
  {
    if xs != [] {
      TopIsSeen(xs[..|xs| - 1]);
    }
  }

  lemma {:induction false} TrackWindow(q: Quality, base: nat, xs: seq<int>)
    requires q == Quality(true, Wire(base, 0), 0, 0) && Distinct(xs) && Near(xs)
    ensures Tracks(TrackAll(q, WireAll(base, xs)), base, xs)
  {
    hide Wire, Track, Distinct, Near;
    if xs != [] {
      var init, x := xs[..|xs| - 1], xs[|xs| - 1];
      assert init + [x] == xs;
      PrefixIsNear(xs);
      TrackWindow(q, base, init);
      TrackNear(TrackAll(q, WireAll(base, init)), base, init, x);
      assert WireAll(base, xs)[..|init|] == WireAll(base, init);
    }
  }

  lemma {:induction false} PrefixIsNear(xs: seq<int>)
    requires Distinct(xs) && Near(xs) && xs != []
    ensures Distinct(xs[..|xs| - 1]) && Near(xs[..|xs| - 1])
  {
    var init := xs[..|xs| - 1];
    assert forall i :: 0 <= i < |init| ==> init[i] == xs[i] && init[..i] == xs[..i];
  }

  /**
   * Under any reordering, and across the 16-bit wrap, a window of distinct arrivals that are newer than
   * its base and within 199 of the newest is counted exactly: `lost` is the number missing.
   */
  lemma {:induction false} LossIsExact(base: nat, xs: seq<int>)
    requires base < 0x1_0000 && Distinct(xs) && Near(xs)
    ensures var q := TrackAll(Quality(true, base, 0, 0), WireAll(base, xs));
            q.lost == |Missing(xs)| && q.received == |xs| && q.last == Wire(base, Top(xs))
  {
    hide Wire, WireAll, TrackAll, Top, Missing, Distinct, Near;
    NearIsNew(base, xs);
    TrackWindow(Quality(true, base, 0, 0), base, xs);
    MissingSize(xs);
  }

  lemma {:induction false} NearIsNew(base: nat, xs: seq<int>)
    requires base < 0x1_0000 && Near(xs)
    ensures Wire(base, 0) == base && forall i :: 0 <= i < |xs| ==> xs[i] >= 1
  {
  }

  /** The first window has no base: its first packet becomes one, and counts as received. */
  lemma {:induction false} FirstWindowIsExact(base: nat, xs: seq<int>)
    requires base < 0x1_0000 && Distinct(xs) && Near(xs)
    ensures var q := TrackAll(Quality(false, 0, 0, 0), [base] + WireAll(base, xs));
            q.lost == |Missing(xs)| && q.received == |xs| + 1 && q.last == Wire(base, Top(xs))
  {
    var wires := WireAll(base, xs);
    TrackAllConcat(Quality(false, 0, 0, 0), [base], wires);
    assert [base][..0] == [];
    assert TrackAll(Quality(false, 0, 0, 0), [base]) == Quality(true, base, 0, 1);
    ReceivedShifts(Quality(true, base, 0, 0), wires, 1);
    LossIsExact(base, xs);
  }

  lemma {:induction false} TrackAllConcat(q: Quality, a: seq<nat>, b: seq<nat>)
    ensures TrackAll(q, a + b) == TrackAll(TrackAll(q, a), b)
  {
    if b == [] {
      assert a + b == a;
    } else {
      TrackAllConcat(q, a, b[..|b| - 1]);
      assert (a + b)[..|a + b| - 1] == a + b[..|b| - 1];
    }
  }

  lemma {:induction false} ReceivedShifts(q: Quality, numbers: seq<nat>, k: nat)
    requires q.have
    ensures TrackAll(q, numbers).have
    ensures TrackAll(q.(received := q.received + k), numbers)
         == TrackAll(q, numbers).(received := TrackAll(q, numbers).received + k)
  {
    hide Delta;
    if numbers != [] {
      ReceivedShifts(q, numbers[..|numbers| - 1], k);
    }
  }

  /**
   * A packet older than the window's base was charged to an earlier window, yet it is credited to this
   * one: the count stays exact precisely when nothing was missing.
   */
  lemma {:induction false} StaleArrivalExactIffNothingMissing(q: Quality, base: nat, xs: seq<int>, x: int)
    requires base < 0x1_0000 && Distinct(xs) && Near(xs) && Tracks(q, base, xs)
    requires x <= 0 && -JUMP_CAP < x - Top(xs) < 0
    ensures Track(q, Wire(base, x)).lost == |Missing(xs)| <==> Missing(xs) == {}
  {
    MissingSize(xs);
    DeltaOfWires(base, x, Top(xs));
  }

  /**
   * A window that opens at 1000 and misses 1001 and 1002, into which 999 comes from the window before: one
   * packet is reported lost where two are.
   */
  lemma {:induction false} StaleArrivalHidesALoss()
    ensures TrackAll(Quality(true, 1000, 0, 0), [1003, 999]) == Quality(true, 1003, 1, 2)
    ensures Missing([3]) == {1, 2} && WireAll(1000, [3]) == [1003]
  {
    assert [1003, 999][..1] == [1003] && [1003][..0] == [];
    assert Delta(1003, 1000) == 3 && Delta(999, 1003) == -4;
    assert [3][..0] == [] && Top([3]) == 3;
    forall n | n in Missing([3]) ensures n in {1, 2} { assert n != [3][0]; }
    forall n | n in {1, 2} ensures n in Missing([3]) { }
  }

  /**
   * What a packet outside the window's reach does: a duplicate of the newest nothing, one 200 or more ahead
   * counts as received and becomes the newest with no loss, one 200 or more behind counts as received only.
   */
  lemma {:induction false} OutOfReach(q: Quality, base: nat, newest: int, x: int)
    requires q.have && q.last == Wire(base, newest) && -0x8000 <= x - newest < 0x8000
    ensures x == newest ==> Track(q, Wire(base, x)) == q
    ensures x >= newest + 200 ==> Track(q, Wire(base, x)) == q.(last := Wire(base, x), received := q.received + 1)
    ensures x <= newest - 200 ==> Track(q, Wire(base, x)) == q.(received := q.received + 1)
  {
    DeltaOfWires(base, x, newest);
    hide Delta;
  }

  /** The loss in tenths of a percent, as reported. */
  function LossPermille(q: Quality): nat {
    if q.received + q.lost > 0 then q.lost * 1000 / (q.received + q.lost) else 0
  }

  /** The figure reported is the share of the packets lost, in thousandths, rounded down. */
  lemma {:induction false} PermilleIsTheShare(q: Quality)
    requires q.received + q.lost > 0
    ensures var n := q.received + q.lost;
            LossPermille(q) * n <= 1000 * q.lost < (LossPermille(q) + 1) * n && LossPermille(q) <= 1000
  {
    Share(1000 * q.lost, q.received + q.lost, 1000);
  }

  lemma {:induction false} Share(l: nat, n: nat, most: nat)
    requires n > 0 && l <= most * n
    ensures (l / n) * n <= l < (l / n + 1) * n && l / n <= most
  {
    var d := l / n;
    assert l == n * d + l % n;
  }
}

module LossCounter {
  import opened JitterSpec
  import opened LossSpec

  class Tracker {
    var haveSeq: bool
    var lastSeq: nat
    var lost: nat
    var received: nat

    ghost function View(): Quality
      reads this
    {
      Quality(haveSeq, lastSeq, lost, received)
    }

    constructor ()
      ensures View() == Quality(false, 0, 0, 0)
    {
      haveSeq, lastSeq, lost, received := false, 0, 0, 0;
    }

    method QualityTrackSeq(number: nat)
      requires number < 0x1_0000
      modifies this
      ensures View() == Track(old(View()), number)
      ensures forall base: nat, xs: seq<int>, x: int ::
                Tracks(old(View()), base, xs) && number == Wire(base, x) && Distinct(xs + [x]) && Near(xs + [x]) ==>
                  Tracks(View(), base, xs + [x])
    {
      ghost var q := View();
      forall base: nat, xs: seq<int>, x: int
        | Tracks(q, base, xs) && number == Wire(base, x) && Distinct(xs + [x]) && Near(xs + [x])
        ensures Tracks(Track(q, number), base, xs + [x])
      {
        TrackNear(q, base, xs, x);
      }
      hide Tracks, Near, Distinct, Wire;
      if !haveSeq {
        haveSeq := true;
        lastSeq := number;
        received := received + 1;
        return;
      }
      var delta := Delta(number, lastSeq);
      if delta > 0 {
        if delta < 200 {
          lost := lost + (delta - 1);
        }
        lastSeq := number;
      } else if delta < 0 && delta > -200 {
        if lost > 0 {
          lost := lost - 1;
        }
      }
      if delta != 0 {
        received := received + 1;
      }
    }

    /** With a session up, closes the window; a report goes out only for 30 packets or more. */
    method SendQualityReport(session: bool) returns (sent: bool, lossPermille: nat)
      modifies this
      ensures View() == if session then old(View()).(lost := 0, received := 0) else old(View())
      ensures sent <==> session && old(received + lost) >= 30
      ensures session ==> lossPermille == LossPermille(old(View()))
    {
      if !session {
        return false, 0;
      }
      var l, r := lost, received;
      lost := 0;
      received := 0;
      var total := r + l;
      lossPermille := if total > 0 then l * 1000 / total else 0;
      sent := total >= 30;
    }
  }
}
