/** How the editing keys of cli/linenoise.c go together: each removes, moves or inserts just what it says. */
module KeyLaws {
  import opened Utf8Standard
  import opened LineSpec

  // ---- Delete ----

  /** Delete is Right and then Backspace, exactly where Left takes Right back. */
  lemma {:induction false} DeleteIsRightBackspaceIff(room: nat, l: Line)
    requires Fits(room, l) && l.cursor < |l.text|
    ensures var over := Press(room, l, MoveRight);
            Sound(over) && (Press(room, over, Backspace) == Press(room, l, Delete) <==> LeftReturns(l.text, l.cursor))
  {
    hide Scalar, EncodeAll, ClusterStart, ClusterEnd, Joined, FlagPair;
    PressKeepsRoom(room, l, MoveRight);
    LeftUndoesRightIff(l.text, l.cursor);
  }

  /** Delete keeps what is left of the cursor, takes out the cluster right of it, and keeps the rest. */
  lemma {:induction false} DeleteTakesOne(room: nat, l: Line)
    requires Fits(room, l)
    ensures var q := Press(room, l, Delete);
            && q.cursor == l.cursor && q.text[..l.cursor] == l.text[..l.cursor]
            && q.text[l.cursor..] == l.text[Right(l.text, l.cursor)..]
  {
    hide Scalar, EncodeAll, ClusterEnd;
  }

  function Deletes(n: nat): (keys: seq<Key>)
    ensures |keys| == n && Typed(keys)
  {
    seq(n, _ => Delete)
  }

  /** Delete pressed often enough is Ctrl-K. */
  lemma {:induction false} DeletesAreKill(room: nat, l: Line, n: nat)
    requires Fits(room, l) && n >= |l.text| - l.cursor
    ensures PressAll(room, l, Deletes(n)) == Press(room, l, KillToEnd)
    decreases n
  {
    hide Scalar, EncodeAll, ClusterEnd;
    if n == 0 {
      assert l.text[..l.cursor] == l.text;
    } else {
      PressKeepsRoom(room, l, Delete);
      DeleteTakesOne(room, l);
      assert Deletes(n)[1..] == Deletes(n - 1);
      var q := Press(room, l, Delete);
      DeletesAreKill(room, q, n - 1);
      assert q.text[..l.cursor] == l.text[..l.cursor];
    }
  }

  // ---- Home, End and the kills ----

  /** Home and Ctrl-K are Ctrl-U. */
  lemma {:induction false} HomeKillIsKillLine(room: nat, l: Line)
    requires Fits(room, l)
    ensures var home := Press(room, l, Home); Sound(home) && Press(room, home, KillToEnd) == Press(room, l, KillLine)
  {
    assert l.text[..0] == [];
  }

  /** Ctrl-K keeps the cursor and what is left of it, and nothing else. */
  lemma {:induction false} KillKeepsLeft(room: nat, l: Line)
    requires Fits(room, l)
    ensures var q := Press(room, l, KillToEnd); q.text + l.text[l.cursor..] == l.text && q.cursor == l.cursor == |q.text|
  {
    hide Scalar, EncodeAll;
  }

  /** End goes where Right pressed often enough goes, and Home where Left does; neither changes the text. */
  lemma {:induction false} EndIsRights(room: nat, l: Line, n: nat)
    requires Fits(room, l) && n >= |l.text| - l.cursor
    ensures var keys := seq(n, _ => MoveRight);
            Typed(keys) && PressAll(room, l, keys) == Press(room, l, End) == Line(l.text, |l.text|)
    decreases n
  {
    hide Scalar, EncodeAll, ClusterEnd;
    var keys := seq(n, _ => MoveRight);
    if n > 0 {
      PressKeepsRoom(room, l, MoveRight);
      assert keys[1..] == seq(n - 1, _ => MoveRight);
      EndIsRights(room, Press(room, l, MoveRight), n - 1);
    }
  }

  lemma {:induction false} HomeIsLefts(room: nat, l: Line, n: nat)
    requires Fits(room, l) && n >= l.cursor
    ensures var keys := seq(n, _ => MoveLeft);
            Typed(keys) && PressAll(room, l, keys) == Press(room, l, Home) == Line(l.text, 0)
    decreases n
  {
    hide Scalar, EncodeAll, ClusterStart;
    var keys := seq(n, _ => MoveLeft);
    if n > 0 {
      PressKeepsRoom(room, l, MoveLeft);
      assert keys[1..] == seq(n - 1, _ => MoveLeft);
      HomeIsLefts(room, Press(room, l, MoveLeft), n - 1);
    }
  }

  // ---- Backspace and Ctrl-W ----

  /** Backspace is Left and then a cut of what Left went over. */
  lemma {:induction false} BackspaceTakesOne(room: nat, l: Line)
    requires Fits(room, l)
    ensures var q, left := Press(room, l, Backspace), Press(room, l, MoveLeft);
            && q.cursor == left.cursor && q.text[..q.cursor] == l.text[..left.cursor]
            && q.text[q.cursor..] == l.text[l.cursor..]
  {
    hide Scalar, EncodeAll, ClusterStart;
  }

  /** Ctrl-W goes to the start of the word and takes out what lies between. */
  lemma {:induction false} DeleteWordTakesAWord(room: nat, l: Line)
    requires Fits(room, l)
    ensures var q := Press(room, l, DeleteWord);
            && q.cursor == WordStart(l.text, l.cursor) && q.text[..q.cursor] == l.text[..q.cursor]
            && q.text[q.cursor..] == l.text[l.cursor..]
  {
    hide Scalar, EncodeAll, WordStart;
  }

  // ---- Ctrl-T ----

  /** Typing puts the characters in at the cursor, in order, and goes on behind them. */
  lemma {:induction false} TypingInserts(room: nat, before: seq<CodePoint>, xs: seq<CodePoint>, after: seq<CodePoint>)
    requires Scalars(before) && Scalars(xs) && Scalars(after)
    requires Size(before) + Size(xs) + Size(after) <= room
    ensures Fits(room, Line(before + after, |before|)) && Typed(Typing(xs))
    ensures PressAll(room, Line(before + after, |before|), Typing(xs)) == Line(before + xs + after, |before + xs|)
    decreases |xs|
  {
    hide Scalar, Encode, EncodeAll;
    EncodeAllAppends(before, after);
    if xs == [] {
      assert before + [] == before;
    } else {
      var c, rest := xs[0], xs[1..];
      assert xs == [c] + rest;
      EncodeAllAppends([c], rest);
      EncodeAllAppends(before, [c]);
      EncodeAllOne(c);
      TypingInserts(room, before + [c], rest, after);
      TypedOne(before, c, after);
      assert before + [c] + rest == before + xs;
      assert Typing(xs)[0] == Insert(c) && Typing(xs)[1..] == Typing(rest);
    }
  }

  lemma {:induction false} TypedOne(before: seq<CodePoint>, c: CodePoint, after: seq<CodePoint>)
    ensures var t := before + after; t[..|before|] + [c] + t[|before|..] == before + [c] + after
  {
    var t := before + after;
    assert t[..|before|] == before && t[|before|..] == after;
  }

  /** Where Left goes depends on what stands left of the cursor alone. */
  lemma {:induction false} LeftLooksLeft(a: seq<CodePoint>, b: seq<CodePoint>, k: nat)
    requires k < |a| && k < |b| && a[..k + 1] == b[..k + 1]
    ensures ClusterStart(a, k) == ClusterStart(b, k)
  {
    hide IsZwj, IsGraphemeExtend, IsRegionalIndicator;
    assert a[..k + 1][k] == b[..k + 1][k];
    if k > 0 {
      assert a[..k + 1][k - 1] == b[..k + 1][k - 1];
      assert a[..k] == a[..k + 1][..k] && b[..k] == b[..k + 1][..k];
      LeftLooksLeft(a, b, k - 1);
      if k > 1 {
        assert a[..k - 1] == a[..k][..k - 1] && b[..k - 1] == b[..k][..k - 1];
        LeftLooksLeft(a, b, k - 2);
      }
    }
  }

  /** Delete, Left, and the cluster right of the cursor typed again. */
  function Retype(l: Line): seq<Key>
    requires l.cursor <= |l.text|
  {
    [Delete] + ([MoveLeft] + Typing(l.text[l.cursor..Right(l.text, l.cursor)]))
  }

  /**
   * Ctrl-T is the same text as Delete, Left and typing the deleted cluster again: the right cluster comes to
   * stand before the left one. The cursor ends behind both.
   */
  lemma {:induction false} TransposeIsRetyping(room: nat, l: Line)
    requires Fits(room, l) && 0 < l.cursor < |l.text|
    ensures Typed(Retype(l)) && PressAll(room, l, Retype(l)).text == Press(room, l, Transpose).text
    ensures Press(room, l, Transpose).cursor == Right(l.text, l.cursor)
  {
    hide Scalar, Encode, EncodeAll, ClusterStart, ClusterEnd;
    var t, p := l.text, l.cursor;
    var a, e := Left(t, p), Right(t, p);
    var u, v, w, x := t[..a], t[a..p], t[p..e], t[e..];
    assert t == u + v + w + x;
    var keys := [MoveLeft] + Typing(w);
    assert Retype(l)[0] == Delete && Retype(l)[1..] == keys && keys[0] == MoveLeft && keys[1..] == Typing(w);
    PressKeepsRoom(room, l, Delete);
    var l1 := Press(room, l, Delete);
    assert l1 == Line(t[..p] + x, p) && t[..p] == u + v;
    LeftLooksLeft(t, l1.text, p - 1);
    PressKeepsRoom(room, l1, MoveLeft);
    assert Press(room, l1, MoveLeft) == Line(u + (v + x), a);
    FourSizes(u, v, w, x);
    TypingInserts(room, u, w, v + x);
    assert u + w + (v + x) == u + w + v + x;
  }

  lemma {:induction false} FourSizes(u: seq<CodePoint>, v: seq<CodePoint>, w: seq<CodePoint>, x: seq<CodePoint>)
    requires Scalars(u + v + w + x)
    ensures Scalars(u) && Scalars(w) && Scalars(v + x)
    ensures Size(u) + Size(w) + Size(v + x) == Size(u + v + w + x)
  {
    hide Scalar, Encode, EncodeAll;
    var t := u + v + w + x;
    assert t[..|u|] == u && t[|u|..|u + v|] == v && t[|u + v|..|u + v + w|] == w && t[|u + v + w|..] == x;
    EncodeAllAppends(u, v);
    EncodeAllAppends(u + v, w);
    EncodeAllAppends(u + v + w, x);
    EncodeAllAppends(v, x);
  }
}
