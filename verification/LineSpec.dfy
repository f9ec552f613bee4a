/**
 * Line editing of cli/linenoise.c on code points: what a grapheme cluster is, and what each key does to
 * the text and to the cursor. Positions count code points.
 */
module LineSpec {
  import opened Utf8Standard

  predicate IsVariationSelector(c: CodePoint) {
    c == 0xFE0E || c == 0xFE0F
  }

  predicate IsSkinToneModifier(c: CodePoint) {
    0x1F3FB <= c <= 0x1F3FF
  }

  predicate IsZwj(c: CodePoint) {
    c == 0x200D
  }

  predicate IsRegionalIndicator(c: CodePoint) {
    0x1F1E6 <= c <= 0x1F1FF
  }

  predicate IsCombiningMark(c: CodePoint) {
    || 0x0300 <= c <= 0x036F
    || 0x1AB0 <= c <= 0x1AFF
    || 0x1DC0 <= c <= 0x1DFF
    || 0x20D0 <= c <= 0x20FF
    || 0xFE20 <= c <= 0xFE2F
  }

  predicate IsGraphemeExtend(c: CodePoint) {
    IsVariationSelector(c) || IsSkinToneModifier(c) || IsZwj(c) || IsCombiningMark(c)
  }

  /** Where the cluster holding code point `k` starts, walking left. */
  function ClusterStart(text: seq<CodePoint>, k: nat): (s: nat)
    requires k < |text|
    ensures s <= k
  {
    if k == 0 then 0
    else if IsZwj(text[k - 1]) then if k == 1 then 0 else ClusterStart(text, k - 2)
    else if IsGraphemeExtend(text[k]) then ClusterStart(text, k - 1)
    else if IsRegionalIndicator(text[k]) && IsRegionalIndicator(text[k - 1]) then k - 1
    else k
  }

  /** Where the cluster that includes everything before `k` ends, walking right. */
  function ClusterEnd(text: seq<CodePoint>, k: nat, half: bool): (e: nat)
    requires k <= |text|
    ensures k <= e <= |text|
    decreases |text| - k
  {
    if k == |text| then k
    else if IsZwj(text[k]) && k + 1 < |text| then ClusterEnd(text, k + 2, half)
    else if IsGraphemeExtend(text[k]) then ClusterEnd(text, k + 1, half)
    else if half && IsRegionalIndicator(text[k]) then ClusterEnd(text, k + 1, false)
    else k
  }

  /** The cursor after moving left over one cluster, and after moving right. */
  function Left(text: seq<CodePoint>, cursor: nat): (s: nat)
    requires cursor <= |text|
    ensures s <= cursor && (cursor > 0 ==> s < cursor)
  {
    if cursor == 0 then 0 else ClusterStart(text, cursor - 1)
  }

  function Right(text: seq<CodePoint>, cursor: nat): (e: nat)
    requires cursor <= |text|
    ensures cursor <= e <= |text| && (cursor < |text| ==> cursor < e)
  {
    if cursor == |text| then cursor else ClusterEnd(text, cursor + 1, IsRegionalIndicator(text[cursor]))
  }

  const SPACE: CodePoint := 0x20

  /** Walks left over clusters that end in a space, or over those that do not. */
  function SkipWhile(text: seq<CodePoint>, cursor: nat, spaces: bool): (s: nat)
    requires cursor <= |text|
    ensures s <= cursor
    ensures s == 0 || (text[s - 1] == SPACE) != spaces
    decreases cursor
  {
    if cursor == 0 || (text[cursor - 1] == SPACE) != spaces then cursor
    else SkipWhile(text, Left(text, cursor), spaces)
  }

  function WordStart(text: seq<CodePoint>, cursor: nat): (s: nat)
    requires cursor <= |text|
    ensures s <= cursor
  {
    SkipWhile(text, SkipWhile(text, cursor, true), false)
  }

  datatype Line = Line(text: seq<CodePoint>, cursor: nat)

  datatype Key =
    | Insert(c: CodePoint) | MoveLeft | MoveRight | Home | End | Delete | Backspace
    | DeleteWord | KillLine | KillToEnd | Transpose

  predicate Sound(l: Line) {
    Scalars(l.text) && l.cursor <= |l.text|
  }

  function Size(text: seq<CodePoint>): nat
    requires Scalars(text)
  {
    |EncodeAll(text)|
  }

  /** The text with `text[from..to]` taken out. */
  function Cut(text: seq<CodePoint>, from: nat, to: nat): seq<CodePoint>
    requires from <= to <= |text|
  {
    text[..from] + text[to..]
  }

  /** The two neighbouring pieces of the text change places. */
  function Swapped(text: seq<CodePoint>, a: nat, b: nat, c: nat): seq<CodePoint>
    requires a <= b <= c <= |text|
  {
    text[..a] + text[b..c] + text[a..b] + text[c..]
  }

  /** `room` is the number of bytes a line may take. */
  function Press(room: nat, l: Line, key: Key): Line
    requires Sound(l) && (key.Insert? ==> Scalar(key.c))
  {
    var t, p := l.text, l.cursor;
    match key
    case Insert(c) =>
      if Size(t) + |Encode(c)| <= room then Line(t[..p] + [c] + t[p..], p + 1) else l
    case MoveLeft => Line(t, Left(t, p))
    case MoveRight => Line(t, Right(t, p))
    case Home => Line(t, 0)
    case End => Line(t, |t|)
    case Delete => Line(Cut(t, p, Right(t, p)), p)
    case Backspace => Line(Cut(t, Left(t, p), p), Left(t, p))
    case DeleteWord => Line(Cut(t, WordStart(t, p), p), WordStart(t, p))
    case KillLine => Line([], 0)
    case KillToEnd => Line(t[..p], p)
    case Transpose =>
      if 0 < p < |t| then Line(Swapped(t, Left(t, p), p, Right(t, p)), Right(t, p)) else l
  }

  predicate Fits(room: nat, l: Line) {
    Sound(l) && Size(l.text) <= room
  }

  predicate Typed(keys: seq<Key>) {
    forall i :: 0 <= i < |keys| && keys[i].Insert? ==> Scalar(keys[i].c)
  }

  /** All the keys, in order. */
  function PressAll(room: nat, l: Line, keys: seq<Key>): Line
    requires Fits(room, l) && Typed(keys)
    decreases |keys|
  {
    if keys == [] then l
    else
      PressKeepsRoom(room, l, keys[0]);
      PressAll(room, Press(room, l, keys[0]), keys[1..])
  }

  lemma {:induction false} CutShrinks(text: seq<CodePoint>, from: nat, to: nat)
    requires Scalars(text) && from <= to <= |text|
    ensures Scalars(Cut(text, from, to))
    ensures Size(Cut(text, from, to)) + Size(text[from..to]) == Size(text)
  {
    hide Scalar, Encode, EncodeAll;
    EncodeAllSplits(text, from);
    assert text[from..][..to - from] == text[from..to] && text[from..][to - from..] == text[to..];
    EncodeAllSplits(text[from..], to - from);
    EncodeAllAppends(text[..from], text[to..]);
  }

  lemma {:induction false} SwapKeepsSize(text: seq<CodePoint>, a: nat, b: nat, c: nat)
    requires Scalars(text) && a <= b <= c <= |text|
    ensures Scalars(Swapped(text, a, b, c))
    ensures Size(Swapped(text, a, b, c)) == Size(text)
    ensures multiset(Swapped(text, a, b, c)) == multiset(text)
  {
    hide Scalar, Encode, EncodeAll;
    var u, v, w, x := text[..a], text[a..b], text[b..c], text[c..];
    assert text == u + v + w + x;
    EncodeAllAppends(u, v);
    EncodeAllAppends(u + v, w);
    EncodeAllAppends(u + v + w, x);
    EncodeAllAppends(u, w);
    EncodeAllAppends(u + w, v);
    EncodeAllAppends(u + w + v, x);
  }

  lemma {:induction false} InsertGrows(text: seq<CodePoint>, p: nat, c: CodePoint)
    requires Scalars(text) && p <= |text| && Scalar(c)
    ensures Scalars(text[..p] + [c] + text[p..])
    ensures Size(text[..p] + [c] + text[p..]) == Size(text) + |Encode(c)|
  {
    hide Scalar, Encode, EncodeAll;
    EncodeAllSplits(text, p);
    EncodeAllOne(c);
    EncodeAllAppends(text[..p], [c]);
    EncodeAllAppends(text[..p] + [c], text[p..]);
  }

  /** Every key keeps the text encodable, the cursor inside it and the bytes within the buffer. */
  lemma {:induction false} PressKeepsRoom(room: nat, l: Line, key: Key)
    requires Fits(room, l) && (key.Insert? ==> Scalar(key.c))
    ensures Fits(room, Press(room, l, key))
  {
    hide Scalar, Encode, EncodeAll, ClusterStart, ClusterEnd, SkipWhile;
    var t, p := l.text, l.cursor;
    match key
    case Insert(c) => InsertGrows(t, p, c);
    case Delete => CutShrinks(t, p, Right(t, p));
    case Backspace => CutShrinks(t, Left(t, p), p);
    case DeleteWord => CutShrinks(t, WordStart(t, p), p);
    case KillLine => CutShrinks(t, 0, |t|); assert Cut(t, 0, |t|) == [];
    case KillToEnd => CutShrinks(t, p, |t|); assert Cut(t, p, |t|) == t[..p];
    case Transpose => if 0 < p < |t| { SwapKeepsSize(t, Left(t, p), p, Right(t, p)); }
    case _ =>
  }

  lemma {:induction false} RunKeepsRoom(room: nat, l: Line, keys: seq<Key>)
    requires Fits(room, l) && Typed(keys)
    ensures Fits(room, PressAll(room, l, keys))
    decreases |keys|
  {
    hide Press, Scalar, EncodeAll;
    if keys != [] {
      PressKeepsRoom(room, l, keys[0]);
      RunKeepsRoom(room, Press(room, l, keys[0]), keys[1..]);
    }
  }

  /** The walk left goes on past `k`. */
  predicate Joined(text: seq<CodePoint>, k: nat)
    requires 0 < k < |text|
  {
    IsZwj(text[k - 1]) || IsGraphemeExtend(text[k])
  }

  predicate FlagPair(text: seq<CodePoint>, k: nat)
    requires 0 < k < |text|
  {
    IsRegionalIndicator(text[k - 1]) && IsRegionalIndicator(text[k])
  }

  /** A code point that neither extends a cluster nor pairs up. */
  predicate Plain(c: CodePoint) {
    !IsGraphemeExtend(c) && !IsRegionalIndicator(c)
  }

  /** A character typed at the cursor is taken back by Backspace exactly when it starts a cluster there. */
  lemma {:induction false} BackspaceUndoesInsertIff(room: nat, l: Line, c: CodePoint)
    requires Fits(room, l) && Scalar(c) && Size(l.text) + |Encode(c)| <= room
    ensures var typed := Press(room, l, Insert(c));
            Fits(room, typed)
            && (Press(room, typed, Backspace) == l
                <==> l.cursor == 0 || (!Joined(typed.text, l.cursor) && !FlagPair(typed.text, l.cursor)))
  {
    hide Scalar, Encode, EncodeAll, IsZwj, IsGraphemeExtend, IsRegionalIndicator;
    PressKeepsRoom(room, l, Insert(c));
    var p, typed := l.cursor, Press(room, l, Insert(c));
    var t := typed.text;
    assert t[..p] == l.text[..p] && t[p + 1..] == l.text[p..];
    assert Cut(t, p, p + 1) == l.text;
    if p > 0 {
      assert Left(t, p + 1) == p <==> !Joined(t, p) && !FlagPair(t, p);
    }
  }

  lemma {:induction false} WalkLeft(text: seq<CodePoint>, lo: nat, k: nat)
    requires lo <= k < |text|
    requires forall j :: lo < j <= k ==> Joined(text, j)
    ensures ClusterStart(text, k) == ClusterStart(text, lo) || (0 < lo && IsGraphemeExtend(text[lo]) && ClusterStart(text, k) < lo)
  {
    hide IsRegionalIndicator, IsVariationSelector, IsSkinToneModifier, IsCombiningMark, IsZwj;
    if lo < k {
      assert Joined(text, k);
      if IsZwj(text[k - 1]) {
        if k >= lo + 2 { WalkLeft(text, lo, k - 2); }
      } else {
        WalkLeft(text, lo, k - 1);
      }
    }
  }

  /** What the walk right takes in is joined to what stands before it, but for one second half of a flag. */
  lemma {:induction false} WalkRight(text: seq<CodePoint>, k: nat, half: bool)
    requires 0 < k <= |text|
    ensures forall j :: k <= j < ClusterEnd(text, k, half) ==> Joined(text, j) || (half && IsRegionalIndicator(text[j]))
    ensures forall i, j :: k <= i < j < ClusterEnd(text, k, half) ==> Joined(text, i) || Joined(text, j)
    decreases |text| - k
  {
    hide IsRegionalIndicator, IsVariationSelector, IsSkinToneModifier, IsCombiningMark, IsZwj;
    if k < |text| {
      if IsZwj(text[k]) && k + 1 < |text| {
        WalkRight(text, k + 2, half);
        assert Joined(text, k) && Joined(text, k + 1);
      } else if IsGraphemeExtend(text[k]) {
        WalkRight(text, k + 1, half);
        assert Joined(text, k);
      } else if half && IsRegionalIndicator(text[k]) {
        WalkRight(text, k + 1, false);
      }
    }
  }

  lemma {:induction false} RegionalIndicatorsStandAlone(c: CodePoint)
    requires IsRegionalIndicator(c)
    ensures !IsGraphemeExtend(c) && !IsZwj(c)
  {
  }

  /** Everything up to `e` is joined on: what stands before `p` decides. */
  lemma {:induction false} LeftOverJoined(text: seq<CodePoint>, p: nat, e: nat)
    requires p < e <= |text| && forall j :: p < j < e ==> Joined(text, j)
    ensures Left(text, e) == p <==> p == 0 || (!Joined(text, p) && !FlagPair(text, p))
  {
    hide IsRegionalIndicator, IsZwj, IsGraphemeExtend;
    WalkLeft(text, p, e - 1);
  }

  /** The one place not joined on is the second half of a flag: it has to touch the first. */
  lemma {:induction false} LeftOverHalf(text: seq<CodePoint>, p: nat, k: nat, e: nat)
    requires p < k < e <= |text| && IsRegionalIndicator(text[p]) && IsRegionalIndicator(text[k])
    requires !Joined(text, k) && forall j :: k < j < e ==> Joined(text, j)
    ensures Left(text, e) == p <==> k == p + 1
  {
    hide IsRegionalIndicator, IsZwj, IsGraphemeExtend;
    RegionalIndicatorsStandAlone(text[k]);
    WalkLeft(text, k, e - 1);
  }

  /**
   * The cluster right of `p` is a flag whose halves touch, or nothing before `p` reaches into it; and in
   * either case no stray half of a flag lies further on in it.
   */
  predicate LeftReturns(text: seq<CodePoint>, p: nat)
    requires p < |text|
  {
    var e := Right(text, p);
    && (forall j :: p + 1 < j < e ==> Joined(text, j))
    && ( || p == 0
         || (p + 1 < e && !Joined(text, p + 1))
         || (!Joined(text, p) && !FlagPair(text, p)))
  }

  /** Left takes back Right exactly then. */
  lemma {:induction false} LeftUndoesRightIff(text: seq<CodePoint>, p: nat)
    requires p < |text|
    ensures Left(text, Right(text, p)) == p <==> LeftReturns(text, p)
  {
    hide IsRegionalIndicator, IsVariationSelector, IsSkinToneModifier, IsCombiningMark, IsZwj, IsGraphemeExtend;
    hide ClusterEnd, Left, Joined, FlagPair;
    var e, half := Right(text, p), IsRegionalIndicator(text[p]);
    WalkRight(text, p + 1, half);
    if k :| p < k < e && !Joined(text, k) {
      assert half && IsRegionalIndicator(text[k]);
      LeftOverHalf(text, p, k, e);
    } else {
      LeftOverJoined(text, p, e);
    }
  }

  /** Half a flag, an accent, half a flag: Right takes all three, Left takes back only the last. */
  lemma {:induction false} LeftStopsShort()
    ensures var text := [0x1F1E6, 0x301, 0x1F1E7]; Right(text, 0) == 3 && Left(text, 3) == 2
  {
    var text: seq<CodePoint> := [0x1F1E6, 0x301, 0x1F1E7];
    assert ClusterEnd(text, 3, false) == 3;
    assert ClusterEnd(text, 2, true) == 3;
  }

  lemma {:induction false} PlainSkip(text: seq<CodePoint>, cursor: nat, spaces: bool)
    requires cursor <= |text| && forall i :: 0 <= i < cursor ==> Plain(text[i])
    ensures forall i :: SkipWhile(text, cursor, spaces) <= i < cursor ==> (text[i] == SPACE) == spaces
    decreases cursor
  {
    hide IsRegionalIndicator, IsGraphemeExtend;
    if cursor > 0 && (text[cursor - 1] == SPACE) == spaces {
      if cursor > 1 { ZwjExtends(text[cursor - 2]); }
      assert Left(text, cursor) == cursor - 1;
      PlainSkip(text, cursor - 1, spaces);
    }
  }

  lemma {:induction false} ZwjExtends(c: CodePoint)
    requires !IsGraphemeExtend(c)
    ensures !IsZwj(c)
  {
  }

  /** Over plain characters the erased stretch is one word and the spaces after it, back to a space. */
  lemma {:induction false} DeleteWordErasesOneWord(text: seq<CodePoint>, cursor: nat)
    requires cursor <= |text| && forall i :: 0 <= i < cursor ==> Plain(text[i])
    ensures var s, m := WordStart(text, cursor), SkipWhile(text, cursor, true);
            && s <= m <= cursor
            && (forall i :: m <= i < cursor ==> text[i] == SPACE)
            && (forall i :: s <= i < m ==> text[i] != SPACE)
            && (s == 0 || text[s - 1] == SPACE)
            && (s == m ==> s == 0)
  {
    hide IsRegionalIndicator, IsGraphemeExtend, Left;
    var m := SkipWhile(text, cursor, true);
    PlainSkip(text, cursor, true);
    PlainSkip(text, m, false);
  }

  /** Transposing moves text about but loses and invents none. */
  lemma {:induction false} TransposeKeepsCharacters(room: nat, l: Line)
    requires Sound(l)
    ensures multiset(Press(room, l, Transpose).text) == multiset(l.text)
  {
    hide Scalar, ClusterStart, ClusterEnd;
    var t, p := l.text, l.cursor;
    if 0 < p < |t| { SwapKeepsSize(t, Left(t, p), p, Right(t, p)); }
  }

  // ---- Clusters have no greatest size ----

  /** The keys that type a text. */
  function Typing(text: seq<CodePoint>): (keys: seq<Key>)
    ensures |keys| == |text|
  {
    seq(|text|, i requires 0 <= i < |text| => Insert(text[i]))
  }

  lemma {:induction false} TypingAppends(room: nat, before: seq<CodePoint>, text: seq<CodePoint>)
    requires Scalars(before) && Scalars(text) && Size(before + text) <= room
    requires Scalars(before + text)
    ensures Fits(room, Line(before, |before|)) && Typed(Typing(text))
    ensures PressAll(room, Line(before, |before|), Typing(text)) == Line(before + text, |before + text|)
    decreases |text|
  {
    hide Scalar, Encode, EncodeAll;
    EncodeAllAppends(before, text);
    if text == [] {
      assert before + [] == before;
    } else {
      var c, rest := text[0], text[1..];
      assert text == [c] + rest && before + text == (before + [c]) + rest;
      EncodeAllAppends([c], rest);
      EncodeAllAppends(before, [c]);
      EncodeAllAppends(before + [c], rest);
      EncodeAllOne(c);
      TypingAppends(room, before + [c], rest);
      assert before[..|before|] + [c] + before[|before|..] == before + [c];
      assert Typing(text)[0] == Insert(c) && Typing(text)[1..] == Typing(rest);
    }
  }

  const ACCENT: CodePoint := 0x301

  /** Two letters, the second with `n` accents. */
  function Accented(n: nat): (text: seq<CodePoint>)
    ensures |text| == n + 2 && text[0] == 0x62 && text[1] == 0x61
    ensures forall i :: 2 <= i < |text| ==> text[i] == ACCENT
  {
    if n == 0 then [0x62, 0x61] else Accented(n - 1) + [ACCENT]
  }

  lemma {:induction false} AccentedSize(n: nat)
    ensures Scalars(Accented(n)) && Size(Accented(n)) == 2 * n + 2
  {
    hide EncodeAll;
    if n == 0 {
      assert Accented(0) == [0x62] + [0x61];
      EncodeAllOne(0x62);
      EncodeAllOne(0x61);
      EncodeAllAppends([0x62], [0x61]);
    } else {
      AccentedSize(n - 1);
      EncodeAllOne(ACCENT);
      EncodeAllAppends(Accented(n - 1), [ACCENT]);
    }
  }

  lemma {:induction false} AccentsJoin(text: seq<CodePoint>, k: nat)
    requires 1 <= k <= |text| && forall i :: k <= i < |text| ==> text[i] == ACCENT
    ensures ClusterEnd(text, k, false) == |text|
    decreases |text| - k
  {
    if k < |text| { AccentsJoin(text, k + 1); }
  }

  /**
   * Typing a letter and `n` accents and going back to before it leaves a cluster of `2n + 1` bytes right of
   * the cursor: from 16 accents on, more than the 32 bytes that Ctrl-T sets aside for it.
   */
  lemma {:induction false} TypedClustersOutgrow(room: nat, n: nat)
    requires 2 * n + 2 <= room
    ensures Fits(room, Line([], 0)) && Typed(Typing(Accented(n)) + [Home, MoveRight])
    ensures var l := PressAll(room, Line([], 0), Typing(Accented(n)) + [Home, MoveRight]);
            && l == Line(Accented(n), 1) && Right(l.text, 1) == n + 2
            && Scalars(l.text[1..n + 2]) && Size(l.text[1..n + 2]) == 2 * n + 1
  {
    hide Scalar, Encode, EncodeAll, ClusterEnd;
    var text, keys := Accented(n), Typing(Accented(n));
    AccentedSize(n);
    assert [] + text == text;
    TypingAppends(room, [], text);
    PressAllMore(room, Line([], 0), keys, [Home, MoveRight]);
    TwoKeys(room, text);
    AccentsJoin(text, 2);
    LettersEnd(text);
    EncodeAllSplits(text, 1);
    assert text[..1] == [0x62] && text[1..n + 2] == text[1..];
    OneByteLetter();
  }

  lemma {:induction false} OneByteLetter()
    ensures Scalars([0x62]) && Size([0x62]) == 1
  {
    EncodeAllOne(0x62);
  }

  lemma {:induction false} LettersEnd(text: seq<CodePoint>)
    requires |text| >= 2 && text[0] == 0x62 && text[1] == 0x61
    ensures Right(text, 0) == 1 && Right(text, 1) == ClusterEnd(text, 2, false)
  {
  }

  lemma {:induction false} TwoKeys(room: nat, text: seq<CodePoint>)
    requires Fits(room, Line(text, |text|))
    ensures Typed([Home, MoveRight])
    ensures PressAll(room, Line(text, |text|), [Home, MoveRight]) == Line(text, Right(text, 0))
  {
    hide Scalar, EncodeAll, ClusterEnd;
    assert [Home, MoveRight][1..] == [MoveRight] && [MoveRight][1..] == [];
    var l := Press(room, Line(text, |text|), Home);
    assert PressAll(room, l, [MoveRight]) == PressAll(room, Press(room, l, MoveRight), []);
  }

  lemma {:induction false} PressAllMore(room: nat, l: Line, keys: seq<Key>, more: seq<Key>)
    requires Fits(room, l) && Typed(keys) && Typed(more)
    ensures Typed(keys + more) && Fits(room, PressAll(room, l, keys))
    ensures PressAll(room, l, keys + more) == PressAll(room, PressAll(room, l, keys), more)
    decreases |keys|
  {
    hide Scalar, Press;
    if keys == [] {
      assert keys + more == more;
    } else {
      PressKeepsRoom(room, l, keys[0]);
      PressAllMore(room, Press(room, l, keys[0]), keys[1..], more);
      assert (keys + more)[1..] == keys[1..] + more;
    }
  }
}
