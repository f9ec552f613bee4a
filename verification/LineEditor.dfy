/** The edited line of cli/linenoise.c: a byte buffer, its length and the cursor's byte offset. */
module LineEditor {
  import opened Bytes
  import opened Utf8Standard
  import opened Utf8
  import opened LineSpec

  /** memmove */
  method Move(buf: array<Byte>, to: nat, from: nat, n: nat)
    requires to + n <= buf.Length && from + n <= buf.Length
    modifies buf
    ensures var s := old(buf[..]); buf[..] == s[..to] + s[from..from + n] + s[to + n..]
  {
    forall i | 0 <= i < n {
      buf[to + i] := buf[from + i];
    }
  }

  /** memcpy from bytes outside the buffer */
  method Copy(buf: array<Byte>, to: nat, bytes: seq<Byte>)
    requires to + |bytes| <= buf.Length
    modifies buf
    ensures var s := old(buf[..]); buf[..] == s[..to] + bytes + s[to + |bytes|..]
  {
    forall i | 0 <= i < |bytes| {
      buf[to + i] := bytes[i];
    }
  }

  /** Moves the end of the line up and copies `bytes` into the gap. */
  method Splice(buf: array<Byte>, pos: nat, len: nat, bytes: seq<Byte>)
    requires pos <= len && len + |bytes| <= buf.Length
    modifies buf
    ensures buf[..len + |bytes|] == old(buf[..pos]) + bytes + old(buf[pos..len])
  {
    var n := |bytes|;
    Move(buf, pos + n, pos, len - pos);
    label Moved:
    assert buf[..pos] == old(buf[..pos]) && buf[pos + n..len + n] == old(buf[pos..len]);
    Copy(buf, pos, bytes);
    assert buf[..pos] == old@Moved(buf[..pos]) && buf[pos + n..] == old@Moved(buf[pos + n..]);
  }

  /** What scanning backwards from a boundary sees: the last character's bytes, and only they. */
  lemma {:induction false} LastCharacter(s: seq<Byte>, pos: nat, text: seq<CodePoint>)
    requires Scalars(text) && text != []
    requires pos <= |s| && s[..pos] == EncodeAll(text)
    ensures var c, n := text[|text| - 1], |Encode(text[|text| - 1])|;
            && n <= pos && s[pos - n..pos] == Encode(c)
            && s[..pos - n] == EncodeAll(text[..|text| - 1])
            && ByteLen(s[pos - n]) == n && DecodeChar(s, pos - n) == c
            && !Continues(s[pos - n])
            && forall i :: pos - n < i < pos ==> Continues(s[i])
  {
    hide Scalar, Encode, EncodeAll, ByteLen, DecodeChar, Continues;
    var k := |text| - 1;
    EncodeAllSplits(text, k);
    assert text[k..] == [text[k]];
    EncodeAllOne(text[k]);
    var e := Encode(text[k]);
    var n := |e|;
    assert s[..pos][pos - n..] == e && s[..pos][..pos - n] == s[..pos - n];
    assert s[pos - n..pos - n + n] == e;
    DecodeCharInvertsEncode(s, pos - n, text[k]);
    EncodeShape(text[k]);
    forall i | pos - n < i < pos ensures Continues(s[i]) {
      assert s[i] == e[i - (pos - n)];
    }
    assert s[pos - n] == e[0];
  }

  /** What decoding at a boundary sees: the next character. */
  lemma {:induction false} NextCharacter(s: seq<Byte>, pos: nat, text: seq<CodePoint>, k: nat)
    requires Scalars(text) && k < |text| && EncodeAll(text) <= s
    requires pos == Size(text[..k])
    ensures var n := |Encode(text[k])|;
            && pos + n <= |EncodeAll(text)| && ByteLen(s[pos]) == n && DecodeChar(s, pos) == text[k]
            && pos + n == Size(text[..k + 1])
  {
    hide Scalar, Encode, EncodeAll, ByteLen, DecodeChar;
    EncodeAllSplits(text, k + 1);
    assert text[..k + 1] == text[..k] + [text[k]];
    EncodeAllAppends(text[..k], [text[k]]);
    EncodeAllOne(text[k]);
    assert s[..|EncodeAll(text)|] == EncodeAll(text);
    assert s[pos..pos + |Encode(text[k])|] == Encode(text[k]);
    DecodeCharInvertsEncode(s, pos, text[k]);
  }

  /** utf8DecodePrev; the bytes before `pos` encode the first `k` characters of `text`. */
  method DecodePrev(buf: array<Byte>, pos: nat, ghost text: seq<CodePoint>, ghost k: nat) returns (c: CodePoint, length: nat)
    requires Scalars(text) && k <= |text| && pos <= buf.Length && buf[..pos] == EncodeAll(text[..k])
    ensures k == 0 ==> pos == length == 0
    ensures k > 0 ==>
              && c == text[k - 1] && 0 < length <= pos && (length == pos <==> k == 1)
              && buf[..pos - length] == EncodeAll(text[..k - 1])
  {
    hide Scalar, Encode, EncodeAll, ByteLen, DecodeChar, Continues;
    NonemptyText(text[..k]);
    if pos == 0 { return 0, 0; }
    assert buf[..][..pos] == buf[..pos] && text[..k][..k - 1] == text[..k - 1];
    LastCharacter(buf[..], pos, text[..k]);
    NonemptyText(text[..k - 1]);
    ghost var n := |Encode(text[k - 1])|;
    var i := pos - 1;
    while i > 0 && pos - i < 4 && Continues(buf[i])
      invariant pos - n <= i < pos
    {
      i := i - 1;
    }
    assert buf[..][pos - n] == buf[pos - n];
    assert i == pos - n;
    c, length := DecodeChar(buf[..], i), pos - i;
    assert buf[..][..i] == buf[..i];
  }

  lemma {:induction false} NonemptyText(text: seq<CodePoint>)
    requires Scalars(text)
    ensures Size(text) == 0 <==> text == []
  {
  }

  /** utf8PrevCharLen; `text` is what the bytes before `pos` encode. */
  method PrevCharLen(buf: array<Byte>, pos: nat, ghost text: seq<CodePoint>) returns (total: nat)
    requires Scalars(text) && pos <= buf.Length && buf[..pos] == EncodeAll(text)
    ensures total <= pos && pos - total == Size(text[..Left(text, |text|)])
  {
    hide Scalar, Encode, EncodeAll, IsZwj, IsGraphemeExtend, IsRegionalIndicator;
    assert text[..|text|] == text;
    var current, c, length := pos, 0, 0;
    c, length := DecodePrev(buf, current, text, |text|);
    total := 0;
    if length == 0 { return; }
    total, current := total + length, current - length;
    ghost var k := |text| - 1;
    while current > 0
      invariant 0 <= k < |text| && 0 <= current && current + total == pos
      invariant buf[..current] == EncodeAll(text[..k]) && (current == 0 <==> k == 0)
      invariant c == text[k] && ClusterStart(text, k) == Left(text, |text|)
      decreases k
    {
      var before, width := DecodePrev(buf, current, text, k);
      if IsZwj(before) {
        total, current := total + width, current - width;
        before, width := DecodePrev(buf, current, text, k - 1);
        if width == 0 { return; }
        total, current := total + width, current - width;
        c, k := before, k - 2;
      } else if IsGraphemeExtend(c) {
        total, current := total + width, current - width;
        c, k := before, k - 1;
      } else if IsRegionalIndicator(c) && IsRegionalIndicator(before) {
        total, current := total + width, current - width;
        return;
      } else {
        return;
      }
    }
  }

  /** utf8NextCharLen; the first `len` bytes encode `text`, and `pos` is where its `k`th character starts. */
  method NextCharLen(buf: array<Byte>, pos: nat, len: nat, ghost text: seq<CodePoint>, ghost k: nat) returns (total: nat)
    requires Scalars(text) && len <= buf.Length && buf[..len] == EncodeAll(text)
    requires k <= |text| && pos == Size(text[..k])
    ensures pos + total <= len && pos + total == Size(text[..Right(text, k)])
  {
    hide Scalar, Encode, EncodeAll, IsZwj, IsGraphemeExtend, IsRegionalIndicator, ByteLen, DecodeChar;
    SizeGrows(text, k);
    if pos >= len { return 0; }
    assert buf[..len] <= buf[..];
    NextCharacter(buf[..], pos, text, k);
    total := ByteLen(buf[pos]);
    var current := pos + total;
    var half := IsRegionalIndicator(DecodeChar(buf[..], pos));
    ghost var j := k + 1;
    SizeGrows(text, j);
    while current < len
      invariant k < j <= |text| && current == pos + total == Size(text[..j]) <= len
      invariant current == len <==> j == |text|
      invariant ClusterEnd(text, j, half) == Right(text, k)
      decreases len - current
    {
      NextCharacter(buf[..], current, text, j);
      SizeGrows(text, j + 1);
      var next, width := DecodeChar(buf[..], current), ByteLen(buf[current]);
      if IsZwj(next) && current + width < len {
        total, current := total + width, current + width;
        NextCharacter(buf[..], current, text, j + 1);
        SizeGrows(text, j + 2);
        next, width := DecodeChar(buf[..], current), ByteLen(buf[current]);
        total, current, j := total + width, current + width, j + 2;
      } else if IsGraphemeExtend(next) {
        total, current, j := total + width, current + width, j + 1;
      } else if half && IsRegionalIndicator(next) {
        total, current, j := total + width, current + width, j + 1;
        half := false;
      } else {
        return;
      }
    }
  }

  lemma {:induction false} SizeGrows(text: seq<CodePoint>, k: nat)
    requires Scalars(text) && k <= |text|
    ensures Size(text[..k]) <= Size(text)
    ensures Size(text[..k]) == Size(text) <==> k == |text|
  {
    hide Scalar, Encode;
    EncodeAllSplits(text, k);
    NonemptyText(text[k..]);
    if k == |text| { assert text[..k] == text; }
  }

  /**
   * The editing state. The ghost fields say which text the bytes spell and at which of its characters the
   * cursor stands.
   */
  class LineState {
    const buf: array<Byte>
    const buflen: nat
    var pos: nat
    var len: nat
    ghost var text: seq<CodePoint>
    ghost var cursor: nat

    /** Well-formed UTF-8 with a NUL after it, and the cursor on a character boundary. */
    ghost predicate Valid()
      reads this, buf
    {
      && len <= buflen && buf.Length == buflen + 1 && buf[len] == 0
      && Scalars(text) && buf[..len] == EncodeAll(text)
      && cursor <= |text| && pos == Size(text[..cursor])
    }

    ghost function Shown(): Line
      reads this
    {
      Line(text, cursor)
    }

    /** linenoiseEditStart on a caller's buffer; one byte is set aside for the NUL. */
    constructor (caller: array<Byte>)
      requires caller.Length > 0
      modifies caller
      ensures Valid() && buf == caller && buflen == caller.Length - 1 && Shown() == Line([], 0)
    {
      buf, buflen := caller, caller.Length - 1;
      pos, len := 0, 0;
      text, cursor := [], 0;
      new;
      buf[0] := 0;
    }

    lemma {:induction false} Boundaries()
      requires Valid()
      ensures pos <= len
      ensures buf[..pos] == EncodeAll(text[..cursor]) && buf[pos..len] == EncodeAll(text[cursor..])
      ensures pos == len <==> cursor == |text|
      ensures pos == 0 <==> cursor == 0
    {
      hide Scalar, Encode, EncodeAll;
      EncodeAllSplits(text, cursor);
      SizeGrows(text, cursor);
      NonemptyText(text[..cursor]);
      assert buf[..len][..pos] == buf[..pos] && buf[..len][pos..] == buf[pos..len];
    }

    /** Both sides of the cursor satisfy the grammar of RFC 3629, section 4. */
    lemma {:induction false} LineIsWellFormed()
      requires Valid()
      ensures pos <= len <= buflen && buf[len] == 0
      ensures WellFormed(buf[..len]) && WellFormed(buf[..pos]) && WellFormed(buf[pos..len])
    {
      hide Scalar, Encode, EncodeAll, WellFormed;
      Boundaries();
      EncodeAllIsWellFormed(text);
      EncodeAllIsWellFormed(text[..cursor]);
      EncodeAllIsWellFormed(text[cursor..]);
    }

    /** The lengths alone are in order, whatever the bytes are. */
    ghost predicate InBounds()
      reads this
    {
      pos <= len <= buflen && buf.Length == buflen + 1
    }

    /** Takes any bytes, well-formed or not; without room for all of them it does nothing. */
    method EditInsert(bytes: seq<Byte>)
      requires InBounds()
      modifies this`pos, this`len, buf
      ensures InBounds()
      ensures if old(len) + |bytes| <= buflen
              then && pos == old(pos) + |bytes| && len == old(len) + |bytes| && buf[len] == 0
                   && buf[..len] == old(buf[..pos]) + bytes + old(buf[pos..len])
              else pos == old(pos) && len == old(len) && buf[..] == old(buf[..])
    {
      if len + |bytes| <= buflen {
        ghost var left, right := buf[..pos], buf[pos..len];
        var n := |bytes|;
        if len == pos {
          Copy(buf, pos, bytes);
          pos, len := pos + n, len + n;
        } else {
          Splice(buf, pos, len, bytes);
          len, pos := len + n, pos + n;
        }
        assert buf[..len] == left + bytes + right;
        ghost var r := buf[..len];
        buf[len] := 0;
        assert buf[..len] == r;
      }
    }

    /** The default key: the bytes of one character. */
    method InsertCharacter(c: CodePoint)
      requires Valid() && Scalar(c)
      modifies this`pos, this`len, this`text, this`cursor, buf
      ensures Valid() && Shown() == Press(buflen, old(Shown()), Insert(c))
    {
      hide Scalar, Encode, EncodeAll;
      Boundaries();
      InsertBytes(text, cursor, c);
      var fits := len + |Encode(c)| <= buflen;
      ghost var bytes := buf[..];
      EditInsert(Encode(c));
      if fits {
        text, cursor := text[..cursor] + [c] + text[cursor..], cursor + 1;
      } else {
        assert buf[..len] == bytes[..len];
      }
    }

    /** `pos -= utf8PrevCharLen(buf, pos)` */
    method StepLeft()
      requires Valid() && pos > 0
      modifies this`pos, this`cursor
      ensures Valid() && cursor == Left(text, old(cursor)) < old(cursor)
    {
      hide Scalar, Encode, EncodeAll, ClusterStart;
      Boundaries();
      StartOfPrefix(text, cursor);
      var n := PrevCharLen(buf, pos, text[..cursor]);
      pos, cursor := pos - n, Left(text, cursor);
    }

    method EditMoveLeft()
      requires Valid()
      modifies this`pos, this`cursor
      ensures Valid() && Shown() == Press(buflen, old(Shown()), MoveLeft)
    {
      hide Scalar, Encode, EncodeAll, ClusterStart;
      Boundaries();
      if pos > 0 { StepLeft(); }
    }

    method EditMoveRight()
      requires Valid()
      modifies this`pos, this`cursor
      ensures Valid() && Shown() == Press(buflen, old(Shown()), MoveRight)
    {
      hide Scalar, Encode, EncodeAll, ClusterEnd;
      Boundaries();
      if pos != len {
        var n := NextCharLen(buf, pos, len, text, cursor);
        pos := pos + n;
        cursor := Right(text, cursor);
      }
    }

    method EditMoveHome()
      requires Valid()
      modifies this`pos, this`cursor
      ensures Valid() && Shown() == Press(buflen, old(Shown()), Home)
    {
      if pos != 0 { pos := 0; }
      cursor := 0;
    }

    method EditMoveEnd()
      requires Valid()
      modifies this`pos, this`cursor
      ensures Valid() && Shown() == Press(buflen, old(Shown()), End)
    {
      if pos != len { pos := len; }
      cursor := |text|;
      assert text[..cursor] == text;
    }

    /** The bytes `buf[from..to]` spell `text[a..b]`; both go together. */
    method Erase(from: nat, to: nat, ghost a: nat, ghost b: nat)
      requires Valid() && a <= b <= |text| && from == Size(text[..a]) && to == Size(text[..b])
      modifies this`len, this`text, buf
      ensures text == Cut(old(text), a, b) && text[..a] == old(text)[..a]
      ensures len <= buflen && buf[len] == 0 && Scalars(text) && buf[..len] == EncodeAll(text)
      ensures old(len) - len == to - from
    {
      hide Scalar, Encode, EncodeAll;
      CutBytes(text, a, b);
      ghost var bytes := buf[..len];
      Move(buf, from, to, len - to);
      len := len - (to - from);
      buf[len] := 0;
      assert buf[..len] == bytes[..from] + bytes[to..];
      text := Cut(text, a, b);
    }

    method EditDelete()
      requires Valid()
      modifies this`len, this`text, buf
      ensures Valid() && Shown() == Press(buflen, old(Shown()), Key.Delete)
    {
      hide Scalar, Encode, EncodeAll, ClusterEnd;
      Boundaries();
      if len > 0 && pos < len {
        var n := NextCharLen(buf, pos, len, text, cursor);
        Erase(pos, pos + n, cursor, Right(text, cursor));
      } else {
        assert Cut(text, cursor, cursor) == text;
      }
    }

    method EditBackspace()
      requires Valid()
      modifies this`pos, this`len, this`text, this`cursor, buf
      ensures Valid() && Shown() == Press(buflen, old(Shown()), Key.Backspace)
    {
      hide Scalar, Encode, EncodeAll, ClusterStart;
      Boundaries();
      if pos > 0 && len > 0 {
        StartOfPrefix(text, cursor);
        var n := PrevCharLen(buf, pos, text[..cursor]);
        ghost var start := Left(text, cursor);
        Erase(pos - n, pos, start, cursor);
        pos, cursor := pos - n, start;
      } else {
        assert Cut(text, cursor, cursor) == text;
      }
    }

    /** The byte before the cursor is a space exactly when the character before it is. */
    lemma {:induction false} SpaceBefore()
      requires Valid() && pos > 0
      ensures pos <= len && cursor > 0 && (buf[pos - 1] == 0x20 <==> text[cursor - 1] == SPACE)
    {
      hide Scalar, Encode, EncodeAll, ByteLen, DecodeChar, Continues;
      Boundaries();
      LastCharacter(buf[..], pos, text[..cursor]);
      var e := Encode(text[cursor - 1]);
      assert buf[pos - 1] == buf[..][pos - |e|..pos][|e| - 1];
      SpaceIsOneByte(text[cursor - 1]);
    }

    /** Moves left over clusters while the byte before the cursor is, or is not, a space. */
    method SkipLeft(spaces: bool)
      requires Valid()
      modifies this`pos, this`cursor
      ensures Valid() && cursor == SkipWhile(text, old(cursor), spaces)
    {
      hide Scalar, Encode, EncodeAll, ClusterStart, Left;
      Boundaries();
      while pos > 0 && (buf[pos - 1] == 0x20) == spaces
        invariant Valid() && pos <= len && (pos == 0 <==> cursor == 0)
        invariant SkipWhile(text, cursor, spaces) == SkipWhile(text, old(cursor), spaces)
        decreases cursor
      {
        SpaceBefore();
        StepLeft();
        Boundaries();
      }
      if pos > 0 { SpaceBefore(); }
    }

    method EditDeletePrevWord()
      requires Valid()
      modifies this`pos, this`len, this`text, this`cursor, buf
      ensures Valid() && Shown() == Press(buflen, old(Shown()), DeleteWord)
    {
      hide Scalar, Encode, EncodeAll, ClusterStart, Left;
      var oldPos := pos;
      ghost var oldCursor := cursor;
      Boundaries();
      SkipLeft(true);
      SkipLeft(false);
      Boundaries();
      Erase(pos, oldPos, cursor, oldCursor);
    }

    /** Ctrl-U */
    method KillWholeLine()
      requires Valid()
      modifies this`pos, this`len, this`text, this`cursor, buf
      ensures Valid() && Shown() == Press(buflen, old(Shown()), KillLine)
    {
      buf[0] := 0;
      pos, len := 0, 0;
      text, cursor := [], 0;
    }

    /** Ctrl-K */
    method KillRestOfLine()
      requires Valid()
      modifies this`len, this`text, buf
      ensures Valid() && Shown() == Press(buflen, old(Shown()), KillToEnd)
    {
      hide Scalar, Encode, EncodeAll;
      Boundaries();
      ghost var left := buf[..pos];
      buf[pos] := 0;
      len := pos;
      assert buf[..len] == left;
      text := text[..cursor];
      assert text[..cursor] == text;
    }

    /** The cluster right of the cursor fits the temporary of Ctrl-T. */
    ghost predicate ClusterFits()
      requires Valid()
      reads this, buf
    {
      0 < cursor < |text| ==> Size(text[..Right(text, cursor)]) <= pos + 32
    }

    /** The bytes before the cursor from `start` on change places with those after it up to `end`. */
    method Exchange(start: nat, end: nat, ghost a: nat, ghost c: nat)
      requires Valid() && a <= cursor <= c <= |text| && end <= pos + 32
      requires start == Size(text[..a]) && end == Size(text[..c])
      modifies this`text, buf
      ensures text == Swapped(old(text), a, cursor, c) && Scalars(text) && Size(text[..c]) == end
      ensures buf[..len] == EncodeAll(text) && buf[len] == 0
    {
      hide Scalar, Encode, EncodeAll;
      var temporary := new Byte[32];
      SwapBytes(text, a, cursor, c);
      RotatedLine(buf[..], start, pos, end, len);
      Fill(temporary, buf[pos..end]);
      ghost var s := buf[..];
      Rotate(buf, start, pos, temporary[..end - pos]);
      assert buf[..][..len] == buf[..len] && s[..len] == EncodeAll(text);
      assert buf[..][len..][0] == s[len..][0];
      text := Swapped(text, a, cursor, c);
    }

    /** Ctrl-T */
    method TransposeClusters()
      requires Valid() && ClusterFits()
      modifies this`pos, this`text, this`cursor, buf
      ensures Valid() && Shown() == Press(buflen, old(Shown()), Transpose)
    {
      hide Scalar, Encode, EncodeAll, ClusterStart, ClusterEnd;
      Boundaries();
      if pos > 0 && pos < len {
        StartOfPrefix(text, cursor);
        var before := PrevCharLen(buf, pos, text[..cursor]);
        var after := NextCharLen(buf, pos, len, text, cursor);
        ghost var a, c := Left(text, cursor), Right(text, cursor);
        Exchange(pos - before, pos + after, a, c);
        if pos + after <= len { pos := pos + after; }
        cursor := c;
      }
    }

    /** linenoiseEditFeed for the keys that edit the line. */
    method Feed(key: Key)
      requires Valid() && (key.Insert? ==> Scalar(key.c)) && (key.Transpose? ==> ClusterFits())
      modifies this`pos, this`len, this`text, this`cursor, buf
      ensures Valid() && Shown() == Press(buflen, old(Shown()), key)
    {
      hide Scalar, Encode, EncodeAll, ClusterStart, ClusterEnd, SkipWhile;
      match key
      case Insert(c) => InsertCharacter(c);
      case MoveLeft => EditMoveLeft();
      case MoveRight => EditMoveRight();
      case Home => EditMoveHome();
      case End => EditMoveEnd();
      case Delete => EditDelete();
      case Backspace => EditBackspace();
      case DeleteWord => EditDeletePrevWord();
      case KillLine => KillWholeLine();
      case KillToEnd => KillRestOfLine();
      case Transpose => TransposeClusters();
    }
  }

  lemma {:induction false} SpaceIsOneByte(c: CodePoint)
    requires Scalar(c)
    ensures Encode(c)[|Encode(c)| - 1] == 0x20 <==> c == SPACE
  {
    TailShape(c);
  }

  method Fill(a: array<Byte>, bytes: seq<Byte>)
    requires |bytes| <= a.Length
    modifies a
    ensures a[..|bytes|] == bytes
  {
    forall i | 0 <= i < |bytes| {
      a[i] := bytes[i];
    }
  }

  /** Moves `buf[start..pos]` right and puts the bytes `t`, saved from behind it, in front. */
  method Rotate(buf: array<Byte>, start: nat, pos: nat, t: seq<Byte>)
    requires start <= pos && pos + |t| <= buf.Length && t == buf[pos..pos + |t|]
    modifies buf
    ensures var s := old(buf[..]); buf[..] == s[..start] + t + s[start..pos] + s[pos + |t|..]
  {
    ghost var s := buf[..];
    Move(buf, start + |t|, start, pos - start);
    ghost var m := buf[..];
    assert m == s[..start + |t|] + s[start..pos] + s[pos + |t|..];
    RotatedBytes(s, start, pos, m, t);
    Copy(buf, start, t);
  }

  lemma {:induction false} RotatedBytes(s: seq<Byte>, start: nat, pos: nat, m: seq<Byte>, t: seq<Byte>)
    requires start <= pos && pos + |t| <= |s|
    requires m == s[..start + |t|] + s[start..pos] + s[pos + |t|..]
    ensures m[..start] + t + m[start + |t|..] == s[..start] + t + s[start..pos] + s[pos + |t|..]
  {
    assert m[..start] == s[..start] && m[start + |t|..] == s[start..pos] + s[pos + |t|..];
  }

  lemma {:induction false} RotatedLine(s: seq<Byte>, start: nat, pos: nat, end: nat, len: nat)
    requires start <= pos <= end <= len <= |s|
    ensures var r, t := s[..start] + s[pos..end] + s[start..pos] + s[end..], s[..len];
            r[..len] == t[..start] + t[pos..end] + t[start..pos] + t[end..] && r[len..] == s[len..]
  {
    var r, t := s[..start] + s[pos..end] + s[start..pos] + s[end..], s[..len];
    assert s[end..] == s[end..len] + s[len..] && t[end..] == s[end..len];
    assert r == (t[..start] + t[pos..end] + t[start..pos] + t[end..]) + s[len..];
  }

  lemma {:induction false} Pieces(p: seq<CodePoint>, q: seq<CodePoint>, r: seq<CodePoint>, z: seq<CodePoint>)
    requires Scalars(p) && Scalars(q) && Scalars(r) && Scalars(z)
    ensures Scalars(p + q) && Scalars(p + q + r) && Scalars(p + q + r + z)
    ensures EncodeAll(p + q) == EncodeAll(p) + EncodeAll(q)
    ensures EncodeAll(p + q + r) == EncodeAll(p) + EncodeAll(q) + EncodeAll(r)
    ensures EncodeAll(p + q + r + z) == EncodeAll(p) + EncodeAll(q) + EncodeAll(r) + EncodeAll(z)
  {
    hide Scalar, Encode, EncodeAll;
    EncodeAllAppends(p, q);
    EncodeAllAppends(p + q, r);
    EncodeAllAppends(p + q + r, z);
  }

  lemma {:induction false} FourCuts(s: seq<Byte>, p: seq<Byte>, q: seq<Byte>, r: seq<Byte>, z: seq<Byte>)
    requires s == p + q + r + z
    ensures var u, v, w := |p|, |p + q|, |p + q + r|; s[..u] + s[v..w] + s[u..v] + s[w..] == p + r + q + z
  {
    var u, v, w := |p|, |p + q|, |p + q + r|;
    assert s[..u] == p && s[u..v] == q && s[v..w] == r && s[w..] == z;
  }

  lemma {:induction false} SwapBytes(text: seq<CodePoint>, a: nat, b: nat, c: nat)
    requires Scalars(text) && a <= b <= c <= |text|
    ensures var s, u, v, w := EncodeAll(text), Size(text[..a]), Size(text[..b]), Size(text[..c]);
            && u <= v <= w <= |s| && Scalars(Swapped(text, a, b, c))
            && EncodeAll(Swapped(text, a, b, c)) == s[..u] + s[v..w] + s[u..v] + s[w..]
            && Size(Swapped(text, a, b, c)[..c]) == w
  {
    hide Scalar, Encode, EncodeAll;
    var p, q, r, z := text[..a], text[a..b], text[b..c], text[c..];
    assert text[..b] == p + q && text[..c] == p + q + r && text == p + q + r + z;
    Pieces(p, q, r, z);
    Pieces(p, r, q, z);
    FourCuts(EncodeAll(text), EncodeAll(p), EncodeAll(q), EncodeAll(r), EncodeAll(z));
    assert Swapped(text, a, b, c)[..c] == p + r + q;
  }

  lemma {:induction false} InsertBytes(text: seq<CodePoint>, p: nat, c: CodePoint)
    requires Scalars(text) && p <= |text| && Scalar(c)
    ensures var typed := text[..p] + [c] + text[p..];
            && Scalars(typed) && EncodeAll(typed) == EncodeAll(text[..p]) + Encode(c) + EncodeAll(text[p..])
            && Size(typed[..p + 1]) == Size(text[..p]) + |Encode(c)|
  {
    hide Scalar, Encode, EncodeAll;
    EncodeAllOne(c);
    EncodeAllAppends(text[..p], [c]);
    EncodeAllAppends(text[..p] + [c], text[p..]);
    assert (text[..p] + [c] + text[p..])[..p + 1] == text[..p] + [c];
  }

  lemma {:induction false} CutBytes(text: seq<CodePoint>, a: nat, b: nat)
    requires Scalars(text) && a <= b <= |text|
    ensures var s, from, to := EncodeAll(text), Size(text[..a]), Size(text[..b]);
            && from <= to <= |s| && Scalars(Cut(text, a, b))
            && EncodeAll(Cut(text, a, b)) == s[..from] + s[to..]
            && Cut(text, a, b)[..a] == text[..a]
  {
    hide Scalar, Encode, EncodeAll;
    EncodeAllSplits(text, a);
    EncodeAllSplits(text, b);
    EncodeAllSplits(text[..b], a);
    assert text[..b][..a] == text[..a];
    EncodeAllAppends(text[..a], text[b..]);
  }

  /** Walking left looks only at what is left of the cursor. */
  lemma {:induction false} StartOfPrefix(text: seq<CodePoint>, p: nat)
    requires p <= |text|
    ensures Left(text[..p], p) == Left(text, p)
    ensures text[..p][..Left(text, p)] == text[..Left(text, p)]
  {
    if p > 0 { ClusterStartOfPrefix(text, p, p - 1); }
  }

  lemma {:induction false} ClusterStartOfPrefix(text: seq<CodePoint>, p: nat, k: nat)
    requires k < p <= |text|
    ensures ClusterStart(text[..p], k) == ClusterStart(text, k)
  {
    hide IsRegionalIndicator, IsZwj, IsGraphemeExtend;
    if k > 0 { ClusterStartOfPrefix(text, p, k - 1); }
    if k > 1 { ClusterStartOfPrefix(text, p, k - 2); }
  }
}
