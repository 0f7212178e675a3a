/**
 * When the buffer limit of `JsonSourceFile` is reached: for a file that is not an array exactly by the
 * sizes of its rows, for an array also by where the buffer happens to end.
 */
module JsonLimit {
  import opened Wrappers
  import opened JsonText
  import opened JsonTextProofs
  import opened JsonImport

  predicate AllFit(rows: seq<Json>, n: nat) {
    forall i :: 0 <= i < |rows| ==> |Dumps(rows[i])| <= n
  }

  /** White space at the end of a text */
  function TrailingSpace(s: string): nat {
    if s != "" && IsSpace(s[|s| - 1]) then 1 + TrailingSpace(s[..|s| - 1]) else 0
  }

  lemma {:induction false} AllSpace(s: string, i: nat)
    requires SkipSpace(s) == "" && i < |s|
    ensures IsSpace(s[i])
  {
    if i > 0 {
      AllSpace(s[1..], i - 1);
    }
  }

  /** Only the white space after a last character that is none trails. */
  lemma {:induction false} SpaceAfter(before: string, c: char, s: string)
    requires !IsSpace(c) && forall i :: 0 <= i < |s| ==> IsSpace(s[i])
    ensures TrailingSpace(before + [c] + s) == |s|
  {
    var t := before + [c] + s;
    if s == "" {
      assert t == before + [c];
    } else {
      SpaceAfter(before, c, s[..|s| - 1]);
      assert t[..|t| - 1] == before + [c] + s[..|s| - 1];
    }
  }

  // ----- windows -----

  /** A buffer is at most one character longer than its size, and what is left of it is shorter. */
  predicate Sized(w: Window, maxSize: nat) {
    1 <= w.size <= maxSize && |w.ahead| <= w.size + (if w.front then 1 else 0) && (w.front ==> w.ahead != "")
  }

  /** The window after `get_line`, whether it gave a row or not */
  function After(w: Window, arr: bool, found: bool): Window {
    var (left, row) := NextRow(w.ahead, arr, found);
    Window(left, w.unread, row.None? && w.front && left == w.ahead, w.size)
  }

  lemma AfterIsSized(w: Window, arr: bool, found: bool, maxSize: nat)
    requires Sized(w, maxSize)
    ensures Sized(After(w, arr, found), maxSize)
  {
    hide NextRow;
    NextRowMoves(w.ahead, arr, found);
  }

  lemma RefillIsSized(w: Window, maxSize: nat)
    requires Sized(w, maxSize) && w.unread != "" && !(w.front && w.size == maxSize)
    ensures var next := Refill(w, maxSize);
            && Sized(next, maxSize) && next.front && |next.unread| < |w.unread|
            && next.ahead + next.unread == w.ahead + w.unread
            && (next.unread != "" ==> |next.ahead| == next.size + 1)
            && (w.front ==> next.size == Min(w.size * 2, maxSize)) && (!w.front ==> next.size == w.size)
  {
  }

  /** A first window, and what it shows */
  lemma FirstIsSized(text: string, chunkSize: nat, maxSize: nat)
    requires text != "" && 1 <= chunkSize <= maxSize
    ensures var w := FirstWindow(text, chunkSize);
            && Sized(w, maxSize)
            && w.ahead + w.unread == (if text[0] == '[' then text[1..] else text)
            && w.size == chunkSize && w.front == (text[0] != '[')
            && (w.front && w.unread != "" ==> |w.ahead| == chunkSize)
  {
    var n := Min(chunkSize, |text|);
    assert text == text[..n] + text[n..];
    assert text[0..n] == text[..n];
    if text[0] == '[' {
      assert text[1..] == text[1..n] + text[n..];
    }
  }

  // ----- no row is too long for a file that is read to its end -----

  lemma {:induction false} ReadToTheEnd(w: Window, rows: seq<Json>, arr: bool, found: bool, maxSize: nat)
    requires Sized(w, maxSize) && Layout(w.ahead + w.unread, rows, arr, found)
    requires Lasts(w, arr, found, maxSize)
    ensures AllFit(rows, maxSize + 1)
    decreases |w.unread|, |w.ahead|
  {
    hide NextRow, Layout, Refill;
    var (left, row) := NextRow(w.ahead, arr, found);
    NextRowOnLayout(w.ahead, w.unread, rows, arr, found);
    AfterIsSized(w, arr, found, maxSize);
    if row.Some? {
      ReadToTheEnd(After(w, arr, found), rows[1..], arr, true, maxSize);
    } else if w.unread != "" {
      RefillIsSized(After(w, arr, found), maxSize);
      ReadToTheEnd(Refill(After(w, arr, found), maxSize), rows, arr, found, maxSize);
    }
  }

  // ----- when a buffer is stuck -----

  /**
   * A buffer from whose very front no row can be taken shows less than the row that is next, or the end
   * of the array and white space.
   */
  lemma StuckAtFront(p: string, rest: string, rows: seq<Json>, arr: bool, found: bool)
    requires Layout(p + rest, rows, arr, found) && NextRow(p, arr, found) == (p, None) && p != ""
    ensures !IsSpace(p[0])
    ensures rows != [] ==> |p| < |Dumps(rows[0])|
    ensures rows == [] ==> arr && SkipSpace((p + rest)[1..]) == ""
  {
    SkipSpaceSuffix(p);
    SkipSpaceStarts(p);
    assert SkipSpace(p) == p;
    assert SkipSpace(p + rest) == p + rest;
    if rows != [] {
      if |p| > 1 {
        assert !(arr && found && p[0] == ',');
        assert SkipComma(p + rest, arr, found) == p + rest;
        if |Dumps(rows[0])| <= |p| {
          DecodeWholeRow(p, rest, rows[0]);
        }
      } else {
        ObjectDecodes(rows[0], "");
      }
    }
  }

  // ----- a file that is not an array -----

  /** The first row is not longer than a buffer that cannot grow. */
  predicate FirstFits(w: Window, rows: seq<Json>, maxSize: nat) {
    w.front && w.unread != "" && w.size == maxSize && rows != [] ==> |Dumps(rows[0])| <= |w.ahead|
  }

  lemma {:induction false} FittingRowsAreRead(w: Window, rows: seq<Json>, found: bool, maxSize: nat)
    requires Sized(w, maxSize) && Layout(w.ahead + w.unread, rows, false, found)
    requires AllFit(rows, maxSize + 1) && FirstFits(w, rows, maxSize)
    ensures Lasts(w, false, found, maxSize)
    decreases |w.unread|, |w.ahead|
  {
    hide NextRow, Layout, Refill;
    var (left, row) := NextRow(w.ahead, false, found);
    NextRowOnLayout(w.ahead, w.unread, rows, false, found);
    AfterIsSized(w, false, found, maxSize);
    var v := After(w, false, found);
    if row.Some? {
      FittingRowsAreRead(v, rows[1..], true, maxSize);
    } else {
      if v.front {
        StuckAtFront(w.ahead, w.unread, rows, false, found);
      }
      if w.unread != "" {
        RefillIsSized(v, maxSize);
        FittingRowsAreRead(Refill(v, maxSize), rows, found, maxSize);
      }
    }
  }

  lemma FirstRowTooLong(w: Window, rows: seq<Json>, maxSize: nat)
    requires Sized(w, maxSize) && Layout(w.ahead + w.unread, rows, false, false)
    requires w.ahead != "" && !IsSpace(w.ahead[0])
    requires !FirstFits(w, rows, maxSize)
    ensures !Lasts(w, false, false, maxSize)
  {
    NextRowOnLayout(w.ahead, w.unread, rows, false, false);
    assert SkipSpace(w.ahead) == w.ahead;
  }

  /**
   * A file of rows one after the other is read to its end exactly if no row is longer than the limit
   * and one - and, where chunks are as large as the limit, the first one not longer than the limit.
   */
  lemma LimitExactly(text: string, rows: seq<Json>, chunkSize: nat, maxSize: nat)
    requires FileLayout(text, rows) && text[0] == '{' && 1 <= chunkSize <= maxSize
    ensures rows != []
    ensures Lasts(FirstWindow(text, chunkSize), false, false, maxSize)
            <==> AllFit(rows, maxSize + 1) && (chunkSize == maxSize ==> |Dumps(rows[0])| <= maxSize)
  {
    var w := FirstWindow(text, chunkSize);
    FirstIsSized(text, chunkSize, maxSize);
    assert SkipSpace(text) == text && Layout(w.ahead + w.unread, rows, false, false);
    FirstOfText(text, rows);
    assert chunkSize == maxSize ==> (FirstFits(w, rows, maxSize) <==> |Dumps(rows[0])| <= maxSize);
    hide Layout, FileLayout, FirstWindow, Lasts, SkipSpace;
    assert w.ahead[0] == text[0] by {
      assert (w.ahead + w.unread)[0] == w.ahead[0];
    }
    if Lasts(w, false, false, maxSize) {
      ReadToTheEnd(w, rows, false, false, maxSize);
      if !FirstFits(w, rows, maxSize) {
        FirstRowTooLong(w, rows, maxSize);
      }
    } else if AllFit(rows, maxSize + 1) && FirstFits(w, rows, maxSize) {
      FittingRowsAreRead(w, rows, false, maxSize);
    }
  }

  lemma FirstOfText(text: string, rows: seq<Json>)
    requires text != "" && text[0] == '{' && Layout(text, rows, false, false)
    ensures rows != [] && |Dumps(rows[0])| <= |text|
  {
    assert SkipSpace(text) == text;
  }

  // ----- an array -----

  /** The limit leaves room for every row twice over, and for the end of the array. */
  predicate RoomFor(text: string, rows: seq<Json>, chunkSize: nat, maxSize: nat) {
    && 1 <= chunkSize < maxSize && 4 <= maxSize && AllFit(rows, maxSize / 2) && 2 * (1 + TrailingSpace(text)) <= maxSize
  }

  /** A buffer that is stuck though there is more text to come, with rows and end of at most `n` characters */
  lemma StuckIsShort(p: string, rest: string, rows: seq<Json>, arr: bool, found: bool, text: string, n: nat)
    requires Layout(p + rest, rows, arr, found) && NextRow(p, arr, found) == (p, None) && p != "" && rest != ""
    requires AllFit(rows, n) && 1 + TrailingSpace(text) <= n && IsSuffix(p + rest, text)
    ensures |p| < n
  {
    StuckAtFront(p, rest, rows, arr, found);
    if rows == [] {
      hide Layout, NextRow;
      var end := (p + rest)[1..];
      forall i | 0 <= i < |end| ensures IsSpace(end[i]) {
        AllSpace(end, i);
      }
      var front := text[..|text| - |p + rest|];
      assert text == front + [p[0]] + end;
      SpaceAfter(front, p[0], end);
    }
  }

  lemma {:induction false} RoomIsEnough(
      text: string, w: Window, rows: seq<Json>, arr: bool, found: bool, chunkSize: nat, maxSize: nat)
    requires Sized(w, maxSize) && Layout(w.ahead + w.unread, rows, arr, found) && IsSuffix(w.ahead + w.unread, text)
    requires RoomFor(text, rows, chunkSize, maxSize) && w.size < maxSize
    requires w.front && w.unread != "" ==> |w.ahead| >= w.size
    ensures Lasts(w, arr, found, maxSize)
    decreases |w.unread|, |w.ahead|
  {
    hide NextRow, Layout, Refill, TrailingSpace, IsSuffix;
    var (left, row) := NextRow(w.ahead, arr, found);
    NextRowOnLayout(w.ahead, w.unread, rows, arr, found);
    AfterIsSized(w, arr, found, maxSize);
    AfterIsSuffix(text, w, arr, found);
    var v := After(w, arr, found);
    if row.Some? {
      RoomIsEnough(text, v, rows[1..], arr, true, chunkSize, maxSize);
    } else if w.unread != "" {
      if v.front {
        StuckIsShort(w.ahead, w.unread, rows, arr, found, text, maxSize / 2);
      }
      RefillIsSized(v, maxSize);
      RoomIsEnough(text, Refill(v, maxSize), rows, arr, found, chunkSize, maxSize);
    }
  }

  lemma AfterIsSuffix(text: string, w: Window, arr: bool, found: bool)
    requires IsSuffix(w.ahead + w.unread, text)
    ensures var v := After(w, arr, found); IsSuffix(v.ahead + v.unread, text)
  {
    hide NextRow;
    NextRowMoves(w.ahead, arr, found);
    var left := NextRow(w.ahead, arr, found).0;
    assert w.ahead == w.ahead[..|w.ahead| - |left|] + left;
    assert IsSuffix(left + w.unread, w.ahead + w.unread);
    SuffixTrans(left + w.unread, w.ahead + w.unread, text);
  }

  /** With that much room the limit is not reached, array or not. */
  lemma RoomSuffices(text: string, rows: seq<Json>, chunkSize: nat, maxSize: nat)
    requires FileLayout(text, rows) && !IsSpace(text[0]) && RoomFor(text, rows, chunkSize, maxSize)
    ensures Lasts(FirstWindow(text, chunkSize), text[0] == '[', false, maxSize)
  {
    hide Layout, Lasts, TrailingSpace;
    var w := FirstWindow(text, chunkSize);
    FirstIsSized(text, chunkSize, maxSize);
    assert SkipSpace(text) == text;
    RoomIsEnough(text, w, rows, text[0] == '[', false, chunkSize, maxSize);
  }

  /** A file that was read to its end, array or not, had no row longer than the limit and one. */
  lemma LongRowExceeds(text: string, rows: seq<Json>, chunkSize: nat, maxSize: nat)
    requires FileLayout(text, rows) && !IsSpace(text[0]) && 1 <= chunkSize <= maxSize
    ensures Lasts(FirstWindow(text, chunkSize), text[0] == '[', false, maxSize) ==> AllFit(rows, maxSize + 1)
  {
    hide Layout, Lasts;
    var w := FirstWindow(text, chunkSize);
    FirstIsSized(text, chunkSize, maxSize);
    assert SkipSpace(text) == text;
    if Lasts(w, text[0] == '[', false, maxSize) {
      ReadToTheEnd(w, rows, text[0] == '[', false, maxSize);
    }
  }

  // ----- separators and parts of rows -----

  lemma NewlineFirst(q: string, arr: bool, found: bool)
    ensures NextRow("\n" + q, arr, found) == NextRow(q, arr, found)
  {
    assert ("\n" + q)[1..] == q;
  }

  lemma CommaFirst(q: string)
    requires q != "" && q[0] == '{'
    ensures NextRow(",\n" + q, true, true) == NextRow(q, true, true)
  {
    assert (",\n" + q)[1..] == "\n" + q && ("\n" + q)[1..] == q;
  }

  lemma WholeRow(row: Json, more: string, found: bool)
    requires row.Object?
    ensures NextRow(Dumps(row) + more, true, found) == (more, Some(row))
  {
    hide Dumps, ParseValue;
    ObjectDecodes(row, more);
    assert (Dumps(row) + more)[0] == '{';
  }

  lemma PartOfRow(row: Json, n: nat, found: bool)
    requires row.Object? && n < |Dumps(row)|
    ensures NextRow(Dumps(row)[..n], true, found) == (Dumps(row)[..n], None)
  {
    hide Dumps, ParseValue;
    PrefixFails(row, n);
    ObjectDecodes(row, "");
  }
}
