/**
 * Whether an exported array reaches the buffer limit, decided by the lengths of its rows in their order:
 * the loop of `batches` counted in characters, without text and without a decoder.
 */
module JsonArrays {
  import opened Wrappers
  import opened JsonText
  import opened JsonTextProofs
  import opened JsonImport
  import opened JsonLimit
  import opened JsonExport

  // ----- counting -----

  /**
   * A window on an array as numbers: the characters of separator before the next row, or before the
   * bracket, the lengths of the rows still to come, and how much of all that is buffered and unread
   */
  datatype Counts = Counts(gap: nat, rows: seq<nat>, ahead: nat, unread: nat, front: bool, size: nat)

  /** A comma and a newline stand between rows, a newline before the closing bracket. */
  function GapAfter(rows: nat): nat {
    if rows > 1 then 2 else 1
  }

  /** How much of a separator `get_line` passes over: of a comma and a newline not the last character it has */
  function Skipped(gap: nat, ahead: nat): (n: nat)
    ensures n <= gap && n <= ahead
  {
    if gap == 2 && ahead <= 2 then (if ahead == 2 then 1 else 0) else Min(gap, ahead)
  }

  /** `fill_buffer` */
  function Filled(c: Counts, maxSize: nat): Counts {
    var size := if c.front then Min(2 * c.size, maxSize) else c.size;
    var n := Min(if c.ahead <= size + 1 then size + 1 - c.ahead else 0, c.unread);
    c.(ahead := c.ahead + n, unread := c.unread - n, front := true, size := size)
  }

  /** From a call of `get_line` on: a row is taken exactly if all of it is buffered. */
  predicate GetsThrough(c: Counts, maxSize: nat)
    decreases c.unread, |c.rows|, 1
  {
    var s := Skipped(c.gap, c.ahead);
    if c.rows != [] && c.rows[0] <= c.ahead - s then
      GetsThrough(Counts(GapAfter(|c.rows|), c.rows[1..], c.ahead - s - c.rows[0], c.unread, false, c.size), maxSize)
    else
      FillsThrough(c.(gap := c.gap - s, ahead := c.ahead - s, front := c.front && s == 0), maxSize)
  }

  /** ... and from a call of `fill_buffer` on */
  predicate FillsThrough(c: Counts, maxSize: nat)
    decreases c.unread, |c.rows|, 0
  {
    && !(c.front && c.size == maxSize)
    && (c.unread == 0
        || (Filled(c, maxSize).unread < c.unread && GetsThrough(Filled(c, maxSize), maxSize)))
  }

  /** The length of an array from the separator before its next row on */
  function Pending(gap: nat, rows: seq<nat>): nat
    decreases |rows|
  {
    gap + if rows == [] then 2 else rows[0] + Pending(GapAfter(|rows|), rows[1..])
  }

  /** An array whose rows have these lengths, in this order, is read to its end. */
  predicate LengthsFit(rows: seq<nat>, chunkSize: nat, maxSize: nat)
    requires chunkSize >= 1
  {
    var total := 1 + Pending(1, rows);
    var n := Min(chunkSize, total);
    GetsThrough(Counts(1, rows, n - 1, total - n, false, chunkSize), maxSize)
  }

  function Lengths(rows: seq<Json>): (ns: seq<nat>)
    ensures |ns| == |rows| && forall i :: 0 <= i < |ns| ==> ns[i] == |Dumps(rows[i])|
  {
    seq(|rows|, i requires 0 <= i < |rows| => |Dumps(rows[i])|)
  }

  // ----- the text that is counted -----

  predicate Objects(rows: seq<Json>) {
    forall i :: 0 <= i < |rows| ==> rows[i].Object?
  }

  function GapText(gap: nat): (s: string)
    requires gap <= 2
    ensures |s| == gap
  {
    if gap == 0 then "" else if gap == 1 then "\n" else ",\n"
  }

  /** An array from the separator before its next row on */
  function Tail(gap: nat, rows: seq<Json>): string
    requires gap <= 2
    decreases |rows|
  {
    GapText(gap) + if rows == [] then "]\n" else Dumps(rows[0]) + Tail(GapAfter(|rows|), rows[1..])
  }

  lemma {:induction false} TailIsPending(gap: nat, rows: seq<Json>)
    requires gap <= 2
    ensures |Tail(gap, rows)| == Pending(gap, Lengths(rows))
    decreases |rows|
  {
    hide Dumps;
    if rows != [] {
      TailIsPending(GapAfter(|rows|), rows[1..]);
      assert Lengths(rows)[1..] == Lengths(rows[1..]);
    }
  }

  lemma {:induction false} BodyIsTail(rows: seq<Json>, first: bool)
    ensures Body(rows, first, false) == Tail(if first then 1 else GapAfter(|rows| + 1), rows)
    decreases |rows|
  {
    hide Dumps;
    if rows == [] {
      assert "\n" + "]\n" == "\n]\n";
    } else {
      BodyIsTail(rows[1..], false);
    }
  }

  // ----- `get_line` on such a text -----

  /** The text left and the row, by the numbers */
  predicate Counted(p: string, rest: string, gap: nat, rows: seq<Json>, found: bool)
    requires gap <= 2
  {
    var (left, row) := NextRow(p, true, found);
    var s := Skipped(gap, |p|);
    if rows != [] && |Dumps(rows[0])| <= |p| - s then
      && row == Some(rows[0]) && |left| == |p| - s - |Dumps(rows[0])|
      && left + rest == Tail(GapAfter(|rows|), rows[1..])
    else
      row == None && |left| == |p| - s && left + rest == Tail(gap - s, rows)
  }

  /** Two ways of cutting one text */
  lemma Cut(p: string, rest: string, a: string, b: string)
    requires p + rest == a + b
    ensures if |a| <= |p| then p == a + p[|a|..] && p[|a|..] + rest == b else p == a[..|p|]
  {
    assert if |a| <= |p| then p[..|a|] == (p + rest)[..|a|] == a else p == (a + b)[..|p|];
    assert |a| <= |p| ==> (p + rest)[|a|..] == p[|a|..] + rest && (a + b)[|a|..] == b;
  }

  lemma TailOf(gap: nat, rows: seq<Json>)
    requires gap <= 2
    ensures Tail(gap, rows) == GapText(gap) + Tail(0, rows)
    ensures rows != [] ==> Tail(0, rows) == Dumps(rows[0]) + Tail(GapAfter(|rows|), rows[1..])
    ensures rows == [] ==> Tail(0, rows) == "]\n"
  {
    var t := if rows == [] then "]\n" else Dumps(rows[0]) + Tail(GapAfter(|rows|), rows[1..]);
    assert Tail(gap, rows) == GapText(gap) + t && Tail(0, rows) == "" + t;
    hide Dumps, Tail, GapText;
    assert "" + t == t;
  }

  /** No separator before the row */
  lemma RowCounted(p: string, rest: string, rows: seq<Json>, found: bool)
    requires Objects(rows) && rows != [] && p + rest == Tail(0, rows)
    ensures Counted(p, rest, 0, rows, found)
  {
    TailOf(0, rows);
    hide NextRow, Dumps, Tail;
    var d := Dumps(rows[0]);
    Cut(p, rest, d, Tail(GapAfter(|rows|), rows[1..]));
    if |d| <= |p| {
      WholeRow(rows[0], p[|d|..], found);
    } else {
      PartOfRow(rows[0], |p|, found);
    }
  }

  /** No separator before the bracket */
  lemma EndCounted(p: string, rest: string, found: bool)
    requires p + rest == Tail(0, [])
    ensures Counted(p, rest, 0, [], found)
  {
    TailOf(0, []);
    hide NextRow, Tail;
    assert "]\n" + "" == "]\n";
    Cut(p, rest, "]\n", "");
    if |p| == 2 {
      assert p == "]\n" == "]\n"[..2];
    }
    PartOfEnd(|p|, found);
  }

  lemma PartOfEnd(n: nat, found: bool)
    requires n <= 2
    ensures NextRow("]\n"[..n], true, found) == ("]\n"[..n], None)
  {
  }

  lemma AtOnceCounted(p: string, rest: string, rows: seq<Json>, found: bool)
    requires Objects(rows) && p + rest == Tail(0, rows)
    ensures Counted(p, rest, 0, rows, found)
  {
    hide Counted, Tail;
    if rows == [] {
      EndCounted(p, rest, found);
    } else {
      RowCounted(p, rest, rows, found);
    }
  }

  /** Behind a whole separator everything goes as without one. */
  lemma BehindGap(p: string, q: string, rest: string, gap: nat, rows: seq<Json>, found: bool)
    requires gap <= 2 && |p| == gap + |q| && Skipped(gap, |p|) == gap
    requires NextRow(p, true, found) == NextRow(q, true, found) && Counted(q, rest, 0, rows, found)
    ensures Counted(p, rest, gap, rows, found)
  {
    hide NextRow, Dumps, Tail;
  }

  /** With less than a separator there is no row. */
  lemma WithinGap(p: string, left: string, rest: string, gap: nat, rows: seq<Json>, found: bool)
    requires gap <= 2 && Objects(rows) && |p| - Skipped(gap, |p|) <= 1
    requires NextRow(p, true, found) == (left, None) && |left| == |p| - Skipped(gap, |p|)
    requires left + rest == Tail(gap - Skipped(gap, |p|), rows)
    ensures Counted(p, rest, gap, rows, found)
  {
    hide NextRow, Tail, Dumps;
    if rows != [] {
      ObjectDecodes(rows[0], "");
    }
  }

  lemma ShortTexts(found: bool)
    ensures NextRow("", true, found) == ("", None)
    ensures NextRow(",", true, true) == (",", None)
    ensures NextRow(",\n", true, true) == ("\n", None)
  {
  }

  lemma NewlineCounted(p: string, rest: string, rows: seq<Json>, found: bool)
    requires Objects(rows) && p + rest == Tail(1, rows)
    ensures Counted(p, rest, 1, rows, found)
  {
    TailOf(1, rows);
    hide NextRow, Tail, Counted;
    Cut(p, rest, "\n", Tail(0, rows));
    if p == "" {
      ShortTexts(found);
      WithinGap(p, "", rest, 1, rows, found);
    } else {
      NewlineFirst(p[1..], true, found);
      AtOnceCounted(p[1..], rest, rows, found);
      BehindGap(p, p[1..], rest, 1, rows, found);
    }
  }

  lemma PartsOfComma(p: string)
    requires |p| <= 2 && p == ",\n"[..|p|]
    ensures p == if |p| == 0 then "" else if |p| == 1 then "," else ",\n"
  {
  }

  /** Of a comma and a newline, if that is all there is, the newline is kept. */
  lemma NewlineKept(rest: string, rows: seq<Json>)
    requires Objects(rows) && ",\n" + rest == Tail(2, rows)
    ensures Counted(",\n", rest, 2, rows, true)
  {
    ShortTexts(true);
    TailOf(2, rows);
    TailOf(1, rows);
    hide NextRow, Tail, Counted, Dumps;
    SameRest(",\n", rest, Tail(0, rows));
    WithinGap(",\n", "\n", rest, 2, rows, true);
  }

  lemma SameRest(a: string, b: string, c: string)
    requires a + b == a + c
    ensures b == c
  {
    assert b == (a + b)[|a|..] && c == (a + c)[|a|..];
  }

  lemma CommaCounted(p: string, rest: string, rows: seq<Json>)
    requires Objects(rows) && rows != [] && p + rest == Tail(2, rows)
    ensures Counted(p, rest, 2, rows, true)
  {
    TailOf(2, rows);
    ShortTexts(true);
    hide NextRow, Tail, Counted, Dumps, GapText;
    Cut(p, rest, ",\n", Tail(0, rows));
    if |p| > 2 {
      StartsWithBrace(p[2..], rest, rows);
      CommaFirst(p[2..]);
      AtOnceCounted(p[2..], rest, rows, true);
      BehindGap(p, p[2..], rest, 2, rows, true);
    } else if |p| == 2 {
      assert p == ",\n" + p[2..] == ",\n";
      NewlineKept(rest, rows);
    } else {
      PartsOfComma(p);
      WithinGap(p, p, rest, 2, rows, true);
    }
  }

  lemma StartsWithBrace(q: string, rest: string, rows: seq<Json>)
    requires Objects(rows) && rows != [] && q != "" && q + rest == Tail(0, rows)
    ensures q[0] == '{'
  {
    TailOf(0, rows);
    hide Tail, Dumps;
    ObjectDecodes(rows[0], "");
    assert q[0] == (q + rest)[0];
  }

  // ----- the two loops -----

  /** The window shows an array that has these counts. */
  predicate Shows(w: Window, found: bool, c: Counts, rows: seq<Json>) {
    && c.gap <= 2 && (c.gap == 2 ==> found && rows != [])
    && w.ahead + w.unread == Tail(c.gap, rows)
    && c == Counts(c.gap, Lengths(rows), |w.ahead|, |w.unread|, w.front, w.size)
  }

  lemma GetLineCounted(w: Window, found: bool, c: Counts, rows: seq<Json>)
    requires Objects(rows) && Shows(w, found, c, rows)
    ensures Counted(w.ahead, w.unread, c.gap, rows, found)
    ensures NextRow(w.ahead, true, found).0 == w.ahead <==> |NextRow(w.ahead, true, found).0| == |w.ahead|
  {
    hide NextRow, Counted, Tail;
    NextRowMoves(w.ahead, true, found);
    if c.gap == 2 {
      CommaCounted(w.ahead, w.unread, rows);
    } else if c.gap == 1 {
      NewlineCounted(w.ahead, w.unread, rows, found);
    } else {
      AtOnceCounted(w.ahead, w.unread, rows, found);
    }
  }

  lemma FillCounted(w: Window, found: bool, c: Counts, rows: seq<Json>, maxSize: nat)
    requires Shows(w, found, c, rows)
    ensures Shows(Refill(w, maxSize), found, Filled(c, maxSize), rows)
  {
    hide Tail, Lengths;
    var next := Refill(w, maxSize);
    assert next.ahead + next.unread == w.ahead + w.unread;
  }

  lemma {:induction false} SameOutcome(w: Window, found: bool, c: Counts, rows: seq<Json>, maxSize: nat)
    requires Objects(rows) && Shows(w, found, c, rows)
    ensures Lasts(w, true, found, maxSize) <==> GetsThrough(c, maxSize)
    decreases c.unread, |rows|
  {
    hide NextRow, Tail, Refill, Filled, Dumps;
    GetLineCounted(w, found, c, rows);
    var (left, row) := NextRow(w.ahead, true, found);
    var s := Skipped(c.gap, |w.ahead|);
    if row.Some? {
      assert Lengths(rows)[1..] == Lengths(rows[1..]);
      var v := Window(left, w.unread, false, w.size);
      var d := Counts(GapAfter(|rows|), Lengths(rows[1..]), |left|, c.unread, false, c.size);
      SameOutcome(v, true, d, rows[1..], maxSize);
    } else {
      var v := Window(left, w.unread, w.front && left == w.ahead, w.size);
      var d := c.(gap := c.gap - s, ahead := c.ahead - s, front := c.front && s == 0);
      FillCounted(v, found, d, rows, maxSize);
      if Filled(d, maxSize).unread < d.unread {
        SameOutcome(Refill(v, maxSize), found, Filled(d, maxSize), rows, maxSize);
      }
    }
  }

  lemma FirstOfArray(tail: string, chunkSize: nat)
    requires chunkSize >= 1
    ensures var w := FirstWindow("[" + tail, chunkSize);
            && w.ahead + w.unread == tail && |w.ahead| == Min(chunkSize, 1 + |tail|) - 1
            && !w.front && w.size == chunkSize
  {
    FirstIsSized("[" + tail, chunkSize, chunkSize);
  }

  /**
   * Whether an exported array is imported without reaching the limit, with reads that give what they are
   * asked for, is decided by the lengths of its rows in their order, and by nothing else in them.
   */
  lemma ArrayFitsExactly(rows: seq<Json>, chunkSize: nat, maxSize: nat)
    requires Objects(rows) && chunkSize >= 1
    ensures Fits(rows, false, chunkSize, maxSize) <==> LengthsFit(Lengths(rows), chunkSize, maxSize)
  {
    hide Dumps, Tail, Lasts, GetsThrough, Pending, Lengths, FirstWindow, Body;
    BodyIsTail(rows, true);
    TailIsPending(1, rows);
    FirstOfArray(Tail(1, rows), chunkSize);
    var w := FirstWindow(FileText(rows, false), chunkSize);
    SameOutcome(w, false, Counts(1, Lengths(rows), |w.ahead|, |w.unread|, false, chunkSize), rows, maxSize);
  }

  // ----- the order of the rows -----

  /** The counts after a row is taken */
  lemma Taken(c: Counts, d: Counts, maxSize: nat)
    requires var s := Skipped(c.gap, c.ahead);
             && c.rows != [] && c.rows[0] <= c.ahead - s && d.rows == c.rows[1..]
             && d.gap == GapAfter(|c.rows|) && d.ahead == c.ahead - s - c.rows[0]
             && d.unread == c.unread && !d.front && d.size == c.size
    ensures GetsThrough(c, maxSize) == GetsThrough(d, maxSize)
  {
    hide FillsThrough;
  }

  /** The counts after no row could be taken and the buffer was filled */
  lemma Refilled(c: Counts, d: Counts, maxSize: nat)
    requires var s := Skipped(c.gap, c.ahead);
             var e := c.(gap := c.gap - s, ahead := c.ahead - s, front := c.front && s == 0);
             && (c.rows == [] || c.rows[0] > c.ahead - s)
             && !(e.front && e.size == maxSize) && d == Filled(e, maxSize) && d.unread < e.unread
    ensures GetsThrough(c, maxSize) == GetsThrough(d, maxSize)
  {
  }

  /** The long row first: the buffer ends just before the closing bracket. */
  lemma LongRowFirst(rows: seq<nat>)
    requires |rows| == 3 && rows[0] == 9 && rows[1] == rows[2] == 2
    ensures !LengthsFit(rows, 4, 8)
  {
    var two, one := rows[1..], rows[2..];
    assert two[1..] == one && one[1..] == [] && two[0] == one[0] == 2;
    assert Pending(1, []) == 3 && Pending(2, one) == 7 && Pending(2, two) == 11 && Pending(1, rows) == 21;
    hide GetsThrough, FillsThrough, Pending;
    Refilled(Counts(1, rows, 3, 18, false, 4), Counts(0, rows, 5, 15, true, 4), 8);
    Refilled(Counts(0, rows, 5, 15, true, 4), Counts(0, rows, 9, 11, true, 8), 8);
    Taken(Counts(0, rows, 9, 11, true, 8), Counts(2, two, 0, 11, false, 8), 8);
    Refilled(Counts(2, two, 0, 11, false, 8), Counts(2, two, 9, 2, true, 8), 8);
    Taken(Counts(2, two, 9, 2, true, 8), Counts(2, one, 5, 2, false, 8), 8);
    Taken(Counts(2, one, 5, 2, false, 8), Counts(1, [], 1, 2, false, 8), 8);
    Refilled(Counts(1, [], 1, 2, false, 8), Counts(0, [], 2, 0, true, 8), 8);
    BracketInFront();
  }

  /** The buffer starts with the closing bracket and cannot grow. */
  lemma BracketInFront()
    ensures !GetsThrough(Counts(0, [], 2, 0, true, 8), 8)
  {
  }

  /** The long row last: the buffer ends just before the newline. */
  lemma LongRowLast(rows: seq<nat>)
    requires |rows| == 3 && rows[0] == rows[1] == 2 && rows[2] == 9
    ensures LengthsFit(rows, 4, 8)
  {
    var two, one := rows[1..], rows[2..];
    assert two[1..] == one && one[1..] == [] && two[0] == 2 && one[0] == 9;
    assert Pending(1, []) == 3 && Pending(2, one) == 14 && Pending(2, two) == 18 && Pending(1, rows) == 21;
    hide GetsThrough, FillsThrough, Pending;
    Taken(Counts(1, rows, 3, 18, false, 4), Counts(2, two, 0, 18, false, 4), 8);
    Refilled(Counts(2, two, 0, 18, false, 4), Counts(2, two, 5, 13, true, 4), 8);
    Taken(Counts(2, two, 5, 13, true, 4), Counts(2, one, 1, 13, false, 4), 8);
    OnlyLongRow(one);
  }

  lemma OnlyLongRow(one: seq<nat>)
    requires |one| == 1 && one[0] == 9
    ensures GetsThrough(Counts(2, one, 1, 13, false, 4), 8)
  {
    assert one[1..] == [];
    hide GetsThrough, FillsThrough;
    Refilled(Counts(2, one, 1, 13, false, 4), Counts(2, one, 5, 9, true, 4), 8);
    Refilled(Counts(2, one, 5, 9, true, 4), Counts(0, one, 5, 7, true, 4), 8);
    Refilled(Counts(0, one, 5, 7, true, 4), Counts(0, one, 9, 3, true, 8), 8);
    Taken(Counts(0, one, 9, 3, true, 8), Counts(1, [], 0, 3, false, 8), 8);
    Refilled(Counts(1, [], 0, 3, false, 8), Counts(1, [], 3, 0, true, 8), 8);
    NewlineInFront();
  }

  /** The buffer starts with the newline before the bracket, and nothing is left to read. */
  lemma NewlineInFront()
    ensures GetsThrough(Counts(1, [], 3, 0, true, 8), 8)
  {
  }

  const LONG_ROW := Object([Member("a", Int(10))])
  const EMPTY := Object([])

  lemma TenAsText()
    ensures PutValue(Int(10), "}") == "10}" && PutString("a", ": 10}") == "a\": 10}"
  {
    assert PutNat(1, "0}") == "10}";
    assert PutNat(10, "}") == "10}";
    assert "a"[1..] == "" && PutString("", ": 10}") == "\": 10}";
  }

  lemma TwoRows()
    ensures |Dumps(LONG_ROW)| == 9 && |Dumps(EMPTY)| == 2
  {
    hide PutString, PutInt;
    TenAsText();
    var m := Member("a", Int(10));
    var number := PutValue(m.value, "}");
    assert number == "10}" && Put(':', Put(' ', number)) == ": 10}";
    assert PutMember(m, "}") == "\"a\": 10}";
    assert Put('}', "") == "}" && [m][0] == m;
    assert PutMembers([m], "") == PutMember(m, "}");
    assert Put('{', PutMember(m, "}")) == "{\"a\": 10}";
  }

  /**
   * The order matters: of the same three rows, none longer than the limit and one, one order fits and
   * another does not. A condition that looks at the lengths without their order is not exact.
   */
  lemma OrderDecides()
    ensures AllFit([LONG_ROW, EMPTY, EMPTY], 8 + 1) && AllFit([EMPTY, EMPTY, LONG_ROW], 8 + 1)
    ensures !Fits([LONG_ROW, EMPTY, EMPTY], false, 4, 8)
    ensures Fits([EMPTY, EMPTY, LONG_ROW], false, 4, 8)
  {
    hide Dumps, Fits, LengthsFit;
    TwoRows();
    ArrayFitsExactly([LONG_ROW, EMPTY, EMPTY], 4, 8);
    ArrayFitsExactly([EMPTY, EMPTY, LONG_ROW], 4, 8);
    LongRowFirst(Lengths([LONG_ROW, EMPTY, EMPTY]));
    LongRowLast(Lengths([EMPTY, EMPTY, LONG_ROW]));
  }
}
