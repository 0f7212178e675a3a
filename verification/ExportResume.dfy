/**
 * The reading loop of `export_table` in rethinkdb/_export.py, which takes up a table again behind the
 * last row it has queued whenever the connection fails. What happens on the connection is given as a
 * list of attempts, one for every cursor.
 */
module ExportResume {
  import opened Wrappers

  type Key(==, !new)
  type Data(==, !new)

  datatype Row = Row(key: Key, data: Data)

  /** How a cursor ends: at its end, by a failed connection or by the exit event, the latter two after `after` rows */
  datatype Ending = Exhausted | ConnectionLost(after: nat) | ExitSet(after: nat)

  /** A cursor: the table as it is while it is read, in primary key order, and how it ends */
  datatype Attempt = Attempt(table: seq<Row>, ending: Ending)

  datatype Outcome = Completed | Interrupted | Refused

  /** The order of the primary index */
  type Order = (Key, Key) -> bool

  ghost predicate StrictTotalOrder(less: Order) {
    && (forall a :: !less(a, a))
    && (forall a, b, c :: less(a, b) && less(b, c) ==> less(a, c))
    && (forall a, b :: a == b || less(a, b) || less(b, a))
  }

  predicate Ascending(less: Order, rows: seq<Row>) {
    forall i, j :: 0 <= i < j < |rows| ==> less(rows[i].key, rows[j].key)
  }

  /** `between(last, r.maxval, left_bound="open").order_by(index=...)`, the whole table without a bound */
  function Above(less: Order, rows: seq<Row>, last: Option<Key>): (r: seq<Row>)
    ensures forall x :: x in r <==> x in rows && (last.None? || less(last.value, x.key))
  {
    if rows == [] then []
    else (if last.None? || less(last.value, rows[0].key) then [rows[0]] else []) + Above(less, rows[1..], last)
  }

  /** The rows a cursor gives before it ends */
  function Delivered(rows: seq<Row>, ending: Ending): (r: seq<Row>)
    ensures r <= rows
  {
    if ending.Exhausted? || ending.after >= |rows| then rows else rows[..ending.after]
  }

  function LastKey(last: Option<Key>, rows: seq<Row>): Option<Key> {
    if rows == [] then last else Some(rows[|rows| - 1].key)
  }

  /** Every cursor but the last ends with the connection. */
  predicate IsHistory(attempts: seq<Attempt>) {
    && attempts != []
    && (forall i :: 0 <= i < |attempts| - 1 ==> attempts[i].ending.ConnectionLost?)
    && !attempts[|attempts| - 1].ending.ConnectionLost?
  }

  /** The rows queued from the cursors that are left, with `last` the last key queued before */
  function Exported(less: Order, last: Option<Key>, attempts: seq<Attempt>): (Outcome, seq<Row>)
    decreases |attempts|
  {
    if attempts == [] then
      (Completed, [])
    else
      var rows := Above(less, attempts[0].table, last);
      var delivered := Delivered(rows, attempts[0].ending);
      match attempts[0].ending
      case Exhausted => (Completed, delivered)
      case ExitSet(after) => (if after >= |rows| then Completed else Interrupted, delivered)
      case ConnectionLost(_) =>
        var next := LastKey(last, delivered);
        if next.None? then
          (Refused, delivered)
        else
          var (outcome, rest) := Exported(less, next, attempts[1..]);
          (outcome, delivered + rest)
  }

  lemma ExportedFirst(less: Order, last: Option<Key>, attempts: seq<Attempt>, k: nat)
    requires k < |attempts|
    ensures var rows := Above(less, attempts[k].table, last);
            var delivered := Delivered(rows, attempts[k].ending);
            Exported(less, last, attempts[k..]) ==
              match attempts[k].ending
              case Exhausted => (Completed, delivered)
              case ExitSet(after) => (if after >= |rows| then Completed else Interrupted, delivered)
              case ConnectionLost(_) =>
                var next := LastKey(last, delivered);
                if next.None? then (Refused, delivered)
                else var rest := Exported(less, next, attempts[k + 1..]); (rest.0, delivered + rest.1)
  {
    assert attempts[k..][0] == attempts[k] && attempts[k..][1..] == attempts[k + 1..];
  }

  class TableExport {
    const less: Order
    var taskQueue: seq<Row>
    var lastPrimaryKey: Option<Key>
    var readRows: nat
    var progress: (nat, nat)

    constructor (less: Order, estimate: nat)
      ensures this.less == less && taskQueue == [] && lastPrimaryKey == None && readRows == 0
              && progress == (0, estimate)
    {
      this.less, taskQueue, lastPrimaryKey, readRows, progress := less, [], None, 0, (0, estimate);
    }

    /** The `for` loop over one cursor; whether it ran to its end */
    method ReadCursor(rows: seq<Row>, ending: Ending) returns (exhausted: bool)
      modifies this
      ensures var delivered := Delivered(rows, ending);
              && taskQueue == old(taskQueue) + delivered && lastPrimaryKey == LastKey(old(lastPrimaryKey), delivered)
              && readRows == old(readRows) + |delivered|
              && (exhausted ==> progress == (readRows, readRows))
              && (!exhausted ==> progress.1 == old(progress).1)
      ensures exhausted <==> ending.Exhausted? || (ending.ExitSet? && ending.after >= |rows|)
    {
      var i := 0;
      while i < |rows|
        invariant i <= |Delivered(rows, ending)|
        invariant taskQueue == old(taskQueue) + rows[..i] && lastPrimaryKey == LastKey(old(lastPrimaryKey), rows[..i])
        invariant readRows == old(readRows) + i && progress.1 == old(progress).1
      {
        if !ending.Exhausted? && ending.after == i {
          return false;
        }
        taskQueue := taskQueue + [rows[i]];
        lastPrimaryKey := Some(rows[i].key);
        readRows := readRows + 1;
        if readRows % 20 == 0 {
          progress := (readRows, progress.1);
        }
        i := i + 1;
        assert rows[..i] == rows[..i - 1] + [rows[i - 1]];
      }
      assert rows[..i] == rows;
      if ending.ConnectionLost? {
        return false;
      }
      progress := (readRows, readRows);
      return true;
    }

    /** A cursor that starts behind no key at all is refused by the server: a bound may not be null. */
    method Read(attempts: seq<Attempt>) returns (outcome: Outcome)
      requires IsHistory(attempts) && lastPrimaryKey.None? && taskQueue == [] && readRows == 0
      modifies this
      ensures (outcome, taskQueue) == Exported(less, None, attempts)
      ensures readRows == |taskQueue|
      ensures outcome == Completed ==> progress == (|taskQueue|, |taskQueue|)
    {
      hide Exported, Above;
      var cursor := Above(less, attempts[0].table, None);
      var k := 0;
      assert attempts[0..] == attempts;
      assert taskQueue + Exported(less, None, attempts).1 == Exported(less, None, attempts).1;
      while true
        invariant k < |attempts|
        invariant cursor == Above(less, attempts[k].table, lastPrimaryKey)
        invariant readRows == |taskQueue|
        invariant var rest := Exported(less, lastPrimaryKey, attempts[k..]);
                  Exported(less, None, attempts) == (rest.0, taskQueue + rest.1)
        decreases |attempts| - k
      {
        ghost var queued := taskQueue;
        ExportedFirst(less, lastPrimaryKey, attempts, k);
        var exhausted := ReadCursor(cursor, attempts[k].ending);
        if exhausted {
          return Completed;
        }
        if attempts[k].ending.ExitSet? {
          return Interrupted;
        }
        if lastPrimaryKey.None? {
          return Refused;
        }
        ghost var rest := Exported(less, lastPrimaryKey, attempts[k + 1..]).1;
        ghost var delivered := Delivered(cursor, attempts[k].ending);
        assert queued + (delivered + rest) == queued + delivered + rest;
        k := k + 1;
        cursor := Above(less, attempts[k].table, lastPrimaryKey);
      }
    }
  }

  // ----- a table that does not change -----

  lemma {:induction false} AboveNothing(less: Order, rows: seq<Row>)
    ensures Above(less, rows, None) == rows
  {
    if rows != [] {
      AboveNothing(less, rows[1..]);
    }
  }

  /** What lies above the key of a row is what follows the row. */
  lemma {:induction false} AboveFollows(less: Order, rows: seq<Row>, k: nat, last: Key)
    requires StrictTotalOrder(less) && Ascending(less, rows) && k <= |rows|
    requires forall i :: 0 <= i < k ==> !less(last, rows[i].key)
    requires forall i :: k <= i < |rows| ==> less(last, rows[i].key)
    ensures Above(less, rows, Some(last)) == rows[k..]
  {
    if rows != [] {
      if k == 0 {
        AboveFollows(less, rows[1..], 0, last);
      } else {
        AboveFollows(less, rows[1..], k - 1, last);
        assert rows[1..][k - 1..] == rows[k..];
      }
    }
  }

  lemma AboveRow(less: Order, rows: seq<Row>, k: nat)
    requires StrictTotalOrder(less) && Ascending(less, rows) && 0 < k <= |rows|
    ensures Above(less, rows, Some(rows[k - 1].key)) == rows[k..]
  {
    forall i | 0 <= i < k ensures !less(rows[k - 1].key, rows[i].key) {
      if i < k - 1 {
        assert less(rows[i].key, rows[k - 1].key);
      }
    }
    AboveFollows(less, rows, k, rows[k - 1].key);
  }

  predicate Unchanging(attempts: seq<Attempt>, table: seq<Row>) {
    forall i :: 0 <= i < |attempts| ==> attempts[i].table == table
  }

  lemma AboveLast(less: Order, table: seq<Row>, k: nat)
    requires StrictTotalOrder(less) && Ascending(less, table) && k <= |table|
    ensures Above(less, table, LastKey(None, table[..k])) == table[k..]
  {
    hide StrictTotalOrder, Ascending, Above;
    if k == 0 {
      AboveNothing(less, table);
    } else {
      AboveRow(less, table, k);
    }
  }

  lemma ExportedOnce(less: Order, last: Option<Key>, attempts: seq<Attempt>, rows: seq<Row>)
    requires attempts != [] && Above(less, attempts[0].table, last) == rows
    ensures var delivered := Delivered(rows, attempts[0].ending);
            var next := LastKey(last, delivered);
            var (outcome, queued) := Exported(less, last, attempts);
            if attempts[0].ending.ConnectionLost? then
              if next.None? then outcome.Refused? && queued == delivered
              else
                var (later, more) := Exported(less, next, attempts[1..]);
                outcome == later && queued == delivered + more
            else !outcome.Refused? && queued == delivered && (outcome.Completed? <==> delivered == rows)
  {
    hide Above;
  }

  lemma OneCursorLess(attempts: seq<Attempt>, table: seq<Row>)
    requires IsHistory(attempts) && Unchanging(attempts, table)
    ensures attempts != [] && attempts[0].table == table
    ensures attempts[0].ending.ConnectionLost? ==> IsHistory(attempts[1..]) && Unchanging(attempts[1..], table)
  {
  }

  lemma {:induction false} RestIsExported(
      less: Order, table: seq<Row>, k: nat, last: Option<Key>, attempts: seq<Attempt>)
    requires StrictTotalOrder(less) && Ascending(less, table) && IsHistory(attempts) && Unchanging(attempts, table)
    requires k <= |table| && last == LastKey(None, table[..k])
    ensures var (outcome, rows) := Exported(less, last, attempts);
            && rows <= table[k..]
            && (outcome.Completed? ==> rows == table[k..]) && (outcome.Interrupted? ==> rows < table[k..])
            && (outcome.Refused? <==>
                  k == 0 && attempts[0].ending.ConnectionLost? && Delivered(table, attempts[0].ending) == [])
    decreases |attempts|
  {
    hide StrictTotalOrder, Ascending, Above, Exported, IsHistory, Unchanging, Delivered, LastKey;
    AboveLast(less, table, k);
    OneCursorLess(attempts, table);
    NextPlace(table, k, attempts[0].ending);
    ExportedOnce(less, last, attempts, table[k..]);
    var delivered := Delivered(table[k..], attempts[0].ending);
    var m, next := k + |delivered|, LastKey(last, delivered);
    if attempts[0].ending.ConnectionLost? && m > 0 {
      RestIsExported(less, table, m, next, attempts[1..]);
      PrefixAfter(delivered, Exported(less, next, attempts[1..]).1, table[m..]);
    }
    assert k == 0 ==> table[k..] == table;
  }

  lemma PrefixAfter(a: seq<Row>, b: seq<Row>, c: seq<Row>)
    requires b <= c
    ensures a + b <= a + c && (b == c ==> a + b == a + c) && (b < c ==> a + b < a + c)
  {
  }

  /** Where the export stands after a cursor that started at row `k` */
  lemma NextPlace(table: seq<Row>, k: nat, ending: Ending)
    requires k <= |table|
    ensures var delivered := Delivered(table[k..], ending);
            var m := k + |delivered|;
            && m <= |table| && table[k..] == delivered + table[m..]
            && LastKey(LastKey(None, table[..k]), delivered) == LastKey(None, table[..m])
            && (LastKey(None, table[..m]).None? <==> m == 0)
  {
    var delivered := Delivered(table[k..], ending);
    assert table[..k + |delivered|] == table[..k] + delivered;
  }

  /**
   * However often the connection fails: what is queued are rows of the table from its first on, none
   * left out and none twice, all of them if the export completes and not all if it is interrupted. It is
   * refused exactly when the very first cursor fails before its first row.
   */
  lemma {:induction false} ResumedExport(less: Order, table: seq<Row>, attempts: seq<Attempt>)
    requires StrictTotalOrder(less) && Ascending(less, table) && IsHistory(attempts) && Unchanging(attempts, table)
    ensures var (outcome, rows) := Exported(less, None, attempts);
            && rows <= table
            && (outcome.Completed? ==> rows == table) && (outcome.Interrupted? ==> rows < table)
            && (outcome.Refused? <==> attempts[0].ending.ConnectionLost? && Delivered(table, attempts[0].ending) == [])
  {
    RestIsExported(less, table, 0, None, attempts);
  }

  // ----- a table that changes between the cursors -----

  lemma {:induction false} AboveAscends(less: Order, rows: seq<Row>, last: Option<Key>)
    requires Ascending(less, rows)
    ensures Ascending(less, Above(less, rows, last))
  {
    if rows != [] {
      AboveAscends(less, rows[1..], last);
      forall x | x in Above(less, rows[1..], last) ensures less(rows[0].key, x.key) {
        var i :| 0 <= i < |rows| - 1 && rows[1..][i] == x;
        assert rows[i + 1] == x;
      }
    }
  }

  predicate AllAbove(less: Order, last: Option<Key>, rows: seq<Row>) {
    last.None? || forall x :: x in rows ==> less(last.value, x.key)
  }

  lemma JoinAscending(less: Order, a: seq<Row>, b: seq<Row>, last: Option<Key>)
    requires StrictTotalOrder(less) && Ascending(less, a) && Ascending(less, b)
    requires AllAbove(less, last, a) && AllAbove(less, LastKey(last, a), b)
    ensures Ascending(less, a + b) && AllAbove(less, last, a + b)
  {
    forall i, j | 0 <= i < j < |a + b| ensures less((a + b)[i].key, (a + b)[j].key) {
      if i < |a| <= j {
        assert less(a[|a| - 1].key, b[j - |a|].key);
      }
    }
    forall x | last.Some? && x in a + b ensures less(last.value, x.key) {
      if x !in a && a != [] {
        assert less(a[|a| - 1].key, x.key) && less(last.value, a[|a| - 1].key);
      }
    }
  }

  predicate AllAscending(less: Order, attempts: seq<Attempt>) {
    forall i :: 0 <= i < |attempts| ==> Ascending(less, attempts[i].table)
  }

  lemma {:induction false} NoneTwice(less: Order, last: Option<Key>, attempts: seq<Attempt>)
    requires StrictTotalOrder(less) && AllAscending(less, attempts)
    ensures Ascending(less, Exported(less, last, attempts).1) && AllAbove(less, last, Exported(less, last, attempts).1)
    decreases |attempts|
  {
    hide StrictTotalOrder, Ascending;
    if attempts == [] {
      FewAscend(less, []);
    } else {
      var rows := Above(less, attempts[0].table, last);
      var delivered := Delivered(rows, attempts[0].ending);
      AboveAscends(less, attempts[0].table, last);
      PrefixAscends(less, rows, delivered);
      var next := LastKey(last, delivered);
      if attempts[0].ending.ConnectionLost? && next.Some? {
        NoneTwice(less, next, attempts[1..]);
        JoinAscending(less, delivered, Exported(less, next, attempts[1..]).1, last);
      }
    }
  }

  lemma FewAscend(less: Order, rows: seq<Row>)
    requires |rows| <= 1
    ensures Ascending(less, rows)
  {
  }

  lemma PrefixAscends(less: Order, rows: seq<Row>, prefix: seq<Row>)
    requires Ascending(less, rows) && prefix <= rows
    ensures Ascending(less, prefix)
  {
  }

  predicate Shown(attempts: seq<Attempt>, x: Row) {
    exists i :: 0 <= i < |attempts| && x in attempts[i].table
  }

  lemma {:induction false} AllShown(less: Order, last: Option<Key>, attempts: seq<Attempt>, x: Row)
    requires x in Exported(less, last, attempts).1
    ensures Shown(attempts, x)
    decreases |attempts|
  {
    var delivered := Delivered(Above(less, attempts[0].table, last), attempts[0].ending);
    if x !in delivered {
      AllShown(less, LastKey(last, delivered), attempts[1..], x);
      var i :| 0 <= i < |attempts| - 1 && x in attempts[1..][i].table;
      assert x in attempts[i + 1].table;
    }
  }

  predicate AlwaysShown(attempts: seq<Attempt>, x: Row) {
    forall i :: 0 <= i < |attempts| ==> x in attempts[i].table
  }

  lemma {:induction false} NoneLost(less: Order, last: Option<Key>, attempts: seq<Attempt>, x: Row)
    requires AllAscending(less, attempts) && AlwaysShown(attempts, x) && IsHistory(attempts)
    requires last.None? || less(last.value, x.key)
    requires Exported(less, last, attempts).0.Completed?
    ensures x in Exported(less, last, attempts).1
    decreases |attempts|
  {
    hide Ascending, Above;
    var rows := Above(less, attempts[0].table, last);
    var delivered := Delivered(rows, attempts[0].ending);
    assert x in attempts[0].table && Ascending(less, attempts[0].table);
    AboveAscends(less, attempts[0].table, last);
    if x !in delivered {
      NotDelivered(less, rows, delivered, x, last);
      LaterCursors(less, attempts, x);
      hide AllAscending, AlwaysShown, IsHistory, Delivered, LastKey;
      NoneLost(less, LastKey(last, delivered), attempts[1..], x);
    }
  }

  lemma LaterCursors(less: Order, attempts: seq<Attempt>, x: Row)
    requires AllAscending(less, attempts) && AlwaysShown(attempts, x) && IsHistory(attempts)
    requires attempts[0].ending.ConnectionLost?
    ensures AllAscending(less, attempts[1..]) && AlwaysShown(attempts[1..], x) && IsHistory(attempts[1..])
  {
    hide Ascending;
  }

  lemma NotDelivered(less: Order, rows: seq<Row>, delivered: seq<Row>, x: Row, last: Option<Key>)
    requires Ascending(less, rows) && delivered <= rows && x in rows && x !in delivered
    requires last.None? || less(last.value, x.key)
    ensures LastKey(last, delivered).None? || less(LastKey(last, delivered).value, x.key)
  {
    if delivered != [] {
      var j :| 0 <= j < |rows| && rows[j] == x;
      assert delivered == rows[..|delivered|];
      assert j >= |delivered|;
    }
  }

  /**
   * Rows come and go while the export runs. Still no key is queued twice, the keys ascend, nothing is
   * queued that no cursor showed, and a completed export has every row that was there all the time.
   */
  lemma ChangingTable(less: Order, attempts: seq<Attempt>)
    requires StrictTotalOrder(less) && IsHistory(attempts) && AllAscending(less, attempts)
    ensures var (outcome, rows) := Exported(less, None, attempts);
            && Ascending(less, rows)
            && (forall x :: x in rows ==> Shown(attempts, x))
            && (outcome.Completed? ==> forall x :: AlwaysShown(attempts, x) ==> x in rows)
  {
    hide StrictTotalOrder, Ascending, Exported, Shown, AlwaysShown, IsHistory, AllAscending;
    NoneTwice(less, None, attempts);
    forall x | x in Exported(less, None, attempts).1 ensures Shown(attempts, x) {
      AllShown(less, None, attempts, x);
    }
    if Exported(less, None, attempts).0.Completed? {
      forall x | AlwaysShown(attempts, x) ensures x in Exported(less, None, attempts).1 {
        NoneLost(less, None, attempts, x);
      }
    }
  }

  /** A connection lost before the first row of a table with rows */
  lemma RefusedBeforeFirstRow(less: Order, row: Row)
    ensures Exported(less, None, [Attempt([row], ConnectionLost(0)), Attempt([row], Exhausted)]) == (Refused, [])
  {
    AboveNothing(less, [row]);
    assert [row][..0] == [];
  }
}
