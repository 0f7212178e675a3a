/**
 * `JsonSourceFile` of rethinkdb/_import.py: a sliding buffer that doubles when a document does not fit,
 * counts its end one short, and retries the decoder on whatever it holds.
 */
module JsonImport {
  import opened Wrappers
  import opened JsonText
  import opened JsonTextProofs

  datatype Fill = Filled | BufferExceeded | TargetTooSmall | Ended

  datatype Setup = Ready | SetupFill(fill: Fill) | NotRecognized

  datatype Outcome =
    | Done
    | BadBatchSize                 // AssertionError before anything is read
    | SetupFailed(setup: Setup)    // raised outside the `try` of `batches`
    | FillFailed(fill: Fill)       // the buffer limit, or the assertion on the read target
    | BadEnd                       // `teardown` objects to what is left

  /** `get_line` on the text from `_buffer_pos` on: where it leaves the position, and the row if there is one. */
  function NextRow(p: string, arr: bool, found: bool): (r: (string, Option<Json>))
    ensures |r.0| <= |p| && (r.1.Some? ==> |r.0| < |p|)
  {
    var p1 := SkipSpace(p);
    if |p1| <= 1 then (p1, None)
    else
      var p2 := if arr && found && p1[0] == ',' then p1[1..] else p1;
      if |p2| <= 1 then (p2, None)
      else
        var p3 := SkipSpace(p2);
        if |p3| <= 1 then (p3, None)
        else
          match ParseValue(p3)
          case None => (p3, None)
          case Some((v, rest)) => (rest, Some(v))
  }

  /** `teardown` accepts exactly a closing bracket (of an array) and white space. */
  predicate EndsCleanly(p: string, arr: bool) {
    var p1 := SkipSpace(p);
    if arr then p1 != "" && p1[0] == ']' && SkipSpace(p1[1..]) == "" else p1 == ""
  }

  /** The text of a file from some point on, when `rows` are still to come: see `Layout` for what it means. */
  function SkipComma(p: string, arr: bool, found: bool): string {
    var p1 := SkipSpace(p);
    if arr && found && p1 != "" && p1[0] == ',' then SkipSpace(p1[1..]) else p1
  }

  /**
   * `p` holds `rows` and a clean end: white space anywhere between rows and, inside an array, at most
   * one comma between two of them.
   */
  predicate Layout(p: string, rows: seq<Json>, arr: bool, found: bool)
    decreases |rows|
  {
    if rows == [] then EndsCleanly(p, arr)
    else
      var s := SkipComma(p, arr, found);
      rows[0].Object? && Dumps(rows[0]) <= s && Layout(s[|Dumps(rows[0])|..], rows[1..], arr, true)
  }

  /** A whole file, which may start with white space */
  predicate FileLayout(text: string, rows: seq<Json>) {
    var t := SkipSpace(text);
    && t != ""
    && (if t[0] == '[' then Layout(t[1..], rows, true, false) else t[0] == '{' && Layout(t, rows, false, false))
  }

  function Concat<T>(xss: seq<seq<T>>): seq<T> {
    if xss == [] then [] else Concat(xss[..|xss| - 1]) + xss[|xss| - 1]
  }

  /**
   * What `get_line` and `fill_buffer` see: the text from `_buffer_pos` on, the rest of the file, whether
   * `_buffer_pos` is 0, and `_buffer_size`
   */
  datatype Window = Window(ahead: string, unread: string, front: bool, size: nat)

  function Min(a: nat, b: nat): nat {
    if a <= b then a else b
  }

  /** The buffer size `fill_buffer` goes on with */
  function NextSize(started: bool, pos: nat, size: nat, maxSize: nat): nat {
    if started && pos == 0 then (if size * 2 < maxSize then size * 2 else maxSize) else size
  }

  /** `fill_buffer`, when the read gives what it was asked for or all that is left */
  function Refill(w: Window, maxSize: nat): Window {
    var size := NextSize(true, if w.front then 0 else 1, w.size, maxSize);
    var n := Min(if |w.ahead| <= size + 1 then size + 1 - |w.ahead| else 0, |w.unread|);
    Window(w.ahead + w.unread[..n], w.unread[n..], true, size)
  }

  /** The loop of `batches` with such reads, from a call of `get_line` on: it comes to the end of the file. */
  predicate Lasts(w: Window, arr: bool, found: bool, maxSize: nat)
    decreases |w.unread|, |w.ahead|, 1
  {
    var (left, row) := NextRow(w.ahead, arr, found);
    if row.Some? then Lasts(Window(left, w.unread, false, w.size), arr, true, maxSize)
    else Refills(Window(left, w.unread, w.front && left == w.ahead, w.size), arr, found, maxSize)
  }

  /** ... and from a call of `fill_buffer` on */
  predicate Refills(w: Window, arr: bool, found: bool, maxSize: nat)
    decreases |w.unread|, |w.ahead|, 0
  {
    && !(w.front && w.size == maxSize)
    && (w.unread == ""
        || (|Refill(w, maxSize).unread| < |w.unread| && Lasts(Refill(w, maxSize), arr, found, maxSize)))
  }

  /** After `setup_file`, in a file that does not start with white space */
  function FirstWindow(text: string, chunkSize: nat): Window
    requires text != "" && chunkSize >= 1
  {
    var n := Min(chunkSize, |text|);
    var start := if text[0] == '[' then 1 else 0;
    Window(text[start..n], text[n..], start == 0, chunkSize)
  }

  // ----- what `get_line` makes of a file that holds `rows` -----

  /** Only the white space at the front tells two texts apart for `Layout`. */
  lemma LayoutSkipsSpace(p: string, q: string, rows: seq<Json>, arr: bool, found: bool)
    requires SkipSpace(p) == SkipSpace(q)
    ensures Layout(p, rows, arr, found) == Layout(q, rows, arr, found)
  {
  }

  lemma SkipSpaceAt(s: string, i: nat)
    requires i <= |s|
    ensures SkipSpace(s[i..]) == if i < |s| && IsSpace(s[i]) then SkipSpace(s[i + 1..]) else s[i..]
  {
    if i < |s| {
      assert s[i..][1..] == s[i + 1..];
    }
  }

  lemma {:induction false} SkipSpaceTwice(p: string, rest: string)
    ensures SkipSpace(SkipSpace(p) + rest) == SkipSpace(p + rest)
  {
    if p != "" && IsSpace(p[0]) {
      SkipSpaceTwice(p[1..], rest);
      assert (p + rest)[1..] == p[1..] + rest;
    }
  }

  /** White space at the front of a buffer: there is none, or there was some. */
  lemma SkippedSpace(buffer: string, pos: nat, rest: string)
    requires buffer != "" && pos <= |buffer| && buffer[pos..] == SkipSpace(buffer[0..])
    ensures SkipSpace(buffer[pos..] + rest) == SkipSpace(buffer + rest)
    ensures if pos == 0 then SkipSpace(buffer + rest) == buffer + rest else IsSpace(buffer[0])
  {
    assert buffer[0..] == buffer;
    SkipSpaceTwice(buffer, rest);
    SkipSpaceStarts(buffer);
  }

  /** The decoder on a buffer that starts with a whole row of the file, or with part of one */
  lemma DecodeWholeRow(p: string, rest: string, row: Json)
    requires row.Object? && Dumps(row) <= p
    ensures ParseValue(p) == Some((row, p[|Dumps(row)|..]))
    ensures p[|Dumps(row)|..] + rest == (p + rest)[|Dumps(row)|..]
  {
    assert p == Dumps(row) + p[|Dumps(row)|..];
    ObjectDecodes(row, p[|Dumps(row)|..]);
  }

  lemma DecodePartialRow(p: string, rest: string, row: Json)
    requires row.Object? && Dumps(row) <= p + rest && |p| < |Dumps(row)|
    ensures ParseValue(p).None?
  {
    assert p == Dumps(row)[..|p|];
    PrefixFails(row, |p|);
  }

  /** After white space and a comma, if one is due, the buffer starts with the next row. */
  lemma DecodeStep(p3: string, rest: string, rows: seq<Json>, arr: bool, found: bool)
    requires Layout(p3 + rest, rows, arr, found) && |p3| > 1 && !IsSpace(p3[0])
    requires arr && found ==> p3[0] != ','
    ensures var r := ParseValue(p3);
            && (r.None? && rest == "" ==> rows == [])
            && (r.Some? ==> rows != [] && r.value.0 == rows[0] && Layout(r.value.1 + rest, rows[1..], arr, true))
            && (r.Some? ==> |Dumps(rows[0])| <= |p3|)
  {
    assert SkipSpace(p3 + rest) == p3 + rest;
    if rows != [] {
      assert SkipComma(p3 + rest, arr, found) == p3 + rest;
      if |Dumps(rows[0])| <= |p3| {
        DecodeWholeRow(p3, rest, rows[0]);
      } else {
        DecodePartialRow(p3, rest, rows[0]);
      }
    }
  }

  lemma CommaStep(p1: string, rest: string, rows: seq<Json>, arr: bool)
    requires Layout(p1 + rest, rows, arr, true) && arr && p1 != "" && p1[0] == ','
    ensures rows != [] && Layout(p1[1..] + rest, rows, arr, true)
    ensures SkipSpace(p1[1..] + rest) != "" && SkipSpace(p1[1..] + rest)[0] == '{'
  {
    assert SkipSpace(p1 + rest) == p1 + rest;
    assert rows != [];
    var s := SkipComma(p1 + rest, arr, true);
    assert (p1 + rest)[1..] == p1[1..] + rest;
    assert s == SkipSpace(p1[1..] + rest);
    ObjectDecodes(rows[0], "");
    assert s[0] == '{';
    assert SkipComma(p1[1..] + rest, arr, true) == s;
  }

  /** `get_line` on a buffer of such a file returns the next row, or moves on without losing anything. */
  lemma NextRowOnLayout(p: string, rest: string, rows: seq<Json>, arr: bool, found: bool)
    requires Layout(p + rest, rows, arr, found)
    ensures var (k, row) := NextRow(p, arr, found);
            && (row.None? ==> Layout(k + rest, rows, arr, found) && (rest == "" ==> rows == []))
            && (row.Some? ==> rows != [] && row.value == rows[0] && Layout(k + rest, rows[1..], arr, true))
            && (row.Some? ==> |Dumps(rows[0])| <= |p|)
  {
    var p1 := SkipSpace(p);
    SkipSpaceTwice(p, rest);
    LayoutSkipsSpace(p + rest, p1 + rest, rows, arr, found);
    SkipSpaceStarts(p);
    if |p1| <= 1 {
      TooShort(p1, rest, rows, arr, found);
    } else if arr && found && p1[0] == ',' {
      CommaStep(p1, rest, rows, arr);
      var p2 := p1[1..];
      var p3 := SkipSpace(p2);
      SkipSpaceTwice(p2, rest);
      LayoutSkipsSpace(p2 + rest, p3 + rest, rows, arr, found);
      SkipSpaceStarts(p2);
      if |p2| <= 1 {
        TooShort(p2, rest, rows, arr, found);
      } else if |p3| <= 1 {
        TooShort(p3, rest, rows, arr, found);
      } else {
        assert SkipSpace(p3 + rest) == p3 + rest;
        DecodeStep(p3, rest, rows, arr, found);
      }
    } else {
      assert SkipSpace(p1) == p1;
      DecodeStep(p1, rest, rows, arr, found);
    }
  }

  lemma {:induction false} SkipSpaceStarts(p: string)
    ensures SkipSpace(p) != "" ==> !IsSpace(SkipSpace(p)[0])
  {
    if p != "" && IsSpace(p[0]) {
      SkipSpaceStarts(p[1..]);
    }
  }

  /** With less than two characters left there is no row to be had. */
  lemma TooShort(p: string, rest: string, rows: seq<Json>, arr: bool, found: bool)
    requires Layout(p + rest, rows, arr, found) && |p| <= 1
    ensures rest == "" ==> rows == []
  {
    if rest == "" && rows != [] {
      ObjectDecodes(rows[0], "");
      SkipSpaceSuffix(p);
    }
  }

  lemma TailIsSuffix(s: string)
    ensures IsSuffix(s, s) && (s != "" ==> IsSuffix(s[1..], s))
  {
  }

  /** `get_line` leaves an end of what it found. */
  lemma NextRowMoves(p: string, arr: bool, found: bool)
    ensures IsSuffix(NextRow(p, arr, found).0, p)
  {
    hide ParseValue, SkipSpace, IsSuffix;
    var p1 := SkipSpace(p);
    SkipSpaceSuffix(p);
    if |p1| > 1 {
      var p2 := if arr && found && p1[0] == ',' then p1[1..] else p1;
      TailIsSuffix(p1);
      SuffixTrans(p2, p1, p);
      if |p2| > 1 {
        var p3 := SkipSpace(p2);
        SkipSpaceSuffix(p2);
        SuffixTrans(p3, p2, p);
        if |p3| > 1 && ParseValue(p3).Some? {
          ValueSuffix(p3);
          SuffixTrans(ParseValue(p3).value.1, p3, p);
        }
      }
    }
  }

  /** A read that gives what it was asked for, in the code's own terms */
  lemma RefillIs(buffer: string, pos: nat, size: nat, unread: string, chunk: string, rest: string, maxSize: nat)
    requires buffer != "" && pos <= |buffer| && unread == chunk + rest
    requires var target := NextSize(true, pos, size, maxSize) - (|buffer| - 1) + pos;
             target >= 1 && |chunk| == Min(target, |unread|)
    ensures Refill(Window(buffer[pos..], unread, pos == 0, size), maxSize)
         == Window(buffer[pos..] + chunk, rest, true, NextSize(true, pos, size, maxSize))
  {
    assert unread[..|chunk|] == chunk && unread[|chunk|..] == rest;
  }

  lemma MoveRow(more: seq<Json>, row: Json, left: seq<Json>, rest: seq<Json>)
    requires left == [row] + rest
    ensures more + left == more + [row] + rest
  {
  }

  lemma ConcatAppend<T>(xss: seq<seq<T>>, xs: seq<T>)
    ensures Concat(xss + [xs]) == Concat(xss) + xs
  {
    assert (xss + [xs])[..|xss|] == xss;
  }

  class JsonSourceFile {
    const chunkSize: nat  // JSON_READ_CHUNK_SIZE
    const maxSize: nat    // JSON_MAX_BUFFER_SIZE
    const text: string    // the whole file
    const fullReads: bool // a read that gives less than was asked for has reached the end of the file

    var unread: string
    var started: bool     // `_buffer_str is not None`
    var bufferStr: string
    var bufferPos: nat
    var bufferEnd: nat
    var bufferSize: nat
    var jsonArray: bool
    var foundFirst: bool
    var bytesRead: nat

    /** The text not handed out yet */
    ghost function Pending(): string
      reads this
      requires bufferPos <= |bufferStr|
    {
      bufferStr[bufferPos..] + unread
    }

    /** What is pending is the end of the file: nothing was lost and nothing was added. */
    ghost predicate Conserved()
      reads this
      requires bufferPos <= |bufferStr|
    {
      IsSuffix(Pending(), text)
    }

    ghost predicate Valid()
      reads this
    {
      && bufferPos <= |bufferStr|
      && bufferEnd == (if bufferStr == "" then 0 else |bufferStr| - 1)
      && (!started ==> bufferStr == "" && bufferSize == chunkSize && unread == text && bytesRead == 0)
      && 1 <= chunkSize
      && bytesRead + |unread| == |text|
      && Conserved()
      && (chunkSize <= maxSize ==> bufferEnd <= bufferSize <= maxSize && 1 <= bufferSize)
    }

    constructor (text: string, chunkSize: nat, maxSize: nat, fullReads: bool)
      requires 1 <= chunkSize
      ensures Valid() && !started && !foundFirst && this.text == text
      ensures this.chunkSize == chunkSize && this.maxSize == maxSize && this.fullReads == fullReads
    {
      this.text, this.chunkSize, this.maxSize, this.fullReads := text, chunkSize, maxSize, fullReads;
      unread, started, bufferStr := text, false, "";
      bufferPos, bufferEnd, bufferSize := 0, 0, chunkSize;
      jsonArray, foundFirst, bytesRead := false, false, 0;
    }

    /** `read` on a source with text left gives some of it, at most what was asked for. */
    method Read(limit: nat) returns (chunk: string)
      requires limit >= 1
      modifies this`unread
      ensures chunk == "" <==> old(unread) == ""
      ensures |chunk| <= limit && old(unread) == chunk + unread
      ensures fullReads ==> |chunk| == Min(limit, |old(unread)|)
    {
      if unread == "" {
        return "";
      }
      var most := if limit < |unread| then limit else |unread|;
      var n: nat :| 1 <= n <= most && (fullReads ==> n == most);
      chunk := unread[..n];
      unread := unread[n..];
    }

    ghost function View(): Window
      reads this
      requires bufferPos <= |bufferStr|
    {
      Window(bufferStr[bufferPos..], unread, bufferPos == 0, bufferSize)
    }

    /** Reads give what they are asked for, and chunks are not larger than the limit. */
    ghost predicate Regular() {
      fullReads && chunkSize <= maxSize
    }

    method FillBuffer() returns (res: Fill)
      requires Valid()
      modifies this
      ensures Valid() && started && jsonArray == old(jsonArray) && foundFirst == old(foundFirst)
      ensures res.BufferExceeded? <==> old(started && bufferPos == 0 && bufferSize == maxSize)
      ensures res.TargetTooSmall? <==>
                && !res.BufferExceeded?
                && old(NextSize(started, bufferPos, bufferSize, maxSize) + bufferPos) <= old(bufferEnd)
      ensures chunkSize <= maxSize ==> !res.TargetTooSmall?
      ensures res.Ended? ==> old(unread) == "" && bufferStr == old(bufferStr) && bufferPos == old(bufferPos)
      ensures res.Filled? ==> |unread| < |old(unread)| && bufferPos == 0 && bufferStr != ""
      ensures Pending() == old(Pending())
      ensures unread == old(unread) || res.Filled?
      ensures bufferSize ==
                if res.BufferExceeded? then old(bufferSize) else old(NextSize(started, bufferPos, bufferSize, maxSize))
      ensures res.Filled? ==> |bufferStr| - old(|bufferStr| - bufferPos) <= bufferSize - old(bufferEnd - bufferPos)
      ensures res.Filled? && Regular() && old(bufferStr) != "" ==> View() == Refill(old(View()), maxSize)
      ensures res.Filled? && Regular() && !old(started) ==> |bufferStr| == Min(chunkSize, |text|)
    {
      hide Refill, IsSuffix;
      if !started {
        started := true;
        bufferStr := "";
        bufferPos, bufferEnd := 0, 0;
      } else if bufferPos == 0 {
        if bufferSize == maxSize {
          return BufferExceeded;
        }
        bufferSize := if bufferSize * 2 < maxSize then bufferSize * 2 else maxSize;
      }
      var target := bufferSize - bufferEnd + bufferPos;
      if target < 1 {
        return TargetTooSmall;
      }
      var chunk := Read(target);
      if chunk == "" {
        return Ended;
      }
      ghost var before, pos, rest := bufferStr, bufferPos, unread;
      Slide(chunk);
      assert bufferStr[0..] == bufferStr;
      if Regular() && before != "" {
        RefillIs(before, pos, old(bufferSize), old(unread), chunk, rest, maxSize);
      }
      res := Filled;
    }

    /** Drop what is behind the position, add what was read, and reset the markers. */
    method Slide(chunk: string)
      requires bufferPos <= |bufferStr| && chunk != ""
      modifies this`bufferStr, this`bufferPos, this`bufferEnd, this`bytesRead
      ensures bufferStr == old(bufferStr[bufferPos..]) + chunk
      ensures bufferPos == 0 && bufferEnd == |bufferStr| - 1 && bytesRead == old(bytesRead) + |chunk|
      ensures Pending() == old(bufferStr[bufferPos..]) + (chunk + unread)
    {
      bufferStr := bufferStr[bufferPos..] + chunk;
      bytesRead := bytesRead + |chunk|;
      bufferPos := 0;
      bufferEnd := |bufferStr| - 1;
      assert bufferStr[bufferPos..] == bufferStr;
    }

    /** `WHITESPACE.match(_buffer_str, _buffer_pos).end()` */
    method SkipWhitespace()
      requires Valid()
      modifies this`bufferPos
      ensures Valid() && bufferStr[bufferPos..] == SkipSpace(old(bufferStr[bufferPos..]))
      ensures bufferPos >= old(bufferPos)
    {
      hide SkipSpace;
      ghost var before := bufferStr[bufferPos..];
      while bufferPos < |bufferStr| && IsSpace(bufferStr[bufferPos])
        invariant old(bufferPos) <= bufferPos <= |bufferStr|
        invariant SkipSpace(bufferStr[bufferPos..]) == SkipSpace(before)
      {
        SkipSpaceAt(bufferStr, bufferPos);
        bufferPos := bufferPos + 1;
      }
      SkipSpaceAt(bufferStr, bufferPos);
      PendingMoves(old(bufferPos));
    }

    /** Moving the position forward keeps what is pending a suffix of the file. */
    twostate lemma PendingMoves(pos: nat)
      requires pos == old(bufferPos) && old(Valid()) && pos <= bufferPos <= |bufferStr|
      requires bufferStr == old(bufferStr) && unread == old(unread)
      ensures Pending() == old(Pending())[bufferPos - pos..]
      ensures Conserved()
    {
      var d := bufferPos - pos;
      assert bufferStr[bufferPos..] == old(bufferStr[bufferPos..])[d..];
    }

    /** `raw_decode` at the position; it moves only when it succeeds. */
    method RawDecode() returns (row: Option<Json>)
      requires Valid()
      modifies this`bufferPos, this`foundFirst
      ensures Valid() && bufferPos >= old(bufferPos)
      ensures var p := old(bufferStr[bufferPos..]);
              match ParseValue(p)
              case None => row.None? && bufferStr[bufferPos..] == p
              case Some(r) => row == Some(r.0) && bufferStr[bufferPos..] == r.1
      ensures foundFirst == (old(foundFirst) || row.Some?)
    {
      match ParseValue(bufferStr[bufferPos..]) {
        case None => row := None;
        case Some((v, rest)) =>
          ValueSuffix(bufferStr[bufferPos..]);
          bufferPos := |bufferStr| - |rest|;
          PendingMoves(old(bufferPos));
          foundFirst := true;
          row := Some(v);
      }
    }

    /** Over a comma, if one is due */
    method SkipCommaHere()
      requires Valid() && bufferPos < |bufferStr|
      modifies this`bufferPos
      ensures Valid() && bufferPos >= old(bufferPos)
      ensures var p := old(bufferStr[bufferPos..]);
              bufferStr[bufferPos..] == if jsonArray && foundFirst && p[0] == ',' then p[1..] else p
    {
      if jsonArray && foundFirst && bufferStr[bufferPos] == ',' {
        assert bufferStr[bufferPos..][1..] == bufferStr[bufferPos + 1..];
        bufferPos := bufferPos + 1;
        PendingMoves(old(bufferPos));
      }
    }

    /** `None` is the `NeedMoreData` exception. */
    method GetLine() returns (row: Option<Json>)
      requires Valid()
      modifies this`bufferPos, this`foundFirst
      ensures Valid() && bufferPos >= old(bufferPos)
      ensures (bufferStr[bufferPos..], row) == NextRow(old(bufferStr[bufferPos..]), jsonArray, old(foundFirst))
      ensures foundFirst == (old(foundFirst) || row.Some?)
    {
      hide Conserved, ParseValue, SkipSpace;
      SkipWhitespace();
      if bufferPos >= bufferEnd {
        return None;
      }
      SkipCommaHere();
      if bufferPos >= bufferEnd {
        return None;
      }
      SkipWhitespace();
      if bufferPos >= bufferEnd {
        return None;
      }
      row := RawDecode();
    }

    /** One turn of the loop of `setup_file` */
    method FillAndSkip() returns (fill: Fill)
      requires Valid() && (started ==> bufferPos > 0)
      modifies this
      ensures Valid() && started && foundFirst == old(foundFirst) && (!fill.Filled? ==> unread == old(unread))
      ensures fill.Filled? ==>
                && |unread| < |old(unread)| && bufferStr != "" && old(Pending()) != ""
                && (if bufferPos == 0 then Pending() == SkipSpace(old(Pending())) else IsSpace(old(Pending())[0]))
                && SkipSpace(Pending()) == SkipSpace(old(Pending()))
      ensures fill.TargetTooSmall? ==> maxSize < chunkSize
      ensures !old(started) && old(unread) == "" ==> fill.Ended?
      ensures !fill.BufferExceeded? && bufferSize == old(bufferSize)
      ensures fill.Ended? ==> old(unread) == ""
      ensures fill.Filled? && Regular() && !old(started) ==> |bufferStr| == Min(chunkSize, |text|)
    {
      hide SkipSpace, Conserved;
      fill := FillBuffer();
      if fill.Filled? {
        assert Pending() == bufferStr + unread by {
          assert bufferStr[0..] == bufferStr;
        }
        SkipWhitespace();
        SkippedSpace(bufferStr, bufferPos, unread);
      }
    }

    /** The loop of `setup_file`: fill the buffer until it does not start with white space. */
    method SkipLeadingSpace() returns (fill: Fill)
      requires Valid() && !started
      modifies this
      ensures Valid() && started && foundFirst == old(foundFirst)
      ensures fill.Filled? ==> bufferPos == 0 && bufferStr != "" && Pending() == SkipSpace(text)
      ensures fill.Ended? ==> text == "" || IsSpace(text[0])
      ensures fill.TargetTooSmall? ==> maxSize < chunkSize
      ensures text == "" ==> fill.Ended?
      ensures !fill.BufferExceeded? && bufferSize == chunkSize
      ensures fill.Filled? && Regular() && !IsSpace(text[0]) ==> |bufferStr| == Min(chunkSize, |text|)
    {
      hide SkipSpace, Conserved;
      assert Pending() == text;
      while true
        invariant Valid() && foundFirst == old(foundFirst)
        invariant SkipSpace(Pending()) == SkipSpace(text)
        invariant if started then bufferPos > 0 && text != "" && IsSpace(text[0])
                  else unread == text && Pending() == text
        invariant bufferSize == chunkSize
        decreases |unread|
      {
        fill := FillAndSkip();
        if !fill.Filled? || bufferPos == 0 {
          return;
        }
      }
    }

    /** Buffer and rest of a file of which one chunk was read */
    lemma FirstWindowIs(buffer: string)
      requires text != "" && 1 <= chunkSize && buffer + unread == text && |buffer| == Min(chunkSize, |text|)
      requires bufferStr == buffer && bufferSize == chunkSize && bufferPos == if text[0] == '[' then 1 else 0
      ensures View() == FirstWindow(text, chunkSize)
    {
      assert buffer == text[..|buffer|] && unread == text[|buffer|..];
    }

    method EnterArray()
      requires Valid() && started && bufferStr != "" && bufferPos == 0
      modifies this`jsonArray, this`bufferPos
      ensures Valid() && jsonArray && Pending() == old(Pending())[1..] && bufferPos == 1
    {
      jsonArray := true;
      bufferPos := 1;
      PendingMoves(0);
    }

    /** Past the white space at the front of the file and the bracket that opens an array */
    method SetupFile() returns (res: Setup)
      requires Valid() && !started && !foundFirst
      modifies this
      ensures Valid() && started && !foundFirst
      ensures res.Ready? ==>
                && SkipSpace(text) != ""
                && (if SkipSpace(text)[0] == '[' then jsonArray && Pending() == SkipSpace(text)[1..]
                    else SkipSpace(text)[0] == '{' && !jsonArray && Pending() == SkipSpace(text))
      ensures res.NotRecognized? ==> SkipSpace(text) != "" && SkipSpace(text)[0] != '[' && SkipSpace(text)[0] != '{'
      ensures res.SetupFill? ==> !res.fill.Filled?
      ensures res.SetupFill? && res.fill.Ended? ==> text == "" || IsSpace(text[0])
      ensures res.SetupFill? && res.fill.TargetTooSmall? ==> maxSize < chunkSize
      ensures res.SetupFill? ==> !res.fill.BufferExceeded?
      ensures bufferSize == chunkSize
      ensures text == "" ==> res == SetupFill(Ended)
      ensures res.Ready? && Regular() && !IsSpace(text[0]) ==> View() == FirstWindow(text, chunkSize)
      ensures res.Ready? ==> bufferStr != ""
    {
      hide IsSuffix, FirstWindow;
      var fill := SkipLeadingSpace();
      if !fill.Filled? {
        return SetupFill(fill);
      }
      assert Pending() == bufferStr + unread by {
        assert bufferStr[0..] == bufferStr;
      }
      if bufferStr[0] == '[' {
        EnterArray();
      } else if bufferStr[0] == '{' {
        jsonArray := false;
      } else {
        return NotRecognized;
      }
      if Regular() && !IsSpace(text[0]) {
        FirstWindowIs(bufferStr);
      }
      res := Ready;
    }

    /** An `IndexError` on an array that stops short counts as objecting. */
    method Teardown() returns (ok: bool)
      requires Valid()
      modifies this`bufferPos
      ensures ok <==> EndsCleanly(old(bufferStr[bufferPos..]), jsonArray)
    {
      SkipSpaceStarts(bufferStr[bufferPos..]);
      SkipWhitespace();
      if jsonArray {
        if bufferPos == |bufferStr| || bufferStr[bufferPos] != ']' {
          return false;
        }
        assert bufferStr[bufferPos..][1..] == bufferStr[bufferPos + 1..];
        bufferPos := bufferPos + 1;
        PendingMoves(old(bufferPos));
      }
      SkipWhitespace();
      ok := bufferPos == |bufferStr|;
    }

    /** The file still holds `rows`. */
    ghost predicate Holds(rows: seq<Json>)
      requires Valid()
      reads this
    {
      Layout(Pending(), rows, jsonArray, foundFirst)
    }

    /** From here on, the buffer limit is not reached; `needMore` says that `get_line` has asked for more. */
    ghost predicate Goes(needMore: bool)
      requires Valid()
      reads this
    {
      if needMore then Refills(View(), jsonArray, foundFirst, maxSize)
      else Lasts(View(), jsonArray, foundFirst, maxSize)
    }

    /** `get_line` on a file that still holds `rows`: `left` is what it holds afterwards. */
    method TakeRow(ghost rows: seq<Json>) returns (row: Option<Json>, ghost left: seq<Json>)
      requires Valid()
      modifies this`bufferPos, this`foundFirst
      ensures Valid() && bufferPos >= old(bufferPos) && (row.Some? ==> bufferPos > old(bufferPos))
      ensures old(Holds(rows)) ==>
                && Holds(left) && rows == (if row.Some? then [row.value] else []) + left
                && (row.None? && unread == "" ==> left == [])
      ensures old(Goes(false)) <==> Goes(row.None?)
    {
      hide NextRow, Layout, Refill;
      NextRowMoves(bufferStr[bufferPos..], jsonArray, foundFirst);
      left := rows;
      if Holds(rows) {
        NextRowOnLayout(bufferStr[bufferPos..], unread, rows, jsonArray, foundFirst);
      }
      ghost var holds := Holds(rows);
      row := GetLine();
      if holds && row.Some? {
        left := rows[1..];
      }
    }

    /** The inner loop of `batches`: add rows until the batch is full or the buffer gives out. */
    method Gather(batch: seq<Json>, batchSize: nat, ghost rows: seq<Json>)
      returns (more: seq<Json>, needMore: bool, ghost left: seq<Json>)
      requires Valid() && |batch| < batchSize
      modifies this`bufferPos, this`foundFirst
      ensures Valid() && |more| <= batchSize && bufferPos >= old(bufferPos)
      ensures if needMore then |more| < batchSize else |more| == batchSize && bufferPos > old(bufferPos)
      ensures old(Holds(rows)) ==>
                Holds(left) && more + left == batch + rows && (needMore && unread == "" ==> left == [])
      ensures batch <= more
      ensures old(Goes(false)) <==> Goes(needMore)
    {
      hide Layout, NextRow, Lasts, Refills, Refill;
      more, left := batch, rows;
      ghost var held := Holds(rows);
      while |more| < batchSize
        invariant Valid() && |more| <= batchSize && bufferPos >= old(bufferPos)
        invariant |more| == batchSize ==> bufferPos > old(bufferPos)
        invariant batch <= more
        invariant held ==> Holds(left) && more + left == batch + rows
        invariant old(Goes(false)) <==> Goes(false)
      {
        var row;
        ghost var rest;
        row, rest := TakeRow(left);
        if row.None? {
          return more, true, rest;
        }
        if held {
          MoveRow(more, row.value, left, rest);
        }
        more, left := more + [row.value], rest;
      }
      needMore := false;
    }

    /** The text in the buffer that is not handed out yet */
    ghost function Ahead(): nat
      reads this
      requires Valid()
    {
      |bufferStr| - bufferPos
    }

    /** `fill_buffer` when `get_line` has asked for more */
    method FillForMore(ghost left: seq<Json>) returns (fill: Fill)
      requires Valid()
      modifies this
      ensures Valid() && started && (old(Holds(left)) ==> Holds(left))
      ensures if fill.Filled? then |unread| < |old(unread)| else unread == old(unread)
      ensures fill.TargetTooSmall? ==> maxSize < chunkSize
      ensures fill.Ended? ==> unread == ""
      ensures fill.Filled? ==> bufferStr != ""
      ensures Regular() && old(started && bufferStr != "") ==>
                (old(Goes(true)) <==> fill.Ended? || (fill.Filled? && Goes(false)))
    {
      hide NextRow, Layout, Refill, Lasts;
      fill := FillBuffer();
    }

    /** The `try` of `batches`, up to the fill that ends it: full batches, and a partial one. */
    method ReadRows(batchSize: nat, ghost rows: seq<Json>)
      returns (fill: Fill, batches: seq<seq<Json>>, batch: seq<Json>, ghost left: seq<Json>)
      requires Valid() && 1 <= batchSize
      modifies this
      ensures Valid() && !fill.Filled? && |batch| < batchSize
      ensures forall i :: 0 <= i < |batches| ==> |batches[i]| == batchSize
      ensures fill.TargetTooSmall? ==> maxSize < chunkSize
      ensures fill.Ended? ==> unread == ""
      ensures old(Holds(rows)) ==>
                Holds(left) && Concat(batches) + (batch + left) == rows && (fill.Ended? ==> left == [])
      ensures Regular() && old(started && bufferStr != "") ==> (fill.Ended? <==> old(Goes(false)))
    {
      hide Valid, Pending, Holds, Goes;
      batches, batch, left := [], [], rows;
      var needMore := false;
      ghost var regular := Regular() && started && bufferStr != "";
      while true
        invariant Valid() && |batch| < batchSize
        invariant forall i :: 0 <= i < |batches| ==> |batches[i]| == batchSize
        invariant old(Holds(rows)) ==>
                    Holds(left) && Concat(batches) + (batch + left) == rows && (needMore && unread == "" ==> left == [])
        invariant regular ==> started && bufferStr != "" && (old(Goes(false)) <==> Goes(needMore))
        decreases |unread|, Ahead(), if needMore then 0 else 1
      {
        if needMore {
          fill := FillForMore(left);
          if !fill.Filled? {
            return;
          }
        }
        batch, needMore, left := Gather(batch, batchSize, left);
        if !needMore {
          ConcatAppend(batches, batch);
          assert Concat(batches) + batch + ([] + left) == Concat(batches) + (batch + left);
          batches, batch := batches + [batch], [];
        }
      }
    }

    /** `batches` once the file is set up: the last batch may be partial, and then the end is checked. */
    method ReadAll(batchSize: nat, ghost rows: seq<Json>) returns (outcome: Outcome, batches: seq<seq<Json>>)
      requires Valid() && started && bufferStr != "" && 1 <= batchSize
      modifies this
      ensures outcome.Done? || outcome.BadEnd? || outcome.FillFailed?
      ensures forall i :: 0 <= i < |batches| ==>
                && 1 <= |batches[i]| <= batchSize
                && (i < |batches| - 1 || outcome.FillFailed? ==> |batches[i]| == batchSize)
      ensures old(Holds(rows)) ==> Concat(batches) <= rows && !outcome.BadEnd?
      ensures old(Holds(rows)) && outcome.Done? ==> Concat(batches) == rows && bytesRead == |text|
      ensures outcome.FillFailed?
              ==> outcome.fill.BufferExceeded? || (outcome.fill.TargetTooSmall? && maxSize < chunkSize)
      ensures Regular() ==> (outcome.FillFailed? <==> !old(Goes(false)))
    {
      hide Goes, Regular, Holds;
      ghost var held := Holds(rows);
      var fill, batch;
      ghost var left;
      fill, batches, batch, left := ReadRows(batchSize, rows);
      assert held ==> Concat(batches) <= rows;
      if !fill.Ended? {
        return FillFailed(fill), batches;
      }
      if batch != [] {
        ConcatAppend(batches, batch);
        batches := batches + [batch];
      }
      assert held ==> left == [] && Concat(batches) == rows && EndsCleanly(bufferStr[bufferPos..], jsonArray) by {
        if held {
          HoldsNothing();
        }
      }
      var ok := Teardown();
      outcome := if ok then Done else BadEnd;
    }

    lemma HoldsNothing()
      requires Valid() && Holds([]) && unread == ""
      ensures EndsCleanly(bufferStr[bufferPos..], jsonArray)
    {
      assert bufferStr[bufferPos..] + "" == bufferStr[bufferPos..];
    }

    /**
     * `batches`, with what it yields collected. `rows` is what the file is supposed to hold: whatever
     * the sizes of the reads, they come out in order, `batchSize` at a time. With reads that give what
     * was asked for, whether the limit is reached is decided by the windows on the text alone.
     */
    method Batches(batchSize: int, ghost rows: seq<Json>) returns (outcome: Outcome, batches: seq<seq<Json>>)
      requires Valid() && !started && !foundFirst
      modifies this
      ensures outcome.BadBatchSize? <==> batchSize <= 0
      ensures forall i :: 0 <= i < |batches| ==>
                && 1 <= |batches[i]| <= batchSize
                && (i < |batches| - 1 || outcome.FillFailed? ==> |batches[i]| == batchSize)
      ensures FileLayout(text, rows) ==> Concat(batches) <= rows && !outcome.BadEnd?
      ensures FileLayout(text, rows) && outcome.Done? ==> Concat(batches) == rows && bytesRead == |text|
      ensures outcome.FillFailed?
              ==> outcome.fill.BufferExceeded? || (outcome.fill.TargetTooSmall? && maxSize < chunkSize)
      ensures FileLayout(text, rows) && outcome.SetupFailed? ==> IsSpace(text[0]) || maxSize < chunkSize
      ensures outcome.SetupFailed? ==> batches == []
      ensures text == "" && batchSize > 0 ==> outcome == SetupFailed(SetupFill(Ended))
      ensures batchSize > 0 && FileLayout(text, rows) && !IsSpace(text[0]) && Regular() ==>
                (outcome.Done? <==> Lasts(FirstWindow(text, chunkSize), text[0] == '[', false, maxSize))
                && (!outcome.Done? ==> outcome == FillFailed(BufferExceeded))
    {
      hide Lasts, Refills, Refill, FirstWindow;
      batches := [];
      if batchSize <= 0 {
        return BadBatchSize, [];
      }
      var setup := SetupFile();
      if !setup.Ready? {
        return SetupFailed(setup), [];
      }
      assert FileLayout(text, rows) ==> Holds(rows);
      outcome, batches := ReadAll(batchSize, rows);
    }
  }
}
