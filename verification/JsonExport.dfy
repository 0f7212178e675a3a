/** `json_writer` of rethinkdb/_export.py, and what the importer makes of its files. */
module JsonExport {
  import opened Wrappers
  import opened JsonText
  import opened JsonTextProofs
  import opened JsonImport
  import opened JsonLimit

  /** Delete the keys that are not wanted; the order of the others stays. */
  function KeepFields(members: seq<Member>, fields: set<string>): seq<Member> {
    if members == [] then []
    else (if members[0].key in fields then [members[0]] else []) + KeepFields(members[1..], fields)
  }

  function Selected(row: Json, fields: Option<set<string>>): Json
    requires row.Object?
  {
    if fields.None? then row else Object(KeepFields(row.members, fields.value))
  }

  /** `kept` are the places, in order, of all members whose key is wanted. */
  ghost predicate Places(kept: seq<nat>, members: seq<Member>, fields: set<string>) {
    && (forall i, j :: 0 <= i < j < |kept| ==> kept[i] < kept[j])
    && (forall i :: 0 <= i < |kept| ==> kept[i] < |members|)
    && (forall k: nat :: k in kept <==> k < |members| && members[k].key in fields)
  }

  /** The members with a wanted key and no others, as they are and in the order of the row */
  ghost predicate IsFiltered(out: seq<Member>, members: seq<Member>, fields: set<string>) {
    exists kept: seq<nat> :: Places(kept, members, fields) && Picks(out, members, kept)
  }

  ghost predicate Picks(out: seq<Member>, members: seq<Member>, kept: seq<nat>) {
    && |out| == |kept|
    && forall i :: 0 <= i < |kept| ==> kept[i] < |members| && out[i] == members[kept[i]]
  }

  /** What is exported of a row: all of it, or its wanted members */
  ghost predicate IsExportOf(out: Json, row: Json, fields: Option<set<string>>) {
    match fields
    case None => out == row
    case Some(wanted) => out.Object? && row.Object? && IsFiltered(out.members, row.members, wanted)
  }

  lemma {:induction false} KeptPlaces(members: seq<Member>, fields: set<string>) returns (kept: seq<nat>)
    ensures Places(kept, members, fields) && Picks(KeepFields(members, fields), members, kept)
  {
    kept := [];
    if members != [] {
      hide Places, Picks;
      var rest := KeptPlaces(members[1..], fields);
      var moved := seq(|rest|, i requires 0 <= i < |rest| => rest[i] + 1);
      kept := (if members[0].key in fields then [0] else []) + moved;
      MovedPlaces(members, fields, rest, moved);
      MovedPicks(members, members[0].key in fields, KeepFields(members[1..], fields), rest, moved);
    }
  }

  lemma MovedPlaces(members: seq<Member>, fields: set<string>, rest: seq<nat>, moved: seq<nat>)
    requires members != [] && Places(rest, members[1..], fields)
    requires |moved| == |rest| && forall i :: 0 <= i < |rest| ==> moved[i] == rest[i] + 1
    ensures Places((if members[0].key in fields then [0] else []) + moved, members, fields)
  {
    var kept := (if members[0].key in fields then [0] else []) + moved;
    forall k: nat ensures k in kept <==> k < |members| && members[k].key in fields {
      if k > 0 {
        assert k - 1 in rest <==> k - 1 < |members[1..]| && members[1..][k - 1].key in fields;
        if k - 1 in rest {
          var i :| 0 <= i < |rest| && rest[i] == k - 1;
          assert moved[i] == k;
        }
      }
    }
  }

  lemma MovedPicks(members: seq<Member>, first: bool, out: seq<Member>, rest: seq<nat>, moved: seq<nat>)
    requires members != [] && Picks(out, members[1..], rest)
    requires |moved| == |rest| && forall i :: 0 <= i < |rest| ==> moved[i] == rest[i] + 1
    ensures Picks((if first then [members[0]] else []) + out, members, (if first then [0] else []) + moved)
  {
  }

  /** The field filter does what it promises, for every row and every set of fields. */
  lemma SelectedIsExport(row: Json, fields: Option<set<string>>)
    requires row.Object?
    ensures IsExportOf(Selected(row, fields), row, fields)
  {
    if fields.Some? {
      hide Places, Picks;
      var kept := KeptPlaces(row.members, fields.value);
    }
  }

  /** A member is written exactly if it is in the row and its key is wanted; with all keys wanted it is the row. */
  lemma FilteredMembers(out: seq<Member>, members: seq<Member>, fields: set<string>)
    requires IsFiltered(out, members, fields)
    ensures forall m :: m in out <==> m in members && m.key in fields
    ensures (forall m :: m in members ==> m.key in fields) ==> out == members
  {
    hide Places, Picks;
    var kept: seq<nat> :| Places(kept, members, fields) && Picks(out, members, kept);
    forall m ensures m in out <==> m in members && m.key in fields {
      if m in out {
        PickedIsWanted(out, members, fields, kept, m);
      }
      if m in members && m.key in fields {
        WantedIsPicked(out, members, fields, kept, m);
      }
    }
    if forall m :: m in members ==> m.key in fields {
      AllPicked(out, members, fields, kept);
    }
  }

  lemma PickedIsWanted(out: seq<Member>, members: seq<Member>, fields: set<string>, kept: seq<nat>, m: Member)
    requires Places(kept, members, fields) && Picks(out, members, kept) && m in out
    ensures m in members && m.key in fields
  {
    var i :| 0 <= i < |out| && out[i] == m;
    assert kept[i] in kept;
  }

  lemma WantedIsPicked(out: seq<Member>, members: seq<Member>, fields: set<string>, kept: seq<nat>, m: Member)
    requires Places(kept, members, fields) && Picks(out, members, kept) && m in members && m.key in fields
    ensures m in out
  {
    var k: nat :| k < |members| && members[k] == m;
    assert k in kept;
    var i :| 0 <= i < |kept| && kept[i] == k;
    assert out[i] == m;
  }

  lemma AllPicked(out: seq<Member>, members: seq<Member>, fields: set<string>, kept: seq<nat>)
    requires Places(kept, members, fields) && Picks(out, members, kept)
    requires forall m :: m in members ==> m.key in fields
    ensures out == members
  {
    forall k: nat | k < |members| ensures k in kept {
      assert members[k] in members;
    }
    AllPlaces(kept, |members|);
  }

  /** An ascending list of all numbers below `n` is the list of them in order. */
  lemma {:induction false} AllPlaces(kept: seq<nat>, n: nat)
    requires forall i, j :: 0 <= i < j < |kept| ==> kept[i] < kept[j]
    requires kept != [] ==> kept[|kept| - 1] < n
    requires forall k: nat :: k < n ==> k in kept
    ensures |kept| == n && forall i :: 0 <= i < n ==> kept[i] == i
    decreases n
  {
    if n > 0 {
      assert n - 1 in kept;
      var i :| 0 <= i < |kept| && kept[i] == n - 1;
      assert i == |kept| - 1;
      var front := kept[..i];
      forall k: nat | k < n - 1 ensures k in front {
        assert k in kept;
        var j :| 0 <= j < |kept| && kept[j] == k;
        assert front[j] == k;
      }
      AllPlaces(front, n - 1);
    }
  }

  function SelectAll(rows: seq<Json>, fields: Option<set<string>>): (r: seq<Json>)
    requires forall i :: 0 <= i < |rows| ==> rows[i].Object?
    ensures |r| == |rows| && forall i :: 0 <= i < |r| ==> r[i].Object? && r[i] == Selected(rows[i], fields)
  {
    seq(|rows|, i requires 0 <= i < |rows| => Selected(rows[i], fields))
  }

  /** What is between the rows, and in front of the first */
  function Separator(first: bool, ndjson: bool): string {
    if first then (if ndjson then "" else "\n") else if ndjson then "\n" else ",\n"
  }

  function Body(rows: seq<Json>, first: bool, ndjson: bool): string {
    if rows == [] then (if ndjson then "" else "\n]\n")
    else Separator(first, ndjson) + (Dumps(rows[0]) + Body(rows[1..], false, ndjson))
  }

  /** The text of an exported file */
  function FileText(rows: seq<Json>, ndjson: bool): string {
    if ndjson then Body(rows, true, true) else "[" + Body(rows, true, false)
  }

  lemma WriteOne(out: string, all: seq<Json>, k: nat, ndjson: bool)
    requires k < |all|
    ensures out + Body(all[k..], k == 0, ndjson)
         == out + (Separator(k == 0, ndjson) + Dumps(all[k])) + Body(all[k + 1..], false, ndjson)
  {
    assert all[k..][0] == all[k] && all[k..][1..] == all[k + 1..];
    Assoc(out, Separator(k == 0, ndjson), Dumps(all[k]), Body(all[k + 1..], false, ndjson));
  }

  lemma Assoc(a: string, b: string, c: string, d: string)
    ensures a + (b + (c + d)) == a + (b + c) + d
  {
  }

  /** `rows` is what `task_queue` gives before its `StopIteration`. */
  method JsonWriter(rows: seq<Json>, fields: Option<set<string>>, ndjson: bool) returns (out: string)
    requires forall i :: 0 <= i < |rows| ==> rows[i].Object?
    ensures out == FileText(SelectAll(rows, fields), ndjson)
    ensures forall i :: 0 <= i < |rows| ==> IsExportOf(SelectAll(rows, fields)[i], rows[i], fields)
  {
    hide Dumps, SelectAll, Selected, IsExportOf;
    forall i | 0 <= i < |rows| ensures IsExportOf(SelectAll(rows, fields)[i], rows[i], fields) {
      SelectedIsExport(rows[i], fields);
    }
    out := if ndjson then "" else "[";
    var first := true;
    var k := 0;
    ghost var all := SelectAll(rows, fields);
    assert all[0..] == all;
    while k < |rows|
      invariant 0 <= k <= |rows| && first == (k == 0)
      invariant out + Body(all[k..], k == 0, ndjson) == FileText(all, ndjson)
    {
      WriteOne(out, all, k, ndjson);
      out := out + (Separator(first, ndjson) + Dumps(Selected(rows[k], fields)));
      first := false;
      k := k + 1;
    }
    if !ndjson {
      out := out + "\n]\n";
    }
  }

  lemma SkipNewline(k: string)
    ensures SkipSpace("\n" + k) == SkipSpace(k)
  {
    assert ("\n" + k)[1..] == k;
  }

  lemma EndLayout(ndjson: bool)
    ensures EndsCleanly(Body([], false, ndjson), !ndjson)
  {
    SkipNewline("]\n");
    assert "\n" + "]\n" == "\n]\n";
    SkipNewline("");
    assert "]\n"[1..] == "\n" + "";
  }

  lemma NothingToSkip(text: string)
    requires text != "" && !IsSpace(text[0])
    ensures SkipSpace(text) == text
  {
  }

  lemma SkipSeparator(text: string, first: bool, ndjson: bool)
    requires text != "" && text[0] == '{'
    ensures SkipComma(Separator(first, ndjson) + text, !ndjson, !first) == text
  {
    hide SkipSpace;
    NothingToSkip(text);
    NothingToSkip(",\n" + text);
    if first && ndjson {
      assert "" + text == text;
    } else if first || ndjson {
      SkipNewline(text);
    } else {
      SkipNewline(text);
      assert (",\n" + text)[1..] == "\n" + text;
    }
  }

  lemma {:induction false} BodyLayout(rows: seq<Json>, first: bool, ndjson: bool)
    requires forall i :: 0 <= i < |rows| ==> rows[i].Object?
    ensures Layout(Body(rows, first, ndjson), rows, !ndjson, !first)
  {
    if rows == [] {
      EndLayout(ndjson);
    } else {
      var tail := Body(rows[1..], false, ndjson);
      var text := Dumps(rows[0]) + tail;
      BodyLayout(rows[1..], false, ndjson);
      ObjectDecodes(rows[0], tail);
      SkipSeparator(text, first, ndjson);
      assert text[|Dumps(rows[0])|..] == tail;
    }
  }

  /** Every exported file has the layout the importer reads back, but for an empty ndjson file. */
  lemma ExportedFileLayout(rows: seq<Json>, ndjson: bool)
    requires forall i :: 0 <= i < |rows| ==> rows[i].Object?
    ensures FileLayout(FileText(rows, ndjson), rows) <==> !(ndjson && rows == [])
    ensures var text := FileText(rows, ndjson);
            if ndjson && rows == [] then text == "" else text != "" && !IsSpace(text[0])
  {
    BodyLayout(rows, true, ndjson);
    if !ndjson {
      assert FileText(rows, ndjson)[1..] == Body(rows, true, false);
    } else if rows != [] {
      ObjectDecodes(rows[0], Body(rows[1..], false, true));
      assert FileText(rows, true)[0] == '{';
    }
  }

  /** The text of an array ends with a bracket and a newline. */
  lemma {:induction false} BodyEnds(rows: seq<Json>, first: bool)
    ensures var b := Body(rows, first, false); |b| >= 2 && b[|b| - 2..] == "]\n"
  {
    hide Dumps;
    if rows != [] {
      BodyEnds(rows[1..], false);
    }
  }

  lemma ArrayTrails(rows: seq<Json>)
    ensures TrailingSpace(FileText(rows, false)) == 1
  {
    var text := FileText(rows, false);
    BodyEnds(rows, true);
    assert text[|text| - 2..] == "]\n";
    assert text == text[..|text| - 2] + [']'] + "\n";
    SpaceAfter(text[..|text| - 2], ']', "\n");
  }

  // ----- the buffer limit -----

  /** Whether the limit is reached on an exported file, if reads give what they are asked for */
  predicate Fits(rows: seq<Json>, ndjson: bool, chunkSize: nat, maxSize: nat)
    requires chunkSize >= 1
  {
    var text := FileText(rows, ndjson);
    text != "" && Lasts(FirstWindow(text, chunkSize), !ndjson, false, maxSize)
  }

  /** A file of rows one after the other fits exactly if its rows do. */
  lemma NdjsonFits(rows: seq<Json>, chunkSize: nat, maxSize: nat)
    requires forall i :: 0 <= i < |rows| ==> rows[i].Object?
    requires rows != [] && 1 <= chunkSize <= maxSize
    ensures Fits(rows, true, chunkSize, maxSize)
            <==> AllFit(rows, maxSize + 1) && (chunkSize == maxSize ==> |Dumps(rows[0])| <= maxSize)
  {
    hide Dumps, Lasts, FirstWindow, FileLayout;
    ExportedFileLayout(rows, true);
    ObjectDecodes(rows[0], Body(rows[1..], false, true));
    assert FileText(rows, true)[0] == '{';
    LimitExactly(FileText(rows, true), rows, chunkSize, maxSize);
  }

  /** An array fits only if its rows do, and it fits if they leave half of the limit free. */
  lemma ArrayFits(rows: seq<Json>, chunkSize: nat, maxSize: nat)
    requires forall i :: 0 <= i < |rows| ==> rows[i].Object?
    requires 1 <= chunkSize <= maxSize
    ensures Fits(rows, false, chunkSize, maxSize) ==> AllFit(rows, maxSize + 1)
    ensures chunkSize < maxSize && 4 <= maxSize && AllFit(rows, maxSize / 2) ==> Fits(rows, false, chunkSize, maxSize)
  {
    hide Dumps, Lasts, FirstWindow, FileLayout, TrailingSpace, AllFit;
    ExportedFileLayout(rows, false);
    ArrayTrails(rows);
    var text := FileText(rows, false);
    assert text[0] == '[' && !IsSpace(text[0]);
    LongRowExceeds(text, rows, chunkSize, maxSize);
    if chunkSize < maxSize && 4 <= maxSize && AllFit(rows, maxSize / 2) {
      RoomSuffices(text, rows, chunkSize, maxSize);
    }
  }

  /**
   * Export, then import with any read sizes and any batch size: the selected rows come back in order
   * and the file ends cleanly, unless the buffer limit is reached. The one exception is an empty ndjson
   * file, which the importer cannot open. If reads give what they are asked for, the limit is reached
   * exactly if the file does not fit.
   */
  method ExportThenImport(rows: seq<Json>, fields: Option<set<string>>, ndjson: bool,
                          chunkSize: nat, maxSize: nat, fullReads: bool, batchSize: nat)
    returns (outcome: Outcome, batches: seq<seq<Json>>)
    requires forall i :: 0 <= i < |rows| ==> rows[i].Object?
    requires 1 <= chunkSize <= maxSize && 1 <= batchSize
    ensures ndjson && rows == [] ==> outcome == SetupFailed(SetupFill(Ended)) && batches == []
    ensures !(ndjson && rows == []) ==> outcome.Done? || outcome == FillFailed(BufferExceeded)
    ensures outcome.Done? ==> Concat(batches) == SelectAll(rows, fields)
    ensures outcome.FillFailed? ==> Concat(batches) <= SelectAll(rows, fields)
    ensures |Concat(batches)| <= |rows| && (outcome.Done? ==> |Concat(batches)| == |rows|)
    ensures forall i :: 0 <= i < |Concat(batches)| ==> IsExportOf(Concat(batches)[i], rows[i], fields)
    ensures fullReads ==> (outcome.Done? <==> Fits(SelectAll(rows, fields), ndjson, chunkSize, maxSize))
  {
    hide FileText, FileLayout, Concat, Selected, Lasts, FirstWindow, IsExportOf;
    var text := JsonWriter(rows, fields, ndjson);
    ExportedFileLayout(SelectAll(rows, fields), ndjson);
    StartsAsArray(SelectAll(rows, fields), ndjson);
    var source := new JsonSourceFile(text, chunkSize, maxSize, fullReads);
    outcome, batches := source.Batches(batchSize, SelectAll(rows, fields));
    NothingDelivered();
  }

  lemma NothingDelivered()
    ensures Concat<Json>([]) == []
  {
  }

  lemma StartsAsArray(rows: seq<Json>, ndjson: bool)
    requires forall i :: 0 <= i < |rows| ==> rows[i].Object?
    ensures FileText(rows, ndjson) != "" ==> (FileText(rows, ndjson)[0] == '[' <==> !ndjson)
  {
    hide Dumps;
    if ndjson && rows != [] {
      ObjectDecodes(rows[0], Body(rows[1..], false, true));
    }
  }
}
