/** The lines of an exported file: one row each, as `json_writer` of rethinkdb/_export.py lays them out. */
module JsonLines {
  import opened Wrappers
  import opened JsonText
  import opened JsonExport

  // ----- printed values have no line ends -----

  predicate OneLine(s: string) {
    '\n' !in s
  }

  lemma PutOneLine(c: char, k: string)
    requires c != '\n' && OneLine(k)
    ensures OneLine(Put(c, k))
  {
  }

  lemma HexOneLine(n: nat, k: string)
    requires n < 0x10000 && OneLine(k)
    ensures OneLine(PutHex4(n, k))
  {
    PutOneLine(HexChar(n % 16), k);
    PutOneLine(HexChar(n / 16 % 16), Put(HexChar(n % 16), k));
    PutOneLine(HexChar(n / 256 % 16), Put(HexChar(n / 16 % 16), Put(HexChar(n % 16), k)));
  }

  lemma EscapeOneLine(n: nat, k: string)
    requires n < 0x10000 && OneLine(k)
    ensures OneLine(Put('\\', Put('u', PutHex4(n, k))))
  {
    hide PutHex4;
    HexOneLine(n, k);
    PutOneLine('u', PutHex4(n, k));
    PutOneLine('\\', Put('u', PutHex4(n, k)));
  }

  lemma CharOneLine(c: char, k: string)
    requires OneLine(k)
    ensures OneLine(PutChar(c, k))
  {
    hide PutHex4, OneLine;
    match EscapeLetter(c)
    case Some(letter) =>
      PutOneLine(letter, k);
      PutOneLine('\\', Put(letter, k));
    case None =>
      if ' ' <= c <= '~' {
        PutOneLine(c, k);
      } else if (c as nat) < 0x10000 {
        EscapeOneLine(c as nat, k);
      } else {
        var n := c as nat - 0x10000;
        EscapeOneLine(0xdc00 + n % 0x400, k);
        EscapeOneLine(0xd800 + n / 0x400, Put('\\', Put('u', PutHex4(0xdc00 + n % 0x400, k))));
      }
  }

  lemma {:induction false} StringOneLine(t: string, k: string)
    requires OneLine(k)
    ensures OneLine(PutString(t, k))
  {
    hide PutChar;
    if t == "" {
      PutOneLine('\"', k);
    } else {
      StringOneLine(t[1..], k);
      CharOneLine(t[0], PutString(t[1..], k));
    }
  }

  lemma {:induction false} NatOneLine(n: nat, k: string)
    requires OneLine(k)
    ensures OneLine(PutNat(n, k))
  {
    if n < 10 {
      PutOneLine(DigitChar(n), k);
    } else {
      PutOneLine(DigitChar(n % 10), k);
      NatOneLine(n / 10, Put(DigitChar(n % 10), k));
    }
  }

  lemma LiteralOneLine(v: Json, k: string)
    requires OneLine(k) && (v.Null? || v.Bool?)
    ensures OneLine(PutLiteral(v, k))
  {
  }

  lemma {:induction false} ValueOneLine(v: Json, k: string)
    requires OneLine(k)
    ensures OneLine(PutValue(v, k))
    decreases v, 0
  {
    hide OneLine, PutLiteral, PutString, PutItems, PutMembers, PutNat;
    match v
    case Null => LiteralOneLine(v, k);
    case Bool(_) => LiteralOneLine(v, k);
    case Int(n) =>
      NatOneLine(if n < 0 then -n else n, k);
      PutOneLine('-', PutNat(if n < 0 then -n else n, k));
    case Str(t) =>
      StringOneLine(t, k);
      PutOneLine('\"', PutString(t, k));
    case Array(items) =>
      PutOneLine(']', k);
      if items != [] {
        ItemsOneLine(items, k);
      }
      PutOneLine('[', if items == [] then Put(']', k) else PutItems(items, k));
    case Object(members) =>
      PutOneLine('}', k);
      if members != [] {
        MembersOneLine(members, k);
      }
      PutOneLine('{', if members == [] then Put('}', k) else PutMembers(members, k));
  }

  lemma {:induction false} ItemsOneLine(items: seq<Json>, k: string)
    requires items != [] && OneLine(k)
    ensures OneLine(PutItems(items, k))
    decreases items, 0
  {
    hide OneLine, PutValue;
    if |items| == 1 {
      PutOneLine(']', k);
      ValueOneLine(items[0], Put(']', k));
    } else {
      ItemsOneLine(items[1..], k);
      PutOneLine(' ', PutItems(items[1..], k));
      PutOneLine(',', Put(' ', PutItems(items[1..], k)));
      ValueOneLine(items[0], Put(',', Put(' ', PutItems(items[1..], k))));
    }
  }

  lemma {:induction false} MemberOneLine(m: Member, k: string)
    requires OneLine(k)
    ensures OneLine(PutMember(m, k))
    decreases m, 1
  {
    hide OneLine, PutValue, PutString;
    ValueOneLine(m.value, k);
    PutOneLine(' ', PutValue(m.value, k));
    PutOneLine(':', Put(' ', PutValue(m.value, k)));
    StringOneLine(m.key, Put(':', Put(' ', PutValue(m.value, k))));
    PutOneLine('\"', PutString(m.key, Put(':', Put(' ', PutValue(m.value, k)))));
  }

  lemma {:induction false} MembersOneLine(members: seq<Member>, k: string)
    requires members != [] && OneLine(k)
    ensures OneLine(PutMembers(members, k))
    decreases members, 0
  {
    hide OneLine, PutMember;
    if |members| == 1 {
      PutOneLine('}', k);
      MemberOneLine(members[0], Put('}', k));
    } else {
      MembersOneLine(members[1..], k);
      PutOneLine(' ', PutMembers(members[1..], k));
      PutOneLine(',', Put(' ', PutMembers(members[1..], k)));
      MemberOneLine(members[0], Put(',', Put(' ', PutMembers(members[1..], k))));
    }
  }

  // ----- lines -----

  /** `text.split("\n")` */
  function Lines(text: string): (r: seq<string>)
    ensures r != []
  {
    if text == "" then [""]
    else if text[0] == '\n' then [""] + Lines(text[1..])
    else [[text[0]] + Lines(text[1..])[0]] + Lines(text[1..])[1..]
  }

  lemma {:induction false} LastLine(line: string)
    requires OneLine(line)
    ensures Lines(line) == [line]
  {
    if line != "" {
      LastLine(line[1..]);
      assert [line[0]] + line[1..] == line;
    }
  }

  lemma {:induction false} FirstLine(line: string, rest: string)
    requires OneLine(line)
    ensures Lines(line + ("\n" + rest)) == [line] + Lines(rest)
  {
    if line == "" {
      assert line + ("\n" + rest) == "\n" + rest;
      assert ("\n" + rest)[1..] == rest;
    } else {
      FirstLine(line[1..], rest);
      assert (line + ("\n" + rest))[1..] == line[1..] + ("\n" + rest);
      assert [line[0]] + line[1..] == line;
    }
  }

  /** A line for each row; in an array every row but the last is followed by a comma. */
  function RowLines(rows: seq<Json>, ndjson: bool): seq<string> {
    if rows == [] then []
    else [Dumps(rows[0]) + if ndjson || |rows| == 1 then "" else ","] + RowLines(rows[1..], ndjson)
  }

  /** From the text of a row on, when rows are left */
  lemma {:induction false} BodyLines(rows: seq<Json>, ndjson: bool)
    requires rows != []
    ensures Lines(Dumps(rows[0]) + Body(rows[1..], false, ndjson))
         == RowLines(rows, ndjson) + if ndjson then [] else ["]", ""]
  {
    hide Dumps, Lines;
    var row, rest := Dumps(rows[0]), rows[1..];
    DumpsOneLine(rows[0]);
    if rest == [] {
      EndLines(row, ndjson);
      assert row + "" == row;
      assert RowLines(rows, ndjson) == [row] + [];
    } else {
      var more := Dumps(rest[0]) + Body(rest[1..], false, ndjson);
      BodyLines(rest, ndjson);
      if ndjson {
        FirstLine(row, more);
        assert row + "" == row;
      } else {
        assert OneLine(row + ",");
        FirstLine(row + ",", more);
        assert row + (",\n" + more) == row + "," + ("\n" + more);
      }
      assert Body(rest, false, ndjson) == Separator(false, ndjson) + more;
    }
  }

  lemma DumpsOneLine(v: Json)
    ensures OneLine(Dumps(v))
  {
    ValueOneLine(v, "");
  }

  lemma EndLines(row: string, ndjson: bool)
    requires OneLine(row)
    ensures Lines(row + Body([], false, ndjson)) == [row] + if ndjson then [] else ["]", ""]
  {
    hide Lines;
    if ndjson {
      assert row + "" == row;
      LastLine(row);
    } else {
      FirstLine(row, "]\n");
      assert "\n" + "]\n" == "\n]\n";
      FirstLine("]", "");
      assert "]" + ("\n" + "") == "]\n";
      LastLine("");
    }
  }

  /**
   * What is in an exported file, line by line: with ndjson the rows, else a bracket, the rows with commas
   * between them, and a bracket on a line of its own.
   */
  lemma ExportedLines(rows: seq<Json>, ndjson: bool)
    ensures Lines(FileText(rows, ndjson))
         == if ndjson then (if rows == [] then [""] else RowLines(rows, true))
            else ["["] + RowLines(rows, false) + ["]", ""]
  {
    hide Lines, Dumps;
    if rows == [] {
      LastLine("");
      EndLines("[", ndjson);
    } else {
      var body := Dumps(rows[0]) + Body(rows[1..], false, ndjson);
      BodyLines(rows, ndjson);
      if ndjson {
        assert "" + body == body;
      } else {
        FirstLine("[", body);
        assert ["["] + (RowLines(rows, false) + ["]", ""]) == ["["] + RowLines(rows, false) + ["]", ""];
      }
    }
  }
}
