/** `raw_decode` inverts `json.dumps`, and never mistakes an unfinished object for a finished one. */
module JsonTextProofs {
  import opened Wrappers
  import opened JsonText

  // ----- strings round-trip -----

  lemma HexDigits(n: nat)
    requires n < 0x10000
    ensures n == (n / 4096) * 4096 + (n / 256 % 16) * 256 + (n / 16 % 16) * 16 + n % 16
  {
    var h := n / 16;
    var g := h / 16;
    assert g == n / 256 && g / 16 == n / 4096;
  }

  lemma Hex4RoundTrip(n: nat, k: string)
    requires n < 0x10000
    ensures ParseHex4(PutHex4(n, k)) == Some((n, k))
  {
    var s := PutHex4(n, k);
    assert s[1] == s[1..][0] && s[2] == s[1..][1..][0] && s[3] == s[1..][1..][1..][0];
    assert s[4..] == s[1..][1..][1..][1..];
    HexDigits(n);
  }

  lemma PairRoundTrip(n: nat, k: string)
    requires n < 0x100000
    ensures var hi, lo := 0xd800 + n / 0x400, 0xdc00 + n % 0x400;
            ParseUnicode(PutHex4(hi, Put('\\', Put('u', PutHex4(lo, k))))) == Some(((0x10000 + n) as char, k))
  {
    var hi, lo := 0xd800 + n / 0x400, 0xdc00 + n % 0x400;
    var second := Put('\\', Put('u', PutHex4(lo, k)));
    Hex4RoundTrip(hi, second);
    Hex4RoundTrip(lo, k);
    assert second[1] == second[1..][0] && second[2..] == second[1..][1..];
    assert n == (n / 0x400) * 0x400 + n % 0x400;
  }

  lemma LetterRoundTrip(c: char, k: string)
    requires EscapeLetter(c).Some?
    ensures ParseEscape(Put(EscapeLetter(c).value, k)) == Some((c, k))
  {
  }

  lemma UnicodeEscape(c: char, s: string, k: string)
    requires ParseUnicode(s) == Some((c, k))
    ensures ParseEscape(Put('u', s)) == Some((c, k))
  {
  }

  lemma EscapeStep(c: char, s: string, k: string)
    requires ParseEscape(s) == Some((c, k))
    ensures ParseString(Put('\\', s)) == ConsChar(c, ParseString(k))
  {
  }

  lemma HexCharRoundTrip(c: char, k: string)
    requires (c as nat) < 0x10000
    ensures ParseString(Put('\\', Put('u', PutHex4(c as nat, k)))) == ConsChar(c, ParseString(k))
  {
    Hex4RoundTrip(c as nat, k);
    UnicodeEscape(c, PutHex4(c as nat, k), k);
    EscapeStep(c, Put('u', PutHex4(c as nat, k)), k);
  }

  lemma PairCharRoundTrip(n: nat, k: string)
    requires n < 0x100000
    ensures ParseString(PutPair(n, k)) == ConsChar((0x10000 + n) as char, ParseString(k))
  {
    var s := PutHex4(0xd800 + n / 0x400, Put('\\', Put('u', PutHex4(0xdc00 + n % 0x400, k))));
    PairRoundTrip(n, k);
    UnicodeEscape((0x10000 + n) as char, s, k);
    EscapeStep((0x10000 + n) as char, Put('u', s), k);
  }

  lemma LetterCharRoundTrip(c: char, k: string)
    requires EscapeLetter(c).Some?
    ensures ParseString(Put('\\', Put(EscapeLetter(c).value, k))) == ConsChar(c, ParseString(k))
  {
    LetterRoundTrip(c, k);
    EscapeStep(c, Put(EscapeLetter(c).value, k), k);
  }

  lemma PlainCharRoundTrip(c: char, k: string)
    requires ' ' <= c && c != '\"' && c != '\\'
    ensures ParseString(Put(c, k)) == ConsChar(c, ParseString(k))
  {
  }

  /** Reading one escaped character inside a string gives it back and goes on behind it. */
  lemma CharRoundTrip(c: char, k: string)
    ensures ParseString(PutChar(c, k)) == ConsChar(c, ParseString(k))
  {
    if EscapeLetter(c).Some? {
      LetterCharRoundTrip(c, k);
    } else if ' ' <= c <= '~' {
      PlainCharRoundTrip(c, k);
    } else if (c as nat) < 0x10000 {
      HexCharRoundTrip(c, k);
    } else {
      PairCharRoundTrip(c as nat - 0x10000, k);
    }
  }

  lemma {:induction false} StringRoundTrip(t: string, k: string)
    ensures ParseString(PutString(t, k)) == Some((t, k))
  {
    if t != "" {
      CharRoundTrip(t[0], PutString(t[1..], k));
      StringRoundTrip(t[1..], k);
      assert [t[0]] + t[1..] == t;
    }
  }

  // ----- integers round-trip -----

  /** The text after an integer: nothing that could belong to it. */
  predicate Delimits(k: string) {
    !GoesOn(k) && (k == "" || !IsDigit(k[0]))
  }

  lemma {:induction false} DigitsRoundTrip(n: nat, k: string)
    requires n > 0
    ensures var s := PutNat(n, k);
            s != "" && IsDigit(s[0]) && s[0] != '0' && ParseDigits(DigitValue(s[0]), s[1..]) == ParseDigits(n, k)
  {
    if n >= 10 {
      DigitsRoundTrip(n / 10, Put(DigitChar(n % 10), k));
    }
  }

  lemma IntRoundTrip(n: int, k: string)
    requires Delimits(k)
    ensures ParseInt(PutInt(n, k)) == Some((Int(n), k))
    ensures PutInt(n, k) != "" && (PutInt(n, k)[0] == '-' || IsDigit(PutInt(n, k)[0]))
  {
    if n != 0 {
      DigitsRoundTrip(if n < 0 then -n else n, k);
    }
  }

  // ----- one step of each list parser -----

  lemma SkipOneSpace(s: string)
    requires s != "" && !IsSpace(s[0])
    ensures SkipSpace(Put(' ', s)) == s
  {
  }

  lemma LastItem(s: string, v: Json, k: string)
    requires ParseValue(s) == Some((v, Put(']', k)))
    ensures ParseItems(s) == Some(([v], k))
  {
  }

  lemma NextItem(s: string, v: Json, more: string, vs: seq<Json>, k: string)
    requires ParseValue(s) == Some((v, Put(',', Put(' ', more)))) && more != "" && !IsSpace(more[0])
    requires ParseItems(more) == Some((vs, k))
    ensures ParseItems(s) == Some(([v] + vs, k))
  {
    SkipOneSpace(more);
  }

  lemma LastMember(s: string, m: Member, k: string)
    requires ParseMember(s) == Some((m, Put('}', k)))
    ensures ParseMembers(s) == Some(([m], k))
  {
  }

  lemma NextMember(s: string, m: Member, more: string, ms: seq<Member>, k: string)
    requires ParseMember(s) == Some((m, Put(',', Put(' ', more)))) && more != "" && !IsSpace(more[0])
    requires ParseMembers(more) == Some((ms, k))
    ensures ParseMembers(s) == Some(([m] + ms, k))
  {
    SkipOneSpace(more);
  }

  lemma KeyAndValue(s: string, key: string, value: string, v: Json, k: string)
    requires ParseString(s) == Some((key, Put(':', Put(' ', value))))
    requires value != "" && !IsSpace(value[0]) && ParseValue(value) == Some((v, k))
    ensures ParseMember(Put('\"', s)) == Some((Member(key, v), k))
  {
    SkipOneSpace(value);
  }

  lemma WholeArray(s: string, vs: seq<Json>, k: string)
    requires s != "" && !IsSpace(s[0])
    requires if s[0] == ']' then vs == [] && s[1..] == k else ParseItems(s) == Some((vs, k))
    ensures ParseValue(Put('[', s)) == Some((Array(vs), k))
  {
    assert ParseArray(SkipSpace(s)) == Some((Array(vs), k));
  }

  lemma WholeObject(s: string, ms: seq<Member>, k: string)
    requires s != "" && !IsSpace(s[0])
    requires if s[0] == '}' then ms == [] && s[1..] == k else ParseMembers(s) == Some((ms, k))
    ensures ParseValue(Put('{', s)) == Some((Object(ms), k))
  {
    assert ParseObject(SkipSpace(s)) == Some((Object(ms), k));
  }

  // ----- values round-trip -----

  lemma LiteralRoundTrip(v: Json, k: string)
    requires v.Null? || v.Bool?
    ensures ParseLiteral(PutLiteral(v, k)) == Some((v, k))
    ensures var s := PutLiteral(v, k); s != "" && (s[0] == 'n' || s[0] == 't' || s[0] == 'f')
  {
    var s := PutLiteral(v, k);
    assert s[1] == s[1..][0] && s[2] == s[1..][1..][0] && s[3] == s[1..][1..][1..][0];
    assert s[4..] == s[1..][1..][1..][1..];
    if v == Bool(false) {
      assert s[4] == s[1..][1..][1..][1..][0];
      assert s[5..] == s[1..][1..][1..][1..][1..];
    }
  }

  /** A value's text starts with neither a space nor a closing bracket. */
  lemma ValueStart(v: Json, k: string)
    ensures PutValue(v, k) != "" && !IsSpace(PutValue(v, k)[0]) && PutValue(v, k)[0] != ']'
  {
    match v
    case Null => LiteralRoundTrip(v, k);
    case Bool(_) => LiteralRoundTrip(v, k);
    case Int(n) => if n != 0 { DigitsRoundTrip(if n < 0 then -n else n, k); }
    case _ =>
  }

  lemma ItemsStart(items: seq<Json>, k: string)
    requires items != []
    ensures var s := PutItems(items, k); s != "" && !IsSpace(s[0]) && s[0] != ']'
  {
    ValueStart(items[0], if |items| == 1 then Put(']', k) else Put(',', Put(' ', PutItems(items[1..], k))));
  }

  lemma {:induction false} ValueRoundTrip(v: Json, k: string)
    requires Delimits(k)
    ensures ParseValue(PutValue(v, k)) == Some((v, k))
    decreases v, 0
  {
    match v
    case Null => LiteralRoundTrip(v, k);
    case Bool(_) => LiteralRoundTrip(v, k);
    case Int(n) => IntRoundTrip(n, k);
    case Str(t) => StringRoundTrip(t, k);
    case Array(items) =>
      if items == [] {
        WholeArray(Put(']', k), [], k);
      } else {
        ItemsRoundTrip(items, k);
        ItemsStart(items, k);
        WholeArray(PutItems(items, k), items, k);
      }
    case Object(members) =>
      if members == [] {
        WholeObject(Put('}', k), [], k);
      } else {
        MembersRoundTrip(members, k);
        WholeObject(PutMembers(members, k), members, k);
      }
  }

  lemma {:induction false} ItemsRoundTrip(items: seq<Json>, k: string)
    requires items != []
    ensures ParseItems(PutItems(items, k)) == Some((items, k))
    decreases items, 0
  {
    hide ParseItems;
    if |items| == 1 {
      ValueRoundTrip(items[0], Put(']', k));
      LastItem(PutItems(items, k), items[0], k);
      assert items == [items[0]];
    } else {
      var more := PutItems(items[1..], k);
      var tail := Put(',', Put(' ', more));
      ItemsRoundTrip(items[1..], k);
      ItemsStart(items[1..], k);
      ValueRoundTrip(items[0], tail);
      NextItem(PutValue(items[0], tail), items[0], more, items[1..], k);
      assert items == [items[0]] + items[1..];
    }
  }

  lemma {:induction false} MemberRoundTrip(m: Member, k: string)
    requires Delimits(k)
    ensures ParseMember(PutMember(m, k)) == Some((m, k))
    decreases m, 1
  {
    var value := PutValue(m.value, k);
    var tail := Put(':', Put(' ', value));
    StringRoundTrip(m.key, tail);
    ValueStart(m.value, k);
    ValueRoundTrip(m.value, k);
    KeyAndValue(PutString(m.key, tail), m.key, value, m.value, k);
  }

  lemma MembersStart(members: seq<Member>, k: string)
    requires members != []
    ensures var s := PutMembers(members, k); s != "" && s[0] == '\"'
  {
  }

  lemma MoreMembers(m: Member, members: seq<Member>, k: string)
    requires members != []
    requires ParseMembers(PutMembers(members, k)) == Some((members, k))
    decreases m, 2
    ensures ParseMembers(PutMember(m, Put(',', Put(' ', PutMembers(members, k))))) == Some(([m] + members, k))
  {
    var more := PutMembers(members, k);
    var tail := Put(',', Put(' ', more));
    MembersStart(members, k);
    MemberRoundTrip(m, tail);
    NextMember(PutMember(m, tail), m, more, members, k);
  }

  lemma {:induction false} MembersRoundTrip(members: seq<Member>, k: string)
    requires members != []
    ensures ParseMembers(PutMembers(members, k)) == Some((members, k))
    decreases members, 0
  {
    hide ParseMembers, ParseMember, PutMember;
    var m := members[0];
    if |members| == 1 {
      MemberRoundTrip(m, Put('}', k));
      LastMember(PutMember(m, Put('}', k)), m, k);
      assert members == [m];
    } else {
      MembersRoundTrip(members[1..], k);
      MoreMembers(m, members[1..], k);
      assert members == [m] + members[1..];
    }
  }

  // ----- more text behind a finished value changes nothing -----

  lemma {:induction false} SkipSpaceStable(p: string, q: string)
    requires SkipSpace(p) != ""
    ensures SkipSpace(p + q) == SkipSpace(p) + q
  {
    if IsSpace(p[0]) {
      assert (p + q)[1..] == p[1..] + q;
      SkipSpaceStable(p[1..], q);
    }
  }

  lemma Hex4Stable(p: string, q: string)
    requires ParseHex4(p).Some?
    ensures ParseHex4(p + q) == Some((ParseHex4(p).value.0, ParseHex4(p).value.1 + q))
  {
    assert (p + q)[4..] == p[4..] + q;
  }

  lemma UnicodeStable(p: string, q: string)
    requires ParseUnicode(p).Some?
    ensures ParseUnicode(p + q) == Some((ParseUnicode(p).value.0, ParseUnicode(p).value.1 + q))
  {
    Hex4Stable(p, q);
    var (n, s1) := ParseHex4(p).value;
    if 0xd800 <= n < 0xe000 {
      assert (s1 + q)[2..] == s1[2..] + q;
      Hex4Stable(s1[2..], q);
    }
  }

  lemma EscapeStable(p: string, q: string)
    requires ParseEscape(p).Some?
    ensures ParseEscape(p + q) == Some((ParseEscape(p).value.0, ParseEscape(p).value.1 + q))
  {
    assert (p + q)[1..] == p[1..] + q;
    if p[0] == 'u' {
      UnicodeStable(p[1..], q);
    }
  }

  lemma {:induction false} StringStable(p: string, q: string)
    requires ParseString(p).Some?
    ensures ParseString(p + q) == Some((ParseString(p).value.0, ParseString(p).value.1 + q))
    decreases |p|
  {
    assert (p + q)[1..] == p[1..] + q;
    if p[0] == '\"' {
    } else if p[0] == '\\' {
      EscapeStable(p[1..], q);
      StringStable(ParseEscape(p[1..]).value.1, q);
    } else {
      StringStable(p[1..], q);
    }
  }

  lemma {:induction false} DigitsStable(acc: nat, p: string, q: string)
    requires ParseDigits(acc, p).1 != ""
    ensures ParseDigits(acc, p + q) == (ParseDigits(acc, p).0, ParseDigits(acc, p).1 + q)
    decreases |p|
  {
    if IsDigit(p[0]) {
      assert (p + q)[1..] == p[1..] + q;
      DigitsStable(10 * acc + DigitValue(p[0]), p[1..], q);
    }
  }

  lemma NatStable(p: string, q: string)
    requires ParseNat(p).Some? && ParseNat(p).value.1 != ""
    ensures ParseNat(p + q) == Some((ParseNat(p).value.0, ParseNat(p).value.1 + q))
  {
    assert (p + q)[1..] == p[1..] + q;
    if p[0] != '0' {
      DigitsStable(DigitValue(p[0]), p[1..], q);
    }
  }

  lemma IntStable(p: string, q: string)
    requires ParseInt(p).Some? && ParseInt(p).value.1 != ""
    ensures ParseInt(p + q) == Some((ParseInt(p).value.0, ParseInt(p).value.1 + q))
  {
    if p[0] == '-' {
      assert (p + q)[1..] == p[1..] + q;
      NatStable(p[1..], q);
    } else {
      NatStable(p, q);
    }
  }

  lemma LiteralStable(p: string, q: string)
    requires ParseLiteral(p).Some?
    ensures ParseLiteral(p + q) == Some((ParseLiteral(p).value.0, ParseLiteral(p).value.1 + q))
  {
    assert (p + q)[4..] == p[4..] + q;
    if |p| >= 5 {
      assert (p + q)[5..] == p[5..] + q;
    }
    assert p <= p + q;
  }

  lemma {:induction false} ValueStable(p: string, q: string)
    requires ParseValue(p).Some? && (ParseValue(p).value.1 != "" || !ParseValue(p).value.0.Int?)
    ensures ParseValue(p + q) == Some((ParseValue(p).value.0, ParseValue(p).value.1 + q))
    decreases |p|, 0
  {
    var c, t := p[0], p[1..];
    assert (p + q)[1..] == t + q;
    if c == '\"' {
      StringStable(t, q);
    } else if c == '{' {
      SkipSpaceStable(t, q);
      ObjectStable(SkipSpace(t), q);
    } else if c == '[' {
      SkipSpaceStable(t, q);
      ArrayStable(SkipSpace(t), q);
    } else if c == '-' || IsDigit(c) {
      IntStable(p, q);
    } else {
      LiteralStable(p, q);
    }
  }

  lemma {:induction false} ArrayStable(p: string, q: string)
    requires ParseArray(p).Some?
    ensures ParseArray(p + q) == Some((ParseArray(p).value.0, ParseArray(p).value.1 + q))
    decreases |p|, 2
  {
    if p[0] == ']' {
      assert (p + q)[1..] == p[1..] + q;
    } else {
      ItemsStable(p, q);
    }
  }

  lemma {:induction false} ObjectStable(p: string, q: string)
    requires ParseObject(p).Some?
    ensures ParseObject(p + q) == Some((ParseObject(p).value.0, ParseObject(p).value.1 + q))
    decreases |p|, 3
  {
    if p[0] == '}' {
      assert (p + q)[1..] == p[1..] + q;
    } else {
      MembersStable(p, q);
    }
  }

  lemma {:induction false} ItemsStable(p: string, q: string)
    requires ParseItems(p).Some?
    ensures ParseItems(p + q) == Some((ParseItems(p).value.0, ParseItems(p).value.1 + q))
    decreases |p|, 1
  {
    var (v, s1) := ParseValue(p).value;
    var s2 := SkipSpace(s1);
    ValueStable(p, q);
    SkipSpaceStable(s1, q);
    assert (s2 + q)[1..] == s2[1..] + q;
    if s2[0] == ',' {
      SkipSpaceStable(s2[1..], q);
      ItemsStable(SkipSpace(s2[1..]), q);
    }
  }

  lemma {:induction false} MemberStable(p: string, q: string)
    requires ParseMember(p).Some? && (ParseMember(p).value.1 != "" || !ParseMember(p).value.0.value.Int?)
    ensures ParseMember(p + q) == Some((ParseMember(p).value.0, ParseMember(p).value.1 + q))
    decreases |p|, 1
  {
    var s1 := ParseString(p[1..]).value.1;
    var s2 := SkipSpace(s1);
    assert (p + q)[1..] == p[1..] + q;
    StringStable(p[1..], q);
    SkipSpaceStable(s1, q);
    assert (s2 + q)[1..] == s2[1..] + q;
    SkipSpaceStable(s2[1..], q);
    ValueStable(SkipSpace(s2[1..]), q);
  }

  lemma {:induction false} MembersStable(p: string, q: string)
    requires ParseMembers(p).Some?
    ensures ParseMembers(p + q) == Some((ParseMembers(p).value.0, ParseMembers(p).value.1 + q))
    decreases |p|, 2
  {
    hide ParseMember, SkipSpace;
    var (m, s1) := ParseMember(p).value;
    var s2 := SkipSpace(s1);
    MemberStable(p, q);
    SkipSpaceStable(s1, q);
    assert (s2 + q)[1..] == s2[1..] + q;
    if s2[0] == ',' {
      SkipSpaceStable(s2[1..], q);
      MembersStable(SkipSpace(s2[1..]), q);
    }
  }

  /** Every proper prefix of a printed object makes `raw_decode` fail. */
  lemma PrefixFails(v: Json, n: nat)
    requires v.Object? && n < |Dumps(v)|
    ensures ParseValue(Dumps(v)[..n]).None?
  {
    var p, q := Dumps(v)[..n], Dumps(v)[n..];
    assert p + q == Dumps(v);
    ValueRoundTrip(v, "");
    if ParseValue(p).Some? {
      assert p[0] == '{';
      ValueStable(p, q);
    }
  }

  /** `raw_decode` at the front of a printed object followed by anything at all */
  lemma ObjectDecodes(v: Json, more: string)
    requires v.Object?
    ensures ParseValue(Dumps(v) + more) == Some((v, more))
    ensures |Dumps(v)| >= 2 && Dumps(v)[0] == '{'
  {
    ValueRoundTrip(v, "");
    ValueStable(Dumps(v), more);
    assert "" + more == more;
  }

  // ----- a parser leaves a suffix of its text -----

  predicate IsSuffix(r: string, s: string) {
    |r| <= |s| && s[|s| - |r|..] == r
  }

  lemma SuffixTrans(a: string, b: string, c: string)
    requires IsSuffix(a, b) && IsSuffix(b, c)
    ensures IsSuffix(a, c)
  {
    assert c[|c| - |b|..][|b| - |a|..] == c[|c| - |a|..];
  }

  lemma {:induction false} SkipSpaceSuffix(s: string)
    ensures IsSuffix(SkipSpace(s), s)
  {
    if s != "" && IsSpace(s[0]) {
      SkipSpaceSuffix(s[1..]);
      SuffixTrans(SkipSpace(s), s[1..], s);
    }
  }

  lemma EscapeSuffix(s: string)
    requires ParseEscape(s).Some?
    ensures IsSuffix(ParseEscape(s).value.1, s)
  {
    if s[0] == 'u' {
      var s0 := s[1..];
      var s1 := ParseHex4(s0).value.1;
      SuffixTrans(s1, s0, s);
      if ParseUnicode(s0).value.1 != s1 {
        SuffixTrans(s1[2..], s1, s);
        SuffixTrans(ParseUnicode(s0).value.1, s1[2..], s);
      }
    }
  }

  lemma {:induction false} StringSuffix(s: string)
    requires ParseString(s).Some?
    ensures IsSuffix(ParseString(s).value.1, s)
    decreases |s|
  {
    var r := ParseString(s).value.1;
    if s[0] == '\\' {
      EscapeSuffix(s[1..]);
      var s1 := ParseEscape(s[1..]).value.1;
      StringSuffix(s1);
      SuffixTrans(r, s1, s[1..]);
      SuffixTrans(r, s[1..], s);
    } else if s[0] != '\"' {
      StringSuffix(s[1..]);
      SuffixTrans(r, s[1..], s);
    }
  }

  lemma {:induction false} DigitsSuffix(acc: nat, s: string)
    ensures IsSuffix(ParseDigits(acc, s).1, s)
    decreases |s|
  {
    if s != "" && IsDigit(s[0]) {
      DigitsSuffix(10 * acc + DigitValue(s[0]), s[1..]);
      SuffixTrans(ParseDigits(acc, s).1, s[1..], s);
    }
  }

  lemma IntSuffix(s: string)
    requires ParseInt(s).Some?
    ensures IsSuffix(ParseInt(s).value.1, s)
  {
    var t := if s[0] == '-' then s[1..] else s;
    var r := ParseInt(s).value.1;
    assert ParseNat(t).Some? && r == ParseNat(t).value.1;
    DigitsSuffix(DigitValue(t[0]), t[1..]);
    SuffixTrans(r, t[1..], t);
    SuffixTrans(r, t, s);
  }

  lemma {:induction false} ValueSuffix(s: string)
    requires ParseValue(s).Some?
    ensures IsSuffix(ParseValue(s).value.1, s)
    decreases |s|, 0
  {
    var r, t := ParseValue(s).value.1, s[1..];
    if s[0] == '\"' {
      StringSuffix(t);
      SuffixTrans(r, t, s);
    } else if s[0] == '{' {
      SkipSpaceSuffix(t);
      ObjectSuffix(SkipSpace(t));
      SuffixTrans(r, SkipSpace(t), t);
      SuffixTrans(r, t, s);
    } else if s[0] == '[' {
      SkipSpaceSuffix(t);
      ArraySuffix(SkipSpace(t));
      SuffixTrans(r, SkipSpace(t), t);
      SuffixTrans(r, t, s);
    } else if s[0] == '-' || IsDigit(s[0]) {
      IntSuffix(s);
    }
  }

  lemma {:induction false} ArraySuffix(s: string)
    requires ParseArray(s).Some?
    ensures IsSuffix(ParseArray(s).value.1, s)
    decreases |s|, 2
  {
    if s[0] != ']' {
      ItemsSuffix(s);
    }
  }

  lemma {:induction false} ObjectSuffix(s: string)
    requires ParseObject(s).Some?
    ensures IsSuffix(ParseObject(s).value.1, s)
    decreases |s|, 3
  {
    if s[0] != '}' {
      MembersSuffix(s);
    }
  }

  /** What a list parser has left after a separator and the space around it */
  lemma SeparatorSuffix(s: string, s1: string)
    requires IsSuffix(s1, s) && SkipSpace(s1) != ""
    ensures IsSuffix(SkipSpace(s1)[1..], s) && IsSuffix(SkipSpace(SkipSpace(s1)[1..]), s)
  {
    var s2 := SkipSpace(s1);
    SkipSpaceSuffix(s1);
    SuffixTrans(s2, s1, s);
    SuffixTrans(s2[1..], s2, s);
    SkipSpaceSuffix(s2[1..]);
    SuffixTrans(SkipSpace(s2[1..]), s2[1..], s);
  }

  lemma {:induction false} ItemsSuffix(s: string)
    requires ParseItems(s).Some?
    ensures IsSuffix(ParseItems(s).value.1, s)
    decreases |s|, 1
  {
    ValueSuffix(s);
    var s1 := ParseValue(s).value.1;
    SeparatorSuffix(s, s1);
    if SkipSpace(s1)[0] == ',' {
      var s3 := SkipSpace(SkipSpace(s1)[1..]);
      ItemsSuffix(s3);
      SuffixTrans(ParseItems(s).value.1, s3, s);
    }
  }

  lemma {:induction false} MemberSuffix(s: string)
    requires ParseMember(s).Some?
    ensures IsSuffix(ParseMember(s).value.1, s)
    decreases |s|, 1
  {
    StringSuffix(s[1..]);
    var s1 := ParseString(s[1..]).value.1;
    SuffixTrans(s1, s[1..], s);
    SeparatorSuffix(s, s1);
    var s3 := SkipSpace(SkipSpace(s1)[1..]);
    ValueSuffix(s3);
    SuffixTrans(ParseMember(s).value.1, s3, s);
  }

  lemma {:induction false} MembersSuffix(s: string)
    requires ParseMembers(s).Some?
    ensures IsSuffix(ParseMembers(s).value.1, s)
    decreases |s|, 2
  {
    MemberSuffix(s);
    var s1 := ParseMember(s).value.1;
    SeparatorSuffix(s, s1);
    if SkipSpace(s1)[0] == ',' {
      var s3 := SkipSpace(SkipSpace(s1)[1..]);
      MembersSuffix(s3);
      SuffixTrans(ParseMembers(s).value.1, s3, s);
    }
  }
}
