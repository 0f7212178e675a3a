/**
 * Reading the converter's output again: a lexer of words, symbols and line starts, and for each of the
 * three languages the rules by which it finds blocks - commas and braces, `end`, and indentation.
 */
module ProtoReading {
  import opened Wrappers
  import opened ProtoConverter
  import opened ProtoRendering

  // ----- tokens -----

  /** `Break` is a line start with its indentation. */
  datatype Token = Word(text: string) | Sym(c: char) | Break(tabs: nat)

  predicate IsWordChar(c: char) {
    'a' <= c <= 'z' || 'A' <= c <= 'Z' || '0' <= c <= '9' || c == '_'
  }

  /** `\w+` */
  predicate IsWord(s: string) {
    s != "" && forall i :: 0 <= i < |s| ==> IsWordChar(s[i])
  }

  function TabCount(s: string): (n: nat)
    ensures n <= |s|
  {
    if s != "" && s[0] == '\t' then 1 + TabCount(s[1..]) else 0
  }

  function WordLength(s: string): (n: nat)
    ensures n <= |s| && (s != "" && IsWordChar(s[0]) ==> n > 0)
  {
    if s != "" && IsWordChar(s[0]) then 1 + WordLength(s[1..]) else 0
  }

  function Lex(s: string): seq<Token>
    decreases |s|
  {
    if s == "" then []
    else if s[0] == '\n' then
      var n := TabCount(s[1..]);
      [Break(n)] + Lex(s[1 + n..])
    else if s[0] == ' ' || s[0] == '\t' then Lex(s[1..])
    else if IsWordChar(s[0]) then
      var n := WordLength(s);
      [Word(s[..n])] + Lex(s[n..])
    else [Sym(s[0])] + Lex(s[1..])
  }

  /** A text that does not run on from a word or an indentation before it */
  predicate Apart(s: string) {
    s == "" || (!IsWordChar(s[0]) && s[0] != '\t')
  }

  lemma {:induction false} TabsCount(n: nat, t: string)
    requires t == "" || t[0] != '\t'
    ensures |Tabs(n)| == n && TabCount(Tabs(n) + t) == n
  {
    if n == 0 {
      assert Tabs(0) + t == t;
    } else {
      TabsCount(n - 1, t);
      assert (Tabs(n) + t)[1..] == Tabs(n - 1) + t;
    }
  }

  lemma LexLine(s: string, n: nat)
    requires s != "" && s[0] == '\n' && TabCount(s[1..]) == n
    ensures Lex(s) == [Break(n)] + Lex(s[1 + n..])
  {
  }

  lemma LexBreak(n: nat, t: string)
    requires t == "" || t[0] != '\t'
    ensures Lex("\n" + Tabs(n) + t) == [Break(n)] + Lex(t)
  {
    hide Lex, Tabs, TabCount;
    TabsCount(n, t);
    var s := "\n" + Tabs(n) + t;
    assert s[1..] == Tabs(n) + t;
    LexLine(s, n);
    assert s[1 + n..] == t;
  }

  lemma {:induction false} WordCount(w: string, t: string)
    requires forall i :: 0 <= i < |w| ==> IsWordChar(w[i])
    requires t == "" || !IsWordChar(t[0])
    ensures WordLength(w + t) == |w|
  {
    if w == "" {
      assert w + t == t;
    } else {
      WordCount(w[1..], t);
      assert (w + t)[1..] == w[1..] + t;
    }
  }

  lemma LexWord(w: string, t: string)
    requires IsWord(w) && (t == "" || !IsWordChar(t[0]))
    ensures Lex(w + t) == [Word(w)] + Lex(t)
  {
    WordCount(w, t);
    assert (w + t)[..|w|] == w && (w + t)[|w|..] == t;
    assert IsWordChar((w + t)[0]);
  }

  lemma LexSpace(t: string)
    ensures Lex(" " + t) == Lex(t)
  {
    assert (" " + t)[1..] == t;
  }

  lemma LexSym(c: char, t: string)
    requires c in ":{},="
    ensures Lex([c] + t) == [Sym(c)] + Lex(t)
  {
    assert ([c] + t)[1..] == t;
  }

  // ----- the tokens of a rendering -----

  predicate Known(lang: Language) {
    lang == PYTHON || lang == RUBY || lang == JAVASCRIPT
  }

  function OpenTokens(lang: Language, name: string): seq<Token> {
    if lang == PYTHON then [Word("class"), Word(name), Sym(':')]
    else if lang == RUBY then [Word("module"), Word(name)]
    else [Word(name), Sym(':'), Sym('{')]
  }

  function Equals(lang: Language): char {
    if lang == JAVASCRIPT then ':' else '='
  }

  function CloseTokens(lang: Language, level: nat, empty: bool): seq<Token>
    requires level > 0
  {
    if lang == PYTHON then (if empty then [Break(level), Word("pass")] else [])
    else if lang == RUBY then [Break(level - 1), Word("end")]
    else (if empty then [] else [Break(level - 1)]) + [Sym('}')]
  }

  function Comma(lang: Language, first: bool): seq<Token> {
    if lang == JAVASCRIPT && !first then [Sym(',')] else []
  }

  /** The tokens of the items, followed by `k` */
  function Tokens(lang: Language, level: nat, first: bool, items: Items, k: seq<Token>): seq<Token>
    requires Printable(items)
    decreases items
  {
    match items
    case Nil => k
    case Entry(name, value, rest) =>
      Comma(lang, first) + ([Break(level), Word(name), Sym(Equals(lang)), Word(Printed(value).value)]
                            + Tokens(lang, level, false, rest, k))
    case Block(name, body, rest) =>
      Comma(lang, first) + ((if first then [] else [Break(level)]) + ([Break(level)] + OpenTokens(lang, name)
        + Tokens(lang, level + 1, true, body, CloseTokens(lang, level + 1, body.Nil?)
          + Tokens(lang, level, false, rest, k))))
  }

  /** All names and all values are words. */
  predicate Worded(items: Items) {
    match items
    case Nil => true
    case Entry(name, value, rest) =>
      IsWord(name) && Printed(value).Some? && IsWord(Printed(value).value) && Worded(rest)
    case Block(name, body, rest) => IsWord(name) && Worded(body) && Worded(rest)
  }

  lemma LexClass(name: string, t: string)
    requires IsWord(name) && Apart(t)
    ensures Lex("class " + name + ":" + t) == OpenTokens(PYTHON, name) + Lex(t)
  {
    hide Lex;
    LexSym(':', t);
    LexWord(name, ":" + t);
    LexSpace(name + (":" + t));
    LexWord("class", " " + (name + (":" + t)));
    assert "class " + name + ":" + t == "class" + (" " + (name + (":" + t)));
  }

  lemma LexModule(name: string, t: string)
    requires IsWord(name) && Apart(t)
    ensures Lex("module " + name + t) == OpenTokens(RUBY, name) + Lex(t)
  {
    hide Lex;
    LexWord(name, t);
    LexSpace(name + t);
    LexWord("module", " " + (name + t));
    assert "module " + name + t == "module" + (" " + (name + t));
  }

  lemma LexMember(name: string, t: string)
    requires IsWord(name) && Apart(t)
    ensures Lex(name + ": {" + t) == OpenTokens(JAVASCRIPT, name) + Lex(t)
  {
    hide Lex;
    LexSym('{', t);
    LexSpace("{" + t);
    LexSym(':', " " + ("{" + t));
    LexWord(name, ":" + (" " + ("{" + t)));
    assert name + ": {" + t == name + (":" + (" " + ("{" + t)));
  }

  lemma LexOpen(lang: Language, level: nat, name: string, t: string)
    requires Known(lang) && IsWord(name) && Apart(t)
    ensures Lex(OpenText(lang, level, name) + t) == [Break(level)] + OpenTokens(lang, name) + Lex(t)
  {
    hide Lex, Tabs, OpenTokens;
    var tail := lang.openBefore + name + lang.openAfter + t;
    if lang == PYTHON {
      LexClass(name, t);
    } else if lang == RUBY {
      LexModule(name, t);
      assert tail == "module " + name + t;
    } else {
      LexMember(name, t);
      assert tail == name + ": {" + t;
    }
    LexBreak(level, tail);
    OpenTextIs(lang, level, name, t);
  }

  lemma OpenTextIs(lang: Language, level: nat, name: string, t: string)
    requires Known(lang) && IsWord(name)
    ensures var tail := lang.openBefore + name + lang.openAfter + t;
            OpenText(lang, level, name) + t == "\n" + Tabs(level) + tail && tail != "" && tail[0] != '\t'
  {
    hide Tabs;
  }

  lemma LexValue(lang: Language, level: nat, name: string, value: string, t: string)
    requires Known(lang) && IsWord(name) && IsWord(value) && Apart(t)
    ensures Lex(ValueText(lang, level, name, value) + t)
            == [Break(level), Word(name), Sym(Equals(lang)), Word(value)] + Lex(t)
  {
    hide Lex, Tabs;
    var tail := name + lang.between + value + t;
    assert ValueText(lang, level, name, value) + t == "\n" + Tabs(level) + tail;
    if lang == JAVASCRIPT {
      LexPair(name, value, t);
    } else {
      LexAssignment(name, value, t);
    }
    assert tail[0] == name[0];
    LexBreak(level, tail);
  }

  lemma LexPair(name: string, value: string, t: string)
    requires IsWord(name) && IsWord(value) && Apart(t)
    ensures Lex(name + ": " + value + t) == [Word(name), Sym(':'), Word(value)] + Lex(t)
  {
    hide Lex;
    LexWord(value, t);
    LexSpace(value + t);
    LexSym(':', " " + (value + t));
    LexWord(name, ":" + (" " + (value + t)));
    assert name + ": " + value + t == name + (":" + (" " + (value + t)));
  }

  lemma LexAssignment(name: string, value: string, t: string)
    requires IsWord(name) && IsWord(value) && Apart(t)
    ensures Lex(name + " = " + value + t) == [Word(name), Sym('='), Word(value)] + Lex(t)
  {
    hide Lex;
    LexWord(value, t);
    LexSpace(value + t);
    LexSym('=', " " + (value + t));
    LexSpace("=" + (" " + (value + t)));
    LexWord(name, " " + ("=" + (" " + (value + t))));
    assert name + " = " + value + t == name + (" " + ("=" + (" " + (value + t))));
  }

  lemma LexClose(lang: Language, level: nat, empty: bool, t: string)
    requires Known(lang) && level > 0 && Apart(t)
    ensures Lex(ClosePart(lang, level, empty) + t) == CloseTokens(lang, level, empty) + Lex(t)
    ensures Apart(ClosePart(lang, level, empty) + t)
  {
    hide Lex, Tabs;
    var line := "\n" + Tabs(level - 1);
    if lang == PYTHON {
      if empty {
        assert ClosePart(lang, level, empty) + t == "\n" + Tabs(level) + ("pass" + t);
        LexWord("pass", t);
        LexBreak(level, "pass" + t);
      } else {
        assert ClosePart(lang, level, empty) + t == t;
      }
    } else if lang == RUBY {
      assert ClosePart(lang, level, empty) + t == line + ("end" + t);
      LexWord("end", t);
      LexBreak(level - 1, "end" + t);
    } else {
      LexSym('}', t);
      if empty {
        assert ClosePart(lang, level, empty) + t == "}" + t;
      } else {
        assert ClosePart(lang, level, empty) + t == line + ("}" + t);
        LexBreak(level - 1, "}" + t);
      }
    }
  }

  lemma LexComma(lang: Language, first: bool, t: string)
    requires Known(lang)
    ensures Lex((if first then "" else lang.separator) + t) == Comma(lang, first) + Lex(t)
  {
    hide Lex;
    if lang == JAVASCRIPT && !first {
      LexSym(',', t);
    } else {
      assert "" + t == t;
    }
  }

  lemma LexOpenPart(lang: Language, level: nat, first: bool, name: string, t: string)
    requires Known(lang) && IsWord(name) && Apart(t)
    ensures Lex(OpenPart(lang, level, first, name) + t)
         == Comma(lang, first)
           + ((if first then [] else [Break(level)]) + ([Break(level)] + OpenTokens(lang, name) + Lex(t)))
  {
    hide Lex, Tabs;
    LexOpen(lang, level, name, t);
    if !first {
      var text := OpenText(lang, level, name) + t;
      assert OpenPart(lang, level, first, name) + t == lang.separator + ("\n" + Tabs(level) + text);
      LexBreak(level, text);
      LexComma(lang, first, "\n" + Tabs(level) + text);
    }
  }

  /** The lexer sees through the rendering. */
  lemma {:induction false} LexRender(lang: Language, level: nat, first: bool, items: Items, t: string)
    requires Known(lang) && Worded(items) && Printable(items) && Apart(t)
    ensures Lex(Render(lang, level, first, items) + t) == Tokens(lang, level, first, items, Lex(t))
    ensures Apart(Render(lang, level, first, items) + t)
    decreases items
  {
    hide Lex, OpenPart, ValuePart, ClosePart, Tabs;
    match items
    case Nil =>
      assert "" + t == t;
    case Entry(name, value, rest) =>
      var v, more := Printed(value).value, Render(lang, level, false, rest) + t;
      LexRender(lang, level, false, rest, t);
      LexValuePart(lang, level, first, name, v, more);
      assert Render(lang, level, first, items) + t == ValuePart(lang, level, first, name, v) + more;
    case Block(name, body, rest) =>
      var more := Render(lang, level, false, rest) + t;
      var closing := ClosePart(lang, level + 1, body.Nil?);
      LexRender(lang, level, false, rest, t);
      LexClose(lang, level + 1, body.Nil?, more);
      LexRender(lang, level + 1, true, body, closing + more);
      var inner := Render(lang, level + 1, true, body);
      LexOpenPart(lang, level, first, name, inner + (closing + more));
      OpenPartIsApart(lang, level, first, name, inner + (closing + more));
      Reassociate(OpenPart(lang, level, first, name), inner, closing, Render(lang, level, false, rest), t);
  }

  lemma Reassociate(a: string, b: string, c: string, d: string, e: string)
    ensures a + (b + (c + d)) + e == a + (b + (c + (d + e)))
  {
  }

  lemma LexValuePart(lang: Language, level: nat, first: bool, name: string, value: string, t: string)
    requires Known(lang) && IsWord(name) && IsWord(value) && Apart(t)
    ensures Lex(ValuePart(lang, level, first, name, value) + t)
         == Comma(lang, first) + ([Break(level), Word(name), Sym(Equals(lang)), Word(value)] + Lex(t))
    ensures Apart(ValuePart(lang, level, first, name, value) + t)
  {
    hide Lex, Tabs;
    var sep, text := if first then "" else lang.separator, ValueText(lang, level, name, value);
    LexValue(lang, level, name, value, t);
    assert sep + text + t == sep + (text + t);
    LexComma(lang, first, text + t);
  }

  lemma OpenPartIsApart(lang: Language, level: nat, first: bool, name: string, t: string)
    requires Known(lang)
    ensures Apart(OpenPart(lang, level, first, name) + t)
  {
  }

  // ----- readers -----

  /** What can be read again: the values as they were printed */
  function AsPrinted(items: Items): Items
    requires Printable(items)
  {
    match items
    case Nil => Nil
    case Entry(name, value, rest) => Entry(name, Printed(value).value, AsPrinted(rest))
    case Block(name, body, rest) => Block(name, AsPrinted(body), AsPrinted(rest))
  }

  function SkipBreaks(ts: seq<Token>): (us: seq<Token>)
    ensures |us| <= |ts| && (us == [] || !us[0].Break?)
  {
    if ts != [] && ts[0].Break? then SkipBreaks(ts[1..]) else ts
  }

  /** A JavaScript object's members: separated by commas, with none after the last */
  function ReadMembers(ts: seq<Token>): (r: Option<(Items, seq<Token>)>)
    ensures r.Some? ==> |r.value.1| <= |ts| && (!r.value.0.Nil? ==> |r.value.1| < |ts|)
    decreases |ts|
  {
    var us := SkipBreaks(ts);
    if |us| < 3 || !us[0].Word? || us[1] != Sym(':') then
      Some((Nil, ts))
    else if us[2].Word? then
      match ReadMoreMembers(us[3..])
      case None => None
      case Some((rest, vs)) => Some((Entry(us[0].text, us[2].text, rest), vs))
    else if us[2] != Sym('{') then
      None
    else
      match ReadMembers(us[3..])
      case None => None
      case Some((body, vs)) =>
        var ws := SkipBreaks(vs);
        if ws == [] || ws[0] != Sym('}') then
          None
        else
          match ReadMoreMembers(ws[1..])
          case None => None
          case Some((rest, xs)) => Some((Block(us[0].text, body, rest), xs))
  }

  function ReadMoreMembers(ts: seq<Token>): (r: Option<(Items, seq<Token>)>)
    ensures r.Some? ==> |r.value.1| <= |ts|
    decreases |ts|, 0
  {
    if ts == [] || ts[0] != Sym(',') then
      Some((Nil, ts))
    else
      match ReadMembers(ts[1..])
      case None => None
      case Some((items, us)) => if items.Nil? then None else Some((items, us))
  }

  predicate EndsMembers(k: seq<Token>) {
    && (k == [] || k[0] != Sym(','))
    && (SkipBreaks(k) == [] || !SkipBreaks(k)[0].Word?)
  }

  lemma BreaksDoNotMatter(n: nat, ts: seq<Token>)
    ensures SkipBreaks([Break(n)] + ts) == SkipBreaks(ts)
  {
    assert ([Break(n)] + ts)[1..] == ts;
  }

  lemma EntryMember(level: nat, name: string, value: string, ts: seq<Token>)
    ensures ReadMembers([Break(level), Word(name), Sym(':'), Word(value)] + ts) ==
              match ReadMoreMembers(ts) case None => None case Some((rest, vs)) => Some((Entry(name, value, rest), vs))
  {
    hide ReadMoreMembers;
    var us := [Word(name), Sym(':'), Word(value)] + ts;
    BreaksDoNotMatter(level, us);
    assert [Break(level), Word(name), Sym(':'), Word(value)] + ts == [Break(level)] + us;
    assert us[3..] == ts;
  }

  /** A block whose body reads back, up to its closing brace */
  lemma BlockMember(level: nat, name: string, body: Items, inner: seq<Token>, closing: seq<Token>, ts: seq<Token>)
    requires ReadMembers(inner) == Some((body, closing + ts)) && SkipBreaks(closing + ts) == [Sym('}')] + ts
    ensures ReadMembers([Break(level)] + OpenTokens(JAVASCRIPT, name) + inner) ==
              match ReadMoreMembers(ts) case None => None case Some((rest, vs)) => Some((Block(name, body, rest), vs))
  {
    hide ReadMoreMembers;
    var us := [Word(name), Sym(':'), Sym('{')] + inner;
    BreaksDoNotMatter(level, us);
    assert [Break(level)] + OpenTokens(JAVASCRIPT, name) + inner == [Break(level)] + us;
    assert us[3..] == inner;
    assert ([Sym('}')] + ts)[1..] == ts;
  }

  lemma ClosingBrace(level: nat, empty: bool, ts: seq<Token>)
    requires level > 0
    ensures EndsMembers(CloseTokens(JAVASCRIPT, level, empty) + ts)
    ensures SkipBreaks(CloseTokens(JAVASCRIPT, level, empty) + ts) == [Sym('}')] + ts
  {
    if !empty {
      BreaksDoNotMatter(level - 1, [Sym('}')] + ts);
      assert CloseTokens(JAVASCRIPT, level, empty) + ts == [Break(level - 1)] + ([Sym('}')] + ts);
    }
  }

  lemma {:induction false} MembersReadBack(level: nat, items: Items, k: seq<Token>)
    requires Printable(items) && EndsMembers(k)
    ensures ReadMembers(Tokens(JAVASCRIPT, level, true, items, k)) == Some((AsPrinted(items), k))
    decreases items, 0
  {
    hide ReadMembers, ReadMoreMembers, EndsMembers, CloseTokens, OpenTokens;
    match items
    case Nil => NoMembers(k);
    case Entry(name, value, rest) =>
      var more := Tokens(JAVASCRIPT, level, false, rest, k);
      EntryMember(level, name, Printed(value).value, more);
      MoreMembersReadBack(level, rest, k);
      TokensOfEntry(JAVASCRIPT, level, true, items, k);
    case Block(name, body, rest) =>
      var more := Tokens(JAVASCRIPT, level, false, rest, k);
      var closing := CloseTokens(JAVASCRIPT, level + 1, body.Nil?);
      ClosingBrace(level + 1, body.Nil?, more);
      MembersReadBack(level + 1, body, closing + more);
      BlockMember(
        level, name, AsPrinted(body), Tokens(JAVASCRIPT, level + 1, true, body, closing + more), closing, more);
      MoreMembersReadBack(level, rest, k);
      TokensOfBlock(JAVASCRIPT, level, true, items, k);
  }

  lemma NoMembers(k: seq<Token>)
    requires EndsMembers(k)
    ensures ReadMembers(k) == Some((Nil, k)) && ReadMoreMembers(k) == Some((Nil, k))
  {
  }

  lemma TokensOfEntry(lang: Language, level: nat, first: bool, items: Items, k: seq<Token>)
    requires Printable(items) && items.Entry?
    ensures Tokens(lang, level, first, items, k)
         == Comma(lang, first) + ([Break(level), Word(items.name), Sym(Equals(lang)), Word(Printed(items.value).value)]
                                  + Tokens(lang, level, false, items.rest, k))
    ensures first ==> Comma(lang, first) == [] && forall ts: seq<Token> {:trigger [] + ts} :: [] + ts == ts
  {
  }

  lemma TokensOfBlock(lang: Language, level: nat, first: bool, items: Items, k: seq<Token>)
    requires Printable(items) && items.Block?
    ensures var more := CloseTokens(lang, level + 1, items.body.Nil?) + Tokens(lang, level, false, items.rest, k);
            var block := [Break(level)] + OpenTokens(lang, items.name)
              + Tokens(lang, level + 1, true, items.body, more);
            Tokens(lang, level, first, items, k) ==
              if first then block else Comma(lang, first) + ([Break(level)] + block)
  {
  }

  lemma {:induction false} MoreMembersReadBack(level: nat, items: Items, k: seq<Token>)
    requires Printable(items) && EndsMembers(k)
    ensures ReadMoreMembers(Tokens(JAVASCRIPT, level, false, items, k)) == Some((AsPrinted(items), k))
    decreases items, 1
  {
    hide EndsMembers, CloseTokens, OpenTokens;
    if items.Nil? {
      NoMembers(k);
    } else {
      var ts := Tokens(JAVASCRIPT, level, true, items, k);
      MembersReadBack(level, items, k);
      if items.Entry? {
        TokensOfEntry(JAVASCRIPT, level, true, items, k);
        TokensOfEntry(JAVASCRIPT, level, false, items, k);
        AfterComma(ts, ts, AsPrinted(items), k);
      } else {
        TokensOfBlock(JAVASCRIPT, level, true, items, k);
        TokensOfBlock(JAVASCRIPT, level, false, items, k);
        BreaksDoNotMatter(level, ts);
        AfterComma(ts, [Break(level)] + ts, AsPrinted(items), k);
      }
    }
  }

  lemma AfterComma(ts: seq<Token>, us: seq<Token>, items: Items, k: seq<Token>)
    requires ReadMembers(ts) == Some((items, k)) && !items.Nil? && SkipBreaks(us) == SkipBreaks(ts)
    ensures ReadMoreMembers([Sym(',')] + us) == Some((items, k))
  {
    assert ([Sym(',')] + us)[1..] == us;
  }
}
