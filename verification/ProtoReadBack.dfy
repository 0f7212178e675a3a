/** The Ruby and Python readers, and for every language: what was converted is read back. */
module ProtoReadBack {
  import opened Wrappers
  import opened ProtoConverter
  import opened ProtoRendering
  import opened ProtoReading
  import opened ProtoNames

  // ----- Ruby: modules up to their `end` -----

  predicate StartsModule(us: seq<Token>) {
    |us| >= 2 && us[0] == Word("module") && us[1].Word?
  }

  predicate StartsEntry(us: seq<Token>) {
    |us| >= 3 && us[0].Word? && us[0] != Word("end") && us[1] == Sym('=') && us[2].Word?
  }

  function ReadStatements(ts: seq<Token>): (r: Option<(Items, seq<Token>)>)
    ensures r.Some? ==> |r.value.1| <= |ts| && Legal(r.value.0, RubyRules())
    decreases |ts|
  {
    var us := SkipBreaks(ts);
    if StartsModule(us) && LegalBlock(RubyRules(), us[1].text) then
      match ReadStatements(us[2..])
      case None => None
      case Some((body, vs)) =>
        var ws := SkipBreaks(vs);
        if ws == [] || ws[0] != Word("end") then
          None
        else
          match ReadStatements(ws[1..])
          case None => None
          case Some((rest, xs)) => Some((Block(us[1].text, body, rest), xs))
    else if StartsEntry(us) && LegalName(RubyRules(), us[0].text) && LegalValue(RubyRules(), us[2].text) then
      match ReadStatements(us[3..])
      case None => None
      case Some((rest, xs)) => Some((Entry(us[0].text, us[2].text, rest), xs))
    else if StartsModule(us) || StartsEntry(us) then
      None
    else
      Some((Nil, ts))
  }

  predicate EndsStatements(k: seq<Token>) {
    SkipBreaks(k) != [] && SkipBreaks(k)[0] == Word("end")
  }

  lemma EntryStatement(level: nat, name: string, value: string, ts: seq<Token>)
    requires LegalName(RubyRules(), name) && LegalValue(RubyRules(), value)
    ensures ReadStatements([Break(level), Word(name), Sym('='), Word(value)] + ts) ==
              match ReadStatements(ts) case None => None case Some((rest, vs)) => Some((Entry(name, value, rest), vs))
  {
    BlockWords();
    hide RubyRules, PythonRules;
    var us := [Word(name), Sym('='), Word(value)] + ts;
    BreaksDoNotMatter(level, us);
    assert [Break(level), Word(name), Sym('='), Word(value)] + ts == [Break(level)] + us;
    assert us[3..] == ts;
  }

  lemma BlockStatement(level: nat, name: string, body: Items, inner: seq<Token>, closing: seq<Token>, ts: seq<Token>)
    requires LegalBlock(RubyRules(), name)
    requires ReadStatements(inner) == Some((body, closing + ts)) && SkipBreaks(closing + ts) == [Word("end")] + ts
    ensures ReadStatements([Break(level)] + OpenTokens(RUBY, name) + inner) ==
              match ReadStatements(ts) case None => None case Some((rest, vs)) => Some((Block(name, body, rest), vs))
  {
    hide RubyRules;
    var us := [Word("module"), Word(name)] + inner;
    BreaksDoNotMatter(level, us);
    assert [Break(level)] + OpenTokens(RUBY, name) + inner == [Break(level)] + us;
    assert us[2..] == inner;
    assert ([Word("end")] + ts)[1..] == ts;
  }

  lemma ClosingEnd(level: nat, empty: bool, ts: seq<Token>)
    requires level > 0
    ensures SkipBreaks(CloseTokens(RUBY, level, empty) + ts) == [Word("end")] + ts
  {
    BreaksDoNotMatter(level - 1, [Word("end")] + ts);
    assert CloseTokens(RUBY, level, empty) + ts == [Break(level - 1)] + ([Word("end")] + ts);
  }

  lemma NoStatements(k: seq<Token>)
    requires EndsStatements(k)
    ensures ReadStatements(k) == Some((Nil, k))
  {
  }

  lemma BlankLine(level: nat, ts: seq<Token>)
    requires ts != [] && ts[0].Break?
    ensures ReadStatements(ts).Some? && !ReadStatements(ts).value.0.Nil?
            ==> ReadStatements([Break(level)] + ts) == ReadStatements(ts)
  {
    BreaksDoNotMatter(level, ts);
  }

  lemma {:induction false} StatementsReadBack(level: nat, first: bool, items: Items, k: seq<Token>)
    requires Printable(items) && Legal(AsPrinted(items), RubyRules()) && EndsStatements(k)
    ensures ReadStatements(Tokens(RUBY, level, first, items, k)) == Some((AsPrinted(items), k))
    decreases items
  {
    hide ReadStatements, CloseTokens, OpenTokens, RubyRules;
    match items
    case Nil => NoStatements(k);
    case Entry(name, value, rest) =>
      StatementsReadBack(level, false, rest, k);
      EntryStatement(level, name, Printed(value).value, Tokens(RUBY, level, false, rest, k));
      TokensOfEntry(RUBY, level, first, items, k);
      NoComma(RUBY, first, [Break(level), Word(name), Sym(Equals(RUBY)), Word(Printed(value).value)]
        + Tokens(RUBY, level, false, rest, k));
    case Block(name, body, rest) =>
      var more := Tokens(RUBY, level, false, rest, k);
      var closing := CloseTokens(RUBY, level + 1, body.Nil?);
      ClosingEnd(level + 1, body.Nil?, more);
      StatementsReadBack(level + 1, true, body, closing + more);
      var inner := Tokens(RUBY, level + 1, true, body, closing + more);
      StatementsReadBack(level, false, rest, k);
      BlockStatement(level, name, AsPrinted(body), inner, closing, more);
      TokensOfBlock(RUBY, level, first, items, k);
      var block := [Break(level)] + OpenTokens(RUBY, name) + inner;
      BlankLine(level, block);
      NoComma(RUBY, first, [Break(level)] + block);
  }

  lemma NoComma(lang: Language, first: bool, ts: seq<Token>)
    requires lang != JAVASCRIPT
    ensures Comma(lang, first) + ts == ts
  {
  }

  // ----- Python: blocks by indentation, and none without a body -----

  /** Lines with nothing on them are no lines. */
  function DropBlank(ts: seq<Token>): (us: seq<Token>)
    ensures |us| <= |ts|
  {
    if ts != [] && ts[0].Break? && (|ts| == 1 || ts[1].Break?) then DropBlank(ts[1..]) else ts
  }

  function ReadSuite(ts: seq<Token>, level: nat): (r: Option<(Items, seq<Token>)>)
    ensures r.Some? ==> |r.value.1| <= |ts| && Legal(r.value.0, PythonRules())
    decreases |ts|, 0
  {
    var us := DropBlank(ts);
    if us == [] || (us[0].Break? && us[0].tabs < level) then
      Some((Nil, ts))
    else if us[0] != Break(level) || |us| < 4 then
      None
    else if us[1] == Word("class") && us[2].Word? && LegalBlock(PythonRules(), us[2].text) && us[3] == Sym(':') then
      match ReadBody(us[4..], level + 1)
      case None => None
      case Some((body, vs)) =>
        match ReadSuite(vs, level)
        case None => None
        case Some((rest, ws)) => Some((Block(us[2].text, body, rest), ws))
    else if us[1].Word? && LegalName(PythonRules(), us[1].text) && us[2] == Sym('=')
            && us[3].Word? && LegalValue(PythonRules(), us[3].text) then
      match ReadSuite(us[4..], level)
      case None => None
      case Some((rest, ws)) => Some((Entry(us[1].text, us[3].text, rest), ws))
    else
      None
  }

  /** A body is a `pass` or at least one statement. */
  function ReadBody(ts: seq<Token>, level: nat): (r: Option<(Items, seq<Token>)>)
    ensures r.Some? ==> |r.value.1| <= |ts| && Legal(r.value.0, PythonRules())
    decreases |ts|, 1
  {
    var us := DropBlank(ts);
    if |us| >= 2 && us[0] == Break(level) && us[1] == Word("pass") then
      Some((Nil, us[2..]))
    else
      match ReadSuite(ts, level)
      case None => None
      case Some((items, vs)) => if items.Nil? then None else Some((items, vs))
  }

  predicate EndsSuite(k: seq<Token>, level: nat) {
    var us := DropBlank(k);
    us == [] || (us[0].Break? && us[0].tabs < level)
  }

  /** A line with something on it starts what is read. */
  lemma LineFirst(level: nat, t: Token, ts: seq<Token>)
    requires !t.Break?
    ensures DropBlank([Break(level), t] + ts) == [Break(level), t] + ts
    ensures DropBlank([Break(level)] + ([Break(level), t] + ts)) == [Break(level), t] + ts
  {
    assert ([Break(level)] + ([Break(level), t] + ts))[1..] == [Break(level), t] + ts;
  }

  lemma EntryLine(level: nat, name: string, value: string, ts: seq<Token>)
    requires LegalName(PythonRules(), name) && LegalValue(PythonRules(), value)
    ensures ReadSuite([Break(level), Word(name), Sym('='), Word(value)] + ts, level) ==
              match ReadSuite(ts, level) case None => None case Some((rest, vs)) => Some((Entry(name, value, rest), vs))
    ensures DropBlank([Break(level), Word(name), Sym('='), Word(value)] + ts)
         == [Break(level), Word(name), Sym('='), Word(value)] + ts
  {
    BlockWords();
    hide PythonRules, RubyRules;
    var us := [Break(level), Word(name), Sym('='), Word(value)] + ts;
    assert us == [Break(level), Word(name)] + ([Sym('='), Word(value)] + ts);
    LineFirst(level, Word(name), [Sym('='), Word(value)] + ts);
    assert us[4..] == ts;
  }

  lemma BlockLines(level: nat, first: bool, name: string, body: Items, inner: seq<Token>, ts: seq<Token>)
    requires LegalBlock(PythonRules(), name) && ReadBody(inner, level + 1) == Some((body, ts))
    ensures var block := [Break(level)] + OpenTokens(PYTHON, name) + inner;
            && ReadSuite(if first then block else [Break(level)] + block, level) ==
                 (match ReadSuite(ts, level)
                  case None => None
                  case Some((rest, vs)) => Some((Block(name, body, rest), vs)))
            && DropBlank(if first then block else [Break(level)] + block) == block
  {
    hide PythonRules;
    var us := [Break(level)] + OpenTokens(PYTHON, name) + inner;
    assert us == [Break(level), Word("class")] + ([Word(name), Sym(':')] + inner);
    LineFirst(level, Word("class"), [Word(name), Sym(':')] + inner);
    assert us[4..] == inner;
  }

  lemma NoLinesLeft(k: seq<Token>, level: nat)
    requires EndsSuite(k, level)
    ensures ReadSuite(k, level) == Some((Nil, k)) && EndsSuite(k, level + 1)
  {
  }

  lemma TokensOfNothing(lang: Language, level: nat, first: bool, k: seq<Token>)
    ensures Tokens(lang, level, first, Nil, k) == k
  {
  }

  /** The suite reads back, and whatever its length it ends a deeper one. */
  lemma {:induction false} SuiteReadsBack(level: nat, first: bool, items: Items, k: seq<Token>)
    requires Printable(items) && Legal(AsPrinted(items), PythonRules()) && EndsSuite(k, level)
    ensures var ts := Tokens(PYTHON, level, first, items, k);
            && ReadSuite(ts, level) == Some((AsPrinted(items), k))
            && EndsSuite(ts, level + 1)
            && (!items.Nil? ==> var us := DropBlank(ts); |us| >= 2 && us[0] == Break(level) && us[1] != Word("pass"))
    decreases items, 0
  {
    BlockWords();
    hide ReadSuite, ReadBody, CloseTokens, Tokens, Comma, PythonRules, RubyRules;
    match items
    case Nil =>
      TokensOfNothing(PYTHON, level, first, k);
      NoLinesLeft(k, level);
    case Entry(name, value, rest) =>
      var more := Tokens(PYTHON, level, false, rest, k);
      SuiteReadsBack(level, false, rest, k);
      EntryLine(level, name, Printed(value).value, more);
      TokensOfEntry(PYTHON, level, first, items, k);
      NoComma(PYTHON, first, [Break(level), Word(name), Sym(Equals(PYTHON)), Word(Printed(value).value)] + more);
    case Block(name, body, rest) =>
      var more := Tokens(PYTHON, level, false, rest, k);
      SuiteReadsBack(level, false, rest, k);
      var inner := Tokens(PYTHON, level + 1, true, body, CloseTokens(PYTHON, level + 1, body.Nil?) + more);
      BodyReadsBack(level + 1, body, more);
      BlockLines(level, first, name, AsPrinted(body), inner, more);
      TokensOfBlock(PYTHON, level, first, items, k);
      var block := [Break(level)] + OpenTokens(PYTHON, name) + inner;
      NoComma(PYTHON, first, [Break(level)] + block);
  }

  lemma {:induction false} BodyReadsBack(level: nat, body: Items, ts: seq<Token>)
    requires level > 0 && Printable(body) && Legal(AsPrinted(body), PythonRules()) && EndsSuite(ts, level)
    ensures ReadBody(Tokens(PYTHON, level, true, body, CloseTokens(PYTHON, level, body.Nil?) + ts), level)
            == Some((AsPrinted(body), ts))
    decreases body, 1
  {
    hide PythonRules;
    if body.Nil? {
      LineFirst(level, Word("pass"), ts);
      assert ([Break(level), Word("pass")] + ts)[2..] == ts;
    } else {
      assert CloseTokens(PYTHON, level, false) + ts == ts;
      SuiteReadsBack(level, true, body, ts);
    }
  }

  // ----- the text -----

  function Body(lang: Language, items: Items): string
    requires Printable(items)
  {
    Render(lang, lang.initialIndentLevel, true, items) + lang.footer
  }

  lemma Footers()
    ensures Lex(PYTHON.footer) == [Break(0)]
    ensures Lex(RUBY.footer) == [Break(0), Word("end"), Break(0)]
    ensures Lex(JAVASCRIPT.footer) == [Break(0), Sym('}'), Break(0)]
  {
    hide Lex;
    NoText();
    LexBreak(0, "");
    assert "\n" + Tabs(0) + "" == "\n";
    LexWord("end", "\n");
    assert "end" + "\n" == "end\n" && "\n" + Tabs(0) + "end\n" == "\nend\n";
    LexBreak(0, "end\n");
    LexSym('}', "\n");
    assert ['}'] + "\n" == "}\n" && "\n" + Tabs(0) + "}\n" == "\n}\n";
    LexBreak(0, "}\n");
  }

  lemma NoText()
    ensures Lex("") == []
  {
  }

  /** What follows the header reads as a JavaScript object with the same names and values, nested the same. */
  lemma JavaScriptReadsBack(items: Items)
    requires Worded(items) && Printable(items)
    ensures ReadMembers(Lex(Body(JAVASCRIPT, items))) == Some((AsPrinted(items), [Break(0), Sym('}'), Break(0)]))
  {
    hide Lex, ReadMembers;
    Footers();
    LexRender(JAVASCRIPT, 1, true, items, JAVASCRIPT.footer);
    BreaksDoNotMatter(0, [Sym('}'), Break(0)]);
    assert [Break(0)] + [Sym('}'), Break(0)] == [Break(0), Sym('}'), Break(0)];
    MembersReadBack(1, items, [Break(0), Sym('}'), Break(0)]);
  }

  /** A Ruby file reads as modules with the same names and values exactly if Ruby takes all of them. */
  lemma RubyReadsBack(items: Items)
    requires Worded(items) && Printable(items)
    ensures ReadStatements(Lex(Body(RUBY, items))) == Some((AsPrinted(items), [Break(0), Word("end"), Break(0)]))
            <==> Legal(items, RubyRules())
  {
    hide Lex, ReadStatements, RubyRules;
    Footers();
    LexRender(RUBY, 1, true, items, RUBY.footer);
    BreaksDoNotMatter(0, [Word("end"), Break(0)]);
    assert [Break(0)] + [Word("end"), Break(0)] == [Break(0), Word("end"), Break(0)];
    PrintedIsAsLegal(items, RubyRules());
    if Legal(items, RubyRules()) {
      StatementsReadBack(1, true, items, [Break(0), Word("end"), Break(0)]);
    }
  }

  /**
   * A Python file reads as classes with the same names and values exactly if Python takes all of them.
   * The reader takes no block without a body, so every block has one.
   */
  lemma PythonReadsBack(items: Items)
    requires Worded(items) && Printable(items)
    ensures ReadSuite(Lex(Body(PYTHON, items)), 0) == Some((AsPrinted(items), [Break(0)]))
            <==> Legal(items, PythonRules())
  {
    hide Lex, ReadSuite, PythonRules;
    Footers();
    LexRender(PYTHON, 0, true, items, PYTHON.footer);
    PrintedIsAsLegal(items, PythonRules());
    if Legal(items, PythonRules()) {
      SuiteReadsBack(0, true, items, [Break(0)]);
    }
  }

  lemma NoSuchModule(level: nat, name: string, inner: seq<Token>)
    requires !LegalBlock(RubyRules(), name)
    ensures ReadStatements([Break(level)] + OpenTokens(RUBY, name) + inner) == None
  {
    hide RubyRules;
    var us := [Word("module"), Word(name)] + inner;
    BreaksDoNotMatter(level, us);
    assert [Break(level)] + OpenTokens(RUBY, name) + inner == [Break(level)] + us;
  }

  lemma NoSuchClass(level: nat, name: string, inner: seq<Token>)
    requires !LegalBlock(PythonRules(), name)
    ensures ReadSuite([Break(level)] + OpenTokens(PYTHON, name) + inner, level) == None
  {
    BlockWords();
    hide RubyRules, PythonRules;
    var us := [Break(level)] + OpenTokens(PYTHON, name) + inner;
    assert us == [Break(level), Word("class")] + ([Word(name), Sym(':')] + inner);
    LineFirst(level, Word("class"), [Word(name), Sym(':')] + inner);
  }

  /** A message whose name the language does not take: it is converted, and nothing can be read. */
  lemma IllegalModule(name: string)
    requires IsWord(name) && !LegalBlock(RubyRules(), name)
    ensures ReadStatements(Lex(Body(RUBY, Block(name, Nil, Nil)))) == None
  {
    var items, k := Block(name, Nil, Nil), Lex(RUBY.footer);
    LexRender(RUBY, 1, true, items, RUBY.footer);
    TokensOfBlock(RUBY, 1, true, items, k);
    hide Lex, Tokens, ReadStatements, RubyRules, LegalBlock;
    NoSuchModule(1, name, Tokens(RUBY, 2, true, Nil, CloseTokens(RUBY, 2, true) + Tokens(RUBY, 1, false, Nil, k)));
  }

  lemma IllegalClass(name: string)
    requires IsWord(name) && !LegalBlock(PythonRules(), name)
    ensures ReadSuite(Lex(Body(PYTHON, Block(name, Nil, Nil))), 0) == None
  {
    var items, k := Block(name, Nil, Nil), Lex(PYTHON.footer);
    LexRender(PYTHON, 0, true, items, PYTHON.footer);
    TokensOfBlock(PYTHON, 0, true, items, k);
    hide Lex, Tokens, ReadSuite, PythonRules, LegalBlock;
    NoSuchClass(0, name, Tokens(PYTHON, 1, true, Nil, CloseTokens(PYTHON, 1, true) + Tokens(PYTHON, 0, false, Nil, k)));
  }

  /** A message named `def` is no Python and no Ruby any more, and one named `term` no Ruby. */
  lemma ReservedNamesDoNotRead()
    ensures Worded(Block("def", Nil, Nil)) && Worded(Block("term", Nil, Nil))
    ensures ReadSuite(Lex(Body(PYTHON, Block("def", Nil, Nil))), 0) == None
    ensures ReadStatements(Lex(Body(RUBY, Block("def", Nil, Nil)))) == None
    ensures ReadStatements(Lex(Body(RUBY, Block("term", Nil, Nil)))) == None
  {
    SomeIllegalBlocks();
    hide Lex, ReadStatements, ReadSuite, RubyRules, PythonRules;
    IllegalClass("def");
    IllegalModule("def");
    IllegalModule("term");
  }

  // ----- values -----

  /** Sixteen digits in either case stand for the numbers from 0 to 15, in order; no other character is a digit. */
  lemma HexDigits(c: char)
    ensures HexDigit('0') == Some(0) && HexDigit('a') == Some(10) && HexDigit('A') == Some(10)
    ensures '0' <= c < '9' || 'a' <= c < 'f' || 'A' <= c < 'F' ==>
              HexDigit(c).Some? && HexDigit(c + 1 as char) == Some(HexDigit(c).value + 1)
    ensures HexDigit(c).Some? <==> '0' <= c <= '9' || 'a' <= c <= 'f' || 'A' <= c <= 'F'
    ensures HexDigit(c).Some? ==> HexDigit(c).value < 16
  {
  }

  /** What the digits in `s` make of a number that has begun with `acc`, read from the front */
  function Positional(s: string, base: nat, acc: nat): Option<nat> {
    if s == "" then Some(acc)
    else
      match HexDigit(s[0])
      case Some(d) => if d < base then Positional(s[1..], base, base * acc + d) else None
      case None => None
  }

  /** The number a value stands for in the languages written, if it is one */
  function NumberOf(s: string): Option<nat> {
    if "0x" <= s then (if |s| == 2 then None else Positional(s[2..], 16, 0))
    else if s == "" then None
    else Positional(s, 10, 0)
  }

  lemma {:induction false} OneDigitMore(s: string, c: char, base: nat, acc: nat)
    ensures Positional(s + [c], base, acc)
         == match (Positional(s, base, acc), HexDigit(c))
            case (Some(n), Some(d)) => if d < base then Some(base * n + d) else None
            case _ => None
    decreases |s|
  {
    if s == "" {
      assert s + [c] == [c] && [c][1..] == "";
    } else {
      assert (s + [c])[1..] == s[1..] + [c] && (s + [c])[0] == s[0];
      if HexDigit(s[0]).Some? {
        OneDigitMore(s[1..], c, base, base * acc + HexDigit(s[0]).value);
      }
    }
  }

  lemma {:induction false} HexIsPositional(s: string)
    ensures ParseHex(s) == Positional(s, 16, 0)
  {
    if s != "" {
      var n := |s| - 1;
      HexIsPositional(s[..n]);
      OneDigitMore(s[..n], s[n], 16, 0);
      HexDigits(s[n]);
      assert s == s[..n] + [s[n]];
    }
  }

  lemma LastDigit(n: nat)
    ensures HexDigit('0' + (n % 10) as char) == Some(n % 10)
    ensures Decimal(n) == (if n < 10 then "" else Decimal(n / 10)) + ['0' + (n % 10) as char]
  {
  }

  lemma {:induction false} DecimalRoundTrip(n: nat)
    ensures Positional(Decimal(n), 10, 0) == Some(n)
  {
    hide HexDigit, Decimal;
    LastDigit(n);
    OneDigitMore(if n < 10 then "" else Decimal(n / 10), '0' + (n % 10) as char, 10, 0);
    if n >= 10 {
      DecimalRoundTrip(n / 10);
    }
  }

  /**
   * A hexadecimal value is written as the same number, and as a word; every other value is written as it
   * is. What starts like a hexadecimal number and is none does not convert, and nothing else fails to.
   */
  lemma PrintedKeepsNumber(value: string)
    ensures Printed(value).None? <==> "0x" <= value && NumberOf(value).None?
    ensures Printed(value).Some? ==> NumberOf(Printed(value).value) == NumberOf(value)
    ensures Printed(value).Some? && IsWord(value) ==> IsWord(Printed(value).value)
    ensures !("0x" <= value) ==> Printed(value) == Some(value)
  {
    if "0x" <= value {
      HexIsPositional(value[2..]);
    }
    if "0x" <= value && Printed(value).Some? {
      var n := ParseHex(value[2..]).value;
      DecimalRoundTrip(n);
      var s := Decimal(n);
      if |s| >= 2 {
        assert s[1] != 'x';
      }
    }
  }
}
