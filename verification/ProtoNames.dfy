/** What Ruby and Python take as the name of a block, as a name that is assigned to, and as a value. */
module ProtoNames {
  import opened ProtoConverter
  import opened ProtoRendering
  import opened ProtoReading

  /** `literals` are keywords that stand for values; `capitalBlocks` says that a block's name is a constant. */
  datatype Rules = Rules(keywords: set<string>, literals: set<string>, capitalBlocks: bool)

  /** The keywords of Python 3.7 and later, and the one other name that cannot be assigned to */
  function PythonRules(): Rules {
    Rules({"False", "None", "True", "and", "as", "assert", "async", "await", "break", "class", "continue", "def",
           "del", "elif", "else", "except", "finally", "for", "from", "global", "if", "import", "in", "is", "lambda",
           "nonlocal", "not", "or", "pass", "raise", "return", "try", "while", "with", "yield", "__debug__"},
          {"False", "None", "True", "__debug__"}, false)
  }

  /** The keywords of Ruby that are words */
  function RubyRules(): Rules {
    Rules({"BEGIN", "END", "__ENCODING__", "__FILE__", "__LINE__", "alias", "and", "begin", "break", "case", "class",
           "def", "do", "else", "elsif", "end", "ensure", "false", "for", "if", "in", "module", "next", "nil", "not",
           "or", "redo", "rescue", "retry", "return", "self", "super", "then", "true", "undef", "unless", "until",
           "when", "while", "yield"},
          {"__ENCODING__", "__FILE__", "__LINE__", "false", "nil", "self", "true"}, true)
  }

  predicate IsDigit(c: char) {
    '0' <= c <= '9'
  }

  predicate LegalName(rules: Rules, s: string) {
    s != "" && !IsDigit(s[0]) && s !in rules.keywords
  }

  predicate LegalBlock(rules: Rules, s: string) {
    LegalName(rules, s) && (rules.capitalBlocks ==> 'A' <= s[0] <= 'Z')
  }

  /** A word that starts with a digit is taken to be a number. */
  predicate LegalValue(rules: Rules, s: string) {
    (s != "" && IsDigit(s[0])) || s !in rules.keywords || s in rules.literals
  }

  predicate Legal(items: Items, rules: Rules) {
    match items
    case Nil => true
    case Entry(name, value, rest) => LegalName(rules, name) && LegalValue(rules, value) && Legal(rest, rules)
    case Block(name, body, rest) => LegalBlock(rules, name) && Legal(body, rules) && Legal(rest, rules)
  }

  /** Printing a value makes it neither legal nor illegal. */
  lemma {:induction false} PrintedIsAsLegal(items: Items, rules: Rules)
    requires Printable(items)
    ensures Legal(AsPrinted(items), rules) <==> Legal(items, rules)
  {
    hide ParseHex, Decimal;
    match items
    case Nil =>
    case Entry(_, value, rest) =>
      PrintedIsAsLegal(rest, rules);
      assert "0x" <= value ==> value[0] == '0';
    case Block(_, body, rest) =>
      PrintedIsAsLegal(body, rules);
      PrintedIsAsLegal(rest, rules);
  }

  lemma BlockWords()
    ensures !LegalName(PythonRules(), "class") && !LegalName(PythonRules(), "pass")
    ensures !LegalName(RubyRules(), "module") && !LegalName(RubyRules(), "end")
  {
  }

  /** `def` names nothing in either language, and a name in lower case no module of Ruby. */
  lemma SomeIllegalBlocks()
    ensures !LegalBlock(PythonRules(), "def") && !LegalBlock(RubyRules(), "def") && !LegalBlock(RubyRules(), "term")
  {
  }
}
