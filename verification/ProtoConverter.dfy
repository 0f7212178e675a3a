/**
 * `convertFile` of scripts/convert_protofile.py, which turns the messages and enums of a .proto file
 * into nested definitions of another language while it reads, line by line, with two indent levels and
 * a flag as its only memory. What a line is, is decided by regular expressions that are not modelled.
 */
module ProtoConverter {
  import opened Wrappers

  /** A line by the regular expression it matches; `Other` matches none. */
  datatype Line = Open(name: string) | Value(name: string, value: string) | Close | Other

  /** An entry of `languageDefs`, its templates cut at their parameters */
  datatype Language = Language(
    initialIndentLevel: nat,
    header: string,
    separator: string,
    openBefore: string,          // "\n%(tabs)s" openBefore name openAfter
    openAfter: string,
    between: string,             // "\n%(tabs)s" name between value
    empty: Option<string>,
    close: Option<string>,
    closeAlwaysNewLine: bool,
    footer: string)

  const PYTHON := Language(0, "# DO NOT EDIT\n# Autogenerated by convert_protofile.py\n",
                           "", "class ", ":", " = ", Some("pass"), None, false, "\n")
  const RUBY := Language(1, "# DO NOT EDIT\n# Autogenerated by convert_protofile.py\n\nmodule RethinkDB",
                         "", "module ", "", " = ", None, Some("end"), true, "\nend\n")
  const JAVASCRIPT := Language(1, "// DO NOT EDIT\n// Autogenerated by convert_protofile.py\n\nmodule.exports = {",
                               ",", "", ": {", ": ", None, Some("}"), false, "\n}\n")

  function Tabs(n: int): string {
    if n <= 0 then "" else "\t" + Tabs(n - 1)
  }

  // ----- numbers -----

  function HexDigit(c: char): Option<nat> {
    if '0' <= c <= '9' then Some(c as int - '0' as int)
    else if 'a' <= c <= 'f' then Some(c as int - 'a' as int + 10)
    else if 'A' <= c <= 'F' then Some(c as int - 'A' as int + 10)
    else None
  }

  function ParseHex(s: string): Option<nat> {
    if s == "" then
      Some(0)
    else
      match (ParseHex(s[..|s| - 1]), HexDigit(s[|s| - 1]))
      case (Some(n), Some(d)) => Some(16 * n + d)
      case _ => None
  }

  function Decimal(n: nat): (s: string)
    ensures s != "" && forall i :: 0 <= i < |s| ==> '0' <= s[i] <= '9'
  {
    var last := ['0' + (n % 10) as char];
    if n < 10 then last else Decimal(n / 10) + last
  }

  /** The value as it is written; `None` is the exception of `int(value, 0)`. */
  function Printed(value: string): Option<string> {
    if "0x" <= value then
      if |value| == 2 || ParseHex(value[2..]).None? then None else Some(Decimal(ParseHex(value[2..]).value))
    else
      Some(value)
  }

  // ----- the loop -----

  datatype State = State(indentLevel: int, lastIndentLevel: int, levelHasContent: bool, output: string)

  function Start(lang: Language): State {
    State(lang.initialIndentLevel, lang.initialIndentLevel - 1, false, lang.header)
  }

  function Separated(lang: Language, s: State): string {
    if s.indentLevel == s.lastIndentLevel then s.output + lang.separator else s.output
  }

  function OpenText(lang: Language, level: int, name: string): string {
    "\n" + Tabs(level) + lang.openBefore + name + lang.openAfter
  }

  function ValueText(lang: Language, level: int, name: string, value: string): string {
    "\n" + Tabs(level) + name + lang.between + value
  }

  function PadText(lang: Language, level: int): string
    requires lang.empty.Some?
  {
    "\n" + Tabs(level) + lang.empty.value
  }

  function Opened(lang: Language, s: State, name: string): State {
    var out := Separated(lang, s);
    var out' := if s.levelHasContent then out + ("\n" + Tabs(s.indentLevel)) else out;
    State(s.indentLevel + 1, s.indentLevel, false, out' + OpenText(lang, s.indentLevel, name))
  }

  function Assigned(lang: Language, s: State, name: string, value: string): State {
    State(s.indentLevel, s.indentLevel, true, Separated(lang, s) + ValueText(lang, s.indentLevel, name, value))
  }

  function Closed(lang: Language, s: State): State {
    var padded := !s.levelHasContent && lang.empty.Some?;
    var out := if padded then s.output + PadText(lang, s.indentLevel) else s.output;
    var newLine := padded || s.indentLevel == s.lastIndentLevel || lang.closeAlwaysNewLine;
    var out' := if lang.close.Some? && newLine then out + ("\n" + Tabs(s.indentLevel - 1)) else out;
    State(s.indentLevel - 1, s.indentLevel - 1, true, if lang.close.Some? then out' + lang.close.value else out')
  }

  function Convert(lang: Language, s: State, line: Line): Option<State> {
    match line
    case Open(name) => Some(Opened(lang, s, name))
    case Value(name, value) =>
      if Printed(value).None? then None else Some(Assigned(lang, s, name, Printed(value).value))
    case Close => Some(Closed(lang, s))
    case Other => Some(s)
  }

  function ConvertAll(lang: Language, s: State, lines: seq<Line>): Option<State>
    decreases |lines|
  {
    if lines == [] then
      Some(s)
    else
      match Convert(lang, s, lines[0])
      case None => None
      case Some(t) => ConvertAll(lang, t, lines[1..])
  }

  /** The levels are equal exactly if there is content at this one. */
  predicate Levelled(s: State) {
    s.lastIndentLevel == if s.levelHasContent then s.indentLevel else s.indentLevel - 1
  }

  /** So it is before every line of every input, nested well or not. */
  lemma {:induction false} LevelsFollowContent(lang: Language, s: State, lines: seq<Line>)
    requires Levelled(s)
    ensures ConvertAll(lang, s, lines).Some? ==> Levelled(ConvertAll(lang, s, lines).value)
    decreases |lines|
  {
    hide Printed, OpenText, ValueText, PadText, Tabs;
    if lines != [] && Convert(lang, s, lines[0]).Some? {
      LevelsFollowContent(lang, Convert(lang, s, lines[0]).value, lines[1..]);
    }
  }

  /** `None` is a value that could not be converted. */
  method ConvertFile(lines: seq<Line>, lang: Language) returns (output: Option<string>)
    ensures var s := ConvertAll(lang, Start(lang), lines);
            output == if s.None? then None else Some(s.value.output + lang.footer)
  {
    var indentLevel: int := lang.initialIndentLevel;
    var lastIndentLevel := lang.initialIndentLevel - 1;
    var out := lang.header;
    var levelHasContent := false;
    hide Printed, OpenText, ValueText, PadText;
    ghost var all := ConvertAll(lang, Start(lang), lines);
    var i := 0;
    while i < |lines|
      invariant i <= |lines|
      invariant Levelled(State(indentLevel, lastIndentLevel, levelHasContent, out))
      invariant all == ConvertAll(lang, State(indentLevel, lastIndentLevel, levelHasContent, out), lines[i..])
    {
      ghost var before := State(indentLevel, lastIndentLevel, levelHasContent, out);
      match lines[i] {
        case Open(name) =>
          if indentLevel == lastIndentLevel {
            out := out + lang.separator;
          }
          if levelHasContent {
            out := out + ("\n" + Tabs(indentLevel));
          }
          out := out + OpenText(lang, indentLevel, name);
          lastIndentLevel := indentLevel;
          indentLevel := indentLevel + 1;
          levelHasContent := false;
        case Value(name, value) =>
          if indentLevel == lastIndentLevel {
            out := out + lang.separator;
          }
          var printed := Printed(value);
          if printed.None? {
            return None;
          }
          out := out + ValueText(lang, indentLevel, name, printed.value);
          lastIndentLevel := indentLevel;
          levelHasContent := true;
        case Close =>
          if !levelHasContent && lang.empty.Some? {
            out := out + PadText(lang, indentLevel);
            lastIndentLevel := indentLevel;
          }
          if lang.close.Some? {
            if indentLevel == lastIndentLevel || lang.closeAlwaysNewLine {
              out := out + ("\n" + Tabs(indentLevel - 1));
            }
            out := out + lang.close.value;
          }
          indentLevel := indentLevel - 1;
          lastIndentLevel := indentLevel;
          levelHasContent := true;
        case Other =>
      }
      assert Some(State(indentLevel, lastIndentLevel, levelHasContent, out)) == Convert(lang, before, lines[i]);
      assert lines[i..][0] == lines[i] && lines[i..][1..] == lines[i + 1..];
      i := i + 1;
    }
    output := Some(out + lang.footer);
  }
}
