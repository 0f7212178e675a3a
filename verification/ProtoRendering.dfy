/**
 * What the converter writes for well-nested input: a nested rendering in which separators stand between
 * siblings only and every block that must not be empty is padded.
 */
module ProtoRendering {
  import opened Wrappers
  import opened ProtoConverter

  /** The content of a block, item by item */
  datatype Items =
    | Nil
    | Entry(name: string, value: string, rest: Items)
    | Block(name: string, body: Items, rest: Items)

  function LinesOf(items: Items): seq<Line> {
    match items
    case Nil => []
    case Entry(name, value, rest) => [Value(name, value)] + LinesOf(rest)
    case Block(name, body, rest) => [Open(name)] + (LinesOf(body) + ([Close] + LinesOf(rest)))
  }

  /** The lines without those that match nothing */
  function Meaningful(lines: seq<Line>): seq<Line> {
    if lines == [] then [] else (if lines[0].Other? then [] else [lines[0]]) + Meaningful(lines[1..])
  }

  predicate Printable(items: Items) {
    match items
    case Nil => true
    case Entry(_, value, rest) => Printed(value).Some? && Printable(rest)
    case Block(_, body, rest) => Printable(body) && Printable(rest)
  }

  // ----- the rendering -----

  function OpenPart(lang: Language, level: nat, first: bool, name: string): string {
    if first then OpenText(lang, level, name)
    else lang.separator + ("\n" + Tabs(level)) + OpenText(lang, level, name)
  }

  function ValuePart(lang: Language, level: nat, first: bool, name: string, value: string): string {
    (if first then "" else lang.separator) + ValueText(lang, level, name, value)
  }

  /** `empty` says that the block has no content; `level` is that of its content. */
  function ClosePart(lang: Language, level: nat, empty: bool): string
    requires level > 0
  {
    (if empty && lang.empty.Some? then PadText(lang, level) else "")
    + (if lang.close.None? then ""
       else if !empty || lang.empty.Some? || lang.closeAlwaysNewLine then "\n" + Tabs(level - 1) + lang.close.value
       else lang.close.value)
  }

  /** `first` says that nothing precedes the items in their block. */
  function Render(lang: Language, level: nat, first: bool, items: Items): string
    requires Printable(items)
    decreases items
  {
    match items
    case Nil => ""
    case Entry(name, value, rest) =>
      ValuePart(lang, level, first, name, Printed(value).value) + Render(lang, level, false, rest)
    case Block(name, body, rest) =>
      OpenPart(lang, level, first, name)
      + (Render(lang, level + 1, true, body)
        + (ClosePart(lang, level + 1, body.Nil?) + Render(lang, level, false, rest)))
  }

  // ----- the loop writes the rendering -----

  predicate At(s: State, level: nat, first: bool) {
    s.indentLevel == level && s.levelHasContent == !first && Levelled(s)
  }

  lemma OpenedWrites(lang: Language, s: State, level: nat, first: bool, name: string)
    requires At(s, level, first)
    ensures At(Opened(lang, s, name), level + 1, true)
    ensures Opened(lang, s, name).output == s.output + OpenPart(lang, level, first, name)
  {
    hide Tabs, OpenText;
    var text, blank := OpenText(lang, level, name), "\n" + Tabs(level);
    if !first {
      assert s.output + lang.separator + blank + text == s.output + (lang.separator + blank + text);
    }
  }

  lemma AssignedWrites(lang: Language, s: State, level: nat, first: bool, name: string, value: string)
    requires At(s, level, first)
    ensures At(Assigned(lang, s, name, value), level, false)
    ensures Assigned(lang, s, name, value).output == s.output + ValuePart(lang, level, first, name, value)
  {
    hide ValueText;
    var text := ValueText(lang, level, name, value);
    if first {
      assert "" + text == text;
    } else {
      assert s.output + lang.separator + text == s.output + (lang.separator + text);
    }
  }

  lemma ClosedWrites(lang: Language, s: State, level: nat, empty: bool)
    requires At(s, level, empty) && level > 0
    ensures At(Closed(lang, s), level - 1, false)
    ensures Closed(lang, s).output == s.output + ClosePart(lang, level, empty)
  {
    hide Tabs, PadText;
    var pad := if empty && lang.empty.Some? then PadText(lang, level) else "";
    var line := "\n" + Tabs(level - 1);
    var out := s.output + pad;
    assert (empty && lang.empty.Some?) || out == s.output;
    if lang.close.Some? {
      var close := lang.close.value;
      assert out + line + close == s.output + (pad + (line + close));
      assert out + close == s.output + (pad + close);
    } else {
      assert pad + "" == pad;
    }
  }

  lemma FirstLine(lang: Language, s: State, line: Line, rest: seq<Line>)
    ensures ConvertAll(lang, s, [line] + rest) ==
              match Convert(lang, s, line) case None => None case Some(t) => ConvertAll(lang, t, rest)
  {
    hide Convert;
    assert ([line] + rest)[1..] == rest;
  }

  /** The state after the items of a block, or part of them */
  function After(lang: Language, s: State, level: nat, first: bool, items: Items): State
    requires Printable(items)
  {
    if items.Nil? then s else State(level, level, true, s.output + Render(lang, level, first, items))
  }

  lemma {:induction false} LoopRenders(lang: Language, s: State, level: nat, first: bool, items: Items, more: seq<Line>)
    requires At(s, level, first) && Printable(items)
    ensures ConvertAll(lang, s, LinesOf(items) + more) == ConvertAll(lang, After(lang, s, level, first, items), more)
    decreases items, 0
  {
    hide Convert, Opened, Assigned, Closed, OpenPart, ValuePart, ClosePart, ConvertAll, At, LinesOf;
    LinesFirst(items, more);
    match items
    case Nil =>
    case Entry(name, value, rest) =>
      ConvertValue(lang, s, name, value);
      AssignedWrites(lang, s, level, first, name, Printed(value).value);
      var t := Assigned(lang, s, name, Printed(value).value);
      FirstLine(lang, s, Value(name, value), LinesOf(rest) + more);
      LoopRenders(lang, t, level, false, rest, more);
      RestOf(lang, t, level, rest, s.output, ValuePart(lang, level, first, name, Printed(value).value));
    case Block(name, body, rest) =>
      BlockRenders(lang, s, level, first, name, body, [Close] + (LinesOf(rest) + more));
      var u := AfterBody(lang, s, level, first, name, body);
      ClosedWrites(lang, u, level + 1, body.Nil?);
      FirstLine(lang, u, Close, LinesOf(rest) + more);
      ConvertClose(lang, u);
      var t := Closed(lang, u);
      LoopRenders(lang, t, level, false, rest, more);
      var opening, closing := OpenPart(lang, level, first, name), ClosePart(lang, level + 1, body.Nil?);
      var inner := Render(lang, level + 1, true, body);
      Regroup(s.output, opening, inner, closing, Render(lang, level, false, rest));
      RestOf(lang, t, level, rest, s.output, opening + (inner + closing));
      AfterBlock(lang, s, level, first, items);
  }

  lemma Regroup(out: string, a: string, b: string, c: string, d: string)
    ensures a + (b + c) + d == a + (b + (c + d)) && out + a + b + c == out + (a + (b + c))
  {
  }

  lemma AfterBlock(lang: Language, s: State, level: nat, first: bool, items: Items)
    requires Printable(items) && items.Block?
    ensures After(lang, s, level, first, items)
            == State(level, level, true, s.output
                     + (OpenPart(lang, level, first, items.name)
                        + (Render(lang, level + 1, true, items.body)
                           + (ClosePart(lang, level + 1, items.body.Nil?) + Render(lang, level, false, items.rest)))))
  {
    hide OpenPart, ClosePart;
  }

  lemma LinesFirst(items: Items, more: seq<Line>)
    ensures match items
            case Nil => LinesOf(items) + more == more
            case Entry(name, value, rest) => LinesOf(items) + more == [Value(name, value)] + (LinesOf(rest) + more)
            case Block(name, body, rest) =>
              LinesOf(items) + more == [Open(name)] + (LinesOf(body) + ([Close] + (LinesOf(rest) + more)))
  {
    match items
    case Nil => assert [] + more == more;
    case Entry(name, value, rest) =>
      assert LinesOf(items) == [Value(name, value)] + LinesOf(rest);
      Append([Value(name, value)], LinesOf(rest), more);
    case Block(name, body, rest) =>
      assert LinesOf(items) == [Open(name)] + (LinesOf(body) + ([Close] + LinesOf(rest)));
      hide LinesOf;
      Append([Open(name)], LinesOf(body) + ([Close] + LinesOf(rest)), more);
      Append(LinesOf(body), [Close] + LinesOf(rest), more);
      Append([Close], LinesOf(rest), more);
  }

  lemma Append(a: seq<Line>, b: seq<Line>, c: seq<Line>)
    ensures a + b + c == a + (b + c)
  {
  }

  /** Once something is written at a level, what follows is appended to it. */
  lemma RestOf(lang: Language, t: State, level: nat, rest: Items, before: string, part: string)
    requires At(t, level, false) && Printable(rest) && t.output == before + part
    ensures After(lang, t, level, false, rest)
            == State(level, level, true, before + (part + Render(lang, level, false, rest)))
  {
    var text := Render(lang, level, false, rest);
    assert rest.Nil? ==> text == "";
    hide Render;
    assert rest.Nil? ==> part + text == part;
    assert before + part + text == before + (part + text);
  }

  function AfterBody(lang: Language, s: State, level: nat, first: bool, name: string, body: Items): State
    requires Printable(body)
  {
    After(lang, Opened(lang, s, name), level + 1, true, body)
  }

  lemma BlockRenders(lang: Language, s: State, level: nat, first: bool, name: string, body: Items, more: seq<Line>)
    requires At(s, level, first) && Printable(body)
    ensures ConvertAll(lang, s, [Open(name)] + (LinesOf(body) + more))
            == ConvertAll(lang, AfterBody(lang, s, level, first, name, body), more)
    ensures At(AfterBody(lang, s, level, first, name, body), level + 1, body.Nil?)
    ensures AfterBody(lang, s, level, first, name, body).output
         == s.output + OpenPart(lang, level, first, name) + Render(lang, level + 1, true, body)
    decreases body, 1
  {
    hide Opened, OpenPart, ConvertAll, Convert, At, After;
    ConvertOpen(lang, s, name);
    FirstLine(lang, s, Open(name), LinesOf(body) + more);
    OpenedWrites(lang, s, level, first, name);
    LoopRenders(lang, Opened(lang, s, name), level + 1, true, body, more);
    AfterIsAt(lang, Opened(lang, s, name), level + 1, true, body);
  }

  lemma AfterIsAt(lang: Language, s: State, level: nat, first: bool, items: Items)
    requires At(s, level, first) && Printable(items)
    ensures At(After(lang, s, level, first, items), level, first && items.Nil?)
    ensures After(lang, s, level, first, items).output == s.output + Render(lang, level, first, items)
  {
    assert items.Nil? ==> s.output + Render(lang, level, first, items) == s.output;
  }

  lemma ConvertOpen(lang: Language, s: State, name: string)
    ensures Convert(lang, s, Open(name)) == Some(Opened(lang, s, name))
  {
  }

  lemma ConvertValue(lang: Language, s: State, name: string, value: string)
    requires Printed(value).Some?
    ensures Convert(lang, s, Value(name, value)) == Some(Assigned(lang, s, name, Printed(value).value))
  {
  }

  lemma ConvertClose(lang: Language, s: State)
    ensures Convert(lang, s, Close) == Some(Closed(lang, s))
  {
  }

  /** A value that does not convert stops everything, however deep it stands. */
  lemma {:induction false} UnprintableStops(
      lang: Language, s: State, level: nat, first: bool, items: Items, more: seq<Line>)
    requires At(s, level, first) && !Printable(items)
    ensures ConvertAll(lang, s, LinesOf(items) + more) == None
    decreases items
  {
    hide Opened, Assigned, Closed, OpenPart, ValuePart, ClosePart, ConvertAll, At, Printed;
    match items
    case Entry(name, value, rest) =>
      assert LinesOf(items) + more == [Value(name, value)] + (LinesOf(rest) + more);
      FirstLine(lang, s, Value(name, value), LinesOf(rest) + more);
      if Printed(value).Some? {
        AssignedWrites(lang, s, level, first, name, Printed(value).value);
        UnprintableStops(lang, Assigned(lang, s, name, Printed(value).value), level, false, rest, more);
      }
    case Block(name, body, rest) =>
      var tail := [Close] + (LinesOf(rest) + more);
      assert LinesOf(items) + more == [Open(name)] + (LinesOf(body) + tail);
      if Printable(body) {
        BlockRenders(lang, s, level, first, name, body, tail);
        var u := AfterBody(lang, s, level, first, name, body);
        FirstLine(lang, u, Close, LinesOf(rest) + more);
        ClosedWrites(lang, u, level + 1, body.Nil?);
        UnprintableStops(lang, Closed(lang, u), level, false, rest, more);
      } else {
        FirstLine(lang, s, Open(name), LinesOf(body) + tail);
        OpenedWrites(lang, s, level, first, name);
        UnprintableStops(lang, Opened(lang, s, name), level + 1, true, body, tail);
      }
  }

  lemma {:induction false} OthersAreSkipped(lang: Language, s: State, lines: seq<Line>)
    ensures ConvertAll(lang, s, lines) == ConvertAll(lang, s, Meaningful(lines))
    decreases |lines|
  {
    hide Convert;
    if lines != [] {
      SkipOther(lang, s);
      FirstLine(lang, s, lines[0], Meaningful(lines[1..]));
      match Convert(lang, s, lines[0])
      case None =>
      case Some(t) =>
        OthersAreSkipped(lang, t, lines[1..]);
        if lines[0].Other? {
          assert Meaningful(lines) == Meaningful(lines[1..]);
        }
    }
  }

  lemma SkipOther(lang: Language, s: State)
    ensures Convert(lang, s, Other) == Some(s)
  {
  }

  /**
   * Well-nested input, with whatever between its lines, is converted to the rendering of its blocks, and
   * it is converted exactly if all values are.
   */
  lemma ConversionRenders(lang: Language, lines: seq<Line>, items: Items)
    requires Meaningful(lines) == LinesOf(items)
    ensures var s := ConvertAll(lang, Start(lang), lines);
            && (s.Some? <==> Printable(items))
            && (s.Some? ==> s.value.output == lang.header + Render(lang, lang.initialIndentLevel, true, items))
  {
    hide ConvertAll;
    OthersAreSkipped(lang, Start(lang), lines);
    assert LinesOf(items) + [] == LinesOf(items);
    if Printable(items) {
      LoopRenders(lang, Start(lang), lang.initialIndentLevel, true, items, []);
      NoLines(lang, After(lang, Start(lang), lang.initialIndentLevel, true, items));
      assert lang.header + "" == lang.header;
    } else {
      UnprintableStops(lang, Start(lang), lang.initialIndentLevel, true, items, []);
    }
  }

  lemma NoLines(lang: Language, s: State)
    ensures ConvertAll(lang, s, []) == Some(s)
  {
  }
}
