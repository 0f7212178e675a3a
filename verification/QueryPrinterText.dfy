/** What a query is printed as: the tokens of the layout trees, joined, against a printer of plain text. */
module QueryPrinterText {
  import opened Wrappers
  import opened QueryPrinter

  // ----- the text of a term -----

  function Separated(parts: seq<string>, separator: string): string {
    if parts == [] then ""
    else if |parts| == 1 then parts[0]
    else parts[0] + separator + Separated(parts[1..], separator)
  }

  function InExpr(wrap: bool, s: string): string {
    if wrap then "r.expr(" + s + ")" else s
  }

  predicate IsLiteral(t: Term) {
    t.kind.Datum? || t.kind.MakeArray? || t.kind.MakeObj?
  }

  /** The arguments from the `i`-th on */
  function ArgTexts(t: Term, i: nat): (r: seq<string>)
    requires Printable(t)
    ensures |r| == if i < |t.args| then |t.args| - i else 0
    decreases t, 0, |t.args| - i
  {
    if i >= |t.args| then [] else [Text(t.args[i])] + ArgTexts(t, i + 1)
  }

  /** The same with literals made queries */
  function QueryTexts(t: Term, i: nat): seq<string>
    requires Printable(t)
    decreases t, 0, |t.args| - i
  {
    if i >= |t.args| then [] else [InExpr(IsLiteral(t.args[i]), Text(t.args[i]))] + QueryTexts(t, i + 1)
  }

  function OptTexts(t: Term, j: nat): seq<string>
    requires Printable(t)
    decreases t, 0, |t.optargs| - j
  {
    if j >= |t.optargs| then [] else [t.optargs[j].key + "=" + Text(t.optargs[j].value)] + OptTexts(t, j + 1)
  }

  function FieldTexts(t: Term, j: nat): seq<string>
    requires Printable(t)
    decreases t, 0, |t.optargs| - j
  {
    if j >= |t.optargs| then [] else [t.optargs[j].repr + ": " + Text(t.optargs[j].value)] + FieldTexts(t, j + 1)
  }

  function VarTexts(vars: seq<string>): seq<string> {
    if vars == [] then [] else ["var_" + vars[0]] + VarTexts(vars[1..])
  }

  /** The object of a method call */
  function Receiver(t: Term): string
    requires Printable(t) && t.args != []
    decreases t, 0, 0
  {
    InExpr(IsLiteral(t.args[0]), Text(t.args[0]))
  }

  /** All arguments from the `i`-th on, then the optional ones */
  function AllTexts(t: Term, i: nat): string
    requires Printable(t)
    decreases t, 1, 0
  {
    Separated(ArgTexts(t, i) + OptTexts(t, 0), ", ")
  }

  function MethodText(t: Term, statement: string): string
    requires Printable(t)
    decreases t, 2, 0
  {
    if t.args == [] then "r." + statement + "()"
    else Receiver(t) + "." + statement + "(" + AllTexts(t, 1) + ")"
  }

  function Text(t: Term): string
    requires Printable(t)
    decreases t, 3, 0
  {
    match t.kind
    case Datum(repr) => repr
    case MakeArray => "[" + Separated(ArgTexts(t, 0), ", ") + "]"
    case MakeObj => "r.expr({" + Separated(FieldTexts(t, 0), ", ") + "})"
    case Var => "var_" + t.args[0].kind.repr
    case ImplicitVar => "r.row"
    case Binary => if t.args == [] then "r.binary(bytes(<data>))" else "r.binary(" + AllTexts(t, 0) + ")"
    case Not => "(~" + InExpr(t.args[0].kind.Datum?, Text(t.args[0])) + ")"
    case BoolOper(statement, infix, symbol) =>
      if infix then "(" + Separated(QueryTexts(t, 0), " " + symbol + " ") + ")"
      else "r." + statement + "(" + Separated(QueryTexts(t, 0), ", ") + ")"
    case BiOper(statement) => "(" + Separated(QueryTexts(t, 0), " " + statement + " ") + ")"
    case Db => "r.db(" + AllTexts(t, 0) + ")"
    case TopLevel(statement) => "r." + statement + "(" + AllTexts(t, 0) + ")"
    case Method(statement) => MethodText(t, statement)
    case Bracket(statement, operator) =>
      if operator then Receiver(t) + "[" + Separated(ArgTexts(t, 1), ",") + "]" else MethodText(t, statement)
    case Slice(operator) =>
      if operator then Receiver(t) + "[" + Text(t.args[1]) + ":" + Text(t.args[2]) + "]" else MethodText(t, "slice")
    case FunCall =>
      if |t.args| == 2 then InExpr(t.args[1].kind.Datum?, Text(t.args[1])) + ".do(" + Text(t.args[0]) + ")"
      else "r.do(" + Separated(ArgTexts(t, 1), ", ") + ", " + Text(t.args[0]) + ")"
    case Table =>
      if t.args[0].kind.Db? then Text(t.args[0]) + ".table(" + AllTexts(t, 1) + ")"
      else "r.table(" + AllTexts(t, 0) + ")"
    case Func(vars) => "lambda " + Separated(VarTexts(vars), ", ") + ": " + Text(t.args[1])
  }

  // ----- layout trees as text -----

  function TextAt(texts: seq<string>, i: nat): string {
    if i < |texts| then texts[i] else ""
  }

  /** The text of a layout tree whose holes are filled with texts */
  function Fill(t: T, texts: seq<string>): string
    decreases t, 1
  {
    match t
    case Str(s) => s
    case Hole(i) => TextAt(texts, i)
    case Node(parts, intsp) => Separated(FillAll(parts, texts), Join(intsp))
  }

  function FillAll(parts: seq<T>, texts: seq<string>): (r: seq<string>)
    ensures |r| == |parts|
    decreases parts, 0
  {
    if parts == [] then [] else [Fill(parts[0], texts)] + FillAll(parts[1..], texts)
  }

  lemma {:induction false} JoinConcat(a: seq<Token>, b: seq<Token>)
    ensures Join(a + b) == Join(a) + Join(b)
  {
    if a == [] {
      assert a + b == b;
    } else {
      assert (a + b)[1..] == a[1..] + b;
      JoinConcat(a[1..], b);
      assert a[0] + (Join(a[1..]) + Join(b)) == a[0] + Join(a[1..]) + Join(b);
    }
  }

  lemma {:induction false} JoinChars(s: string)
    ensures Join(Chars(s)) == s
  {
    if s != "" {
      assert Chars(s)[0] == [s[0]] && Chars(s)[1..] == Chars(s[1..]);
      JoinChars(s[1..]);
      assert [s[0]] + s[1..] == s;
    }
  }

  ghost predicate AreTexts(texts: seq<string>, toks: seq<seq<Token>>) {
    |texts| == |toks| && forall i :: 0 <= i < |toks| ==> texts[i] == Join(toks[i])
  }

  /** Joining the tokens of a tree gives its text. */
  lemma {:induction false} JoinFlatten(t: T, toks: seq<seq<Token>>, texts: seq<string>)
    requires AreTexts(texts, toks)
    ensures Join(Flatten(t, toks)) == Fill(t, texts)
    decreases t, 1
  {
    match t
    case Str(s) => JoinChars(s);
    case Hole(i) =>
    case Node(parts, intsp) => JoinFlattenAll(parts, intsp, toks, texts);
  }

  lemma {:induction false} JoinFlattenAll(parts: seq<T>, intsp: seq<Token>, toks: seq<seq<Token>>, texts: seq<string>)
    requires AreTexts(texts, toks)
    ensures Join(FlattenAll(parts, intsp, toks)) == Separated(FillAll(parts, texts), Join(intsp))
    decreases parts, 0
  {
    hide Fill, Flatten, AreTexts;
    if parts != [] {
      JoinFlatten(parts[0], toks, texts);
      JoinFlattenAll(parts[1..], intsp, toks, texts);
      assert FillAll(parts, texts)[1..] == FillAll(parts[1..], texts);
      var first, rest := Flatten(parts[0], toks), FlattenAll(parts[1..], intsp, toks);
      JoinConcat(first, intsp + rest);
      JoinConcat(intsp, rest);
      JoinOne(parts[0], intsp, toks);
      assert Join(first) + (Join(intsp) + Join(rest)) == Join(first) + Join(intsp) + Join(rest);
    }
  }

  lemma JoinOne(part: T, intsp: seq<Token>, toks: seq<seq<Token>>)
    ensures FlattenAll([part], intsp, toks) == Flatten(part, toks)
  {
  }

  // ----- the lists in a layout tree -----

  lemma {:induction false} FillConcat(a: seq<T>, b: seq<T>, texts: seq<string>)
    ensures FillAll(a + b, texts) == FillAll(a, texts) + FillAll(b, texts)
  {
    hide Fill;
    if a == [] {
      assert a + b == b;
    } else {
      assert (a + b)[1..] == a[1..] + b;
      FillConcat(a[1..], b, texts);
    }
  }

  /** The texts that fill the holes are those of the children. */
  ghost predicate AreChildTexts(t: Term, texts: seq<string>)
    requires Printable(t)
  {
    && |texts| == |Children(t)|
    && (forall i :: 0 <= i < |t.args| ==> texts[i] == Text(t.args[i]))
    && (forall j :: 0 <= j < |t.optargs| ==> texts[|t.args| + j] == Text(t.optargs[j].value))
  }

  lemma FillStr(s: string, texts: seq<string>)
    ensures Fill(Str(s), texts) == s
  {
  }

  lemma FillHole(i: nat, texts: seq<string>)
    ensures Fill(Hole(i), texts) == TextAt(texts, i)
  {
  }

  lemma {:induction false} FillHoles(t: Term, lo: nat, texts: seq<string>)
    requires Printable(t) && AreChildTexts(t, texts)
    ensures FillAll(Holes(lo, |t.args|), texts) == ArgTexts(t, lo)
    decreases |t.args| - lo
  {
    hide Text, Printable, Fill;
    if lo < |t.args| {
      assert Holes(lo, |t.args|)[1..] == Holes(lo + 1, |t.args|);
      FillHole(lo, texts);
      FillHoles(t, lo + 1, texts);
    }
  }

  lemma FillWrap(wrap: bool, i: nat, texts: seq<string>)
    ensures Fill(WrapIf(wrap, i), texts) == InExpr(wrap, TextAt(texts, i))
  {
    FillThree(Str("r.expr("), Hole(i), Str(")"), texts);
  }

  lemma {:induction false} FillQueries(t: Term, i: nat, texts: seq<string>)
    requires Printable(t) && AreChildTexts(t, texts)
    ensures FillAll(WrappedArgs(t, i), texts) == QueryTexts(t, i)
    decreases |t.args| - i
  {
    hide Text, Printable, Fill, InExpr, WrapIf;
    if i < |t.args| {
      assert WrappedArgs(t, i)[1..] == WrappedArgs(t, i + 1);
      FillWrap(NeedsWrap(t.args[i]), i, texts);
      FillQueries(t, i + 1, texts);
    }
  }

  lemma {:induction false} FillOptArgs(t: Term, j: nat, texts: seq<string>)
    requires Printable(t) && AreChildTexts(t, texts)
    ensures FillAll(KeyValues(t, j, false), texts) == OptTexts(t, j)
    decreases |t.optargs| - j
  {
    hide Text, Printable;
    if j < |t.optargs| {
      assert KeyValues(t, j, false)[1..] == KeyValues(t, j + 1, false);
      FillThree(Str(t.optargs[j].key), Str("="), Hole(|t.args| + j), texts);
      FillOptArgs(t, j + 1, texts);
    }
  }

  lemma {:induction false} FillFields(t: Term, j: nat, texts: seq<string>)
    requires Printable(t) && AreChildTexts(t, texts)
    ensures FillAll(KeyValues(t, j, true), texts) == FieldTexts(t, j)
    decreases |t.optargs| - j
  {
    hide Text, Printable;
    if j < |t.optargs| {
      assert KeyValues(t, j, true)[1..] == KeyValues(t, j + 1, true);
      FillThree(Str(t.optargs[j].repr), Str(": "), Hole(|t.args| + j), texts);
      FillFields(t, j + 1, texts);
    }
  }

  lemma {:induction false} FillVars(vars: seq<string>, texts: seq<string>)
    ensures FillAll(VarNames(vars), texts) == VarTexts(vars)
  {
    if vars != [] {
      assert VarNames(vars)[1..] == VarNames(vars[1..]);
      FillVars(vars[1..], texts);
    }
  }

  lemma FillComma(parts: seq<T>, texts: seq<string>)
    ensures Fill(Node(parts, COMMA), texts) == Separated(FillAll(parts, texts), ", ")
  {
    assert COMMA[1..] == [" "] && [" "][1..] == [];
    assert Join([" "]) == " " && Join(COMMA) == "," + " ";
  }

  // ----- short nodes -----

  lemma FillFirst(part: T, parts: seq<T>, texts: seq<string>)
    ensures Fill(Node([part] + parts, []), texts) == Fill(part, texts) + Fill(Node(parts, []), texts)
  {
    assert ([part] + parts)[1..] == parts;
    assert Fill(part, texts) + "" == Fill(part, texts);
  }

  lemma FillTwo(a: T, b: T, texts: seq<string>)
    ensures Fill(Node([a, b], []), texts) == Fill(a, texts) + Fill(b, texts)
  {
    FillFirst(a, [b], texts);
    assert [a] + [b] == [a, b];
    assert FillAll([b], texts) == [Fill(b, texts)];
  }

  lemma FillThree(a: T, b: T, c: T, texts: seq<string>)
    ensures Fill(Node([a, b, c], []), texts) == Fill(a, texts) + Fill(b, texts) + Fill(c, texts)
  {
    FillFirst(a, [b, c], texts);
    FillTwo(b, c, texts);
    assert [a] + [b, c] == [a, b, c];
    Assoc(Fill(a, texts), Fill(b, texts), Fill(c, texts));
  }

  lemma FillFour(a: T, b: T, c: T, d: T, texts: seq<string>)
    ensures Fill(Node([a, b, c, d], []), texts)
         == Fill(a, texts) + Fill(b, texts) + Fill(c, texts) + Fill(d, texts)
  {
    FillFirst(a, [b, c, d], texts);
    FillThree(b, c, d, texts);
    assert [a] + [b, c, d] == [a, b, c, d];
    Assoc(Fill(a, texts), Fill(b, texts), Fill(c, texts));
    Assoc(Fill(a, texts), Fill(b, texts) + Fill(c, texts), Fill(d, texts));
  }

  lemma FillFive(a: T, b: T, c: T, d: T, e: T, texts: seq<string>)
    ensures Fill(Node([a, b, c, d, e], []), texts)
         == Fill(a, texts) + Fill(b, texts) + Fill(c, texts) + Fill(d, texts) + Fill(e, texts)
  {
    FillFirst(a, [b, c, d, e], texts);
    FillFour(b, c, d, e, texts);
    assert [a] + [b, c, d, e] == [a, b, c, d, e];
    var x, y := Fill(b, texts) + Fill(c, texts), Fill(d, texts);
    Assoc(Fill(a, texts), Fill(b, texts), Fill(c, texts));
    Assoc(Fill(a, texts), x, y);
    Assoc(Fill(a, texts), x + y, Fill(e, texts));
  }

  lemma FillSix(a: T, b: T, c: T, d: T, e: T, f: T, texts: seq<string>)
    ensures Fill(Node([a, b, c, d, e, f], []), texts)
         == Fill(a, texts) + Fill(b, texts) + Fill(c, texts) + Fill(d, texts) + Fill(e, texts) + Fill(f, texts)
  {
    FillFirst(a, [b, c, d, e, f], texts);
    FillFive(b, c, d, e, f, texts);
    assert [a] + [b, c, d, e, f] == [a, b, c, d, e, f];
    var x := Fill(b, texts) + Fill(c, texts);
    Assoc(Fill(a, texts), Fill(b, texts), Fill(c, texts));
    Assoc(Fill(a, texts), x, Fill(d, texts));
    Assoc(Fill(a, texts), x + Fill(d, texts), Fill(e, texts));
    Assoc(Fill(a, texts), x + Fill(d, texts) + Fill(e, texts), Fill(f, texts));
  }

  lemma Assoc(a: string, b: string, c: string)
    ensures a + (b + c) == a + b + c
  {
  }

  // ----- each `compose` -----

  lemma FillAllArgs(t: Term, i: nat, texts: seq<string>)
    requires Printable(t) && AreChildTexts(t, texts)
    ensures Fill(Node(Holes(i, |t.args|) + KeyValues(t, 0, false), COMMA), texts) == AllTexts(t, i)
  {
    hide Text, Printable, Fill;
    FillHoles(t, i, texts);
    FillOptArgs(t, 0, texts);
    FillConcat(Holes(i, |t.args|), KeyValues(t, 0, false), texts);
    FillComma(Holes(i, |t.args|) + KeyValues(t, 0, false), texts);
  }

  lemma FillCall(statement: string, args: seq<T>, texts: seq<string>)
    ensures Fill(CallShape(statement, args), texts)
         == "r." + statement + "(" + Separated(FillAll(args, texts), ", ") + ")"
  {
    FillFive(Str("r."), Str(statement), Str("("), Node(args, COMMA), Str(")"), texts);
    FillComma(args, texts);
    hide FillAll;
  }

  lemma FillInfix(t: Term, symbol: string, texts: seq<string>)
    requires Printable(t) && AreChildTexts(t, texts)
    ensures Fill(InfixShape(t, symbol), texts) == "(" + Separated(QueryTexts(t, 0), " " + symbol + " ") + ")"
  {
    FillQueries(t, 0, texts);
    JoinThree(" ", symbol, " ");
    FillThree(Str("("), Node(WrappedArgs(t, 0), [" ", symbol, " "]), Str(")"), texts);
    hide Text, Printable, QueryTexts, Separated;
  }

  lemma JoinThree(a: Token, b: Token, c: Token)
    ensures Join([a, b, c]) == a + b + c
  {
    assert [a, b, c][1..] == [b, c] && [b, c][1..] == [c] && [c][1..] == [];
    assert Join([]) == "" && c + "" == c && Join([c]) == c && Join([b, c]) == b + c;
    Assoc(a, b, c);
  }

  lemma FillMethod(t: Term, statement: string, texts: seq<string>)
    requires Printable(t) && AreChildTexts(t, texts)
    ensures Fill(MethodShape(t, statement), texts) == MethodText(t, statement)
  {
    hide Text, Printable, Fill, Holes, KeyValues, AllTexts;
    FillStr("r.", texts);
    FillStr(".", texts);
    FillStr("(", texts);
    FillStr("()", texts);
    FillStr(")", texts);
    FillStr(statement, texts);
    if t.args == [] {
      FillThree(Str("r."), Str(statement), Str("()"), texts);
    } else {
      var all := Node(Holes(1, |t.args|) + KeyValues(t, 0, false), COMMA);
      FillAllArgs(t, 1, texts);
      FillWrap(NeedsWrap(t.args[0]), 0, texts);
      FillSix(WrapIf(NeedsWrap(t.args[0]), 0), Str("."), Str(statement), Str("("), all, Str(")"), texts);
    }
  }

  lemma FillEnclosed(open: string, part: T, close: string, texts: seq<string>)
    ensures Fill(Node([Str(open), part, Str(close)], []), texts) == open + Fill(part, texts) + close
  {
    FillThree(Str(open), part, Str(close), texts);
  }

  lemma FillBracket(t: Term, texts: seq<string>)
    requires Printable(t) && AreChildTexts(t, texts) && t.kind.Bracket?
    ensures Fill(Shape(t), texts) == Text(t)
  {
    if t.kind.bracketOperator {
      FillWrap(NeedsWrap(t.args[0]), 0, texts);
      FillHoles(t, 1, texts);
      assert Join([","]) == ",";
      FillFour(
        WrapIf(NeedsWrap(t.args[0]), 0), Str("["), Node(Holes(1, |t.args|), [","]), Str("]"), texts);
    } else {
      FillMethod(t, t.kind.statement, texts);
      hide MethodText, MethodShape;
    }
  }

  lemma FillSlice(t: Term, texts: seq<string>)
    requires Printable(t) && AreChildTexts(t, texts) && t.kind.Slice?
    ensures Fill(Shape(t), texts) == Text(t)
  {
    if t.kind.bracketOperator {
      FillWrap(NeedsWrap(t.args[0]), 0, texts);
      FillSix(WrapIf(NeedsWrap(t.args[0]), 0), Str("["), Hole(1), Str(":"), Hole(2), Str("]"), texts);
    } else {
      FillMethod(t, "slice", texts);
      hide MethodText, MethodShape;
    }
  }

  lemma FillFunCall(t: Term, texts: seq<string>)
    requires Printable(t) && AreChildTexts(t, texts) && t.kind.FunCall?
    ensures Fill(Shape(t), texts) == Text(t)
  {
    if |t.args| == 2 {
      FillWrap(t.args[1].kind.Datum?, 1, texts);
      FillFour(WrapIf(t.args[1].kind.Datum?, 1), Str(".do("), Hole(0), Str(")"), texts);
    } else {
      FillDo(t, texts);
    }
    hide Separated, ArgTexts, FillAll, Printable;
  }

  /** The function comes first in the term and last in the text. */
  lemma FillDo(t: Term, texts: seq<string>)
    requires Printable(t) && AreChildTexts(t, texts) && t.args != []
    ensures Fill(Node([Str("r.do("), Node([Node(Holes(1, |t.args|), COMMA), Hole(0)], COMMA), Str(")")], []), texts)
         == "r.do(" + Separated(ArgTexts(t, 1), ", ") + ", " + Text(t.args[0]) + ")"
  {
    assert Printable(t.args[0]);
    hide Fill, Separated, ArgTexts, FillAll, Printable, Text, Holes;
    var rest := Node(Holes(1, |t.args|), COMMA);
    FillHoles(t, 1, texts);
    FillComma(Holes(1, |t.args|), texts);
    FillComma([rest, Hole(0)], texts);
    FillPair(rest, Hole(0), texts);
    FillHole(0, texts);
    FillEnclosed("r.do(", Node([rest, Hole(0)], COMMA), ")", texts);
    var a, b := Separated(ArgTexts(t, 1), ", "), Text(t.args[0]);
    Assoc("r.do(", a + ", ", b);
    Assoc("r.do(", a, ", ");
  }

  lemma FillPair(a: T, b: T, texts: seq<string>)
    ensures Separated(FillAll([a, b], texts), ", ") == Fill(a, texts) + ", " + Fill(b, texts)
  {
    assert [a, b][1..] == [b] && [b][1..] == [];
    assert FillAll([b], texts) == [Fill(b, texts)];
    assert FillAll([a, b], texts) == [Fill(a, texts), Fill(b, texts)];
    assert FillAll([a, b], texts)[1..] == [Fill(b, texts)];
  }

  lemma FillTable(t: Term, texts: seq<string>)
    requires Printable(t) && AreChildTexts(t, texts) && t.kind.Table?
    ensures Fill(Shape(t), texts) == Text(t)
  {
    if t.args[0].kind.Db? {
      FillAllArgs(t, 1, texts);
      FillFour(
        Hole(0), Str(".table("), Node(Holes(1, |t.args|) + KeyValues(t, 0, false), COMMA), Str(")"), texts);
    } else {
      FillAllArgs(t, 0, texts);
      FillEnclosed("r.table(", Node(Holes(0, |t.args|) + KeyValues(t, 0, false), COMMA), ")", texts);
    }
    hide AllTexts;
  }

  lemma FillCallOfAll(t: Term, statement: string, texts: seq<string>)
    requires Printable(t) && AreChildTexts(t, texts)
    ensures Fill(CallShape(statement, Holes(0, |t.args|) + KeyValues(t, 0, false)), texts)
         == "r." + statement + "(" + AllTexts(t, 0) + ")"
  {
    hide Fill, AllTexts, Printable, Text;
    var args := Holes(0, |t.args|) + KeyValues(t, 0, false);
    FillAllArgs(t, 0, texts);
    FillComma(args, texts);
    FillCall(statement, args, texts);
  }

  lemma FillTopLevel(t: Term, texts: seq<string>)
    requires Printable(t) && AreChildTexts(t, texts) && (t.kind.Db? || t.kind.TopLevel? || t.kind.Binary?)
    ensures Fill(Shape(t), texts) == Text(t)
  {
    hide AllTexts, Fill, Separated, CallShape;
    match t.kind
    case Db =>
      FillCallOfAll(t, "db", texts);
      assert "r." + "db" + "(" == "r.db(";
    case TopLevel(statement) => FillCallOfAll(t, statement, texts);
    case Binary =>
      if t.args == [] {
        FillRawBinary(texts);
      } else {
        FillCallOfAll(t, "binary", texts);
        assert "r." + "binary" + "(" == "r.binary(";
      }
  }

  lemma FillRawBinary(texts: seq<string>)
    ensures Fill(Node([Str("r."), Str("binary"), Str("(bytes(<data>))")], []), texts) == "r.binary(bytes(<data>))"
  {
    FillThree(Str("r."), Str("binary"), Str("(bytes(<data>))"), texts);
    assert "r." + "binary" + "(bytes(<data>))" == "r.binary(bytes(<data>))";
  }

  lemma FillBoolOper(t: Term, texts: seq<string>)
    requires Printable(t) && AreChildTexts(t, texts) && t.kind.BoolOper?
    ensures Fill(Shape(t), texts) == Text(t)
  {
    FillQueries(t, 0, texts);
    FillInfix(t, t.kind.symbol, texts);
    FillCall(t.kind.statement, WrappedArgs(t, 0), texts);
    hide Fill, Separated, QueryTexts;
  }

  lemma FillLiteral(t: Term, texts: seq<string>)
    requires Printable(t) && AreChildTexts(t, texts)
    requires t.kind.Datum? || t.kind.MakeArray? || t.kind.MakeObj? || t.kind.Var? || t.kind.ImplicitVar?
    ensures Fill(Shape(t), texts) == Text(t)
  {
    match t.kind
    case MakeArray =>
      FillHoles(t, 0, texts);
      FillComma(Holes(0, |t.args|), texts);
      FillEnclosed("[", Node(Holes(0, |t.args|), COMMA), "]", texts);
    case MakeObj =>
      FillFields(t, 0, texts);
      FillComma(KeyValues(t, 0, true), texts);
      FillEnclosed("r.expr({", Node(KeyValues(t, 0, true), COMMA), "})", texts);
    case _ =>
  }

  lemma FillFunc(t: Term, texts: seq<string>)
    requires Printable(t) && AreChildTexts(t, texts) && t.kind.Func?
    ensures Fill(Shape(t), texts) == Text(t)
  {
    FillVars(t.kind.vars, texts);
    FillComma(VarNames(t.kind.vars), texts);
    FillFour(Str("lambda "), Node(VarNames(t.kind.vars), COMMA), Str(": "), Hole(1), texts);
  }

  /** Every layout tree gives the text of its kind of term. */
  lemma ShapeText(t: Term, texts: seq<string>)
    requires Printable(t) && AreChildTexts(t, texts)
    ensures Fill(Shape(t), texts) == Text(t)
  {
    hide AreChildTexts, Fill;
    match t.kind
    case Not =>
      NotText(t, texts);
    case BoolOper(_, _, _) => FillBoolOper(t, texts);
    case BiOper(statement) => FillInfix(t, statement, texts);
    case Binary => FillTopLevel(t, texts);
    case Db => FillTopLevel(t, texts);
    case TopLevel(_) => FillTopLevel(t, texts);
    case Method(statement) => FillMethod(t, statement, texts);
    case Bracket(_, _) => FillBracket(t, texts);
    case Slice(_) => FillSlice(t, texts);
    case FunCall => FillFunCall(t, texts);
    case Table => FillTable(t, texts);
    case Func(_) => FillFunc(t, texts);
    case _ => FillLiteral(t, texts);
  }

  lemma NotText(t: Term, texts: seq<string>)
    requires Printable(t) && AreChildTexts(t, texts) && t.kind.Not?
    ensures Fill(Shape(t), texts) == Text(t)
  {
    FillWrap(t.args[0].kind.Datum?, 0, texts);
    FillEnclosed("(~", WrapIf(t.args[0].kind.Datum?, 0), ")", texts);
  }

  // ----- the printed query -----

  /** The text of every child */
  function ChildTexts(t: Term, i: nat): (r: seq<string>)
    requires Printable(t) && i <= |Children(t)|
    ensures |r| == |Children(t)| - i
    ensures forall j :: 0 <= j < |r| ==> (ChildIsSmaller(t, i + j); r[j] == Text(Children(t)[i + j]))
    decreases |Children(t)| - i
  {
    if i == |Children(t)| then []
    else
      ChildIsSmaller(t, i);
      [Text(Children(t)[i])] + ChildTexts(t, i + 1)
  }

  /** What is printed, for every query */
  lemma {:induction false} PrintedText(t: Term)
    requires Printable(t)
    ensures Join(Compose(t)) == Text(t)
    decreases t
  {
    hide Text, Printable, Shape, Flatten, Fill;
    var toks, texts := ComposeChildren(t, 0), ChildTexts(t, 0);
    forall i | 0 <= i < |Children(t)| ensures texts[i] == Join(toks[i]) {
      ChildIsSmaller(t, i);
      PrintedText(Children(t)[i]);
    }
    ChildrenAre(t, texts);
    JoinFlatten(Shape(t), toks, texts);
    ShapeText(t, texts);
  }

  lemma ChildrenAre(t: Term, texts: seq<string>)
    requires Printable(t) && texts == ChildTexts(t, 0)
    ensures AreChildTexts(t, texts)
  {
    hide Text;
    forall j | 0 <= j < |t.optargs| ensures texts[|t.args| + j] == Text(t.optargs[j].value) {
      assert Children(t)[|t.args| + j] == t.optargs[j].value;
    }
  }
}
