/** Where the caret line drifts from the query as text: at infix operators longer than one character. */
module QueryPrinterWidths {
  import opened Wrappers
  import opened QueryPrinter
  import opened QueryPrinterProofs

  predicate Every(toks: seq<Token>, p: Token -> bool) {
    forall j :: 0 <= j < |toks| ==> p(toks[j])
  }

  /** A property all single characters have */
  ghost predicate OfCharacters(p: Token -> bool) {
    forall x :: |x| == 1 ==> p(x)
  }

  /** The separators a layout really puts between parts have the property. */
  predicate SeparatorsAre(t: T, p: Token -> bool)
    decreases t, 0
  {
    t.Node? ==> (|t.parts| >= 2 ==> Every(t.intsp, p)) && AllSeparatorsAre(t.parts, p)
  }

  predicate AllSeparatorsAre(parts: seq<T>, p: Token -> bool)
    decreases parts, 0
  {
    parts == [] || (SeparatorsAre(parts[0], p) && AllSeparatorsAre(parts[1..], p))
  }

  ghost predicate FillingsAre(t: T, toks: seq<seq<Token>>, p: Token -> bool) {
    forall h: nat :: Uses(t, h) > 0 ==> Every(At(toks, h), p)
  }

  ghost predicate AllFillingsAre(parts: seq<T>, toks: seq<seq<Token>>, p: Token -> bool) {
    forall h: nat :: UsesIn(parts, h) > 0 ==> Every(At(toks, h), p)
  }

  lemma EveryConcat(a: seq<Token>, b: seq<Token>, p: Token -> bool)
    ensures Every(a + b, p) <==> Every(a, p) && Every(b, p)
  {
    if Every(a + b, p) {
      forall j | 0 <= j < |a| ensures p(a[j]) {
        assert (a + b)[j] == a[j];
      }
      forall j | 0 <= j < |b| ensures p(b[j]) {
        assert (a + b)[|a| + j] == b[j];
      }
    }
  }

  lemma {:induction false} FlattenEvery(t: T, toks: seq<seq<Token>>, p: Token -> bool)
    requires OfCharacters(p)
    ensures Every(Flatten(t, toks), p) <==> SeparatorsAre(t, p) && FillingsAre(t, toks, p)
    decreases t, 0
  {
    match t
    case Str(_) =>
    case Hole(i) => assert Uses(t, i) == 1;
    case Node(parts, intsp) =>
      FlattenAllEvery(parts, intsp, toks, p);
      assert forall h: nat :: Uses(t, h) == UsesIn(parts, h);
  }

  lemma {:induction false} FlattenAllEvery(parts: seq<T>, intsp: seq<Token>, toks: seq<seq<Token>>, p: Token -> bool)
    requires OfCharacters(p)
    ensures Every(FlattenAll(parts, intsp, toks), p)
       <==> (|parts| >= 2 ==> Every(intsp, p)) && AllSeparatorsAre(parts, p) && AllFillingsAre(parts, toks, p)
    decreases parts, 0
  {
    if parts != [] {
      var first, rest := Flatten(parts[0], toks), FlattenAll(parts[1..], intsp, toks);
      FlattenEvery(parts[0], toks, p);
      FlattenAllEvery(parts[1..], intsp, toks, p);
      FillingsSplit(parts, toks, p);
      if |parts| >= 2 {
        EveryConcat(intsp, rest, p);
        EveryConcat(first, intsp + rest, p);
      }
    }
  }

  lemma FillingsSplit(parts: seq<T>, toks: seq<seq<Token>>, p: Token -> bool)
    requires parts != []
    ensures AllFillingsAre(parts, toks, p) <==> FillingsAre(parts[0], toks, p) && AllFillingsAre(parts[1..], toks, p)
  {
    assert forall h: nat :: UsesIn(parts, h) == Uses(parts[0], h) + UsesIn(parts[1..], h);
  }

  // ----- the separators of each `compose` -----

  lemma {:induction false} SeparatorsConcat(a: seq<T>, b: seq<T>, p: Token -> bool)
    ensures AllSeparatorsAre(a + b, p) <==> AllSeparatorsAre(a, p) && AllSeparatorsAre(b, p)
  {
    if a == [] {
      assert a + b == b;
    } else {
      assert (a + b)[1..] == a[1..] + b;
      SeparatorsConcat(a[1..], b, p);
    }
  }

  lemma {:induction false} HolesAre(lo: nat, hi: nat, p: Token -> bool)
    ensures AllSeparatorsAre(Holes(lo, hi), p)
    decreases hi - lo
  {
    if lo < hi {
      HolesAre(lo + 1, hi, p);
      assert Holes(lo, hi)[1..] == Holes(lo + 1, hi);
    }
  }

  lemma WrapIs(wrap: bool, i: nat, p: Token -> bool)
    ensures SeparatorsAre(WrapIf(wrap, i), p)
  {
    LeavesAre([Str("r.expr("), Hole(i), Str(")")], p);
  }

  lemma {:induction false} WrappedArgsAre(t: Term, i: nat, p: Token -> bool)
    requires i <= |t.args|
    ensures AllSeparatorsAre(WrappedArgs(t, i), p) && |WrappedArgs(t, i)| == |t.args| - i
    decreases |t.args| - i
  {
    if i < |t.args| {
      WrapIs(NeedsWrap(t.args[i]), i, p);
      WrappedArgsAre(t, i + 1, p);
      assert WrappedArgs(t, i)[1..] == WrappedArgs(t, i + 1);
    }
  }

  lemma {:induction false} KeyValuesAre(t: Term, j: nat, inObject: bool, p: Token -> bool)
    ensures AllSeparatorsAre(KeyValues(t, j, inObject), p)
    decreases |t.optargs| - j
  {
    if j < |t.optargs| {
      var key := if inObject then Str(t.optargs[j].repr) else Str(t.optargs[j].key);
      LeavesAre([key, Str(if inObject then ": " else "="), Hole(|t.args| + j)], p);
      KeyValuesAre(t, j + 1, inObject, p);
      assert KeyValues(t, j, inObject)[1..] == KeyValues(t, j + 1, inObject);
    }
  }

  /** Parts that are fine themselves */
  lemma {:induction false} LeavesAre(parts: seq<T>, p: Token -> bool)
    requires forall i :: 0 <= i < |parts| ==> SeparatorsAre(parts[i], p)
    ensures AllSeparatorsAre(parts, p)
  {
    if parts != [] {
      LeavesAre(parts[1..], p);
    }
  }

  lemma {:induction false} VarNamesAre(vars: seq<string>, p: Token -> bool)
    ensures AllSeparatorsAre(VarNames(vars), p)
  {
    if vars != [] {
      VarNamesAre(vars[1..], p);
      assert VarNames(vars)[1..] == VarNames(vars[1..]);
    }
  }

  lemma CommaIs(p: Token -> bool)
    requires OfCharacters(p)
    ensures Every(COMMA, p) && Every([","], p)
  {
  }

  lemma ArgsAndKeysAre(t: Term, lo: nat, p: Token -> bool)
    requires OfCharacters(p)
    ensures SeparatorsAre(Node(Holes(lo, |t.args|) + KeyValues(t, 0, false), COMMA), p)
  {
    CommaIs(p);
    HolesAre(lo, |t.args|, p);
    KeyValuesAre(t, 0, false, p);
    SeparatorsConcat(Holes(lo, |t.args|), KeyValues(t, 0, false), p);
  }

  lemma HoleListIs(lo: nat, hi: nat, p: Token -> bool)
    requires OfCharacters(p)
    ensures SeparatorsAre(Node(Holes(lo, hi), COMMA), p) && SeparatorsAre(Node(Holes(lo, hi), [","]), p)
  {
    CommaIs(p);
    HolesAre(lo, hi, p);
  }

  lemma CallIs(statement: string, args: seq<T>, p: Token -> bool)
    requires SeparatorsAre(Node(args, COMMA), p)
    ensures SeparatorsAre(CallShape(statement, args), p)
  {
    LeavesAre([Str("r."), Str(statement), Str("("), Node(args, COMMA), Str(")")], p);
  }

  lemma MethodIs(t: Term, statement: string, p: Token -> bool)
    requires OfCharacters(p)
    ensures SeparatorsAre(MethodShape(t, statement), p)
  {
    if t.args == [] {
      LeavesAre([Str("r."), Str(statement), Str("()")], p);
    } else {
      ArgsAndKeysAre(t, 1, p);
      WrapIs(NeedsWrap(t.args[0]), 0, p);
      LeavesAre([WrapIf(NeedsWrap(t.args[0]), 0), Str("."), Str(statement), Str("("),
                 Node(Holes(1, |t.args|) + KeyValues(t, 0, false), COMMA), Str(")")], p);
    }
  }

  /** The symbol between the operands, if `compose` prints one */
  function Symbol(t: Term): Option<string> {
    if |t.args| < 2 then None
    else
      match t.kind
      case BiOper(st) => Some(st)
      case BoolOper(_, infix, symbol) => if infix then Some(symbol) else None
      case _ => None
  }

  lemma InfixIs(t: Term, symbol: string, p: Token -> bool)
    requires OfCharacters(p)
    ensures SeparatorsAre(InfixShape(t, symbol), p) <==> (|t.args| >= 2 ==> p(symbol))
  {
    var sep := [" ", symbol, " "];
    var node := Node(WrappedArgs(t, 0), sep);
    WrappedArgsAre(t, 0, p);
    assert Every(sep, p) <==> p(symbol) by {
      assert sep[0] == " " && sep[1] == symbol && sep[2] == " ";
    }
    var ps := [Str("("), node, Str(")")];
    Enclosed("(", node, ")", p);
    assert InfixShape(t, symbol) == Node(ps, []);
  }

  /** Between two texts, as `Node` without a separator puts it */
  lemma Enclosed(open: string, part: T, close: string, p: Token -> bool)
    ensures SeparatorsAre(Node([Str(open), part, Str(close)], []), p) <==> SeparatorsAre(part, p)
  {
    assert Every([], p);
    var a, b, c := [Str(open)], [part], [Str(close)];
    LeafIs(open, p);
    LeafIs(close, p);
    JustOne(Str(open), p);
    JustOne(part, p);
    JustOne(Str(close), p);
    SeparatorsConcat(b, c, p);
    SeparatorsConcat(a, b + c, p);
    assert [Str(open), part, Str(close)] == a + (b + c);
  }

  lemma JustOne(part: T, p: Token -> bool)
    ensures AllSeparatorsAre([part], p) <==> SeparatorsAre(part, p)
  {
    hide SeparatorsAre;
    assert [part][0] == part && [part][1..] == [];
    assert AllSeparatorsAre([], p);
  }

  lemma LeafIs(s: string, p: Token -> bool)
    ensures SeparatorsAre(Str(s), p)
  {
  }

  lemma LiteralIs(t: Term, p: Token -> bool)
    requires Printable(t) && OfCharacters(p)
    requires t.kind.MakeArray? || t.kind.MakeObj? || t.kind.Not? || t.kind.Func?
    ensures SeparatorsAre(Shape(t), p)
  {
    if t.kind.MakeArray? {
      HoleListIs(0, |t.args|, p);
      Enclosed("[", Node(Holes(0, |t.args|), COMMA), "]", p);
    } else if t.kind.MakeObj? {
      CommaIs(p);
      KeyValuesAre(t, 0, true, p);
      Enclosed("r.expr({", Node(KeyValues(t, 0, true), COMMA), "})", p);
    } else if t.kind.Not? {
      WrapIs(t.args[0].kind.Datum?, 0, p);
      Enclosed("(~", WrapIf(t.args[0].kind.Datum?, 0), ")", p);
    } else {
      CommaIs(p);
      VarNamesAre(t.kind.vars, p);
      LeavesAre([Str("lambda "), Node(VarNames(t.kind.vars), COMMA), Str(": "), Hole(1)], p);
    }
  }

  lemma TopLevelIs(t: Term, p: Token -> bool)
    requires Printable(t) && OfCharacters(p) && (t.kind.Db? || t.kind.TopLevel? || t.kind.Binary?)
    ensures SeparatorsAre(Shape(t), p)
  {
    var all := Holes(0, |t.args|) + KeyValues(t, 0, false);
    ArgsAndKeysAre(t, 0, p);
    if t.kind.Binary? && t.args == [] {
      LeavesAre([Str("r."), Str("binary"), Str("(bytes(<data>))")], p);
    } else {
      CallIs(if t.kind.Db? then "db" else if t.kind.Binary? then "binary" else t.kind.statement, all, p);
    }
  }

  lemma BracketIs(t: Term, p: Token -> bool)
    requires Printable(t) && OfCharacters(p) && t.kind.Bracket? && t.kind.bracketOperator
    ensures SeparatorsAre(Shape(t), p)
  {
    WrapIs(NeedsWrap(t.args[0]), 0, p);
    HoleListIs(1, |t.args|, p);
    LeavesAre([WrapIf(NeedsWrap(t.args[0]), 0), Str("["), Node(Holes(1, |t.args|), [","]), Str("]")], p);
  }

  lemma SliceIs(t: Term, p: Token -> bool)
    requires Printable(t) && OfCharacters(p) && t.kind.Slice? && t.kind.bracketOperator
    ensures SeparatorsAre(Shape(t), p)
  {
    WrapIs(NeedsWrap(t.args[0]), 0, p);
    LeavesAre([WrapIf(NeedsWrap(t.args[0]), 0), Str("["), Hole(1), Str(":"), Hole(2), Str("]")], p);
  }

  lemma BoolOperIs(t: Term, p: Token -> bool)
    requires Printable(t) && OfCharacters(p) && t.kind.BoolOper?
    ensures SeparatorsAre(Shape(t), p) <==> (Symbol(t).Some? ==> p(Symbol(t).value))
  {
    if t.kind.infix {
      InfixIs(t, t.kind.symbol, p);
    } else {
      CommaIs(p);
      WrappedArgsAre(t, 0, p);
      CallIs(t.kind.statement, WrappedArgs(t, 0), p);
    }
  }

  lemma ShapeIs(t: Term, p: Token -> bool)
    requires Printable(t) && OfCharacters(p)
    ensures SeparatorsAre(Shape(t), p) <==> (Symbol(t).Some? ==> p(Symbol(t).value))
  {
    match t.kind
    case Datum(_) =>
    case Var =>
    case ImplicitVar =>
    case MakeArray => LiteralIs(t, p);
    case MakeObj => LiteralIs(t, p);
    case Not => LiteralIs(t, p);
    case Func(_) => LiteralIs(t, p);
    case Binary => TopLevelIs(t, p);
    case Db => TopLevelIs(t, p);
    case TopLevel(_) => TopLevelIs(t, p);
    case BoolOper(_, _, _) => BoolOperIs(t, p);
    case BiOper(st) => InfixIs(t, st, p);
    case Method(st) => MethodIs(t, st, p);
    case Bracket(st, op) => if op { BracketIs(t, p); } else { MethodIs(t, st, p); }
    case Slice(op) => if op { SliceIs(t, p); } else { MethodIs(t, "slice", p); }
    case FunCall => FunCallIs(t, p);
    case Table => TableIs(t, p);
  }

  lemma FunCallIs(t: Term, p: Token -> bool)
    requires Printable(t) && t.kind.FunCall? && OfCharacters(p)
    ensures SeparatorsAre(Shape(t), p)
  {
    var n := |t.args|;
    if n != 2 {
      CommaIs(p);
      HoleListIs(1, n, p);
      LeavesAre([Node(Holes(1, n), COMMA), Hole(0)], p);
      LeavesAre([Str("r.do("), Node([Node(Holes(1, n), COMMA), Hole(0)], COMMA), Str(")")], p);
    } else {
      WrapIs(t.args[1].kind.Datum?, 1, p);
      LeavesAre([WrapIf(t.args[1].kind.Datum?, 1), Str(".do("), Hole(0), Str(")")], p);
    }
  }

  lemma TableIs(t: Term, p: Token -> bool)
    requires Printable(t) && t.kind.Table? && OfCharacters(p)
    ensures SeparatorsAre(Shape(t), p)
  {
    if t.args[0].kind.Db? {
      ArgsAndKeysAre(t, 1, p);
      CallOnIs(Node(Holes(1, |t.args|) + KeyValues(t, 0, false), COMMA), p);
    } else {
      ArgsAndKeysAre(t, 0, p);
      Enclosed("r.table(", Node(Holes(0, |t.args|) + KeyValues(t, 0, false), COMMA), ")", p);
    }
  }

  lemma CallOnIs(args: T, p: Token -> bool)
    requires SeparatorsAre(args, p)
    ensures SeparatorsAre(Node([Hole(0), Str(".table("), args, Str(")")], []), p)
  {
    assert Every([], p);
    LeavesAre([Hole(0), Str(".table("), args, Str(")")], p);
  }

  // ----- the promise about widths -----

  /** Some printed infix operator, here or in a printed subterm, is longer than one character. */
  predicate PrintsWideOperator(t: Term)
    requires Printable(t)
    decreases t
  {
    || (Symbol(t).Some? && |Symbol(t).value| > 1)
    || (exists i :: 0 <= i < |Children(t)| && Uses(Shape(t), i) > 0
                    && (ChildIsSmaller(t, i); PrintsWideOperator(Children(t)[i])))
  }

  function IsNarrow(x: Token): bool {
    |x| == 1
  }

  function IsSolid(x: Token): bool {
    |x| >= 1
  }

  /** A query prints only one-character tokens exactly if it prints no wide operator. */
  lemma {:induction false} NarrowExactly(t: Term)
    requires Printable(t)
    ensures Every(Compose(t), IsNarrow) <==> !PrintsWideOperator(t)
    ensures Every(Compose(t), IsSolid)
    decreases t
  {
    hide Shape;
    var toks := ComposeChildren(t, 0);
    forall i | 0 <= i < |toks|
      ensures (ChildIsSmaller(t, i); Every(toks[i], IsNarrow) <==> !PrintsWideOperator(Children(t)[i]))
      ensures Every(toks[i], IsSolid)
    {
      ChildIsSmaller(t, i);
      NarrowExactly(Children(t)[i]);
    }
    ShapeIs(t, IsNarrow);
    ShapeIs(t, IsSolid);
    FlattenEvery(Shape(t), toks, IsNarrow);
    FlattenEvery(Shape(t), toks, IsSolid);
    SymbolIsSolid(t);
  }

  lemma SymbolIsSolid(t: Term)
    requires Printable(t)
    ensures Symbol(t).Some? ==> |Symbol(t).value| >= 1
  {
  }

  lemma {:induction false} JoinLength(toks: seq<Token>)
    requires Every(toks, IsSolid)
    ensures |Join(toks)| >= |toks|
    ensures |Join(toks)| == |toks| <==> Every(toks, IsNarrow)
  {
    if toks != [] {
      assert forall j :: 0 <= j < |toks[1..]| ==> toks[1..][j] == toks[j + 1];
      JoinLength(toks[1..]);
      assert Every(toks, IsNarrow) <==> IsNarrow(toks[0]) && Every(toks[1..], IsNarrow) by {
        assert toks == [toks[0]] + toks[1..];
        EveryConcat([toks[0]], toks[1..], IsNarrow);
        assert Every([toks[0]], IsNarrow) <==> IsNarrow([toks[0]][0]);
      }
    }
  }

  /** As text, the caret line is as long as the query exactly if the query prints no wide operator. */
  lemma WidthsAgreeExactly(t: Term, frames: seq<Frame>)
    requires Printable(t) && !EntersVar(t, frames)
    ensures Carets(t, frames).Some?
    ensures |Join(Carets(t, frames).value)| == |Join(Compose(t))| <==> !PrintsWideOperator(t)
  {
    CaretsAlign(t, frames);
    NarrowExactly(t);
    JoinLength(Compose(t));
    var c := Carets(t, frames).value;
    assert forall j :: 0 <= j < |c| ==> c[j] == "^" || c[j] == " ";
    JoinLength(c);
  }

  /** `r.row == 1` */
  const ROW_IS_ONE := Term(BiOper("=="), [Term(ImplicitVar, [], []), ONE], [])

  /** All of it marked, the caret line is shorter than the query: two characters stand over one caret. */
  lemma CaretsUnderEquals()
    ensures Printable(ROW_IS_ONE)
    ensures Carets(ROW_IS_ONE, []).Some?
    ensures |Join(Carets(ROW_IS_ONE, []).value)| < |Join(Compose(ROW_IS_ONE))|
  {
    assert Printable(ONE) && Printable(ROW_IS_ONE.args[0]);
    assert Symbol(ROW_IS_ONE) == Some("==");
    WidthsAgreeExactly(ROW_IS_ONE, []);
    CaretsAlign(ROW_IS_ONE, []);
    NarrowExactly(ROW_IS_ONE);
    JoinLength(Compose(ROW_IS_ONE));
    JoinLength(Carets(ROW_IS_ONE, []).value);
  }
}
