/** The caret line lines up with the printed query, token for token. */
module QueryPrinterProofs {
  import opened Wrappers
  import opened QueryPrinter

  // ----- where a hole is -----

  /** How often a layout uses a hole */
  function Uses(t: T, h: nat): nat
    decreases t, 0
  {
    match t
    case Str(_) => 0
    case Hole(i) => if i == h then 1 else 0
    case Node(parts, _) => UsesIn(parts, h)
  }

  function UsesIn(parts: seq<T>, h: nat): nat
    decreases parts, 0
  {
    if parts == [] then 0 else Uses(parts[0], h) + UsesIn(parts[1..], h)
  }

  /** How many tokens precede the hole */
  function Offset(t: T, h: nat, toks: seq<seq<Token>>): nat
    decreases t, 0
  {
    match t
    case Str(_) => 0
    case Hole(_) => 0
    case Node(parts, intsp) => OffsetIn(parts, intsp, h, toks)
  }

  function OffsetIn(parts: seq<T>, intsp: seq<Token>, h: nat, toks: seq<seq<Token>>): nat
    decreases parts, 0
  {
    if parts == [] then 0
    else if Uses(parts[0], h) > 0 then Offset(parts[0], h, toks)
    else |Flatten(parts[0], toks)| + |intsp| + OffsetIn(parts[1..], intsp, h, toks)
  }

  /** `b` is `a` with the stretch at `o` as long as `x` replaced by `x`. */
  predicate Spliced(a: seq<Token>, b: seq<Token>, o: nat, x: seq<Token>) {
    o + |x| <= |a| && b == a[..o] + x + a[o + |x|..]
  }

  lemma {:induction false} UnusedHole(t: T, h: nat, toks: seq<seq<Token>>, x: seq<Token>)
    requires h < |toks| && Uses(t, h) == 0
    ensures Flatten(t, toks[h := x]) == Flatten(t, toks)
    decreases t, 0
  {
    if t.Node? {
      UnusedHoleIn(t.parts, t.intsp, h, toks, x);
    }
  }

  lemma {:induction false} UnusedHoleIn(parts: seq<T>, intsp: seq<Token>, h: nat, toks: seq<seq<Token>>, x: seq<Token>)
    requires h < |toks| && UsesIn(parts, h) == 0
    ensures FlattenAll(parts, intsp, toks[h := x]) == FlattenAll(parts, intsp, toks)
    decreases parts, 0
  {
    if parts != [] {
      UnusedHole(parts[0], h, toks, x);
      UnusedHoleIn(parts[1..], intsp, h, toks, x);
    }
  }

  lemma SpliceLeft(a: seq<Token>, b: seq<Token>, o: nat, x: seq<Token>, more: seq<Token>)
    requires Spliced(a, b, o, x)
    ensures Spliced(a + more, b + more, o, x)
  {
    assert (a + more)[..o] == a[..o];
    assert (a + more)[o + |x|..] == a[o + |x|..] + more;
  }

  lemma SpliceRight(a: seq<Token>, b: seq<Token>, o: nat, x: seq<Token>, pre: seq<Token>)
    requires Spliced(a, b, o, x)
    ensures Spliced(pre + a, pre + b, |pre| + o, x)
  {
    assert (pre + a)[..|pre| + o] == pre + a[..o];
    assert (pre + a)[|pre| + o + |x|..] == a[o + |x|..];
  }

  /** Filling a hole used once with something equally long changes just its stretch. */
  lemma {:induction false} UsedHole(t: T, h: nat, toks: seq<seq<Token>>, x: seq<Token>)
    requires h < |toks| && Uses(t, h) == 1 && |x| == |toks[h]|
    ensures Spliced(Flatten(t, toks), Flatten(t, toks[h := x]), Offset(t, h, toks), x)
    decreases t, 0
  {
    if t.Node? {
      UsedHoleIn(t.parts, t.intsp, h, toks, x);
    }
  }

  lemma {:induction false} UsedHoleIn(parts: seq<T>, intsp: seq<Token>, h: nat, toks: seq<seq<Token>>, x: seq<Token>)
    requires h < |toks| && UsesIn(parts, h) == 1 && |x| == |toks[h]|
    ensures Spliced(FlattenAll(parts, intsp, toks), FlattenAll(parts, intsp, toks[h := x]),
                    OffsetIn(parts, intsp, h, toks), x)
    decreases parts, 0
  {
    hide Spliced;
    var toks' := toks[h := x];
    var first := Flatten(parts[0], toks);
    var rest, rest' := FlattenAll(parts[1..], intsp, toks), FlattenAll(parts[1..], intsp, toks');
    if Uses(parts[0], h) == 1 {
      UsedHole(parts[0], h, toks, x);
      UnusedHoleIn(parts[1..], intsp, h, toks, x);
      SpliceLeft(first, Flatten(parts[0], toks'), Offset(parts[0], h, toks), x, intsp + rest);
    } else {
      UnusedHole(parts[0], h, toks, x);
      UsedHoleIn(parts[1..], intsp, h, toks, x);
      var o := OffsetIn(parts[1..], intsp, h, toks);
      SpliceRight(rest, rest', o, x, first + intsp);
      assert first + intsp + rest == first + (intsp + rest);
      assert first + intsp + rest' == first + (intsp + rest');
    }
  }

  // ----- no `compose` prints an argument twice -----

  lemma {:induction false} UsesInConcat(a: seq<T>, b: seq<T>, h: nat)
    ensures UsesIn(a + b, h) == UsesIn(a, h) + UsesIn(b, h)
  {
    if a == [] {
      assert a + b == b;
    } else {
      assert (a + b)[1..] == a[1..] + b;
      UsesInConcat(a[1..], b, h);
    }
  }

  lemma {:induction false} HolesUse(lo: nat, hi: nat, h: nat)
    ensures UsesIn(Holes(lo, hi), h) == if lo <= h < hi then 1 else 0
    decreases hi - lo
  {
    if lo < hi {
      HolesUse(lo + 1, hi, h);
      assert Holes(lo, hi)[1..] == Holes(lo + 1, hi);
    }
  }

  lemma WrapUses(wrap: bool, i: nat, h: nat)
    ensures Uses(WrapIf(wrap, i), h) == if i == h then 1 else 0
  {
    UsesThree(Str("r.expr("), Hole(i), Str(")"), h);
  }

  lemma UsesOne(a: T, h: nat)
    ensures UsesIn([a], h) == Uses(a, h)
  {
    assert [a][1..] == [];
  }

  lemma UsesTwo(a: T, b: T, h: nat)
    ensures UsesIn([a, b], h) == Uses(a, h) + Uses(b, h)
  {
    assert [a, b][1..] == [b];
    UsesOne(b, h);
  }

  lemma UsesThree(a: T, b: T, c: T, h: nat)
    ensures UsesIn([a, b, c], h) == Uses(a, h) + Uses(b, h) + Uses(c, h)
  {
    assert [a, b, c][1..] == [b, c];
    UsesTwo(b, c, h);
  }

  lemma UsesFour(a: T, b: T, c: T, d: T, h: nat)
    ensures UsesIn([a, b, c, d], h) == Uses(a, h) + Uses(b, h) + Uses(c, h) + Uses(d, h)
  {
    assert [a, b, c, d][1..] == [b, c, d];
    UsesThree(b, c, d, h);
  }

  lemma UsesFive(a: T, b: T, c: T, d: T, e: T, h: nat)
    ensures UsesIn([a, b, c, d, e], h) == Uses(a, h) + Uses(b, h) + Uses(c, h) + Uses(d, h) + Uses(e, h)
  {
    assert [a, b, c, d, e][1..] == [b, c, d, e];
    UsesFour(b, c, d, e, h);
  }

  lemma UsesSix(a: T, b: T, c: T, d: T, e: T, f: T, h: nat)
    ensures UsesIn([a, b, c, d, e, f], h) == Uses(a, h) + Uses(b, h) + Uses(c, h) + Uses(d, h) + Uses(e, h) + Uses(f, h)
  {
    assert [a, b, c, d, e, f][1..] == [b, c, d, e, f];
    UsesFive(b, c, d, e, f, h);
  }

  lemma {:induction false} WrappedArgsUse(t: Term, i: nat, h: nat)
    ensures UsesIn(WrappedArgs(t, i), h) == if i <= h < |t.args| then 1 else 0
    decreases |t.args| - i
  {
    if i < |t.args| {
      WrapUses(NeedsWrap(t.args[i]), i, h);
      WrappedArgsUse(t, i + 1, h);
      assert WrappedArgs(t, i)[1..] == WrappedArgs(t, i + 1);
    }
  }

  lemma {:induction false} KeyValuesUse(t: Term, j: nat, inObject: bool, h: nat)
    ensures UsesIn(KeyValues(t, j, inObject), h) == if |t.args| + j <= h < |t.args| + |t.optargs| then 1 else 0
    decreases |t.optargs| - j
  {
    if j < |t.optargs| {
      var key := if inObject then Str(t.optargs[j].repr) else Str(t.optargs[j].key);
      UsesThree(key, Str(if inObject then ": " else "="), Hole(|t.args| + j), h);
      KeyValuesUse(t, j + 1, inObject, h);
      assert KeyValues(t, j, inObject)[1..] == KeyValues(t, j + 1, inObject);
    }
  }

  lemma {:induction false} VarNamesUse(vars: seq<string>, h: nat)
    ensures UsesIn(VarNames(vars), h) == 0
  {
    if vars != [] {
      VarNamesUse(vars[1..], h);
      assert VarNames(vars)[1..] == VarNames(vars[1..]);
    }
  }

  /** The arguments in order, then the optional arguments */
  lemma ArgsAndKeysUse(t: Term, lo: nat, h: nat)
    requires lo <= |t.args|
    ensures UsesIn(Holes(lo, |t.args|) + KeyValues(t, 0, false), h) == if lo <= h < |t.args| + |t.optargs| then 1 else 0
  {
    UsesInConcat(Holes(lo, |t.args|), KeyValues(t, 0, false), h);
    HolesUse(lo, |t.args|, h);
    KeyValuesUse(t, 0, false, h);
  }

  lemma CallUses(statement: string, args: seq<T>, h: nat)
    ensures Uses(CallShape(statement, args), h) == UsesIn(args, h)
  {
    UsesFive(Str("r."), Str(statement), Str("("), Node(args, COMMA), Str(")"), h);
  }

  lemma MethodUses(t: Term, statement: string, h: nat)
    ensures Uses(MethodShape(t, statement), h) <= 1
  {
    if t.args == [] {
      UsesThree(Str("r."), Str(statement), Str("()"), h);
    } else {
      var rest := Holes(1, |t.args|) + KeyValues(t, 0, false);
      UsesSix(WrapIf(NeedsWrap(t.args[0]), 0), Str("."), Str(statement), Str("("), Node(rest, COMMA), Str(")"), h);
      WrapUses(NeedsWrap(t.args[0]), 0, h);
      ArgsAndKeysUse(t, 1, h);
    }
  }

  lemma InfixUses(t: Term, symbol: string, h: nat)
    ensures Uses(InfixShape(t, symbol), h) <= 1
  {
    UsesThree(Str("("), Node(WrappedArgs(t, 0), [" ", symbol, " "]), Str(")"), h);
    WrappedArgsUse(t, 0, h);
  }

  lemma BracketUses(t: Term, h: nat)
    requires |t.args| >= 1
    ensures UsesIn([WrapIf(NeedsWrap(t.args[0]), 0), Str("["), Node(Holes(1, |t.args|), [","]), Str("]")], h) <= 1
  {
    UsesFour(WrapIf(NeedsWrap(t.args[0]), 0), Str("["), Node(Holes(1, |t.args|), [","]), Str("]"), h);
    WrapUses(NeedsWrap(t.args[0]), 0, h);
    HolesUse(1, |t.args|, h);
  }

  lemma FunCallUses(t: Term, h: nat)
    requires Printable(t) && t.kind.FunCall?
    ensures Uses(Shape(t), h) <= 1
  {
    var n := |t.args|;
    if n != 2 {
      var inner := [Node(Holes(1, n), COMMA), Hole(0)];
      HolesUse(1, n, h);
      UsesTwo(Node(Holes(1, n), COMMA), Hole(0), h);
      UsesThree(Str("r.do("), Node(inner, COMMA), Str(")"), h);
    } else {
      UsesFour(WrapIf(t.args[1].kind.Datum?, 1), Str(".do("), Hole(0), Str(")"), h);
      WrapUses(t.args[1].kind.Datum?, 1, h);
    }
  }

  lemma TableUses(t: Term, h: nat)
    requires Printable(t) && t.kind.Table?
    ensures Uses(Shape(t), h) <= 1
  {
    if t.args[0].kind.Db? {
      UsesFour(Hole(0), Str(".table("), Node(Holes(1, |t.args|) + KeyValues(t, 0, false), COMMA), Str(")"), h);
      ArgsAndKeysUse(t, 1, h);
    } else {
      UsesThree(Str("r.table("), Node(Holes(0, |t.args|) + KeyValues(t, 0, false), COMMA), Str(")"), h);
      ArgsAndKeysUse(t, 0, h);
    }
  }

  lemma FuncUses(t: Term, h: nat)
    requires Printable(t) && t.kind.Func?
    ensures Uses(Shape(t), h) == if h == 1 then 1 else 0
  {
    UsesFour(Str("lambda "), Node(VarNames(t.kind.vars), COMMA), Str(": "), Hole(1), h);
    VarNamesUse(t.kind.vars, h);
  }

  /** No `compose` prints an argument twice; some are not printed at all. */
  lemma ShapeUsesOnce(t: Term, h: nat)
    requires Printable(t)
    ensures Uses(Shape(t), h) <= 1
  {
    hide UsesIn, Holes, KeyValues, WrapIf, WrappedArgs, NeedsWrap;
    var n := |t.args|;
    match t.kind
    case Datum(_) =>
    case Var =>
    case ImplicitVar =>
    case MakeArray =>
      UsesThree(Str("["), Node(Holes(0, n), COMMA), Str("]"), h);
      HolesUse(0, n, h);
    case MakeObj =>
      UsesThree(Str("r.expr({"), Node(KeyValues(t, 0, true), COMMA), Str("})"), h);
      KeyValuesUse(t, 0, true, h);
    case Binary =>
      if n == 0 {
        UsesThree(Str("r."), Str("binary"), Str("(bytes(<data>))"), h);
      } else {
        CallUses("binary", Holes(0, n) + KeyValues(t, 0, false), h);
        ArgsAndKeysUse(t, 0, h);
      }
    case Not =>
      UsesThree(Str("(~"), WrapIf(t.args[0].kind.Datum?, 0), Str(")"), h);
      WrapUses(t.args[0].kind.Datum?, 0, h);
    case BoolOper(st, infix, symbol) =>
      if infix {
        InfixUses(t, symbol, h);
      } else {
        CallUses(st, WrappedArgs(t, 0), h);
        WrappedArgsUse(t, 0, h);
      }
    case BiOper(st) => InfixUses(t, st, h);
    case Db =>
      CallUses("db", Holes(0, n) + KeyValues(t, 0, false), h);
      ArgsAndKeysUse(t, 0, h);
    case TopLevel(st) =>
      CallUses(st, Holes(0, n) + KeyValues(t, 0, false), h);
      ArgsAndKeysUse(t, 0, h);
    case Method(st) => MethodUses(t, st, h);
    case Bracket(st, op) => if op { BracketUses(t, h); } else { MethodUses(t, st, h); }
    case Slice(op) =>
      if op {
        UsesSix(WrapIf(NeedsWrap(t.args[0]), 0), Str("["), Hole(1), Str(":"), Hole(2), Str("]"), h);
        WrapUses(NeedsWrap(t.args[0]), 0, h);
      } else {
        MethodUses(t, "slice", h);
      }
    case FunCall => FunCallUses(t, h);
    case Table => TableUses(t, h);
    case Func(_) => FuncUses(t, h);
  }

  // ----- the promise -----

  /** The frames lead into the argument of a `Var`. */
  predicate EntersVar(t: Term, frames: seq<Frame>)
    decreases |frames|
  {
    frames != []
    && (match ChildIndex(t, frames[0])
        case None => false
        case Some(i) => (t.kind.Var? && i == 0) || EntersVar(Children(t)[i], frames[1..]))
  }

  /** The subterm the frames address */
  function Addressed(t: Term, frames: seq<Frame>): Option<Term>
    decreases |frames|
  {
    if frames == [] then Some(t)
    else
      match ChildIndex(t, frames[0])
      case None => None
      case Some(i) => Addressed(Children(t)[i], frames[1..])
  }

  /** The stretch of the printed query that prints the addressed subterm, if any */
  function Span(t: Term, frames: seq<Frame>): Option<(nat, nat)>
    requires Printable(t)
    decreases |frames|
  {
    if frames == [] then Some((0, |Compose(t)|))
    else
      match ChildIndex(t, frames[0])
      case None => None
      case Some(i) =>
        ChildIsSmaller(t, i);
        if Uses(Shape(t), i) == 0 then None
        else
          match Span(Children(t)[i], frames[1..])
          case None => None
          case Some((lo, hi)) =>
            var o := Offset(Shape(t), i, ComposeChildren(t, 0));
            Some((o + lo, o + hi))
  }

  /** `carets` marks, under `printed`, the stretch `span` and the carets the query itself prints. */
  ghost predicate Aligned(carets: seq<Token>, printed: seq<Token>, span: Option<(nat, nat)>) {
    && |carets| == |printed|
    && (span.Some? ==> span.value.0 <= span.value.1 <= |printed|)
    && forall j :: 0 <= j < |printed| ==>
         carets[j] == if (span.Some? && span.value.0 <= j < span.value.1) || printed[j] == "^" then "^" else " "
  }

  /** From a child's carets to its parent's */
  lemma SpliceAligned(printed: seq<Token>, mixed: seq<Token>, o: nat, carets: seq<Token>, inner: seq<Token>,
                      span: Option<(nat, nat)>)
    requires Spliced(printed, mixed, o, carets) && inner == printed[o..o + |carets|]
    requires Aligned(carets, inner, span)
    ensures Aligned(Blank(mixed), printed, if span.None? then None else Some((o + span.value.0, o + span.value.1)))
  {
    forall j | 0 <= j < |printed|
      ensures mixed[j] == if o <= j < o + |carets| then carets[j - o] else printed[j]
    {
    }
    forall j | o <= j < o + |carets| ensures printed[j] == inner[j - o] {
    }
  }

  /** One level of the two passes, when the child the frame points at is printed */
  lemma PrintedChildAligns(t: Term, i: nat, c: seq<Token>, span: Option<(nat, nat)>)
    requires Printable(t) && i < |Children(t)| && Uses(Shape(t), i) == 1
    requires Printable(Children(t)[i]) && Aligned(c, Compose(Children(t)[i]), span)
    ensures var o := Offset(Shape(t), i, ComposeChildren(t, 0));
            Aligned(Blank(Flatten(Shape(t), ComposeChildren(t, 0)[i := c])), Compose(t),
                    if span.None? then None else Some((o + span.value.0, o + span.value.1)))
  {
    hide Shape;
    var toks := ComposeChildren(t, 0);
    var inner := Compose(Children(t)[i]);
    assert toks[i] == inner;
    var o := Offset(Shape(t), i, toks);
    PrintedChild(t, i);
    UsedHole(Shape(t), i, toks, c);
    SpliceAligned(Compose(t), Flatten(Shape(t), toks[i := c]), o, c, inner, span);
  }

  /** A printed child stands at its offset. */
  lemma PrintedChild(t: Term, i: nat)
    requires Printable(t) && i < |Children(t)| && Uses(Shape(t), i) == 1
    requires Printable(Children(t)[i])
    ensures var o, x := Offset(Shape(t), i, ComposeChildren(t, 0)), Compose(Children(t)[i]);
            o + |x| <= |Compose(t)| && Compose(t)[o..o + |x|] == x
  {
    hide Shape;
    var toks := ComposeChildren(t, 0);
    assert toks[i] == Compose(Children(t)[i]);
    UsedHole(Shape(t), i, toks, toks[i]);
    assert toks[i := toks[i]] == toks;
    HoleIsPrinted(Compose(t), Offset(Shape(t), i, toks), toks[i]);
  }

  lemma SliceOfSlice(s: seq<Token>, o: nat, x: seq<Token>, lo: nat, hi: nat)
    requires o + |x| <= |s| && s[o..o + |x|] == x && lo <= hi <= |x|
    ensures s[o + lo..o + hi] == x[lo..hi]
  {
    forall k | 0 <= k < hi - lo ensures s[o + lo..o + hi][k] == x[lo..hi][k] {
      assert s[o..o + |x|][lo + k] == s[o + lo + k];
    }
  }

  lemma {:induction false} SpanPrintsAddressed(t: Term, frames: seq<Frame>)
    requires Printable(t) && Span(t, frames).Some?
    ensures var (lo, hi) := Span(t, frames).value;
            && lo <= hi <= |Compose(t)|
            && Addressed(t, frames).Some? && Printable(Addressed(t, frames).value)
            && Compose(t)[lo..hi] == Compose(Addressed(t, frames).value)
    decreases |frames|
  {
    hide Shape, Compose, Printable;
    if frames != [] {
      var i := ChildIndex(t, frames[0]).value;
      var child := Children(t)[i];
      ChildIsSmaller(t, i);
      ShapeUsesOnce(t, i);
      SpanPrintsAddressed(child, frames[1..]);
      PrintedChild(t, i);
      var (lo, hi) := Span(child, frames[1..]).value;
      SliceOfSlice(Compose(t), Offset(Shape(t), i, ComposeChildren(t, 0)), Compose(child), lo, hi);
    }
  }

  /** ... and when it is not printed at all */
  lemma UnprintedChildAligns(t: Term, i: nat, c: seq<Token>)
    requires Printable(t) && i < |Children(t)| && Uses(Shape(t), i) == 0
    ensures Aligned(Blank(Flatten(Shape(t), ComposeChildren(t, 0)[i := c])), Compose(t), None)
  {
    hide Shape;
    UnusedHole(Shape(t), i, ComposeChildren(t, 0), c);
  }

  lemma RootAligns(t: Term)
    requires Printable(t)
    ensures Aligned(seq(|Compose(t)|, _ => "^"), Compose(t), Some((0, |Compose(t)|)))
  {
    hide Shape, Compose;
  }

  lemma BlankAligns(t: Term)
    requires Printable(t)
    ensures Aligned(Blank(Compose(t)), Compose(t), None)
  {
    hide Shape, Compose;
  }

  /**
   * The caret line exists exactly when the frames do not enter a `Var`. It then has one character per
   * token of the printed query, a caret exactly where the addressed subterm is printed or the query
   * itself prints one.
   */
  lemma {:induction false} CaretsAlign(t: Term, frames: seq<Frame>)
    requires Printable(t)
    ensures Carets(t, frames).Some? <==> !EntersVar(t, frames)
    ensures Carets(t, frames).Some? ==> Aligned(Carets(t, frames).value, Compose(t), Span(t, frames))
    decreases |frames|
  {
    hide Shape, Compose, Printable, Aligned, ChildIndex, Children, Uses;
    if frames == [] {
      RootAligns(t);
    } else if ChildIndex(t, frames[0]).None? {
      BlankAligns(t);
    } else {
      var i := ChildIndex(t, frames[0]).value;
      var child := Children(t)[i];
      ChildIsSmaller(t, i);
      CaretsAlign(child, frames[1..]);
      ShapeUsesOnce(t, i);
      if Carets(t, frames).Some? {
        var c := Carets(child, frames[1..]).value;
        if Uses(Shape(t), i) == 1 {
          PrintedChildAligns(t, i, c, Span(child, frames[1..]));
        } else {
          UnprintedChildAligns(t, i, c);
        }
      }
    }
  }

  const ONE := Term(Datum("1"), [], [])

  /** `lambda x: x` */
  const IDENTITY := Term(Func(["1"]), [Term(MakeArray, [ONE], []), Term(Var, [ONE], [])], [])

  /** A backtrace that points at the id inside the `Var` of that function */
  lemma NoCaretsInsideVar()
    ensures Printable(IDENTITY) && Carets(IDENTITY, [Pos(1), Pos(0)]) == None
  {
    var body := IDENTITY.args[1];
    assert Printable(ONE) && Printable(body) && Printable(IDENTITY.args[0]);
    assert [Pos(1), Pos(0)][1..] == [Pos(0)];
    assert ChildIndex(IDENTITY, Pos(1)) == Some(1) && Children(IDENTITY)[1] == body;
    assert ChildIndex(body, Pos(0)) == Some(0);
    assert EntersVar(body, [Pos(0)]);
    CaretsAlign(IDENTITY, [Pos(1), Pos(0)]);
  }

  lemma HoleIsPrinted(printed: seq<Token>, o: nat, x: seq<Token>)
    requires Spliced(printed, printed, o, x)
    ensures printed[o..o + |x|] == x
  {
    var s := printed[..o] + x + printed[o + |x|..];
    assert s[o..o + |x|] == x;
  }
}
