/**
 * The query printer of rethinkdb/errors.py and the `compose` methods of rethinkdb/ast.py: one pass
 * prints a query as tokens, a second one prints carets under the subterm an error points at.
 */
module QueryPrinter {
  import opened Wrappers

  /** Mostly single characters: only the separators of infix operators are longer. */
  type Token = string

  // ----- the layout tree -----

  /** `T`, with holes where `compose` puts what its arguments printed */
  datatype T = Str(s: string) | Hole(i: nat) | Node(parts: seq<T>, intsp: seq<Token>)

  /** Iterating over a string gives its characters. */
  function Chars(s: string): (r: seq<Token>)
    ensures |r| == |s| && forall j :: 0 <= j < |r| ==> r[j] == [s[j]]
  {
    seq(|s|, j requires 0 <= j < |s| => [s[j]])
  }

  function At(toks: seq<seq<Token>>, i: nat): seq<Token> {
    if i < |toks| then toks[i] else []
  }

  /** `T.__iter__`, the holes filled from `toks` */
  function Flatten(t: T, toks: seq<seq<Token>>): seq<Token>
    decreases t, 0
  {
    match t
    case Str(s) => Chars(s)
    case Hole(i) => At(toks, i)
    case Node(parts, intsp) => FlattenAll(parts, intsp, toks)
  }

  function FlattenAll(parts: seq<T>, intsp: seq<Token>, toks: seq<seq<Token>>): seq<Token>
    decreases parts, 0
  {
    if parts == [] then []
    else if |parts| == 1 then Flatten(parts[0], toks)
    else Flatten(parts[0], toks) + (intsp + FlattenAll(parts[1..], intsp, toks))
  }

  /** What still has to come after the first `k` parts */
  function FlattenFrom(parts: seq<T>, intsp: seq<Token>, k: nat, toks: seq<seq<Token>>): seq<Token>
    requires 1 <= k <= |parts|
  {
    if k == |parts| then [] else intsp + FlattenAll(parts[k..], intsp, toks)
  }

  /** `T.__iter__` as the generator it is: the first part, then a separator before each other one. */
  method Iterate(t: T, toks: seq<seq<Token>>) returns (out: seq<Token>)
    ensures out == Flatten(t, toks)
    decreases t
  {
    match t {
      case Str(s) => out := Chars(s);
      case Hole(i) => out := At(toks, i);
      case Node(parts, intsp) =>
        if parts == [] {
          return [];
        }
        out := Iterate(parts[0], toks);
        var k := 1;
        while k < |parts|
          invariant 1 <= k <= |parts|
          invariant out + FlattenFrom(parts, intsp, k, toks) == FlattenAll(parts, intsp, toks)
        {
          var next := Iterate(parts[k], toks);
          assert parts[k..][1..] == parts[k + 1..];
          assert FlattenAll(parts[k..], intsp, toks) == next + FlattenFrom(parts, intsp, k + 1, toks);
          Regroup(out, intsp, next, FlattenFrom(parts, intsp, k + 1, toks));
          out := out + intsp + next;
          k := k + 1;
        }
    }
  }

  lemma Regroup(a: seq<Token>, b: seq<Token>, c: seq<Token>, d: seq<Token>)
    ensures a + (b + (c + d)) == a + b + c + d
  {
  }

  // ----- terms -----

  datatype Kind =
    | Datum(repr: string)
    | MakeArray
    | MakeObj
    | Var
    | ImplicitVar
    | Binary
    | Not
    | BoolOper(statement: string, infix: bool, symbol: string)
    | BiOper(statement: string)                      // comparison and arithmetic
    | Db
    | TopLevel(statement: string)
    | Method(statement: string)
    | Bracket(statement: string, bracketOperator: bool)
    | Slice(bracketOperator: bool)
    | FunCall
    | Table
    | Func(vars: seq<string>)                        // the ids of its parameters, as printed

  /** `repr` is what Python's `repr` makes of the key. */
  datatype OptArg = OptArg(key: string, repr: string, value: Term)

  datatype Term = Term(kind: Kind, args: seq<Term>, optargs: seq<OptArg>)

  datatype Frame = Pos(i: int) | Key(k: string)

  function Children(t: Term): (r: seq<Term>)
    ensures |r| == |t.args| + |t.optargs|
  {
    t.args + seq(|t.optargs|, j requires 0 <= j < |t.optargs| => t.optargs[j].value)
  }

  /** What the constructors and Python's dictionaries guarantee, and `compose` relies on */
  predicate Printable(t: Term)
    decreases t
  {
    && (match t.kind
        case Var => |t.args| >= 1 && t.args[0].kind.Datum?
        case Not => |t.args| >= 1
        case Bracket(_, op) => op ==> |t.args| >= 1
        case Slice(op) => op ==> |t.args| >= 3
        case FunCall => |t.args| >= 1
        case Table => |t.args| >= 1
        case Func(_) => |t.args| == 2
        case BiOper(st) => st != ""
        case BoolOper(_, infix, sym) => infix ==> sym != ""
        case _ => true)
    && (forall i, j :: 0 <= i < j < |t.optargs| ==> t.optargs[i].key != t.optargs[j].key)
    && (forall i :: 0 <= i < |t.args| ==> Printable(t.args[i]))
    && (forall i :: 0 <= i < |t.optargs| ==> Printable(t.optargs[i].value))
  }

  predicate NeedsWrap(t: Term) {
    t.kind.Datum? || t.kind.MakeArray? || t.kind.MakeObj?
  }

  // ----- `compose` -----

  const COMMA: seq<Token> := [",", " "]

  function Wrapped(i: nat): T {
    Node([Str("r.expr("), Hole(i), Str(")")], [])
  }

  function WrapIf(wrap: bool, i: nat): T {
    if wrap then Wrapped(i) else Hole(i)
  }

  function Holes(lo: nat, hi: nat): seq<T>
    decreases hi - lo
  {
    if lo >= hi then [] else [Hole(lo)] + Holes(lo + 1, hi)
  }

  /** The positional arguments from `i` on, literals wrapped */
  function WrappedArgs(t: Term, i: nat): seq<T>
    decreases |t.args| - i
  {
    if i >= |t.args| then [] else [WrapIf(NeedsWrap(t.args[i]), i)] + WrappedArgs(t, i + 1)
  }

  /** The optional arguments from `j` on, as `key=value` or, in an object, `'key': value` */
  function KeyValues(t: Term, j: nat, inObject: bool): seq<T>
    decreases |t.optargs| - j
  {
    if j >= |t.optargs| then []
    else
      var key := if inObject then Str(t.optargs[j].repr) else Str(t.optargs[j].key);
      [Node([key, Str(if inObject then ": " else "="), Hole(|t.args| + j)], [])] + KeyValues(t, j + 1, inObject)
  }

  function VarNames(vars: seq<string>): seq<T> {
    if vars == [] then [] else [Str("var_" + vars[0])] + VarNames(vars[1..])
  }

  function CallShape(statement: string, args: seq<T>): T {
    Node([Str("r."), Str(statement), Str("("), Node(args, COMMA), Str(")")], [])
  }

  function MethodShape(t: Term, statement: string): T {
    if t.args == [] then Node([Str("r."), Str(statement), Str("()")], [])
    else
      Node([WrapIf(NeedsWrap(t.args[0]), 0), Str("."), Str(statement), Str("("),
            Node(Holes(1, |t.args|) + KeyValues(t, 0, false), COMMA), Str(")")], [])
  }

  function InfixShape(t: Term, symbol: string): T {
    Node([Str("("), Node(WrappedArgs(t, 0), [" ", symbol, " "]), Str(")")], [])
  }

  /** What `t.compose` builds from the printed arguments */
  function Shape(t: Term): T
    requires Printable(t)
  {
    var n := |t.args|;
    match t.kind
    case Datum(repr) => Str(repr)
    case MakeArray => Node([Str("["), Node(Holes(0, n), COMMA), Str("]")], [])
    case MakeObj => Node([Str("r.expr({"), Node(KeyValues(t, 0, true), COMMA), Str("})")], [])
    case Var => Str("var_" + t.args[0].kind.repr)
    case ImplicitVar => Str("r.row")
    case Binary =>
      if n == 0 then Node([Str("r."), Str("binary"), Str("(bytes(<data>))")], [])
      else CallShape("binary", Holes(0, n) + KeyValues(t, 0, false))
    case Not => Node([Str("(~"), WrapIf(t.args[0].kind.Datum?, 0), Str(")")], [])
    case BoolOper(st, infix, symbol) => if infix then InfixShape(t, symbol) else CallShape(st, WrappedArgs(t, 0))
    case BiOper(st) => InfixShape(t, st)
    case Db => CallShape("db", Holes(0, n) + KeyValues(t, 0, false))
    case TopLevel(st) => CallShape(st, Holes(0, n) + KeyValues(t, 0, false))
    case Method(st) => MethodShape(t, st)
    case Bracket(st, op) =>
      if op then Node([WrapIf(NeedsWrap(t.args[0]), 0), Str("["), Node(Holes(1, n), [","]), Str("]")], [])
      else MethodShape(t, st)
    case Slice(op) =>
      if op then Node([WrapIf(NeedsWrap(t.args[0]), 0), Str("["), Hole(1), Str(":"), Hole(2), Str("]")], [])
      else MethodShape(t, "slice")
    case FunCall =>
      if n != 2 then Node([Str("r.do("), Node([Node(Holes(1, n), COMMA), Hole(0)], COMMA), Str(")")], [])
      else Node([WrapIf(t.args[1].kind.Datum?, 1), Str(".do("), Hole(0), Str(")")], [])
    case Table =>
      if t.args[0].kind.Db? then
        Node([Hole(0), Str(".table("), Node(Holes(1, n) + KeyValues(t, 0, false), COMMA), Str(")")], [])
      else Node([Str("r.table("), Node(Holes(0, n) + KeyValues(t, 0, false), COMMA), Str(")")], [])
    case Func(vars) => Node([Str("lambda "), Node(VarNames(vars), COMMA), Str(": "), Hole(1)], [])
  }

  lemma ChildIsSmaller(t: Term, i: nat)
    requires i < |Children(t)|
    ensures Children(t)[i] < t
    ensures Printable(t) ==> Printable(Children(t)[i])
  {
    if i >= |t.args| {
      assert Children(t)[i] == t.optargs[i - |t.args|].value;
    }
  }

  // ----- the two passes -----

  /** `compose_term` */
  function Compose(t: Term): seq<Token>
    requires Printable(t)
    decreases t, 0
  {
    Flatten(Shape(t), ComposeChildren(t, 0))
  }

  /** The children from the i-th on, each printed */
  function ComposeChildren(t: Term, i: nat): (r: seq<seq<Token>>)
    requires Printable(t) && i <= |Children(t)|
    ensures |r| == |Children(t)| - i
    ensures forall j :: 0 <= j < |r| ==> (ChildIsSmaller(t, i + j); r[j] == Compose(Children(t)[i + j]))
    decreases t, 0, |Children(t)| - i
  {
    if i == |Children(t)| then []
    else
      ChildIsSmaller(t, i);
      [Compose(Children(t)[i])] + ComposeChildren(t, i + 1)
  }

  function KeyIndex(optargs: seq<OptArg>, k: string): (r: Option<nat>)
    ensures r.Some? ==> r.value < |optargs| && optargs[r.value].key == k
    ensures r.None? ==> forall j :: 0 <= j < |optargs| ==> optargs[j].key != k
  {
    if optargs == [] then None
    else if optargs[0].key == k then Some(0)
    else
      match KeyIndex(optargs[1..], k)
      case None => None
      case Some(j) => Some(j + 1)
  }

  /** The child a frame of the backtrace points at, if there is one */
  function ChildIndex(t: Term, f: Frame): (r: Option<nat>)
    ensures r.Some? ==> r.value < |Children(t)|
  {
    match f
    case Pos(i) => if 0 <= i < |t.args| then Some(i) else None
    case Key(k) =>
      match KeyIndex(t.optargs, k)
      case None => None
      case Some(j) => Some(|t.args| + j)
  }

  /** A number is for the argument in that place, a key for the optional argument of that name. */
  lemma ChildOfFrame(t: Term, f: Frame)
    ensures f.Pos? ==>
              var r := ChildIndex(t, f);
              && (r.Some? <==> 0 <= f.i < |t.args|)
              && (r.Some? ==> Children(t)[r.value] == t.args[f.i])
    ensures f.Key? ==>
              var r := ChildIndex(t, f);
              && (r.Some? <==> exists j :: 0 <= j < |t.optargs| && t.optargs[j].key == f.k)
              && (r.Some? ==> exists j :: 0 <= j < |t.optargs| && t.optargs[j].key == f.k
                                          && Children(t)[r.value] == t.optargs[j].value)
  {
    if f.Key? {
      var at := KeyIndex(t.optargs, f.k);
      if at.Some? {
        assert Children(t)[|t.args| + at.value] == t.optargs[at.value].value;
      }
    }
  }

  function Blank(toks: seq<Token>): (r: seq<Token>)
    ensures |r| == |toks| && forall j :: 0 <= j < |r| ==> r[j] == if toks[j] == "^" then "^" else " "
  {
    seq(|toks|, j requires 0 <= j < |toks| => if toks[j] == "^" then "^" else " ")
  }

  /**
   * `compose_carrots`. `None` is the `TypeError` of `Var.compose`, which can add a string to its printed
   * argument but not to a list of carets.
   */
  function Carets(t: Term, frames: seq<Frame>): Option<seq<Token>>
    requires Printable(t)
    decreases t
  {
    if frames == [] then Some(seq(|Compose(t)|, _ => "^"))
    else
      match ChildIndex(t, frames[0])
      case None => Some(Blank(Compose(t)))
      case Some(i) =>
        ChildIsSmaller(t, i);
        match Carets(Children(t)[i], frames[1..])
        case None => None
        case Some(c) =>
          if t.kind.Var? && i == 0 then None
          else Some(Blank(Flatten(Shape(t), ComposeChildren(t, 0)[i := c])))
  }

  /** `"".join(...)` */
  function Join(toks: seq<Token>): string {
    if toks == [] then "" else toks[0] + Join(toks[1..])
  }
}
