/**
 * How rethinkdb/ast.py turns host functions into first-order terms. `Func` draws one id per parameter
 * from a counter shared by all threads, runs the host function on the `Var`s of those ids, and keeps
 * the term it returns; `func_wrap` makes a one-parameter function of a term that mentions `r.row`.
 */
module Functions {
  import opened Wrappers

  datatype Datum = Scalar(n: int) | List(items: seq<Datum>)

  /** `FunCall` and `Map` take functions; every other operator works on data. */
  datatype Operator = FunCall | Map | Primitive(name: string)

  /**
   * A host program that builds a query. `Param(i)` is the i-th parameter in scope, counted from the
   * outermost; `Wrap` marks an argument that the driver passes through `func_wrap`. `Let` keeps a query
   * object for `body`, where `Shared(i)` is the i-th object kept, again from the outermost: `expr`
   * returns such an object as it is, wherever and however often it is used.
   */
  datatype Host =
    | Lit(d: Datum)
    | Param(i: nat)
    | Row
    | Apply(op: Operator, args: seq<Host>)
    | Lambda(arity: nat, body: Host)
    | Wrap(arg: Host)
    | Let(bound: Host, rest: Host)
    | Shared(i: nat)

  /** What is sent to the server */
  datatype Term =
    | Const(d: Datum)
    | Var(id: nat)
    | ImplicitVar
    | Call(op: Operator, args: seq<Term>)
    | Func(ids: seq<nat>, body: Term)

  /** `_ivar_scan`, on the host side; `shared` says which of the objects kept mention the row. */
  predicate MentionsRow(e: Host, shared: seq<bool>) {
    match e
    case Lit(_) => false
    case Param(_) => false
    case Row => true
    case Apply(_, args) => exists i :: 0 <= i < |args| && MentionsRow(args[i], shared)
    case Lambda(_, body) => MentionsRow(body, shared)
    case Wrap(arg) => MentionsRow(arg, shared)
    case Let(bound, rest) => MentionsRow(rest, shared + [MentionsRow(bound, shared)])
    case Shared(i) => i < |shared| && shared[i]
  }

  /** `_ivar_scan` on terms: it looks into nested functions as well. */
  predicate IvarScan(t: Term) {
    match t
    case Const(_) => false
    case Var(_) => false
    case ImplicitVar => true
    case Call(_, args) => exists i :: 0 <= i < |args| && IvarScan(args[i])
    case Func(_, body) => IvarScan(body)
  }

  /** With `depth` parameters and `shared` objects in scope */
  predicate Scoped(e: Host, depth: nat, shared: nat) {
    match e
    case Lit(_) => true
    case Param(i) => i < depth
    case Row => true
    case Apply(_, args) => forall i :: 0 <= i < |args| ==> Scoped(args[i], depth, shared)
    case Lambda(n, body) => Scoped(body, depth + n, shared)
    case Wrap(arg) => Scoped(arg, depth, shared)
    case Let(bound, rest) => Scoped(bound, depth, shared) && Scoped(rest, depth, shared + 1)
    case Shared(i) => i < shared
  }

  // ----- ids -----

  /**
   * The counter is shared: having left it at `n`, this thread finds it at `n + others(n)` when it takes
   * the lock next, because other threads draw ids in between.
   */
  type Others = nat -> nat

  function TakeIds(n: nat, next: nat, others: Others): (r: (seq<nat>, nat))
    ensures |r.0| == n && next <= r.1
  {
    if n == 0 then ([], next)
    else
      var id := next + others(next);
      var (ids, after) := TakeIds(n - 1, id + 1, others);
      ([id] + ids, after)
  }

  // ----- building terms -----

  /** The term a host program builds: `scope` has the ids of the parameters, `terms` the objects kept. */
  function Build(e: Host, scope: seq<nat>, terms: seq<Term>, next: nat, others: Others): (r: (Term, nat))
    requires Scoped(e, |scope|, |terms|)
    ensures next <= r.1
    decreases e, 0
  {
    match e
    case Lit(d) => (Const(d), next)
    case Param(i) => (Var(scope[i]), next)
    case Row => (ImplicitVar, next)
    case Apply(op, args) =>
      var (ts, after) := BuildAll(args, scope, terms, next, others);
      (Call(op, ts), after)
    case Lambda(n, body) =>
      var (ids, next1) := TakeIds(n, next, others);
      var (t, after) := Build(body, scope + ids, terms, next1, others);
      (Func(ids, t), after)
    case Wrap(arg) =>
      var (t, next1) := Build(arg, scope, terms, next, others);
      FuncWrap(t, next1, others)
    case Let(bound, rest) =>
      var (t, next1) := Build(bound, scope, terms, next, others);
      Build(rest, scope, terms + [t], next1, others)
    case Shared(i) => (terms[i], next)
  }

  function BuildAll(
      args: seq<Host>, scope: seq<nat>, terms: seq<Term>, next: nat, others: Others): (r: (seq<Term>, nat))
    requires forall i :: 0 <= i < |args| ==> Scoped(args[i], |scope|, |terms|)
    ensures next <= r.1 && |r.0| == |args|
    decreases args, 0
  {
    if args == [] then ([], next)
    else
      var (t, next1) := Build(args[0], scope, terms, next, others);
      var (ts, after) := BuildAll(args[1..], scope, terms, next1, others);
      ([t] + ts, after)
  }

  /** `func_wrap`: the id of the new parameter is drawn after the term was built. */
  function FuncWrap(t: Term, next: nat, others: Others): (r: (Term, nat))
    ensures next <= r.1
  {
    if IvarScan(t) then
      var (ids, after) := TakeIds(1, next, others);
      (Func(ids, t), after)
    else (t, next)
  }

  // ----- what a host program means -----

  /** A query object kept: its program, and how many parameters were in scope where it was made */
  datatype Definition = Definition(depth: nat, program: Host)

  /** Which of the objects kept mention the row */
  function Mentions(defs: seq<Definition>): (ms: seq<bool>)
    ensures |ms| == |defs|
  {
    if defs == [] then []
    else
      var front := Mentions(defs[..|defs| - 1]);
      front + [MentionsRow(defs[|defs| - 1].program, front)]
  }

  /** The size of a program with the objects it uses written out */
  function Weight(e: Host, shared: seq<nat>): (w: nat)
    ensures w > 0
    decreases e, 0
  {
    match e
    case Apply(_, args) => 1 + WeightAll(args, shared)
    case Lambda(_, body) => 1 + Weight(body, shared)
    case Wrap(arg) => 1 + Weight(arg, shared)
    case Let(bound, rest) => 1 + Weight(rest, shared + [Weight(bound, shared)])
    case Shared(i) => if i < |shared| then 1 + shared[i] else 1
    case _ => 1
  }

  function WeightAll(args: seq<Host>, shared: seq<nat>): nat
    decreases args, 0
  {
    if args == [] then 0 else 1 + Weight(args[0], shared) + WeightAll(args[1..], shared)
  }

  function Weights(defs: seq<Definition>): (ws: seq<nat>)
    ensures |ws| == |defs|
    decreases |defs|
  {
    if defs == [] then []
    else
      var front := Weights(defs[..|defs| - 1]);
      front + [Weight(defs[|defs| - 1].program, front)]
  }

  lemma WeightsOfMore(defs: seq<Definition>, d: Definition)
    ensures Weights(defs + [d]) == Weights(defs) + [Weight(d.program, Weights(defs))]
  {
    hide Weight;
    assert (defs + [d])[..|defs|] == defs;
  }

  lemma {:induction false} WeightOfShared(defs: seq<Definition>, i: nat)
    requires i < |defs|
    ensures Weights(defs)[i] == Weight(defs[i].program, Weights(defs[..i]))
    decreases |defs|
  {
    hide Weight;
    var k := |defs| - 1;
    if i < k {
      WeightOfShared(defs[..k], i);
      assert defs[..k][..i] == defs[..i];
    }
  }

  datatype HostValue =
    | HostData(d: Datum)
    | HostFunction(env: seq<HostValue>, defs: seq<Definition>, row: Option<HostValue>, arity: nat, body: Host)
    | HostRowFunction(env: seq<HostValue>, defs: seq<Definition>, body: Host)
      // made by `func_wrap`: its argument is only seen as `r.row`

  /** The data operators, left open */
  type World = (string, seq<Datum>) -> Option<Datum>

  /**
   * The value of a program. Using an object kept means its program, with the parameters of the place
   * where it was made and the row of the place where it is used.
   */
  function Eval(
      w: World, e: Host, defs: seq<Definition>, env: seq<HostValue>, row: Option<HostValue>, fuel: nat)
    : Option<HostValue>
    decreases fuel, 1, Weight(e, Weights(defs))
  {
    match e
    case Lit(d) => Some(HostData(d))
    case Param(i) => if i < |env| then Some(env[i]) else None
    case Row => row
    case Apply(op, args) =>
      (match EvalAll(w, args, defs, env, row, fuel)
       case None => None
       case Some(vs) => Operate(w, op, vs, fuel))
    case Lambda(n, body) => Some(HostFunction(env, defs, row, n, body))
    case Wrap(arg) =>
      if MentionsRow(arg, Mentions(defs)) then Some(HostRowFunction(env, defs, arg))
      else Eval(w, arg, defs, env, row, fuel)
    case Let(bound, rest) =>
      WeightsOfMore(defs, Definition(|env|, bound));
      Eval(w, rest, defs + [Definition(|env|, bound)], env, row, fuel)
    case Shared(i) =>
      if i < |defs| && defs[i].depth <= |env| then
        WeightOfShared(defs, i);
        Eval(w, defs[i].program, defs[..i], env[..defs[i].depth], row, fuel)
      else
        None
  }

  function EvalAll(
      w: World, args: seq<Host>, defs: seq<Definition>, env: seq<HostValue>, row: Option<HostValue>, fuel: nat)
    : Option<seq<HostValue>>
    decreases fuel, 1, WeightAll(args, Weights(defs))
  {
    if args == [] then Some([])
    else
      match Eval(w, args[0], defs, env, row, fuel)
      case None => None
      case Some(v) =>
        match EvalAll(w, args[1..], defs, env, row, fuel)
        case None => None
        case Some(vs) => Some([v] + vs)
  }

  function Invoke(w: World, f: HostValue, vs: seq<HostValue>, fuel: nat): Option<HostValue>
    decreases fuel, 0, 0, 0
  {
    if fuel == 0 then None
    else
      match f
      case HostData(_) => None
      case HostFunction(env, defs, row, n, body) =>
        if |vs| != n then None else Eval(w, body, defs, env + vs, if n == 1 then Some(vs[0]) else row, fuel - 1)
      case HostRowFunction(env, defs, body) =>
        if |vs| != 1 then None else Eval(w, body, defs, env, Some(vs[0]), fuel - 1)
  }

  function Operate(w: World, op: Operator, vs: seq<HostValue>, fuel: nat): Option<HostValue>
    decreases fuel, 0, 2, 0
  {
    match op
    case FunCall => if vs == [] then None else Invoke(w, vs[0], vs[1..], fuel)
    case Map =>
      if |vs| != 2 || !vs[0].HostData? || !vs[0].d.List? then None
      else
        (match MapOver(w, vs[1], vs[0].d.items, fuel)
         case None => None
         case Some(ds) => Some(HostData(List(ds))))
    case Primitive(name) =>
      if exists i :: 0 <= i < |vs| && !vs[i].HostData? then None
      else
        (match w(name, seq(|vs|, i requires 0 <= i < |vs| => vs[i].d))
         case None => None
         case Some(d) => Some(HostData(d)))
  }

  function MapOver(w: World, f: HostValue, ds: seq<Datum>, fuel: nat): Option<seq<Datum>>
    decreases fuel, 0, 1, |ds|
  {
    if ds == [] then Some([])
    else
      match Invoke(w, f, [HostData(ds[0])], fuel)
      case Some(HostData(d)) =>
        (match MapOver(w, f, ds[1..], fuel)
         case None => None
         case Some(more) => Some([d] + more))
      case _ => None
  }

  // ----- what a term means to the server -----

  /** `r.row` is the argument of the nearest enclosing one-parameter function. */
  datatype ServerValue =
    | ServerData(d: Datum)
    | ServerFunction(env: map<nat, ServerValue>, row: Option<ServerValue>, ids: seq<nat>, body: Term)

  function Bind(env: map<nat, ServerValue>, ids: seq<nat>, vs: seq<ServerValue>): map<nat, ServerValue>
    requires |ids| == |vs|
    decreases |ids|
  {
    if ids == [] then env else Bind(env[ids[0] := vs[0]], ids[1..], vs[1..])
  }

  function Run(w: World, t: Term, env: map<nat, ServerValue>, row: Option<ServerValue>, fuel: nat): Option<ServerValue>
    decreases fuel, 1, t
  {
    match t
    case Const(d) => Some(ServerData(d))
    case Var(id) => if id in env then Some(env[id]) else None
    case ImplicitVar => row
    case Call(op, args) =>
      (match RunAll(w, args, env, row, fuel)
       case None => None
       case Some(vs) => RunOperator(w, op, vs, fuel))
    case Func(ids, body) => Some(ServerFunction(env, row, ids, body))
  }

  function RunAll(
      w: World, args: seq<Term>, env: map<nat, ServerValue>, row: Option<ServerValue>, fuel: nat)
    : Option<seq<ServerValue>>
    decreases fuel, 1, args
  {
    if args == [] then Some([])
    else
      match Run(w, args[0], env, row, fuel)
      case None => None
      case Some(v) =>
        match RunAll(w, args[1..], env, row, fuel)
        case None => None
        case Some(vs) => Some([v] + vs)
  }

  function RunCall(w: World, f: ServerValue, vs: seq<ServerValue>, fuel: nat): Option<ServerValue>
    decreases fuel, 0, 0, 0
  {
    if fuel == 0 || !f.ServerFunction? || |vs| != |f.ids| then None
    else Run(w, f.body, Bind(f.env, f.ids, vs), if |f.ids| == 1 then Some(vs[0]) else f.row, fuel - 1)
  }

  function RunOperator(w: World, op: Operator, vs: seq<ServerValue>, fuel: nat): Option<ServerValue>
    decreases fuel, 0, 2, 0
  {
    match op
    case FunCall => if vs == [] then None else RunCall(w, vs[0], vs[1..], fuel)
    case Map =>
      if |vs| != 2 || !vs[0].ServerData? || !vs[0].d.List? then None
      else
        (match RunMap(w, vs[1], vs[0].d.items, fuel)
         case None => None
         case Some(ds) => Some(ServerData(List(ds))))
    case Primitive(name) =>
      if exists i :: 0 <= i < |vs| && !vs[i].ServerData? then None
      else
        (match w(name, seq(|vs|, i requires 0 <= i < |vs| => vs[i].d))
         case None => None
         case Some(d) => Some(ServerData(d)))
  }

  function RunMap(w: World, f: ServerValue, ds: seq<Datum>, fuel: nat): Option<seq<Datum>>
    decreases fuel, 0, 1, |ds|
  {
    if ds == [] then Some([])
    else
      match RunCall(w, f, [ServerData(ds[0])], fuel)
      case Some(ServerData(d)) =>
        (match RunMap(w, f, ds[1..], fuel)
         case None => None
         case Some(more) => Some([d] + more))
      case _ => None
  }
}
