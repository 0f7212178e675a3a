/** Compiling host functions keeps their meaning, query objects used in several places included. */
module FunctionsProofs {
  import opened Wrappers
  import opened Functions

  // ----- ids are fresh -----

  predicate Distinct(ids: seq<nat>) {
    forall i, j :: 0 <= i < j < |ids| ==> ids[i] != ids[j]
  }

  predicate Within(ids: seq<nat>, lo: nat, hi: nat) {
    forall i :: 0 <= i < |ids| ==> lo <= ids[i] < hi
  }

  lemma {:induction false} TakenIdsAreFresh(n: nat, next: nat, others: Others)
    ensures var (ids, after) := TakeIds(n, next, others); Distinct(ids) && Within(ids, next, after)
  {
    if n > 0 {
      TakenIdsAreFresh(n - 1, next + others(next) + 1, others);
    }
  }

  lemma DistinctConcat(a: seq<nat>, b: seq<nat>, lo: nat, mid: nat, hi: nat)
    requires lo <= mid <= hi && Distinct(a) && Distinct(b)
    requires Within(a, lo, mid) && Within(b, mid, hi)
    ensures Distinct(a + b) && Within(a + b, lo, hi)
  {
  }

  // ----- `_ivar_scan` sees what the host program mentions -----

  predicate Scans(terms: seq<Term>, ms: seq<bool>) {
    |terms| == |ms| && forall i :: 0 <= i < |terms| ==> IvarScan(terms[i]) == ms[i]
  }

  lemma {:induction false} ScanAgrees(
      e: Host, scope: seq<nat>, terms: seq<Term>, ms: seq<bool>, next: nat, others: Others)
    requires Scoped(e, |scope|, |terms|) && Scans(terms, ms)
    ensures IvarScan(Build(e, scope, terms, next, others).0) <==> MentionsRow(e, ms)
    decreases e, 0
  {
    match e
    case Lit(_) =>
    case Param(_) =>
    case Row =>
    case Apply(op, args) => ScanAllAgrees(args, scope, terms, ms, next, others);
    case Lambda(n, body) =>
      var (ids, next1) := TakeIds(n, next, others);
      ScanAgrees(body, scope + ids, terms, ms, next1, others);
    case Wrap(arg) => ScanAgrees(arg, scope, terms, ms, next, others);
    case Let(bound, rest) =>
      var (t, next1) := Build(bound, scope, terms, next, others);
      ScanAgrees(bound, scope, terms, ms, next, others);
      ScanAgrees(rest, scope, terms + [t], ms + [MentionsRow(bound, ms)], next1, others);
    case Shared(_) =>
  }

  lemma {:induction false} ScanAllAgrees(
    args: seq<Host>, scope: seq<nat>, terms: seq<Term>, ms: seq<bool>, next: nat, others: Others)
    requires (forall i :: 0 <= i < |args| ==> Scoped(args[i], |scope|, |terms|)) && Scans(terms, ms)
    ensures var ts := BuildAll(args, scope, terms, next, others).0;
            forall i :: 0 <= i < |args| ==> IvarScan(ts[i]) == MentionsRow(args[i], ms)
    decreases args, 0
  {
    if args != [] {
      var (t, next1) := Build(args[0], scope, terms, next, others);
      ScanAgrees(args[0], scope, terms, ms, next, others);
      ScanAllAgrees(args[1..], scope, terms, ms, next1, others);
    }
  }

  // ----- the objects kept -----

  /** The parameters in scope have distinct ids, all drawn before `next`. */
  predicate GoodScope(scope: seq<nat>, next: nat) {
    Distinct(scope) && Within(scope, 0, next)
  }

  /** The last object kept was built at `n`, from its program, where it was made. */
  ghost predicate LastKept(defs: seq<Definition>, terms: seq<Term>, scope: seq<nat>, n: nat, others: Others)
    requires defs != []
  {
    var k := |defs| - 1;
    var d := defs[k];
    && |terms| == k + 1 && d.depth <= |scope| && GoodScope(scope[..d.depth], n)
    && Scoped(d.program, d.depth, k)
    && terms[k] == Build(d.program, scope[..d.depth], terms[..k], n, others).0
  }

  /** Each object kept was built where those before it were kept and an initial part of `scope` was in scope. */
  ghost predicate Kept(defs: seq<Definition>, terms: seq<Term>, scope: seq<nat>, next: nat, others: Others)
    decreases |defs|
  {
    if defs == [] then terms == []
    else
      var k := |defs| - 1;
      exists n: nat ::
        n <= next && LastKept(defs, terms, scope, n, others)
          && Kept(defs[..k], terms[..k], scope[..defs[k].depth], n, others)
  }

  lemma KeptOne(
      defs: seq<Definition>, terms: seq<Term>, scope: seq<nat>, next: nat, others: Others, e: Host, after: nat)
    requires Kept(defs, terms, scope, next, others) && |terms| == |defs| && GoodScope(scope, next) && next <= after
    requires Scoped(e, |scope|, |terms|)
    ensures Kept(
              defs + [Definition(|scope|, e)], terms + [Build(e, scope, terms, next, others).0], scope, after, others)
  {
    hide Build, Scoped, GoodScope;
    var defs', terms' := defs + [Definition(|scope|, e)], terms + [Build(e, scope, terms, next, others).0];
    assert scope[..|scope|] == scope && terms'[..|defs|] == terms && defs'[..|defs|] == defs;
    assert LastKept(defs', terms', scope, next, others);
  }

  /** Objects are kept in a larger scope as well. */
  lemma KeptInMore(
      defs: seq<Definition>, terms: seq<Term>, scope: seq<nat>, next: nat, ids: seq<nat>, after: nat, others: Others)
    requires Kept(defs, terms, scope, next, others) && next <= after
    ensures Kept(defs, terms, scope + ids, after, others)
  {
    hide Build, Scoped, GoodScope;
    if defs != [] {
      var k := |defs| - 1;
      var n: nat :|
        n <= next && LastKept(defs, terms, scope, n, others)
          && Kept(defs[..k], terms[..k], scope[..defs[k].depth], n, others);
      assert (scope + ids)[..defs[k].depth] == scope[..defs[k].depth];
      assert LastKept(defs, terms, scope + ids, n, others);
    }
  }

  /** How the i-th object was built, and what had been kept by then */
  lemma {:induction false} KeptAt(
    defs: seq<Definition>, terms: seq<Term>, scope: seq<nat>, next: nat, others: Others, i: nat) returns (n: nat)
    requires Kept(defs, terms, scope, next, others) && i < |defs|
    ensures |terms| == |defs| && n <= next
    ensures var d := defs[i];
            && d.depth <= |scope| && GoodScope(scope[..d.depth], n) && Scoped(d.program, d.depth, i)
            && terms[i] == Build(d.program, scope[..d.depth], terms[..i], n, others).0
            && Kept(defs[..i], terms[..i], scope[..d.depth], n, others)
    decreases |defs|
  {
    hide Build, Scoped, GoodScope;
    var k := |defs| - 1;
    n :| n <= next && LastKept(defs, terms, scope, n, others)
      && Kept(defs[..k], terms[..k], scope[..defs[k].depth], n, others);
    if i < k {
      n := KeptAt(defs[..k], terms[..k], scope[..defs[k].depth], n, others, i);
      assert defs[..k][..i] == defs[..i] && terms[..k][..i] == terms[..i];
      assert scope[..defs[k].depth][..defs[i].depth] == scope[..defs[i].depth];
    }
  }

  lemma {:induction false} KeptScans(
      defs: seq<Definition>, terms: seq<Term>, scope: seq<nat>, next: nat, others: Others)
    requires Kept(defs, terms, scope, next, others)
    ensures Scans(terms, Mentions(defs))
    decreases |defs|
  {
    if defs != [] {
      var k := |defs| - 1;
      var n: nat :|
        n <= next && LastKept(defs, terms, scope, n, others)
          && Kept(defs[..k], terms[..k], scope[..defs[k].depth], n, others);
      KeptScans(defs[..k], terms[..k], scope[..defs[k].depth], n, others);
      ScanAgrees(defs[k].program, scope[..defs[k].depth], terms[..k], Mentions(defs[..k]), n, others);
    }
  }

  // ----- values that mean the same -----

  /** `t` was built from `e` where `scope` was in scope and `terms` were kept, starting from some counter. */
  ghost predicate BuiltFrom(
    t: Term, e: Host, defs: seq<Definition>, scope: seq<nat>, terms: seq<Term>, next: nat, others: Others) {
    && Kept(defs, terms, scope, next, others) && |terms| == |defs|
    && Scoped(e, |scope|, |terms|) && GoodScope(scope, next) && t == Build(e, scope, terms, next, others).0
  }

  ghost predicate Same(hv: HostValue, sv: ServerValue, others: Others)
    decreases hv
  {
    match hv
    case HostData(d) => sv == ServerData(d)
    case HostFunction(env, defs, row, n, body) =>
      && sv.ServerFunction? && |sv.ids| == n
      && (exists scope: seq<nat>, terms: seq<Term>, next: nat ::
            && |scope| == |env|
            && BuiltFrom(sv.body, body, defs, scope + sv.ids, terms, next, others)
            && (forall i :: 0 <= i < |env| ==> scope[i] in sv.env && Same(env[i], sv.env[scope[i]], others)))
      && (match row
          case None => sv.row.None?
          case Some(r) => sv.row.Some? && Same(r, sv.row.value, others))
    case HostRowFunction(env, defs, body) =>
      && sv.ServerFunction? && |sv.ids| == 1
      && (exists scope: seq<nat>, terms: seq<Term>, next: nat ::
            && |scope| == |env| && sv.ids[0] !in scope
            && BuiltFrom(sv.body, body, defs, scope, terms, next, others)
            && (forall i :: 0 <= i < |env| ==> scope[i] in sv.env && Same(env[i], sv.env[scope[i]], others)))
  }

  ghost predicate SameRow(row: Option<HostValue>, srow: Option<ServerValue>, others: Others) {
    match row
    case None => srow.None?
    case Some(r) => srow.Some? && Same(r, srow.value, others)
  }

  ghost predicate SameEnv(env: seq<HostValue>, scope: seq<nat>, senv: map<nat, ServerValue>, others: Others) {
    |scope| == |env| && forall i :: 0 <= i < |env| ==> scope[i] in senv && Same(env[i], senv[scope[i]], others)
  }

  ghost predicate SameAll(vs: seq<HostValue>, svs: seq<ServerValue>, others: Others) {
    |vs| == |svs| && forall i :: 0 <= i < |vs| ==> Same(vs[i], svs[i], others)
  }

  /** Both fail or both give values that mean the same. */
  ghost predicate SameResult(r: Option<HostValue>, sr: Option<ServerValue>, others: Others) {
    SameRow(r, sr, others)
  }

  ghost predicate SameResults(r: Option<seq<HostValue>>, sr: Option<seq<ServerValue>>, others: Others) {
    match r
    case None => sr.None?
    case Some(vs) => sr.Some? && SameAll(vs, sr.value, others)
  }

  // ----- binding parameters -----

  lemma {:induction false} BindLooksUp(env: map<nat, ServerValue>, ids: seq<nat>, vs: seq<ServerValue>)
    requires |ids| == |vs| && Distinct(ids)
    ensures var env' := Bind(env, ids, vs);
            && (forall i :: 0 <= i < |ids| ==> ids[i] in env' && env'[ids[i]] == vs[i])
            && (forall id :: id in env && id !in ids ==> id in env' && env'[id] == env[id])
    decreases |ids|
  {
    if ids != [] {
      BindLooksUp(env[ids[0] := vs[0]], ids[1..], vs[1..]);
      var env' := Bind(env, ids, vs);
      assert ids[0] !in ids[1..];
      forall i | 0 <= i < |ids| ensures ids[i] in env' && env'[ids[i]] == vs[i] {
        if i > 0 {
          assert ids[1..][i - 1] == ids[i] && vs[1..][i - 1] == vs[i];
        }
      }
    }
  }

  /** No parameter captures another: binding new ones leaves the old ones alone. */
  lemma BindKeepsScope(env: seq<HostValue>, vs: seq<HostValue>, scope: seq<nat>, ids: seq<nat>,
                       senv: map<nat, ServerValue>, svs: seq<ServerValue>, others: Others)
    requires SameEnv(env, scope, senv, others) && SameAll(vs, svs, others)
    requires |ids| == |vs| && Distinct(scope + ids)
    ensures SameEnv(env + vs, scope + ids, Bind(senv, ids, svs), others)
  {
    assert Distinct(ids) by {
      forall i, j | 0 <= i < j < |ids| ensures ids[i] != ids[j] {
        assert (scope + ids)[|scope| + i] == ids[i] && (scope + ids)[|scope| + j] == ids[j];
      }
    }
    BindLooksUp(senv, ids, svs);
    forall i | 0 <= i < |scope| ensures scope[i] !in ids {
      forall j | 0 <= j < |ids| ensures ids[j] != scope[i] {
        assert (scope + ids)[i] == scope[i] && (scope + ids)[|scope| + j] == ids[j];
      }
    }
  }

  // ----- building preserves meaning -----

  lemma {:induction false} BuildPreserves(
    w: World, e: Host, defs: seq<Definition>, env: seq<HostValue>, row: Option<HostValue>,
    scope: seq<nat>, terms: seq<Term>, next: nat, senv: map<nat, ServerValue>, srow: Option<ServerValue>,
    others: Others, fuel: nat)
    requires |terms| == |defs| && Scoped(e, |scope|, |terms|) && GoodScope(scope, next)
    requires Kept(defs, terms, scope, next, others)
    requires SameEnv(env, scope, senv, others) && SameRow(row, srow, others)
    ensures SameResult(
              Eval(w, e, defs, env, row, fuel),
              Run(w, Build(e, scope, terms, next, others).0, senv, srow, fuel), others)
    decreases fuel, 1, Weight(e, Weights(defs))
  {
    hide Kept, GoodScope, Same;
    match e
    case Lit(_) => DataIsSame(e.d, others);
    case Param(_) =>
    case Row =>
    case Apply(op, args) =>
      BuildAllPreserves(w, args, defs, env, row, scope, terms, next, senv, srow, others, fuel);
      var vs := EvalAll(w, args, defs, env, row, fuel);
      var svs := RunAll(w, BuildAll(args, scope, terms, next, others).0, senv, srow, fuel);
      if vs.Some? {
        OperatorPreserves(w, op, vs.value, svs.value, others, fuel);
      }
    case Lambda(n, body) => LambdaIsSame(e, defs, env, row, scope, terms, next, senv, srow, others);
    case Wrap(arg) =>
      KeptScans(defs, terms, scope, next, others);
      ScanAgrees(arg, scope, terms, Mentions(defs), next, others);
      if MentionsRow(arg, Mentions(defs)) {
        WrapIsSame(arg, defs, env, scope, terms, next, senv, others);
        TakenIdsAreFresh(1, Build(arg, scope, terms, next, others).1, others);
      } else {
        BuildPreserves(w, arg, defs, env, row, scope, terms, next, senv, srow, others, fuel);
      }
    case Let(bound, rest) => LetPreserves(w, e, defs, env, row, scope, terms, next, senv, srow, others, fuel);
    case Shared(i) => SharedPreserves(w, e, defs, env, row, scope, terms, next, senv, srow, others, fuel);
  }

  lemma DataIsSame(d: Datum, others: Others)
    ensures Same(HostData(d), ServerData(d), others)
  {
  }

  lemma GoodScopeLater(scope: seq<nat>, next: nat, after: nat)
    requires GoodScope(scope, next) && next <= after
    ensures GoodScope(scope, after)
  {
  }

  lemma {:induction false} LetPreserves(
    w: World, e: Host, defs: seq<Definition>, env: seq<HostValue>, row: Option<HostValue>,
    scope: seq<nat>, terms: seq<Term>, next: nat, senv: map<nat, ServerValue>, srow: Option<ServerValue>,
    others: Others, fuel: nat)
    requires e.Let? && |terms| == |defs| && Scoped(e, |scope|, |terms|) && GoodScope(scope, next)
    requires Kept(defs, terms, scope, next, others)
    requires SameEnv(env, scope, senv, others) && SameRow(row, srow, others)
    ensures SameResult(
              Eval(w, e, defs, env, row, fuel),
              Run(w, Build(e, scope, terms, next, others).0, senv, srow, fuel), others)
    decreases fuel, 1, Weight(e, Weights(defs)), 0
  {
    hide Kept, GoodScope, Same;
    var (t, next1) := Build(e.bound, scope, terms, next, others);
    var d := Definition(|scope|, e.bound);
    KeptOne(defs, terms, scope, next, others, e.bound, next1);
    GoodScopeLater(scope, next, next1);
    WeightsOfMore(defs, d);
    BuildPreserves(w, e.rest, defs + [d], env, row, scope, terms + [t], next1, senv, srow, others, fuel);
  }

  /** An object kept means the same wherever it is used. */
  lemma {:induction false} SharedPreserves(
    w: World, e: Host, defs: seq<Definition>, env: seq<HostValue>, row: Option<HostValue>,
    scope: seq<nat>, terms: seq<Term>, next: nat, senv: map<nat, ServerValue>, srow: Option<ServerValue>,
    others: Others, fuel: nat)
    requires e.Shared? && |terms| == |defs| && Scoped(e, |scope|, |terms|) && GoodScope(scope, next)
    requires Kept(defs, terms, scope, next, others)
    requires SameEnv(env, scope, senv, others) && SameRow(row, srow, others)
    ensures SameResult(
              Eval(w, e, defs, env, row, fuel),
              Run(w, Build(e, scope, terms, next, others).0, senv, srow, fuel), others)
    decreases fuel, 1, Weight(e, Weights(defs)), 0
  {
    hide Kept, GoodScope, Same;
    var i := e.i;
    var d := defs[i];
    var n := KeptAt(defs, terms, scope, next, others, i);
    WeightOfShared(defs, i);
    BuildPreserves(
      w, d.program, defs[..i], env[..d.depth], row, scope[..d.depth], terms[..i], n, senv, srow, others, fuel);
  }

  lemma LambdaIsSame(
    e: Host, defs: seq<Definition>, env: seq<HostValue>, row: Option<HostValue>, scope: seq<nat>, terms: seq<Term>,
    next: nat, senv: map<nat, ServerValue>, srow: Option<ServerValue>, others: Others)
    requires e.Lambda? && |terms| == |defs| && Scoped(e, |scope|, |terms|) && GoodScope(scope, next)
    requires Kept(defs, terms, scope, next, others)
    requires SameEnv(env, scope, senv, others) && SameRow(row, srow, others)
    ensures var t := Build(e, scope, terms, next, others).0;
            Same(HostFunction(env, defs, row, e.arity, e.body), ServerFunction(senv, srow, t.ids, t.body), others)
  {
    hide Kept;
    var (ids, next1) := TakeIds(e.arity, next, others);
    TakenIdsAreFresh(e.arity, next, others);
    DistinctConcat(scope, ids, 0, next, next1);
    KeptInMore(defs, terms, scope, next, ids, next1, others);
    assert BuiltFrom(
        Build(e.body, scope + ids, terms, next1, others).0, e.body, defs, scope + ids, terms, next1, others);
  }

  lemma WrapIsSame(
    arg: Host, defs: seq<Definition>, env: seq<HostValue>, scope: seq<nat>, terms: seq<Term>,
    next: nat, senv: map<nat, ServerValue>, others: Others)
    requires |terms| == |defs| && Scoped(arg, |scope|, |terms|) && GoodScope(scope, next)
    requires Kept(defs, terms, scope, next, others) && SameEnv(env, scope, senv, others)
    requires IvarScan(Build(arg, scope, terms, next, others).0)
    ensures var t := Build(Wrap(arg), scope, terms, next, others).0;
            t.Func?
            && forall srow :: Same(HostRowFunction(env, defs, arg), ServerFunction(senv, srow, t.ids, t.body), others)
  {
    hide Kept;
    var (t, next1) := Build(arg, scope, terms, next, others);
    TakenIdsAreFresh(1, next1, others);
    assert BuiltFrom(t, arg, defs, scope, terms, next, others);
  }

  lemma {:induction false} BuildAllPreserves(
    w: World, args: seq<Host>, defs: seq<Definition>, env: seq<HostValue>, row: Option<HostValue>,
    scope: seq<nat>, terms: seq<Term>, next: nat, senv: map<nat, ServerValue>, srow: Option<ServerValue>,
    others: Others, fuel: nat)
    requires |terms| == |defs| && GoodScope(scope, next)
    requires forall i :: 0 <= i < |args| ==> Scoped(args[i], |scope|, |terms|)
    requires Kept(defs, terms, scope, next, others)
    requires SameEnv(env, scope, senv, others) && SameRow(row, srow, others)
    ensures SameResults(EvalAll(w, args, defs, env, row, fuel),
                        RunAll(w, BuildAll(args, scope, terms, next, others).0, senv, srow, fuel), others)
    decreases fuel, 1, WeightAll(args, Weights(defs))
  {
    hide Kept, GoodScope, Same;
    if args != [] {
      var (t, next1) := Build(args[0], scope, terms, next, others);
      var (ts, after) := BuildAll(args[1..], scope, terms, next1, others);
      KeptInMore(defs, terms, scope, next, [], next1, others);
      assert scope + [] == scope;
      GoodScopeLater(scope, next, next1);
      BuildPreserves(w, args[0], defs, env, row, scope, terms, next, senv, srow, others, fuel);
      BuildAllPreserves(w, args[1..], defs, env, row, scope, terms, next1, senv, srow, others, fuel);
      assert ([t] + ts)[0] == t && ([t] + ts)[1..] == ts;
    }
  }

  lemma {:induction false} CallPreserves(
    w: World, f: HostValue, sf: ServerValue, vs: seq<HostValue>, svs: seq<ServerValue>, others: Others, fuel: nat)
    requires Same(f, sf, others) && SameAll(vs, svs, others)
    ensures SameResult(Invoke(w, f, vs, fuel), RunCall(w, sf, svs, fuel), others)
    decreases fuel, 0, 0, 1
  {
    if fuel > 0 {
      match f
      case HostData(_) =>
      case HostFunction(_, _, _, _, _) => FunctionCallPreserves(w, f, sf, vs, svs, others, fuel);
      case HostRowFunction(_, _, _) => RowCallPreserves(w, f, sf, vs, svs, others, fuel);
    }
  }

  lemma {:induction false} FunctionCallPreserves(
    w: World, f: HostValue, sf: ServerValue, vs: seq<HostValue>, svs: seq<ServerValue>, others: Others, fuel: nat)
    requires f.HostFunction? && fuel > 0 && Same(f, sf, others) && SameAll(vs, svs, others)
    ensures SameResult(Invoke(w, f, vs, fuel), RunCall(w, sf, svs, fuel), others)
    decreases fuel, 0, 0, 0
  {
    hide Kept, Eval, Run;
    if |vs| == f.arity {
      var scope: seq<nat>, terms: seq<Term>, next: nat :|
        && |scope| == |f.env|
        && BuiltFrom(sf.body, f.body, f.defs, scope + sf.ids, terms, next, others)
        && (forall i :: 0 <= i < |f.env| ==> scope[i] in sf.env && Same(f.env[i], sf.env[scope[i]], others));
      BindKeepsScope(f.env, vs, scope, sf.ids, sf.env, svs, others);
      var one := f.arity == 1;
      BuildPreserves(w, f.body, f.defs, f.env + vs, if one then Some(vs[0]) else f.row, scope + sf.ids, terms, next,
                     Bind(sf.env, sf.ids, svs), if one then Some(svs[0]) else sf.row, others, fuel - 1);
    }
  }

  lemma {:induction false} RowCallPreserves(
    w: World, f: HostValue, sf: ServerValue, vs: seq<HostValue>, svs: seq<ServerValue>, others: Others, fuel: nat)
    requires f.HostRowFunction? && fuel > 0 && Same(f, sf, others) && SameAll(vs, svs, others)
    ensures SameResult(Invoke(w, f, vs, fuel), RunCall(w, sf, svs, fuel), others)
    decreases fuel, 0, 0, 0
  {
    hide Kept, Eval, Run;
    if |vs| == 1 {
      var scope: seq<nat>, terms: seq<Term>, next: nat :|
        && |scope| == |f.env| && sf.ids[0] !in scope
        && BuiltFrom(sf.body, f.body, f.defs, scope, terms, next, others)
        && (forall i :: 0 <= i < |f.env| ==> scope[i] in sf.env && Same(f.env[i], sf.env[scope[i]], others));
      assert Bind(sf.env, sf.ids, svs) == sf.env[sf.ids[0] := svs[0]];
      BuildPreserves(w, f.body, f.defs, f.env, Some(vs[0]), scope, terms, next,
                     Bind(sf.env, sf.ids, svs), Some(svs[0]), others, fuel - 1);
    }
  }

  lemma {:induction false} OperatorPreserves(
    w: World, op: Operator, vs: seq<HostValue>, svs: seq<ServerValue>, others: Others, fuel: nat)
    requires SameAll(vs, svs, others)
    ensures SameResult(Operate(w, op, vs, fuel), RunOperator(w, op, svs, fuel), others)
    decreases fuel, 0, 2, 0
  {
    match op
    case FunCall =>
      if vs != [] {
        CallPreserves(w, vs[0], svs[0], vs[1..], svs[1..], others, fuel);
      }
    case Map =>
      if |vs| == 2 && vs[0].HostData? && vs[0].d.List? {
        assert svs[0] == ServerData(vs[0].d);
        MapPreserves(w, vs[1], svs[1], vs[0].d.items, others, fuel);
      } else {
        assert |vs| == 2 ==> Same(vs[0], svs[0], others);
      }
    case Primitive(name) => PrimitivePreserves(w, name, vs, svs, others, fuel);
  }

  lemma PrimitivePreserves(w: World, name: string, vs: seq<HostValue>, svs: seq<ServerValue>, others: Others, fuel: nat)
    requires SameAll(vs, svs, others)
    ensures SameResult(Operate(w, Primitive(name), vs, fuel), RunOperator(w, Primitive(name), svs, fuel), others)
  {
    if forall i :: 0 <= i < |vs| ==> vs[i].HostData? {
      assert forall i :: 0 <= i < |vs| ==> Same(vs[i], svs[i], others) && svs[i] == ServerData(vs[i].d);
      assert seq(|vs|, i requires 0 <= i < |vs| => vs[i].d) == seq(|svs|, i requires 0 <= i < |svs| => svs[i].d);
    } else {
      var i :| 0 <= i < |vs| && !vs[i].HostData?;
      assert Same(vs[i], svs[i], others) && !svs[i].ServerData?;
    }
  }

  lemma {:induction false} MapPreserves(
    w: World, f: HostValue, sf: ServerValue, ds: seq<Datum>, others: Others, fuel: nat)
    requires Same(f, sf, others)
    ensures MapOver(w, f, ds, fuel) == RunMap(w, sf, ds, fuel)
    decreases fuel, 0, 1, |ds|
  {
    if ds != [] {
      CallPreserves(w, f, sf, [HostData(ds[0])], [ServerData(ds[0])], others, fuel);
      MapPreserves(w, f, sf, ds[1..], others, fuel);
    }
  }

  // ----- the promises about a whole query -----

  /**
   * The server gets from the term exactly the data the host program stands for, however other threads
   * draw ids in between, whatever the counter was and wherever query objects are used again.
   */
  lemma CompilingPreservesMeaning(w: World, e: Host, next: nat, others: Others, fuel: nat, d: Datum)
    requires Scoped(e, 0, 0)
    ensures Eval(w, e, [], [], None, fuel) == Some(HostData(d))
       <==> Run(w, Build(e, [], [], next, others).0, map[], None, fuel) == Some(ServerData(d))
  {
    BuildPreserves(w, e, [], [], None, [], [], next, map[], None, others, fuel);
  }

  function IdSet(ids: seq<nat>): set<nat> {
    set id | id in ids
  }

  /** Every variable of the term is bound by an enclosing function or is one of `ids`. */
  predicate ClosedIn(t: Term, ids: set<nat>) {
    match t
    case Const(_) => true
    case Var(id) => id in ids
    case ImplicitVar => true
    case Call(_, args) => AllClosedIn(args, ids)
    case Func(bound, body) => ClosedIn(body, ids + IdSet(bound))
  }

  predicate AllClosedIn(args: seq<Term>, ids: set<nat>) {
    args == [] || (ClosedIn(args[0], ids) && AllClosedIn(args[1..], ids))
  }

  lemma {:induction false} ClosedInMore(t: Term, ids: set<nat>, more: set<nat>)
    requires ClosedIn(t, ids) && ids <= more
    ensures ClosedIn(t, more)
    decreases t, 0
  {
    match t
    case Const(_) =>
    case Var(_) =>
    case ImplicitVar =>
    case Call(_, args) => AllClosedInMore(args, ids, more);
    case Func(bound, body) => ClosedInMore(body, ids + IdSet(bound), more + IdSet(bound));
  }

  lemma {:induction false} AllClosedInMore(args: seq<Term>, ids: set<nat>, more: set<nat>)
    requires AllClosedIn(args, ids) && ids <= more
    ensures AllClosedIn(args, more)
    decreases args, 0
  {
    if args != [] {
      ClosedInMore(args[0], ids, more);
      AllClosedInMore(args[1..], ids, more);
    }
  }

  predicate KeptClosed(terms: seq<Term>, ids: set<nat>) {
    forall i :: 0 <= i < |terms| ==> ClosedIn(terms[i], ids)
  }

  lemma KeptClosedInMore(terms: seq<Term>, ids: set<nat>, more: set<nat>)
    requires KeptClosed(terms, ids) && ids <= more
    ensures KeptClosed(terms, more)
  {
    forall i | 0 <= i < |terms| ensures ClosedIn(terms[i], more) {
      ClosedInMore(terms[i], ids, more);
    }
  }

  /** Every VAR of a built term is bound by an enclosing FUNC or is a parameter of the scope. */
  lemma {:induction false} BuiltTermIsClosed(e: Host, scope: seq<nat>, terms: seq<Term>, next: nat, others: Others)
    requires Scoped(e, |scope|, |terms|) && KeptClosed(terms, IdSet(scope))
    ensures ClosedIn(Build(e, scope, terms, next, others).0, IdSet(scope))
    decreases e, 0
  {
    match e
    case Lit(_) =>
    case Param(_) =>
    case Row =>
    case Apply(op, args) => AllBuiltTermsAreClosed(args, scope, terms, next, others);
    case Lambda(n, body) =>
      var (ids, next1) := TakeIds(n, next, others);
      assert IdSet(scope + ids) == IdSet(scope) + IdSet(ids);
      KeptClosedInMore(terms, IdSet(scope), IdSet(scope + ids));
      BuiltTermIsClosed(body, scope + ids, terms, next1, others);
    case Wrap(arg) =>
      BuiltTermIsClosed(arg, scope, terms, next, others);
      var (t, next1) := Build(arg, scope, terms, next, others);
      ClosedInMore(t, IdSet(scope), IdSet(scope) + IdSet(TakeIds(1, next1, others).0));
    case Let(bound, rest) =>
      BuiltTermIsClosed(bound, scope, terms, next, others);
      var (t, next1) := Build(bound, scope, terms, next, others);
      BuiltTermIsClosed(rest, scope, terms + [t], next1, others);
    case Shared(_) =>
  }

  lemma {:induction false} AllBuiltTermsAreClosed(
      args: seq<Host>, scope: seq<nat>, terms: seq<Term>, next: nat, others: Others)
    requires (forall i :: 0 <= i < |args| ==> Scoped(args[i], |scope|, |terms|)) && KeptClosed(terms, IdSet(scope))
    ensures AllClosedIn(BuildAll(args, scope, terms, next, others).0, IdSet(scope))
    decreases args, 0
  {
    if args != [] {
      var (t, next1) := Build(args[0], scope, terms, next, others);
      var ts := BuildAll(args[1..], scope, terms, next1, others).0;
      BuiltTermIsClosed(args[0], scope, terms, next, others);
      AllBuiltTermsAreClosed(args[1..], scope, terms, next1, others);
      assert ([t] + ts)[1..] == ts;
    }
  }
}
