/**
 * The ids a term binds: each is drawn once, and stands in the term as often as the query object it was
 * drawn for is used.
 */
module FunctionIds {
  import opened Functions
  import opened FunctionsProofs

  /** Every id a term binds, in the order of the text */
  function BoundIds(t: Term): seq<nat> {
    match t
    case Const(_) => []
    case Var(_) => []
    case ImplicitVar => []
    case Call(_, args) => BoundIdsOf(args)
    case Func(ids, body) => ids + BoundIds(body)
  }

  function BoundIdsOf(args: seq<Term>): seq<nat> {
    if args == [] then [] else BoundIds(args[0]) + BoundIdsOf(args[1..])
  }

  function Count(ids: seq<nat>, x: nat): nat {
    multiset(ids)[x]
  }

  /** How often a term binds `x` */
  function Binds(t: Term, x: nat): nat {
    multiset(BoundIds(t))[x]
  }

  function BindsOf(args: seq<Term>, x: nat): nat {
    multiset(BoundIdsOf(args))[x]
  }

  lemma BindsCons(t: Term, ts: seq<Term>, x: nat)
    ensures BindsOf([t] + ts, x) == Binds(t, x) + BindsOf(ts, x)
  {
    assert ([t] + ts)[1..] == ts;
  }

  lemma BindsFunc(ids: seq<nat>, body: Term, x: nat)
    ensures Binds(Func(ids, body), x) == Count(ids, x) + Binds(body, x)
  {
  }

  lemma {:induction false} DistinctCounts(ids: seq<nat>)
    ensures Distinct(ids) <==> forall x :: Count(ids, x) <= 1
  {
    if ids != [] {
      var front, last := ids[..|ids| - 1], ids[|ids| - 1];
      DistinctCounts(front);
      assert ids == front + [last];
      assert forall i :: 0 <= i < |front| ==> front[i] == ids[i];
      forall x ensures Count(ids, x) == Count(front, x) + if x == last then 1 else 0 {
      }
      assert last in front <==> Count(front, last) > 0;
      if Distinct(ids) {
        assert last !in front;
      } else if Distinct(front) {
        assert last in front;
        assert Count(ids, last) > 1;
      } else {
        var x :| Count(front, x) > 1;
        assert Count(ids, x) > 1;
      }
    }
  }

  // ----- how often an object kept stands in a term -----

  /** The copies in the term of `e` of something of which the objects kept hold `shared` copies each */
  function Copies(e: Host, shared: seq<nat>): nat
    decreases e, 0
  {
    match e
    case Apply(_, args) => CopiesInAll(args, shared)
    case Lambda(_, body) => Copies(body, shared)
    case Wrap(arg) => Copies(arg, shared)
    case Let(bound, rest) => Copies(rest, shared + [Copies(bound, shared)])
    case Shared(i) => if i < |shared| then shared[i] else 0
    case _ => 0
  }

  function CopiesInAll(args: seq<Host>, shared: seq<nat>): nat
    decreases args, 0
  {
    if args == [] then 0 else Copies(args[0], shared) + CopiesInAll(args[1..], shared)
  }

  function Zeros(n: nat): seq<nat> {
    seq(n, _ => 0)
  }

  /** Of the last object kept alone */
  function Uses(e: Host, before: nat): nat {
    Copies(e, Zeros(before) + [1])
  }

  predicate Scaled(a: seq<nat>, b: seq<nat>, c: nat) {
    |a| == |b| && forall i :: 0 <= i < |a| ==> a[i] == c * b[i]
  }

  /** Twice the copies to start with, twice the copies in the end */
  lemma {:induction false} CopiesScale(e: Host, a: seq<nat>, b: seq<nat>, c: nat)
    requires Scaled(a, b, c)
    ensures Copies(e, a) == c * Copies(e, b)
    decreases e, 0
  {
    match e
    case Apply(_, args) => CopiesInAllScale(args, a, b, c);
    case Lambda(_, body) => CopiesScale(body, a, b, c);
    case Wrap(arg) => CopiesScale(arg, a, b, c);
    case Let(bound, rest) =>
      CopiesScale(bound, a, b, c);
      CopiesScale(rest, a + [Copies(bound, a)], b + [Copies(bound, b)], c);
    case Shared(_) =>
    case _ =>
  }

  lemma {:induction false} CopiesInAllScale(args: seq<Host>, a: seq<nat>, b: seq<nat>, c: nat)
    requires Scaled(a, b, c)
    ensures CopiesInAll(args, a) == c * CopiesInAll(args, b)
    decreases args, 0
  {
    if args != [] {
      CopiesScale(args[0], a, b, c);
      CopiesInAllScale(args[1..], a, b, c);
      Distribute(c, Copies(args[0], b), CopiesInAll(args[1..], b));
    }
  }

  lemma Distribute(c: nat, x: nat, y: nat)
    ensures c * (x + y) == c * x + c * y
  {
  }

  function Counts(terms: seq<Term>, x: nat): (cs: seq<nat>)
    ensures |cs| == |terms|
  {
    seq(|terms|, i requires 0 <= i < |terms| => Binds(terms[i], x))
  }

  /** An id not drawn while a term was built stands in it as often as the objects used in it have it. */
  lemma {:induction false} CopiesCount(e: Host, scope: seq<nat>, terms: seq<Term>, next: nat, others: Others, x: nat)
    requires Scoped(e, |scope|, |terms|)
    requires x < next || Build(e, scope, terms, next, others).1 <= x
    ensures Binds(Build(e, scope, terms, next, others).0, x) == Copies(e, Counts(terms, x))
    decreases e, 0
  {
    hide Binds;
    match e
    case Lit(_) => BindsNothing(Build(e, scope, terms, next, others).0, x);
    case Param(_) => BindsNothing(Build(e, scope, terms, next, others).0, x);
    case Row => BindsNothing(Build(e, scope, terms, next, others).0, x);
    case Apply(op, args) =>
      CopiesCountInAll(args, scope, terms, next, others, x);
      BindsCall(op, BuildAll(args, scope, terms, next, others).0, x);
    case Lambda(n, body) =>
      var (ids, next1) := TakeIds(n, next, others);
      TakenIdsAreFresh(n, next, others);
      CopiesCount(body, scope + ids, terms, next1, others, x);
      BindsFunc(ids, Build(body, scope + ids, terms, next1, others).0, x);
    case Wrap(arg) =>
      var (t, next1) := Build(arg, scope, terms, next, others);
      CopiesCount(arg, scope, terms, next, others, x);
      TakenIdsAreFresh(1, next1, others);
      BindsFunc(TakeIds(1, next1, others).0, t, x);
    case Let(bound, rest) =>
      var (t, next1) := Build(bound, scope, terms, next, others);
      CopiesCount(bound, scope, terms, next, others, x);
      CopiesCount(rest, scope, terms + [t], next1, others, x);
      assert Counts(terms + [t], x) == Counts(terms, x) + [Binds(t, x)];
    case Shared(_) =>
  }

  lemma BindsNothing(t: Term, x: nat)
    requires t.Const? || t.Var? || t.ImplicitVar?
    ensures Binds(t, x) == 0
  {
  }

  lemma BindsCall(op: Operator, ts: seq<Term>, x: nat)
    ensures Binds(Call(op, ts), x) == BindsOf(ts, x)
  {
  }

  lemma {:induction false} CopiesCountInAll(
      args: seq<Host>, scope: seq<nat>, terms: seq<Term>, next: nat, others: Others, x: nat)
    requires forall i :: 0 <= i < |args| ==> Scoped(args[i], |scope|, |terms|)
    requires x < next || BuildAll(args, scope, terms, next, others).1 <= x
    ensures BindsOf(BuildAll(args, scope, terms, next, others).0, x) == CopiesInAll(args, Counts(terms, x))
    decreases args, 0
  {
    if args != [] {
      var (t, next1) := Build(args[0], scope, terms, next, others);
      CopiesCount(args[0], scope, terms, next, others, x);
      CopiesCountInAll(args[1..], scope, terms, next1, others, x);
      BindsCons(t, BuildAll(args[1..], scope, terms, next1, others).0, x);
    }
  }

  /** All ids in the objects kept were drawn before `next`. */
  ghost predicate Before(terms: seq<Term>, next: nat) {
    forall i, x :: 0 <= i < |terms| && next <= x ==> Binds(terms[i], x) == 0
  }

  lemma NothingFresh(e: Host, scope: seq<nat>, terms: seq<Term>, next: nat, others: Others, x: nat)
    requires Scoped(e, |scope|, |terms|) && Before(terms, next)
    requires Build(e, scope, terms, next, others).1 <= x
    ensures Binds(Build(e, scope, terms, next, others).0, x) == 0
  {
    CopiesCount(e, scope, terms, next, others, x);
    CopiesScale(e, Counts(terms, x), Counts(terms, x), 0);
  }

  // ----- which programs write functions, and which use them once -----

  /** A function with a parameter stands in the term; `ws` says in which of the objects kept one does. */
  predicate Writes(e: Host, ms: seq<bool>, ws: seq<bool>)
    decreases e, 0
  {
    match e
    case Apply(_, args) => AnyWrites(args, ms, ws)
    case Lambda(n, body) => n > 0 || Writes(body, ms, ws)
    case Wrap(arg) => MentionsRow(arg, ms) || Writes(arg, ms, ws)
    case Let(bound, rest) => Writes(rest, ms + [MentionsRow(bound, ms)], ws + [Writes(bound, ms, ws)])
    case Shared(i) => i < |ws| && ws[i]
    case _ => false
  }

  predicate AnyWrites(args: seq<Host>, ms: seq<bool>, ws: seq<bool>)
    decreases args, 0
  {
    args != [] && (Writes(args[0], ms, ws) || AnyWrites(args[1..], ms, ws))
  }

  function Nowhere(n: nat): seq<bool> {
    seq(n, _ => false)
  }

  /**
   * No query object with a function of its own is used more than once. What an object that is not used
   * at all does does not matter.
   */
  predicate UsesOnce(e: Host, ms: seq<bool>)
    decreases e, 0
  {
    match e
    case Apply(_, args) => AllUseOnce(args, ms)
    case Lambda(_, body) => UsesOnce(body, ms)
    case Wrap(arg) => UsesOnce(arg, ms)
    case Let(bound, rest) =>
      var uses := Uses(rest, |ms|);
      && (uses > 1 ==> !Writes(bound, ms, Nowhere(|ms|)))
      && (uses > 0 ==> UsesOnce(bound, ms))
      && UsesOnce(rest, ms + [MentionsRow(bound, ms)])
    case _ => true
  }

  predicate AllUseOnce(args: seq<Host>, ms: seq<bool>)
    decreases args, 0
  {
    args == [] || (UsesOnce(args[0], ms) && AllUseOnce(args[1..], ms))
  }

  /** The term binds an id drawn at `lo` or later. */
  ghost predicate FreshIn(t: Term, lo: nat) {
    exists x :: lo <= x && Binds(t, x) > 0
  }

  ghost predicate FreshInAny(ts: seq<Term>, lo: nat) {
    exists x :: lo <= x && BindsOf(ts, x) > 0
  }

  ghost predicate WritesAre(terms: seq<Term>, ws: seq<bool>, lo: nat) {
    |terms| == |ws| && forall i :: 0 <= i < |terms| ==> (ws[i] <==> FreshIn(terms[i], lo))
  }

  lemma FreshCons(t: Term, ts: seq<Term>, lo: nat)
    ensures FreshInAny([t] + ts, lo) <==> FreshIn(t, lo) || FreshInAny(ts, lo)
  {
    hide Binds, BindsOf;
    forall x ensures BindsOf([t] + ts, x) == Binds(t, x) + BindsOf(ts, x) {
      BindsCons(t, ts, x);
    }
  }

  lemma FreshFunc(ids: seq<nat>, body: Term, lo: nat)
    requires forall i :: 0 <= i < |ids| ==> lo <= ids[i]
    ensures FreshIn(Func(ids, body), lo) <==> ids != [] || FreshIn(body, lo)
  {
    hide Binds;
    forall x ensures Binds(Func(ids, body), x) == Count(ids, x) + Binds(body, x) {
      BindsFunc(ids, body, x);
    }
    if ids != [] {
      assert ids[0] in multiset(ids) && Binds(Func(ids, body), ids[0]) > 0;
    } else {
      assert forall x :: Count(ids, x) == 0;
    }
  }

  lemma {:induction false} WritesFresh(
    e: Host, scope: seq<nat>, terms: seq<Term>, ms: seq<bool>, ws: seq<bool>, next: nat, others: Others, lo: nat)
    requires Scoped(e, |scope|, |terms|) && Scans(terms, ms) && WritesAre(terms, ws, lo) && lo <= next
    ensures Writes(e, ms, ws) <==> FreshIn(Build(e, scope, terms, next, others).0, lo)
    decreases e, 0
  {
    hide FreshIn, FreshInAny, MentionsRow, IvarScan;
    match e
    case Lit(_) => NothingIsFresh(Build(e, scope, terms, next, others).0, lo);
    case Param(_) => NothingIsFresh(Build(e, scope, terms, next, others).0, lo);
    case Row => NothingIsFresh(Build(e, scope, terms, next, others).0, lo);
    case Apply(op, args) =>
      AnyWritesFresh(args, scope, terms, ms, ws, next, others, lo);
      FreshCall(op, BuildAll(args, scope, terms, next, others).0, lo);
    case Lambda(n, body) =>
      var (ids, next1) := TakeIds(n, next, others);
      TakenIdsAreFresh(n, next, others);
      WritesFresh(body, scope + ids, terms, ms, ws, next1, others, lo);
      FreshFunc(ids, Build(body, scope + ids, terms, next1, others).0, lo);
    case Wrap(arg) =>
      var (t, next1) := Build(arg, scope, terms, next, others);
      ScanAgrees(arg, scope, terms, ms, next, others);
      WritesFresh(arg, scope, terms, ms, ws, next, others, lo);
      TakenIdsAreFresh(1, next1, others);
      FreshFunc(TakeIds(1, next1, others).0, t, lo);
    case Let(bound, rest) =>
      var (t, next1) := Build(bound, scope, terms, next, others);
      ScanAgrees(bound, scope, terms, ms, next, others);
      WritesFresh(bound, scope, terms, ms, ws, next, others, lo);
      WritesFresh(
        rest, scope, terms + [t], ms + [MentionsRow(bound, ms)], ws + [Writes(bound, ms, ws)], next1, others, lo);
    case Shared(_) =>
  }

  lemma NothingIsFresh(t: Term, lo: nat)
    requires t.Const? || t.Var? || t.ImplicitVar?
    ensures !FreshIn(t, lo)
  {
  }

  lemma FreshCall(op: Operator, ts: seq<Term>, lo: nat)
    ensures FreshIn(Call(op, ts), lo) <==> FreshInAny(ts, lo)
  {
    hide Binds, BindsOf;
    forall x ensures Binds(Call(op, ts), x) == BindsOf(ts, x) {
      BindsCall(op, ts, x);
    }
  }

  lemma {:induction false} AnyWritesFresh(
    args: seq<Host>, scope: seq<nat>, terms: seq<Term>, ms: seq<bool>, ws: seq<bool>, next: nat, others: Others,
    lo: nat)
    requires forall i :: 0 <= i < |args| ==> Scoped(args[i], |scope|, |terms|)
    requires Scans(terms, ms) && WritesAre(terms, ws, lo) && lo <= next
    ensures AnyWrites(args, ms, ws) <==> FreshInAny(BuildAll(args, scope, terms, next, others).0, lo)
    decreases args, 0
  {
    if args != [] {
      hide FreshIn, FreshInAny;
      var (t, next1) := Build(args[0], scope, terms, next, others);
      WritesFresh(args[0], scope, terms, ms, ws, next, others, lo);
      AnyWritesFresh(args[1..], scope, terms, ms, ws, next1, others, lo);
      FreshCons(t, BuildAll(args[1..], scope, terms, next1, others).0, lo);
    }
  }

  // ----- the theorem -----

  /** No id drawn at `lo` or later is bound twice. */
  ghost predicate OnceFrom(t: Term, lo: nat) {
    forall x :: lo <= x ==> Binds(t, x) <= 1
  }

  ghost predicate AllOnceFrom(ts: seq<Term>, lo: nat) {
    forall x :: lo <= x ==> BindsOf(ts, x) <= 1
  }

  lemma BeforeCounts(terms: seq<Term>, next: nat, x: nat)
    requires Before(terms, next) && next <= x
    ensures Counts(terms, x) == Zeros(|terms|)
  {
  }

  lemma BeforeMore(terms: seq<Term>, e: Host, scope: seq<nat>, next: nat, others: Others)
    requires Scoped(e, |scope|, |terms|) && Before(terms, next)
    ensures var (t, next1) := Build(e, scope, terms, next, others); Before(terms + [t], next1)
  {
    var (t, next1) := Build(e, scope, terms, next, others);
    forall i, x | 0 <= i < |terms| + 1 && next1 <= x ensures Binds((terms + [t])[i], x) == 0 {
      if i == |terms| {
        NothingFresh(e, scope, terms, next, others, x);
      }
    }
  }

  /** An id drawn for an object kept is bound once for each use of the object. */
  lemma CountOfKept(
    e: Host, scope: seq<nat>, terms: seq<Term>, t: Term, next: nat, next1: nat, others: Others, x: nat)
    requires Scoped(e, |scope|, |terms| + 1) && Before(terms, next) && next <= x < next1
    ensures Binds(Build(e, scope, terms + [t], next1, others).0, x) == Binds(t, x) * Uses(e, |terms|)
  {
    hide Binds;
    CopiesCount(e, scope, terms + [t], next1, others, x);
    BeforeCounts(terms, next, x);
    assert Counts(terms + [t], x) == Zeros(|terms|) + [Binds(t, x)];
    CopiesScale(e, Counts(terms + [t], x), Zeros(|terms|) + [1], Binds(t, x));
  }

  lemma {:induction false} OnceExactly(
    e: Host, scope: seq<nat>, terms: seq<Term>, ms: seq<bool>, next: nat, others: Others)
    requires Scoped(e, |scope|, |terms|) && Scans(terms, ms) && Before(terms, next)
    ensures UsesOnce(e, ms) <==> OnceFrom(Build(e, scope, terms, next, others).0, next)
    decreases e, 1
  {
    hide Binds, BindsOf, MentionsRow, OnceFrom, AllOnceFrom, Before, Scans, Uses;
    match e
    case Lit(_) => NothingTwice(Build(e, scope, terms, next, others).0, next);
    case Param(_) => NothingTwice(Build(e, scope, terms, next, others).0, next);
    case Row => NothingTwice(Build(e, scope, terms, next, others).0, next);
    case Apply(op, args) =>
      AllOnceExactly(args, scope, terms, ms, next, others);
      OnceCall(op, BuildAll(args, scope, terms, next, others).0, next);
    case Lambda(n, body) =>
      var (ids, next1) := TakeIds(n, next, others);
      TakenIdsAreFresh(n, next, others);
      BeforeLater(terms, next, next1);
      OnceExactly(body, scope + ids, terms, ms, next1, others);
      OnceFunction(ids, body, scope + ids, terms, next, next1, next1, others);
    case Wrap(arg) =>
      var (t, next1) := Build(arg, scope, terms, next, others);
      OnceExactly(arg, scope, terms, ms, next, others);
      TakenIdsAreFresh(1, next1, others);
      OnceWrapped(arg, scope, terms, next, others);
    case Let(bound, rest) => OnceLet(e, scope, terms, ms, next, others);
    case Shared(i) => KeptOnce(terms, i, next);
  }

  lemma NothingTwice(t: Term, lo: nat)
    requires t.Const? || t.Var? || t.ImplicitVar?
    ensures OnceFrom(t, lo)
  {
  }

  lemma KeptOnce(terms: seq<Term>, i: nat, next: nat)
    requires i < |terms| && Before(terms, next)
    ensures OnceFrom(terms[i], next)
  {
  }

  lemma OnceCall(op: Operator, ts: seq<Term>, lo: nat)
    ensures OnceFrom(Call(op, ts), lo) <==> AllOnceFrom(ts, lo)
  {
    hide Binds, BindsOf;
    forall x ensures Binds(Call(op, ts), x) == BindsOf(ts, x) {
      BindsCall(op, ts, x);
    }
  }

  lemma BeforeLater(terms: seq<Term>, next: nat, after: nat)
    requires Before(terms, next) && next <= after
    ensures Before(terms, after)
  {
  }

  /** The ids of a function are bound nowhere in its body. */
  lemma OnceFunction(
    ids: seq<nat>, body: Host, scope: seq<nat>, terms: seq<Term>, next: nat, mid: nat, next1: nat, others: Others)
    requires Scoped(body, |scope|, |terms|) && Before(terms, next) && next <= mid == next1
    requires Distinct(ids) && Within(ids, next, mid)
    ensures var t := Build(body, scope, terms, next1, others).0;
            OnceFrom(Func(ids, t), next) <==> OnceFrom(t, next1)
  {
    hide Binds;
    var t := Build(body, scope, terms, next1, others).0;
    DistinctCounts(ids);
    forall x: nat | next <= x
      ensures Binds(Func(ids, t), x) == Count(ids, x) + Binds(t, x)
      ensures x < next1 ==> Binds(t, x) == 0
      ensures next1 <= x ==> Count(ids, x) == 0
    {
      BindsFunc(ids, t, x);
      if x < next1 {
        CopiesCount(body, scope, terms, next1, others, x);
        CopiesScale(body, Counts(terms, x), Counts(terms, x), 0);
      }
    }
  }

  lemma OnceWrapped(arg: Host, scope: seq<nat>, terms: seq<Term>, next: nat, others: Others)
    requires Scoped(arg, |scope|, |terms|) && Before(terms, next)
    ensures var (t, next1) := Build(arg, scope, terms, next, others);
            OnceFrom(FuncWrap(t, next1, others).0, next) <==> OnceFrom(t, next)
  {
    hide Binds;
    var (t, next1) := Build(arg, scope, terms, next, others);
    var ids := TakeIds(1, next1, others).0;
    TakenIdsAreFresh(1, next1, others);
    DistinctCounts(ids);
    forall x: nat | next <= x
      ensures Binds(Func(ids, t), x) == Count(ids, x) + Binds(t, x)
      ensures next1 <= x ==> Binds(t, x) == 0
      ensures x < next1 ==> Count(ids, x) == 0
    {
      BindsFunc(ids, t, x);
      if next1 <= x {
        NothingFresh(arg, scope, terms, next, others, x);
      }
    }
  }

  lemma {:induction false} AllOnceExactly(
    args: seq<Host>, scope: seq<nat>, terms: seq<Term>, ms: seq<bool>, next: nat, others: Others)
    requires forall i :: 0 <= i < |args| ==> Scoped(args[i], |scope|, |terms|)
    requires Scans(terms, ms) && Before(terms, next)
    ensures AllUseOnce(args, ms) <==> AllOnceFrom(BuildAll(args, scope, terms, next, others).0, next)
    decreases args, 1
  {
    if args != [] {
      hide Binds, BindsOf, Before, Scans, UsesOnce;
      var (t, next1) := Build(args[0], scope, terms, next, others);
      var ts := BuildAll(args[1..], scope, terms, next1, others).0;
      BeforeLater(terms, next, next1);
      OnceExactly(args[0], scope, terms, ms, next, others);
      AllOnceExactly(args[1..], scope, terms, ms, next1, others);
      forall x: nat | next <= x
        ensures BindsOf([t] + ts, x) == Binds(t, x) + BindsOf(ts, x)
        ensures next1 <= x ==> Binds(t, x) == 0
        ensures x < next1 ==> BindsOf(ts, x) == 0
      {
        BindsCons(t, ts, x);
        if next1 <= x {
          NothingFresh(args[0], scope, terms, next, others, x);
        } else {
          CopiesCountInAll(args[1..], scope, terms, next1, others, x);
          BeforeCounts(terms, next, x);
          CopiesInAllScale(args[1..], Counts(terms, x), Counts(terms, x), 0);
        }
      }
    }
  }

  lemma {:induction false} OnceLet(
    e: Host, scope: seq<nat>, terms: seq<Term>, ms: seq<bool>, next: nat, others: Others)
    requires e.Let? && Scoped(e, |scope|, |terms|) && Scans(terms, ms) && Before(terms, next)
    ensures UsesOnce(e, ms) <==> OnceFrom(Build(e, scope, terms, next, others).0, next)
    decreases e, 0
  {
    hide Binds, MentionsRow, Before, Uses;
    var (t, next1) := Build(e.bound, scope, terms, next, others);
    var whole := Build(e.rest, scope, terms + [t], next1, others).0;
    var uses := Uses(e.rest, |ms|);
    ScanAgrees(e.bound, scope, terms, ms, next, others);
    BeforeMore(terms, e.bound, scope, next, others);
    OnceExactly(e.bound, scope, terms, ms, next, others);
    OnceExactly(e.rest, scope, terms + [t], ms + [MentionsRow(e.bound, ms)], next1, others);
    NowhereFresh(terms, next);
    WritesFresh(e.bound, scope, terms, ms, Nowhere(|ms|), next, others, next);
    forall x: nat | next <= x
      ensures x < next1 ==> Binds(whole, x) == Binds(t, x) * uses
      ensures next1 <= x ==> Binds(t, x) == 0
    {
      if x < next1 {
        CountOfKept(e.rest, scope, terms, t, next, next1, others, x);
      } else {
        NothingFresh(e.bound, scope, terms, next, others, x);
      }
    }
    OnceInParts(whole, t, uses, next, next1);
  }

  lemma NowhereFresh(terms: seq<Term>, next: nat)
    requires Before(terms, next)
    ensures WritesAre(terms, Nowhere(|terms|), next)
  {
  }

  /** The ids drawn for an object and those drawn after it, when the object is used so often */
  lemma OnceInParts(whole: Term, t: Term, uses: nat, next: nat, next1: nat)
    requires next <= next1
    requires forall x :: next <= x < next1 ==> Binds(whole, x) == Binds(t, x) * uses
    requires forall x :: next1 <= x ==> Binds(t, x) == 0
    ensures OnceFrom(whole, next) <==>
              && OnceFrom(whole, next1)
              && (uses > 1 ==> !FreshIn(t, next)) && (uses > 0 ==> OnceFrom(t, next))
  {
    hide Binds;
    forall x | next <= x < next1
      ensures Binds(whole, x) <= 1 <==> (uses > 1 ==> Binds(t, x) == 0) && (uses > 0 ==> Binds(t, x) <= 1)
    {
      AtMostOnce(Binds(t, x), uses);
    }
  }

  lemma AtMostOnce(b: nat, uses: nat)
    ensures b * uses <= 1 <==> (uses > 1 ==> b == 0) && (uses > 0 ==> b <= 1)
  {
    if uses > 1 && b > 0 {
      assert b * uses >= uses;
    } else if uses == 1 {
      assert b * uses == b;
    } else if uses == 0 || b == 0 {
      assert b * uses == 0;
    }
  }

  /**
   * The ids bound in a query are pairwise distinct if and only if no query object with a function in it
   * is used more than once.
   */
  lemma BoundIdsDistinctExactly(e: Host, next: nat, others: Others)
    requires Scoped(e, 0, 0)
    ensures Distinct(BoundIds(Build(e, [], [], next, others).0)) <==> UsesOnce(e, [])
  {
    var t := Build(e, [], [], next, others).0;
    OnceExactly(e, [], [], [], next, others);
    DistinctCounts(BoundIds(t));
    forall x: nat | x < next ensures Binds(t, x) == 0 {
      CopiesCount(e, [], [], next, others, x);
      CopiesScale(e, [], [], 0);
      assert Counts([], x) == [];
    }
    assert forall x :: Binds(t, x) == Count(BoundIds(t), x);
  }

  /** A function used twice, in one array: its id is bound twice, though it was drawn once. */
  function FunctionTwice(): Host {
    Let(Lambda(1, PlusOne()), Apply(Primitive("make_array"), [Shared(0), Shared(0)]))
  }

  function PlusOne(): Host {
    Apply(Primitive("add"), [Param(0), Lit(Scalar(1))])
  }

  lemma BuildPair(a: Host, b: Host, scope: seq<nat>, terms: seq<Term>, next: nat, others: Others)
    requires Scoped(a, |scope|, |terms|) && Scoped(b, |scope|, |terms|)
    ensures var (t, mid) := Build(a, scope, terms, next, others);
            var (u, after) := Build(b, scope, terms, mid, others);
            BuildAll([a, b], scope, terms, next, others) == ([t, u], after)
    ensures var (t, mid) := Build(a, scope, terms, next, others);
            var u := Build(b, scope, terms, mid, others).0;
            BoundIdsOf([t, u]) == BoundIds(t) + BoundIds(u)
  {
    var (t, mid) := Build(a, scope, terms, next, others);
    var (u, after) := Build(b, scope, terms, mid, others);
    assert [a, b][1..] == [b] && [b][1..] == [] && [u] + [] == [u] && [t] + [u] == [t, u];
    assert BuildAll([], scope, terms, after, others) == ([], after);
    assert BuildAll([b], scope, terms, mid, others) == ([u], after);
    assert [t, u][1..] == [u] && [u][1..] == [];
    assert BoundIdsOf([]) == [];
    assert BoundIds(u) + [] == BoundIds(u) && BoundIdsOf([u]) == BoundIds(u);
  }

  lemma PlusOneFunction(next: nat, others: Others)
    ensures var id := next + others(next);
            var (f, after) := Build(Lambda(1, PlusOne()), [], [], next, others);
            after == id + 1 && BoundIds(f) == [id]
  {
    var id := next + others(next);
    assert [] + [id] == [id] && [id] + [] == [id];
    assert TakeIds(0, id + 1, others) == ([], id + 1);
    assert TakeIds(1, next, others) == ([id], id + 1);
    BuildPair(Param(0), Lit(Scalar(1)), [id], [], id + 1, others);
  }

  lemma FunctionUsedTwice(next: nat, others: Others)
    ensures Scoped(FunctionTwice(), 0, 0) && !UsesOnce(FunctionTwice(), [])
    ensures var id := next + others(next);
            BoundIds(Build(FunctionTwice(), [], [], next, others).0) == [id, id]
  {
    hide PlusOne, UsesOnce;
    PlusOneScoped();
    var (f, after) := Build(Lambda(1, PlusOne()), [], [], next, others);
    PlusOneFunction(next, others);
    assert [] + [f] == [f];
    BuildPair(Shared(0), Shared(0), [], [f], after, others);
    var ids := BoundIds(Build(FunctionTwice(), [], [], next, others).0);
    assert ids == [next + others(next), next + others(next)] && ids[0] == ids[1];
    BoundIdsDistinctExactly(FunctionTwice(), next, others);
  }

  lemma PlusOneScoped()
    ensures Scoped(Lambda(1, PlusOne()), 0, 0)
  {
  }

  // ----- what always holds -----

  /** The ids of each FUNC differ from each other, from `outer` and from those of the FUNCs around it. */
  predicate WellNested(t: Term, outer: set<nat>)
    decreases t
  {
    match t
    case Call(_, args) => AllWellNested(args, outer)
    case Func(ids, body) => Distinct(ids) && IdSet(ids) !! outer && WellNested(body, outer + IdSet(ids))
    case _ => true
  }

  predicate AllWellNested(args: seq<Term>, outer: set<nat>)
    decreases args
  {
    args == [] || (WellNested(args[0], outer) && AllWellNested(args[1..], outer))
  }

  lemma {:induction false} WellNestedInMore(t: Term, outer: set<nat>, more: set<nat>)
    requires WellNested(t, outer) && forall x :: x in more ==> Binds(t, x) == 0
    ensures WellNested(t, outer + more)
    decreases t, 0
  {
    match t
    case Call(_, args) => AllWellNestedInMore(args, outer, more);
    case Func(ids, body) =>
      forall x | x in more ensures x !in ids && Binds(body, x) == 0 {
        BindsFunc(ids, body, x);
        assert x in ids ==> x in multiset(ids);
      }
      WellNestedInMore(body, outer + IdSet(ids), more);
      assert outer + IdSet(ids) + more == outer + more + IdSet(ids);
    case _ =>
  }

  lemma {:induction false} AllWellNestedInMore(args: seq<Term>, outer: set<nat>, more: set<nat>)
    requires AllWellNested(args, outer) && forall x :: x in more ==> BindsOf(args, x) == 0
    ensures AllWellNested(args, outer + more)
    decreases args, 0
  {
    if args != [] {
      forall x | x in more ensures Binds(args[0], x) == 0 && BindsOf(args[1..], x) == 0 {
        BindsCons(args[0], args[1..], x);
        assert [args[0]] + args[1..] == args;
      }
      WellNestedInMore(args[0], outer, more);
      AllWellNestedInMore(args[1..], outer, more);
    }
  }

  predicate KeptWellNested(terms: seq<Term>) {
    forall i :: 0 <= i < |terms| ==> WellNested(terms[i], {})
  }

  lemma FunctionIsWellNested(ids: seq<nat>, t: Term)
    requires Distinct(ids) && WellNested(t, {}) && forall x :: x in ids ==> Binds(t, x) == 0
    ensures WellNested(Func(ids, t), {})
  {
    WellNestedInMore(t, {}, IdSet(ids));
  }

  /** However objects are used again: no FUNC stands inside another FUNC with one of its ids. */
  lemma {:induction false} BuiltIsWellNested(e: Host, scope: seq<nat>, terms: seq<Term>, next: nat, others: Others)
    requires Scoped(e, |scope|, |terms|) && Before(terms, next) && KeptWellNested(terms)
    ensures WellNested(Build(e, scope, terms, next, others).0, {})
    decreases e, 0
  {
    hide Binds, Before;
    match e
    case Lit(_) =>
    case Param(_) =>
    case Row =>
    case Apply(op, args) => AllBuiltAreWellNested(args, scope, terms, next, others);
    case Lambda(n, body) =>
      var (ids, next1) := TakeIds(n, next, others);
      var t := Build(body, scope + ids, terms, next1, others).0;
      TakenIdsAreFresh(n, next, others);
      BeforeLater(terms, next, next1);
      BuiltIsWellNested(body, scope + ids, terms, next1, others);
      forall x | x in ids ensures Binds(t, x) == 0 {
        CopiesCount(body, scope + ids, terms, next1, others, x);
        BeforeCounts(terms, next, x);
        CopiesScale(body, Counts(terms, x), Counts(terms, x), 0);
      }
      FunctionIsWellNested(ids, t);
    case Wrap(arg) =>
      var (t, next1) := Build(arg, scope, terms, next, others);
      var ids := TakeIds(1, next1, others).0;
      TakenIdsAreFresh(1, next1, others);
      BuiltIsWellNested(arg, scope, terms, next, others);
      forall x | x in ids ensures Binds(t, x) == 0 {
        NothingFresh(arg, scope, terms, next, others, x);
      }
      FunctionIsWellNested(ids, t);
    case Let(bound, rest) =>
      var (t, next1) := Build(bound, scope, terms, next, others);
      BuiltIsWellNested(bound, scope, terms, next, others);
      BeforeMore(terms, bound, scope, next, others);
      BuiltIsWellNested(rest, scope, terms + [t], next1, others);
    case Shared(_) =>
  }

  lemma {:induction false} AllBuiltAreWellNested(
      args: seq<Host>, scope: seq<nat>, terms: seq<Term>, next: nat, others: Others)
    requires forall i :: 0 <= i < |args| ==> Scoped(args[i], |scope|, |terms|)
    requires Before(terms, next) && KeptWellNested(terms)
    ensures AllWellNested(BuildAll(args, scope, terms, next, others).0, {})
    decreases args, 0
  {
    if args != [] {
      var (t, next1) := Build(args[0], scope, terms, next, others);
      var ts := BuildAll(args[1..], scope, terms, next1, others).0;
      BeforeLater(terms, next, next1);
      BuiltIsWellNested(args[0], scope, terms, next, others);
      AllBuiltAreWellNested(args[1..], scope, terms, next1, others);
      assert ([t] + ts)[1..] == ts;
    }
  }
}
