/** `Func.__init__` and the term constructors of rethinkdb/ast.py with their shared counter. */
module FuncTerms {
  import opened Functions

  class VarIds {
    const others: Others
    var nextVarId: nat

    constructor (others: Others)
      ensures nextVarId == 1 && this.others == others
    {
      this.others := others;
      nextVarId := 1;
    }

    /** One id per parameter, each drawn under the lock */
    method Draw(n: nat) returns (ids: seq<nat>)
      modifies this
      ensures (ids, nextVarId) == TakeIds(n, old(nextVarId), others)
    {
      ids := [];
      assert [] + TakeIds(n, nextVarId, others).0 == TakeIds(n, nextVarId, others).0;
      for i := 0 to n
        invariant (ids + TakeIds(n - i, nextVarId, others).0, TakeIds(n - i, nextVarId, others).1)
               == TakeIds(n, old(nextVarId), others)
      {
        var found := nextVarId + others(nextVarId);
        assert ids + ([found] + TakeIds(n - i - 1, found + 1, others).0)
            == ids + [found] + TakeIds(n - i - 1, found + 1, others).0;
        nextVarId := found + 1;
        ids := ids + [found];
      }
      assert ids + [] == ids;
    }

    /** Run a host program: what it builds, and where it leaves the counter. */
    method Construct(e: Host, scope: seq<nat>, terms: seq<Term>) returns (t: Term)
      requires Scoped(e, |scope|, |terms|)
      modifies this
      ensures (t, nextVarId) == Build(e, scope, terms, old(nextVarId), others)
      decreases e, 0
    {
      match e {
        case Lit(d) => t := Const(d);
        case Param(i) => t := Var(scope[i]);
        case Row => t := ImplicitVar;
        case Apply(op, args) =>
          var ts := ConstructAll(args, scope, terms);
          t := Call(op, ts);
        case Lambda(n, body) =>
          var ids := Draw(n);
          var inner := Construct(body, scope + ids, terms);
          t := Func(ids, inner);
        case Wrap(arg) =>
          t := Construct(arg, scope, terms);
          if IvarScan(t) {
            var ids := Draw(1);
            t := Func(ids, t);
          }
        case Let(bound, rest) =>
          var kept := Construct(bound, scope, terms);
          t := Construct(rest, scope, terms + [kept]);
        case Shared(i) => t := terms[i];
      }
    }

    method ConstructAll(args: seq<Host>, scope: seq<nat>, terms: seq<Term>) returns (ts: seq<Term>)
      requires forall i :: 0 <= i < |args| ==> Scoped(args[i], |scope|, |terms|)
      modifies this
      ensures (ts, nextVarId) == BuildAll(args, scope, terms, old(nextVarId), others)
      decreases args, 0
    {
      if args == [] {
        return [];
      }
      var t := Construct(args[0], scope, terms);
      var rest := ConstructAll(args[1..], scope, terms);
      ts := [t] + rest;
    }
  }
}
