/**
  Properties of the query-construction engine: alias derivation, AND/OR/NOT
  shapes, parameter order, join construction, the last-join override,
  subquery correlation and the assembled SELECT.
 */
module BuilderProps {

  import opened Wrappers
  import opened Strings
  import opened Ast
  import opened BuildState
  import opened Builder

  // ---------------------------------------------------------------------
  // Aliases

  /** The documented alias shapes of `CurrentAlias`. */
  lemma CurrentAliasShapes()
    ensures CurrentAlias([]) == ""
    ensures CurrentAlias(["post"]) == "post"
    ensures CurrentAlias(["post", "tags"]) == "tags"
    ensures CurrentAlias(["user", "posts", "tags"]) == "posts_tags"
  {
  }

  /**
    Path-derived aliases are not unique: `[user, a_b]` and `[user, a, b]`
    give the same alias, so uniqueness is not a property of the code.
   */
  lemma AliasCollision()
    ensures CurrentAlias(["user", "a_b"]) == CurrentAlias(["user", "a", "b"])
  {
  }

  // ---------------------------------------------------------------------
  // Evaluating a list of predicates left to right

  /** Evaluates predicates in order, threading the state; one expression per predicate. */
  function EvalAll<V>(s: State<V>, preds: seq<Pred<V>>): (r: (State<V>, seq<Expr>))
    ensures |r.1| == |preds|
    ensures OnlyParamsChanged(s, r.0) && s.params <= r.0.params
    decreases preds
  {
    if |preds| == 0 then (s, [])
    else
      var head := EvalPred(s, preds[0]);
      var rest := EvalAll(head.0, preds[1..]);
      (rest.0, [head.1] + rest.1)
  }

  predicate AllCompares<V>(preds: seq<Pred<V>>) {
    forall i :: 0 <= i < |preds| ==> preds[i].Compare?
  }

  function ValuesOf<V>(preds: seq<Pred<V>>): (r: seq<V>)
    requires AllCompares(preds)
    ensures |r| == |preds|
    ensures forall i :: 0 <= i < |preds| ==> r[i] == preds[i].value
  {
    seq(|preds|, i requires 0 <= i < |preds| => preds[i].value)
  }

  /** A single comparison: one value appended, compared at the current alias. */
  lemma EvalCompare<V>(s: State<V>, p: Pred<V>)
    requires p.Compare?
    ensures EvalPred(s, p) ==
            (s.(params := s.params + [p.value]),
             BinaryExpr(p.op, PathExpr(CurrentAlias(s.path), p.column), ParamExpr(ParamName(|s.params|))))
  {
  }

  /** A run of comparisons, one step: the head's comparison, then the rest from the extended state. */
  lemma EvalAllCompareCons<V>(s: State<V>, preds: seq<Pred<V>>)
    requires |preds| > 0 && AllCompares(preds)
    ensures AllCompares(preds[1..])
    ensures var s1 := s.(params := s.params + [preds[0].value]);
            var e := BinaryExpr(preds[0].op, PathExpr(CurrentAlias(s.path), preds[0].column),
                                ParamExpr(ParamName(|s.params|)));
            EvalAll(s, preds) == (EvalAll(s1, preds[1..]).0, [e] + EvalAll(s1, preds[1..]).1)
  {
    EvalCompare(s, preds[0]);
    var rest := preds[1..];
    forall i | 0 <= i < |rest| ensures rest[i].Compare? {
      assert rest[i] == preds[i + 1];
    }
  }

  /** Comparisons evaluated in order append their values in order. */
  lemma {:induction false} EvalAllComparesParams<V>(s: State<V>, preds: seq<Pred<V>>)
    requires AllCompares(preds)
    ensures EvalAll(s, preds).0.params == s.params + ValuesOf(preds)
    decreases preds
  {
    if |preds| > 0 {
      EvalAllCompareCons(s, preds);
      var s1 := s.(params := s.params + [preds[0].value]);
      EvalAllComparesParams(s1, preds[1..]);
      ValuesOfCons(preds);
      AppendOne(s.params, preds[0].value, ValuesOf(preds[1..]));
    }
  }

  lemma AppendOne<V>(xs: seq<V>, v: V, ys: seq<V>)
    ensures (xs + [v]) + ys == xs + ([v] + ys)
  {
  }

  lemma ValuesOfCons<V>(preds: seq<Pred<V>>)
    requires |preds| > 0 && AllCompares(preds) && AllCompares(preds[1..])
    ensures ValuesOf(preds) == [preds[0].value] + ValuesOf(preds[1..])
  {
    assert forall i :: 0 <= i < |preds| - 1 ==> preds[1..][i] == preds[i + 1];
  }

  /** The k-th of a run of comparisons tests `alias.column` against parameter `p<old length + k>`. */
  lemma EvalAllComparesExprs<V>(s: State<V>, preds: seq<Pred<V>>)
    requires AllCompares(preds)
    ensures var es := EvalAll(s, preds).1;
            forall k :: 0 <= k < |preds| ==>
              es[k] == BinaryExpr(preds[k].op, PathExpr(CurrentAlias(s.path), preds[k].column),
                                  ParamExpr(ParamName(|s.params| + k)))
  {
    forall k | 0 <= k < |preds|
      ensures EvalAll(s, preds).1[k] ==
              BinaryExpr(preds[k].op, PathExpr(CurrentAlias(s.path), preds[k].column),
                         ParamExpr(ParamName(|s.params| + k)))
    {
      EvalAllCompareAt(s, preds, k);
      assert CompareExpr(CurrentAlias(s.path), |s.params|, preds[k], k) ==
             BinaryExpr(preds[k].op, PathExpr(CurrentAlias(s.path), preds[k].column),
                        ParamExpr(ParamName(|s.params| + k)));
    }
  }

  /** The expression the k-th comparison of a run yields, starting at parameter `base`. */
  function CompareExpr<V>(alias: string, base: nat, p: Pred<V>, k: nat): Expr
    requires p.Compare?
  {
    BinaryExpr(p.op, PathExpr(alias, p.column), ParamExpr(ParamName(base + k)))
  }

  lemma {:induction false} EvalAllCompareAt<V>(s: State<V>, preds: seq<Pred<V>>, k: nat)
    requires AllCompares(preds) && k < |preds|
    ensures EvalAll(s, preds).1[k] == CompareExpr(CurrentAlias(s.path), |s.params|, preds[k], k)
    decreases k
  {
    if k == 0 {
      EvalAllCompareHead(s, preds);
    } else {
      EvalAllShift(s, preds, k);
      EvalAllCompareAt(Advance(s, preds[0]), preds[1..], k - 1);
      CompareExprShift(CurrentAlias(s.path), |s.params|, preds[k], k);
    }
  }

  lemma EvalAllCompareHead<V>(s: State<V>, preds: seq<Pred<V>>)
    requires AllCompares(preds) && 0 < |preds|
    ensures EvalAll(s, preds).1[0] == CompareExpr(CurrentAlias(s.path), |s.params|, preds[0], 0)
  {
    EvalAllCompareCons(s, preds);
  }

  lemma CompareExprShift<V>(alias: string, base: nat, p: Pred<V>, k: nat)
    requires p.Compare? && k > 0
    ensures CompareExpr(alias, base + 1, p, k - 1) == CompareExpr(alias, base, p, k)
  {
    assert base + 1 + (k - 1) == base + k;
  }

  /** The state after one comparison of a run. */
  function Advance<V>(s: State<V>, p: Pred<V>): State<V>
    requires p.Compare?
  {
    s.(params := s.params + [p.value])
  }

  /** Past the head, the run's k-th expression is the rest's (k-1)-th, from the advanced state. */
  lemma EvalAllShift<V>(s: State<V>, preds: seq<Pred<V>>, k: nat)
    requires AllCompares(preds) && 0 < k < |preds|
    ensures AllCompares(preds[1..]) && preds[1..][k - 1] == preds[k]
    ensures CurrentAlias(Advance(s, preds[0]).path) == CurrentAlias(s.path)
    ensures |Advance(s, preds[0]).params| == |s.params| + 1
    ensures EvalAll(s, preds).1[k] == EvalAll(Advance(s, preds[0]), preds[1..]).1[k - 1]
  {
    EvalAllCompareCons(s, preds);
    var e := BinaryExpr(preds[0].op, PathExpr(CurrentAlias(s.path), preds[0].column),
                        ParamExpr(ParamName(|s.params|)));
    ConsIndex(e, EvalAll(Advance(s, preds[0]), preds[1..]).1, k);
    SliceIndex(preds, k);
  }

  // ---------------------------------------------------------------------
  // And / Or

  lemma {:induction false} CombineRestThreadsLikeEvalAll<V>(s: State<V>, op: BinaryOp, preds: seq<Pred<V>>, left: Expr)
    ensures CombineRest(s, op, preds, left).0 == EvalAll(s, preds).0
    decreases preds
  {
    if |preds| > 0 {
      var (s1, right) := EvalPred(s, preds[0]);
      CombineRestThreadsLikeEvalAll(s1, op, preds[1..], ParenExpr(BinaryExpr(op, left, right)));
    }
  }

  /** `And` / `Or` evaluate their options, and append their parameters, left to right. */
  lemma CombineThreadsLikeEvalAll<V>(s: State<V>, op: BinaryOp, preds: seq<Pred<V>>)
    ensures Combine(s, op, preds).0 == EvalAll(s, preds).0
  {
    if |preds| > 0 {
      var (s1, first) := EvalPred(s, preds[0]);
      CombineRestThreadsLikeEvalAll(s1, op, preds[1..], first);
    }
  }

  lemma {:induction false} CombineRestSnoc<V>(s: State<V>, op: BinaryOp, preds: seq<Pred<V>>, left: Expr, last: Pred<V>)
    ensures var (s1, e1) := CombineRest(s, op, preds, left);
            var (s2, e2) := EvalPred(s1, last);
            CombineRest(s, op, preds + [last], left) == (s2, ParenExpr(BinaryExpr(op, e1, e2)))
    decreases preds
  {
    if |preds| == 0 {
      assert preds + [last] == [last];
      assert ([last])[1..] == [];
    } else {
      var (s1, right) := EvalPred(s, preds[0]);
      assert (preds + [last])[0] == preds[0];
      assert (preds + [last])[1..] == preds[1..] + [last];
      CombineRestSnoc(s1, op, preds[1..], ParenExpr(BinaryExpr(op, left, right)), last);
    }
  }

  /**
    `And` / `Or` shapes: no options give nothing, one option gives its own
    expression unwrapped, and n >= 2 options give the (n-1)-option result and
    the last expression under one parenthesised binary node.
   */
  lemma CombineShape<V>(s: State<V>, op: BinaryOp, preds: seq<Pred<V>>)
    ensures |preds| == 0 ==> Combine(s, op, preds) == (s, NilExpr)
    ensures |preds| == 1 ==> Combine(s, op, preds) == EvalPred(s, preds[0])
    ensures |preds| >= 2 ==>
              var (s1, e1) := Combine(s, op, preds[..|preds| - 1]);
              var (s2, e2) := EvalPred(s1, preds[|preds| - 1]);
              Combine(s, op, preds) == (s2, ParenExpr(BinaryExpr(op, e1, e2)))
  {
    if |preds| == 1 {
      assert preds[1..] == [];
    } else if |preds| >= 2 {
      CombineSnoc(s, op, preds);
    }
  }

  lemma CombineSnoc<V>(s: State<V>, op: BinaryOp, preds: seq<Pred<V>>)
    requires |preds| >= 2
    ensures var (s1, e1) := Combine(s, op, preds[..|preds| - 1]);
            var (s2, e2) := EvalPred(s1, preds[|preds| - 1]);
            Combine(s, op, preds) == (s2, ParenExpr(BinaryExpr(op, e1, e2)))
  {
    var n := |preds|;
    var init := preds[..n - 1];
    var last := preds[n - 1];
    var first := EvalPred(s, preds[0]);
    TailSnoc(preds);
    CombineUnfold(s, op, init);
    CombineUnfold(s, op, preds);
    CombineRestSnoc(first.0, op, init[1..], first.1, last);
  }

  lemma ConsIndex<T>(x: T, xs: seq<T>, k: nat)
    requires 0 < k <= |xs|
    ensures ([x] + xs)[k] == xs[k - 1]
  {
  }

  lemma SliceIndex<T>(xs: seq<T>, k: nat)
    requires 0 < k < |xs|
    ensures xs[1..][k - 1] == xs[k]
  {
  }

  lemma TailSnoc<T>(xs: seq<T>)
    requires |xs| >= 2
    ensures xs[..|xs| - 1][0] == xs[0]
    ensures xs[1..] == xs[..|xs| - 1][1..] + [xs[|xs| - 1]]
  {
  }

  lemma CombineUnfold<V>(s: State<V>, op: BinaryOp, preds: seq<Pred<V>>)
    requires |preds| > 0
    ensures var first := EvalPred(s, preds[0]);
            Combine(s, op, preds) == CombineRest(first.0, op, preds[1..], first.1)
  {
  }

  /**
    `Not` over an `And` / `Or` of two or more options negates the chain
    itself: one NOT, one pair of parentheses.
   */
  lemma NotOfCombinationWrapsOnce<V>(s: State<V>, preds: seq<Pred<V>>, conj: bool)
    requires |preds| >= 2
    ensures var inner := if conj then AndAll(preds) else OrAll(preds);
            var c := Combine(s, if conj then OpAnd else OpOr, preds);
            EvalPred(s, Not(inner)) == (c.0, NotExpr(c.1)) && c.1.ParenExpr?
  {
    var inner := if conj then AndAll(preds) else OrAll(preds);
    CombineSnoc(s, if conj then OpAnd else OpOr, preds);
    NotUnfold(s, inner);
    CombineDispatch(s, preds);
  }

  lemma NotUnfold<V>(s: State<V>, inner: Pred<V>)
    ensures var e := EvalPred(s, inner);
            EvalPred(s, Not(inner)) == (e.0, Negate(e.1))
  {
  }

  lemma CombineDispatch<V>(s: State<V>, preds: seq<Pred<V>>)
    ensures EvalPred(s, AndAll(preds)) == Combine(s, OpAnd, preds)
    ensures EvalPred(s, OrAll(preds)) == Combine(s, OpOr, preds)
  {
  }

  /** `Not(Or(Name = a, Name = b))` is a single NOT of a single parenthesised OR. */
  lemma NotOrScenario(a: string, b: string)
    ensures var s := Root<string>("user");
            EvalPred(s, Not(OrAll([Eq("name", a), Eq("name", b)]))) ==
            (s.(params := [a, b]),
             NotExpr(ParenExpr(BinaryExpr(OpOr,
               BinaryExpr(OpEqual, PathExpr("user", "name"), ParamExpr("p0")),
               BinaryExpr(OpEqual, PathExpr("user", "name"), ParamExpr("p1"))))))
  {
    var s := Root<string>("user");
    var ps := [Eq("name", a), Eq("name", b)];
    CombineShape(s, OpOr, ps);
    assert ps[..1] == [Eq<string>("name", a)];
    CombineShape(s, OpOr, ps[..1]);
    var (s1, e1) := EvalPred(s, ps[0]);
    assert s1 == s.(params := [a]);
    assert e1 == BinaryExpr(OpEqual, PathExpr("user", "name"), ParamExpr(ParamName(0)));
    var (s2, e2) := EvalPred(s1, ps[1]);
    assert e2 == BinaryExpr(OpEqual, PathExpr("user", "name"), ParamExpr(ParamName(1)));
    assert ParamName(0) == "p0";
    assert ParamName(1) == "p1";
    assert s2.params == [a, b];
    assert Combine(s, OpOr, ps) == (s2, ParenExpr(BinaryExpr(OpOr, e1, e2)));
  }

  // ---------------------------------------------------------------------
  // Implicit AND of positional predicates (ExprOption.Apply)

  function Filters<V>(preds: seq<Pred<V>>): (r: seq<Opt<V>>)
    ensures |r| == |preds|
    ensures forall i :: 0 <= i < |preds| ==> r[i] == Filter(preds[i])
  {
    seq(|preds|, i requires 0 <= i < |preds| => Filter(preds[i]))
  }

  /** Folds `ExprOption.Apply`'s combination step over expressions, in order. */
  function FoldWhere(where: Expr, es: seq<Expr>): Expr
    decreases es
  {
    if |es| == 0 then where else FoldWhere(AndWhere(where, es[0]), es[1..])
  }

  /** Applying predicates as options evaluates them in order and folds them into WHERE. */
  lemma {:induction false} ApplyFilters<V>(s: State<V>, q: Query, preds: seq<Pred<V>>)
    requires HasFrom(q)
    ensures var (s1, es) := EvalAll(s, preds);
            ApplyOpts(s, q, Filters(preds)) == (s1, q.(body := q.body.(where := FoldWhere(q.body.where, es))))
    decreases preds
  {
    if |preds| > 0 {
      var (s1, e) := EvalPred(s, preds[0]);
      var q1 := q.(body := q.body.(where := AndWhere(q.body.where, e)));
      assert Filters(preds)[1..] == Filters(preds[1..]);
      ApplyFilters(s1, q1, preds[1..]);
    }
  }

  /** The top-level conjuncts of a left-nested unparenthesised AND chain. */
  function Conjuncts(e: Expr): seq<Expr>
  {
    if e.BinaryExpr? && e.op == OpAnd then Conjuncts(e.left) + [e.right]
    else if e == NilExpr then []
    else [e]
  }

  /** Number of AND nodes along the left spine of `e`. */
  function AndSpine(e: Expr): nat
  {
    if e.BinaryExpr? && e.op == OpAnd then 1 + AndSpine(e.left) else 0
  }

  /** An expression that is neither nil nor a bare AND node. */
  predicate Atomic(e: Expr) {
    e != NilExpr && !(e.BinaryExpr? && e.op == OpAnd)
  }

  lemma {:induction false} FoldWhereConjuncts(where: Expr, es: seq<Expr>)
    requires forall i :: 0 <= i < |es| ==> Atomic(es[i])
    ensures Conjuncts(FoldWhere(where, es)) == Conjuncts(where) + es
    ensures where != NilExpr || |es| > 0 ==>
              AndSpine(FoldWhere(where, es)) == AndSpine(where) + |es| - (if where == NilExpr then 1 else 0)
    decreases es
  {
    if |es| > 0 {
      FoldWhereConjuncts(AndWhere(where, es[0]), es[1..]);
      assert Conjuncts(where) + es == Conjuncts(where) + [es[0]] + es[1..];
    }
  }

  /** Predicates whose expression is a single non-AND term (see `EvalWellFormedIsAtomic`). */
  predicate WellFormedPred<V>(p: Pred<V>) {
    match p
    case Compare(_, op, _) => op != OpAnd
    case AndAll(ps) => |ps| >= 1 && (|ps| == 1 ==> WellFormedPred(ps[0]))
    case OrAll(ps) => |ps| >= 1 && (|ps| == 1 ==> WellFormedPred(ps[0]))
    case _ => true
  }

  lemma {:induction false} EvalWellFormedIsAtomic<V>(s: State<V>, p: Pred<V>)
    requires WellFormedPred(p)
    ensures Atomic(EvalPred(s, p).1)
    decreases p
  {
    match p
    case AndAll(ps) =>
      CombineShape(s, OpAnd, ps);
      if |ps| == 1 { EvalWellFormedIsAtomic(s, ps[0]); }
    case OrAll(ps) =>
      CombineShape(s, OpOr, ps);
      if |ps| == 1 { EvalWellFormedIsAtomic(s, ps[0]); }
    case _ =>
  }

  lemma {:induction false} EvalAllAtomic<V>(s: State<V>, preds: seq<Pred<V>>)
    requires forall i :: 0 <= i < |preds| ==> WellFormedPred(preds[i])
    ensures forall i :: 0 <= i < |preds| ==> Atomic(EvalAll(s, preds).1[i])
    decreases preds
  {
    if |preds| > 0 {
      var (s1, e) := EvalPred(s, preds[0]);
      EvalWellFormedIsAtomic(s, preds[0]);
      EvalAllAtomic(s1, preds[1..]);
      var es := EvalAll(s, preds).1;
      forall i | 0 <= i < |preds| ensures Atomic(es[i]) {
        if i > 0 { assert es[i] == EvalAll(s1, preds[1..]).1[i - 1]; }
      }
    }
  }

  /**
    N well-formed predicates passed positionally to `Select` give a WHERE
    whose top-level conjuncts are their expressions in call order, joined by
    exactly N-1 left-nested AND nodes.
   */
  lemma SelectImplicitAnd<V>(table: string, preds: seq<Pred<V>>)
    requires |preds| >= 1
    requires forall i :: 0 <= i < |preds| ==> WellFormedPred(preds[i])
    ensures var es := EvalAll(Root<V>(table), preds).1;
            var where := SelectQuery(table, Filters(preds)).0.body.where;
            Conjuncts(where) == es && AndSpine(where) == |preds| - 1
  {
    var s := Root<V>(table);
    var es := EvalAll(s, preds).1;
    ApplyFilters(s, Seed(table), preds);
    EvalAllAtomic(s, preds);
    FoldWhereConjuncts(NilExpr, es);
  }

  // ---------------------------------------------------------------------
  // Joins

  /**
    `DirectJoin` without nested options: one join of the prior source with
    `target AS alias`, where the alias is that of the path extended by the
    relationship name, ON `base.From = alias.To` with `base` read before the
    scope opens; the alias is allocated and the path is unchanged.
   */
  lemma DirectJoinShape<V>(s: State<V>, q: Query, name: string, target: string, keys: KeyPair, op: JoinOp)
    requires HasFrom(q)
    ensures var alias := CurrentAlias(s.path + [name]);
            ApplyOpt(s, q, DirectJoin(name, target, keys, op, [])) ==
            (s.(tables := s.tables + {alias}),
             SetFrom(q, Join(q.body.from.value, op, TableName(target, Some(alias)),
                             EqPaths(CurrentAlias(s.path), keys.from, alias, keys.to))))
  {
    var none: seq<Opt<V>> := [];
    DirectJoinUnfold(s, q, name, target, keys, op, none);
    var alias := CurrentAlias(s.path + [name]);
    var reg := RegisterRelationship(s, name);
    var q1 := SetFrom(q, MakeJoin(q.body.from.value, CurrentAlias(s.path), target, reg.1, keys, op));
    assert ApplyOpts(reg.0, q1, none) == (reg.0, q1);
    assert reg.0.(path := s.path) == s.(tables := s.tables + {alias});
  }

  /** Options nested in `DirectJoin` resolve columns against the new alias, not the base. */
  lemma DirectJoinNestedSeesAlias<V>(s: State<V>, q: Query, name: string, target: string, keys: KeyPair,
                                     op: JoinOp, column: string, cmp: BinaryOp, value: V)
    requires HasFrom(q)
    ensures var alias := CurrentAlias(s.path + [name]);
            var r := ApplyOpt(s, q, DirectJoin(name, target, keys, op, [Filter(Compare(column, cmp, value))]));
            r.0.path == s.path && r.0.params == s.params + [value] &&
            r.1.body.where == AndWhere(q.body.where,
                                       BinaryExpr(cmp, PathExpr(alias, column), ParamExpr(ParamName(|s.params|))))
  {
    var opts := [Filter(Compare(column, cmp, value))];
    var (s1, alias) := RegisterRelationship(s, name);
    var q1 := SetFrom(q, MakeJoin(q.body.from.value, CurrentAlias(s.path), target, alias, keys, op));
    DirectJoinUnfold(s, q, name, target, keys, op, opts);
    ApplySingle(s1, q1, opts[0]);
  }

  /** `DirectJoin` runs its nested options inside the relationship's scope, then closes it. */
  lemma DirectJoinUnfold<V>(s: State<V>, q: Query, name: string, target: string, keys: KeyPair,
                            op: JoinOp, opts: seq<Opt<V>>)
    requires HasFrom(q)
    ensures var reg := RegisterRelationship(s, name);
            var q1 := SetFrom(q, MakeJoin(q.body.from.value, CurrentAlias(s.path), target, reg.1, keys, op));
            var inner := ApplyOpts(reg.0, q1, opts);
            ApplyOpt(s, q, DirectJoin(name, target, keys, op, opts)) == (inner.0.(path := s.path), inner.1)
  {
    DirectJoinDispatch(s, q, name, target, keys, op, opts);
    DirectJoinStepUnfold(s, q, name, target, keys, op, opts);
  }

  lemma DirectJoinDispatch<V>(s: State<V>, q: Query, name: string, target: string, keys: KeyPair,
                              op: JoinOp, opts: seq<Opt<V>>)
    requires HasFrom(q)
    ensures ApplyOpt(s, q, DirectJoin(name, target, keys, op, opts)) == DirectJoinStep(s, q, name, target, keys, op, opts)
  {
  }

  lemma DirectJoinStepUnfold<V>(s: State<V>, q: Query, name: string, target: string, keys: KeyPair,
                                op: JoinOp, opts: seq<Opt<V>>)
    requires HasFrom(q)
    ensures var reg := RegisterRelationship(s, name);
            var q1 := SetFrom(q, MakeJoin(q.body.from.value, CurrentAlias(s.path), target, reg.1, keys, op));
            var inner := ApplyOpts(reg.0, q1, opts);
            DirectJoinStep(s, q, name, target, keys, op, opts) == (inner.0.(path := s.path), inner.1)
  {
  }

  /** `JunctionJoin` registers the junction, then the relationship, and runs its nested options in scope. */
  lemma JunctionJoinUnfold<V>(s: State<V>, q: Query, name: string, junction: string, baseToJunction: KeyPair,
                              target: string, junctionToTarget: KeyPair, op: JoinOp, opts: seq<Opt<V>>)
    requires HasFrom(q)
    ensures var base := CurrentAlias(s.path);
            var jr := RegisterJunction(s, junction);
            var reg := RegisterRelationship(jr.0, name);
            var q1 := SetFrom(q, JoinThrough(q.body.from.value, base, junction, jr.1, target, reg.1,
                                             baseToJunction, junctionToTarget, op));
            var inner := ApplyOpts(reg.0, q1, opts);
            ApplyOpt(s, q, JunctionJoin(name, junction, baseToJunction, target, junctionToTarget, op, opts)) ==
            (inner.0.(path := s.path), inner.1)
  {
    JunctionJoinDispatch(s, q, name, junction, baseToJunction, target, junctionToTarget, op, opts);
    JunctionJoinStepUnfold(s, q, name, junction, baseToJunction, target, junctionToTarget, op, opts);
  }

  lemma JunctionJoinDispatch<V>(s: State<V>, q: Query, name: string, junction: string, baseToJunction: KeyPair,
                                target: string, junctionToTarget: KeyPair, op: JoinOp, opts: seq<Opt<V>>)
    requires HasFrom(q)
    ensures ApplyOpt(s, q, JunctionJoin(name, junction, baseToJunction, target, junctionToTarget, op, opts)) ==
            JunctionJoinStep(s, q, name, junction, baseToJunction, target, junctionToTarget, op, opts)
  {
  }

  lemma JunctionJoinStepUnfold<V>(s: State<V>, q: Query, name: string, junction: string, baseToJunction: KeyPair,
                                  target: string, junctionToTarget: KeyPair, op: JoinOp, opts: seq<Opt<V>>)
    requires HasFrom(q)
    ensures var base := CurrentAlias(s.path);
            var jr := RegisterJunction(s, junction);
            var reg := RegisterRelationship(jr.0, name);
            var q1 := SetFrom(q, JoinThrough(q.body.from.value, base, junction, jr.1, target, reg.1,
                                             baseToJunction, junctionToTarget, op));
            var inner := ApplyOpts(reg.0, q1, opts);
            JunctionJoinStep(s, q, name, junction, baseToJunction, target, junctionToTarget, op, opts) ==
            (inner.0.(path := s.path), inner.1)
  {
  }

  /**
    `DirectJoin` is `WithRelationship` around the join and the nested
    options: the scoping of the two join steps is the one `WithRelationship`
    defines.
   */
  lemma DirectJoinScoped<V>(s: State<V>, q: Query, name: string, target: string, keys: KeyPair,
                            op: JoinOp, opts: seq<Opt<V>>)
    requires HasFrom(q)
    ensures var base := CurrentAlias(s.path);
            var from := q.body.from.value;
            DirectJoinStep(s, q, name, target, keys, op, opts) ==
            WithRelationship(s, q, name, (s1: State<V>, q1: Query, alias: string) =>
                               ApplyOpts(s1, SetFrom(q1, MakeJoin(from, base, target, alias, keys, op)), opts))
  {
    DirectJoinStepUnfold(s, q, name, target, keys, op, opts);
  }

  /** `JunctionJoin` registers the junction, then is `WithRelationship` around the two joins and the nested options. */
  lemma JunctionJoinScoped<V>(s: State<V>, q: Query, name: string, junction: string, baseToJunction: KeyPair,
                              target: string, junctionToTarget: KeyPair, op: JoinOp, opts: seq<Opt<V>>)
    requires HasFrom(q)
    ensures var base := CurrentAlias(s.path);
            var from := q.body.from.value;
            var jr := RegisterJunction(s, junction);
            JunctionJoinStep(s, q, name, junction, baseToJunction, target, junctionToTarget, op, opts) ==
            WithRelationship(jr.0, q, name, (s1: State<V>, q1: Query, alias: string) =>
                               ApplyOpts(s1, SetFrom(q1, JoinThrough(from, base, junction, jr.1, target, alias,
                                                                     baseToJunction, junctionToTarget, op)), opts))
  {
    JunctionJoinStepUnfold(s, q, name, junction, baseToJunction, target, junctionToTarget, op, opts);
  }

  /** A one-option list applies that option. */
  lemma ApplySingle<V>(s: State<V>, q: Query, o: Opt<V>)
    requires HasFrom(q)
    ensures ApplyOpts(s, q, [o]) == ApplyOpt(s, q, o)
  {
    assert [o][1..] == [];
  }

  /**
    `JunctionJoin` without nested options: two joins of the same kind, base to
    junction inside and junction to target outside; the junction alias is
    derived from the base alias without a push.
   */
  lemma JunctionJoinShape<V>(s: State<V>, q: Query, name: string, junction: string, baseToJunction: KeyPair,
                             target: string, junctionToTarget: KeyPair, op: JoinOp)
    requires HasFrom(q)
    ensures var base := CurrentAlias(s.path);
            var jAlias := JunctionAlias(base, junction);
            var alias := CurrentAlias(s.path + [name]);
            var r := ApplyOpt(s, q, JunctionJoin(name, junction, baseToJunction, target, junctionToTarget, op, []));
            r.0 == s.(tables := s.tables + {jAlias, alias}) &&
            r.1 == SetFrom(q, Join(Join(q.body.from.value, op, TableName(junction, Some(jAlias)),
                                        EqPaths(base, baseToJunction.from, jAlias, baseToJunction.to)),
                                   op, TableName(target, Some(alias)),
                                   EqPaths(jAlias, junctionToTarget.from, alias, junctionToTarget.to)))
  {
    var (s1, jAlias) := RegisterJunction(s, junction);
    assert s1.path == s.path;
  }

  // ---------------------------------------------------------------------
  // The last-join override

  /** On a right-leaning join tree the last join is the outermost one. */
  lemma FindLastJoinIsOutermost(t: TableExpr)
    requires RightLeaning(t) && t.Join?
    ensures FindLastJoin(t) == Some(t)
    ensures SetLastJoinOp(t, InnerJoin) == t.(op := InnerJoin)
  {
  }

  /** The override changes exactly the join `FindLastJoin` finds: it is found again with the new kind. */
  lemma {:induction false} SetLastJoinOpFindsSame(t: TableExpr, op: JoinOp)
    ensures FindLastJoin(SetLastJoinOp(t, op)) ==
            (if FindLastJoin(t).Some? then Some(FindLastJoin(t).value.(op := op)) else None)
  {
    match t
    case TableName(_, _) =>
    case Join(left, o, right, cond) =>
      if right.Join? { SetLastJoinOpFindsSame(right, op); }
  }

  /** Setting the last join back to its old kind restores the tree: nothing else was touched. */
  lemma {:induction false} SetLastJoinOpUndo(t: TableExpr, op: JoinOp)
    requires t.Join?
    ensures SetLastJoinOp(SetLastJoinOp(t, op), FindLastJoin(t).value.op) == t
  {
    match t
    case Join(left, o, right, cond) =>
      if right.Join? {
        SetLastJoinOpUndo(right, op);
        SetLastJoinOpFindsSame(right, op);
      }
  }

  /** On a bare table the override is a no-op. */
  lemma InnerJoinOnTableIsNoOp<V>(s: State<V>, q: Query)
    requires HasFrom(q) && q.body.from.value.TableName?
    ensures ApplyOpt(s, q, WithInnerJoin) == (s, q)
  {
  }

  /**
    After a junction join, the override turns only the junction-to-target
    join INNER; the base-to-junction join keeps its kind.
   */
  lemma InnerJoinAfterJunctionJoin<V>(s: State<V>, q: Query, name: string, junction: string,
                                      baseToJunction: KeyPair, target: string, junctionToTarget: KeyPair)
    requires HasFrom(q) && RightLeaning(q.body.from.value)
    ensures var opts := [JunctionJoin(name, junction, baseToJunction, target, junctionToTarget, LeftOuterJoin, []),
                         WithInnerJoin];
            var from := ApplyOpts(s, q, opts).1.body.from.value;
            from.Join? && from.op == InnerJoin && from.left.Join? && from.left.op == LeftOuterJoin
            && from.left.left == q.body.from.value
  {
    var opts := [JunctionJoin(name, junction, baseToJunction, target, junctionToTarget, LeftOuterJoin, []),
                 WithInnerJoin];
    var (s1, q1) := ApplyOpt(s, q, opts[0]);
    JunctionJoinShape(s, q, name, junction, baseToJunction, target, junctionToTarget, LeftOuterJoin);
    assert opts[1..] == [WithInnerJoin];
    assert opts[1..][1..] == [];
    var (s2, q2) := ApplyOpt(s1, q1, WithInnerJoin);
    assert ApplyOpts(s1, q1, opts[1..]) == (s2, q2);
    assert ApplyOpts(s, q, opts) == (s2, q2);
    FindLastJoinIsOutermost(q1.body.from.value);
  }

  // ---------------------------------------------------------------------
  // Subqueries

  /**
    `WithSubquery` on a direct relationship without nested options adds one
    column `(SELECT AS STRUCT * FROM target WHERE target.To = base.From)`
    (or its ARRAY_AGG form) aliased by the relationship name, and nothing else.
   */
  lemma WithSubqueryDirectShape<V>(s: State<V>, q: Query, name: string, target: string, keys: KeyPair,
                                   isArray: bool, junctionKeys: KeyPair)
    requires HasFrom(q)
    ensures var cond := DirectCorrelation(target, CurrentAlias(s.path), keys);
            var expr := if isArray then ArrayAggregate(target, cond)
                         else ScalarSubquery(Plain(Select(true, [Star], Some(TableName(target, None)), cond)));
            ApplyOpt(s, q, WithSubquery(name, target, keys, isArray, "", junctionKeys, [])) ==
            (s.(subqueryColumns := s.subqueryColumns + [SubqueryColumn(name, expr)]), q)
  {
  }

  /** Through a junction, `WithSubquery` correlates with an IN over the junction table. */
  lemma WithSubqueryJunctionShape<V>(s: State<V>, q: Query, name: string, target: string, keys: KeyPair,
                                     isArray: bool, junction: string, junctionKeys: KeyPair)
    requires HasFrom(q) && junction != ""
    ensures var cond := JunctionMembership(target, junction, CurrentAlias(s.path), keys, junctionKeys);
            cond == InSubquery(PathExpr(target, junctionKeys.to),
                      Plain(Select(false, [ExprItem(PathExpr(junction, junctionKeys.from))],
                                   Some(TableName(junction, None)),
                                   EqPaths(junction, keys.to, CurrentAlias(s.path), keys.from))))
    ensures var cond := JunctionMembership(target, junction, CurrentAlias(s.path), keys, junctionKeys);
            var expr := if isArray then ArrayAggregate(target, cond)
                         else ScalarSubquery(Plain(Select(true, [Star], Some(TableName(target, None)), cond)));
            ApplyOpt(s, q, WithSubquery(name, target, keys, isArray, junction, junctionKeys, [])) ==
            (s.(subqueryColumns := s.subqueryColumns + [SubqueryColumn(name, expr)]), q)
  {
  }

  /**
    `WhereExists` through a junction: FROM `target INNER JOIN junction ON
    target.jk.To = junction.jk.From`, WHERE only `junction.To = base.From`.
   */
  lemma WhereExistsJunctionShape<V>(s: State<V>, target: string, keys: KeyPair, junction: string,
                                    junctionKeys: KeyPair)
    requires junction != ""
    ensures var base := CurrentAlias(s.path);
            EvalPred(s, WhereExists(target, keys, junction, junctionKeys, [])) ==
            (s, ExistsExpr(Plain(Select(false, [ExprItem(IntLiteral("1"))],
                 Some(Join(TableName(target, None), InnerJoin, TableName(junction, None),
                           EqPaths(target, junctionKeys.to, junction, junctionKeys.from))),
                 EqPaths(junction, keys.to, base, keys.from)))))
  {
  }

  /**
    A nested predicate of `WhereExists` is ANDed after the correlation, is
    resolved against the target table, and takes the next parent parameter.
   */
  lemma WhereExistsNestedPredicate<V>(s: State<V>, target: string, keys: KeyPair, junctionKeys: KeyPair,
                                      column: string, cmp: BinaryOp, value: V)
    ensures var r := EvalPred(s, WhereExists(target, keys, "", junctionKeys, [Filter(Compare(column, cmp, value))]));
            r.0 == s.(params := s.params + [value]) &&
            r.1 == ExistsExpr(Plain(Select(false, [ExprItem(IntLiteral("1"))], Some(TableName(target, None)),
                     BinaryExpr(OpAnd, EqPaths(target, keys.to, CurrentAlias(s.path), keys.from),
                                BinaryExpr(cmp, PathExpr(target, column), ParamExpr(ParamName(|s.params|)))))))
  {
    var p := Compare(column, cmp, value);
    var opts := [Filter(p)];
    var body := Plain(Select(false, [ExprItem(IntLiteral("1"))], Some(TableName(target, None)),
                             DirectCorrelation(target, CurrentAlias(s.path), keys)));
    var sub := SubState(s, target);
    ExistsDirectUnfold(s, target, keys, junctionKeys, opts);
    ApplySingle(sub, body, opts[0]);
    FilterUnfold(sub, body, p);
    EvalCompare(sub, p);
  }

  /** A direct `WhereExists`: the options run on the target's sub-state; only its parameters flow back. */
  lemma ExistsDirectUnfold<V>(s: State<V>, target: string, keys: KeyPair, junctionKeys: KeyPair, opts: seq<Opt<V>>)
    ensures var body := Plain(Select(false, [ExprItem(IntLiteral("1"))], Some(TableName(target, None)),
                                     DirectCorrelation(target, CurrentAlias(s.path), keys)));
            var inner := ApplyOpts(SubState(s, target), body, opts);
            EvalPred(s, WhereExists(target, keys, "", junctionKeys, opts)) ==
            (s.(params := inner.0.params), ExistsExpr(inner.1))
  {
    ExistsDispatch(s, target, keys, "", junctionKeys, opts);
    ExistsDirectBody(s, target, keys, junctionKeys, opts);
  }

  lemma ExistsDispatch<V>(s: State<V>, target: string, keys: KeyPair, junction: string, junctionKeys: KeyPair,
                          opts: seq<Opt<V>>)
    ensures EvalPred(s, WhereExists(target, keys, junction, junctionKeys, opts)) ==
            Exists(s, target, keys, junction, junctionKeys, opts)
  {
  }

  lemma ExistsDirectBody<V>(s: State<V>, target: string, keys: KeyPair, junctionKeys: KeyPair, opts: seq<Opt<V>>)
    ensures var body := Plain(Select(false, [ExprItem(IntLiteral("1"))], Some(TableName(target, None)),
                                     DirectCorrelation(target, CurrentAlias(s.path), keys)));
            var inner := ApplyOpts(SubState(s, target), body, opts);
            Exists(s, target, keys, "", junctionKeys, opts) == (s.(params := inner.0.params), ExistsExpr(inner.1))
  {
  }

  /** A positional predicate: evaluated, then ANDed into WHERE. */
  lemma FilterUnfold<V>(s: State<V>, q: Query, p: Pred<V>)
    requires HasFrom(q)
    ensures var e := EvalPred(s, p);
            ApplyOpt(s, q, Filter(p)) == (e.0, q.(body := q.body.(where := AndWhere(q.body.where, e.1))))
  {
  }

  // ---------------------------------------------------------------------
  // Scenarios

  /** `Select` with no options is the bare `SELECT table.* FROM table` and no parameters. */
  lemma SelectNoOptions<V>(table: string)
    ensures SelectQuery<V>(table, []) == (Seed(table), [])
  {
    var q := Seed(table);
    assert ApplyOpts(Root<V>(table), q, []) == (Root<V>(table), q);
    assert SubqueryItems([]) == [];
    assert q.body.results + [] == q.body.results;
  }

  /** `Select(User, Name.Eq("John"))`: WHERE `user.name = @p0`, parameters `["John"]`. */
  lemma SelectEqScenario()
    ensures var (q, params) := SelectQuery("user", [Filter(Eq("name", "John"))]);
            q.body.where == BinaryExpr(OpEqual, PathExpr("user", "name"), ParamExpr("p0")) &&
            params == ["John"]
  {
  }

  /** `Select(Post, Tags(Tag.Name.Eq("golang")))`: junction alias `post_post_tag`, target alias `tags`. */
  lemma SelectManyToManyScenario()
    ensures var opts := [JunctionJoin("tags", "post_tag", KeyPair("id", "post_id"), "tag", KeyPair("tag_id", "id"),
                                      LeftOuterJoin, [Filter(Eq("name", "golang"))])];
            var (q, params) := SelectQuery("post", opts);
            q.body.from == Some(
              Join(Join(TableName("post", None), LeftOuterJoin, TableName("post_tag", Some("post_post_tag")),
                        EqPaths("post", "id", "post_post_tag", "post_id")),
                   LeftOuterJoin, TableName("tag", Some("tags")), EqPaths("post_post_tag", "tag_id", "tags", "id")))
            && q.body.where == BinaryExpr(OpEqual, PathExpr("tags", "name"), ParamExpr("p0"))
            && params == ["golang"]
  {
    var nested := [Filter(Eq("name", "golang"))];
    var s0 := Root<string>("post");
    var q0 := Seed("post");
    var o := JunctionJoin("tags", "post_tag", KeyPair("id", "post_id"), "tag", KeyPair("tag_id", "id"),
                          LeftOuterJoin, nested);
    ApplySingle(s0, q0, o);
    JunctionJoinUnfold(s0, q0, "tags", "post_tag", KeyPair("id", "post_id"), "tag", KeyPair("tag_id", "id"),
                       LeftOuterJoin, nested);
    var (s1, jAlias) := RegisterJunction(s0, "post_tag");
    assert jAlias == "post_post_tag";
    var (s2, alias) := RegisterRelationship(s1, "tags");
    assert alias == "tags";
    var q1 := SetFrom(q0, JoinThrough(q0.body.from.value, "post", "post_tag", jAlias, "tag", alias,
                                      KeyPair("id", "post_id"), KeyPair("tag_id", "id"), LeftOuterJoin));
    ApplySingle(s2, q1, nested[0]);
    assert ParamName(0) == "p0";
  }

  /**
    A LIKE on the root, then a belongs-to join with a nested predicate, then
    ORDER BY and LIMIT: the ORDER BY resolves against the root again because
    the join's scope was closed, and the parameters are in construction order.
   */
  lemma SelectComposedScenario()
    ensures var opts := [Filter(Like("title", "%tutorial%")),
                         DirectJoin("author", "user", KeyPair("user_id", "id"), InnerJoin,
                                    [Filter(Eq("email", "author@example.com"))]),
                         OrderBy("created_at", DirectionDesc),
                         Limit(5)];
            var (q, params) := SelectQuery("post", opts);
            q.body.from == Some(Join(TableName("post", None), InnerJoin, TableName("user", Some("author")),
                                     EqPaths("post", "user_id", "author", "id")))
            && q.body.where == BinaryExpr(OpAnd,
                                 BinaryExpr(OpLike, PathExpr("post", "title"), ParamExpr("p0")),
                                 BinaryExpr(OpEqual, PathExpr("author", "email"), ParamExpr("p1")))
            && q.orderBy == [OrderItem(PathExpr("post", "created_at"), DirectionDesc)]
            && q.limit == Some(5)
            && params == ["%tutorial%", "author@example.com"]
  {
    var nested := [Filter(Eq("email", "author@example.com"))];
    var opts := [Filter(Like("title", "%tutorial%")),
                 DirectJoin("author", "user", KeyPair("user_id", "id"), InnerJoin, nested),
                 OrderBy("created_at", DirectionDesc),
                 Limit(5)];
    var s0 := Root<string>("post");
    var q0 := Seed("post");
    var (s1, q1) := ApplyOpt(s0, q0, opts[0]);
    assert ApplyOpts(s0, q0, opts) == ApplyOpts(s1, q1, opts[1..]);
    DirectJoinUnfold(s1, q1, "author", "user", KeyPair("user_id", "id"), InnerJoin, nested);
    var (sj, alias) := RegisterRelationship(s1, "author");
    assert alias == "author";
    var qj := SetFrom(q1, MakeJoin(q1.body.from.value, "post", "user", alias, KeyPair("user_id", "id"), InnerJoin));
    ApplySingle(sj, qj, nested[0]);
    var (s2, q2) := ApplyOpt(s1, q1, opts[1]);
    assert s2.path == ["post"] && s2.params == ["%tutorial%", "author@example.com"];
    assert ApplyOpts(s1, q1, opts[1..]) == ApplyOpts(s2, q2, opts[2..]);
    var (s3, q3) := ApplyOpt(s2, q2, opts[2]);
    assert ApplyOpts(s2, q2, opts[2..]) == ApplyOpts(s3, q3, opts[3..]);
    ApplySingle(s3, q3, opts[3]);
    assert ParamName(0) == "p0" && ParamName(1) == "p1";
  }
}
