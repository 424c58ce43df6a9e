/**
  The subquery helpers of `query/subquery.go` (`subquery`) and
  `query/subquery_context.go` (`subqueryContext`). Both carry the same
  correlation data and the same helper set; they differ only in whether the
  sub-state is created up front (`subquery`) or on demand
  (`subqueryContext.createSubState`). The shared data is `Correlation`, and
  each helper is defined once over it.

  The helpers call `State.NewSubqueryState` and a free
  `buildDirectRelationshipWhere`, whose definitions are not part of this
  model. They are taken to be the sub-state and the direct correlation that
  `WithSubquery` and `WhereExists` set up inline in `query/query.go`
  (`Builder.SubState`, `Builder.DirectCorrelation`).
 */
module Subquery {

  import opened Wrappers
  import opened Ast
  import opened BuildState
  import opened Builder

  /** What both helper structs record about a relationship at construction time. */
  datatype Correlation = Correlation(
    baseAlias: string,
    targetTable: string,
    keys: KeyPair,
    junctionTable: string,       // "" for a direct relationship
    junctionKeys: KeyPair)

  /** `subquery`: the parent state, the sub-state created with it, and the correlation. */
  datatype SubqueryBuilder<V> = SubqueryBuilder(parent: State<V>, sub: State<V>, corr: Correlation)

  /** `subqueryContext`: the parent state and the correlation; the sub-state is made on demand. */
  datatype SubqueryContext<V> = SubqueryContext(parent: State<V>, corr: Correlation)

  /** `newSubquery`: the base alias is the parent's alias now; the sub-state is rooted at the target. */
  function NewSubquery<V>(parent: State<V>, target: string, keys: KeyPair, junction: string,
                          junctionKeys: KeyPair): (r: SubqueryBuilder<V>)
    ensures r.parent == parent
    ensures r.corr.baseAlias == CurrentAlias(parent.path)
    ensures r.corr == Correlation(r.corr.baseAlias, target, keys, junction, junctionKeys)
    ensures r.sub.path == [target] && r.sub.params == parent.params && r.sub.tables == {target}
  {
    SubqueryBuilder(parent, SubState(parent, target),
                    Correlation(CurrentAlias(parent.path), target, keys, junction, junctionKeys))
  }

  /** `newSubqueryContext`: captures the parent's alias at construction. */
  function NewSubqueryContext<V>(parent: State<V>, target: string, keys: KeyPair, junction: string,
                                 junctionKeys: KeyPair): (r: SubqueryContext<V>)
    ensures r.parent == parent
    ensures r.corr.baseAlias == CurrentAlias(parent.path)
    ensures r.corr == Correlation(r.corr.baseAlias, target, keys, junction, junctionKeys)
  {
    SubqueryContext(parent, Correlation(CurrentAlias(parent.path), target, keys, junction, junctionKeys))
  }

  /** `createSubState`: the parent's sub-state for the target, taken to be `Builder.SubState`. */
  function CreateSubState<V>(ctx: SubqueryContext<V>): (r: State<V>)
    ensures r.path == [ctx.corr.targetTable] && CurrentAlias(r.path) == ctx.corr.targetTable
    ensures r.params == ctx.parent.params && r.tables == {ctx.corr.targetTable}
  {
    SubState(ctx.parent, ctx.corr.targetTable)
  }

  /**
    The method `buildDirectRelationshipWhere`: nil for a junction relationship,
    otherwise the free function of the same name, taken to be `Builder.DirectCorrelation`.
   */
  function DirectWhere(c: Correlation): (r: Expr)
    ensures r == NilExpr <==> c.junctionTable != ""
    ensures c.junctionTable == "" ==>
              r.BinaryExpr? && r.op == OpEqual &&
              r.left == PathExpr(c.targetTable, c.keys.to) && r.right == PathExpr(c.baseAlias, c.keys.from)
  {
    if c.junctionTable != "" then NilExpr else DirectCorrelation(c.targetTable, c.baseAlias, c.keys)
  }

  /** `buildJunctionCorrelation`: `junction.To = base.From`, nil exactly when there is no junction. */
  function JunctionWhere(c: Correlation): (r: Expr)
    ensures r == NilExpr <==> c.junctionTable == ""
    ensures c.junctionTable != "" ==>
              r.BinaryExpr? && r.op == OpEqual &&
              r.left == PathExpr(c.junctionTable, c.keys.to) && r.right == PathExpr(c.baseAlias, c.keys.from)
  {
    if c.junctionTable == "" then NilExpr else JunctionCorrelation(c.junctionTable, c.baseAlias, c.keys)
  }

  /** `buildJunctionJoin`: `target INNER JOIN junction ON target.jk.To = junction.jk.From`, nil when direct. */
  function JunctionJoinOf(c: Correlation): (r: Option<TableExpr>)
    ensures r.None? <==> c.junctionTable == ""
    ensures r.Some? ==>
              r.value.Join? && r.value.op == InnerJoin &&
              r.value.left == TableName(c.targetTable, None) && r.value.right == TableName(c.junctionTable, None) &&
              r.value.cond == EqPaths(c.targetTable, c.junctionKeys.to, c.junctionTable, c.junctionKeys.from)
  {
    if c.junctionTable == "" then None else Some(TargetJunctionJoin(c.targetTable, c.junctionTable, c.junctionKeys))
  }

  /** `buildBasicSubquery`: the given items FROM the bare target, with a WHERE only when direct. */
  function BasicSubquery(c: Correlation, items: seq<SelectItem>): (r: Query)
    ensures r.body.results == items && !r.body.asStruct
    ensures r.body.from == Some(TableName(c.targetTable, None))
    ensures (r.body.where != NilExpr) <==> c.junctionTable == ""
    ensures r.orderBy == [] && r.limit.None?
  {
    Plain(Select(false, items, Some(TableName(c.targetTable, None)), DirectWhere(c)))
  }

  /**
    `applyOptions`: runs the options on the sub-state in order, then makes the
    parent's parameters those of the sub-state. Returns the new parent, the
    new sub-state and the built subquery.
   */
  function ApplyOptions<V>(parent: State<V>, sub: State<V>, q: Query, opts: seq<Opt<V>>)
    : (r: (State<V>, State<V>, Query))
    requires HasFrom(q)
    ensures r.0 == parent.(params := r.1.params)
    ensures (r.1, r.2) == ApplyOpts(sub, q, opts)
    ensures sub.params <= r.0.params
  {
    var (sub1, q1) := ApplyOpts(sub, q, opts);
    (parent.(params := sub1.params), sub1, q1)
  }

  /** The helper-built EXISTS subquery: direct via `BasicSubquery`, junction via the join and correlation helpers. */
  function ExistsBody(c: Correlation): (r: Query)
    ensures HasFrom(r)
  {
    var one := [ExprItem(IntLiteral("1"))];
    match JunctionJoinOf(c)
    case None => BasicSubquery(c, one)
    case Some(j) => Plain(Select(false, one, Some(j), JunctionWhere(c)))
  }

  /**
    The helpers rebuild `WhereExists`: the EXISTS subquery `WhereExists`
    assembles inline equals the one assembled from `newSubqueryContext`,
    the correlation helpers and `applyOptions`, and the parent keeps only the
    resulting parameters.
   */
  lemma ExistsMatchesHelpers<V>(s: State<V>, target: string, keys: KeyPair, junction: string,
                                junctionKeys: KeyPair, opts: seq<Opt<V>>)
    ensures var ctx := NewSubqueryContext(s, target, keys, junction, junctionKeys);
            var r := ApplyOptions(s, CreateSubState(ctx), ExistsBody(ctx.corr), opts);
            Exists(s, target, keys, junction, junctionKeys, opts) == (r.0, ExistsExpr(r.2))
  {
  }

  /**
    The helpers rebuild the correlation of `WithSubquery`: the direct WHERE is
    `buildDirectRelationshipWhere`, and the junction membership test's inner
    WHERE is `buildJunctionCorrelation`.
   */
  lemma SubqueryCorrelationMatchesHelpers<V>(s: State<V>, target: string, keys: KeyPair, junction: string,
                                             junctionKeys: KeyPair)
    ensures var c := NewSubquery(s, target, keys, junction, junctionKeys).corr;
            var where := if junction == "" then DirectCorrelation(target, CurrentAlias(s.path), keys)
                         else JunctionMembership(target, junction, CurrentAlias(s.path), keys, junctionKeys);
            (junction == "" ==> where == DirectWhere(c)) &&
            (junction != "" ==> where.InSubquery? && where.query.body.where == JunctionWhere(c))
  {
  }

  /** Both helper structs see the same correlation for the same construction arguments. */
  lemma BuildersAgree<V>(parent: State<V>, target: string, keys: KeyPair, junction: string, junctionKeys: KeyPair)
    ensures NewSubquery(parent, target, keys, junction, junctionKeys).corr ==
            NewSubqueryContext(parent, target, keys, junction, junctionKeys).corr
    ensures NewSubquery(parent, target, keys, junction, junctionKeys).sub ==
            CreateSubState(NewSubqueryContext(parent, target, keys, junction, junctionKeys))
  {
  }
}
