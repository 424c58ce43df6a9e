/**
  The query-construction engine of `types/types.go` and `query/query.go`.

  Go builds queries from closures that mutate a shared `*State` and a
  `*ast.Query`. Here an option is a value of the mutually recursive datatypes
  `Pred` (an `ExprOption`, producing a WHERE-shaped expression) and `Opt` (an
  `Option` applied to the whole query), and `EvalPred` / `ApplyOpt` interpret
  them, threading the build state explicitly. Nesting depth is bounded by the
  option values themselves, so the interpreters terminate structurally.
 */
module Builder {

  import opened Wrappers
  import opened Strings
  import opened Ast
  import opened BuildState

  /** `query.KeyPair`: `From` is the key on the source side, `To` on the target side. */
  datatype KeyPair = KeyPair(from: string, to: string)

  /** Expression options (`types.ExprOption`). */
  datatype Pred<V> =
    | Compare(column: string, op: BinaryOp, value: V)        // Column.Op and Eq ... NotLike
    | Between(column: string, low: V, high: V)
    | In(column: string, values: seq<V>)
    | NullCheck(column: string, negated: bool)               // IsNull / IsNotNull
    | AndAll(preds: seq<Pred<V>>)
    | OrAll(preds: seq<Pred<V>>)
    | Not(pred: Pred<V>)
    | WhereExists(targetTable: string, keys: KeyPair, junctionTable: string, junctionKeys: KeyPair,
                  opts: seq<Opt<V>>)

  /** Query options (`types.Option`). */
  datatype Opt<V> =
    | Filter(pred: Pred<V>)                                  // ExprOption.Apply
    | OrderBy(column: string, dir: Direction)
    | Limit(count: int)
    | WithInnerJoin                                          // WithInnerJoinOption
    | DirectJoin(name: string, targetTable: string, keys: KeyPair, joinType: JoinOp, opts: seq<Opt<V>>)
    | JunctionJoin(name: string, junctionTable: string, baseToJunction: KeyPair,
                   targetTable: string, junctionToTarget: KeyPair, joinType: JoinOp, opts: seq<Opt<V>>)
    | WithSubquery(name: string, targetTable: string, keys: KeyPair, isArray: bool,
                   junctionTable: string, junctionKeys: KeyPair, opts: seq<Opt<V>>)

  // Column comparison shorthands; each is `Column.Op` with a fixed operator.
  function Eq<V>(column: string, value: V): Pred<V> { Compare(column, OpEqual, value) }
  function Ne<V>(column: string, value: V): Pred<V> { Compare(column, OpNotEqual, value) }
  function Lt<V>(column: string, value: V): Pred<V> { Compare(column, OpLess, value) }
  function Gt<V>(column: string, value: V): Pred<V> { Compare(column, OpGreater, value) }
  function Le<V>(column: string, value: V): Pred<V> { Compare(column, OpLessEqual, value) }
  function Ge<V>(column: string, value: V): Pred<V> { Compare(column, OpGreaterEqual, value) }
  function Like<V>(column: string, value: V): Pred<V> { Compare(column, OpLike, value) }
  function NotLike<V>(column: string, value: V): Pred<V> { Compare(column, OpNotLike, value) }

  /** Only the parameter list changed between `s` and `t`. */
  predicate OnlyParamsChanged<V>(s: State<V>, t: State<V>) {
    t.tables == s.tables && t.path == s.path && t.subqueryColumns == s.subqueryColumns
  }

  // ---------------------------------------------------------------------
  // Column predicates (types/types.go)

  /** `Column.Op`: binds `value` as the next parameter and compares the column with it. */
  function OpPred<V>(s: State<V>, column: string, op: BinaryOp, value: V): (r: (State<V>, Expr))
    ensures OnlyParamsChanged(s, r.0) && r.0.params == s.params + [value]
    ensures r.1.BinaryExpr? && r.1.op == op
    ensures r.1.left == PathExpr(CurrentAlias(s.path), column)
    ensures r.1.right.ParamExpr? && ParamIndex(r.1.right.name) == Some(|s.params|)
    ensures r.0.params[|s.params|] == value
  {
    ParamNameRoundTrip(|s.params|);
    (s.(params := s.params + [value]),
     BinaryExpr(op, PathExpr(CurrentAlias(s.path), column), ParamExpr(ParamName(|s.params|))))
  }

  /** `Column.Between`: binds `low` then `high` at consecutive indices. */
  function BetweenPred<V>(s: State<V>, column: string, low: V, high: V): (r: (State<V>, Expr))
    ensures OnlyParamsChanged(s, r.0) && r.0.params == s.params + [low, high]
    ensures r.1.BetweenExpr? && !r.1.negated
    ensures r.1.subject == PathExpr(CurrentAlias(s.path), column)
    ensures r.1.low.ParamExpr? && ParamIndex(r.1.low.name) == Some(|s.params|)
    ensures r.1.high.ParamExpr? && ParamIndex(r.1.high.name) == Some(|s.params| + 1)
  {
    ParamNameRoundTrip(|s.params|);
    ParamNameRoundTrip(|s.params| + 1);
    (s.(params := s.params + [low, high]),
     BetweenExpr(false, PathExpr(CurrentAlias(s.path), column),
                 ParamExpr(ParamName(|s.params|)), ParamExpr(ParamName(|s.params| + 1))))
  }

  /** The parameter references `@p<start>`, `@p<start+1>`, ... for `n` values. */
  function ParamRefs(start: nat, n: nat): (r: seq<Expr>)
    ensures |r| == n
    ensures forall k :: 0 <= k < n ==> r[k].ParamExpr? && ParamIndex(r[k].name) == Some(start + k)
  {
    forall i | start <= i < start + n ensures ParamIndex(ParamName(i)) == Some(i) {
      ParamNameRoundTrip(i);
    }
    seq(n, k requires 0 <= k < n => ParamExpr(ParamName(start + k)))
  }

  /** `Column.In`: binds every value in order, the k-th as `p<old length + k>`. */
  function InPred<V>(s: State<V>, column: string, values: seq<V>): (r: (State<V>, Expr))
    ensures OnlyParamsChanged(s, r.0) && r.0.params == s.params + values
    ensures r.1.InExpr? && !r.1.negated && r.1.subject == PathExpr(CurrentAlias(s.path), column)
    ensures |r.1.values| == |values|
    ensures forall k :: 0 <= k < |values| ==>
              r.1.values[k].ParamExpr? && ParamIndex(r.1.values[k].name) == Some(|s.params| + k)
              && r.0.params[|s.params| + k] == values[k]
  {
    (s.(params := s.params + values),
     InExpr(false, PathExpr(CurrentAlias(s.path), column), ParamRefs(|s.params|, |values|)))
  }

  /** `Column.IsNull` / `Column.IsNotNull`: no parameter, only the `Not` flag differs. */
  function NullPred<V>(s: State<V>, column: string, negated: bool): (r: (State<V>, Expr))
    ensures r.0 == s
    ensures r.1.IsNullExpr? && r.1.negated == negated
    ensures r.1.subject == PathExpr(CurrentAlias(s.path), column)
  {
    (s, IsNullExpr(negated, PathExpr(CurrentAlias(s.path), column)))
  }

  /** What `Not` makes of an already built expression: parenthesise unless it already is. */
  function Negate(e: Expr): (r: Expr)
    ensures r.NotExpr? && r.operand.ParenExpr?
    ensures e.ParenExpr? ==> r.operand == e
    ensures !e.ParenExpr? ==> r.operand.inner == e
  {
    if e.ParenExpr? then NotExpr(e) else NotExpr(ParenExpr(e))
  }

  /** `ExprOption.Apply`: the first predicate becomes WHERE, later ones are ANDed on, unparenthesised. */
  function AndWhere(where: Expr, e: Expr): (r: Expr)
    ensures where == NilExpr ==> r == e
    ensures where != NilExpr ==> r.BinaryExpr? && r.op == OpAnd && r.left == where && r.right == e
  {
    if where == NilExpr then e else BinaryExpr(OpAnd, where, e)
  }

  // ---------------------------------------------------------------------
  // Join nodes (query/query.go)

  /** `join`: the prior source on the left, `target AS alias` on the right, ON `base.From = alias.To`. */
  function MakeJoin(source: TableExpr, base: string, target: string, alias: string,
                    keys: KeyPair, op: JoinOp): (r: TableExpr)
    ensures r.Join? && r.left == source && r.op == op
    ensures r.right == TableName(target, Some(alias))
    ensures r.cond == EqPaths(base, keys.from, alias, keys.to)
    ensures RightLeaning(source) ==> RightLeaning(r)
  {
    Join(source, op, TableName(target, Some(alias)), EqPaths(base, keys.from, alias, keys.to))
  }

  /** `joinThrough`: base to junction inside, junction to target outside, both of kind `op`. */
  function JoinThrough(source: TableExpr, base: string, junction: string, junctionAlias: string,
                       target: string, targetAlias: string,
                       baseToJunction: KeyPair, junctionToTarget: KeyPair, op: JoinOp): (r: TableExpr)
    ensures r.Join? && r.op == op && r.left.Join? && r.left.op == op
    ensures r.left.left == source
    ensures r.left.right == TableName(junction, Some(junctionAlias))
    ensures r.left.cond == EqPaths(base, baseToJunction.from, junctionAlias, baseToJunction.to)
    ensures r.right == TableName(target, Some(targetAlias))
    ensures r.cond == EqPaths(junctionAlias, junctionToTarget.from, targetAlias, junctionToTarget.to)
    ensures RightLeaning(source) ==> RightLeaning(r)
  {
    var inner := MakeJoin(source, base, junction, junctionAlias, baseToJunction, op);
    MakeJoin(inner, junctionAlias, target, targetAlias, junctionToTarget, op)
  }

  /** `findLastJoin`: nil for a non-join, otherwise the deepest join reachable through `Right`. */
  function FindLastJoin(t: TableExpr): (r: Option<TableExpr>)
    ensures r.None? <==> !t.Join?
    ensures r.Some? ==> r.value.Join?
  {
    match t
    case TableName(_, _) => None
    case Join(_, _, right, _) =>
      match FindLastJoin(right)
      case Some(j) => Some(j)
      case None => Some(t)
  }

  /** The in-place `join.Op = op` of `WithInnerJoinOption`, on the join `FindLastJoin` finds. */
  function SetLastJoinOp(t: TableExpr, op: JoinOp): (r: TableExpr)
  {
    match t
    case TableName(_, _) => t
    case Join(left, o, right, cond) =>
      if right.Join? then Join(left, o, SetLastJoinOp(right, op), cond)
      else Join(left, op, right, cond)
  }

  /** Every join's right operand is a table: the shape `join` always builds. */
  predicate RightLeaning(t: TableExpr) {
    match t
    case TableName(_, _) => true
    case Join(left, _, right, _) => right.TableName? && RightLeaning(left)
  }

  // ---------------------------------------------------------------------
  // Correlation conditions shared by WithSubquery, WhereExists and query/subquery.go

  /** Direct relationship correlation: `target.To = base.From`. */
  function DirectCorrelation(target: string, base: string, keys: KeyPair): Expr {
    EqPaths(target, keys.to, base, keys.from)
  }

  /** Junction correlation: `junction.To = base.From`. */
  function JunctionCorrelation(junction: string, base: string, keys: KeyPair): Expr {
    EqPaths(junction, keys.to, base, keys.from)
  }

  /** `target INNER JOIN junction ON target.jk.To = junction.jk.From` (unaliased tables). */
  function TargetJunctionJoin(target: string, junction: string, junctionKeys: KeyPair): TableExpr {
    Join(TableName(target, None), InnerJoin, TableName(junction, None),
         EqPaths(target, junctionKeys.to, junction, junctionKeys.from))
  }

  /** `target.jk.To IN (SELECT junction.jk.From FROM junction WHERE junction.To = base.From)`. */
  function JunctionMembership(target: string, junction: string, base: string,
                              keys: KeyPair, junctionKeys: KeyPair): Expr {
    InSubquery(PathExpr(target, junctionKeys.to),
               Plain(Select(false, [ExprItem(PathExpr(junction, junctionKeys.from))],
                            Some(TableName(junction, None)),
                            JunctionCorrelation(junction, base, keys))))
  }

  /** The isolated state of a subquery over `target`; it shares the parent's parameters. */
  function SubState<V>(parent: State<V>, target: string): (r: State<V>)
    ensures r.path == [target] && CurrentAlias(r.path) == target
    ensures r.params == parent.params && r.tables == {target} && r.subqueryColumns == []
  {
    State({target}, parent.params, [target], [])
  }

  /** `(SELECT ARRAY_AGG((SELECT AS STRUCT * FROM target WHERE where)))`. */
  function ArrayAggregate(target: string, where: Expr): Expr {
    var structSelect := Select(true, [Star], Some(TableName(target, None)), where);
    var agg := CallExpr("ARRAY_AGG", [ScalarSubquery(Plain(structSelect))]);
    ScalarSubquery(Plain(Select(false, [ExprItem(agg)], None, NilExpr)))
  }

  /** `(SELECT AS STRUCT <results> FROM <from> WHERE <where>)` of the built subquery. */
  function StructSubquery(built: Select): Expr {
    ScalarSubquery(Plain(Select(true, built.results, built.from, built.where)))
  }

  // ---------------------------------------------------------------------
  // The interpreters

  /** Runs an expression option against `s`, starting from a nil expression holder. */
  function EvalPred<V>(s: State<V>, p: Pred<V>): (r: (State<V>, Expr))
    ensures OnlyParamsChanged(s, r.0)
    ensures s.params <= r.0.params
    decreases p
  {
    match p
    case Compare(column, op, value) => OpPred(s, column, op, value)
    case Between(column, low, high) => BetweenPred(s, column, low, high)
    case In(column, values) => InPred(s, column, values)
    case NullCheck(column, negated) => NullPred(s, column, negated)
    case AndAll(preds) => Combine(s, OpAnd, preds)
    case OrAll(preds) => Combine(s, OpOr, preds)
    case Not(inner) =>
      var (s1, e) := EvalPred(s, inner);
      (s1, Negate(e))
    case WhereExists(target, keys, junction, junctionKeys, opts) =>
      Exists(s, target, keys, junction, junctionKeys, opts)
  }

  /** `And` / `Or`: nothing for no options, the lone expression for one, else a parenthesised chain. */
  function Combine<V>(s: State<V>, op: BinaryOp, preds: seq<Pred<V>>): (r: (State<V>, Expr))
    ensures OnlyParamsChanged(s, r.0)
    ensures s.params <= r.0.params
    decreases preds
  {
    if |preds| == 0 then (s, NilExpr)
    else
      var (s1, first) := EvalPred(s, preds[0]);
      CombineRest(s1, op, preds[1..], first)
  }

  /** The loop of `And` / `Or`: `left := (left op right)` for each remaining option, left to right. */
  function CombineRest<V>(s: State<V>, op: BinaryOp, preds: seq<Pred<V>>, left: Expr): (r: (State<V>, Expr))
    ensures OnlyParamsChanged(s, r.0)
    ensures s.params <= r.0.params
    decreases preds
  {
    if |preds| == 0 then (s, left)
    else
      var (s1, right) := EvalPred(s, preds[0]);
      CombineRest(s1, op, preds[1..], ParenExpr(BinaryExpr(op, left, right)))
  }

  /** `WhereExists`: `EXISTS(SELECT 1 FROM ...)` correlated with the current alias. */
  function Exists<V>(s: State<V>, target: string, keys: KeyPair, junction: string,
                     junctionKeys: KeyPair, opts: seq<Opt<V>>): (r: (State<V>, Expr))
    ensures OnlyParamsChanged(s, r.0)
    ensures s.params <= r.0.params
    ensures r.1.ExistsExpr?
    decreases opts, 1
  {
    var base := CurrentAlias(s.path);
    var body :=
      if junction == "" then
        Select(false, [ExprItem(IntLiteral("1"))], Some(TableName(target, None)),
               DirectCorrelation(target, base, keys))
      else
        Select(false, [ExprItem(IntLiteral("1"))], Some(TargetJunctionJoin(target, junction, junctionKeys)),
               JunctionCorrelation(junction, base, keys));
    var (sub, built) := ApplyOpts(SubState(s, target), Plain(body), opts);
    (s.(params := sub.params), ExistsExpr(built))
  }

  /** `WithSubquery`: appends one subquery column aliased by the relationship name. */
  function AddSubquery<V>(s: State<V>, name: string, target: string, keys: KeyPair, isArray: bool,
                          junction: string, junctionKeys: KeyPair, opts: seq<Opt<V>>): (r: State<V>)
    ensures r.path == s.path && r.tables == s.tables
    ensures s.params <= r.params
    ensures |r.subqueryColumns| == |s.subqueryColumns| + 1
    ensures r.subqueryColumns[..|s.subqueryColumns|] == s.subqueryColumns
    ensures r.subqueryColumns[|s.subqueryColumns|].alias == name
    decreases opts, 1
  {
    var base := CurrentAlias(s.path);
    var where :=
      if junction == "" then DirectCorrelation(target, base, keys)
      else JunctionMembership(target, junction, base, keys, junctionKeys);
    var body := Select(false, [Star], Some(TableName(target, None)), where);
    var (sub, built) := ApplyOpts(SubState(s, target), Plain(body), opts);
    var expr := if isArray then ArrayAggregate(target, built.body.where) else StructSubquery(built.body);
    s.(params := sub.params, subqueryColumns := s.subqueryColumns + [SubqueryColumn(name, expr)])
  }

  /** Replaces the FROM source of `q`. */
  function SetFrom(q: Query, source: TableExpr): (r: Query)
    ensures HasFrom(r) && r.body.from.value == source
  {
    q.(body := q.body.(from := Some(source)))
  }

  /**
    What every query option guarantees: the query keeps a FROM clause, its
    select list and AS STRUCT flag; the relationship path is restored; the
    parameters, allocated aliases and pending subquery columns only grow; a
    right-leaning join tree stays right-leaning.
   */
  ghost predicate Extends<V>(s: State<V>, q: Query, r: (State<V>, Query))
    requires HasFrom(q)
  {
    && HasFrom(r.1)
    && r.0.path == s.path
    && s.params <= r.0.params
    && s.tables <= r.0.tables
    && s.subqueryColumns <= r.0.subqueryColumns
    && r.1.body.results == q.body.results && r.1.body.asStruct == q.body.asStruct
    && (RightLeaning(q.body.from.value) ==> RightLeaning(r.1.body.from.value))
  }

  /** `DirectJoin`: one join to `target AS alias`, nested options run inside the relationship's scope. */
  function DirectJoinStep<V>(s: State<V>, q: Query, name: string, target: string, keys: KeyPair,
                             joinType: JoinOp, opts: seq<Opt<V>>): (r: (State<V>, Query))
    requires HasFrom(q)
    ensures Extends(s, q, r)
    decreases opts, 1
  {
    var base := CurrentAlias(s.path);
    var (s1, alias) := RegisterRelationship(s, name);
    var q1 := SetFrom(q, MakeJoin(q.body.from.value, base, target, alias, keys, joinType));
    var (s2, q2) := ApplyOpts(s1, q1, opts);
    (s2.(path := s.path), q2)
  }

  /** `JunctionJoin`: joins through the junction table, nested options run inside the relationship's scope. */
  function JunctionJoinStep<V>(s: State<V>, q: Query, name: string, junction: string, baseToJunction: KeyPair,
                               target: string, junctionToTarget: KeyPair, joinType: JoinOp,
                               opts: seq<Opt<V>>): (r: (State<V>, Query))
    requires HasFrom(q)
    ensures Extends(s, q, r)
    decreases opts, 1
  {
    var base := CurrentAlias(s.path);
    var (s1, junctionAlias) := RegisterJunction(s, junction);
    var (s2, alias) := RegisterRelationship(s1, name);
    var q1 := SetFrom(q, JoinThrough(q.body.from.value, base, junction, junctionAlias, target, alias,
                                     baseToJunction, junctionToTarget, joinType));
    var (s3, q2) := ApplyOpts(s2, q1, opts);
    (s3.(path := s.path), q2)
  }

  /** Runs one query option. */
  function ApplyOpt<V>(s: State<V>, q: Query, o: Opt<V>): (r: (State<V>, Query))
    requires HasFrom(q)
    ensures Extends(s, q, r)
    decreases o
  {
    match o
    case Filter(p) =>
      var (s1, e) := EvalPred(s, p);
      (s1, q.(body := q.body.(where := AndWhere(q.body.where, e))))
    case OrderBy(column, dir) =>
      (s, q.(orderBy := q.orderBy + [OrderItem(PathExpr(CurrentAlias(s.path), column), dir)]))
    case Limit(count) =>
      (s, q.(limit := Some(count)))
    case WithInnerJoin =>
      SetLastJoinOpKeepsShape(q.body.from.value, InnerJoin);
      (s, SetFrom(q, SetLastJoinOp(q.body.from.value, InnerJoin)))
    case DirectJoin(name, target, keys, joinType, opts) =>
      DirectJoinStep(s, q, name, target, keys, joinType, opts)
    case JunctionJoin(name, junction, baseToJunction, target, junctionToTarget, joinType, opts) =>
      JunctionJoinStep(s, q, name, junction, baseToJunction, target, junctionToTarget, joinType, opts)
    case WithSubquery(name, target, keys, isArray, junction, junctionKeys, opts) =>
      (AddSubquery(s, name, target, keys, isArray, junction, junctionKeys, opts), q)
  }

  /** Runs query options in order. */
  function ApplyOpts<V>(s: State<V>, q: Query, opts: seq<Opt<V>>): (r: (State<V>, Query))
    requires HasFrom(q)
    ensures Extends(s, q, r)
    decreases opts, 0
  {
    if |opts| == 0 then (s, q)
    else
      var (s1, q1) := ApplyOpt(s, q, opts[0]);
      ApplyOpts(s1, q1, opts[1..])
  }

  /** Changing the last join's kind keeps the tree right-leaning. */
  lemma SetLastJoinOpKeepsShape(t: TableExpr, op: JoinOp)
    ensures RightLeaning(t) ==> RightLeaning(SetLastJoinOp(t, op))
  {
  }

  // ---------------------------------------------------------------------
  // The assembler

  /** The pending subquery columns as `subquery AS alias` select items, in order. */
  function SubqueryItems(cols: seq<SubqueryColumn>): (r: seq<SelectItem>)
    ensures |r| == |cols|
    ensures forall i :: 0 <= i < |cols| ==> r[i] == AliasItem(cols[i].subquery, cols[i].alias)
  {
    seq(|cols|, i requires 0 <= i < |cols| => AliasItem(cols[i].subquery, cols[i].alias))
  }

  /** The bare `SELECT table.* FROM table` that `Select` starts from. */
  function Seed(table: string): (q: Query)
    ensures HasFrom(q)
  {
    Plain(Select(false, [DotStar(table)], Some(TableName(table, None)), NilExpr))
  }

  /**
    `Select`: seeds the state and query, folds the options in order, then
    appends the pending subquery columns. Returns the syntax tree (Go returns
    its SQL text) and the parameter list.
   */
  function SelectQuery<V>(table: string, opts: seq<Opt<V>>): (r: (Query, seq<V>))
    ensures var (s, q) := ApplyOpts(Root<V>(table), Seed(table), opts);
            && r.1 == s.params
            && r.0.body.results == [DotStar(table)] + SubqueryItems(s.subqueryColumns)
            && r.0.body.from == q.body.from && r.0.body.where == q.body.where
            && r.0.orderBy == q.orderBy && r.0.limit == q.limit
            && RightLeaning(r.0.body.from.value)
  {
    var (s, q) := ApplyOpts(Root<V>(table), Seed(table), opts);
    (q.(body := q.body.(results := q.body.results + SubqueryItems(s.subqueryColumns))), s.params)
  }
}
