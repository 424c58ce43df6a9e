/**
  The slice of the SQL syntax tree (memefish's `ast` package) that the query
  builder assembles. Only the node shapes matter here; turning a tree into SQL
  text belongs to the syntax-tree library and is not modelled.
 */
module Ast {

  import opened Wrappers

  datatype BinaryOp =
    | OpEqual | OpNotEqual | OpLess | OpGreater | OpLessEqual | OpGreaterEqual
    | OpLike | OpNotLike | OpAnd | OpOr

  datatype JoinOp = CommaJoin | CrossJoin | InnerJoin | FullOuterJoin | LeftOuterJoin | RightOuterJoin

  /** ORDER BY direction; `NoDirection` is the empty `ast.Direction`. */
  datatype Direction = NoDirection | DirectionAsc | DirectionDesc

  /** Expressions. `NilExpr` stands for Go's nil `ast.Expr`. */
  datatype Expr =
    | NilExpr
    | PathExpr(table: string, column: string)          // `table.column`
    | ParamExpr(name: string)                          // `@name`
    | IntLiteral(value: string)
    | BinaryExpr(op: BinaryOp, left: Expr, right: Expr)
    | BetweenExpr(negated: bool, subject: Expr, low: Expr, high: Expr)
    | InExpr(negated: bool, subject: Expr, values: seq<Expr>)
    | InSubquery(subject: Expr, query: Query)          // `x IN (SELECT ...)`
    | IsNullExpr(negated: bool, subject: Expr)
    | ParenExpr(inner: Expr)
    | NotExpr(operand: Expr)                           // unary NOT
    | ExistsExpr(query: Query)
    | ScalarSubquery(query: Query)
    | CallExpr(func: string, args: seq<Expr>)

  /** FROM sources: a table with an optional alias, or a join of two sources. */
  datatype TableExpr =
    | TableName(name: string, alias: Option<string>)
    | Join(left: TableExpr, op: JoinOp, right: TableExpr, cond: Expr)

  datatype SelectItem =
    | Star                                   // `*`
    | DotStar(table: string)                 // `table.*`
    | ExprItem(expr: Expr)
    | AliasItem(expr: Expr, alias: string)   // `expr AS alias`

  /**
    A SELECT. `from` is `None` only for the outer `SELECT ARRAY_AGG(...)`
    wrapper; `where` is `NilExpr` when there is no condition.
   */
  datatype Select = Select(asStruct: bool, results: seq<SelectItem>, from: Option<TableExpr>, where: Expr)

  datatype OrderItem = OrderItem(expr: Expr, dir: Direction)

  /** A query: the statement body plus ORDER BY items and LIMIT. */
  datatype Query = Query(body: Select, orderBy: seq<OrderItem>, limit: Option<int>)

  /** A query built from a bare SELECT, without ORDER BY or LIMIT. */
  function Plain(body: Select): Query {
    Query(body, [], None)
  }

  /** `alias.From = target.To`, the join condition used throughout. */
  function EqPaths(lt: string, lc: string, rt: string, rc: string): Expr {
    BinaryExpr(OpEqual, PathExpr(lt, lc), PathExpr(rt, rc))
  }

  /** True for a query whose statement has a FROM clause joins can extend. */
  predicate HasFrom(q: Query) {
    q.body.from.Some?
  }
}
