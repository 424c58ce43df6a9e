/**
  The older aliasing snapshot of `query/helpers.go` and `common/common.go`.
  Here a join picks the first free name among `base`, `base1`, `base2`, …,
  and predicates read a "working alias" held in the state instead of
  deriving one from a relationship path. Nothing in this snapshot appends
  parameters: predicates take parameter names as plain strings.

  `helpers.go` reads `State.WorkingTableAlias`, which the `State` of
  `common.go` does not declare; the model's `LegacyState` has the field.
 */
module Legacy {

  import opened Wrappers
  import opened Strings
  import opened Ast
  import BuildState
  import Builder

  /** `common.State` with the working alias `helpers.go` relies on. */
  datatype LegacyState<V> = LegacyState(tables: set<string>, params: seq<V>, workingAlias: string)

  /**
    An `ExprOption` of `common`. `Fixed` stands for any option that writes a
    given expression (`NilExpr`: writes nothing); `Column` for one that writes
    `BuildColumnExpr` at the working alias.
   */
  datatype LPred =
    | Fixed(expr: Expr)
    | Column(column: string, op: BinaryOp, paramName: string)
    | AndP(left: LPred, right: LPred)
    | OrP(left: LPred, right: LPred)
    | ParenP(inner: LPred)

  /** `JoinConfig`. */
  datatype JoinConfig = JoinConfig(baseTable: string, targetTable: string, baseKey: string, targetKey: string)

  /**
    The query options `BuildSelect` runs: `common.Where` lifted from the
    `SELECT` to the enclosing query (it is a `SelectOption`, so a caller
    wraps it to pass it in), and `BuildJoin`.
   */
  datatype LOpt =
    | LWhere(pred: LPred)
    | LJoin(config: JoinConfig, whereOpt: Option<LPred>)

  // ---------------------------------------------------------------------
  // Expression helpers of helpers.go

  function BuildAndExpr(left: Expr, right: Expr): Expr {
    ParenExpr(BinaryExpr(OpAnd, left, right))
  }

  function BuildOrExpr(left: Expr, right: Expr): Expr {
    ParenExpr(BinaryExpr(OpOr, left, right))
  }

  function BuildParenExpr(inner: Expr): Expr {
    ParenExpr(inner)
  }

  function BuildColumnExpr(alias: string, column: string, op: BinaryOp, paramName: string): Expr {
    BinaryExpr(op, PathExpr(alias, column), ParamExpr(paramName))
  }

  /**
    The expression an `ExprOption` writes. `And`, `Or` and `Paren` of
    `common.go` build the binary node, fill its left then its right side, and
    wrap it in parentheses.
   */
  function EvalL<V>(s: LegacyState<V>, p: LPred): (r: Expr)
    ensures (p.AndP? || p.OrP? || p.ParenP?) ==> r.ParenExpr?
    ensures r == NilExpr <==> p == Fixed(NilExpr)
  {
    match p
    case Fixed(e) => e
    case Column(column, op, name) => BuildColumnExpr(s.workingAlias, column, op, name)
    case AndP(l, r) => ParenExpr(BinaryExpr(OpAnd, EvalL(s, l), EvalL(s, r)))
    case OrP(l, r) => ParenExpr(BinaryExpr(OpOr, EvalL(s, l), EvalL(s, r)))
    case ParenP(inner) => ParenExpr(EvalL(s, inner))
  }

  /** The combinators of `common.go` build exactly what the helpers of `helpers.go` build. */
  lemma CombinatorsMatchHelpers<V>(s: LegacyState<V>, l: LPred, r: LPred)
    ensures EvalL(s, AndP(l, r)) == BuildAndExpr(EvalL(s, l), EvalL(s, r))
    ensures EvalL(s, OrP(l, r)) == BuildOrExpr(EvalL(s, l), EvalL(s, r))
    ensures EvalL(s, ParenP(l)) == BuildParenExpr(EvalL(s, l))
  {
  }

  /** A column predicate reads the working alias and nothing else of the state. */
  lemma ColumnReadsWorkingAlias<V>(s: LegacyState<V>, t: LegacyState<V>, p: LPred)
    requires s.workingAlias == t.workingAlias
    ensures EvalL(s, p) == EvalL(t, p)
  {
  }

  /**
    The legacy column expression is the one the current builder's `Op`
    writes when the alias is the current alias and the parameter name is the
    next `p<i>`.
   */
  lemma ColumnMatchesOp<V>(s: BuildState.State<V>, column: string, op: BinaryOp, value: V)
    ensures Builder.OpPred(s, column, op, value).1 ==
            BuildColumnExpr(BuildState.CurrentAlias(s.path), column, op, BuildState.ParamName(|s.params|))
  {
  }

  // ---------------------------------------------------------------------
  // Numeric-suffix alias search

  /** The `k`-th name tried: the base itself, then `base1`, `base2`, …. */
  function Candidate(base: string, k: nat): (r: string)
    ensures k == 0 <==> |r| == |base|
    ensures base <= r
  {
    if k == 0 then base else base + NatToString(k)
  }

  /** Different attempts try different names. */
  lemma CandidatesDistinct(base: string, i: nat, j: nat)
    ensures i != j ==> Candidate(base, i) != Candidate(base, j)
  {
    if i != j && i != 0 && j != 0 && Candidate(base, i) == Candidate(base, j) {
      assert Candidate(base, i)[|base|..] == NatToString(i);
      assert Candidate(base, j)[|base|..] == NatToString(j);
      NatToStringInjective(i, j);
    }
  }

  /** The first `n` names tried. */
  function Tried(base: string, n: nat): (r: set<string>)
    ensures forall j :: 0 <= j < n ==> Candidate(base, j) in r
  {
    if n == 0 then {} else Tried(base, n - 1) + {Candidate(base, n - 1)}
  }

  lemma {:induction false} TriedSize(base: string, n: nat)
    ensures |Tried(base, n)| == n
    ensures forall x :: x in Tried(base, n) ==> exists j :: 0 <= j < n && x == Candidate(base, j)
  {
    if n > 0 {
      TriedSize(base, n - 1);
      if Candidate(base, n - 1) in Tried(base, n - 1) {
        var j :| 0 <= j < n - 1 && Candidate(base, n - 1) == Candidate(base, j);
        CandidatesDistinct(base, j, n - 1);
      }
    }
  }

  lemma SubsetSize<T>(a: set<T>, b: set<T>)
    requires a <= b
    ensures |a| <= |b|
  {
    assert b == a + (b - a);
  }

  /** If the first `n` names are all taken, there are at least `n` taken names. */
  lemma TakenBound(tables: set<string>, base: string, n: nat)
    requires forall j :: 0 <= j < n ==> Candidate(base, j) in tables
    ensures n <= |tables|
  {
    TriedSize(base, n);
    SubsetSize(Tried(base, n), tables);
  }

  /**
    The loop of `BuildJoin`, from attempt `k` on: the index of the first name
    not in `tables`. It stops after at most `|tables|` attempts.
   */
  function FreshIndex(tables: set<string>, base: string, k: nat): (r: nat)
    requires forall j :: 0 <= j < k ==> Candidate(base, j) in tables
    ensures k <= r <= |tables|
    ensures Candidate(base, r) !in tables
    ensures forall j :: 0 <= j < r ==> Candidate(base, j) in tables
    decreases |tables| - k
  {
    TakenBound(tables, base, k);
    if Candidate(base, k) !in tables then k
    else
      TakenBound(tables, base, k + 1);
      FreshIndex(tables, base, k + 1)
  }

  /** The alias `BuildJoin` allocates for `base`. */
  function FreshAlias(tables: set<string>, base: string): string {
    Candidate(base, FreshIndex(tables, base, 0))
  }

  /**
    The alias is the first free name of the sequence `base`, `base1`, …: it is
    not taken, it is `base` itself when that is free, and otherwise a
    numbered name all of whose predecessors are taken.
   */
  lemma FreshAliasSpec(tables: set<string>, base: string)
    ensures FreshAlias(tables, base) !in tables
    ensures base !in tables ==> FreshAlias(tables, base) == base
    ensures base in tables ==>
              exists k :: 1 <= k <= |tables| && FreshAlias(tables, base) == base + NatToString(k)
                          && forall j :: 0 <= j < k ==> Candidate(base, j) in tables
    ensures forall j :: 0 <= j < FreshIndex(tables, base, 0) ==> Candidate(base, j) != FreshAlias(tables, base)
  {
    var k := FreshIndex(tables, base, 0);
    if base in tables {
      assert Candidate(base, 0) in tables;
      assert k >= 1;
    }
  }

  /** No free name comes earlier: any free candidate has an index at least the chosen one's. */
  lemma FreshAliasFirst(tables: set<string>, base: string, j: nat)
    requires Candidate(base, j) !in tables
    ensures FreshIndex(tables, base, 0) <= j
  {
  }

  // ---------------------------------------------------------------------
  // BuildJoin

  /** How the joined table is named: as in the source, or as evidently intended. */
  datatype Naming = AsWritten | Corrected

  /**
    The right-hand table of the join. As written, the alias is put where the
    table name goes, with no `AS`; corrected, it is the target table under
    the alias, as the current builder's `join` writes it.
   */
  function RightTable(naming: Naming, target: string, alias: string): TableExpr {
    match naming
    case AsWritten => TableName(alias, None)
    case Corrected => TableName(target, Some(alias))
  }

  /** AND the join's predicate into WHERE: untouched when nil, set when WHERE is empty, else `(old AND new)`. */
  function AddWhere(existing: Expr, e: Expr): (r: Expr)
    ensures e == NilExpr ==> r == existing
    ensures e != NilExpr && existing == NilExpr ==> r == e
    ensures e != NilExpr && existing != NilExpr ==> r == BuildAndExpr(existing, e)
  {
    if e == NilExpr then existing
    else if existing == NilExpr then e
    else ParenExpr(BinaryExpr(OpAnd, existing, e))
  }

  /** The predicate of `whereOpt` evaluated with the working alias set to the join's alias. */
  function JoinPredicate<V>(s: LegacyState<V>, alias: string, whereOpt: Option<LPred>): Expr {
    match whereOpt
    case None => NilExpr
    case Some(p) => EvalL(s.(workingAlias := alias), p)
  }

  /**
    `BuildJoin` with the given naming of the joined table: allocate the
    alias, join the current FROM source to the target with
    `ON base.baseKey = alias.targetKey`, and AND the nested predicate,
    evaluated at the new alias, into WHERE. The working alias is restored.
   */
  function BuildJoinWith<V>(naming: Naming, s: LegacyState<V>, q: Query, config: JoinConfig,
                            whereOpt: Option<LPred>): (r: (LegacyState<V>, Query))
    requires HasFrom(q)
    ensures var alias := FreshAlias(s.tables, config.targetTable);
            alias !in s.tables && r.0 == s.(tables := s.tables + {alias})
            && |r.0.tables| == |s.tables| + 1
            && r.1.body.from == Some(Join(q.body.from.value, InnerJoin, RightTable(naming, config.targetTable, alias),
                                          EqPaths(config.baseTable, config.baseKey, alias, config.targetKey)))
            && r.1.body.where == AddWhere(q.body.where, JoinPredicate(s, alias, whereOpt))
    ensures r.0.workingAlias == s.workingAlias && r.0.params == s.params
    ensures r.1.body.results == q.body.results && r.1.orderBy == q.orderBy && r.1.limit == q.limit
    ensures HasFrom(r.1)
  {
    var alias := FreshAlias(s.tables, config.targetTable);
    FreshAliasSpec(s.tables, config.targetTable);
    var join := Join(q.body.from.value, InnerJoin, RightTable(naming, config.targetTable, alias),
                     EqPaths(config.baseTable, config.baseKey, alias, config.targetKey));
    var where := AddWhere(q.body.where, JoinPredicate(s, alias, whereOpt));
    (s.(tables := s.tables + {alias}), q.(body := q.body.(from := Some(join), where := where)))
  }

  /** `BuildJoin` exactly as the source writes it. */
  function BuildJoinAsWritten<V>(s: LegacyState<V>, q: Query, config: JoinConfig, whereOpt: Option<LPred>)
    : (r: (LegacyState<V>, Query))
    requires HasFrom(q)
    ensures HasFrom(r.1) && r.1.body.from.value.Join?
    ensures r.1.body.from.value.right == TableName(FreshAlias(s.tables, config.targetTable), None)
  {
    BuildJoinWith(AsWritten, s, q, config, whereOpt)
  }

  /** `BuildJoin` with the joined table named `target AS alias`. */
  function BuildJoin<V>(s: LegacyState<V>, q: Query, config: JoinConfig, whereOpt: Option<LPred>)
    : (r: (LegacyState<V>, Query))
    requires HasFrom(q)
    ensures HasFrom(r.1) && r.1.body.from.value.Join?
    ensures r.1.body.from.value.right == TableName(config.targetTable, Some(FreshAlias(s.tables, config.targetTable)))
  {
    BuildJoinWith(Corrected, s, q, config, whereOpt)
  }

  /**
    As written, a second join of a table already in the query names a table
    that is not the target: the alias (`user1`, say) stands in the table
    position, so the SQL would read from a table called `user1`.
   */
  lemma AsWrittenLosesTarget<V>(s: LegacyState<V>, q: Query, config: JoinConfig, whereOpt: Option<LPred>)
    requires HasFrom(q) && config.targetTable in s.tables
    ensures var right := BuildJoinAsWritten(s, q, config, whereOpt).1.body.from.value.right;
            right.name != config.targetTable && right.alias.None?
  {
    FreshAliasSpec(s.tables, config.targetTable);
  }

  /** The concrete case: joining `user` to itself makes the as-written join read table `user1`. */
  lemma AsWrittenSelfJoin()
    ensures var q := BuildSelectQuery("user");
            var s := BuildSelectState<int>("user");
            var config := JoinConfig("user", "user", "ManagerID", "ID");
            BuildJoinAsWritten(s, q, config, None).1.body.from.value.right == TableName("user1", None)
            && BuildJoin(s, q, config, None).1.body.from.value.right == TableName("user", Some("user1"))
  {
    AliasAfter({"user"}, "user");
  }

  /**
    Corrected, the joined table is always the configured target, and the name
    the ON condition and the nested predicate use is its alias, which no
    earlier table uses.
   */
  lemma CorrectedKeepsTarget<V>(s: LegacyState<V>, q: Query, config: JoinConfig, whereOpt: Option<LPred>)
    requires HasFrom(q)
    ensures var j := BuildJoin(s, q, config, whereOpt).1.body.from.value;
            j.right.name == config.targetTable && j.right.alias.Some?
            && j.right.alias.value !in s.tables
            && j.cond == EqPaths(config.baseTable, config.baseKey, j.right.alias.value, config.targetKey)
  {
    FreshAliasSpec(s.tables, config.targetTable);
  }

  /** A column predicate nested in a join is written against the join's alias. */
  lemma NestedColumnSeesAlias<V>(s: LegacyState<V>, q: Query, config: JoinConfig, column: string,
                                 op: BinaryOp, paramName: string)
    requires HasFrom(q) && q.body.where == NilExpr
    ensures var alias := FreshAlias(s.tables, config.targetTable);
            BuildJoin(s, q, config, Some(Column(column, op, paramName))).1.body.where ==
              BuildColumnExpr(alias, column, op, paramName)
  {
  }

  // ---------------------------------------------------------------------
  // Options and BuildSelect

  /** `common.Where` on the statement: WHERE becomes exactly the new expression. */
  function SetWhere<V>(s: LegacyState<V>, q: Query, p: LPred): (r: Query)
    ensures r.body.from == q.body.from && r.body.results == q.body.results
    ensures r.orderBy == q.orderBy && r.limit == q.limit
  {
    q.(body := q.body.(where := EvalL(s, p)))
  }

  /** One option, with joins named by `naming`. */
  function Apply<V>(naming: Naming, s: LegacyState<V>, q: Query, o: LOpt): (r: (LegacyState<V>, Query))
    requires HasFrom(q)
    ensures HasFrom(r.1) && s.tables <= r.0.tables
    ensures r.0.workingAlias == s.workingAlias && r.0.params == s.params
    ensures |r.0.tables| == |s.tables| + (if o.LJoin? then 1 else 0)
  {
    match o
    case LWhere(p) => (s, SetWhere(s, q, p))
    case LJoin(config, whereOpt) => BuildJoinWith(naming, s, q, config, whereOpt)
  }

  function JoinCount(opts: seq<LOpt>): nat {
    if |opts| == 0 then 0 else (if opts[0].LJoin? then 1 else 0) + JoinCount(opts[1..])
  }

  /**
    The options folded in order. Every join adds a name no earlier table or
    join used, so the table set grows by exactly the number of joins: unlike
    the path-derived aliases of the current builder, these never collide.
   */
  function ApplyAll<V>(naming: Naming, s: LegacyState<V>, q: Query, opts: seq<LOpt>): (r: (LegacyState<V>, Query))
    requires HasFrom(q)
    ensures HasFrom(r.1) && s.tables <= r.0.tables
    ensures |r.0.tables| == |s.tables| + JoinCount(opts)
    ensures r.0.workingAlias == s.workingAlias && r.0.params == s.params
    decreases opts
  {
    if |opts| == 0 then (s, q)
    else
      var (s1, q1) := Apply(naming, s, q, opts[0]);
      ApplyAll(naming, s1, q1, opts[1..])
  }

  /** A later `Where` overwrites an earlier one. */
  lemma WhereOverwrites<V>(naming: Naming, s: LegacyState<V>, q: Query, p1: LPred, p2: LPred)
    requires HasFrom(q)
    ensures ApplyAll(naming, s, q, [LWhere(p1), LWhere(p2)]) == ApplyAll(naming, s, q, [LWhere(p2)])
  {
    assert [LWhere(p1), LWhere(p2)][1..] == [LWhere(p2)];
  }

  /** `SELECT * FROM table` with no condition. */
  function BuildSelectQuery(table: string): Query {
    Plain(Select(false, [Star], Some(TableName(table, None)), NilExpr))
  }

  /** The starting state: the table taken, no parameters, the table as working alias. */
  function BuildSelectState<V>(table: string): LegacyState<V> {
    LegacyState({table}, [], table)
  }

  /**
    `BuildSelect`, returning the syntax tree in place of its SQL text, and the
    parameters. No option of this snapshot appends a parameter, so the list
    is always empty; the result keeps the single `*` item and one table name
    per join plus the root is allocated.
   */
  function BuildSelect<V>(naming: Naming, table: string, opts: seq<LOpt>): (r: (Query, seq<V>))
    ensures r.1 == []
    ensures r.0.body.results == [Star] && HasFrom(r.0)
    ensures r.0.orderBy == [] && r.0.limit.None?
  {
    var (s, q) := ApplyAll(naming, BuildSelectState<V>(table), BuildSelectQuery(table), opts);
    ApplyAllKeepsShape(naming, BuildSelectState<V>(table), BuildSelectQuery(table), opts);
    (q, s.params)
  }

  lemma {:induction false} ApplyAllKeepsShape<V>(naming: Naming, s: LegacyState<V>, q: Query, opts: seq<LOpt>)
    requires HasFrom(q)
    ensures var r := ApplyAll(naming, s, q, opts).1;
            r.body.results == q.body.results && r.orderBy == q.orderBy && r.limit == q.limit
    decreases opts
  {
    if |opts| > 0 {
      var (s1, q1) := Apply(naming, s, q, opts[0]);
      ApplyAllKeepsShape(naming, s1, q1, opts[1..]);
    }
  }

  /** The alias for `base` when `base` is taken and `base1` is free. */
  lemma AliasAfter(tables: set<string>, base: string)
    requires base in tables && base + "1" !in tables
    ensures FreshAlias(tables, base) == base + "1"
  {
    assert NatToString(1) == "1";
    assert Candidate(base, 0) in tables;
    assert Candidate(base, 1) !in tables;
    FreshAliasFirst(tables, base, 1);
  }

  /**
    Joining `post` twice from `user`: the first join allocates `post` itself,
    the second `post1`, and each nested predicate is written against its
    join's alias, ANDed in order. As written, the joined tables read `post`
    and `post1`, the second of which is not the target table; corrected,
    they read `post AS post` and `post AS post1`.
   */
  lemma TwoJoinsScenario(naming: Naming)
    ensures var c := JoinConfig("user", "post", "ID", "UserID");
            var r := BuildSelect<int>(naming, "user", [LJoin(c, Some(Column("title", OpEqual, "p0"))),
                                                       LJoin(c, Some(Column("title", OpEqual, "p1")))]);
            && r.0.body.from == Some(Join(Join(TableName("user", None), InnerJoin, RightTable(naming, "post", "post"),
                                               EqPaths("user", "ID", "post", "UserID")),
                                          InnerJoin, RightTable(naming, "post", "post1"),
                                          EqPaths("user", "ID", "post1", "UserID")))
            && r.0.body.where == BuildAndExpr(BuildColumnExpr("post", "title", OpEqual, "p0"),
                                              BuildColumnExpr("post1", "title", OpEqual, "p1"))
    ensures naming == AsWritten ==>
              RightTable(naming, "post", "post") == TableName("post", None)
              && RightTable(naming, "post", "post1") == TableName("post1", None)
    ensures naming == Corrected ==>
              RightTable(naming, "post", "post") == TableName("post", Some("post"))
              && RightTable(naming, "post", "post1") == TableName("post", Some("post1"))
  {
    var c := JoinConfig("user", "post", "ID", "UserID");
    var o1 := LJoin(c, Some(Column("title", OpEqual, "p0")));
    var o2 := LJoin(c, Some(Column("title", OpEqual, "p1")));
    var s0 := BuildSelectState<int>("user");
    var q0 := BuildSelectQuery("user");
    FreshAliasSpec({"user"}, "post");
    assert FreshAlias({"user"}, "post") == "post";
    ColumnJoinStep(naming, s0, q0, c, "title", "p0");
    var r1 := Apply(naming, s0, q0, o1);
    assert r1.0.tables == {"user", "post"};
    assert r1.1.body.where == BuildColumnExpr("post", "title", OpEqual, "p0");
    AliasAfter({"user", "post"}, "post");
    assert FreshAlias(r1.0.tables, "post") == "post1";
    ColumnJoinStep(naming, r1.0, r1.1, c, "title", "p1");
    var r2 := Apply(naming, r1.0, r1.1, o2);
    assert r2.1.body.where == BuildAndExpr(BuildColumnExpr("post", "title", OpEqual, "p0"),
                                           BuildColumnExpr("post1", "title", OpEqual, "p1"));
    assert [o1, o2][1..] == [o2];
    assert ApplyAll(naming, s0, q0, [o1, o2]) == ApplyAll(naming, r1.0, r1.1, [o2]);
    assert ApplyAll(naming, r1.0, r1.1, [o2]) == r2;
  }

  /**
    One join with a nested column predicate: the alias is allocated, the
    table joined under the given naming, and the column compared at the alias.
   */
  lemma ColumnJoinStep<V>(naming: Naming, s: LegacyState<V>, q: Query, c: JoinConfig, column: string, param: string)
    requires HasFrom(q)
    ensures var alias := FreshAlias(s.tables, c.targetTable);
            var r := Apply(naming, s, q, LJoin(c, Some(Column(column, OpEqual, param))));
            r.0 == s.(tables := s.tables + {alias})
            && r.1.body.from == Some(Join(q.body.from.value, InnerJoin, RightTable(naming, c.targetTable, alias),
                                          EqPaths(c.baseTable, c.baseKey, alias, c.targetKey)))
            && r.1.body.where == AddWhere(q.body.where, BuildColumnExpr(alias, column, OpEqual, param))
  {
    var alias := FreshAlias(s.tables, c.targetTable);
    assert JoinPredicate(s, alias, Some(Column(column, OpEqual, param))) == BuildColumnExpr(alias, column, OpEqual, param);
  }

}
