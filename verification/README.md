# plate: a Dafny model of the query builder and generator core

plate is a Go library for Cloud Spanner. It builds SQL syntax trees (memefish's `ast`) from typed options, and it has a code generator that writes one query-builder package per table from a configuration of models and relations. This project models the following:

- **Build state and aliases** (`state.dfy`, module `BuildState`).
  - The per-query `State` holds the allocated aliases, the append-only parameter list, the relationship-path stack and the pending subquery columns.
  - `CurrentAlias` derives an alias from the path.
  - `registerRelationship`, `RegisterJunction` and `WithRelationship` are modelled.
  - Parameters are named `p<i>`.
- **Query builder** (`ast.dfy`, `builder.dfy`, module `Builder`).
  - Column predicates and the `And`/`Or`/`Not` combinators.
  - The implicit AND of `ExprOption.Apply`.
  - `OrderBy`, `Limit` and `WithInnerJoinOption` with `findLastJoin`.
  - `DirectJoin` and `JunctionJoin`, with `join` and `joinThrough`.
  - `WithSubquery`, `WhereExists` and the `Select` assembler.
  - Go closures become two mutually recursive datatypes: `Pred` (expression options) and `Opt` (query options). Pure functions (`EvalPred`, `ApplyOpt`, `ApplyOpts`) interpret them and thread the state explicitly.
- **Properties of the builder** (`builder_props.dfy`, module `BuilderProps`).
- **Subquery helpers** (`subquery.dfy`, module `Subquery`). This covers the `subquery` and `subqueryContext` helper sets.
  - Both helper sets share one `Correlation` record.
  - Lemmas show that the helpers rebuild what `WhereExists` and `WithSubquery` assemble inline, given the assumed bodies of two functions the helpers call (see "## Left out").
- **Generator**:
  - `snake.dfy` models `toSnakeCase`.
  - `extractor.dfy` models column extraction and Spanner type inference. An explicit field/type description replaces reflection.
  - `generator.dfy` models configuration validation, relation derivation, the file layout of `Generate`, the import list and `lastIndex`.
- **Older numeric-suffix alias snapshot** (`legacy.dfy`, module `Legacy`). This covers `query/helpers.go` and `common/common.go`.

Parameter values have an opaque type `V`. `strings.dfy` and `wrappers.dfy` hold shared helpers: decimal rendering and its inverse, `Option` and `Result`.

Behaviour of the code worth knowing:

- **Aliases are not unique.** Joining the same relationship twice at one level reuses its alias, and the paths `[user, a_b]` and `[user, a, b]` give the same alias (`BuilderProps.AliasCollision`). Only the legacy numeric-suffix strategy allocates fresh names (`Legacy.ApplyAll`).
- **`SELECT table.*`.** `Select` starts from `SELECT table.*`, not `SELECT *`.
- **Parenthesised `Not`.** `Not` always parenthesises its operand, so a simple comparison becomes `NOT (a = @p0)`.
- **Nested `WithSubquery` options are partly dropped.** `WithSubquery` keeps only the WHERE and the parameters of its nested options. Their ORDER BY, LIMIT and subquery columns are discarded. In the ARRAY form, their joins are discarded too.

## Model

| member | source | states |
|---|---|---|
| BuildState.Root | query/query.go:65-73 | The seed state has the table as its alias, only that table allocated, no parameters and no pending columns. |
| BuildState.CurrentAliasPush | types/types.go:50-60 | Pushing a name onto a path of length ≤1 gives that name as the alias. Otherwise the alias is the old alias, `_` and the name. |
| BuildState.ParamNameRoundTrip | types/types.go:127-144 | The parameter name `p<i>` reads back as index `i`. |
| BuildState.ParamNameInjective | types/types.go:127-144 | Distinct parameter indices give distinct names. |
| BuildState.RegisterRelationship | types/types.go:23-32 | Pushes the name and returns the alias of the new path, which is the name itself below depth 2 and `old_alias_name` otherwise. It adds that alias to the table set and changes nothing else. |
| BuildState.RegisterJunction | types/types.go:35-47 | Leaves the path unchanged. Returns `table` when the current alias is empty, else `alias_table`, and adds it to the table set. |
| BuildState.WithRelationship | types/types.go:64-77 | The callback receives the alias of the extended path. Afterwards the path equals exactly its value before the call, and everything else the callback did is kept. |
| Builder.OpPred | types/types.go:127-144 | Appends exactly one value, at the old length. The expression compares `(CurrentAlias, column)` with the parameter whose index is that old length. Earlier parameters stay as a prefix. |
| Builder.BetweenPred | types/types.go:189-208 | Appends min then max at consecutive indices; the BETWEEN is over the current alias's column and those two parameters. |
| Builder.InPred | types/types.go:211-233 | Appends the values in order; the k-th IN element references parameter `old length + k`. |
| Builder.NullPred | types/types.go:236-263 | Leaves the state unchanged; IS NULL and IS NOT NULL differ only in the negation flag. |
| Builder.Negate | query/query.go:240-263 | Always a unary NOT of a parenthesised operand; an operand already parenthesised is not wrapped again. |
| Builder.AndWhere | types/types.go:92-111 | The first predicate becomes WHERE. A later one yields an unparenthesised AND with the previous WHERE on the left. |
| Builder.MakeJoin | query/query.go:184-216 | The prior source goes on the left and `target AS alias` on the right, with `ON base.From = alias.To`. The result keeps the tree right-leaning. |
| Builder.JoinThrough | query/query.go:149-169 | Two nested joins of the same kind: base→junction inside and junction→target outside, with the junction alias in both conditions. |
| Builder.FindLastJoin | query/query.go:172-181 | Returns nothing exactly when the source is not a join. Otherwise the result is a join. |
| Builder.EvalPred | types/types.go:127-263 | Evaluating any predicate changes only the parameter list, and the old parameters stay as a prefix. |
| Builder.Exists | query/query.go:550-702 | `WhereExists` changes only the parameters, keeps the old ones as a prefix, and yields an EXISTS. |
| Builder.AddSubquery | query/query.go:359-546 | `WithSubquery` keeps the path and tables, keeps the parameters as a prefix, and appends exactly one column aliased by the relationship name, after the existing ones. |
| Builder.DirectJoinStep | query/query.go:289-317 | A direct join restores the path and only grows the parameters, tables and columns. It keeps the results and a FROM. |
| Builder.JunctionJoinStep | query/query.go:320-354 | The same guarantees hold for a junction join. |
| Builder.ApplyOpt | types/types.go:92-120 | Every option restores the path and grows parameters, tables and subquery columns only by extension. It never touches the result items and keeps the join tree right-leaning. |
| Builder.ApplyOpts | query/query.go:99-102 | Options applied in order keep the same guarantees. |
| Builder.SetLastJoinOpKeepsShape | query/query.go:277-286 | Changing the last join's kind keeps a right-leaning tree right-leaning. |
| Builder.SubqueryItems | query/query.go:104-114 | One `subquery AS alias` item per pending column, in accumulation order. |
| Builder.SelectQuery | query/query.go:63-117 | `Select` starts from `[table]`, `{table}` and `table.*`, applies the options in order, and appends the subquery columns after `table.*`. It returns the final parameter list. |
| BuilderProps.CurrentAliasShapes | types/types.go:50-60 | The alias is `""` for `[]`, the root for `[post]`, `tags` for `[post, tags]` and `posts_tags` for `[user, posts, tags]`. |
| BuilderProps.AliasCollision | types/types.go:50-60 | The paths `[user, a_b]` and `[user, a, b]` give the same alias, so aliases are not unique. |
| Builder.Combine | query/query.go:11-60 | `And`/`Or` only extend the parameter list and change nothing else in the state. |
| BuilderProps.EvalAll | query/query.go:11-60 | Predicates evaluated in order give one expression each and only extend the parameters. |
| BuilderProps.EvalAllComparesParams | types/types.go:127-144 | A run of comparisons appends exactly their values, in order. |
| BuilderProps.EvalAllComparesExprs | types/types.go:127-144 | The k-th comparison of a run tests `alias.column` against parameter `p<old length + k>`. |
| BuilderProps.CombineThreadsLikeEvalAll | query/query.go:11-60 | `And`/`Or` evaluate their options left to right, threading the parameters exactly as a plain left-to-right evaluation does. |
| BuilderProps.CombineRestThreadsLikeEvalAll | query/query.go:18-31 | The tail of the combination loop threads the state like plain evaluation. |
| BuilderProps.CombineRestSnoc | query/query.go:18-31 | One more option adds one parenthesised binary node on top of the chain built so far. |
| BuilderProps.CombineShape | query/query.go:11-60 | No options leave the expression nil. One option gives its expression unwrapped. For n ≥ 2 options the (n-1)-option chain and the last expression go under one parenthesised binary node. |
| BuilderProps.NotOfCombinationWrapsOnce | query/query.go:240-263 | `Not` over an `And`/`Or` of two or more options is one NOT around the one parenthesised chain. |
| BuilderProps.NotOrScenario | query/query.go:240-263 | `Not(Or(name = a, name = b))` is a single NOT of a single parenthesised OR over `@p0` and `@p1`. |
| BuilderProps.ApplyFilters | types/types.go:92-111 | Positional predicates are evaluated in order and folded into WHERE. |
| BuilderProps.FoldWhereConjuncts | types/types.go:92-111 | Folding atomic expressions appends them as the conjuncts of WHERE in order. Each one adds one AND node, except the first on an empty WHERE. |
| BuilderProps.EvalWellFormedIsAtomic | query/query.go:11-60 | A predicate other than a bare one-element AND of an AND yields a non-nil, non-AND expression. |
| BuilderProps.EvalAllAtomic | query/query.go:11-60 | The previous fact holds for each expression of a list. |
| BuilderProps.SelectImplicitAnd | types/types.go:92-111 | N positional predicates give a WHERE whose top-level conjuncts are their expressions in call order, joined by N-1 left-nested ANDs. |
| BuilderProps.DirectJoinShape | query/query.go:289-317 | `DirectJoin` without nested options joins the prior source to `target AS alias`. The alias comes from the extended path and the ON uses the base alias read before the scope opens. The alias is allocated and the path is unchanged. |
| BuilderProps.DirectJoinNestedSeesAlias | query/query.go:301-314 | A predicate nested in `DirectJoin` resolves against the new alias. It takes the next parameter, and the path is restored afterwards. |
| BuilderProps.DirectJoinUnfold | query/query.go:289-317 | `DirectJoin` registers the relationship, joins, runs its options inside the scope, and then restores the path. |
| BuilderProps.DirectJoinDispatch | query/query.go:289-317 | The `DirectJoin` option is the direct join step. |
| BuilderProps.DirectJoinStepUnfold | query/query.go:289-317 | The direct join step runs the nested options in scope and restores the path. |
| BuilderProps.JunctionJoinUnfold | query/query.go:320-354 | `JunctionJoin` registers the junction (without a push), then the relationship, joins through the junction and runs its options in scope. |
| BuilderProps.JunctionJoinDispatch | query/query.go:320-354 | The `JunctionJoin` option is the junction join step. |
| BuilderProps.JunctionJoinStepUnfold | query/query.go:320-354 | The junction join step runs the nested options in scope and restores the path. |
| BuilderProps.DirectJoinScoped | query/query.go:289-317 | A direct join is `WithRelationship` around the join and the nested options. |
| BuilderProps.JunctionJoinScoped | query/query.go:320-354 | A junction join registers the junction and is then `WithRelationship` around the two joins and the nested options. |
| BuilderProps.ApplySingle | query/query.go:99-102 | A one-option list applies that option. |
| BuilderProps.JunctionJoinShape | query/query.go:320-354 | `JunctionJoin` gives exactly two nested joins of the same kind. The junction alias is derived from the base alias without a push, and the state only gains the two aliases. |
| BuilderProps.FindLastJoinIsOutermost | query/query.go:172-181 | On trees built by `join`, the last join is the outermost (most recent) one, and the override flips only it. |
| BuilderProps.SetLastJoinOpFindsSame | query/query.go:172-181 | After the override, `findLastJoin` finds the same join with the new kind. |
| BuilderProps.SetLastJoinOpUndo | query/query.go:277-286 | Setting the last join back to its old kind restores the tree: nothing else was touched. |
| BuilderProps.InnerJoinOnTableIsNoOp | query/query.go:277-286 | On a bare table, `WithInnerJoinOption` does nothing. |
| BuilderProps.InnerJoinAfterJunctionJoin | query/query.go:277-286 | After a junction join, only the junction→target join becomes INNER; the base→junction join keeps its kind. |
| BuilderProps.WithSubqueryDirectShape | query/query.go:382-398 | A direct `WithSubquery` adds one column, `(SELECT AS STRUCT * FROM target WHERE target.To = base.From)` or its ARRAY_AGG form. The column is aliased by the name, and nothing else changes. |
| BuilderProps.WithSubqueryJunctionShape | query/query.go:399-447 | Through a junction, the correlation is `target.jk.To IN (SELECT junction.jk.From FROM junction WHERE junction.To = base.From)`. |
| BuilderProps.WhereExistsJunctionShape | query/query.go:589-684 | A junction `WhereExists` is FROM `target INNER JOIN junction ON target.jk.To = junction.jk.From` and WHERE only `junction.To = base.From`. The parent state is unchanged. |
| BuilderProps.WhereExistsNestedPredicate | query/query.go:572-700 | A predicate nested in `WhereExists` is ANDed after the correlation. It resolves against the target table and takes the parent's next parameter. |
| BuilderProps.SelectNoOptions | query/query.go:63-117 | `Select` without options is the bare `SELECT table.* FROM table` with no parameters. |
| BuilderProps.SelectEqScenario | query/query.go:63-117 | `Select(user, name = "John")` has WHERE `user.name = @p0` and parameters `["John"]`. |
| BuilderProps.SelectManyToManyScenario | query/query.go:320-354 | A many-to-many from `post` via `post_tag` gives the junction alias `post_post_tag` and the target alias `tags`, with the nested predicate on `tags`. |
| BuilderProps.SelectComposedScenario | query/query.go:63-117 | A LIKE, a belongs-to join with a nested predicate, ORDER BY and LIMIT compose. The ORDER BY resolves against the root again, and the parameters are in construction order. |
| Subquery.NewSubquery | query/subquery.go:20-31 | The base alias is the parent's alias at construction. The sub-state is the one `NewSubqueryState` is assumed to build (see "## Left out"): rooted at the target, sharing the parent's parameters. |
| Subquery.NewSubqueryContext | query/subquery_context.go:19-28 | The base alias is the parent's alias at construction. |
| Subquery.CreateSubState | query/subquery_context.go:31-33 | The sub-state is the one `NewSubqueryState` is assumed to build (see "## Left out"): rooted at the target, sharing the parent's parameters. |
| Subquery.DirectWhere | query/subquery.go:34-39 | Nil exactly for a junction relationship, otherwise `target.To = base.From`. |
| Subquery.JunctionWhere | query/subquery.go:42-61 | Nil exactly when there is no junction, otherwise `junction.To = base.From`. |
| Subquery.JunctionJoinOf | query/subquery.go:64-94 | None for a direct relationship. Otherwise it is `target INNER JOIN junction ON target.jk.To = junction.jk.From`. |
| Subquery.BasicSubquery | query/subquery.go:97-118 | Uses the given items FROM the unaliased target, with a WHERE exactly when the relationship is direct. |
| Subquery.ApplyOptions | query/subquery.go:121-127 | Options run on the sub-state in order. Then the parent's parameters become the sub-state's, which extend the old ones. |
| Subquery.ExistsMatchesHelpers | query/subquery_context.go:19-129 | The EXISTS subquery `WhereExists` builds inline equals the one the context helpers assemble, given the assumed `NewSubqueryState` and `buildDirectRelationshipWhere`. |
| Subquery.SubqueryCorrelationMatchesHelpers | query/subquery.go:34-61 | The correlation `WithSubquery` builds inline is the helpers' direct WHERE, or the helpers' junction correlation inside the IN, given the assumed `buildDirectRelationshipWhere`. |
| Subquery.BuildersAgree | query/subquery_context.go:19-33 | Both helper structs record the same correlation and sub-state for the same arguments. |
| Snake.ToSnakeCase | utils.go:9-32 | The empty string maps to itself. The output has no uppercase letter, and its length is the input length plus the underscores written. |
| Snake.SnakeHasNoUpper | utils.go:16-27 | Every uppercase letter is lowercased. |
| Snake.SnakeIdentity | utils.go:28-30 | A string without uppercase letters is returned unchanged. |
| Snake.SnakeIdempotent | utils.go:9-32 | Converting twice equals converting once. |
| Snake.SnakeLength | utils.go:17-27 | The output length is the input length plus the number of breaks. |
| Snake.SnakePrefixGrows | utils.go:15-31 | The output of a prefix is a prefix of the output. |
| Snake.SnakePosition | utils.go:17-27 | Character i lands after the underscores written before it. An underscore precedes it exactly when it is uppercase, not first, and has a lowercase neighbour. |
| Snake.SnakeExamples | utils.go:17-25 | `UserID` → `user_id` and `PostTag` → `post_tag`. |
| Snake.NoLeadingBreak | utils.go:17 | The first character never gets an underscore. |
| Extractor.GoTypeStringIsTypeString | extractor.go:60-78 | The rendering equals `reflect.Type.String()` exactly when every leaf type has a package path or is a built-in whose name is its `String()` form. |
| Extractor.GoTypeStringTimeIsNamed | extractor.go:60-78 | Slices, arrays and pointers render with a leading `[` or `*`, so only a named type renders as `time.Time`. |
| Extractor.ColumnsContain | extractor.go:24-54 | Every exported, tagged field contributes its column. |
| Extractor.InferSpannerType | extractor.go:82-114 | The result is either empty or a well-formed tag, i.e. a scalar tag or `ARRAY<` of one. |
| Extractor.ColumnOf | extractor.go:35-56 | An explicit `spannerType` tag wins, and inference runs only when it is empty. |
| Extractor.ExtractColumns | extractor.go:18-57 | Fields are kept in declaration order; unexported and untagged fields are skipped. Every column comes from a kept field. |
| Extractor.ColumnsBound | extractor.go:18-57 | There are no more columns than fields. |
| Extractor.ColumnsMember | extractor.go:18-57 | Every column is the column of some exported, tagged field. |
| Extractor.ColumnsAppend | extractor.go:24-54 | Extraction distributes over concatenation, so the order is preserved. |
| Extractor.ColumnsSingle | extractor.go:30-39 | A single field yields its column exactly when it is exported and tagged. |
| Extractor.InferScalars | extractor.go:82-113 | string→STRING, int/int64→INT64, float64→FLOAT64, bool→BOOL, `time.Time`→TIMESTAMP, `civil.Date`→DATE, and anything else → `""`. |
| Extractor.InferSlices | extractor.go:92-101 | `[]byte`→BYTES. A slice of an inferable element→`ARRAY<elem>`, otherwise `""`. |
| Extractor.InferArrayPointer | extractor.go:82-114 | Fixed arrays and pointers infer `""`. |
| Extractor.InferredArrayOperations | extractor.go:132-134 | An inferred tag has array operations exactly when it came from a slice of an inferable non-byte element. |
| Extractor.ScalarNotArray | extractor.go:132-134 | Scalar and empty tags do not start with `ARRAY<`. |
| Extractor.OperationsDisjoint | extractor.go:117-134 | Orderable, string and array operations are mutually exclusive. |
| Extractor.GoTypeStringExamples | extractor.go:60-78 | `[]string`, `*time.Time` and `[4]int64`. |
| Generator.FirstDuplicateNone | generator.go:103-111 | The duplicate scan finds nothing exactly when the names are distinct and none was already seen. |
| Generator.FirstDuplicateSome | generator.go:103-111 | The reported name is the one at the first position whose name was already seen: it repeats an earlier occurrence, and no earlier position repeats anything. |
| Generator.FirstBadJunctionSpec | generator.go:114-119 | No error exactly when every junction has two relations. Otherwise the error names the first junction without two relations and its count. |
| Generator.ValidateSpec | generator.go:101-122 | Validation passes exactly when the type names are distinct and every junction has two relations. A repeated type name gives a duplicate-table error, naming the first position at which a name repeats. |
| Generator.AccumulateGroups | generator.go:155-219 | The relation map holds, for each type, exactly the relations derived for it, in derivation order. A type has an entry only when something was derived for it. |
| Generator.OwnedByAppend | generator.go:155-219 | A type's relations from two batches of derivations are the first batch's then the second's. |
| Generator.HasManyReversesBelongsTo | generator.go:158-179 | A relation with a reverse name yields a belongs_to on the declaring type and a has_many on the target that points back with swapped keys. |
| Generator.NoReverseNoHasMany | generator.go:158-179 | Without a reverse name, only the belongs_to is derived. |
| Generator.ManyToManyMirror | generator.go:183-216 | A junction's two many_to_many relations mirror each other. Each is placed on one side's target and points at the other's. Both name the junction, each has its own keys swapped, and each has the other side's keys as junction keys. |
| Generator.BadJunctionsSkipped | generator.go:185-187 | Junctions without exactly two relations derive nothing. |
| Generator.TableMapOf | generator.go:138-144 | The map's keys are the table type names. |
| Generator.TableMapAdd | generator.go:146-149 | Junction type names are added to the keys. |
| Generator.NeedsTimeFields | generator.go:285-292 | Some column has Go type `time.Time` exactly when some exported, tagged field is the named type rendered `time.Time`. |
| Generator.ImportsOfFields | generator.go:278-295 | A table's imports end with the four fixed ones. `time` comes first, making five, exactly when some exported, tagged field is a `time.Time` value. |
| Generator.PointerTimeImportsNoTime | generator.go:285-295 | A lone `*time.Time` field does not add the `time` import. |
| Generator.PackageFiles | generator.go:86-95 | Exactly one `<snake>/<snake>.go` name per table. |
| Generator.AddBuilders | generator.go:86-95 | The per-table files add exactly those names. |
| Generator.Generate | generator.go:62-98 | Fails exactly when validation fails, with its error and no files. On success the keys are `tables/tables.go` plus one package file per table, and none for junctions. |
| Generator.LastIndex | generator.go:359-367 | The greatest index where the substring occurs, or -1 exactly when it never occurs. |
| Generator.BaseImportPath | generator.go:310-325 | The path is cut just after its last `/plate`, or kept whole when there is none. |
| Generator.ExampleDerivations | generator.go:155-219 | For the example configuration, the derivations are Post.Author, User.Posts, Post.Tags and Tag.Posts, in that order. |
| Generator.ExampleRelations | generator.go:155-219 | The example's relation map has those relations under Post, User and Tag, and nothing else. |
| Generator.ExampleValid | generator.go:101-122 | The example configuration passes validation: distinct type names and a two-relation junction. |
| Generator.ExampleFiles | generator.go:62-98 | The example generates `tables/tables.go`, `user/user.go`, `post/post.go` and `tag/tag.go`, and nothing for the junction. |
| Generator.ExamplePackageNames | generator.go:131-135 | The package names are `user`, `post` and `tag`. |
| Generator.SnakeExample | utils.go:9-32 | A capitalised lowercase word converts to its all-lowercase form. |
| Legacy.EvalL | common/common.go:25-53 | `And`, `Or` and `Paren` always produce a parenthesised node. An option writes nil only when it writes nothing. |
| Legacy.CombinatorsMatchHelpers | query/helpers.go:40-66 | `common.And`/`Or`/`Paren` build exactly `BuildAndExpr`/`BuildOrExpr`/`BuildParenExpr` of their operands. |
| Legacy.ColumnReadsWorkingAlias | query/helpers.go:69-82 | A predicate depends on the state only through the working alias. |
| Legacy.ColumnMatchesOp | query/helpers.go:69-82 | `BuildColumnExpr` at the current alias with the next `p<i>` is what the current builder's `Op` writes. |
| Legacy.Candidate | query/helpers.go:131-145 | Attempt 0 is the base name itself, and every attempt starts with the base name. |
| Legacy.CandidatesDistinct | query/helpers.go:131-145 | Different attempts try different names. |
| Legacy.FreshIndex | query/helpers.go:131-145 | The search stops at the first name not taken, after at most as many attempts as there are taken names. |
| Legacy.FreshAliasSpec | query/helpers.go:131-145 | The alias is not taken. It is the base itself when that is free, and otherwise the first free `base<k>`, with all earlier names taken. |
| Legacy.FreshAliasFirst | query/helpers.go:131-145 | No earlier attempt was free. |
| Legacy.AddWhere | query/helpers.go:182-210 | A nil predicate leaves WHERE untouched. Otherwise the predicate is set when WHERE is empty, or combined as `(old AND new)`. |
| Legacy.BuildJoinWith | query/helpers.go:126-216 | Allocates a fresh alias and grows the table set by one. The join is INNER with the prior source on the left and `ON base.baseKey = alias.targetKey`. The nested predicate is ANDed in at the new alias, and the working alias is restored. |
| Legacy.BuildJoinAsWritten | query/helpers.go:151-164 | As written, the joined table is the bare alias name. |
| Legacy.BuildJoin | query/helpers.go:151-164 | Corrected, the joined table is `target AS alias`. |
| Legacy.AsWrittenLosesTarget | query/helpers.go:151-164 | As written, joining a table already in the query names a table other than the target. |
| Legacy.AsWrittenSelfJoin | query/helpers.go:126-179 | Joining `user` to itself names table `user1` as written, and `user AS user1` when corrected. |
| Legacy.CorrectedKeepsTarget | query/helpers.go:151-179 | Corrected, the joined table is always the target, under an alias no earlier table uses, and the ON condition uses that alias. |
| Legacy.NestedColumnSeesAlias | query/helpers.go:182-213 | A column predicate nested in a join is written against the join's alias. |
| Legacy.SetWhere | common/common.go:15-22 | `Where` replaces the WHERE and leaves FROM, the results, ORDER BY and LIMIT alone. |
| Legacy.WhereOverwrites | common/common.go:15-22 | A second `Where` overwrites the first, under either naming of joins. |
| Legacy.Apply | query/helpers.go:126-216 | Each option keeps the working alias and parameters. A join grows the table set by exactly one. Joins are named as written or as corrected, by a parameter. |
| Legacy.ApplyAll | query/helpers.go:110-112 | The table set grows by exactly the number of joins, so every join's alias is new. This holds under either naming. |
| Legacy.ApplyAllKeepsShape | query/helpers.go:110-112 | Options never change the result items, ORDER BY or LIMIT. |
| Legacy.BuildSelect | query/helpers.go:85-115 | Starts from `SELECT * FROM table` and keeps the single `*` item. Nothing in this snapshot appends parameters, so the list is empty. Holds for the as-written and the corrected join. |
| Legacy.ColumnJoinStep | query/helpers.go:126-216 | A join with a nested column predicate allocates the fresh alias and joins the table under the given naming: the bare alias as written, `target AS alias` corrected. It ANDs the column comparison at that alias into WHERE. |
| Legacy.AliasAfter | query/helpers.go:131-145 | When `base` is taken and `base1` is free, the alias is `base1`. |
| Legacy.TwoJoinsScenario | query/helpers.go:85-216 | Joining `post` twice from `user` allocates `post` and then `post1`. As written the joined tables read `post` and `post1`; corrected, `post AS post` and `post AS post1`. The nested predicates are ANDed in order, each against its own alias. |
| Strings.NatToString | query/helpers.go:140 | The decimal rendering is a non-empty digit string, one digit exactly below 10. |
| Strings.DigitsRoundTrip | query/helpers.go:140 | Reading the decimal rendering of n back gives n. |
| Strings.NatToStringInjective | query/helpers.go:140 | Different numbers render differently. |

## Left out

- SQL text: serialisation through memefish (`q.SQL()`) is an external library. The model stops at the syntax tree, and `Select`/`BuildSelect` return the tree in place of the text.
- Templates: `getTemplates` and `renderTemplate` are not part of this model. A generated file is the data handed to its template.
- Reflection and module lookup:
  - `getTypeName` and the reflection in `extractColumns` are replaced by explicit type names and field descriptions.
  - `getTablesImportPath` (`packages.Load`) and the package path read by `getBaseImportPath` become parameters.
- Go map iteration order: `generateTablesPackage` iterates a map, so its entries are a set.
- writer.go, the drivers, the test harnesses and the per-table call-site modules are not part of this model. They are file I/O, process launching and hard-coded instances.
- Builder.ApplyOpt: it requires a FROM clause. Go panics on the unchecked cast and nil dereference when a select has none, and every select the code builds has one.
- `Where{Expr: nil}` and a missing WHERE are identified. They differ only in serialisation.
- `Limit` keeps its count as an unbounded integer. Go's `int` width does not matter for a count rendered as text.
- Snake.ToSnakeCase: ASCII only. Go's `unicode.IsUpper`/`ToLower` on other scripts, and multi-byte runes indexed by byte, are not modelled.
- Extractor.IsExported: ASCII only, like the snake-case conversion.
- Extractor.InferSpannerType: named composite types are not modelled. Only slices, arrays and pointers are unnamed.
- `BuildLimit`, `BuildOrderByItem` and `BuildWhereClause` of query/helpers.go are not part of this model. They are one-line node constructors that nothing else in the snapshot calls.
- The legacy `common.State` has no working-alias field, although `helpers.go` reads one. The model's `LegacyState` adds it.
- Legacy.LPred: a leaf predicate is either a fixed expression or a column comparison at the working alias. The per-table modules that would supply real leaves call helpers that are not part of this model.
- Generator.AddBuilders: a table whose type is named `Tables` would overwrite `tables/tables.go`. The key set is stated as a union, which covers this without singling it out.
- Parameter values are an opaque type. Nothing inspects them.
- `State.NewSubqueryState` and the free function `buildDirectRelationshipWhere` are called by query/subquery.go:29,38 and query/subquery_context.go:32,40. Neither is defined in the source, so neither is part of this model. The model assumes `NewSubqueryState(target)` is the sub-state `WithSubquery` and `WhereExists` set up inline at query/query.go:372-377 (`Builder.SubState`: path `[target]`, tables `{target}`, the parent's parameters shared). It assumes `buildDirectRelationshipWhere` is the inline correlation of query/query.go:384-398 (`Builder.DirectCorrelation`: `target.To = base.From`). Subquery.NewSubquery, Subquery.CreateSubState and Subquery.DirectWhere use these assumed bodies. The agreement lemmas Subquery.ExistsMatchesHelpers, Subquery.SubqueryCorrelationMatchesHelpers and Subquery.BuildersAgree hold only under them.

## Findings

| source | as written | input that shows it | evidently intended | confidence | as-written member | corrected member |
|---|---|---|---|---|---|---|
| query/helpers.go:151-164 | The right side of the join is a table named by the fresh alias, with no `AS`, so a second join of a table reads from a table called e.g. `user1` | Tables `{user}` and a join config whose target is `user` give `INNER JOIN user1 ON user.ManagerID = user1.ID` (`Legacy.AsWrittenSelfJoin`) | Join the target table under the fresh alias: `INNER JOIN user AS user1`, as `join` in query/query.go:184-216 does | medium, not executed | Legacy.BuildJoinAsWritten (with Legacy.AsWrittenLosesTarget) | Legacy.BuildJoin (with Legacy.CorrectedKeepsTarget); Legacy.Apply, Legacy.ApplyAll and Legacy.BuildSelect take the naming as a parameter and run either |
