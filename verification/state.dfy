/**
  The per-query build context of `types/types.go`: allocated aliases, the
  relationship-path stack that aliases are derived from, the append-only
  parameter list and the pending subquery columns.
 */
module BuildState {

  import opened Wrappers
  import opened Ast
  import opened Strings

  /** A column the assembler will add to SELECT as `subquery AS alias`. */
  datatype SubqueryColumn = SubqueryColumn(alias: string, subquery: Expr)

  /** `types.State`; `V` is the type of parameter values (Go's `any`). */
  datatype State<V> = State(
    tables: set<string>,
    params: seq<V>,
    path: seq<string>,
    subqueryColumns: seq<SubqueryColumn>)

  /** The fresh state of a query rooted at `table`. */
  function Root<V>(table: string): (s: State<V>)
    ensures CurrentAlias(s.path) == table
    ensures s.tables == {table} && s.params == [] && s.subqueryColumns == []
  {
    State({table}, [], [table], [])
  }

  /**
    `CurrentAlias`: empty for an empty path, the root table for a one-element
    path, and otherwise the tail of the path (root skipped) joined by `_`.
   */
  function CurrentAlias(path: seq<string>): string {
    if |path| == 0 then ""
    else if |path| == 1 then path[0]
    else JoinStrings(path[1..], "_")
  }

  /** Pushing `name` extends the alias by `_name`, except right under the root. */
  lemma {:induction false} CurrentAliasPush(path: seq<string>, name: string)
    ensures |path| <= 1 ==> CurrentAlias(path + [name]) == name
    ensures |path| >= 2 ==> CurrentAlias(path + [name]) == CurrentAlias(path) + "_" + name
  {
    if |path| >= 2 {
      assert (path + [name])[1..] == path[1..] + [name];
      JoinSnoc(path[1..], "_", name);
    } else if |path| == 1 {
      assert (path + [name])[1..] == [name];
    }
  }

  /** `fmt.Sprintf("p%d", i)`: the name of the `i`-th parameter. */
  function ParamName(i: nat): (r: string)
    ensures |r| >= 2 && r[0] == 'p' && AllDigits(r[1..])
  {
    "p" + NatToString(i)
  }

  /** Reads a parameter name back to its index; the inverse of `ParamName`. */
  function ParamIndex(name: string): Option<nat>
  {
    if |name| >= 2 && name[0] == 'p' && AllDigits(name[1..]) then Some(DigitsToNat(name[1..]))
    else None
  }

  lemma ParamNameRoundTrip(i: nat)
    ensures ParamIndex(ParamName(i)) == Some(i)
  {
    assert ParamName(i)[1..] == NatToString(i);
    DigitsRoundTrip(i);
  }

  /** Distinct indices give distinct parameter names. */
  lemma ParamNameInjective(i: nat, j: nat)
    requires ParamName(i) == ParamName(j)
    ensures i == j
  {
    ParamNameRoundTrip(i);
    ParamNameRoundTrip(j);
  }

  /**
    `registerRelationship`: pushes `name` onto the path and allocates the alias
    of the extended path.
   */
  function RegisterRelationship<V>(s: State<V>, name: string): (r: (State<V>, string))
    ensures r.0.path == s.path + [name] && r.1 == CurrentAlias(r.0.path)
    ensures |s.path| <= 1 ==> r.1 == name
    ensures |s.path| >= 2 ==> r.1 == CurrentAlias(s.path) + "_" + name
    ensures r.0.tables == s.tables + {r.1}
    ensures r.0.params == s.params && r.0.subqueryColumns == s.subqueryColumns
  {
    var path := s.path + [name];
    var alias := CurrentAlias(path);
    CurrentAliasPush(s.path, name);
    (s.(path := path, tables := s.tables + {alias}), alias)
  }

  /** The alias `RegisterJunction` derives for `table` below `current`. */
  function JunctionAlias(current: string, table: string): string {
    if current != "" then current + "_" + table else table
  }

  /**
    `RegisterJunction`: allocates a junction alias from the current alias
    without pushing onto the path.
   */
  function RegisterJunction<V>(s: State<V>, table: string): (r: (State<V>, string))
    ensures r.0.path == s.path
    ensures CurrentAlias(s.path) == "" ==> r.1 == table
    ensures CurrentAlias(s.path) != "" ==> r.1 == CurrentAlias(s.path) + "_" + table
    ensures r.0.tables == s.tables + {r.1}
    ensures r.0.params == s.params && r.0.subqueryColumns == s.subqueryColumns
  {
    var alias := JunctionAlias(CurrentAlias(s.path), table);
    (s.(tables := s.tables + {alias}), alias)
  }

  /**
    `WithRelationship`: runs `body` inside the scope of relationship `name`,
    handing it the alias of the extended path, then restores the path.
    `C` is whatever else the body threads through (the query under
    construction).
   */
  function WithRelationship<V, C>(s: State<V>, c: C, name: string,
                                  body: (State<V>, C, string) -> (State<V>, C)): (r: (State<V>, C))
    ensures r.0.path == s.path
    ensures var (s1, alias) := RegisterRelationship(s, name);
            var inner := body(s1, c, alias);
            r == (inner.0.(path := s.path), inner.1)
  {
    var (s1, alias) := RegisterRelationship(s, name);
    var (s2, c2) := body(s1, c, alias);
    (s2.(path := s.path), c2)
  }
}
