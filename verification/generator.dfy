/**
  The pure parts of the code generator in `generator.go`: configuration
  validation, relation derivation (belongs-to, reverse has-many and
  many-to-many through a junction), the output file layout of `Generate`,
  the import list of a query-builder file, and `lastIndex`.

  Reflection is replaced by explicit inputs: each table carries its Go type
  name and field descriptors. Template rendering is not modelled, so a file is
  represented by the data its template would receive.
 */
module Generator {

  import opened Wrappers
  import opened Strings
  import opened Snake
  import opened Extractor

  /** `plate.Relation`: a belongs-to, optionally naming its reverse has-many. */
  datatype Relation = Relation(name: string, target: string, from: string, to: string, reverseName: string)

  /** `plate.TableConfig` with the model's type name and fields made explicit. */
  datatype TableConfig = TableConfig(typeName: string, tableName: string, fields: seq<Field>, relations: seq<Relation>)

  /** `plate.JunctionConfig`; it should have exactly two relations. */
  datatype JunctionConfig = JunctionConfig(typeName: string, tableName: string, relations: seq<Relation>)

  datatype GeneratorConfig = GeneratorConfig(tables: seq<TableConfig>, junctions: seq<JunctionConfig>)

  /** `plate.KeyPair`. */
  datatype KeyPair = KeyPair(from: string, to: string)

  datatype RelationKind = BelongsTo | HasMany | ManyToMany

  /** `GeneratedRelation`; the junction fields are empty except for many-to-many. */
  datatype GeneratedRelation = GeneratedRelation(
    name: string, kind: RelationKind, target: string, keys: KeyPair,
    junctionTable: string, junctionKeys: KeyPair)

  datatype GenError =
    | DuplicateTable(name: string)
    | BadJunction(name: string, count: nat)

  function Swap(k: KeyPair): KeyPair {
    KeyPair(k.to, k.from)
  }

  function KeysOf(r: Relation): KeyPair {
    KeyPair(r.from, r.to)
  }

  const NoKeys := KeyPair("", "")

  // ---------------------------------------------------------------------
  // Validation

  function TypeNames(tables: seq<TableConfig>): (r: seq<string>)
    ensures |r| == |tables|
    ensures forall i :: 0 <= i < |tables| ==> r[i] == tables[i].typeName
  {
    seq(|tables|, i requires 0 <= i < |tables| => tables[i].typeName)
  }

  predicate Distinct(names: seq<string>) {
    forall i, j :: 0 <= i < j < |names| ==> names[i] != names[j]
  }

  /** The first name that repeats an earlier one (or one in `seen`), scanning left to right. */
  function FirstDuplicate(names: seq<string>, seen: set<string>): Option<string>
    decreases |names|
  {
    if |names| == 0 then None
    else if names[0] in seen then Some(names[0])
    else FirstDuplicate(names[1..], seen + {names[0]})
  }

  /** The first junction whose relation count is not 2. */
  function FirstBadJunction(js: seq<JunctionConfig>): Option<GenError>
  {
    if |js| == 0 then None
    else if |js[0].relations| != 2 then Some(BadJunction(js[0].typeName, |js[0].relations|))
    else FirstBadJunction(js[1..])
  }

  /** `validateConfig`: duplicates among table type names first, then junction arity. */
  function Validate(cfg: GeneratorConfig): Option<GenError>
  {
    match FirstDuplicate(TypeNames(cfg.tables), {})
    case Some(name) => Some(DuplicateTable(name))
    case None => FirstBadJunction(cfg.junctions)
  }

  lemma {:induction false} FirstDuplicateNone(names: seq<string>, seen: set<string>)
    ensures FirstDuplicate(names, seen).None? <==>
            Distinct(names) && forall i :: 0 <= i < |names| ==> names[i] !in seen
    decreases |names|
  {
    if |names| > 0 && names[0] !in seen {
      var rest := names[1..];
      var seen' := seen + {names[0]};
      FirstDuplicateNone(rest, seen');
      if Distinct(rest) && forall i :: 0 <= i < |rest| ==> rest[i] !in seen' {
        forall i, j | 0 <= i < j < |names| ensures names[i] != names[j] {
          assert names[j] == rest[j - 1];
          if i > 0 { assert names[i] == rest[i - 1]; }
        }
        forall i | 0 <= i < |names| ensures names[i] !in seen {
          if i > 0 { assert names[i] == rest[i - 1]; }
        }
      }
      if Distinct(names) && forall i :: 0 <= i < |names| ==> names[i] !in seen {
        forall i, j | 0 <= i < j < |rest| ensures rest[i] != rest[j] {
          assert rest[i] == names[i + 1] && rest[j] == names[j + 1];
        }
        forall i | 0 <= i < |rest| ensures rest[i] !in seen' {
          assert rest[i] == names[i + 1];
        }
      }
    }
  }

  /**
    Position `j` is where the scan stops: `names[j]` was already seen, and
    no earlier position was.
   */
  predicate FirstRepeatAt(names: seq<string>, seen: set<string>, j: int) {
    && 0 <= j < |names|
    && (names[j] in seen || names[j] in names[..j])
    && forall k :: 0 <= k < j ==> names[k] !in seen && names[k] !in names[..k]
  }

  /** A reported duplicate is the name at the first position that repeats an earlier one (or one in `seen`). */
  lemma {:induction false} FirstDuplicateSome(names: seq<string>, seen: set<string>)
    requires FirstDuplicate(names, seen).Some?
    ensures exists j :: FirstRepeatAt(names, seen, j) && names[j] == FirstDuplicate(names, seen).value
    decreases |names|
  {
    var n := FirstDuplicate(names, seen).value;
    if names[0] in seen {
      assert FirstRepeatAt(names, seen, 0) && names[0] == n;
    } else {
      var rest := names[1..];
      var seen' := seen + {names[0]};
      FirstDuplicateSome(rest, seen');
      var j :| FirstRepeatAt(rest, seen', j) && rest[j] == n;
      assert names[j + 1] == n;
      assert names[..j + 1] == [names[0]] + rest[..j];
      forall k | 0 <= k < j + 1 ensures names[k] !in seen && names[k] !in names[..k] {
        if k > 0 {
          assert names[k] == rest[k - 1];
          assert names[..k] == [names[0]] + rest[..k - 1];
        }
      }
      assert FirstRepeatAt(names, seen, j + 1);
    }
  }

  lemma {:induction false} FirstBadJunctionSpec(js: seq<JunctionConfig>)
    ensures FirstBadJunction(js).None? <==> forall i :: 0 <= i < |js| ==> |js[i].relations| == 2
    ensures FirstBadJunction(js).Some? ==>
              exists i :: 0 <= i < |js| && |js[i].relations| != 2 &&
                FirstBadJunction(js).value == BadJunction(js[i].typeName, |js[i].relations|) &&
                forall k :: 0 <= k < i ==> |js[k].relations| == 2
  {
    if |js| > 0 && |js[0].relations| == 2 {
      FirstBadJunctionSpec(js[1..]);
      if FirstBadJunction(js).Some? {
        var i :| 0 <= i < |js[1..]| && |js[1..][i].relations| != 2 &&
                 FirstBadJunction(js[1..]).value == BadJunction(js[1..][i].typeName, |js[1..][i].relations|) &&
                 forall k :: 0 <= k < i ==> |js[1..][k].relations| == 2;
        forall k | 0 <= k < i + 1 ensures |js[k].relations| == 2 {
          if k > 0 { assert js[k] == js[1..][k - 1]; }
        }
        assert js[i + 1] == js[1..][i];
      } else {
        forall i | 0 <= i < |js| ensures |js[i].relations| == 2 {
          if i > 0 { assert js[i] == js[1..][i - 1]; }
        }
      }
    }
  }

  /** Validation passes exactly when table type names are distinct and every junction has two relations. */
  lemma ValidateSpec(cfg: GeneratorConfig)
    ensures Validate(cfg).None? <==>
            Distinct(TypeNames(cfg.tables)) && forall i :: 0 <= i < |cfg.junctions| ==> |cfg.junctions[i].relations| == 2
    ensures (exists i, j :: 0 <= i < j < |cfg.tables| && cfg.tables[i].typeName == cfg.tables[j].typeName) ==>
              Validate(cfg).Some? && Validate(cfg).value.DuplicateTable?
    ensures Validate(cfg).Some? && Validate(cfg).value.DuplicateTable? ==>
              exists j :: FirstRepeatAt(TypeNames(cfg.tables), {}, j) &&
                          TypeNames(cfg.tables)[j] == Validate(cfg).value.name
  {
    FirstDuplicateNone(TypeNames(cfg.tables), {});
    FirstBadJunctionSpec(cfg.junctions);
    if FirstDuplicate(TypeNames(cfg.tables), {}).Some? {
      FirstDuplicateSome(TypeNames(cfg.tables), {});
    }
  }

  // ---------------------------------------------------------------------
  // Relation derivation

  /** What one table relation derives, as (owner type, relation) pairs: belongs-to, then the optional has-many. */
  function RelationDerivations(typeName: string, rel: Relation): seq<(string, GeneratedRelation)>
  {
    [(typeName, GeneratedRelation(rel.name, BelongsTo, rel.target, KeysOf(rel), "", NoKeys))]
    + (if rel.reverseName != "" then
         [(rel.target, GeneratedRelation(rel.reverseName, HasMany, typeName, Swap(KeysOf(rel)), "", NoKeys))]
       else [])
  }

  function RelationsDerivations(typeName: string, rels: seq<Relation>): seq<(string, GeneratedRelation)>
  {
    if |rels| == 0 then []
    else RelationsDerivations(typeName, rels[..|rels| - 1]) + RelationDerivations(typeName, rels[|rels| - 1])
  }

  function TablesDerivations(tables: seq<TableConfig>): seq<(string, GeneratedRelation)>
  {
    if |tables| == 0 then []
    else TablesDerivations(tables[..|tables| - 1])
         + RelationsDerivations(tables[|tables| - 1].typeName, tables[|tables| - 1].relations)
  }

  /** The many-to-many derived from `rel` of a junction, pointing at `other`'s target. */
  function ManyToManyOf(junction: string, rel: Relation, other: Relation): GeneratedRelation {
    GeneratedRelation(rel.reverseName, ManyToMany, other.target, Swap(KeysOf(rel)), junction, KeysOf(other))
  }

  /** What one junction derives; a junction without exactly two relations derives nothing. */
  function JunctionDerivations(j: JunctionConfig): seq<(string, GeneratedRelation)>
  {
    if |j.relations| != 2 then []
    else
      var rel1 := j.relations[0];
      var rel2 := j.relations[1];
      (if rel1.reverseName != "" then [(rel1.target, ManyToManyOf(j.typeName, rel1, rel2))] else [])
      + (if rel2.reverseName != "" then [(rel2.target, ManyToManyOf(j.typeName, rel2, rel1))] else [])
  }

  function JunctionsDerivations(js: seq<JunctionConfig>): seq<(string, GeneratedRelation)>
  {
    if |js| == 0 then []
    else JunctionsDerivations(js[..|js| - 1]) + JunctionDerivations(js[|js| - 1])
  }

  /** Every derived relation in the order `buildRelationMap` appends them. */
  function Derivations(cfg: GeneratorConfig): seq<(string, GeneratedRelation)> {
    TablesDerivations(cfg.tables) + JunctionsDerivations(cfg.junctions)
  }

  function RelationsOf(m: map<string, seq<GeneratedRelation>>, owner: string): seq<GeneratedRelation> {
    if owner in m then m[owner] else []
  }

  /** The map-of-slices accumulation: `m[owner] = append(m[owner], rel)` for each pair in order. */
  function Accumulate(ds: seq<(string, GeneratedRelation)>): map<string, seq<GeneratedRelation>>
  {
    if |ds| == 0 then map[]
    else
      var m := Accumulate(ds[..|ds| - 1]);
      var d := ds[|ds| - 1];
      m[d.0 := RelationsOf(m, d.0) + [d.1]]
  }

  /** `buildRelationMap`. */
  function BuildRelationMap(cfg: GeneratorConfig): map<string, seq<GeneratedRelation>> {
    Accumulate(Derivations(cfg))
  }

  /** The relations derived for `owner`, in derivation order. */
  function OwnedBy(ds: seq<(string, GeneratedRelation)>, owner: string): seq<GeneratedRelation>
  {
    if |ds| == 0 then []
    else OwnedBy(ds[..|ds| - 1], owner) + (if ds[|ds| - 1].0 == owner then [ds[|ds| - 1].1] else [])
  }

  /**
    The relation map holds, for each type, exactly the relations derived for
    it, in derivation order; a type has an entry only when something was
    derived for it.
   */
  lemma {:induction false} AccumulateGroups(ds: seq<(string, GeneratedRelation)>, owner: string)
    ensures RelationsOf(Accumulate(ds), owner) == OwnedBy(ds, owner)
    ensures owner in Accumulate(ds) <==> OwnedBy(ds, owner) != []
  {
    if |ds| > 0 {
      AccumulateGroups(ds[..|ds| - 1], owner);
    }
  }

  lemma {:induction false} OwnedByAppend(a: seq<(string, GeneratedRelation)>, b: seq<(string, GeneratedRelation)>,
                                         owner: string)
    ensures OwnedBy(a + b, owner) == OwnedBy(a, owner) + OwnedBy(b, owner)
    decreases |b|
  {
    if |b| == 0 {
      assert a + b == a;
    } else {
      assert (a + b)[..|a + b| - 1] == a + b[..|b| - 1];
      assert (a + b)[|a + b| - 1] == b[|b| - 1];
      OwnedByAppend(a, b[..|b| - 1], owner);
    }
  }

  /**
    A relation with a reverse name derives a has-many on its target that
    points back at the declaring type with swapped keys; swapping again gives
    the belongs-to's keys.
   */
  lemma HasManyReversesBelongsTo(typeName: string, rel: Relation)
    requires rel.reverseName != ""
    ensures var ds := RelationDerivations(typeName, rel);
            |ds| == 2 && ds[0].0 == typeName && ds[1].0 == rel.target
            && ds[0].1.kind == BelongsTo && ds[1].1.kind == HasMany
            && ds[1].1.target == typeName && ds[0].1.target == rel.target
            && Swap(ds[1].1.keys) == ds[0].1.keys
  {
  }

  /** Without a reverse name a relation derives only its belongs-to. */
  lemma NoReverseNoHasMany(typeName: string, rel: Relation)
    requires rel.reverseName == ""
    ensures RelationDerivations(typeName, rel) ==
            [(typeName, GeneratedRelation(rel.name, BelongsTo, rel.target, KeysOf(rel), "", NoKeys))]
  {
  }

  /**
    The two many-to-many relations of a junction mirror each other: each lives
    on one side's target and points at the other's, both name the junction,
    and each one's junction keys are the other side's own keys.
   */
  lemma ManyToManyMirror(j: JunctionConfig)
    requires |j.relations| == 2
    requires j.relations[0].reverseName != "" && j.relations[1].reverseName != ""
    ensures var ds := JunctionDerivations(j);
            var rel1 := j.relations[0];
            var rel2 := j.relations[1];
            |ds| == 2
            && ds[0].0 == rel1.target && ds[1].0 == rel2.target
            && ds[0].1.target == ds[1].0 && ds[1].1.target == ds[0].0
            && ds[0].1.junctionTable == j.typeName == ds[1].1.junctionTable
            && ds[0].1.junctionKeys == KeysOf(rel2) && ds[1].1.junctionKeys == KeysOf(rel1)
            && Swap(ds[0].1.keys) == KeysOf(rel1) && Swap(ds[1].1.keys) == KeysOf(rel2)
  {
  }

  /** Junctions without exactly two relations contribute nothing to the relation map. */
  lemma {:induction false} BadJunctionsSkipped(js: seq<JunctionConfig>)
    requires forall i :: 0 <= i < |js| ==> |js[i].relations| != 2
    ensures JunctionsDerivations(js) == []
  {
    if |js| > 0 {
      BadJunctionsSkipped(js[..|js| - 1]);
    }
  }

  // ---------------------------------------------------------------------
  // Files

  datatype TableEntry = TableEntry(typeName: string, tableName: string)

  /** A generated file, as the data handed to its template. */
  datatype GeneratedFile =
    | TablesFile(tables: set<TableEntry>)
    | QueryBuilderFile(packageName: string, typeName: string, tableName: string,
                       columns: seq<ColumnInfo>, relations: seq<GeneratedRelation>, imports: seq<string>)

  /** `buildTableMap`: type name to table name, tables first, then junctions (a junction overrides). */
  function TableMap(cfg: GeneratorConfig): map<string, string>
  {
    TableMapAdd(TableMapOf(cfg.tables), cfg.junctions)
  }

  function TableMapOf(tables: seq<TableConfig>): (m: map<string, string>)
    ensures m.Keys == set i | 0 <= i < |tables| :: tables[i].typeName
  {
    if |tables| == 0 then map[]
    else TableMapOf(tables[..|tables| - 1])[tables[|tables| - 1].typeName := tables[|tables| - 1].tableName]
  }

  function TableMapAdd(m: map<string, string>, js: seq<JunctionConfig>): (r: map<string, string>)
    ensures r.Keys == m.Keys + set i | 0 <= i < |js| :: js[i].typeName
  {
    if |js| == 0 then m
    else TableMapAdd(m, js[..|js| - 1])[js[|js| - 1].typeName := js[|js| - 1].tableName]
  }

  /** `generateTablesPackage`'s data: one entry per table type (junction types excluded). */
  function TablesData(cfg: GeneratorConfig): set<TableEntry>
  {
    var tm := TableMap(cfg);
    set t | t in tm.Keys && t in TypeNames(cfg.tables) :: TableEntry(t, tm[t])
  }

  /** `toPackageName`. */
  function PackageName(typeName: string): string {
    SnakeCase(typeName)
  }

  /** `<pkg>/<pkg>.go`. */
  function PackageFile(typeName: string): string {
    var p := PackageName(typeName);
    p + "/" + p + ".go"
  }

  const TablesFileName := "tables/tables.go"
  const MemefishAst := "github.com/cloudspannerecosystem/memefish/ast"

  /** Some column has Go type `time.Time`. */
  predicate NeedsTime(columns: seq<ColumnInfo>) {
    exists i :: 0 <= i < |columns| && columns[i].goType == "time.Time"
  }

  /** The four imports every query-builder file has. */
  function BaseImports(basePath: string, tablesPath: string): seq<string> {
    [MemefishAst, basePath + "/query", tablesPath, basePath + "/types"]
  }

  /** The import list of a query-builder file: `time` goes first exactly when a column needs it. */
  function Imports(columns: seq<ColumnInfo>, basePath: string, tablesPath: string): (r: seq<string>)
    ensures NeedsTime(columns) ==> r == ["time"] + BaseImports(basePath, tablesPath)
    ensures !NeedsTime(columns) ==> r == BaseImports(basePath, tablesPath)
  {
    var imports := BaseImports(basePath, tablesPath);
    if NeedsTime(columns) then ["time"] + imports else imports
  }

  /** Some kept field's Go type is the named type rendered `time.Time`. */
  predicate HasTimeField(fields: seq<Field>) {
    exists i :: 0 <= i < |fields| && IsColumn(fields[i]) && fields[i].typ.Named?
                && GoTypeString(fields[i].typ) == "time.Time"
  }

  /** The columns need `time` exactly when a kept field is a `time.Time` value. */
  lemma NeedsTimeFields(fields: seq<Field>)
    ensures NeedsTime(Columns(fields)) <==> HasTimeField(fields)
  {
    var columns := Columns(fields);
    if NeedsTime(columns) {
      var k :| 0 <= k < |columns| && columns[k].goType == "time.Time";
      ColumnsMember(fields, columns[k]);
      var i :| 0 <= i < |fields| && IsColumn(fields[i]) && columns[k] == ColumnOf(fields[i]);
      GoTypeStringTimeIsNamed(fields[i].typ);
    }
    if HasTimeField(fields) {
      var i :| 0 <= i < |fields| && IsColumn(fields[i]) && fields[i].typ.Named?
               && GoTypeString(fields[i].typ) == "time.Time";
      ColumnsContain(fields, i);
      var k :| 0 <= k < |columns| && columns[k] == ColumnOf(fields[i]);
      assert columns[k].goType == "time.Time";
    }
  }

  /**
    A table's imports: the four base imports last, preceded by `time`
    exactly when a kept field is a `time.Time` value. A `*time.Time` or
    `[]time.Time` field alone does not add it.
   */
  lemma ImportsOfFields(fields: seq<Field>, basePath: string, tablesPath: string)
    ensures var r := Imports(Columns(fields), basePath, tablesPath);
            && |r| == (if HasTimeField(fields) then 5 else 4)
            && r[|r| - 4..] == BaseImports(basePath, tablesPath)
            && (r[0] == "time" <==> HasTimeField(fields))
  {
    NeedsTimeFields(fields);
    var r := Imports(Columns(fields), basePath, tablesPath);
    assert (["time"] + BaseImports(basePath, tablesPath))[1..] == BaseImports(basePath, tablesPath);
    assert BaseImports(basePath, tablesPath)[0] == MemefishAst;
  }

  /** A lone `*time.Time` column leaves `time` out. */
  lemma PointerTimeImportsNoTime(basePath: string, tablesPath: string)
    ensures var f := Field("DeletedAt", "deleted_at", "", PtrTo(Named(OtherKind, "time", "Time", "time.Time")));
            Imports(Columns([f]), basePath, tablesPath) == BaseImports(basePath, tablesPath)
  {
    var f := Field("DeletedAt", "deleted_at", "", PtrTo(Named(OtherKind, "time", "Time", "time.Time")));
    NeedsTimeFields([f]);
    assert !HasTimeField([f]);
  }

  /** `generateQueryBuilder`'s data for one table. */
  function QueryBuilderData(tc: TableConfig, relations: map<string, seq<GeneratedRelation>>,
                            basePath: string, tablesPath: string): GeneratedFile
  {
    var columns := Columns(tc.fields);
    QueryBuilderFile(PackageName(tc.typeName), tc.typeName, tc.tableName, columns,
                     RelationsOf(relations, tc.typeName), Imports(columns, basePath, tablesPath))
  }

  /** The file names of the per-table packages. */
  function PackageFiles(tables: seq<TableConfig>): (r: set<string>)
    ensures forall i :: 0 <= i < |tables| ==> PackageFile(tables[i].typeName) in r
    ensures forall f :: f in r ==> exists i :: 0 <= i < |tables| && f == PackageFile(tables[i].typeName)
  {
    if |tables| == 0 then {}
    else
      var init := tables[..|tables| - 1];
      var r := PackageFiles(init) + {PackageFile(tables[|tables| - 1].typeName)};
      assert forall i :: 0 <= i < |init| ==> init[i] == tables[i];
      r
  }

  /** The per-table files, written in order into `files` (a later same-named file overwrites). */
  function AddBuilders(files: map<string, GeneratedFile>, tables: seq<TableConfig>,
                       relations: map<string, seq<GeneratedRelation>>, basePath: string, tablesPath: string)
    : (r: map<string, GeneratedFile>)
    ensures r.Keys == files.Keys + PackageFiles(tables)
  {
    if |tables| == 0 then files
    else
      var last := tables[|tables| - 1];
      AddBuilders(files, tables[..|tables| - 1], relations, basePath, tablesPath)
        [PackageFile(last.typeName) := QueryBuilderData(last, relations, basePath, tablesPath)]
  }

  /**
    `Generate`: validation first (on failure no file at all), then the tables
    file and one query-builder file per table. The import paths the source
    computes by reflection and module lookup are parameters.
   */
  function Generate(cfg: GeneratorConfig, basePath: string, tablesPath: string)
    : (r: Result<map<string, GeneratedFile>, GenError>)
    ensures r.Failure? <==> Validate(cfg).Some?
    ensures r.Failure? ==> r.error == Validate(cfg).value
    ensures r.Success? ==>
              r.value.Keys == {TablesFileName} + PackageFiles(cfg.tables)
  {
    match Validate(cfg)
    case Some(err) => Failure(err)
    case None =>
      var files := map[TablesFileName := TablesFile(TablesData(cfg))];
      Success(AddBuilders(files, cfg.tables, BuildRelationMap(cfg), basePath, tablesPath))
  }

  // ---------------------------------------------------------------------
  // lastIndex

  predicate OccursAt(s: string, sub: string, i: int) {
    0 <= i && i + |sub| <= |s| && s[i..i + |sub|] == sub
  }

  /** `lastIndex`: the greatest index where `sub` occurs in `s`, or -1. */
  method LastIndex(s: string, sub: string) returns (last: int)
    ensures last == -1 <==> forall i :: 0 <= i <= |s| ==> !OccursAt(s, sub, i)
    ensures last != -1 ==> OccursAt(s, sub, last) && forall i :: last < i <= |s| ==> !OccursAt(s, sub, i)
  {
    last := -1;
    var i := 0;
    while i <= |s| - |sub|
      invariant 0 <= i || |s| < |sub|
      invariant i <= |s| - |sub| + 1 || |s| < |sub|
      invariant last == -1 ==> forall k :: 0 <= k < i ==> !OccursAt(s, sub, k)
      invariant last != -1 ==> 0 <= last < i && OccursAt(s, sub, last)
                               && forall k :: last < k < i ==> !OccursAt(s, sub, k)
      decreases |s| - |sub| - i
    {
      if s[i..i + |sub|] == sub {
        last := i;
      }
      i := i + 1;
    }
  }

  /** `getBaseImportPath` given the package path: cut after the last `/plate`, or keep it whole. */
  method BaseImportPath(pkgPath: string) returns (base: string)
    ensures (forall i :: 0 <= i <= |pkgPath| ==> !OccursAt(pkgPath, "/plate", i)) ==> base == pkgPath
    ensures (exists i :: 0 <= i <= |pkgPath| && OccursAt(pkgPath, "/plate", i)) ==>
              base <= pkgPath && |base| >= 6 && base[|base| - 6..] == "/plate"
              && forall i :: |base| - 6 < i <= |pkgPath| ==> !OccursAt(pkgPath, "/plate", i)
  {
    var idx := LastIndex(pkgPath, "/plate");
    if idx >= 0 {
      base := pkgPath[..idx + 6];
      assert base[|base| - 6..] == pkgPath[idx..idx + 6];
    } else {
      base := pkgPath;
    }
  }

  // ---------------------------------------------------------------------
  // The example configuration: User, Post (Author -> User, reverse Posts), Tag, junction PostTag

  function ExampleConfig(): GeneratorConfig {
    GeneratorConfig(
      [TableConfig("User", "user", [], []),
       TableConfig("Post", "post", [], [Relation("Author", "User", "UserID", "ID", "Posts")]),
       TableConfig("Tag", "tag", [], [])],
      [JunctionConfig("PostTag", "post_tag",
                      [Relation("Post", "Post", "PostID", "ID", "Tags"),
                       Relation("Tag", "Tag", "TagID", "ID", "Posts")])])
  }

  /** The example's derivations, in the order the relation map receives them. */
  lemma ExampleDerivations()
    ensures Derivations(ExampleConfig()) ==
            [("Post", GeneratedRelation("Author", BelongsTo, "User", KeyPair("UserID", "ID"), "", NoKeys)),
             ("User", GeneratedRelation("Posts", HasMany, "Post", KeyPair("ID", "UserID"), "", NoKeys)),
             ("Post", GeneratedRelation("Tags", ManyToMany, "Tag", KeyPair("ID", "PostID"), "PostTag", KeyPair("TagID", "ID"))),
             ("Tag", GeneratedRelation("Posts", ManyToMany, "Post", KeyPair("ID", "TagID"), "PostTag", KeyPair("PostID", "ID")))]
  {
    var cfg := ExampleConfig();
    var t := cfg.tables;
    var author := Relation("Author", "User", "UserID", "ID", "Posts");
    var belongs := ("Post", GeneratedRelation("Author", BelongsTo, "User", KeyPair("UserID", "ID"), "", NoKeys));
    var hasMany := ("User", GeneratedRelation("Posts", HasMany, "Post", KeyPair("ID", "UserID"), "", NoKeys));
    assert t[..1][..0] == [];
    assert TablesDerivations(t[..1]) == [] by {
      assert t[..1][0].relations == [];
      assert RelationsDerivations("User", []) == [];
    }
    assert t[..2][..1] == t[..1];
    assert [author][..0] == [];
    assert RelationsDerivations("Post", [author]) == [belongs, hasMany];
    assert TablesDerivations(t[..2]) == [belongs, hasMany];
    assert t[..3][..2] == t[..2] && t[..3] == t;
    assert TablesDerivations(t) == [belongs, hasMany] by {
      assert RelationsDerivations("Tag", []) == [];
    }
    assert cfg.junctions[..0] == [];
  }

  /** The example derives Post.Author, User.Posts, Post.Tags and Tag.Posts. */
  lemma ExampleRelations()
    ensures var m := BuildRelationMap(ExampleConfig());
            RelationsOf(m, "Post") ==
              [GeneratedRelation("Author", BelongsTo, "User", KeyPair("UserID", "ID"), "", NoKeys),
               GeneratedRelation("Tags", ManyToMany, "Tag", KeyPair("ID", "PostID"), "PostTag", KeyPair("TagID", "ID"))]
            && RelationsOf(m, "User") ==
              [GeneratedRelation("Posts", HasMany, "Post", KeyPair("ID", "UserID"), "", NoKeys)]
            && RelationsOf(m, "Tag") ==
              [GeneratedRelation("Posts", ManyToMany, "Post", KeyPair("ID", "TagID"), "PostTag", KeyPair("PostID", "ID"))]
            && m.Keys == {"Post", "User", "Tag"}
  {
    var belongs := ("Post", GeneratedRelation("Author", BelongsTo, "User", KeyPair("UserID", "ID"), "", NoKeys));
    var hasMany := ("User", GeneratedRelation("Posts", HasMany, "Post", KeyPair("ID", "UserID"), "", NoKeys));
    var tags := ("Post", GeneratedRelation("Tags", ManyToMany, "Tag", KeyPair("ID", "PostID"), "PostTag", KeyPair("TagID", "ID")));
    var posts := ("Tag", GeneratedRelation("Posts", ManyToMany, "Post", KeyPair("ID", "TagID"), "PostTag", KeyPair("PostID", "ID")));
    ExampleDerivations();
    var ds := Derivations(ExampleConfig());
    assert ds == [belongs, hasMany, tags, posts];
    assert ds[..3] == [belongs, hasMany, tags];
    assert ds[..3][..2] == [belongs, hasMany];
    assert ds[..3][..2][..1] == [belongs];
    assert ds[..3][..2][..1][..0] == [];
    var one: seq<(string, GeneratedRelation)> := [belongs];
    assert one[..0] == [];
    assert [belongs, hasMany][..1] == [belongs];
    assert [belongs, hasMany, tags][..2] == [belongs, hasMany];
    assert ds[..3] == [belongs, hasMany, tags];
    var m1 := Accumulate(one);
    var m2 := Accumulate([belongs, hasMany]);
    var m3 := Accumulate([belongs, hasMany, tags]);
    assert m1 == map["Post" := [belongs.1]] by {
      assert Accumulate(one[..0]) == map[];
      assert RelationsOf(map[], "Post") + [belongs.1] == [belongs.1];
    }
    assert m2 == m1["User" := [hasMany.1]] by {
      assert RelationsOf(m1, "User") + [hasMany.1] == [hasMany.1];
    }
    assert m3 == m2["Post" := [belongs.1, tags.1]] by {
      assert RelationsOf(m2, "Post") + [tags.1] == [belongs.1, tags.1];
    }
    assert Accumulate(ds) == m3["Tag" := [posts.1]] by {
      assert ds[..3] == [belongs, hasMany, tags];
      assert RelationsOf(m3, "Tag") + [posts.1] == [posts.1];
    }
  }

  /** The example generates the tables file and `user`, `post`, `tag` packages, none for the junction. */
  lemma ExampleFiles(basePath: string, tablesPath: string)
    ensures var r := Generate(ExampleConfig(), basePath, tablesPath);
            r.Success? && r.value.Keys == {"tables/tables.go", "user/user.go", "post/post.go", "tag/tag.go"}
  {
    ExampleValid();
    ExamplePackageFiles();
    GeneratedKeys(ExampleConfig(), basePath, tablesPath, {"user/user.go", "post/post.go", "tag/tag.go"});
  }

  /** On a valid configuration, the keys are the tables file and the given package files. */
  lemma GeneratedKeys(cfg: GeneratorConfig, basePath: string, tablesPath: string, packages: set<string>)
    requires Validate(cfg) == None && PackageFiles(cfg.tables) == packages
    ensures var r := Generate(cfg, basePath, tablesPath);
            r.Success? && r.value.Keys == {TablesFileName} + packages
  {
  }

  /** The example configuration passes validation. */
  lemma ExampleValid()
    ensures Validate(ExampleConfig()) == None
  {
    var cfg := ExampleConfig();
    ValidateSpec(cfg);
    assert Distinct(TypeNames(cfg.tables));
    assert FirstBadJunction(cfg.junctions[1..]) == None;
  }

  /** One package file per example table. */
  lemma ExamplePackageFiles()
    ensures PackageFiles(ExampleConfig().tables) == {"user/user.go", "post/post.go", "tag/tag.go"}
  {
    var t := ExampleConfig().tables;
    ExamplePackageNames();
    assert PackageFile("User") == "user/user.go";
    assert PackageFile("Post") == "post/post.go";
    assert PackageFile("Tag") == "tag/tag.go";
    assert t[..1][..0] == [] && t[..2][..1] == t[..1] && t[..3][..2] == t[..2] && t[..3] == t;
    assert PackageFiles(t[..1]) == {"user/user.go"};
    assert PackageFiles(t[..2]) == {"user/user.go", "post/post.go"};
  }

  lemma ExamplePackageNames()
    ensures SnakeCase("User") == "user" && SnakeCase("Post") == "post" && SnakeCase("Tag") == "tag"
  {
    SnakeExample("User");
    SnakeExample("Post");
    SnakeExample("Tag");
    assert ToLower('U') == 'u' && ToLower('P') == 'p' && ToLower('T') == 't';
    assert [ToLower('U')] + "User"[1..] == "user";
    assert [ToLower('P')] + "Post"[1..] == "post";
    assert [ToLower('T')] + "Tag"[1..] == "tag";
  }

  /** A capitalised word converts to its lowercase form. */
  lemma SnakeExample(w: string)
    requires |w| >= 1 && IsUpper(w[0]) && forall i :: 1 <= i < |w| ==> IsLower(w[i])
    ensures SnakeCase(w) == [ToLower(w[0])] + w[1..]
  {
    SnakeExamplePrefix(w, |w|);
  }

  lemma {:induction false} SnakeExamplePrefix(w: string, n: nat)
    requires 1 <= n <= |w| && IsUpper(w[0]) && forall i :: 1 <= i < |w| ==> IsLower(w[i])
    ensures SnakePrefix(w, n) == [ToLower(w[0])] + w[1..n]
  {
    if n > 1 {
      SnakeExamplePrefix(w, n - 1);
      assert w[1..n] == w[1..n - 1] + [w[n - 1]];
    }
  }
}
