/**
  Column extraction and Spanner type-tag inference of `extractor.go`.
  Reflection is replaced by an explicit description of each struct field and
  its Go type.
 */
module Extractor {

  import opened Strings

  /** The `reflect.Kind` values inference distinguishes; every other kind is `OtherKind`. */
  datatype Kind = StringKind | IntKind | Int64Kind | Float64Kind | BoolKind | Uint8Kind | OtherKind

  /**
    A Go type. `Named` is any non-composite type: its kind, its package path
    (empty for built-ins), its name, and its `String()` form (`time.Time`,
    `civil.Date`, `int64`). Slices, arrays and pointers are unnamed.
   */
  datatype GoType =
    | Named(kind: Kind, pkgPath: string, name: string, display: string)
    | SliceOf(elem: GoType)
    | ArrayOf(len: nat, elem: GoType)
    | PtrTo(elem: GoType)

  /** A struct field: its name, its `spanner` and `spannerType` tags, and its type. */
  datatype Field = Field(name: string, spannerTag: string, spannerTypeTag: string, typ: GoType)

  /** `ColumnInfo`. */
  datatype ColumnInfo = ColumnInfo(name: string, goType: string, spannerType: string, columnName: string)

  /** `reflect.Type.String()`. */
  function TypeString(t: GoType): string {
    match t
    case Named(_, _, _, display) => display
    case SliceOf(e) => "[]" + TypeString(e)
    case ArrayOf(n, e) => "[" + NatToString(n) + "]" + TypeString(e)
    case PtrTo(e) => "*" + TypeString(e)
  }

  /** `getGoTypeString`: composite prefixes over the element's string; `String()` for packaged types, else the name. */
  function GoTypeString(t: GoType): (r: string)
    ensures t.SliceOf? ==> r == "[]" + GoTypeString(t.elem)
    ensures t.ArrayOf? ==> r == "[" + NatToString(t.len) + "]" + GoTypeString(t.elem)
    ensures t.PtrTo? ==> r == "*" + GoTypeString(t.elem)
  {
    match t
    case SliceOf(e) => "[]" + GoTypeString(e)
    case ArrayOf(n, e) => "[" + NatToString(n) + "]" + GoTypeString(e)
    case PtrTo(e) => "*" + GoTypeString(e)
    case Named(_, pkg, name, display) => if pkg != "" then display else name
  }

  /** The named types inference recognises by their `String()` form. */
  function KnownType(display: string): string {
    if display == "time.Time" then "TIMESTAMP"
    else if display == "civil.Date" then "DATE"
    else ""
  }

  predicate ScalarTag(tag: string) {
    tag == "STRING" || tag == "INT64" || tag == "FLOAT64" || tag == "BOOL" ||
    tag == "BYTES" || tag == "TIMESTAMP" || tag == "DATE"
  }

  /** A Spanner type tag: a scalar tag or `ARRAY<tag>`. */
  predicate ValidTag(tag: string)
    decreases |tag|
  {
    ScalarTag(tag) ||
    (|tag| > 7 && tag[..6] == "ARRAY<" && tag[|tag| - 1] == '>' && ValidTag(tag[6..|tag| - 1]))
  }

  /** `inferSpannerType`: a valid tag, or `""` when the type is not recognised. */
  function InferSpannerType(t: GoType): (r: string)
    ensures r == "" || ValidTag(r)
  {
    match t
    case Named(kind, _, _, display) =>
      (match kind
       case StringKind => "STRING"
       case IntKind => "INT64"
       case Int64Kind => "INT64"
       case Float64Kind => "FLOAT64"
       case BoolKind => "BOOL"
       case _ => KnownType(display))
    case SliceOf(e) =>
      if e.Named? && e.kind == Uint8Kind then "BYTES"
      else
        var elemType := InferSpannerType(e);
        if elemType != "" then
          assert ("ARRAY<" + elemType + ">")[6..|elemType| + 6] == elemType;
          "ARRAY<" + elemType + ">"
        else KnownType(TypeString(t))
    case _ => KnownType(TypeString(t))
  }

  /** `hasOrderableType`. */
  predicate HasOrderableType(tag: string) {
    tag == "INT64" || tag == "FLOAT64" || tag == "TIMESTAMP" || tag == "DATE"
  }

  /** `hasStringOperations`. */
  predicate HasStringOperations(tag: string) {
    tag == "STRING"
  }

  /** `hasArrayOperations`: the tag starts with `ARRAY<`. */
  predicate HasArrayOperations(tag: string) {
    |tag| >= 6 && tag[..6] == "ARRAY<"
  }

  /** Go's `IsExported`: the name starts with an uppercase letter. */
  predicate IsExported(name: string) {
    |name| > 0 && IsUpper(name[0])
  }

  /** A field becomes a column when it is exported and has a `spanner` tag. */
  predicate IsColumn(f: Field) {
    IsExported(f.name) && f.spannerTag != ""
  }

  /** The column for a kept field; an explicit `spannerType` tag wins over inference. */
  function ColumnOf(f: Field): (c: ColumnInfo)
    ensures c.name == f.name && c.columnName == f.spannerTag && c.goType == GoTypeString(f.typ)
    ensures f.spannerTypeTag != "" ==> c.spannerType == f.spannerTypeTag
    ensures f.spannerTypeTag == "" ==> c.spannerType == InferSpannerType(f.typ)
  {
    var spannerType := if f.spannerTypeTag == "" then InferSpannerType(f.typ) else f.spannerTypeTag;
    ColumnInfo(f.name, GoTypeString(f.typ), spannerType, f.spannerTag)
  }

  /** The columns of `fields`, in declaration order. */
  function Columns(fields: seq<Field>): seq<ColumnInfo>
  {
    if |fields| == 0 then []
    else Columns(fields[..|fields| - 1])
         + (if IsColumn(fields[|fields| - 1]) then [ColumnOf(fields[|fields| - 1])] else [])
  }

  /** `extractColumns`, written as the source's loop over the fields. */
  method ExtractColumns(fields: seq<Field>) returns (columns: seq<ColumnInfo>)
    ensures columns == Columns(fields)
    ensures |columns| <= |fields|
    ensures forall c :: c in columns ==> exists i :: 0 <= i < |fields| && IsColumn(fields[i]) && c == ColumnOf(fields[i])
  {
    columns := [];
    for i := 0 to |fields|
      invariant columns == Columns(fields[..i])
    {
      var field := fields[i];
      if !IsExported(field.name) {
        assert fields[..i + 1][..i] == fields[..i];
        continue;
      }
      if field.spannerTag == "" {
        assert fields[..i + 1][..i] == fields[..i];
        continue;
      }
      var spannerType := field.spannerTypeTag;
      if spannerType == "" {
        spannerType := InferSpannerType(field.typ);
      }
      columns := columns + [ColumnInfo(field.name, GoTypeString(field.typ), spannerType, field.spannerTag)];
      assert fields[..i + 1][..i] == fields[..i];
    }
    assert fields[..|fields|] == fields;
    ColumnsBound(fields);
    forall c | c in columns
      ensures exists i :: 0 <= i < |fields| && IsColumn(fields[i]) && c == ColumnOf(fields[i])
    {
      ColumnsMember(fields, c);
    }
  }

  lemma {:induction false} ColumnsBound(fields: seq<Field>)
    ensures |Columns(fields)| <= |fields|
  {
    if |fields| > 0 {
      ColumnsBound(fields[..|fields| - 1]);
    }
  }

  /** Every column comes from a kept field. */
  lemma {:induction false} ColumnsMember(fields: seq<Field>, c: ColumnInfo)
    requires c in Columns(fields)
    ensures exists i :: 0 <= i < |fields| && IsColumn(fields[i]) && c == ColumnOf(fields[i])
  {
    var n := |fields|;
    var init := fields[..n - 1];
    if c in Columns(init) {
      ColumnsMember(init, c);
      var i :| 0 <= i < |init| && IsColumn(init[i]) && c == ColumnOf(init[i]);
      assert fields[i] == init[i];
    } else {
      assert IsColumn(fields[n - 1]) && c == ColumnOf(fields[n - 1]);
    }
  }

  /** Every kept field contributes its column. */
  lemma {:induction false} ColumnsContain(fields: seq<Field>, i: nat)
    requires i < |fields| && IsColumn(fields[i])
    ensures ColumnOf(fields[i]) in Columns(fields)
    decreases |fields|
  {
    var n := |fields|;
    if i < n - 1 {
      var init := fields[..n - 1];
      assert init[i] == fields[i];
      ColumnsContain(init, i);
    }
  }

  /** Extraction distributes over concatenation: declaration order is kept. */
  lemma {:induction false} ColumnsAppend(a: seq<Field>, b: seq<Field>)
    ensures Columns(a + b) == Columns(a) + Columns(b)
    decreases |b|
  {
    if |b| == 0 {
      assert a + b == a;
    } else {
      var n := |b|;
      assert (a + b)[..|a + b| - 1] == a + b[..n - 1];
      assert (a + b)[|a + b| - 1] == b[n - 1];
      ColumnsAppend(a, b[..n - 1]);
    }
  }

  /** A kept field yields exactly its column; a skipped one yields nothing. */
  lemma ColumnsSingle(f: Field)
    ensures Columns([f]) == if IsColumn(f) then [ColumnOf(f)] else []
  {
    assert [f][..0] == [];
  }

  /** The scalar inference table. Kinds outside it infer `""` unless the type is `time.Time` or `civil.Date`. */
  lemma InferScalars(kind: Kind, pkg: string, name: string, display: string)
    ensures var r := InferSpannerType(Named(kind, pkg, name, display));
            && (kind == StringKind ==> r == "STRING")
            && (kind == IntKind || kind == Int64Kind ==> r == "INT64")
            && (kind == Float64Kind ==> r == "FLOAT64")
            && (kind == BoolKind ==> r == "BOOL")
            && (kind == Uint8Kind || kind == OtherKind ==>
                  r == (if display == "time.Time" then "TIMESTAMP"
                        else if display == "civil.Date" then "DATE" else ""))
  {
  }

  /** Slices: `[]byte` is BYTES; otherwise `ARRAY<elem>` when the element infers, else `""`. */
  lemma InferSlices(e: GoType)
    ensures e.Named? && e.kind == Uint8Kind ==> InferSpannerType(SliceOf(e)) == "BYTES"
    ensures !(e.Named? && e.kind == Uint8Kind) ==>
              InferSpannerType(SliceOf(e)) ==
              (if InferSpannerType(e) != "" then "ARRAY<" + InferSpannerType(e) + ">" else "")
  {
    var s := TypeString(SliceOf(e));
    assert s[0] == '[';
  }

  /** Arrays and pointers never infer a tag. */
  lemma InferArrayPointer(n: nat, e: GoType)
    ensures InferSpannerType(ArrayOf(n, e)) == ""
    ensures InferSpannerType(PtrTo(e)) == ""
  {
    assert TypeString(ArrayOf(n, e))[0] == '[';
    assert TypeString(PtrTo(e))[0] == '*';
  }

  /** An inferred tag supports array operations exactly when the type is a slice of an inferable non-byte element. */
  lemma InferredArrayOperations(t: GoType)
    ensures HasArrayOperations(InferSpannerType(t)) <==>
            (t.SliceOf? && !(t.elem.Named? && t.elem.kind == Uint8Kind) && InferSpannerType(t.elem) != "")
  {
    match t
    case SliceOf(e) =>
      InferSlices(e);
      if !(e.Named? && e.kind == Uint8Kind) && InferSpannerType(e) != "" {
        assert ("ARRAY<" + InferSpannerType(e) + ">")[..6] == "ARRAY<";
      }
    case ArrayOf(n, e) => InferArrayPointer(n, e);
    case PtrTo(e) => InferArrayPointer(0, e);
    case Named(_, _, _, _) =>
      ScalarNotArray(InferSpannerType(t));
  }

  lemma ScalarNotArray(tag: string)
    requires ScalarTag(tag) || tag == ""
    ensures !HasArrayOperations(tag)
  {
    if |tag| >= 6 {
      assert tag[..6][0] == tag[0];
    }
  }

  /** Ordering, string and array operations are offered to disjoint tags. */
  lemma OperationsDisjoint(tag: string)
    ensures !(HasOrderableType(tag) && HasStringOperations(tag))
    ensures HasArrayOperations(tag) ==> !HasOrderableType(tag) && !HasStringOperations(tag)
  {
    if |tag| >= 6 {
      assert tag[..6][0] == tag[0];
    }
  }

  /** `getGoTypeString` examples: `[]string`, `*time.Time`, `[4]int64`. */
  lemma GoTypeStringExamples()
    ensures GoTypeString(SliceOf(Named(StringKind, "", "string", "string"))) == "[]string"
    ensures GoTypeString(PtrTo(Named(OtherKind, "time", "Time", "time.Time"))) == "*time.Time"
    ensures GoTypeString(ArrayOf(4, Named(Int64Kind, "", "int64", "int64"))) == "[4]int64"
  {
    assert NatToString(4) == "4";
  }

  /**
    The types on which `getGoTypeString` and `reflect.Type.String()` agree:
    every leaf has a package path, or is a built-in whose `Name()` is its
    `String()` form.
   */
  predicate RendersAsString(t: GoType) {
    match t
    case Named(_, pkg, name, display) => pkg != "" || name == display
    case SliceOf(e) => RendersAsString(e)
    case ArrayOf(_, e) => RendersAsString(e)
    case PtrTo(e) => RendersAsString(e)
  }

  /** Removing a common prefix: `p + a == p + b` only when `a == b`. */
  lemma PrefixCancel(p: string, a: string, b: string)
    ensures p + a == p + b <==> a == b
  {
    if p + a == p + b {
      assert a == (p + a)[|p|..];
      assert b == (p + b)[|p|..];
    }
  }

  /** `getGoTypeString` renders a type as `String()` does exactly when every leaf renders alike. */
  lemma {:induction false} GoTypeStringIsTypeString(t: GoType)
    ensures GoTypeString(t) == TypeString(t) <==> RendersAsString(t)
  {
    match t
    case Named(_, _, _, _) =>
    case SliceOf(e) =>
      GoTypeStringIsTypeString(e);
      PrefixCancel("[]", GoTypeString(e), TypeString(e));
    case ArrayOf(n, e) =>
      GoTypeStringIsTypeString(e);
      PrefixCancel("[" + NatToString(n) + "]", GoTypeString(e), TypeString(e));
      assert GoTypeString(t) == ("[" + NatToString(n) + "]") + GoTypeString(e);
      assert TypeString(t) == ("[" + NatToString(n) + "]") + TypeString(e);
    case PtrTo(e) =>
      GoTypeStringIsTypeString(e);
      PrefixCancel("*", GoTypeString(e), TypeString(e));
  }

  /**
    A slice, array or pointer renders with a leading `[` or `*`, so only a
    named type renders as `time.Time`: `*time.Time` and `[]time.Time` do not.
   */
  lemma GoTypeStringTimeIsNamed(t: GoType)
    ensures !t.Named? ==> |GoTypeString(t)| > 0 && GoTypeString(t)[0] in {'[', '*'}
    ensures GoTypeString(t) == "time.Time" ==> t.Named?
  {
    match t
    case Named(_, _, _, _) =>
    case SliceOf(e) => assert GoTypeString(t)[0] == "[]"[0];
    case ArrayOf(n, e) => assert GoTypeString(t)[0] == ("[" + NatToString(n) + "]")[0];
    case PtrTo(e) => assert GoTypeString(t)[0] == "*"[0];
  }
}
