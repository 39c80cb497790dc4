/**
  The field-type converter: sorts form-field descriptors into six buckets
  (simple values, users, string lists, entity lists, files and sub-tables),
  recursing into the child fields of every sub-table.
 */
module FieldTypeConverter {
  import opened Seqs

  // ---------------------------------------------------------------------
  // Type tags
  // ---------------------------------------------------------------------

  const SimpleValueTypes: seq<string> := [
    "SINGLE_LINE_TEXT",
    "MULTI_LINE_TEXT",
    "RICH_TEXT",
    "DATE",
    "NUMBER",
    "DATETIME",
    "TIME",
    "CREATED_TIME",
    "UPDATED_TIME",
    "RECORD_NUMBER",
    "DROP_DOWN",
    "LINK",
    "CALC",
    "RADIO_BUTTON"
  ]

  const UserTypes: seq<string> := ["CREATOR", "MODIFIER"]

  const StringListTypes: seq<string> := ["CHECK_BOX", "MULTI_SELECT"]

  const EntityListTypes: seq<string> := ["USER_SELECT", "GROUP_SELECT", "ORGANIZATION_SELECT"]

  const FileType: string := "FILE"

  const SubTableType: string := "SUBTABLE"

  /** True when `t` is one of the tags the converter recognises. */
  predicate Recognised(t: string) {
    t in SimpleValueTypes || t in UserTypes || t in StringListTypes
    || t in EntityListTypes || t == FileType || t == SubTableType
  }

  // ---------------------------------------------------------------------
  // Data model
  // ---------------------------------------------------------------------

  /** One form-field descriptor. `relatedApp` records whether the descriptor
      has a `relatedApp` key (lookup and related-record fields), whatever its
      value; `children` are the values of the sub-table's `fields` mapping,
      in their iteration order, and are ignored for other field types. */
  datatype Field = Field(code: string, fieldType: string, relatedApp: bool, children: seq<Field>)

  /** A sub-table entry of the result: the sub-table's code and type and the
      classification of its own child fields. */
  datatype SubTableFieldTypeGroups = SubTableFieldTypeGroups(code: string, fieldType: string, fields: FieldTypeGroups)

  datatype FieldTypeGroups = FieldTypeGroups(
    simpleFields: seq<Field>,
    userFields: seq<Field>,
    stringListFields: seq<Field>,
    entityListFields: seq<Field>,
    fileTypeFields: seq<Field>,
    subTableFields: seq<SubTableFieldTypeGroups>)

  /** Number of descriptors in `fs`, counting nested children at every depth. */
  function Size(fs: seq<Field>): nat
    decreases fs
  {
    if fs == [] then 0 else 1 + Size(fs[0].children) + Size(fs[1..])
  }

  // ---------------------------------------------------------------------
  // Specification of a bucket
  // ---------------------------------------------------------------------

  /** `bucket` is the order-preserving selection of the fields of `fields`
      that carry no `relatedApp` key and whose type is one of `types`: it is a
      subsequence of `fields` and holds each such field exactly as often as
      `fields` does, and no other field. */
  ghost predicate Selects(bucket: seq<Field>, fields: seq<Field>, types: seq<string>) {
    && Subseq(bucket, fields)
    && forall f :: multiset(bucket)[f] == if f.fieldType in types && !f.relatedApp then multiset(fields)[f] else 0
  }

  // ---------------------------------------------------------------------
  // Operations
  // ---------------------------------------------------------------------

  /** Keeps a descriptor exactly when it has no `relatedApp` key. */
  predicate ExcludeLookupOrRelatedRecord(f: Field) {
    !f.relatedApp
  }

  /** The test "the field's type is one of `types`". */
  function TypeIncludes(types: seq<string>): Field -> bool {
    (f: Field) => f.fieldType in types
  }

  /** The test "the field's type is `t`". */
  function TypeEquals(t: string): Field -> bool {
    (f: Field) => f.fieldType == t
  }

  function SelectFieldsTypesIn(types: seq<string>, fields: seq<Field>): (r: seq<Field>)
    ensures Selects(r, fields, types)
    ensures forall f :: f in r <==> f in fields && f.fieldType in types && !f.relatedApp
  {
    var typed := Filter(TypeIncludes(types), fields);
    var r := Filter(ExcludeLookupOrRelatedRecord, typed);
    FilterSpec(TypeIncludes(types), fields);
    FilterSpec(ExcludeLookupOrRelatedRecord, typed);
    SubseqTrans(r, typed, fields);
    r
  }

  function SelectFieldsTypesEquals(t: string, fields: seq<Field>): (r: seq<Field>)
    ensures Selects(r, fields, [t])
    ensures forall f :: f in r <==> f in fields && f.fieldType == t && !f.relatedApp
  {
    var typed := Filter(TypeEquals(t), fields);
    var r := Filter(ExcludeLookupOrRelatedRecord, typed);
    FilterSpec(TypeEquals(t), fields);
    FilterSpec(ExcludeLookupOrRelatedRecord, typed);
    SubseqTrans(r, typed, fields);
    r
  }

  /** One entry per sub-table, in order, copying its code and type; the
      entries' nested groups are described by `ConvertSubTableFieldsAt`. */
  function ConvertSubTableFields(subTables: seq<Field>): (r: seq<SubTableFieldTypeGroups>)
    ensures |r| == |subTables|
    ensures forall i :: 0 <= i < |r| ==> r[i].code == subTables[i].code && r[i].fieldType == subTables[i].fieldType
    decreases Size(subTables), 0
  {
    if subTables == [] then []
    else
      var t := subTables[0];
      assert Size(subTables) == 1 + Size(t.children) + Size(subTables[1..]);
      [SubTableFieldTypeGroups(t.code, t.fieldType, ConvertFieldTypesToFieldTypeGroups(t.children))]
        + ConvertSubTableFields(subTables[1..])
  }

  /** Classifies `fields` into the six buckets. */
  function ConvertFieldTypesToFieldTypeGroups(fields: seq<Field>): (r: FieldTypeGroups)
    ensures Selects(r.simpleFields, fields, SimpleValueTypes)
    ensures Selects(r.userFields, fields, UserTypes)
    ensures Selects(r.stringListFields, fields, StringListTypes)
    ensures Selects(r.entityListFields, fields, EntityListTypes)
    ensures Selects(r.fileTypeFields, fields, [FileType])
    ensures forall e :: e in r.subTableFields ==> e.fieldType == SubTableType
    decreases Size(fields), 1
  {
    var subTables := SelectFieldsTypesEquals(SubTableType, fields);
    SubseqSize(subTables, fields);
    FieldTypeGroups(
      SelectFieldsTypesIn(SimpleValueTypes, fields),
      SelectFieldsTypesIn(UserTypes, fields),
      SelectFieldsTypesIn(StringListTypes, fields),
      SelectFieldsTypesIn(EntityListTypes, fields),
      SelectFieldsTypesEquals(FileType, fields),
      ConvertSubTableFields(subTables))
  }

  // ---------------------------------------------------------------------
  // Lemmas
  // ---------------------------------------------------------------------

  /** Removing descriptors never makes the collection larger. */
  lemma {:induction false} SubseqSize(a: seq<Field>, b: seq<Field>)
    requires Subseq(a, b)
    ensures Size(a) <= Size(b)
    decreases |b|
  {
    if a != [] {
      if a[0] == b[0] && Subseq(a[1..], b[1..]) {
        SubseqSize(a[1..], b[1..]);
      } else {
        SubseqSize(a, b[1..]);
      }
    }
  }

  /** Every descriptor of a collection is strictly smaller than the collection.
      `ConvertFreeOfRelatedApp` uses this to induct into a sub-table's children;
      the converter's own termination rests on its `decreases` clauses and
      `SubseqSize`. */
  lemma {:induction false} ChildrenSmaller(fields: seq<Field>, f: Field)
    requires f in fields
    ensures Size(f.children) < Size(fields)
    decreases |fields|
  {
    if fields[0] != f {
      ChildrenSmaller(fields[1..], f);
    }
  }

  /** A bucket is determined by its specification: two collections that both
      select the fields of `fields` with a type in `types` are equal. */
  lemma SelectsUnique(a: seq<Field>, b: seq<Field>, fields: seq<Field>, types: seq<string>)
    requires Selects(a, fields, types) && Selects(b, fields, types)
    ensures a == b
  {
    var p := (f: Field) => f.fieldType in types && !f.relatedApp;
    FilterUnique(p, fields, a);
    FilterUnique(p, fields, b);
  }

  /** Selecting by one tag is selecting by the one-element tag list. */
  lemma SelectEqualsIsSelectIn(t: string, fields: seq<Field>)
    ensures SelectFieldsTypesEquals(t, fields) == SelectFieldsTypesIn([t], fields)
  {
    SelectsUnique(SelectFieldsTypesEquals(t, fields), SelectFieldsTypesIn([t], fields), fields, [t]);
  }

  /** How many of the six tag lists name `t`. */
  function TagListsNaming(t: string): nat {
    (if t in SimpleValueTypes then 1 else 0)
    + (if t in UserTypes then 1 else 0)
    + (if t in StringListTypes then 1 else 0)
    + (if t in EntityListTypes then 1 else 0)
    + (if t == FileType then 1 else 0)
    + (if t == SubTableType then 1 else 0)
  }

  /** The six tag lists are pairwise disjoint: a tag is named by exactly one
      of them when it is recognised, and by none otherwise. */
  lemma TagListsDisjoint(t: string)
    ensures TagListsNaming(t) <= 1
    ensures TagListsNaming(t) == 1 <==> Recognised(t)
  {
  }

  /** The `i`th sub-table entry holds the classification of the `i`th sub-table's children. */
  lemma {:induction false} ConvertSubTableFieldsAt(subTables: seq<Field>, i: nat)
    requires i < |subTables|
    ensures ConvertSubTableFields(subTables)[i]
         == SubTableFieldTypeGroups(subTables[i].code, subTables[i].fieldType,
                                    ConvertFieldTypesToFieldTypeGroups(subTables[i].children))
    decreases i
  {
    if i > 0 {
      ConvertSubTableFieldsAt(subTables[1..], i - 1);
    }
  }

  /** The sub-table bucket: for the order-preserving selection `subTables` of
      the fields without `relatedApp` whose type is `SUBTABLE`, the bucket has
      one entry per sub-table, in order, copying its code and type, with the
      classification of that sub-table's children nested inside. */
  lemma SubTableBucket(fields: seq<Field>, subTables: seq<Field>)
    requires Selects(subTables, fields, [SubTableType])
    ensures var g := ConvertFieldTypesToFieldTypeGroups(fields);
      && |g.subTableFields| == |subTables|
      && forall i :: 0 <= i < |subTables| ==>
           g.subTableFields[i] == SubTableFieldTypeGroups(subTables[i].code, subTables[i].fieldType,
                                                         ConvertFieldTypesToFieldTypeGroups(subTables[i].children))
  {
    SelectsUnique(subTables, SelectFieldsTypesEquals(SubTableType, fields), fields, [SubTableType]);
    forall i | 0 <= i < |subTables| {
      ConvertSubTableFieldsAt(subTables, i);
    }
  }

  /** The classification of an empty collection has six empty buckets. */
  lemma ConvertEmpty()
    ensures ConvertFieldTypesToFieldTypeGroups([]) == FieldTypeGroups([], [], [], [], [], [])
  {
  }

  /** Selections in the converter's filter order do not see descriptors with a
      `relatedApp` key: dropping them beforehand changes nothing. */
  lemma SelectIgnoresRelatedApp(p: Field -> bool, fields: seq<Field>)
    ensures Filter(ExcludeLookupOrRelatedRecord, Filter(p, Filter(ExcludeLookupOrRelatedRecord, fields)))
         == Filter(ExcludeLookupOrRelatedRecord, Filter(p, fields))
  {
    var ex := ExcludeLookupOrRelatedRecord;
    FilterCommute(ex, p, fields);
    FilterIdempotent(ex, Filter(p, fields));
  }

  /** Descriptors with a `relatedApp` key, whatever their type, have no
      influence on the result: not even the children of such a sub-table are
      classified. */
  lemma ConvertIgnoresRelatedApp(fields: seq<Field>)
    ensures ConvertFieldTypesToFieldTypeGroups(Filter(ExcludeLookupOrRelatedRecord, fields))
         == ConvertFieldTypesToFieldTypeGroups(fields)
  {
    SelectIgnoresRelatedApp(TypeIncludes(SimpleValueTypes), fields);
    SelectIgnoresRelatedApp(TypeIncludes(UserTypes), fields);
    SelectIgnoresRelatedApp(TypeIncludes(StringListTypes), fields);
    SelectIgnoresRelatedApp(TypeIncludes(EntityListTypes), fields);
    SelectIgnoresRelatedApp(TypeEquals(FileType), fields);
    SelectIgnoresRelatedApp(TypeEquals(SubTableType), fields);
  }

  /** Two collections that agree on their descriptors without `relatedApp`
      are classified alike. */
  lemma RelatedAppFieldsIrrelevant(a: seq<Field>, b: seq<Field>)
    requires Filter(ExcludeLookupOrRelatedRecord, a) == Filter(ExcludeLookupOrRelatedRecord, b)
    ensures ConvertFieldTypesToFieldTypeGroups(a) == ConvertFieldTypesToFieldTypeGroups(b)
  {
    ConvertIgnoresRelatedApp(a);
    ConvertIgnoresRelatedApp(b);
  }

  /** No bucket, at any depth of nesting, holds a descriptor with a `relatedApp` key. */
  ghost predicate FreeOfRelatedApp(g: FieldTypeGroups)
    decreases g
  {
    && (forall f :: f in g.simpleFields ==> !f.relatedApp)
    && (forall f :: f in g.userFields ==> !f.relatedApp)
    && (forall f :: f in g.stringListFields ==> !f.relatedApp)
    && (forall f :: f in g.entityListFields ==> !f.relatedApp)
    && (forall f :: f in g.fileTypeFields ==> !f.relatedApp)
    && (forall i :: 0 <= i < |g.subTableFields| ==> FreeOfRelatedApp(g.subTableFields[i].fields))
  }

  lemma {:induction false} ConvertFreeOfRelatedApp(fields: seq<Field>)
    ensures FreeOfRelatedApp(ConvertFieldTypesToFieldTypeGroups(fields))
    decreases Size(fields)
  {
    var g := ConvertFieldTypesToFieldTypeGroups(fields);
    var subTables := SelectFieldsTypesEquals(SubTableType, fields);
    SubTableBucket(fields, subTables);
    forall i | 0 <= i < |g.subTableFields|
      ensures FreeOfRelatedApp(g.subTableFields[i].fields)
    {
      ChildrenSmaller(fields, subTables[i]);
      ConvertFreeOfRelatedApp(subTables[i].children);
    }
  }

  /** How many buckets of `g` hold `f`; a sub-table entry stands for `f` when
      it carries `f`'s code and type. */
  ghost function Occurrences(g: FieldTypeGroups, f: Field): nat {
    (if f in g.simpleFields then 1 else 0)
    + (if f in g.userFields then 1 else 0)
    + (if f in g.stringListFields then 1 else 0)
    + (if f in g.entityListFields then 1 else 0)
    + (if f in g.fileTypeFields then 1 else 0)
    + (if exists e :: e in g.subTableFields && e.code == f.code && e.fieldType == f.fieldType then 1 else 0)
  }

  /** Each of the five field buckets holds exactly the descriptors of
      `fields` without `relatedApp` whose type is in its list. */
  lemma FieldBucketMembership(fields: seq<Field>, f: Field)
    ensures var g := ConvertFieldTypesToFieldTypeGroups(fields);
      && (f in g.simpleFields <==> f in fields && !f.relatedApp && f.fieldType in SimpleValueTypes)
      && (f in g.userFields <==> f in fields && !f.relatedApp && f.fieldType in UserTypes)
      && (f in g.stringListFields <==> f in fields && !f.relatedApp && f.fieldType in StringListTypes)
      && (f in g.entityListFields <==> f in fields && !f.relatedApp && f.fieldType in EntityListTypes)
      && (f in g.fileTypeFields <==> f in fields && !f.relatedApp && f.fieldType == FileType)
  {
    var g := ConvertFieldTypesToFieldTypeGroups(fields);
    assert multiset(g.fileTypeFields)[f] > 0 <==> f in g.fileTypeFields;
  }

  /** The sub-table bucket has an entry with the code and type of every
      descriptor of `fields` without `relatedApp` whose type is `SUBTABLE`. */
  lemma SubTableEntryFor(fields: seq<Field>, f: Field)
    requires f in fields && !f.relatedApp && f.fieldType == SubTableType
    ensures exists e :: e in ConvertFieldTypesToFieldTypeGroups(fields).subTableFields
                        && e.code == f.code && e.fieldType == f.fieldType
  {
    var g := ConvertFieldTypesToFieldTypeGroups(fields);
    var subTables := SelectFieldsTypesEquals(SubTableType, fields);
    SubTableBucket(fields, subTables);
    var i :| 0 <= i < |subTables| && subTables[i] == f;
    assert g.subTableFields[i] in g.subTableFields;
  }

  /** A descriptor of `fields` without `relatedApp` lands in as many buckets
      as there are tag lists naming its type. */
  lemma OccurrencesOfKept(fields: seq<Field>, f: Field)
    requires f in fields && !f.relatedApp
    ensures Occurrences(ConvertFieldTypesToFieldTypeGroups(fields), f) == TagListsNaming(f.fieldType)
  {
    FieldBucketMembership(fields, f);
    if f.fieldType == SubTableType {
      SubTableEntryFor(fields, f);
    }
  }

  /** Each descriptor lands in at most one bucket. */
  lemma AtMostOneBucket(fields: seq<Field>, f: Field)
    ensures Occurrences(ConvertFieldTypesToFieldTypeGroups(fields), f) <= 1
  {
    FieldBucketMembership(fields, f);
    TagListsDisjoint(f.fieldType);
  }

  /** A descriptor of `fields` without `relatedApp` whose type is recognised
      lands in exactly one bucket. */
  lemma ExactlyOneBucket(fields: seq<Field>, f: Field)
    requires f in fields && !f.relatedApp && Recognised(f.fieldType)
    ensures Occurrences(ConvertFieldTypesToFieldTypeGroups(fields), f) == 1
  {
    OccurrencesOfKept(fields, f);
    TagListsDisjoint(f.fieldType);
  }

  /** A descriptor whose type is not recognised lands in no bucket (and causes
      no failure, since the conversion is total). */
  lemma UnrecognisedTypeDropped(fields: seq<Field>, f: Field)
    requires !Recognised(f.fieldType)
    ensures Occurrences(ConvertFieldTypesToFieldTypeGroups(fields), f) == 0
  {
    FieldBucketMembership(fields, f);
  }

  /** No two descriptors of `fields` share a code, as in a form's field map. */
  predicate UniqueCodes(fields: seq<Field>) {
    forall i, j :: 0 <= i < j < |fields| ==> fields[i].code != fields[j].code
  }

  lemma {:induction false} SameCodeSameField(fields: seq<Field>, a: Field, b: Field)
    requires UniqueCodes(fields) && a in fields && b in fields && a.code == b.code
    ensures a == b
  {
    var i :| 0 <= i < |fields| && fields[i] == a;
    var j :| 0 <= j < |fields| && fields[j] == b;
    assert !(i < j) && !(j < i);
  }

  /** When codes are unique, a descriptor with a `relatedApp` key has no
      sub-table entry carrying its code, even when its type is `SUBTABLE`. */
  lemma RelatedAppSubTableExcluded(fields: seq<Field>, f: Field)
    requires f in fields && f.relatedApp && UniqueCodes(fields)
    ensures forall e :: e in ConvertFieldTypesToFieldTypeGroups(fields).subTableFields ==> e.code != f.code
  {
    var g := ConvertFieldTypesToFieldTypeGroups(fields);
    var subTables := SelectFieldsTypesEquals(SubTableType, fields);
    SubTableBucket(fields, subTables);
    forall e | e in g.subTableFields ensures e.code != f.code {
      var k :| 0 <= k < |g.subTableFields| && g.subTableFields[k] == e;
      var t := subTables[k];
      assert t in subTables;
      if t.code == f.code {
        SameCodeSameField(fields, t, f);
      }
    }
  }

  /** A descriptor with a `relatedApp` key is in none of the five field
      buckets, whatever its type; if codes are unique, it is in no bucket at all. */
  lemma RelatedAppFieldExcluded(fields: seq<Field>, f: Field)
    requires f.relatedApp
    ensures var g := ConvertFieldTypesToFieldTypeGroups(fields);
      f !in g.simpleFields && f !in g.userFields && f !in g.stringListFields
      && f !in g.entityListFields && f !in g.fileTypeFields
    ensures f in fields && UniqueCodes(fields) ==> Occurrences(ConvertFieldTypesToFieldTypeGroups(fields), f) == 0
  {
    FieldBucketMembership(fields, f);
    if f in fields && UniqueCodes(fields) {
      RelatedAppSubTableExcluded(fields, f);
    }
  }

  // ---------------------------------------------------------------------
  // Worked examples
  // ---------------------------------------------------------------------

  /** A file field alone lands in the file bucket only. */
  lemma ExampleFileField(f: Field)
    requires f.fieldType == "FILE" && !f.relatedApp
    ensures ConvertFieldTypesToFieldTypeGroups([f]) == FieldTypeGroups([], [], [], [], [f], [])
  {
    FilterKeepsAll(ExcludeLookupOrRelatedRecord, [f]);
    FilterKeepsNone(TypeIncludes(SimpleValueTypes), [f]);
    FilterKeepsNone(TypeIncludes(UserTypes), [f]);
    FilterKeepsNone(TypeIncludes(StringListTypes), [f]);
    FilterKeepsNone(TypeIncludes(EntityListTypes), [f]);
    FilterKeepsAll(TypeEquals(FileType), [f]);
    FilterKeepsNone(TypeEquals(SubTableType), [f]);
  }

  /** A lookup or related-record field alone (say of type `NUMBER`, or a
      `SUBTABLE` with children) gives six empty buckets. */
  lemma ExampleRelatedAppField(f: Field)
    requires f.relatedApp
    ensures ConvertFieldTypesToFieldTypeGroups([f]) == FieldTypeGroups([], [], [], [], [], [])
  {
    FilterKeepsNone(ExcludeLookupOrRelatedRecord, [f]);
    ConvertIgnoresRelatedApp([f]);
  }

  /** A field of an unknown type alone gives six empty buckets. */
  lemma ExampleUnknownType(f: Field)
    requires !Recognised(f.fieldType)
    ensures ConvertFieldTypesToFieldTypeGroups([f]) == FieldTypeGroups([], [], [], [], [], [])
  {
    FilterKeepsNone(TypeIncludes(SimpleValueTypes), [f]);
    FilterKeepsNone(TypeIncludes(UserTypes), [f]);
    FilterKeepsNone(TypeIncludes(StringListTypes), [f]);
    FilterKeepsNone(TypeIncludes(EntityListTypes), [f]);
    FilterKeepsNone(TypeEquals(FileType), [f]);
    FilterKeepsNone(TypeEquals(SubTableType), [f]);
  }

  /** Check boxes and multi-selects share the string-list bucket in input order. */
  lemma ExampleStringListOrder(x: Field, y: Field, z: Field)
    requires x.fieldType == "CHECK_BOX" && y.fieldType == "MULTI_SELECT" && z.fieldType == "CHECK_BOX"
    requires !x.relatedApp && !y.relatedApp && !z.relatedApp
    ensures ConvertFieldTypesToFieldTypeGroups([x, y, z]).stringListFields == [x, y, z]
  {
    assert Filter(TypeIncludes(StringListTypes), [x, y, z]) == [x, y, z] by {
      FilterKeepsAll(TypeIncludes(StringListTypes), [x, y, z]);
    }
    assert Filter(ExcludeLookupOrRelatedRecord, [x, y, z]) == [x, y, z] by {
      FilterKeepsAll(ExcludeLookupOrRelatedRecord, [x, y, z]);
    }
  }

  /** A number and a file field give a simple and a file bucket of one each. */
  lemma ExampleNumberAndFile(a: Field, b: Field)
    requires a.fieldType == "NUMBER" && !a.relatedApp && b.fieldType == "FILE" && !b.relatedApp
    ensures ConvertFieldTypesToFieldTypeGroups([a, b]) == FieldTypeGroups([a], [], [], [], [b], [])
  {
    assert [a, b][1..] == [b];
    assert Filter(ExcludeLookupOrRelatedRecord, [a]) == [a] by {
      FilterKeepsAll(ExcludeLookupOrRelatedRecord, [a]);
    }
    assert Filter(ExcludeLookupOrRelatedRecord, [b]) == [b] by {
      FilterKeepsAll(ExcludeLookupOrRelatedRecord, [b]);
    }
    assert Filter(TypeIncludes(SimpleValueTypes), [b]) == [] by {
      FilterKeepsNone(TypeIncludes(SimpleValueTypes), [b]);
    }
    assert Filter(TypeIncludes(UserTypes), [a, b]) == [] by {
      FilterKeepsNone(TypeIncludes(UserTypes), [a, b]);
    }
    assert Filter(TypeIncludes(StringListTypes), [a, b]) == [] by {
      FilterKeepsNone(TypeIncludes(StringListTypes), [a, b]);
    }
    assert Filter(TypeIncludes(EntityListTypes), [a, b]) == [] by {
      FilterKeepsNone(TypeIncludes(EntityListTypes), [a, b]);
    }
    assert Filter(TypeEquals(FileType), [b]) == [b] by {
      FilterKeepsAll(TypeEquals(FileType), [b]);
    }
    assert Filter(TypeEquals(SubTableType), [a, b]) == [] by {
      FilterKeepsNone(TypeEquals(SubTableType), [a, b]);
    }
  }

  /** A sub-table with a number and a file child gives one sub-table entry
      whose nested groups hold the number as a simple field and the file as
      a file field. */
  lemma ExampleSubTable(t: Field, a: Field, b: Field)
    requires t.fieldType == "SUBTABLE" && !t.relatedApp && t.children == [a, b]
    requires a.fieldType == "NUMBER" && !a.relatedApp && b.fieldType == "FILE" && !b.relatedApp
    ensures ConvertFieldTypesToFieldTypeGroups([t])
         == FieldTypeGroups([], [], [], [], [],
                            [SubTableFieldTypeGroups(t.code, "SUBTABLE", FieldTypeGroups([a], [], [], [], [b], []))])
  {
    ExampleNumberAndFile(a, b);
    assert Filter(ExcludeLookupOrRelatedRecord, [t]) == [t] by {
      FilterKeepsAll(ExcludeLookupOrRelatedRecord, [t]);
    }
    assert Filter(TypeIncludes(SimpleValueTypes), [t]) == [] by {
      FilterKeepsNone(TypeIncludes(SimpleValueTypes), [t]);
    }
    assert Filter(TypeIncludes(UserTypes), [t]) == [] by {
      FilterKeepsNone(TypeIncludes(UserTypes), [t]);
    }
    assert Filter(TypeIncludes(StringListTypes), [t]) == [] by {
      FilterKeepsNone(TypeIncludes(StringListTypes), [t]);
    }
    assert Filter(TypeIncludes(EntityListTypes), [t]) == [] by {
      FilterKeepsNone(TypeIncludes(EntityListTypes), [t]);
    }
    assert Filter(TypeEquals(FileType), [t]) == [] by {
      FilterKeepsNone(TypeEquals(FileType), [t]);
    }
    assert Filter(TypeEquals(SubTableType), [t]) == [t] by {
      FilterKeepsAll(TypeEquals(SubTableType), [t]);
    }
    ConvertSubTableFieldsAt([t], 0);
  }
}
