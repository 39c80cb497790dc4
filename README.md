# Field-type converter of kintone-typlify, modelled in Dafny

kintone-typlify reads the field metadata of a kintone form and sorts the field
descriptors into six groups: simple-value fields, user fields, string-list
fields, entity-list fields, file fields and sub-tables. Each sub-table entry
carries the sub-table's code and type and the grouping of its own child
fields, computed by the same procedure, to any depth. A descriptor that has a
`relatedApp` key (a lookup or related-records field) is left out of every
group. If that descriptor is a sub-table, its children are never looked at.

The model has two modules:

- `Seqs` (`seqs.dfy`): the `filter` that the converter is built from, as the
  function `Filter`. Beside it is a declarative subsequence relation
  `Subseq`, and lemmas saying what `Filter` returns, that this contract fixes
  its result, and that two filters commute.
- `FieldTypeConverter` (`fieldtype_converter.dfy`): the six tag lists, the
  descriptor `Field`, the result types `FieldTypeGroups` and
  `SubTableFieldTypeGroups`, the five functions of the converter, and lemmas
  about them.

Four members model source code but carry no contract of their own. They are
specified through the lemmas and functions built on them, so the table below
has no row for them:

- `FieldTypeConverter.ExcludeLookupOrRelatedRecord` models
  `excludeLookupOrRelatedRecord` (src/converters/fileldtype-converter.ts:56-60).
  What it keeps is stated by `SelectFieldsTypesIn`, `SelectFieldsTypesEquals`
  and the `relatedApp` lemmas.
- `FieldTypeConverter.TypeIncludes` models the `typeIncludes` arrow
  (src/converters/fileldtype-converter.ts:69-70).
- `FieldTypeConverter.TypeEquals` models the arrow `field => field.type === type`
  (src/converters/fileldtype-converter.ts:86).
- `Seqs.Filter` models `Array.prototype.filter` as used at
  src/converters/fileldtype-converter.ts:72-74 and 85-87. Its contract is the
  lemma `Seqs.FilterSpec`.

A descriptor is `Field(code, fieldType, relatedApp, children)`. `fieldType` is
the source's `type`, which is a reserved word in Dafny. `relatedApp` records
whether the `relatedApp` key is present; its value does not matter. `children`
holds the values of a sub-table's `fields` mapping in iteration order. It is
read only for descriptors of type `SUBTABLE`. The top-level input is a
sequence of descriptors, i.e. the values of the form's field mapping.

A bucket is specified by the predicate `Selects(bucket, fields, types)`. It
has two parts:

- the bucket is a subsequence of the input;
- the bucket holds every descriptor without `relatedApp` whose type is in
  `types`, exactly as often as the input does, and no other descriptor.

`Seqs.FilterUnique` and `SelectsUnique` prove that this describes exactly one
sequence.

The conversion is a Dafny function over immutable values. Equal inputs
therefore give equal outputs, and the input is never changed.

The code filters on the type first and on `relatedApp` second. Filters commute
(`Seqs.FilterCommute`), so this gives the same result as testing the marker
first. The model keeps the code's order.

## Model

| member | source | states |
|---|---|---|
| `FieldTypeConverter.SelectFieldsTypesIn` | src/converters/fileldtype-converter.ts:62-75 | the result is the order-preserving selection of the input descriptors whose type is in the given list and that have no `relatedApp` key: a subsequence of the input, holding each such descriptor as often as the input does and nothing else |
| `FieldTypeConverter.SelectFieldsTypesEquals` | src/converters/fileldtype-converter.ts:77-88 | the same, for descriptors whose type equals the given tag |
| `FieldTypeConverter.SelectEqualsIsSelectIn` | src/converters/fileldtype-converter.ts:62-88 | selecting by one tag gives the same sequence as selecting by the one-element tag list |
| `FieldTypeConverter.SelectsUnique` | src/converters/fileldtype-converter.ts:62-88 | the bucket specification fixes the bucket: two sequences that both meet it are equal |
| `FieldTypeConverter.ConvertSubTableFields` | src/converters/fileldtype-converter.ts:90-102 | one entry per sub-table, in order, each copying the sub-table's code and type |
| `FieldTypeConverter.ConvertSubTableFieldsAt` | src/converters/fileldtype-converter.ts:93-101 | the i-th entry's nested groups are the conversion of the i-th sub-table's children |
| `FieldTypeConverter.ConvertFieldTypesToFieldTypeGroups` | src/converters/fileldtype-converter.ts:104-143 | each of the five field buckets is the order-preserving selection of the input for its tag list (simple, user, string-list, entity-list) or tag (`FILE`); every sub-table entry has type `SUBTABLE` |
| `FieldTypeConverter.SubTableBucket` | src/converters/fileldtype-converter.ts:128-133 | for the selection of the non-`relatedApp` `SUBTABLE` descriptors, the sub-table bucket has one entry per sub-table, in input order, with its code, its type and the conversion of its children |
| `FieldTypeConverter.ConvertEmpty` | src/converters/fileldtype-converter.ts:104-142 | an empty input gives six empty buckets |
| `FieldTypeConverter.TagListsDisjoint` | src/converters/fileldtype-converter.ts:10-39 | no tag is named by more than one of the six tag lists; a tag is named by exactly one of them if and only if it is recognised |
| `FieldTypeConverter.FieldBucketMembership` | src/converters/fileldtype-converter.ts:107-127 | a descriptor is in one of the five field buckets if and only if it is in the input, has no `relatedApp` key, and its type is in that bucket's list |
| `FieldTypeConverter.SubTableEntryFor` | src/converters/fileldtype-converter.ts:128-133 | every input descriptor of type `SUBTABLE` without `relatedApp` has a sub-table entry with its code and type |
| `FieldTypeConverter.OccurrencesOfKept` | src/converters/fileldtype-converter.ts:107-133 | an input descriptor without `relatedApp` is in as many buckets as there are tag lists naming its type |
| `FieldTypeConverter.AtMostOneBucket` | src/converters/fileldtype-converter.ts:107-133 | every descriptor is in at most one bucket |
| `FieldTypeConverter.ExactlyOneBucket` | src/converters/fileldtype-converter.ts:107-133 | an input descriptor with a recognised type and no `relatedApp` key is in exactly one bucket |
| `FieldTypeConverter.UnrecognisedTypeDropped` | src/converters/fileldtype-converter.ts:107-133 | a descriptor whose type is in no tag list is in no bucket |
| `FieldTypeConverter.RelatedAppFieldExcluded` | src/converters/fileldtype-converter.ts:56-60 | a descriptor with a `relatedApp` key is in none of the five field buckets, whatever its type; when codes are unique in the input it is in no bucket at all |
| `FieldTypeConverter.RelatedAppSubTableExcluded` | src/converters/fileldtype-converter.ts:85-87 | when codes are unique, no sub-table entry carries the code of a `relatedApp` descriptor, even one of type `SUBTABLE` |
| `FieldTypeConverter.SelectIgnoresRelatedApp` | src/converters/fileldtype-converter.ts:72-74 | removing the `relatedApp` descriptors before a type filter followed by the `relatedApp` filter changes nothing |
| `FieldTypeConverter.ConvertIgnoresRelatedApp` | src/converters/fileldtype-converter.ts:104-133 | converting the input with its `relatedApp` descriptors removed gives the same groups, so the children of a `relatedApp` sub-table are never classified |
| `FieldTypeConverter.RelatedAppFieldsIrrelevant` | src/converters/fileldtype-converter.ts:56-60 | two inputs that agree once their `relatedApp` descriptors are removed give equal groups |
| `FieldTypeConverter.ConvertFreeOfRelatedApp` | src/converters/fileldtype-converter.ts:90-133 | no bucket, at any depth of sub-table nesting, holds a `relatedApp` descriptor |
| `FieldTypeConverter.ChildrenSmaller` | src/converters/fileldtype-converter.ts:97-99 | a descriptor's children are strictly smaller than the collection holding it; this is the induction step of `ConvertFreeOfRelatedApp` into a sub-table's children (termination of the converter itself is shown by its `decreases` clauses with `SubseqSize`) |
| `FieldTypeConverter.SubseqSize` | src/converters/fileldtype-converter.ts:128-133 | the selected sub-tables are no larger than the input they come from |
| `FieldTypeConverter.ExampleFileField` | src/converters/fileldtype-converter.ts:124-127 | a single `FILE` descriptor lands in the file bucket and nowhere else |
| `FieldTypeConverter.ExampleRelatedAppField` | src/converters/fileldtype-converter.ts:56-60 | a single `relatedApp` descriptor of any type gives six empty buckets |
| `FieldTypeConverter.ExampleUnknownType` | src/converters/fileldtype-converter.ts:107-133 | a single descriptor of an unknown type gives six empty buckets |
| `FieldTypeConverter.ExampleStringListOrder` | src/converters/fileldtype-converter.ts:116-119 | `CHECK_BOX`, `MULTI_SELECT`, `CHECK_BOX` descriptors all land in the string-list bucket, in input order |
| `FieldTypeConverter.ExampleNumberAndFile` | src/converters/fileldtype-converter.ts:107-127 | a `NUMBER` and a `FILE` descriptor give a one-element simple bucket and a one-element file bucket |
| `FieldTypeConverter.ExampleSubTable` | src/converters/fileldtype-converter.ts:128-133 | a sub-table with a `NUMBER` and a `FILE` child gives one sub-table entry whose nested groups hold them in the simple and file buckets |
| `Seqs.FilterSpec` | src/converters/fileldtype-converter.ts:72-74 | a filter returns a subsequence of its input holding every occurrence of the elements that pass and nothing else |
| `Seqs.FilterUnique` | src/converters/fileldtype-converter.ts:72-74 | that contract determines the filter's result |
| `Seqs.FilterCommute` | src/converters/fileldtype-converter.ts:85-87 | two filters give the same result in either order |
| `Seqs.FilterIdempotent` | src/converters/fileldtype-converter.ts:85-87 | filtering twice by one predicate is filtering once; the converter never does this itself, and the lemma is a helper for `SelectIgnoresRelatedApp` and `ConvertIgnoresRelatedApp`, where the input has already had its `relatedApp` descriptors removed |

## Left out

- The `FieldType` and `SubTableFieldType` declarations of the forms client (src/converters/fileldtype-converter.ts:1-4) and the client that fetches the metadata over the network are not part of this model. Only `code`, `type`, the presence of `relatedApp` and a sub-table's child fields are modelled. The five field buckets hold the input descriptors themselves, so their other attributes are carried along. A sub-table entry keeps only the code, the type and the grouping of the children (src/converters/fileldtype-converter.ts:93-100), as `SubTableFieldTypeGroups` does; a sub-table's other attributes and its raw `fields` mapping do not reach the output.
- `objectValues` (src/converters/fileldtype-converter.ts:5) is not part of this model. Its result is taken to be the values of the mapping in a fixed order, given directly as a `seq<Field>`.
- The key lookup `Object.keys(field).indexOf("relatedApp")` is modelled as the boolean `relatedApp`. The model does not enumerate keys.
- The exports `FieldTypeConverter` and `VisibleForTesting` (src/converters/fileldtype-converter.ts:145-157) only re-export the functions and two constants, so they are not modelled.
- The TypeScript casts between the array types (src/converters/fileldtype-converter.ts:66-68, 81-83, 132) do nothing at run time, so they are not modelled.
- Object identity is not modelled. Buckets hold descriptor values, so two descriptors with equal attributes cannot be told apart. Because of this, the statements about the sub-table bucket for a single `relatedApp` descriptor (`RelatedAppFieldExcluded`, `RelatedAppSubTableExcluded`) assume unique codes, as in a form's field mapping. `ConvertIgnoresRelatedApp` makes the same point without that assumption.
- Determinism and the guarantee that the input is not changed have no lemma. They hold by construction: the conversion is a Dafny function over immutable values.
