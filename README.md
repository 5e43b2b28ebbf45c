# Type extraction from JSON Schema, in Dafny

This project models the extractor of the `generate` package. The extractor turns a
flattened JSON Schema into Go-oriented type metadata. The flattened schema is a map
from pointer path (`#`, `#/definitions/address`, `#/properties/x`, …) to schema node.
The metadata is one `StructMeta` per type, holding `FieldMeta`s with optional
`SliceMeta`, `StringMeta` and `NumberMeta` constraint blocks.

Modules, following the parts of `extractor.go`:

- `Schema`: the schema node and the five metadata records. `Wrappers` holds `Option`.
- `Order`: Go's byte-wise `sort.Strings` order.
  - `SortedKeys` is the specification.
  - `OrderedKeyNames` is `getOrderedKeyNamesFromSchemaMap`, written as an array fill and an in-place insertion sort.
- `Strings`:
  - `strings.Split` as `Pieces`;
  - `strings.Join` as `Join`;
  - `strings.Replace(s, "#/", "", -1)` as `RemoveMarker`.
- `Names`: `matches`, `splitOnAll`, `capitaliseFirstLetter`, `getGolangName` and `getStructName`. The looping Go functions become methods proved equal to specification functions.
- `Errors`: `joinErrors`.
- `Walks`: the state `getFields` builds as it visits properties. It is a fold over per-property resolutions with its general laws: the names, the last one winning, failures and slices.
- `Fields`: `getPrimitiveTypeName`, `getTypeForField` (a recursive function with one lemma per case), `contains`, and `getFields`.
  - `GetFields` is the loop.
  - `FieldsResult` is its specification.
- `Extractor`: `CreateStructs`, specified in the same way by `FinalRun` and `RunError`.
- `ProductExample`: the package's own test schema, worked through to the expected structs and slices.

## Model

| member | source | states |
|---|---|---|
| Order.SortStrings | extractor.go:89 | `sort.Strings` sorts the array in place: it ends sorted in byte order and is a permutation of what it held |
| Order.KeysIntoArray | extractor.go:83-88 | the new array holds each key of the map exactly once |
| Order.OrderedKeyNames | extractor.go:82-91 | the keys come back ascending, each once: exactly `SortedKeys` of the map's keys |
| Order.SortedKeys | extractor.go:82-91 | the specification of the sorted keys: as many as the set has, and a string is among them iff it is in the set |
| Order.SortedKeysStrictlySorted | extractor.go:89 | the sorted keys ascend strictly, so no key is visited twice |
| Order.SortedKeysUnique | extractor.go:82-91 | any strictly ascending enumeration of a key set is the sorted keys, so the visiting order is fully determined |
| Order.SortedSetIsSortedKeys | extractor.go:86-89 | a sorted permutation of the keys is the sorted keys |
| Order.LessTotal | extractor.go:89 | byte order is total: of two different strings one comes first |
| Order.LessTransitive | extractor.go:89 | byte order is transitive |
| Order.MinimumExists | extractor.go:89 | every non-empty key set has a least key |
| Strings.Pieces | extractor.go:244 | `strings.Split` at `/`: the path cut at every separator, so there is always at least one piece |
| Strings.Join | extractor.go:121 | `strings.Join`: the items with the separator between each two and none after the last; its laws are `JoinLength` and `JoinOfPieces` |
| Strings.PiecesSeparatorFree | extractor.go:244 | no piece `strings.Split` returns contains the separator |
| Strings.PiecesOfJoin | extractor.go:244 | for a non-empty list whose items do not contain the separator, splitting its join at that one-character separator gives the list back |
| Strings.JoinOfPieces | extractor.go:244 | joining the pieces of a string with its separator gives the string back |
| Strings.JoinLength | extractor.go:68-80 | a join adds the separator only between items, never after the last one |
| Strings.RemoveMarker | extractor.go:243 | removing `#/` never lengthens a path |
| Strings.RemoveMarkerWithoutHash | extractor.go:243 | a path without `#` is left alone |
| Strings.RemoveMarkerAppend | extractor.go:243 | removal works piece by piece when no `#/` spans the joint, so every occurrence is removed, not only a leading one |
| Strings.RemoveMarkerNotRepeated | extractor.go:243 | in any context, `##//` leaves one `#/` behind, so removing again changes the result: the removal is one pass, not repeated to a fixed point |
| Strings.RemoveMarkerSinglePass | extractor.go:243 | the removal is a single left-to-right pass: `##//` becomes `#/` |
| Errors.JoinErrors | extractor.go:68-80 | the messages in order, separated by `", "`, with nothing after the last |
| Names.Matches | extractor.go:292-299 | true exactly when the character is one of the separators |
| Names.SplitOnAll | extractor.go:273-290 | the pieces between separators, keeping the empty pieces between adjacent separators and dropping an empty last piece |
| Names.SegmentsSeparatorFree | extractor.go:273-290 | no segment contains a separator |
| Names.SegmentsRebuild | extractor.go:273-290 | joining the segments with the separator gives the string back, less a trailing separator |
| Names.CapitaliseFirstLetter | extractor.go:301-309 | length is kept, the first character is upper-cased and the rest is unchanged |
| Names.UpperIdempotent | extractor.go:308 | upper-casing twice is upper-casing once |
| Names.GetGolangName | extractor.go:263-271 | the loop appends the capitalised segments: `GolangName` |
| Names.GolangNameIsIdentifier | extractor.go:263-271 | agrees with a character-by-character reading: separators dropped, the first character of each segment upper-cased |
| Names.GolangNameSeparatorFree | extractor.go:263-271 | a golang name contains none of `_`, space, `.`, `-` |
| Names.GolangNameOfSeparatorFree | extractor.go:263-271 | a name without separators only has its first letter upper-cased |
| Names.GolangNameIdempotent | extractor.go:263-271 | applying getGolangName twice gives the same as once |
| Names.ConcatGolangNames | extractor.go:247-253 | the buffer ends up holding the golang names of the parts, in order |
| Names.GetStructName | extractor.go:228-260 | equals `StructName`: for `#`, the golang name of the title, else the description, else `Root`; otherwise the golang names of the last n segments after every `#/` is removed, or `Root` if that is empty |
| Names.StructNameOfPathIgnoresSchema | extractor.go:228-259 | for any pointer other than `#`, the struct name depends on the path alone, not on the node's title or description |
| Names.StructNameShape | extractor.go:228-260 | a struct name has no separators, and only the root pointer can give an empty one |
| Names.StructNameOfLastSegment | extractor.go:243-259 | for a path `prefix/name` where `name` has no `/` and `prefix` does not end in `#` (else the `#/` at the joint is removed too), the struct name of its last segment is the golang name of `name`, or `Root` when that is empty |
| Names.PathSegments | extractor.go:243-244 | a path always has at least one segment |
| Fields.PrimitiveTypeName | extractor.go:198-224 | getPrimitiveTypeName as a function of kind, subtype and pointer flag; its laws are `PrimitiveTypeNameFails` and the case lemmas below |
| Fields.TypeForField | extractor.go:136-196 | getTypeForField as a recursive function; it requires `Resolvable`: every node whose major type is array has `Items`, because Go dereferences `schema.Items` at extractor.go:162 and panics on nil; its laws are the case lemmas below |
| Fields.PrimitiveTypeNameFails | extractor.go:198-224 | the mapper fails exactly for an array with an empty subtype and for a kind it does not know, and then returns `error_creating_array` for the array and `undefined` for the unknown kind; `object` never fails, even with an empty subtype |
| Fields.ScalarField | extractor.go:205-212 | `boolean`, `integer`, `number`, `null` and `string` give `bool`, `int`, `float64`, `nil` and `string`, with no error and no slice |
| Fields.ReferenceField | extractor.go:141-148 | a `$ref` found in types gives `*` plus the struct name of the target (the bare name for array items), with no error, whatever the node's own kind |
| Fields.DefinitionReference | extractor.go:141-148 | for a `name` with no `/`, a `$ref` to `#/definitions/name` gives `*` plus the golang name of `name`, or `*Root` |
| Fields.EmbeddedField | extractor.go:150-158 | without a usable `$ref`, an object with an entry under `parent/properties/field` gets `*` plus that entry's struct name |
| Fields.EmbeddedFieldName | extractor.go:152-153 | for a field name with no `/`, that struct name is the golang name of the field, or `Root` when that golang name is empty |
| Fields.UnresolvedObjectField | extractor.go:213-218 | an object with no type to be found resolves to a bare `*`, or the empty name for array items, with no error |
| Fields.UnresolvedReferenceFallsThrough | extractor.go:141-148 | a `$ref` not found in types is ignored: the same kind and the same error as with no `$ref` |
| Fields.UnresolvedReferenceSameField | extractor.go:141-148 | a `$ref` not found in types is ignored altogether: the whole field, type, blocks and error, is the one the node gives with no `$ref` |
| Fields.ArrayField | extractor.go:160-166 | an array gets the slice block of its element type with the array's own bounds; it succeeds with `[]` plus the element type, and fails when the element type is empty, as it is after a dropped element error |
| Fields.UnknownKindField | extractor.go:187-191 | any other kind fails with both error messages and an empty type |
| Fields.TypeForFieldSlice | extractor.go:160-166 | a slice block is attached exactly to arrays, carrying the items' type and the array's bounds, and a successful array's type is `[]` plus the element type |
| Fields.TypeForFieldNumber | extractor.go:170-178 | a number block is attached iff the type is `int` or `float64` and one of multipleOf, minimum, exclusiveMinimum, maximum, exclusiveMaximum is set, and it copies them |
| Fields.TypeForFieldString | extractor.go:179-184 | a string block is attached iff the type is `string` and one of minLength, maxLength, pattern is set, and it copies them |
| Fields.TypeForFieldError | extractor.go:187-193 | on error the type is left empty, not set to the placeholder |
| Fields.TypeForFieldOneBlock | extractor.go:160-185 | a field never carries two of the slice, string and number blocks |
| Fields.Contains | extractor.go:127-134 | true exactly when the name is in the required list |
| Fields.FieldFor | extractor.go:101-112 | the JSON name is the key, the name is its golang name, and the field is required iff the key is in the required list; on error the type is empty; at most one block |
| Fields.VisitField | extractor.go:101-117 | one iteration stores the field under its golang name, appends its slice block and, on error, its name and error |
| Fields.VisitAll | extractor.go:100-118 | the loop's state after the keys is the fold of their resolutions |
| Fields.GetFields | extractor.go:93-125 | equals `FieldsResult`: the fold over the sorted property names, with the `missing types for …` error when some field failed |
| Fields.GetFieldsNames | extractor.go:100-114 | the fields are keyed by exactly the golang names of the properties |
| Fields.GetFieldsEntries | extractor.go:110-114 | each stored field is the resolution of one property, under its own name |
| Fields.GetFieldsGreatestKeyWins | extractor.go:100-114 | when properties share a golang name, the field of the last one in sort order is kept |
| Fields.GetFieldsFailures | extractor.go:106-122 | getFields fails iff some property fails to resolve |
| Fields.GetFieldsSlices | extractor.go:115-117 | every slice block belongs to one of the properties |
| Fields.GetFieldsSlicesInOrder | extractor.go:100-117 | the slice blocks appear in sorted property order |
| Walks.WalkOfAppend | extractor.go:100-118 | the getFields fold is a homomorphism: later properties only add to what earlier ones produced, except for replacing a field of the same name |
| Walks.WalkOfFailures | extractor.go:106-109 | each missing name comes with the error of the same property, and there is one iff some property failed |
| Extractor.VisitType | extractor.go:37-58 | one iteration: the type's slices appended, its getFields error appended twice, and its struct stored under its struct name |
| Extractor.VisitTypes | extractor.go:36-59 | the loop's state after the type keys is the fold of their contributions |
| Extractor.CreateStructs | extractor.go:27-66 | equals the fold over the sorted type keys, with the errors joined by `", "` when there are any |
| Extractor.RunOfAppend | extractor.go:36-59 | the run is a homomorphism: a type key is processed whatever failed before it, and later keys only add to what earlier ones produced |
| Extractor.DoubledAt | extractor.go:42-50 | the doubled list holds each error at two adjacent positions and nothing else |
| Extractor.RunOfErrors | extractor.go:42-50 | the collected errors are the getFields failures in order, each one twice |
| Extractor.CreateStructsNames | extractor.go:36-58 | the structs are keyed by exactly the struct names of all type keys: every type key is processed, even after errors |
| Extractor.CreateStructsEntries | extractor.go:52-58 | each struct has a type key as its ID, that key's struct name as name and map key, and that key's getFields fields |
| Extractor.CreateStructsGreatestKeyWins | extractor.go:36-58 | when type keys share a struct name, the struct of the last one in sort order is kept |
| Extractor.CreateStructsErrorDoubled | extractor.go:42-63 | the error is absent when no getFields failed; otherwise it is every getFields error, twice each, in sorted key order, joined with `", "` |
| Extractor.CreateStructsFailures | extractor.go:39-63 | CreateStructs returns an error iff getFields fails for some type |
| Extractor.CreateStructsSlices | extractor.go:39-40 | every returned slice block is one getFields returned for some type |
| Extractor.CreateStructsSlicesInOrder | extractor.go:36-40 | the slice blocks are the types' getFields slices concatenated in sorted key order |
| ProductExample.PropertyOrder | extractor_test.go:58-81 | the properties are visited as `id`, `name`, `price`, `tags` |
| ProductExample.TagsResolved | extractor_test.go:73-80 | `tags` becomes `[]string`, not required, with slice block `{"string", 1, 0}` |
| ProductExample.ProductFieldsResult | extractor_test.go:85-124 | getFields on the product gives the four expected fields, the tags' slice block and no error |
| ProductExample.ProductName | extractor_test.go:55 | the root is named by its title, `Product` |
| ProductExample.ProductStructs | extractor_test.go:22-30 | CreateStructs on the product gives one struct `Product` with ID `#`, the slices `[{"string", 1, 0}]` and no error |

## Left out

- JSON Schema parsing and `ExtractTypes` belong to another package. CreateStructs takes the flattened map as its input. The product example assumes that map holds only the root, since none of its properties is an object.
- `New` and the `Extractor` wrapper (extractor.go:15-24) only hold the schema.
- `MultipleOf`, `Minimum` and `Maximum` are floating-point in Go. They are modelled as reals, because the code only compares them with zero or nil.
- `strings.ToUpper` is modelled for ASCII only. Byte slicing of a multi-byte first character (extractor.go:306-308) is not modelled.
- `strings.Replace` is modelled only for the one pattern the code uses, `#/`. `strings.Split` and `strings.Join` are modelled as `Pieces` and `Join`.
- Go panics are preconditions:
  - an array node without items (extractor.go:162);
  - asking getStructName for more segments than the path has (extractor.go:245).
- Error values are modelled as their message strings, in the exact `fmt.Errorf` wording.
- The map iteration order in getOrderedKeyNamesFromSchemaMap (extractor.go:85) is unspecified. It is modelled by picking keys in any order; the sort that follows makes the result independent of it.
- `reflect.DeepEqual` and the test harness are not modelled.
- Fields.ReferenceField: assumes the target's struct name is not empty. Only a root target can give an empty name: one whose title (or, when the title is empty, whose description) is made only of `_`, space, `.` and `-`; and then the embedded lookup may take over; that case is not covered.
- An `object` whose subtype could not be found does not fail: getPrimitiveTypeName returns `*` or the empty name with no error (extractor.go:213-218). `Fields.UnresolvedObjectField` states it.
