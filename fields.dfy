/** The field resolver: getPrimitiveTypeName, getTypeForField, contains and getFields. */
module Fields {
  import opened Wrappers
  import opened Schema
  import opened Strings
  import opened Names
  import opened Order
  import opened Errors
  import opened Walks

  /** getPrimitiveTypeName: the Go type for a schema kind, given the subtype
      found for objects and arrays, with an error for an array of nothing and
      for an unknown kind. */
  function PrimitiveTypeName(schemaType: string, subType: string, pointer: bool): (string, Option<string>)
  {
    if schemaType == "array" then
      if subType == "" then ("error_creating_array", Some("can't create an array of an empty subtype"))
      else ("[]" + subType, None)
    else if schemaType == "boolean" then ("bool", None)
    else if schemaType == "integer" then ("int", None)
    else if schemaType == "number" then ("float64", None)
    else if schemaType == "null" then ("nil", None)
    else if schemaType == "object" then (if pointer then "*" + subType else subType, None)
    else if schemaType == "string" then ("string", None)
    else ("undefined", Some("failed to get a primitive type for schemaType " + schemaType + " and subtype " + subType))
  }

  /** getPrimitiveTypeName fails exactly for an array of nothing and for a
      kind it does not know, and then names the placeholder of that case:
      error_creating_array for the array, undefined for the unknown kind. */
  lemma PrimitiveTypeNameFails(schemaType: string, subType: string, pointer: bool)
    ensures var r := PrimitiveTypeName(schemaType, subType, pointer);
      (r.1.None? <==> schemaType in {"boolean", "integer", "number", "null", "string", "object"} || (schemaType == "array" && subType != "")) &&
      (r.1.Some? ==> r.0 == (if schemaType == "array" then "error_creating_array" else "undefined"))
  {
  }

  /** The pointer path under which an inline object property is its own type. */
  function EmbeddedKey(parentTypeKey: string, fieldName: string): string
  {
    parentTypeKey + "/properties/" + fieldName
  }

  /** The major type of a node: a $ref found in `types` makes it an object,
      otherwise it is the node's own kind. A $ref that is not found falls through. */
  function MajorType(schema: Schema, types: map<string, Schema>): (r: string)
  {
    if schema.Reference != "" && schema.Reference in types then "object" else schema.Type
  }

  /** The major type and subtype of a property after the two lookups of
      getTypeForField: first a $ref found in `types`, then (only if that gave no
      subtype and the kind is object) the embedded type under
      <parent>/properties/<field>. The embedded lookup keeps the major type. */
  function Kind(parentTypeKey: string, fieldName: string, schema: Schema, types: map<string, Schema>): (string, string)
  {
    var major := MajorType(schema, types);
    var sub := if schema.Reference != "" && schema.Reference in types then StructName(schema.Reference, types[schema.Reference], 1) else "";
    var key := EmbeddedKey(parentTypeKey, fieldName);
    if sub == "" && major == "object" && key in types
    then ("object", StructName(key, types[key], 1))
    else (major, sub)
  }

  /** Go dereferences Items for every node whose major type is array; a nil
      Items there would panic. This is what the callers must rule out. */
  predicate Resolvable(parentTypeKey: string, fieldName: string, schema: Schema, types: map<string, Schema>)
    decreases schema
  {
    MajorType(schema, types) == "array" ==>
      schema.Items.Some? && Resolvable(parentTypeKey, fieldName, schema.Items.value, types)
  }

  predicate NumberConstrained(schema: Schema)
  {
    schema.MultipleOf != 0.0 || schema.Minimum.Some? || schema.ExclusiveMinimum ||
    schema.Maximum.Some? || schema.ExclusiveMaximum
  }

  predicate StringConstrained(schema: Schema)
  {
    schema.MinLength != 0 || schema.MaxLength != 0 || schema.Pattern != ""
  }

  /** At most one of the three constraint blocks is attached. */
  predicate AtMostOneBlock(m: FieldMeta)
  {
    (m.Slice.Some? ==> m.String.None? && m.Number.None?) && (m.String.Some? ==> m.Number.None?)
  }

  /** getTypeForField: resolve a property to a Go type and its constraint
      block. The element type of an array comes from resolving its Items by
      value, and the error of that resolution is dropped; on error the Type
      stays empty while the blocks already found are kept. */
  function TypeForField(parentTypeKey: string, fieldName: string, fieldGoName: string, schema: Schema,
                        types: map<string, Schema>, pointer: bool): (FieldMeta, Option<string>)
    requires Resolvable(parentTypeKey, fieldName, schema, types)
    decreases schema, 1
  {
    var (majorType, sub) := Kind(parentTypeKey, fieldName, schema, types);
    var slice :=
      if majorType == "array"
      then Some(SliceMeta(ElemType(parentTypeKey, fieldName, fieldGoName, schema.Items.value, types),
                          schema.MinItems, schema.MaxItems))
      else None;
    var subType := if slice.Some? then slice.value.ElemType else sub;
    var (typName, err) := PrimitiveTypeName(majorType, subType, pointer);
    var number :=
      if (typName == "int" || typName == "float64") && NumberConstrained(schema)
      then Some(NumberMeta(schema.MultipleOf, schema.Minimum, schema.ExclusiveMinimum, schema.Maximum, schema.ExclusiveMaximum))
      else None;
    var str :=
      if typName == "string" && StringConstrained(schema)
      then Some(StringMeta(schema.MinLength, schema.MaxLength, schema.Pattern))
      else None;
    if err.Some? then
      (FieldMeta("", "", "", false, slice, str, number),
       Some("Failed to get the type for " + fieldGoName + " with error " + err.value))
    else
      (FieldMeta("", "", typName, false, slice, str, number), None)
  }

  /** The element type of an array: its items resolved by value, with any
      error of theirs dropped. */
  function ElemType(parentTypeKey: string, fieldName: string, fieldGoName: string, items: Schema,
                    types: map<string, Schema>): string
    requires Resolvable(parentTypeKey, fieldName, items, types)
    decreases items, 2
  {
    TypeForField(parentTypeKey, fieldName, fieldGoName, items, types, false).0.Type
  }

  /** A slice block is attached exactly to arrays, with the element type of
      the items and the array's bounds, and a successful array's type is the
      slice of its element type. */
  lemma TypeForFieldSlice(parentTypeKey: string, fieldName: string, fieldGoName: string, schema: Schema,
                          types: map<string, Schema>, pointer: bool)
    requires Resolvable(parentTypeKey, fieldName, schema, types)
    ensures var r := TypeForField(parentTypeKey, fieldName, fieldGoName, schema, types, pointer);
      (r.0.Slice.Some? <==> MajorType(schema, types) == "array") &&
      (r.0.Slice.Some? ==>
         r.0.Slice.value == SliceMeta(ElemType(parentTypeKey, fieldName, fieldGoName, schema.Items.value, types), schema.MinItems, schema.MaxItems)) &&
      (r.0.Slice.Some? && r.1.None? ==> r.0.Type == "[]" + r.0.Slice.value.ElemType)
  {
  }

  /** A number block is attached exactly to a constrained int or float64,
      with the node's numeric constraints. */
  lemma TypeForFieldNumber(parentTypeKey: string, fieldName: string, fieldGoName: string, schema: Schema,
                          types: map<string, Schema>, pointer: bool)
    requires Resolvable(parentTypeKey, fieldName, schema, types)
    ensures var r := TypeForField(parentTypeKey, fieldName, fieldGoName, schema, types, pointer);
      (r.0.Number.Some? <==> (r.0.Type == "int" || r.0.Type == "float64") && NumberConstrained(schema)) &&
      (r.0.Number.Some? ==> r.0.Number.value == NumberMeta(schema.MultipleOf, schema.Minimum, schema.ExclusiveMinimum, schema.Maximum, schema.ExclusiveMaximum))
  {
  }

  /** A string block is attached exactly to a constrained string, with the
      node's length and pattern constraints. */
  lemma TypeForFieldString(parentTypeKey: string, fieldName: string, fieldGoName: string, schema: Schema,
                          types: map<string, Schema>, pointer: bool)
    requires Resolvable(parentTypeKey, fieldName, schema, types)
    ensures var r := TypeForField(parentTypeKey, fieldName, fieldGoName, schema, types, pointer);
      (r.0.String.Some? <==> r.0.Type == "string" && StringConstrained(schema)) &&
      (r.0.String.Some? ==> r.0.String.value == StringMeta(schema.MinLength, schema.MaxLength, schema.Pattern))
  {
  }

  /** On error the type is empty, and the names are left for the caller. */
  lemma TypeForFieldError(parentTypeKey: string, fieldName: string, fieldGoName: string, schema: Schema,
                          types: map<string, Schema>, pointer: bool)
    requires Resolvable(parentTypeKey, fieldName, schema, types)
    ensures var r := TypeForField(parentTypeKey, fieldName, fieldGoName, schema, types, pointer);
      (r.1.Some? ==> r.0.Type == "") && r.0.Name == "" && r.0.JSONName == "" && !r.0.Required
  {
  }

  /** The type and the error come from getPrimitiveTypeName applied to the
      looked-up kind and, for an array, to its element type. */
  lemma TypeForFieldType(parentTypeKey: string, fieldName: string, fieldGoName: string, schema: Schema,
                          types: map<string, Schema>, pointer: bool)
    requires Resolvable(parentTypeKey, fieldName, schema, types)
    ensures var (major, sub) := Kind(parentTypeKey, fieldName, schema, types);
      var subType := if major == "array" then ElemType(parentTypeKey, fieldName, fieldGoName, schema.Items.value, types) else sub;
      var (typName, err) := PrimitiveTypeName(major, subType, pointer);
      var r := TypeForField(parentTypeKey, fieldName, fieldGoName, schema, types, pointer);
      r.1 == (if err.Some? then Some("Failed to get the type for " + fieldGoName + " with error " + err.value) else None) &&
      (err.None? ==> r.0.Type == typName)
  {
  }

  /** At most one of the three blocks is attached. */
  lemma TypeForFieldOneBlock(parentTypeKey: string, fieldName: string, fieldGoName: string, schema: Schema,
                          types: map<string, Schema>, pointer: bool)
    requires Resolvable(parentTypeKey, fieldName, schema, types)
    ensures var r := TypeForField(parentTypeKey, fieldName, fieldGoName, schema, types, pointer);
      AtMostOneBlock(r.0)
  {
    TypeForFieldSlice(parentTypeKey, fieldName, fieldGoName, schema, types, pointer);
    TypeForFieldNumber(parentTypeKey, fieldName, fieldGoName, schema, types, pointer);
    TypeForFieldString(parentTypeKey, fieldName, fieldGoName, schema, types, pointer);
    TypeForFieldError(parentTypeKey, fieldName, fieldGoName, schema, types, pointer);
    var r := TypeForField(parentTypeKey, fieldName, fieldGoName, schema, types, pointer);
    if r.0.Slice.Some? && r.1.None? {
      assert r.0.Type[0] == '[';
    }
  }


  /** No $ref, or one that names no known type. */
  predicate NoTypeFound(schema: Schema, types: map<string, Schema>)
  {
    schema.Reference == "" || schema.Reference !in types
  }

  /** An object kind with subtype `sn` resolves to `sn`, behind a pointer if
      asked, with no block and no error. */
  lemma ObjectFieldParts(parentTypeKey: string, fieldName: string, fieldGoName: string, schema: Schema,
                         types: map<string, Schema>, pointer: bool, sn: string)
    requires Resolvable(parentTypeKey, fieldName, schema, types)
    requires Kind(parentTypeKey, fieldName, schema, types) == ("object", sn)
    ensures var r := TypeForField(parentTypeKey, fieldName, fieldGoName, schema, types, pointer);
      r.1.None? && r.0.Type == (if pointer then "*" + sn else sn) && r.0.Slice.None?
    ensures pointer ==>
      TypeForField(parentTypeKey, fieldName, fieldGoName, schema, types, pointer).0
      == FieldMeta("", "", "*" + sn, false, None, None, None)
  {
    assert PrimitiveTypeName("object", sn, pointer) == (if pointer then "*" + sn else sn, None);
    TypeForFieldType(parentTypeKey, fieldName, fieldGoName, schema, types, pointer);
    TypeForFieldSlice(parentTypeKey, fieldName, fieldGoName, schema, types, pointer);
    TypeForFieldNumber(parentTypeKey, fieldName, fieldGoName, schema, types, pointer);
    TypeForFieldString(parentTypeKey, fieldName, fieldGoName, schema, types, pointer);
    TypeForFieldError(parentTypeKey, fieldName, fieldGoName, schema, types, pointer);
    assert ("*" + sn)[0] == '*';
  }

  /** A $ref to a known type gives a pointer to (or, for array items, the
      value of) that type, whatever the node's own kind, and never an error,
      provided the struct name found is not empty. */
  lemma ReferenceField(parentTypeKey: string, fieldName: string, fieldGoName: string, schema: Schema,
                       types: map<string, Schema>, pointer: bool)
    requires schema.Reference != "" && schema.Reference in types
    requires StructName(schema.Reference, types[schema.Reference], 1) != ""
    ensures var sn := StructName(schema.Reference, types[schema.Reference], 1);
      var r := TypeForField(parentTypeKey, fieldName, fieldGoName, schema, types, pointer);
      r.1.None? && r.0.Type == (if pointer then "*" + sn else sn) && r.0.Slice.None?
    ensures pointer ==>
      TypeForField(parentTypeKey, fieldName, fieldGoName, schema, types, pointer).0
      == FieldMeta("", "", "*" + StructName(schema.Reference, types[schema.Reference], 1), false, None, None, None)
  {
    var sn := StructName(schema.Reference, types[schema.Reference], 1);
    assert Kind(parentTypeKey, fieldName, schema, types) == ("object", sn);
    ObjectFieldParts(parentTypeKey, fieldName, fieldGoName, schema, types, pointer, sn);
  }

  /** A reference of the form #/definitions/<name> gives the golang name of
      <name> (or "Root" when that is empty). */
  lemma DefinitionReference(parentTypeKey: string, fieldName: string, fieldGoName: string, schema: Schema,
                            types: map<string, Schema>, name: string)
    requires schema.Reference == "#/definitions/" + name && schema.Reference in types
    requires '/' !in name
    ensures TypeForField(parentTypeKey, fieldName, fieldGoName, schema, types, true).0.Type
      == "*" + if GolangName(name) == "" then "Root" else GolangName(name)
  {
    assert schema.Reference == "#/definitions" + "/" + name;
    StructNameOfLastSegment("#/definitions", name, types[schema.Reference]);
    ReferenceField(parentTypeKey, fieldName, fieldGoName, schema, types, true);
  }

  /** Without a usable $ref, an object property whose inline type was recorded
      under <parent>/properties/<field> gets that type. */
  lemma EmbeddedField(parentTypeKey: string, fieldName: string, fieldGoName: string, schema: Schema,
                      types: map<string, Schema>, pointer: bool)
    requires NoTypeFound(schema, types) && schema.Type == "object"
    requires EmbeddedKey(parentTypeKey, fieldName) in types
    ensures var key := EmbeddedKey(parentTypeKey, fieldName);
      var sn := StructName(key, types[key], 1);
      var r := TypeForField(parentTypeKey, fieldName, fieldGoName, schema, types, pointer);
      r.1.None? && r.0.Type == (if pointer then "*" + sn else sn) && r.0.Slice.None?
    ensures pointer ==>
      var key := EmbeddedKey(parentTypeKey, fieldName);
      TypeForField(parentTypeKey, fieldName, fieldGoName, schema, types, pointer).0
      == FieldMeta("", "", "*" + StructName(key, types[key], 1), false, None, None, None)
  {
    var key := EmbeddedKey(parentTypeKey, fieldName);
    var sn := StructName(key, types[key], 1);
    assert Kind(parentTypeKey, fieldName, schema, types) == ("object", sn);
    ObjectFieldParts(parentTypeKey, fieldName, fieldGoName, schema, types, pointer, sn);
  }

  /** The embedded type's name is the golang name of the field itself, when
      the field name has no '/'. */
  lemma EmbeddedFieldName(parentTypeKey: string, fieldName: string, t: Schema)
    requires '/' !in fieldName
    ensures StructName(EmbeddedKey(parentTypeKey, fieldName), t, 1)
      == if GolangName(fieldName) == "" then "Root" else GolangName(fieldName)
  {
    var prefix := parentTypeKey + "/properties";
    assert EmbeddedKey(parentTypeKey, fieldName) == prefix + "/" + fieldName;
    assert prefix[|prefix| - 1] == 's';
    StructNameOfLastSegment(prefix, fieldName, t);
  }

  /** An object property with no type to be found resolves to a bare "*"
      (for array items, the empty name) and no error. */
  lemma UnresolvedObjectField(parentTypeKey: string, fieldName: string, fieldGoName: string, schema: Schema,
                              types: map<string, Schema>, pointer: bool)
    requires NoTypeFound(schema, types) && schema.Type == "object"
    requires EmbeddedKey(parentTypeKey, fieldName) !in types
    ensures TypeForField(parentTypeKey, fieldName, fieldGoName, schema, types, pointer)
      == (FieldMeta("", "", if pointer then "*" else "", false, None, None, None), None)
  {
    assert Kind(parentTypeKey, fieldName, schema, types) == ("object", "");
    ObjectFieldParts(parentTypeKey, fieldName, fieldGoName, schema, types, pointer, "");
    assert "*" + "" == "*";
  }

  /** A $ref that names no known type is ignored: both lookups, and so the
      error, come out as if the node had no $ref at all. (The case lemmas
      below need only NoTypeFound, so they cover such a $ref too.) */
  lemma UnresolvedReferenceFallsThrough(parentTypeKey: string, fieldName: string, fieldGoName: string, schema: Schema,
                                        types: map<string, Schema>, pointer: bool)
    requires NoTypeFound(schema, types)
    requires Resolvable(parentTypeKey, fieldName, schema, types)
    ensures MajorType(schema, types) == schema.Type
    ensures Kind(parentTypeKey, fieldName, schema, types) == Kind(parentTypeKey, fieldName, schema.(Reference := ""), types)
    ensures Resolvable(parentTypeKey, fieldName, schema.(Reference := ""), types)
    ensures TypeForField(parentTypeKey, fieldName, fieldGoName, schema, types, pointer).1
      == TypeForField(parentTypeKey, fieldName, fieldGoName, schema.(Reference := ""), types, pointer).1
  {
    var plain := schema.(Reference := "");
    assert Kind(parentTypeKey, fieldName, schema, types) == Kind(parentTypeKey, fieldName, plain, types);
  }

  /** The whole field, not only the error, is as if the $ref were absent. */
  lemma UnresolvedReferenceSameField(parentTypeKey: string, fieldName: string, fieldGoName: string, schema: Schema,
                                     types: map<string, Schema>, pointer: bool)
    requires NoTypeFound(schema, types)
    requires Resolvable(parentTypeKey, fieldName, schema, types)
    ensures Resolvable(parentTypeKey, fieldName, schema.(Reference := ""), types)
    ensures TypeForField(parentTypeKey, fieldName, fieldGoName, schema, types, pointer)
      == TypeForField(parentTypeKey, fieldName, fieldGoName, schema.(Reference := ""), types, pointer)
  {
    UnresolvedReferenceFallsThrough(parentTypeKey, fieldName, fieldGoName, schema, types, pointer);
  }

  /** An array takes its element type from its items, resolved by value; an
      error in the items is dropped and shows only as an empty element type,
      which then fails the array itself. The slice block is kept either way. */
  lemma ArrayField(parentTypeKey: string, fieldName: string, fieldGoName: string, schema: Schema,
                   types: map<string, Schema>, pointer: bool)
    requires NoTypeFound(schema, types) && schema.Type == "array"
    requires schema.Items.Some? && Resolvable(parentTypeKey, fieldName, schema.Items.value, types)
    ensures Resolvable(parentTypeKey, fieldName, schema, types)
    ensures var elem := ElemType(parentTypeKey, fieldName, fieldGoName, schema.Items.value, types);
      var slice := Some(SliceMeta(elem, schema.MinItems, schema.MaxItems));
      TypeForField(parentTypeKey, fieldName, fieldGoName, schema, types, pointer)
      == if elem == "" then
           (FieldMeta("", "", "", false, slice, None, None),
            Some("Failed to get the type for " + fieldGoName + " with error " + "can't create an array of an empty subtype"))
         else (FieldMeta("", "", "[]" + elem, false, slice, None, None), None)
  {
    var elem := ElemType(parentTypeKey, fieldName, fieldGoName, schema.Items.value, types);
    assert Kind(parentTypeKey, fieldName, schema, types) == ("array", "");
    assert PrimitiveTypeName("array", elem, pointer).1.Some? <==> elem == "";
    TypeForFieldType(parentTypeKey, fieldName, fieldGoName, schema, types, pointer);
    TypeForFieldSlice(parentTypeKey, fieldName, fieldGoName, schema, types, pointer);
    TypeForFieldNumber(parentTypeKey, fieldName, fieldGoName, schema, types, pointer);
    TypeForFieldString(parentTypeKey, fieldName, fieldGoName, schema, types, pointer);
    TypeForFieldError(parentTypeKey, fieldName, fieldGoName, schema, types, pointer);
    assert ("[]" + elem)[0] == '[';
  }

  /** The five scalar kinds map to fixed Go types and never fail. */
  lemma ScalarField(parentTypeKey: string, fieldName: string, fieldGoName: string, schema: Schema,
                    types: map<string, Schema>, pointer: bool)
    requires NoTypeFound(schema, types)
    requires schema.Type in {"boolean", "integer", "number", "null", "string"}
    ensures var r := TypeForField(parentTypeKey, fieldName, fieldGoName, schema, types, pointer);
      r.1.None? && r.0.Slice.None? &&
      r.0.Type == (if schema.Type == "boolean" then "bool" else if schema.Type == "integer" then "int"
                   else if schema.Type == "number" then "float64" else if schema.Type == "null" then "nil" else "string")
  {
  }

  /** Any other kind fails with the message of both functions, and an empty type. */
  lemma UnknownKindField(parentTypeKey: string, fieldName: string, fieldGoName: string, schema: Schema,
                         types: map<string, Schema>, pointer: bool)
    requires NoTypeFound(schema, types)
    requires schema.Type !in {"array", "boolean", "integer", "number", "null", "object", "string"}
    ensures TypeForField(parentTypeKey, fieldName, fieldGoName, schema, types, pointer)
      == (FieldMeta("", "", "", false, None, None, None),
          Some("Failed to get the type for " + fieldGoName + " with error "
               + ("failed to get a primitive type for schemaType " + schema.Type + " and subtype ")))
  {
    var msg := "failed to get a primitive type for schemaType " + schema.Type + " and subtype ";
    assert Kind(parentTypeKey, fieldName, schema, types) == (schema.Type, "");
    assert msg + "" == msg;
    assert PrimitiveTypeName(schema.Type, "", pointer) == ("undefined", Some(msg));
    TypeForFieldType(parentTypeKey, fieldName, fieldGoName, schema, types, pointer);
    TypeForFieldSlice(parentTypeKey, fieldName, fieldGoName, schema, types, pointer);
    TypeForFieldNumber(parentTypeKey, fieldName, fieldGoName, schema, types, pointer);
    TypeForFieldString(parentTypeKey, fieldName, fieldGoName, schema, types, pointer);
    TypeForFieldError(parentTypeKey, fieldName, fieldGoName, schema, types, pointer);
  }

  /** contains: whether `e` is in `s`. */
  method Contains(s: seq<string>, e: string) returns (found: bool)
    ensures found <==> e in s
  {
    for i := 0 to |s|
      invariant e !in s[..i]
    {
      if s[i] == e {
        return true;
      }
      assert s[..i + 1] == s[..i] + [s[i]];
    }
    assert s[..|s|] == s;
    return false;
  }

  /** One iteration of getFields: the resolved field with the names and the
      required flag filled in, and its error, if any. */
  function FieldFor(parentTypeKey: string, fieldName: string, schema: Schema, types: map<string, Schema>,
                    requiredFields: seq<string>): (r: (FieldMeta, Option<string>))
    requires Resolvable(parentTypeKey, fieldName, schema, types)
    ensures r.0.JSONName == fieldName && r.0.Name == GolangName(fieldName)
    ensures r.0.Required <==> fieldName in requiredFields
    ensures r.1.Some? ==> r.0.Type == ""
    ensures AtMostOneBlock(r.0)
  {
    var golangName := GolangName(fieldName);
    TypeForFieldOneBlock(parentTypeKey, fieldName, golangName, schema, types, true);
    TypeForFieldError(parentTypeKey, fieldName, golangName, schema, types, true);
    var (meta, err) := TypeForField(parentTypeKey, fieldName, golangName, schema, types, true);
    (meta.(JSONName := fieldName, Name := golangName, Required := fieldName in requiredFields), err)
  }

  predicate KeysResolvable(parentTypeKey: string, properties: map<string, Schema>, types: map<string, Schema>, keys: seq<string>)
  {
    forall k | k in keys :: k in properties && Resolvable(parentTypeKey, k, properties[k], types)
  }

  /** The resolutions of `keys`, in order. */
  function Resolutions(parentTypeKey: string, properties: map<string, Schema>, types: map<string, Schema>,
                       requiredFields: seq<string>, keys: seq<string>): (r: seq<Visit>)
    requires KeysResolvable(parentTypeKey, properties, types, keys)
    ensures |r| == |keys|
  {
    seq(|keys|, i requires 0 <= i < |keys| => FieldFor(parentTypeKey, keys[i], properties[keys[i]], types, requiredFields))
  }

  /** The state after getFields has visited `keys` in order. */
  function FieldsOver(parentTypeKey: string, properties: map<string, Schema>, types: map<string, Schema>,
                      requiredFields: seq<string>, keys: seq<string>): Walk
    requires KeysResolvable(parentTypeKey, properties, types, keys)
  {
    WalkOf(Resolutions(parentTypeKey, properties, types, requiredFields, keys))
  }

  /** The error getFields returns for a finished walk. */
  function FieldsError(w: Walk): Option<string>
  {
    if |w.missing| > 0
    then Some("missing types for " + Join(w.missing, ",") + " with errors " + Join(w.errors, ", "))
    else None
  }

  predicate PropertiesResolvable(parentTypeKey: string, properties: map<string, Schema>, types: map<string, Schema>)
  {
    forall k | k in properties :: Resolvable(parentTypeKey, k, properties[k], types)
  }

  lemma SortedPropertiesResolvable(parentTypeKey: string, properties: map<string, Schema>, types: map<string, Schema>)
    requires PropertiesResolvable(parentTypeKey, properties, types)
    ensures KeysResolvable(parentTypeKey, properties, types, SortedKeys(properties.Keys))
  {
  }

  /** What getFields returns. */
  datatype FieldSet = FieldSet(fields: map<string, FieldMeta>, slices: seq<SliceMeta>, err: Option<string>)

  ghost function FieldsResult(parentTypeKey: string, properties: map<string, Schema>, types: map<string, Schema>,
                              requiredFields: seq<string>): FieldSet
    requires PropertiesResolvable(parentTypeKey, properties, types)
  {
    var w := FieldsOver(parentTypeKey, properties, types, requiredFields, SortedKeys(properties.Keys));
    FieldSet(w.fields, w.slices, FieldsError(w))
  }

  /** The body of getFields' loop for one property: resolve it, record a
      failure under its golang name, fill in the names and the required flag,
      store it under its golang name (replacing an earlier field of that name)
      and append its slice block. */
  method VisitField(parentTypeKey: string, fieldName: string, v: Schema, types: map<string, Schema>,
                    requiredFields: seq<string>, w: Walk) returns (w': Walk)
    requires Resolvable(parentTypeKey, fieldName, v, types)
    ensures var r := FieldFor(parentTypeKey, fieldName, v, types, requiredFields); w' == Step(w, r.0, r.1)
  {
    var fields, slices, missingTypes, errors := w.fields, w.slices, w.missing, w.errors;
    var golangName := GetGolangName(fieldName);
    var resolved := TypeForField(parentTypeKey, fieldName, golangName, v, types, true);
    var meta, err := resolved.0, resolved.1;
    if err.Some? {
      missingTypes := missingTypes + [golangName];
      errors := errors + [err.value];
    }
    assert missingTypes == w.missing + (if err.Some? then [golangName] else []);
    assert errors == w.errors + (if err.Some? then [err.value] else []);
    var required := Contains(requiredFields, fieldName);
    meta := meta.(JSONName := fieldName, Name := golangName, Required := required);
    fields := fields[meta.Name := meta];
    if meta.Slice.Some? {
      slices := slices + [meta.Slice.value];
    }
    assert slices == w.slices + (if meta.Slice.Some? then [meta.Slice.value] else []);
    w' := Walk(fields, slices, missingTypes, errors);
  }

  /** Each resolution carries its key as JSON name and its golang name as name. */
  lemma ResolutionsNames(parentTypeKey: string, properties: map<string, Schema>, types: map<string, Schema>,
                         requiredFields: seq<string>, keys: seq<string>)
    requires KeysResolvable(parentTypeKey, properties, types, keys)
    ensures var v := Resolutions(parentTypeKey, properties, types, requiredFields, keys);
      forall i | 0 <= i < |keys| :: v[i].0.Name == GolangName(keys[i]) && v[i].0.JSONName == keys[i]
  {
  }

  lemma NamesGlue(v: seq<Visit>, keys: seq<string>, s: set<string>)
    requires |v| == |keys|
    requires forall i | 0 <= i < |keys| :: v[i].0.Name == GolangName(keys[i])
    requires forall k :: k in keys <==> k in s
    ensures (set i | 0 <= i < |v| :: v[i].0.Name) == set k | k in s :: GolangName(k)
  {
    forall k | k in s
      ensures GolangName(k) in set i | 0 <= i < |v| :: v[i].0.Name
    {
      var i :| 0 <= i < |keys| && keys[i] == k;
      assert v[i].0.Name == GolangName(k);
    }
  }

  /** getFields keys its fields by the golang names of the properties. */
  lemma GetFieldsNames(parentTypeKey: string, properties: map<string, Schema>, types: map<string, Schema>,
                       requiredFields: seq<string>)
    requires PropertiesResolvable(parentTypeKey, properties, types)
    ensures FieldsResult(parentTypeKey, properties, types, requiredFields).fields.Keys
      == set k | k in properties :: GolangName(k)
  {
    var keys := SortedKeys(properties.Keys);
    SortedPropertiesResolvable(parentTypeKey, properties, types);
    var v := Resolutions(parentTypeKey, properties, types, requiredFields, keys);
    WalkOfNames(v);
    ResolutionsNames(parentTypeKey, properties, types, requiredFields, keys);
    NamesGlue(v, keys, properties.Keys);
  }

  /** The `i`th resolution is the field of the `i`th key, under that key as
      JSON name. */
  lemma ResolutionOfKey(parentTypeKey: string, properties: map<string, Schema>, types: map<string, Schema>,
                        requiredFields: seq<string>, keys: seq<string>, i: nat)
    requires KeysResolvable(parentTypeKey, properties, types, keys)
    requires i < |keys|
    ensures var r := Resolutions(parentTypeKey, properties, types, requiredFields, keys)[i];
      keys[i] in properties && r.0.JSONName == keys[i] &&
      r == FieldFor(parentTypeKey, keys[i], properties[keys[i]], types, requiredFields)
  {
  }

  /** Every field of a walk over `keys` is the resolution of one of them,
      under its golang name. */
  lemma FieldsOverEntries(parentTypeKey: string, properties: map<string, Schema>, types: map<string, Schema>,
                          requiredFields: seq<string>, keys: seq<string>)
    requires KeysResolvable(parentTypeKey, properties, types, keys)
    ensures var fields := FieldsOver(parentTypeKey, properties, types, requiredFields, keys).fields;
      forall n | n in fields ::
        fields[n].Name == n && fields[n].JSONName in keys &&
        fields[n] == FieldFor(parentTypeKey, fields[n].JSONName, properties[fields[n].JSONName], types, requiredFields).0
  {
    var v := Resolutions(parentTypeKey, properties, types, requiredFields, keys);
    var fields := WalkOf(v).fields;
    forall n | n in fields
      ensures fields[n].Name == n && fields[n].JSONName in keys &&
        fields[n] == FieldFor(parentTypeKey, fields[n].JSONName, properties[fields[n].JSONName], types, requiredFields).0
    {
      var i := WalkOfEntry(v, n);
      ResolutionOfKey(parentTypeKey, properties, types, requiredFields, keys, i);
      assert fields[n].JSONName == keys[i];
    }
  }

  /** Every field getFields returns is the resolution of one property, with
      that property's name as its JSON name and its golang name as its key. */
  lemma GetFieldsEntries(parentTypeKey: string, properties: map<string, Schema>, types: map<string, Schema>,
                         requiredFields: seq<string>)
    requires PropertiesResolvable(parentTypeKey, properties, types)
    ensures var fields := FieldsResult(parentTypeKey, properties, types, requiredFields).fields;
      forall n | n in fields ::
        fields[n].Name == n && fields[n].JSONName in properties &&
        fields[n] == FieldFor(parentTypeKey, fields[n].JSONName, properties[fields[n].JSONName], types, requiredFields).0
  {
    SortedPropertiesResolvable(parentTypeKey, properties, types);
    FieldsOverEntries(parentTypeKey, properties, types, requiredFields, SortedKeys(properties.Keys));
  }

  /** The field stored under a golang name is the resolution of the last key
      with that golang name. */
  lemma FieldsOverLastWins(parentTypeKey: string, properties: map<string, Schema>, types: map<string, Schema>,
                           requiredFields: seq<string>, keys: seq<string>, i: nat)
    requires KeysResolvable(parentTypeKey, properties, types, keys)
    requires i < |keys|
    requires forall j | i < j < |keys| :: GolangName(keys[j]) != GolangName(keys[i])
    ensures var fields := FieldsOver(parentTypeKey, properties, types, requiredFields, keys).fields;
      GolangName(keys[i]) in fields &&
      fields[GolangName(keys[i])] == FieldFor(parentTypeKey, keys[i], properties[keys[i]], types, requiredFields).0
  {
    var v := Resolutions(parentTypeKey, properties, types, requiredFields, keys);
    ResolutionsNames(parentTypeKey, properties, types, requiredFields, keys);
    WalkOfLastWins(v, i);
    ResolutionOfKey(parentTypeKey, properties, types, requiredFields, keys, i);
  }

  /** When several properties share a golang name, the field under that name
      is the resolution of the greatest of them in sort order, the last one
      visited. */
  lemma GetFieldsGreatestKeyWins(parentTypeKey: string, properties: map<string, Schema>, types: map<string, Schema>,
                                 requiredFields: seq<string>, k: string)
    requires PropertiesResolvable(parentTypeKey, properties, types)
    requires k in properties
    requires forall k' | k' in properties && k' != k && GolangName(k') == GolangName(k) :: Less(k', k)
    ensures GolangName(k) in FieldsResult(parentTypeKey, properties, types, requiredFields).fields
    ensures FieldsResult(parentTypeKey, properties, types, requiredFields).fields[GolangName(k)]
      == FieldFor(parentTypeKey, k, properties[k], types, requiredFields).0
  {
    var keys := SortedKeys(properties.Keys);
    SortedPropertiesResolvable(parentTypeKey, properties, types);
    SortedKeysStrictlySorted(properties.Keys);
    var i :| 0 <= i < |keys| && keys[i] == k;
    forall j | i < j < |keys|
      ensures GolangName(keys[j]) != GolangName(keys[i])
    {
      assert Less(k, keys[j]);
      if GolangName(keys[j]) == GolangName(k) {
        if keys[j] == k {
          LessIrreflexive(k);
        } else {
          LessAsymmetric(keys[j], k);
        }
      }
    }
    FieldsOverLastWins(parentTypeKey, properties, types, requiredFields, keys, i);
  }

  /** A walk over `keys` records a failure exactly when one of them fails. */
  lemma FieldsOverFailures(parentTypeKey: string, properties: map<string, Schema>, types: map<string, Schema>,
                           requiredFields: seq<string>, keys: seq<string>)
    requires KeysResolvable(parentTypeKey, properties, types, keys)
    ensures FieldsOver(parentTypeKey, properties, types, requiredFields, keys).missing != [] <==>
      exists k | k in keys :: FieldFor(parentTypeKey, k, properties[k], types, requiredFields).1.Some?
  {
    var v := Resolutions(parentTypeKey, properties, types, requiredFields, keys);
    if k :| k in keys && FieldFor(parentTypeKey, k, properties[k], types, requiredFields).1.Some? {
      var i :| 0 <= i < |keys| && keys[i] == k;
      ResolutionOfKey(parentTypeKey, properties, types, requiredFields, keys, i);
      WalkOfFailed(v, i);
    }
    if WalkOf(v).missing != [] {
      var i := WalkOfMissing(v, 0);
      ResolutionOfKey(parentTypeKey, properties, types, requiredFields, keys, i);
    }
  }

  /** getFields fails exactly when some property fails to resolve. */
  lemma GetFieldsFailures(parentTypeKey: string, properties: map<string, Schema>, types: map<string, Schema>,
                          requiredFields: seq<string>)
    requires PropertiesResolvable(parentTypeKey, properties, types)
    ensures FieldsResult(parentTypeKey, properties, types, requiredFields).err.Some? <==>
      exists k | k in properties :: FieldFor(parentTypeKey, k, properties[k], types, requiredFields).1.Some?
  {
    SortedPropertiesResolvable(parentTypeKey, properties, types);
    FieldsOverFailures(parentTypeKey, properties, types, requiredFields, SortedKeys(properties.Keys));
  }

  /** Every slice block of a walk over `keys` belongs to one of them. */
  lemma FieldsOverSlices(parentTypeKey: string, properties: map<string, Schema>, types: map<string, Schema>,
                         requiredFields: seq<string>, keys: seq<string>)
    requires KeysResolvable(parentTypeKey, properties, types, keys)
    ensures var slices := FieldsOver(parentTypeKey, properties, types, requiredFields, keys).slices;
      forall m | 0 <= m < |slices| ::
        exists k | k in keys :: FieldFor(parentTypeKey, k, properties[k], types, requiredFields).0.Slice == Some(slices[m])
  {
    var v := Resolutions(parentTypeKey, properties, types, requiredFields, keys);
    var slices := WalkOf(v).slices;
    forall m | 0 <= m < |slices|
      ensures exists k | k in keys :: FieldFor(parentTypeKey, k, properties[k], types, requiredFields).0.Slice == Some(slices[m])
    {
      var i := WalkOfSlice(v, m);
      ResolutionOfKey(parentTypeKey, properties, types, requiredFields, keys, i);
    }
  }

  /** Every slice block getFields returns belongs to one of the properties. */
  lemma GetFieldsSlices(parentTypeKey: string, properties: map<string, Schema>, types: map<string, Schema>,
                        requiredFields: seq<string>)
    requires PropertiesResolvable(parentTypeKey, properties, types)
    ensures var slices := FieldsResult(parentTypeKey, properties, types, requiredFields).slices;
      forall m | 0 <= m < |slices| ::
        exists k | k in properties :: FieldFor(parentTypeKey, k, properties[k], types, requiredFields).0.Slice == Some(slices[m])
  {
    SortedPropertiesResolvable(parentTypeKey, properties, types);
    FieldsOverSlices(parentTypeKey, properties, types, requiredFields, SortedKeys(properties.Keys));
  }

  /** The slice blocks of the fields of `keys`, in key order. */
  function PropertySlices(parentTypeKey: string, properties: map<string, Schema>, types: map<string, Schema>,
                          requiredFields: seq<string>, keys: seq<string>): seq<SliceMeta>
    requires KeysResolvable(parentTypeKey, properties, types, keys)
  {
    if keys == [] then []
    else
      var k := keys[|keys| - 1];
      var slice := FieldFor(parentTypeKey, k, properties[k], types, requiredFields).0.Slice;
      PropertySlices(parentTypeKey, properties, types, requiredFields, keys[..|keys| - 1]) +
        (if slice.Some? then [slice.value] else [])
  }

  /** The resolutions of a prefix of the keys are the prefix of the resolutions. */
  lemma ResolutionsPrefix(parentTypeKey: string, properties: map<string, Schema>, types: map<string, Schema>,
                          requiredFields: seq<string>, keys: seq<string>, n: nat)
    requires KeysResolvable(parentTypeKey, properties, types, keys)
    requires n <= |keys|
    ensures Resolutions(parentTypeKey, properties, types, requiredFields, keys)[..n]
         == Resolutions(parentTypeKey, properties, types, requiredFields, keys[..n])
  {
    var v := Resolutions(parentTypeKey, properties, types, requiredFields, keys)[..n];
    var w := Resolutions(parentTypeKey, properties, types, requiredFields, keys[..n]);
    forall i | 0 <= i < n
      ensures v[i] == w[i]
    {
      ResolutionOfKey(parentTypeKey, properties, types, requiredFields, keys, i);
      ResolutionOfKey(parentTypeKey, properties, types, requiredFields, keys[..n], i);
    }
  }

  /** A walk over `keys` collects the slice blocks in key order. */
  lemma {:induction false} FieldsOverSlicesInOrder(parentTypeKey: string, properties: map<string, Schema>,
                                                   types: map<string, Schema>, requiredFields: seq<string>, keys: seq<string>)
    requires KeysResolvable(parentTypeKey, properties, types, keys)
    ensures FieldsOver(parentTypeKey, properties, types, requiredFields, keys).slices
         == PropertySlices(parentTypeKey, properties, types, requiredFields, keys)
  {
    if keys != [] {
      var n := |keys| - 1;
      var v := Resolutions(parentTypeKey, properties, types, requiredFields, keys);
      FieldsOverSlicesInOrder(parentTypeKey, properties, types, requiredFields, keys[..n]);
      ResolutionsPrefix(parentTypeKey, properties, types, requiredFields, keys, n);
      ResolutionOfKey(parentTypeKey, properties, types, requiredFields, keys, n);
      assert v[..n + 1] == v;
      WalkOfPrefix(v, n);
      var slice := v[n].0.Slice;
      assert WalkOf(v).slices == WalkOf(v[..n]).slices + (if slice.Some? then [slice.value] else []);
    }
  }

  /** getFields collects the slice blocks in sorted property order. */
  lemma GetFieldsSlicesInOrder(parentTypeKey: string, properties: map<string, Schema>, types: map<string, Schema>,
                               requiredFields: seq<string>)
    requires PropertiesResolvable(parentTypeKey, properties, types)
    ensures FieldsResult(parentTypeKey, properties, types, requiredFields).slices
      == PropertySlices(parentTypeKey, properties, types, requiredFields, SortedKeys(properties.Keys))
  {
    SortedPropertiesResolvable(parentTypeKey, properties, types);
    FieldsOverSlicesInOrder(parentTypeKey, properties, types, requiredFields, SortedKeys(properties.Keys));
  }

  /** The loop of getFields: visit the keys in the given order. */
  method VisitAll(parentTypeKey: string, properties: map<string, Schema>, types: map<string, Schema>,
                   requiredFields: seq<string>, keys: seq<string>) returns (w: Walk)
    requires KeysResolvable(parentTypeKey, properties, types, keys)
    ensures w == FieldsOver(parentTypeKey, properties, types, requiredFields, keys)
  {
    ghost var v := Resolutions(parentTypeKey, properties, types, requiredFields, keys);
    w := Walk(map[], [], [], []);
    for i := 0 to |keys|
      invariant w == WalkOf(v[..i])
    {
      WalkOfPrefix(v, i);
      w := VisitField(parentTypeKey, keys[i], properties[keys[i]], types, requiredFields, w);
    }
    assert v[..|keys|] == v;
  }

  /** getFields: resolve every property in sorted order, keying the fields by
      their golang names, and report all failures in one error. */
  method GetFields(parentTypeKey: string, properties: map<string, Schema>, types: map<string, Schema>,
                   requiredFields: seq<string>)
    returns (fields: map<string, FieldMeta>, slices: seq<SliceMeta>, err: Option<string>)
    requires PropertiesResolvable(parentTypeKey, properties, types)
    ensures FieldSet(fields, slices, err) == FieldsResult(parentTypeKey, properties, types, requiredFields)
  {
    var keys := OrderedKeyNames(properties);
    SortedPropertiesResolvable(parentTypeKey, properties, types);
    var w := VisitAll(parentTypeKey, properties, types, requiredFields, keys);
    fields, slices := w.fields, w.slices;
    if |w.missing| > 0 {
      var joined := JoinErrors(w.errors);
      err := Some("missing types for " + Join(w.missing, ",") + " with errors " + joined);
    } else {
      err := None;
    }
  }
}
