/** The extractor's own test case: a "Product" object with an integer id, a
    bounded string name, a strictly positive number price and a non-empty array
    of string tags, of which id, name and price are required. The items'
    "uniqueItems" keyword is not read by the extractor and is not part of Schema. */
module ProductExample {
  import opened Wrappers
  import opened Schema
  import opened Names
  import opened Order
  import opened Walks
  import opened Fields
  import opened Extractor

  /** A node with no keywords set. */
  const Blank := Schema("", map[], None, "", [], "", "", 0, 0, "", 0.0, None, false, None, false, 0, 0)

  const Id := Blank.(Type := "integer", Description := "The unique identifier for a product")
  const Name := Blank.(Type := "string", Description := "Name of the product", MaxLength := 100)
  const Price := Blank.(Type := "number", Minimum := Some(0.0), ExclusiveMinimum := true)
  const Tags := Blank.(Type := "array", Items := Some(Blank.(Type := "string")), MinItems := 1)
  const Required := ["id", "name", "price"]

  const Product := Blank.(Title := "Product", Description := "A product from Acme's catalog", Type := "object", Required := Required,
                          Properties := map["id" := Id, "name" := Name, "price" := Price, "tags" := Tags])

  /** The flattened schema: only the root. */
  const Types := map["#" := Product]

  const IdField := FieldMeta("Id", "id", "int", true, None, None, None)
  const NameField := FieldMeta("Name", "name", "string", true, None, Some(StringMeta(0, 100, "")), None)
  const PriceField := FieldMeta("Price", "price", "float64", true, None, None, Some(NumberMeta(0.0, Some(0.0), true, None, false)))
  const TagsField := FieldMeta("Tags", "tags", "[]string", false, Some(SliceMeta("string", 1, 0)), None, None)

  /** The golang name of a lower-case separator-free word: its first letter in upper case. */
  lemma Capitalised(s: string, t: string)
    requires s != [] && 'a' <= s[0] <= 'z' && t == [(s[0] as int - 32) as char] + s[1..]
    requires forall i :: 0 <= i < |s| ==> s[i] !in Separators
    ensures GolangName(s) == t
  {
    GolangNameOfSeparatorFree(s);
  }

  /** FieldFor from the resolution of the property's type. */
  lemma FieldFrom(fieldName: string, schema: Schema, goName: string, meta: FieldMeta, err: Option<string>)
    requires Resolvable("#", fieldName, schema, Types)
    requires GolangName(fieldName) == goName
    requires TypeForField("#", fieldName, goName, schema, Types, true) == (meta, err)
    ensures FieldFor("#", fieldName, schema, Types, Required)
      == (meta.(JSONName := fieldName, Name := goName, Required := fieldName in Required), err)
  {
  }

  /** A scalar property without a constraint block on the given side. */
  lemma ScalarType(fieldName: string, goName: string, schema: Schema)
    requires schema.Reference == "" && schema.Items.None?
    requires schema.Type in {"integer", "number", "string"}
    ensures var r := TypeForField("#", fieldName, goName, schema, Types, true);
      r.1.None? && r.0.Slice.None? &&
      r.0.Type == (if schema.Type == "integer" then "int" else if schema.Type == "number" then "float64" else "string") &&
      (r.0.Number.Some? <==> r.0.Type != "string" && NumberConstrained(schema)) &&
      (r.0.Number.Some? ==> r.0.Number.value == NumberMeta(schema.MultipleOf, schema.Minimum, schema.ExclusiveMinimum, schema.Maximum, schema.ExclusiveMaximum)) &&
      (r.0.String.Some? <==> r.0.Type == "string" && StringConstrained(schema)) &&
      (r.0.String.Some? ==> r.0.String.value == StringMeta(schema.MinLength, schema.MaxLength, schema.Pattern))
  {
    ScalarField("#", fieldName, goName, schema, Types, true);
    TypeForFieldNumber("#", fieldName, goName, schema, Types, true);
    TypeForFieldString("#", fieldName, goName, schema, Types, true);
  }

  lemma IdType()
    ensures TypeForField("#", "id", "Id", Id, Types, true) == (FieldMeta("", "", "int", false, None, None, None), None)
  {
    ScalarType("id", "Id", Id);
  }

  lemma IdResolved()
    ensures FieldFor("#", "id", Id, Types, Required) == (IdField, None)
  {
    Capitalised("id", "Id");
    IdType();
    FieldFrom("id", Id, "Id", FieldMeta("", "", "int", false, None, None, None), None);
  }

  lemma NameType()
    ensures TypeForField("#", "name", "Name", Name, Types, true) == (FieldMeta("", "", "string", false, None, Some(StringMeta(0, 100, "")), None), None)
  {
    ScalarType("name", "Name", Name);
  }

  lemma NameResolved()
    ensures FieldFor("#", "name", Name, Types, Required) == (NameField, None)
  {
    Capitalised("name", "Name");
    NameType();
    FieldFrom("name", Name, "Name", FieldMeta("", "", "string", false, None, Some(StringMeta(0, 100, "")), None), None);
  }

  lemma PriceType()
    ensures TypeForField("#", "price", "Price", Price, Types, true) == (FieldMeta("", "", "float64", false, None, None, Some(NumberMeta(0.0, Some(0.0), true, None, false))), None)
  {
    ScalarType("price", "Price", Price);
  }

  lemma PriceResolved()
    ensures FieldFor("#", "price", Price, Types, Required) == (PriceField, None)
  {
    Capitalised("price", "Price");
    PriceType();
    FieldFrom("price", Price, "Price", FieldMeta("", "", "float64", false, None, None, Some(NumberMeta(0.0, Some(0.0), true, None, false))), None);
  }

  /** The element type of the tags. */
  lemma TagItemsType()
    ensures ElemType("#", "tags", "Tags", Tags.Items.value, Types) == "string"
  {
    ScalarField("#", "tags", "Tags", Tags.Items.value, Types, false);
  }

  lemma TagsType()
    ensures Resolvable("#", "tags", Tags, Types)
    ensures TypeForField("#", "tags", "Tags", Tags, Types, true)
      == (FieldMeta("", "", "[]string", false, Some(SliceMeta("string", 1, 0)), None, None), None)
  {
    TagItemsType();
    ArrayField("#", "tags", "Tags", Tags, Types, true);
    assert "[]" + "string" == "[]string";
  }

  lemma TagsResolved()
    ensures Resolvable("#", "tags", Tags, Types)
    ensures FieldFor("#", "tags", Tags, Types, Required) == (TagsField, None)
  {
    Capitalised("tags", "Tags");
    TagsType();
    FieldFrom("tags", Tags, "Tags", FieldMeta("", "", "[]string", false, Some(SliceMeta("string", 1, 0)), None, None), None);
  }

  /** The property names in sort.Strings order. */
  lemma PropertyOrder()
    ensures SortedKeys(Product.Properties.Keys) == ["id", "name", "price", "tags"]
  {
    var s := ["id", "name", "price", "tags"];
    assert Less(s[0], s[1]) && Less(s[1], s[2]) && Less(s[2], s[3]);
    LessTransitive(s[0], s[1], s[2]);
    LessTransitive(s[0], s[2], s[3]);
    LessTransitive(s[1], s[2], s[3]);
    SortedKeysUnique(s, Product.Properties.Keys);
  }

  const ProductFields := map["Id" := IdField, "Name" := NameField, "Price" := PriceField, "Tags" := TagsField]
  const ProductStruct := StructMeta("#", "Product", ProductFields)

  /** A property that is not an array is resolvable. */
  lemma NotArrayResolvable(fieldName: string, schema: Schema)
    requires schema.Reference == "" && schema.Type != "array"
    ensures Resolvable("#", fieldName, schema, Types)
  {
  }

  lemma ProductResolvable()
    ensures PropertiesResolvable("#", Product.Properties, Types)
    ensures TypesResolvable(Types)
  {
    var props := Product.Properties;
    forall k | k in props
      ensures Resolvable("#", k, props[k], Types)
    {
      if k == "tags" {
        TagsResolved();
      } else {
        NotArrayResolvable(k, props[k]);
      }
    }
  }

  /** The resolutions of four keys. */
  lemma ResolutionsOfFour(props: map<string, Schema>, keys: seq<string>, a: Visit, b: Visit, c: Visit, d: Visit)
    requires |keys| == 4 && KeysResolvable("#", props, Types, keys)
    requires FieldFor("#", keys[0], props[keys[0]], Types, Required) == a
    requires FieldFor("#", keys[1], props[keys[1]], Types, Required) == b
    requires FieldFor("#", keys[2], props[keys[2]], Types, Required) == c
    requires FieldFor("#", keys[3], props[keys[3]], Types, Required) == d
    ensures Resolutions("#", props, Types, Required, keys) == [a, b, c, d]
  {
    var r := Resolutions("#", props, Types, Required, keys);
    ResolutionOfKey("#", props, Types, Required, keys, 0);
    ResolutionOfKey("#", props, Types, Required, keys, 1);
    ResolutionOfKey("#", props, Types, Required, keys, 2);
    ResolutionOfKey("#", props, Types, Required, keys, 3);
    SeqOfFour(r, a, b, c, d);
  }

  lemma SeqOfFour<T>(r: seq<T>, a: T, b: T, c: T, d: T)
    requires |r| == 4 && r[0] == a && r[1] == b && r[2] == c && r[3] == d
    ensures r == [a, b, c, d]
  {
  }

  /** The walk over four visits. */
  lemma WalkOfFour(a: Visit, b: Visit, c: Visit, d: Visit)
    ensures WalkOf([a, b, c, d]) == Step(Step(Step(Step(Walk(map[], [], [], []), a.0, a.1), b.0, b.1), c.0, c.1), d.0, d.1)
  {
    assert [a] == [] + [a] && [a, b] == [a] + [b] && [a, b, c] == [a, b] + [c] && [a, b, c, d] == [a, b, c] + [d];
    WalkOfSnoc([], a);
    WalkOfSnoc([a], b);
    WalkOfSnoc([a, b], c);
    WalkOfSnoc([a, b, c], d);
  }

  /** The four properties resolve, in sorted order, to the expected fields. */
  lemma ProductResolutions()
    ensures PropertiesResolvable("#", Product.Properties, Types)
    ensures Resolutions("#", Product.Properties, Types, Required, ["id", "name", "price", "tags"])
      == [(IdField, None), (NameField, None), (PriceField, None), (TagsField, None)]
  {
    ProductResolvable();
    var keys, props := ["id", "name", "price", "tags"], Product.Properties;
    assert keys[0] == "id" && keys[1] == "name" && keys[2] == "price" && keys[3] == "tags";
    assert props[keys[0]] == Id && props[keys[1]] == Name && props[keys[2]] == Price && props[keys[3]] == Tags;
    assert KeysResolvable("#", props, Types, keys);
    IdResolved();
    NameResolved();
    PriceResolved();
    TagsResolved();
    ResolutionsOfFour(props, keys, (IdField, None), (NameField, None), (PriceField, None), (TagsField, None));
  }

  /** getFields on the product: four fields, the tags' slice block, no error. */
  lemma ProductFieldsResult()
    ensures PropertiesResolvable("#", Product.Properties, Types)
    ensures FieldsResult("#", Product.Properties, Types, Required) == FieldSet(ProductFields, [SliceMeta("string", 1, 0)], None)
  {
    PropertyOrder();
    ProductResolutions();
    WalkOfFour((IdField, None), (NameField, None), (PriceField, None), (TagsField, None));
  }

  /** The root's struct name is its title. */
  lemma ProductName()
    ensures StructName("#", Product, 1) == "Product"
  {
    RootNamedByTitle(Product);
  }

  /** A root whose title is a capitalised separator-free word is named by it. */
  lemma RootNamedByTitle(t: Schema)
    requires t.Title != "" && !('a' <= t.Title[0] <= 'z')
    requires forall i :: 0 <= i < |t.Title| ==> t.Title[i] !in Separators
    ensures StructName("#", t, 1) == t.Title
  {
    GolangNameOfSeparatorFree(t.Title);
    assert [t.Title[0]] + t.Title[1..] == t.Title;
  }

  /** The sort order of the single type key. */
  lemma TypeOrder()
    ensures SortedKeys(Types.Keys) == ["#"]
  {
    SortedKeysUnique(["#"], Types.Keys);
  }

  /** What the product type contributes. */
  lemma ProductVisit()
    ensures TypesResolvable(Types)
    ensures TypeVisitOf(Types, "#") == (ProductStruct, [SliceMeta("string", 1, 0)], None)
  {
    ProductResolvable();
    ProductFieldsResult();
    ProductName();
  }

  /** The final run over a single type key. */
  lemma FinalRunOfOne(types: map<string, Schema>, key: string, x: TypeVisit)
    requires TypesResolvable(types) && SortedKeys(types.Keys) == [key] && key in types
    requires TypeVisitOf(types, key) == x
    ensures FinalRun(types) == Add(Run(map[], [], []), x.0, x.1, x.2)
  {
    var v := TypeVisits(types, [key]);
    TypeVisitOfKey(types, [key], 0);
    assert v == [x];
    RunOfPrefix(v, 0);
    assert v[..1] == v && v[..0] == [];
    assert RunOf([]) == Run(map[], [], []);
  }

  /** CreateStructs on the product schema: one struct "Product" with the ID
      "#" and the four fields, the tags' slice block, and no error. */
  lemma ProductStructs()
    ensures TypesResolvable(Types)
    ensures FinalRun(Types).structs == map["Product" := ProductStruct]
    ensures FinalRun(Types).slices == [SliceMeta("string", 1, 0)]
    ensures RunError(FinalRun(Types)) == None
  {
    ProductVisit();
    TypeOrder();
    var x := (ProductStruct, [SliceMeta("string", 1, 0)], None);
    FinalRunOfOne(Types, "#", x);
  }
}
