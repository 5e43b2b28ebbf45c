/** The input schema nodes and the metadata records the extractor produces. */
module Schema {
  import opened Wrappers

  /** A JSON Schema node, restricted to the keywords the extractor reads.
      MultipleOf, Minimum and Maximum are floating-point numbers in the source;
      the extractor only tests them against zero or nil, so any real will do. */
  datatype Schema = Schema(
    Type: string,
    Properties: map<string, Schema>,
    Items: Option<Schema>,
    Reference: string,
    Required: seq<string>,
    Title: string,
    Description: string,
    MinLength: int,
    MaxLength: int,
    Pattern: string,
    MultipleOf: real,
    Minimum: Option<real>,
    ExclusiveMinimum: bool,
    Maximum: Option<real>,
    ExclusiveMaximum: bool,
    MinItems: int,
    MaxItems: int)

  /** SliceMeta: what a generator needs to know about an array field. */
  datatype SliceMeta = SliceMeta(ElemType: string, MinItems: int, MaxItems: int)

  /** StringMeta: the string constraints of a field. */
  datatype StringMeta = StringMeta(MinLength: int, MaxLength: int, Pattern: string)

  /** NumberMeta: the numeric constraints of a field. */
  datatype NumberMeta = NumberMeta(
    MultipleOf: real,
    Minimum: Option<real>,
    ExclusiveMinimum: bool,
    Maximum: Option<real>,
    ExclusiveMaximum: bool)

  /** FieldMeta: one field of a generated struct. */
  datatype FieldMeta = FieldMeta(
    Name: string,
    JSONName: string,
    Type: string,
    Required: bool,
    Slice: Option<SliceMeta>,
    String: Option<StringMeta>,
    Number: Option<NumberMeta>)

  /** StructMeta: one generated struct; ID is the pointer path it came from. */
  datatype StructMeta = StructMeta(ID: string, Name: string, Fields: map<string, FieldMeta>)
}
