/** The parsed OpenAPI document the generators read (the classes under OpenApi/). Every C#
    dictionary is an ordered sequence of entries, so the order in which the
    generator iterates it is explicit. JSON parsing itself is not modelled. */
module OpenApi {
  import opened Wrappers

  /** OpenApiSchema. `Example`, `Default` and `AllOf` are not read by the
      modelled code and are omitted. */
  datatype Schema = Schema(
    title: Option<string>,
    description: Option<string>,
    nullable: bool,
    deprecated: bool,
    required: Option<seq<string>>,
    schemaType: Option<string>,
    format: Option<string>,
    reference: Option<string>,
    properties: PropertyMap,
    enumValues: Option<seq<string>>,
    items: Option<Schema>,
    oneOf: Variants)

  /** `Dictionary<string, OpenApiSchema>? Properties`: `null`, or its entries. */
  datatype PropertyMap = NullProperties | Properties(entries: seq<(string, Schema)>)

  /** `OpenApiSchema[]? OneOf`. */
  datatype Variants = NoOneOf | OneOf(variants: seq<Schema>)

  /** `new OpenApiSchema()`: every field at its initializer. */
  const EmptySchema := Schema(None, None, false, false, Some([]), None, None, None,
                              Properties([]), None, None, NoOneOf)

  /** The entries `foreach (var property in schema.Properties)` visits. */
  function PropertiesOf(s: Schema): seq<(string, Schema)> {
    if s.properties.Properties? then s.properties.entries else []
  }

  /** OpenApiParameter. */
  datatype Parameter = Parameter(name: string, location: string, required: bool, schema: Schema)

  /** OpenApiSchemaContainer. */
  datatype MediaType = MediaType(schema: Schema)

  /** OpenApiRequestBody: its content map by media type. */
  datatype RequestBody = RequestBody(content: seq<(string, MediaType)>)

  /** OpenApiResponse: `Content` may be `null`. */
  datatype Response = Response(content: Option<seq<(string, MediaType)>>)

  /** OpenApiOperation; responses are keyed by the numeric status code. */
  datatype Operation = Operation(
    summary: Option<string>,
    parameters: seq<Parameter>,
    requestBody: Option<RequestBody>,
    responses: seq<(int, Response)>)

  /** OpenApiPath: one optional operation per HTTP verb. */
  datatype PathItem = PathItem(
    get: Option<Operation>, post: Option<Operation>, put: Option<Operation>,
    delete: Option<Operation>, patch: Option<Operation>, head: Option<Operation>,
    options: Option<Operation>, trace: Option<Operation>)

  datatype Info = Info(title: string, version: string)

  /** OpenApiDocument: `paths` and `components.schemas` in document order. */
  datatype Document = Document(info: Info, paths: seq<(string, PathItem)>, schemas: seq<(string, Schema)>)
}
