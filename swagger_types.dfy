/**
 The OpenAPI 2.0 objects the builder fills in. Only the fields the builder
 writes are mirrored; a Go pointer that may be nil is an Option, a Go string
 left unset is "".
 */
module SwaggerTypes {
  import opened Wrappers

  /** schemaCore; swaggerItemsObject has the same shape, so `items` nests a core. */
  datatype SchemaCore = SchemaCore(typ: string, format: string, ref: string, items: Option<SchemaCore>)

  /** One entry of an ordered `properties` list. */
  datatype KeyVal = KeyVal(key: string, value: Schema)

  /** swaggerSchemaObject */
  datatype Schema = Schema(
    core: SchemaCore,
    title: string,
    description: string,
    properties: Option<seq<KeyVal>>,
    required: seq<string>)

  /** swaggerParameterObject */
  datatype Parameter = Parameter(
    name: string,
    location: string,
    required: bool,
    typ: string,
    description: string,
    schema: Option<Schema>)

  /** swaggerResponseObject */
  datatype Response = Response(description: string, schema: Schema)

  /** swaggerOperationObject */
  datatype Operation = Operation(
    tags: seq<string>,
    summary: string,
    description: string,
    parameters: seq<Parameter>,
    responses: map<string, Response>)

  /** swaggerPathItemObject: one optional operation per HTTP method. */
  datatype PathItem = PathItem(
    get: Option<Operation>,
    post: Option<Operation>,
    delete: Option<Operation>,
    put: Option<Operation>,
    patch: Option<Operation>)

  /** swaggerInfoObject */
  datatype Info = Info(title: string, version: string, description: string)

  /** swaggerObject, the whole document. */
  datatype SwaggerObject = SwaggerObject(
    swagger: string,
    schemes: seq<string>,
    consumes: seq<string>,
    produces: seq<string>,
    paths: map<string, PathItem>,
    definitions: map<string, Schema>,
    streamDefinitions: map<string, Schema>,
    info: Info,
    host: string,
    basePath: string)

  const EmptyCore := SchemaCore("", "", "", None)

  const EmptyPathItem := PathItem(None, None, None, None, None)

  /** A schema carrying nothing but `core`. */
  function SchemaOf(core: SchemaCore): Schema
  {
    Schema(core, "", "", None, [])
  }

  const DefinitionsPrefix := "#/definitions/"

  /** The `$ref` text that points at definition `name`. */
  function DefRef(name: string): string
  {
    DefinitionsPrefix + name
  }
}
