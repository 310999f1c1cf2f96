/**
 * The part of an OpenAPI document that the schema rewrite reads and writes,
 * and the application object that memoises the rewritten document.
 */
module OpenApiDoc {
  import opened Wrappers

  /** The `schema` object of a parameter. */
  datatype ParamSchema = ParamSchema(typeName: string, enumValues: seq<string>, default: Option<string>)

  /** One entry of a `parameters` list or table: an inline parameter object, or a `$ref`. */
  datatype Param =
    | Inline(name: Option<string>, location: string, required: bool, schema: Option<ParamSchema>,
             description: Option<string>)
    | Ref(ref: string)

  /** `param.get("name", "")`: a reference, like an inline object without `name`, reads as "". */
  function NameOrEmpty(p: Param): (r: string)
    ensures p.Ref? ==> r == ""
    ensures p.Inline? ==> r == p.name.GetOr("")
  {
    if p.Inline? && p.name.Some? then p.name.value else ""
  }

  /** An operation object: its optional `parameters` list and, opaquely, its other keys. */
  datatype Operation = Operation(parameters: Option<seq<Param>>, fields: map<string, string>)

  /** `method.get("parameters", [])`. */
  function ParametersOrEmpty(op: Operation): (r: seq<Param>)
    ensures op.parameters.Some? ==> r == op.parameters.value
    ensures op.parameters.None? ==> r == []
  {
    op.parameters.GetOr([])
  }

  /** A path item, from HTTP method to operation. */
  type PathItem = map<string, Operation>

  /** The `paths` object, from path template to path item. */
  type Paths = map<string, PathItem>

  /** The `components` object: its `parameters` table and, opaquely, its other keys. */
  datatype Components = Components(parameters: Option<map<string, Param>>, other: map<string, string>)

  datatype Server = Server(url: string)

  /** A document: `paths`, optional `components` and `servers`, and, opaquely, its other keys. */
  datatype Schema = Schema(paths: Paths, components: Option<Components>, servers: Option<seq<Server>>,
                           other: map<string, string>)

  /** The `servers` list both rewrites install: the API mount prefix. */
  const ApiServers: seq<Server> := [Server("/api")]

  /** The application object; `openapiSchema` is its `openapi_schema` memo. */
  class App {
    /** What the schema generator yields for the application's routes. */
    const generated: Schema
    var openapiSchema: Option<Schema>

    constructor (generated: Schema)
      ensures this.generated == generated && openapiSchema == None
    {
      this.generated := generated;
      openapiSchema := None;
    }
  }
}
