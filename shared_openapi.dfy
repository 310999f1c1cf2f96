/**
 * The first revision of the OpenAPI rewrite, the one the application
 * installs: every operation gets an inline, optional `X-API-VERSION` header
 * parameter in front of its own parameters (no deduplication), and
 * `servers` becomes the API mount prefix. The result is memoised on the app.
 */
module SharedOpenApi {
  import opened Wrappers
  import opened OpenApiDoc
  import ApiVersioning

  /** The inline parameter prepended to every operation. */
  function InlineVersionParam(): (p: Param)
    ensures p.Inline? && p.name == Some("X-API-VERSION") && p.location == "header" && !p.required
    ensures p.schema == Some(ParamSchema("string", ["2024-10-preview", "latest"], None))
  {
    Inline(Some("X-API-VERSION"), "header", false,
           Some(ParamSchema("string", [ApiVersioning.Value(ApiVersioning.V2024_10_Preview),
                                      ApiVersioning.Value(ApiVersioning.Latest)], None)),
           None)
  }

  /** One operation after the rewrite: the header first, then all its old parameters. */
  function AugmentOperation(op: Operation): (r: Operation)
    ensures r.fields == op.fields && r.parameters.Some?
    ensures |r.parameters.value| == |ParametersOrEmpty(op)| + 1
    ensures r.parameters.value[0] == InlineVersionParam()
    ensures r.parameters.value[1..] == ParametersOrEmpty(op)
  {
    op.(parameters := Some([InlineVersionParam()] + ParametersOrEmpty(op)))
  }

  function AugmentPathItem(item: PathItem): (r: PathItem)
    ensures r.Keys == item.Keys
  {
    map m | m in item :: AugmentOperation(item[m])
  }

  function AugmentPaths(paths: Paths): (r: Paths)
    ensures r.Keys == paths.Keys
  {
    map p | p in paths :: AugmentPathItem(paths[p])
  }

  /** The rewritten document: operations augmented, `servers` replaced, all else unchanged. */
  function Augmented(s: Schema): (r: Schema)
    ensures r.paths.Keys == s.paths.Keys && r.servers == Some(ApiServers)
    ensures r.components == s.components && r.other == s.other
  {
    s.(paths := AugmentPaths(s.paths), servers := Some(ApiServers))
  }

  /** The inner loop: rewrites the `parameters` of every method of one path item. */
  method AugmentOperations(item: PathItem) returns (out: PathItem)
    ensures out == AugmentPathItem(item)
  {
    out := item;
    var pending := item.Keys;
    while pending != {}
      invariant pending <= item.Keys && out.Keys == item.Keys
      invariant forall m :: m in item && m !in pending ==> out[m] == AugmentOperation(item[m])
      invariant forall m :: m in pending ==> out[m] == item[m]
      decreases pending
    {
      var m :| m in pending;
      out := out[m := AugmentOperation(out[m])];
      pending := pending - {m};
    }
  }

  /** The outer loop over every path. */
  method AugmentAllPaths(paths: Paths) returns (out: Paths)
    ensures out == AugmentPaths(paths)
  {
    out := paths;
    var pending := paths.Keys;
    while pending != {}
      invariant pending <= paths.Keys && out.Keys == paths.Keys
      invariant forall p :: p in paths && p !in pending ==> out[p] == AugmentPathItem(paths[p])
      invariant forall p :: p in pending ==> out[p] == paths[p]
      decreases pending
    {
      var p :| p in pending;
      var item := AugmentOperations(out[p]);
      out := out[p := item];
      pending := pending - {p};
    }
  }

  /**
   * `custom_openapi_func`: a cached document is returned unchanged;
   * otherwise the generated document is rewritten, cached and returned.
   */
  method CustomOpenApiFunc(app: App) returns (schema: Schema)
    modifies app
    ensures old(app.openapiSchema).Some? ==>
      schema == old(app.openapiSchema).value && app.openapiSchema == old(app.openapiSchema)
    ensures old(app.openapiSchema).None? ==>
      schema == Augmented(app.generated) && app.openapiSchema == Some(schema)
  {
    if app.openapiSchema.Some? {
      return app.openapiSchema.value;
    }
    var openapiSchema := app.generated;
    var paths := AugmentAllPaths(openapiSchema.paths);
    openapiSchema := openapiSchema.(paths := paths);
    app.openapiSchema := Some(openapiSchema);
    openapiSchema := openapiSchema.(servers := Some(ApiServers));
    app.openapiSchema := Some(openapiSchema);
    schema := app.openapiSchema.value;
  }

  /** Two calls on a fresh app return the same document, rewritten once. */
  method CallTwice(app: App) returns (first: Schema, second: Schema)
    requires app.openapiSchema.None?
    modifies app
    ensures first == second == Augmented(app.generated)
  {
    first := CustomOpenApiFunc(app);
    second := CustomOpenApiFunc(app);
  }

  /** Operation `m` of path `p` after the rewrite. */
  lemma RewrittenOperation(s: Schema, p: string, m: string)
    requires p in s.paths && m in s.paths[p]
    ensures p in Augmented(s).paths && m in Augmented(s).paths[p]
    ensures Augmented(s).paths[p][m].parameters == Some([InlineVersionParam()] + ParametersOrEmpty(s.paths[p][m]))
    ensures Augmented(s).paths[p][m].fields == s.paths[p][m].fields
  {
  }

  /** There is no deduplication: a second rewrite puts a second header in front. */
  lemma NoDeduplication(s: Schema, p: string, m: string)
    requires p in s.paths && m in s.paths[p]
    ensures Augmented(Augmented(s)).paths[p][m].parameters ==
      Some([InlineVersionParam(), InlineVersionParam()] + ParametersOrEmpty(s.paths[p][m]))
    ensures Augmented(Augmented(s)) != Augmented(s)
  {
    RewrittenOperation(s, p, m);
    RewrittenOperation(Augmented(s), p, m);
    var once := Augmented(s).paths[p][m];
    assert [InlineVersionParam()] + ParametersOrEmpty(once)
        == [InlineVersionParam(), InlineVersionParam()] + ParametersOrEmpty(s.paths[p][m]);
    assert |ParametersOrEmpty(Augmented(Augmented(s)).paths[p][m])| != |ParametersOrEmpty(once)|;
  }
}
