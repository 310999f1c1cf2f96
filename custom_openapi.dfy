/**
 * The later revision of the OpenAPI rewrite: one shared `ApiVersionHeader`
 * parameter under `components.parameters`, every operation's stale
 * `x-api-version` parameters (compared case-insensitively) removed and a
 * `$ref` to the shared one put in front, and `servers` set to the API mount
 * prefix. The result is memoised on the app.
 */
module CustomOpenApi {
  import opened Wrappers
  import opened OpenApiDoc
  import ApiVersioning
  import SharedOpenApi

  const VersionHeaderName: string := "x-api-version"
  const ComponentName: string := "ApiVersionHeader"

  /** The `$ref` put in front of every operation's parameters. */
  const VersionRef: Param := Ref("#/components/parameters/ApiVersionHeader")

  /** The one entry of `components.parameters` after the rewrite. */
  function VersionHeaderComponent(): (p: Param)
    ensures p.Inline? && p.name == Some(VersionHeaderName) && p.location == "header" && p.required
    ensures p.schema == Some(ParamSchema("string", ["2024-10-preview", "latest"], Some("latest")))
    ensures p.description == Some("API Version to use")
  {
    Inline(Some(VersionHeaderName), "header", true,
           Some(ParamSchema("string", ApiVersioning.AllValues(), Some(ApiVersioning.Value(ApiVersioning.Latest)))),
           Some("API Version to use"))
  }

  /**
   * `str.lower` on one character, for the ASCII letters. The only other
   * characters whose lower case is an ASCII letter are the Kelvin sign (to
   * `k`, absent from "x-api-version") and U+0130 (to two characters), so the
   * comparison with "x-api-version" comes out as in Python.
   */
  function LowerChar(c: char): (r: char)
    ensures 'A' <= c <= 'Z' ==> r as int == c as int + 32
    ensures !('A' <= c <= 'Z') ==> r == c
  {
    if 'A' <= c <= 'Z' then (c as int + 32) as char else c
  }

  function Lower(s: string): (r: string)
    ensures |r| == |s| && forall i :: 0 <= i < |s| ==> r[i] == LowerChar(s[i])
  {
    seq(|s|, i requires 0 <= i < |s| => LowerChar(s[i]))
  }

  /** A parameter the rewrite removes: its name lower-cases to `x-api-version`. */
  predicate IsVersionParam(p: Param) {
    Lower(NameOrEmpty(p)) == VersionHeaderName
  }

  /** The list comprehension that drops every version-header parameter. */
  function StripVersionParams(ps: seq<Param>): (r: seq<Param>)
    ensures |r| <= |ps|
    ensures forall p :: p in r <==> p in ps && !IsVersionParam(p)
  {
    if ps == [] then []
    else if IsVersionParam(ps[0]) then StripVersionParams(ps[1..])
    else [ps[0]] + StripVersionParams(ps[1..])
  }

  /** Filtering is done element by element, so it keeps the relative order of what it keeps. */
  lemma {:induction false} StripAppend(a: seq<Param>, b: seq<Param>)
    ensures StripVersionParams(a + b) == StripVersionParams(a) + StripVersionParams(b)
  {
    if a == [] {
      assert a + b == b;
    } else {
      assert (a + b)[1..] == a[1..] + b;
      StripAppend(a[1..], b);
    }
  }

  /** A list without version-header parameters is left as it is. */
  lemma {:induction false} StripKeepsClean(ps: seq<Param>)
    requires forall i :: 0 <= i < |ps| ==> !IsVersionParam(ps[i])
    ensures StripVersionParams(ps) == ps
  {
    if ps != [] {
      StripKeepsClean(ps[1..]);
    }
  }

  lemma StripIdempotent(ps: seq<Param>)
    ensures StripVersionParams(StripVersionParams(ps)) == StripVersionParams(ps)
  {
    var r := StripVersionParams(ps);
    assert forall i :: 0 <= i < |r| ==> r[i] in r;
    StripKeepsClean(r);
  }

  /** One operation after the rewrite: the `$ref`, then its old parameters minus version headers. */
  function AugmentOperation(op: Operation): (r: Operation)
    ensures r.fields == op.fields && r.parameters.Some?
    ensures |r.parameters.value| == 1 + |StripVersionParams(ParametersOrEmpty(op))|
    ensures r.parameters.value[0] == VersionRef
    ensures r.parameters.value[1..] == StripVersionParams(ParametersOrEmpty(op))
    ensures forall i :: 1 <= i < |r.parameters.value| ==> !IsVersionParam(r.parameters.value[i])
  {
    var kept := if op.parameters.Some? then StripVersionParams(op.parameters.value) else [];
    assert forall i :: 0 <= i < |kept| ==> kept[i] in kept;
    op.(parameters := Some([VersionRef] + kept))
  }

  function AugmentPathItem(item: PathItem): (r: PathItem)
    ensures r.Keys == item.Keys
  {
    map m | m in item :: AugmentOperation(item[m])
  }

  function AugmentPaths(paths: Paths): (r: Paths)
    ensures r.Keys == paths.Keys
  {
    map p | p in paths :: AugmentPathItem(paths[p])
  }

  /** `components.parameters` replaced by the shared parameter alone; other component keys kept. */
  function AugmentComponents(c: Option<Components>): (r: Components)
    ensures r.parameters == Some(map[ComponentName := VersionHeaderComponent()])
    ensures c.Some? ==> r.other == c.value.other
    ensures c.None? ==> r.other == map[]
  {
    Components(Some(map[ComponentName := VersionHeaderComponent()]), c.GetOr(Components(None, map[])).other)
  }

  /** The rewritten document. */
  function Augmented(s: Schema): (r: Schema)
    ensures r.paths.Keys == s.paths.Keys && r.servers == Some(ApiServers) && r.other == s.other
    ensures r.components == Some(AugmentComponents(s.components))
    ensures forall p, m :: p in s.paths && m in s.paths[p] ==>
      m in r.paths[p] && r.paths[p][m] == AugmentOperation(s.paths[p][m])
  {
    Schema(AugmentPaths(s.paths), Some(AugmentComponents(s.components)), Some(ApiServers), s.other)
  }

  /** The inner loop: rewrites the `parameters` of every method of one path item. */
  method AugmentOperations(item: PathItem) returns (out: PathItem)
    ensures out == AugmentPathItem(item)
  {
    out := item;
    var pending := item.Keys;
    while pending != {}
      invariant pending <= item.Keys && out.Keys == item.Keys
      invariant forall m :: m in item && m !in pending ==> out[m] == AugmentOperation(item[m])
      invariant forall m :: m in pending ==> out[m] == item[m]
      decreases pending
    {
      var m :| m in pending;
      var op := out[m];
      if op.parameters.Some? {
        op := op.(parameters := Some(StripVersionParams(op.parameters.value)));
      }
      op := op.(parameters := Some([VersionRef] + ParametersOrEmpty(op)));
      out := out[m := op];
      pending := pending - {m};
    }
  }

  /** The outer loop over every path. */
  method AugmentAllPaths(paths: Paths) returns (out: Paths)
    ensures out == AugmentPaths(paths)
  {
    out := paths;
    var pending := paths.Keys;
    while pending != {}
      invariant pending <= paths.Keys && out.Keys == paths.Keys
      invariant forall p :: p in paths && p !in pending ==> out[p] == AugmentPathItem(paths[p])
      invariant forall p :: p in pending ==> out[p] == paths[p]
      decreases pending
    {
      var p :| p in pending;
      var item := AugmentOperations(out[p]);
      out := out[p := item];
      pending := pending - {p};
    }
  }

  /**
   * `custom_openapi_func`: a cached document is returned as it is and
   * nothing is rewritten; otherwise the generated document is rewritten,
   * cached and returned.
   */
  method CustomOpenApiFunc(app: App) returns (schema: Schema)
    modifies app
    ensures old(app.openapiSchema).Some? ==>
      schema == old(app.openapiSchema).value && app.openapiSchema == old(app.openapiSchema)
    ensures old(app.openapiSchema).None? ==>
      schema == Augmented(app.generated) && app.openapiSchema == Some(schema)
  {
    if app.openapiSchema.Some? {
      return app.openapiSchema.value;
    }
    var openapiSchema := app.generated;
    openapiSchema := openapiSchema.(components := Some(AugmentComponents(openapiSchema.components)));
    var paths := AugmentAllPaths(openapiSchema.paths);
    openapiSchema := openapiSchema.(paths := paths);
    openapiSchema := openapiSchema.(servers := Some(ApiServers));
    app.openapiSchema := Some(openapiSchema);
    schema := app.openapiSchema.value;
  }

  /** Two calls on a fresh app return the same document, rewritten once. */
  method CallTwice(app: App) returns (first: Schema, second: Schema)
    requires app.openapiSchema.None?
    modifies app
    ensures first == second == Augmented(app.generated)
  {
    first := CustomOpenApiFunc(app);
    second := CustomOpenApiFunc(app);
  }

  /**
   * Operation `m` of path `p` after the rewrite: the `$ref` first, then the
   * old parameters that are not version headers, in their old order.
   */
  lemma RewrittenOperation(s: Schema, p: string, m: string)
    requires p in s.paths && m in s.paths[p]
    ensures p in Augmented(s).paths && m in Augmented(s).paths[p]
    ensures Augmented(s).paths[p][m].parameters ==
      Some([VersionRef] + StripVersionParams(ParametersOrEmpty(s.paths[p][m])))
    ensures Augmented(s).paths[p][m].fields == s.paths[p][m].fields
  {
  }

  /**
   * When the generated operation holds no reference of its own, the
   * rewritten list holds the `$ref` exactly once, at its head.
   */
  lemma SingleReference(op: Operation)
    requires VersionRef !in ParametersOrEmpty(op)
    ensures var ps := AugmentOperation(op).parameters.value;
      ps[0] == VersionRef && forall i :: 1 <= i < |ps| ==> ps[i] != VersionRef
  {
    var ps := AugmentOperation(op).parameters.value;
    forall i | 1 <= i < |ps|
      ensures ps[i] != VersionRef
    {
      assert ps[i] in ps[1..];
    }
  }

  /** The names the filter treats as the version header, whatever their case. */
  lemma CaseInsensitiveMatch()
    ensures IsVersionParam(SharedOpenApi.InlineVersionParam())
    ensures IsVersionParam(Inline(Some("X-Api-Version"), "header", false, None, None))
    ensures IsVersionParam(Inline(Some("x-api-version"), "query", true, None, None))
    ensures !IsVersionParam(Inline(Some("api-version"), "header", false, None, None))
  {
    assert Lower("X-API-VERSION") == VersionHeaderName;
    assert Lower("X-Api-Version") == VersionHeaderName;
    assert Lower("x-api-version") == VersionHeaderName;
  }

  /** A parameter without `name`, such as a `$ref`, survives the filter. */
  lemma NamelessSurvives(p: Param)
    requires p.Ref? || p.name.None?
    ensures !IsVersionParam(p)
  {
    assert NameOrEmpty(p) == "";
  }

  /** A second rewrite of an operation keeps the first `$ref` and puts another in front. */
  lemma OperationRewrittenTwice(op: Operation)
    ensures AugmentOperation(AugmentOperation(op)).parameters ==
      Some([VersionRef, VersionRef] + StripVersionParams(ParametersOrEmpty(op)))
  {
    var kept := StripVersionParams(ParametersOrEmpty(op));
    NamelessSurvives(VersionRef);
    assert StripVersionParams([VersionRef]) == [VersionRef];
    StripAppend([VersionRef], kept);
    StripIdempotent(ParametersOrEmpty(op));
    var once := AugmentOperation(op);
    assert ParametersOrEmpty(once) == [VersionRef] + kept;
    assert StripVersionParams(ParametersOrEmpty(once)) == [VersionRef] + kept;
    assert [VersionRef] + ([VersionRef] + kept) == [VersionRef, VersionRef] + kept;
  }

  /**
   * The rewrite is not idempotent: a second pass keeps the nameless `$ref`
   * and prepends another, so only the memo prevents double application.
   */
  lemma NotIdempotent(s: Schema, p: string, m: string)
    requires p in s.paths && m in s.paths[p]
    ensures Augmented(Augmented(s)).paths[p][m].parameters ==
      Some([VersionRef, VersionRef] + StripVersionParams(ParametersOrEmpty(s.paths[p][m])))
    ensures Augmented(Augmented(s)) != Augmented(s)
  {
    var op := s.paths[p][m];
    assert Augmented(s).paths[p][m] == AugmentOperation(op);
    assert Augmented(Augmented(s)).paths[p][m] == AugmentOperation(AugmentOperation(op));
    OperationRewrittenTwice(op);
  }
}
