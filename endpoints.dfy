/**
 * The endpoint registry: an endpoint is a normalised path with named child
 * routes, looked up by attribute access, and the registry class exposes its
 * endpoint-valued public attributes.
 */
module Endpoints {
  import opened Wrappers
  import PosixPath

  /**
   * An endpoint. Its path is normalised once, when it is built, and nothing
   * changes it afterwards, so it is a value here.
   */
  datatype Endpoint = Endpoint(path: string, routes: map<string, Endpoint>)

  /** The error attribute access raises for an unknown route. */
  datatype AttributeError = AttributeError(message: string)

  /** Building an endpoint: the path is stored in its normal form. */
  function MakeEndpoint(path: string, routes: map<string, Endpoint> := map[]): (e: Endpoint)
    ensures PosixPath.Normalize(e.path) == e.path
    ensures PosixPath.Root(e.path) == PosixPath.Root(path)
    ensures PosixPath.Parts(e.path) == PosixPath.Parts(path)
    ensures e.routes == routes
  {
    PosixPath.NormalizeKeepsStructure(path);
    PosixPath.NormalizeIdempotent(path);
    Endpoint(PosixPath.Normalize(path), routes)
  }

  /**
   * `Endpoint.__getattr__`, the fallback Python calls only after the ordinary
   * attribute lookup fails (so `path` and `routes` never reach it): the child
   * route of that name, or an `AttributeError`.
   */
  function GetAttr(e: Endpoint, name: string): (r: Result<Endpoint, AttributeError>)
    ensures r.Success? <==> name in e.routes
    ensures r.Success? ==> r.value == e.routes[name]
    ensures r.Failure? ==> r.error.message == "'Endpoint' has no route '" + name + "'"
  {
    if name in e.routes then Success(e.routes[name])
    else Failure(AttributeError("'Endpoint' has no route '" + name + "'"))
  }

  const RootRoute: Endpoint := MakeEndpoint("/")
  const ApiRoute: Endpoint := MakeEndpoint("/api")
  const DocsRoute: Endpoint := MakeEndpoint("/docs")
  const OpenApiRoute: Endpoint := MakeEndpoint("/openapi.json")
  const DebugRoute: Endpoint := MakeEndpoint("/debug")
  const HelloRoute: Endpoint :=
    MakeEndpoint("/hello", map["ROOT" := MakeEndpoint("/"), "NAME" := MakeEndpoint("/{name}")])
  const UsersRoute: Endpoint := MakeEndpoint("/users", map["ROOT" := MakeEndpoint("/")])

  /** A path made of a root slash and one plain segment is already normal. */
  lemma SingleSegmentNormal(p: string)
    requires |p| >= 2 && p[0] == '/' && PosixPath.Kept(p[1..]) && '/' !in p[1..]
    ensures PosixPath.Normalize(p) == p
  {
    var seg := p[1..];
    assert PosixPath.Root(p) == "/";
    PosixPath.SplitWhole(seg);
    PosixPath.KeepPartsClean([seg]);
    assert p == "/" + seg;
  }

  /**
   * One registry path at a time (gathered by RegistryPaths below): each proof
   * unfolds the normalisation of a single literal.
   */
  lemma RootPath()
    ensures RootRoute.path == "/" && RootRoute.routes == map[]
  {
    assert "/"[1..] == "";
  }

  lemma ApiRoutePath()
    ensures ApiRoute.path == "/api" && ApiRoute.routes == map[]
  {
    SingleSegmentNormal("/api");
  }

  lemma DocsPath()
    ensures DocsRoute.path == "/docs"
  {
    SingleSegmentNormal("/docs");
  }

  lemma OpenApiPath()
    ensures OpenApiRoute.path == "/openapi.json"
  {
    SingleSegmentNormal("/openapi.json");
  }

  lemma DebugPath()
    ensures DebugRoute.path == "/debug"
  {
    SingleSegmentNormal("/debug");
  }

  lemma HelloPath()
    ensures HelloRoute.path == "/hello"
  {
    SingleSegmentNormal("/hello");
  }

  lemma UsersPath()
    ensures UsersRoute.path == "/users"
  {
    SingleSegmentNormal("/users");
  }

  /** The bare root path is normal. */
  lemma SlashEndpoint()
    ensures MakeEndpoint("/") == Endpoint("/", map[])
  {
    assert "/"[1..] == "";
  }

  /** The parameterised child path is normal. */
  lemma NameEndpoint()
    ensures MakeEndpoint("/{name}") == Endpoint("/{name}", map[])
  {
    SingleSegmentNormal("/{name}");
  }

  /** `HELLO.ROOT` and `HELLO.NAME`. */
  lemma HelloRoutes()
    ensures GetAttr(HelloRoute, "ROOT") == Success(Endpoint("/", map[]))
    ensures GetAttr(HelloRoute, "NAME") == Success(Endpoint("/{name}", map[]))
  {
    SlashEndpoint();
    NameEndpoint();
    assert HelloRoute.routes == map["ROOT" := MakeEndpoint("/"), "NAME" := MakeEndpoint("/{name}")];
  }

  /** `USERS.ROOT`, and no other child. */
  lemma UsersRoutes()
    ensures GetAttr(UsersRoute, "ROOT") == Success(Endpoint("/", map[]))
    ensures forall name :: name != "ROOT" ==> GetAttr(UsersRoute, name).Failure?
  {
    SlashEndpoint();
  }

  /** `API` has no children, so `API.USERS` raises. */
  lemma ApiHasNoUsers()
    ensures GetAttr(ApiRoute, "USERS") == Failure(AttributeError("'Endpoint' has no route 'USERS'"))
  {
    var msg := "'Endpoint' has no route '" + "USERS" + "'";
    assert msg == "'Endpoint' has no route 'USERS'";
  }

  /** A class attribute: an endpoint, or anything else (methods, dunder entries). */
  datatype ClassAttr = EndpointAttr(endpoint: Endpoint) | OtherAttr

  predicate IsPrivate(name: string) {
    |name| > 0 && name[0] == '_'
  }

  /** `get_all_endpoints`: the endpoint-valued attributes whose names do not start with `_`. */
  function GetAllEndpoints(attrs: map<string, ClassAttr>): (r: map<string, Endpoint>)
    ensures forall n :: n in r <==> n in attrs && attrs[n].EndpointAttr? && !IsPrivate(n)
    ensures forall n :: n in r ==> r[n] == attrs[n].endpoint
  {
    map n | n in attrs && attrs[n].EndpointAttr? && !IsPrivate(n) :: attrs[n].endpoint
  }

  /** Setting a private or non-endpoint attribute leaves that name out of the listing. */
  lemma IgnoredAttribute(attrs: map<string, ClassAttr>, n: string, v: ClassAttr)
    requires IsPrivate(n) || v.OtherAttr?
    ensures GetAllEndpoints(attrs[n := v]) == GetAllEndpoints(attrs) - {n}
  {
  }

  /** Adding a public endpoint attribute lists it. */
  lemma ListedAttribute(attrs: map<string, ClassAttr>, n: string, e: Endpoint)
    requires !IsPrivate(n)
    ensures GetAllEndpoints(attrs[n := EndpointAttr(e)]) == GetAllEndpoints(attrs)[n := e]
  {
  }

  /**
   * The class namespace of a registry with these seven endpoints, in
   * definition order: the entries every class has, the endpoints, and the
   * listing method.
   */
  function Namespace(root: Endpoint, api: Endpoint, docs: Endpoint, openapi: Endpoint,
                     debug: Endpoint, hello: Endpoint, users: Endpoint): map<string, ClassAttr> {
    map[]["__module__" := OtherAttr]["__doc__" := OtherAttr]
      ["ROOT" := EndpointAttr(root)]["API" := EndpointAttr(api)]["DOCS" := EndpointAttr(docs)]
      ["OPENAPI" := EndpointAttr(openapi)]["DEBUG" := EndpointAttr(debug)]
      ["HELLO" := EndpointAttr(hello)]["USERS" := EndpointAttr(users)]
      ["get_all_endpoints" := OtherAttr]["__dict__" := OtherAttr]["__weakref__" := OtherAttr]
  }

  /** The seven endpoint attributes, set on a namespace that lists nothing yet. */
  lemma ListedPublic(a2: map<string, ClassAttr>, root: Endpoint, api: Endpoint, docs: Endpoint,
                     openapi: Endpoint, debug: Endpoint, hello: Endpoint, users: Endpoint)
    requires GetAllEndpoints(a2) == map[]
    ensures GetAllEndpoints(a2["ROOT" := EndpointAttr(root)]["API" := EndpointAttr(api)]
      ["DOCS" := EndpointAttr(docs)]["OPENAPI" := EndpointAttr(openapi)]["DEBUG" := EndpointAttr(debug)]
      ["HELLO" := EndpointAttr(hello)]["USERS" := EndpointAttr(users)]) ==
      map["ROOT" := root, "API" := api, "DOCS" := docs, "OPENAPI" := openapi,
          "DEBUG" := debug, "HELLO" := hello, "USERS" := users]
  {
    var a3 := a2["ROOT" := EndpointAttr(root)];
    ListedAttribute(a2, "ROOT", root);
    var a4 := a3["API" := EndpointAttr(api)];
    ListedAttribute(a3, "API", api);
    var a5 := a4["DOCS" := EndpointAttr(docs)];
    ListedAttribute(a4, "DOCS", docs);
    var a6 := a5["OPENAPI" := EndpointAttr(openapi)];
    ListedAttribute(a5, "OPENAPI", openapi);
    var a7 := a6["DEBUG" := EndpointAttr(debug)];
    ListedAttribute(a6, "DEBUG", debug);
    var a8 := a7["HELLO" := EndpointAttr(hello)];
    ListedAttribute(a7, "HELLO", hello);
    ListedAttribute(a8, "USERS", users);
  }

  /** The trailing non-endpoint entries add nothing to a listing of short public names. */
  lemma ListedTrailer(a9: map<string, ClassAttr>)
    requires forall n :: n in GetAllEndpoints(a9) ==> |n| <= 7
    ensures GetAllEndpoints(a9["get_all_endpoints" := OtherAttr]["__dict__" := OtherAttr]
      ["__weakref__" := OtherAttr]) == GetAllEndpoints(a9)
  {
    var a10 := a9["get_all_endpoints" := OtherAttr];
    IgnoredAttribute(a9, "get_all_endpoints", OtherAttr);
    var a11 := a10["__dict__" := OtherAttr];
    IgnoredAttribute(a10, "__dict__", OtherAttr);
    IgnoredAttribute(a11, "__weakref__", OtherAttr);
    var listed := GetAllEndpoints(a9);
    assert |"get_all_endpoints"| == 17 && |"__dict__"| == 8 && |"__weakref__"| == 11;
    assert listed - {"get_all_endpoints"} == listed;
    assert listed - {"__dict__"} == listed;
    assert listed - {"__weakref__"} == listed;
  }

  /** Listing such a namespace yields exactly the seven endpoints. */
  lemma ListedNamespace(root: Endpoint, api: Endpoint, docs: Endpoint, openapi: Endpoint,
                        debug: Endpoint, hello: Endpoint, users: Endpoint)
    ensures GetAllEndpoints(Namespace(root, api, docs, openapi, debug, hello, users)) ==
      map["ROOT" := root, "API" := api, "DOCS" := docs, "OPENAPI" := openapi,
          "DEBUG" := debug, "HELLO" := hello, "USERS" := users]
  {
    var a0: map<string, ClassAttr> := map[];
    var a1 := a0["__module__" := OtherAttr];
    IgnoredAttribute(a0, "__module__", OtherAttr);
    var a2 := a1["__doc__" := OtherAttr];
    IgnoredAttribute(a1, "__doc__", OtherAttr);
    ListedPublic(a2, root, api, docs, openapi, debug, hello, users);
    var a9 := a2["ROOT" := EndpointAttr(root)]["API" := EndpointAttr(api)]
      ["DOCS" := EndpointAttr(docs)]["OPENAPI" := EndpointAttr(openapi)]["DEBUG" := EndpointAttr(debug)]
      ["HELLO" := EndpointAttr(hello)]["USERS" := EndpointAttr(users)];
    ListedTrailer(a9);
  }

  /** `vars(ApiEndpoints)`. */
  function RegistryAttributes(): map<string, ClassAttr> {
    Namespace(RootRoute, ApiRoute, DocsRoute, OpenApiRoute, DebugRoute, HelloRoute, UsersRoute)
  }

  /** The seven endpoint attributes of the registry. */
  const Registry: map<string, Endpoint> :=
    map["ROOT" := RootRoute, "API" := ApiRoute, "DOCS" := DocsRoute, "OPENAPI" := OpenApiRoute,
        "DEBUG" := DebugRoute, "HELLO" := HelloRoute, "USERS" := UsersRoute]

  /** The registry lists exactly its seven endpoints. */
  lemma RegisteredEndpoints()
    ensures GetAllEndpoints(RegistryAttributes()) == Registry
  {
    ListedNamespace(RootRoute, ApiRoute, DocsRoute, OpenApiRoute, DebugRoute, HelloRoute, UsersRoute);
  }

  /**
   * Every path the registry declares is already normal, so each of the seven
   * endpoints keeps the literal path it is declared with, and the two without
   * children have no routes.
   */
  lemma RegistryPaths()
    ensures RootRoute.path == "/" && RootRoute.routes == map[]
    ensures ApiRoute.path == "/api" && ApiRoute.routes == map[]
    ensures DocsRoute.path == "/docs"
    ensures OpenApiRoute.path == "/openapi.json"
    ensures DebugRoute.path == "/debug"
    ensures HelloRoute.path == "/hello"
    ensures UsersRoute.path == "/users"
  {
    RootPath();
    ApiRoutePath();
    DocsPath();
    OpenApiPath();
    DebugPath();
    HelloPath();
    UsersPath();
  }
}
