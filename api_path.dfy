/** The test helper that puts the API mount prefix in front of a route path. */
module ApiPath {
  import Endpoints

  /** `get_api_path`: the `API` endpoint's path followed by `path`, with no normalisation. */
  function GetApiPath(path: string): (r: string)
    ensures r == "/api" + path
    ensures |r| == |path| + 4 && r[..4] == "/api" && r[4..] == path
  {
    Endpoints.SingleSegmentNormal("/api");
    Endpoints.ApiRoute.path + path
  }

  /** Distinct route paths give distinct API paths. */
  lemma GetApiPathInjective(p: string, q: string)
    requires GetApiPath(p) == GetApiPath(q)
    ensures p == q
  {
    assert p == GetApiPath(p)[4..];
  }

  /** The paths are concatenated verbatim: slashes are neither added, collapsed nor removed. */
  lemma GetApiPathExamples()
    ensures GetApiPath("/users") == "/api/users"
    ensures GetApiPath("") == "/api"
    ensures GetApiPath("users") == "/apiusers"
    ensures GetApiPath("//x/") == "/api//x/"
  {
  }
}
