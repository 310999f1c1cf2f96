/**
 * API versions, resolution of the `x-api-version` request header, and the
 * deprecation, sunset and preview headers added to a response.
 */
module ApiVersioning {
  import opened Wrappers
  import HttpDate
  import Digits

  /** The members of the string enumeration `ApiVersion`, in declaration order. */
  datatype ApiVersion = V2024_10_Preview | Latest

  /** The string value of each member; only LATEST has the value `"latest"`. */
  function Value(v: ApiVersion): (r: string)
    ensures r == "latest" <==> v == Latest
  {
    match v
    case V2024_10_Preview => "2024-10-preview"
    case Latest => "latest"
  }

  /** Iteration order of the enumeration (`[v for v in ApiVersion]`). */
  const AllVersions: seq<ApiVersion> := [V2024_10_Preview, Latest]

  /** The values of all members, in declaration order, each member listed. */
  function AllValues(): (r: seq<string>)
    ensures |r| == |AllVersions|
    ensures forall i :: 0 <= i < |r| ==> r[i] == Value(AllVersions[i])
    ensures forall v :: Value(v) in r
  {
    [Value(V2024_10_Preview), Value(Latest)]
  }

  lemma ValueInjective(v: ApiVersion, w: ApiVersion)
    requires Value(v) == Value(w)
    ensures v == w
  {
  }

  /** `ApiVersion(s)`: the member whose value is exactly `s`, or None where Python raises ValueError. */
  function FromValue(s: string): (r: Option<ApiVersion>)
    ensures r.Some? ==> Value(r.value) == s
    ensures r.None? ==> forall v :: Value(v) != s
  {
    if s == "2024-10-preview" then Some(V2024_10_Preview)
    else if s == "latest" then Some(Latest)
    else None
  }

  /** An `HTTPException` with its status code and detail. */
  datatype HttpError = HttpError(status: int, detail: string)

  const InvalidVersion: HttpError := HttpError(400, "Invalid API version")

  /**
   * `get_api_version`: an absent header or exactly `"latest"` selects LATEST;
   * any other value must be exactly a member's value, or the request fails
   * with 400 "Invalid API version" (there is no fallback to a default).
   */
  function GetApiVersion(header: Option<string>): (r: Result<ApiVersion, HttpError>)
    ensures header.None? ==> r == Success(Latest)
    ensures header.Some? ==> (r.Success? <==> exists v :: Value(v) == header.value)
    ensures header.Some? && r.Success? ==> Value(r.value) == header.value
    ensures r.Failure? ==> r.error == InvalidVersion
  {
    if header.None? || header.value == Value(Latest) then Success(Latest)
    else
      match FromValue(header.value)
      case Some(v) => Success(v)
      case None => Failure(InvalidVersion)
  }

  lemma DefaultResolution()
    ensures GetApiVersion(None) == Success(Latest)
    ensures GetApiVersion(Some("latest")) == Success(Latest)
  {
  }

  /** Resolving a member's own value gives back that member. */
  lemma ResolveRoundTrip(v: ApiVersion)
    ensures GetApiVersion(Some(Value(v))) == Success(v)
  {
  }

  /** Every string that is no member's value is rejected with 400. */
  lemma ResolveRejects(s: string)
    requires forall v :: Value(v) != s
    ensures GetApiVersion(Some(s)) == Failure(InvalidVersion)
  {
  }

  lemma ResolveExamples()
    ensures GetApiVersion(Some("2024-10-preview")) == Success(V2024_10_Preview)
    ensures GetApiVersion(Some("")) == Failure(InvalidVersion)
    ensures GetApiVersion(Some("LATEST")) == Failure(InvalidVersion)
    ensures GetApiVersion(Some("bogus-version")) == Failure(InvalidVersion)
  {
    ResolveRejects("LATEST");
  }

  // ---------------------------------------------------------------------
  // The version table and the response headers

  /**
   * One `VERSION_INFO` entry. An absent key reads as falsy, so a missing
   * flag is `false` and a missing sunset date is None.
   */
  datatype VersionInfo = VersionInfo(deprecated: bool, sunsetDate: Option<string>, preview: bool)

  /** `VERSION_INFO.get(v, {})` for a version with no entry. */
  const NoInfo: VersionInfo := VersionInfo(false, None, false)

  type VersionTable = map<ApiVersion, VersionInfo>

  /** The table as shipped: only the preview version has an entry. */
  const ShippedVersionInfo: VersionTable := map[V2024_10_Preview := VersionInfo(false, None, true)]

  /** `VERSION_INFO.get(v, {})`: the entry, or one whose every flag reads as falsy. */
  function InfoFor(table: VersionTable, v: ApiVersion): (r: VersionInfo)
    ensures v in table ==> r == table[v]
    ensures v !in table ==> !r.deprecated && !HasSunset(r) && !r.preview
  {
    if v in table then table[v] else NoInfo
  }

  /** The sunset date is truthy: present and not the empty string. */
  predicate HasSunset(info: VersionInfo) {
    info.sunsetDate.Some? && info.sunsetDate.value != ""
  }

  /** A truthy sunset date is a valid `YYYY-MM-DD` date, as `strptime` demands. */
  predicate SunsetParses(info: VersionInfo) {
    HasSunset(info) ==> HttpDate.ParseIsoDate(info.sunsetDate.value).Some?
  }

  const DeprecationLink: string := "<https://api.example.com/docs>; rel=\"deprecation\"; type=\"text/html\""

  /**
   * How `ApiVersion.LATEST` renders inside the warning's f-string. The
   * rendering of a string-enumeration member differs across Python releases;
   * the model fixes it to the member's value.
   */
  const UpgradeTargetText: string := "latest"

  const DeprecationWarning: string :=
    "299 - \"This version is deprecated. Please upgrade to " + UpgradeTargetText + "\""

  const DeprecationHeader: string := "Deprecation"
  const LinkHeader: string := "Link"
  const WarningHeader: string := "Warning"
  const SunsetHeader: string := "Sunset"
  const StatusHeader: string := "X-Version-Status"

  /** The only header names the annotation ever writes. */
  const AnnotationHeaders: set<string> := {DeprecationHeader, LinkHeader, WarningHeader, SunsetHeader, StatusHeader}

  lemma HeaderNamesDistinct()
    ensures DeprecationHeader != LinkHeader && DeprecationHeader != WarningHeader
    ensures DeprecationHeader != SunsetHeader && DeprecationHeader != StatusHeader
    ensures LinkHeader != WarningHeader && LinkHeader != SunsetHeader && LinkHeader != StatusHeader
    ensures WarningHeader != SunsetHeader && WarningHeader != StatusHeader
    ensures SunsetHeader != StatusHeader
  {
    assert DeprecationHeader[0] == 'D' && LinkHeader[0] == 'L' && WarningHeader[0] == 'W';
    assert SunsetHeader[0] == 'S' && StatusHeader[0] == 'X';
  }

  /** The `Sunset` value for a `YYYY-MM-DD` table entry. */
  function SunsetValue(iso: string): (s: string)
    requires HttpDate.ParseIsoDate(iso).Some?
    ensures |s| == 29 && s[16..] == HttpDate.MidnightGmt
    ensures HttpDate.ParseImfFixdate(s) == HttpDate.ParseIsoDate(iso)
  {
    HttpDate.ImfFixdateRoundTrip(HttpDate.ParseIsoDate(iso).value);
    HttpDate.ImfFixdate(HttpDate.ParseIsoDate(iso).value)
  }

  /** The headers set for a deprecated entry. */
  function DeprecationHeaders(info: VersionInfo): (r: map<string, string>)
    ensures r.Keys == if info.deprecated then {DeprecationHeader, LinkHeader, WarningHeader} else {}
    ensures info.deprecated ==>
      r[DeprecationHeader] == "true" && r[LinkHeader] == DeprecationLink && r[WarningHeader] == DeprecationWarning
  {
    HeaderNamesDistinct();
    if info.deprecated
    then map[DeprecationHeader := "true", LinkHeader := DeprecationLink, WarningHeader := DeprecationWarning]
    else map[]
  }

  /** The header set for a truthy sunset date. */
  function SunsetHeaders(info: VersionInfo): (r: map<string, string>)
    requires SunsetParses(info)
    ensures r.Keys == if HasSunset(info) then {SunsetHeader} else {}
    ensures HasSunset(info) ==>
      HttpDate.ParseImfFixdate(r[SunsetHeader]) == HttpDate.ParseIsoDate(info.sunsetDate.value)
  {
    if HasSunset(info) then map[SunsetHeader := SunsetValue(info.sunsetDate.value)] else map[]
  }

  /** The header set for a preview entry. */
  function StatusHeaders(info: VersionInfo): (r: map<string, string>)
    ensures r.Keys == if info.preview then {StatusHeader} else {}
    ensures info.preview ==> r[StatusHeader] == "Preview"
  {
    if info.preview then map[StatusHeader := "Preview"] else map[]
  }

  lemma DeprecationAssignments(h: map<string, string>, info: VersionInfo)
    ensures h + DeprecationHeaders(info) == if info.deprecated
      then h[DeprecationHeader := "true"][LinkHeader := DeprecationLink][WarningHeader := DeprecationWarning]
      else h
  {
  }

  lemma UpdateIsUnion(h: map<string, string>, k: string, v: string)
    ensures h[k := v] == h + map[k := v]
  {
  }

  lemma UnionIdempotent(h: map<string, string>, a: map<string, string>)
    ensures (h + a) + a == h + a
  {
  }

  lemma MapUnionAssoc(a: map<string, string>, b: map<string, string>, c: map<string, string>)
    ensures (a + b) + c == a + (b + c)
  {
    assert ((a + b) + c).Keys == (a + (b + c)).Keys;
    forall k | k in (a + b) + c
      ensures ((a + b) + c)[k] == (a + (b + c))[k]
    {
    }
  }

  /**
   * The headers `add_version_headers` assigns for a version's table entry:
   * each one is present exactly when its flag is truthy, and nothing else is
   * assigned.
   */
  function VersionHeaders(info: VersionInfo): (r: map<string, string>)
    requires SunsetParses(info)
    ensures r.Keys <= AnnotationHeaders
    ensures (DeprecationHeader in r <==> info.deprecated)
      && (LinkHeader in r <==> info.deprecated)
      && (WarningHeader in r <==> info.deprecated)
    ensures info.deprecated ==>
      r[DeprecationHeader] == "true" && r[LinkHeader] == DeprecationLink && r[WarningHeader] == DeprecationWarning
    ensures SunsetHeader in r <==> HasSunset(info)
    ensures HasSunset(info) ==>
      HttpDate.ParseImfFixdate(r[SunsetHeader]) == HttpDate.ParseIsoDate(info.sunsetDate.value)
    ensures StatusHeader in r <==> info.preview
    ensures info.preview ==> r[StatusHeader] == "Preview"
  {
    HeaderNamesDistinct();
    DeprecationHeaders(info) + (SunsetHeaders(info) + StatusHeaders(info))
  }

  /** The header map after annotation: the assigned headers overwrite; every header the entry does not assign stays. */
  function Annotate(headers: map<string, string>, table: VersionTable, v: ApiVersion): (r: map<string, string>)
    requires SunsetParses(InfoFor(table, v))
    ensures forall k :: k !in VersionHeaders(InfoFor(table, v)) ==> (k in r <==> k in headers)
    ensures forall k :: k !in VersionHeaders(InfoFor(table, v)) && k in headers ==> r[k] == headers[k]
    ensures forall k :: k in VersionHeaders(InfoFor(table, v)) ==>
      k in r && r[k] == VersionHeaders(InfoFor(table, v))[k]
  {
    headers + VersionHeaders(InfoFor(table, v))
  }

  /** Annotating twice gives the same headers as annotating once. */
  lemma AnnotateIdempotent(headers: map<string, string>, table: VersionTable, v: ApiVersion)
    requires SunsetParses(InfoFor(table, v))
    ensures Annotate(Annotate(headers, table, v), table, v) == Annotate(headers, table, v)
  {
    UnionIdempotent(headers, VersionHeaders(InfoFor(table, v)));
  }

  /** A version with no table entry, or with all flags falsy, leaves the headers unchanged. */
  lemma AnnotateWithoutFlags(headers: map<string, string>, table: VersionTable, v: ApiVersion)
    requires !InfoFor(table, v).deprecated && !HasSunset(InfoFor(table, v)) && !InfoFor(table, v).preview
    ensures Annotate(headers, table, v) == headers
  {
    assert VersionHeaders(InfoFor(table, v)) == map[];
  }

  /** With the shipped table: preview gets exactly `X-Version-Status: Preview`, latest gets nothing. */
  lemma ShippedAnnotation(headers: map<string, string>)
    ensures Annotate(headers, ShippedVersionInfo, V2024_10_Preview) == headers[StatusHeader := "Preview"]
    ensures Annotate(headers, ShippedVersionInfo, Latest) == headers
  {
    assert VersionHeaders(InfoFor(ShippedVersionInfo, V2024_10_Preview)) == map[StatusHeader := "Preview"];
    AnnotateWithoutFlags(headers, ShippedVersionInfo, Latest);
  }

  /** The table date 2024-05-01 and the `Sunset` value it yields. */
  lemma SunsetDateExample()
    ensures HttpDate.ParseIsoDate("2024-05-01") == Some(HttpDate.Date(2024, 5, 1))
    ensures SunsetValue("2024-05-01") == "Wed, 01 May 2024 00:00:00 GMT"
  {
    var d := HttpDate.Date(2024, 5, 1);
    assert HttpDate.ParseIsoDate("2024-05-01") == Some(d) by {
      HttpDate.PaddedExamples();
      assert Digits.PadDigits(5, 2) == Digits.PadDigits(0, 1) + "5";
      assert HttpDate.IsoDate(d) == "2024-05-01";
      HttpDate.IsoDateRoundTrip(d);
    }
    HttpDate.SunsetExample();
  }

  /** The headers of a deprecated entry with sunset date 2024-05-01, as unions. */
  lemma DeprecatedEntryHeaders(headers: map<string, string>, info: VersionInfo)
    requires info == VersionInfo(true, Some("2024-05-01"), false)
    ensures SunsetParses(info)
    ensures headers + (DeprecationHeaders(info) + (SunsetHeaders(info) + StatusHeaders(info))) ==
      headers[DeprecationHeader := "true"][LinkHeader := DeprecationLink][WarningHeader := DeprecationWarning]
             [SunsetHeader := "Wed, 01 May 2024 00:00:00 GMT"]
  {
    SunsetDateExample();
    var d := DeprecationHeaders(info);
    var sunset := SunsetHeaders(info);
    assert sunset == map[SunsetHeader := "Wed, 01 May 2024 00:00:00 GMT"];
    assert sunset + StatusHeaders(info) == sunset;
    MapUnionAssoc(headers, d, sunset);
    DeprecationAssignments(headers, info);
    UpdateIsUnion(headers + d, SunsetHeader, "Wed, 01 May 2024 00:00:00 GMT");
  }

  /** A deprecated entry with sunset date 2024-05-01 gets the deprecation trio and its IMF-fixdate. */
  lemma DeprecatedAnnotation(headers: map<string, string>)
    ensures var table := map[V2024_10_Preview := VersionInfo(true, Some("2024-05-01"), false)];
      SunsetParses(InfoFor(table, V2024_10_Preview)) &&
      Annotate(headers, table, V2024_10_Preview) ==
        headers[DeprecationHeader := "true"][LinkHeader := DeprecationLink][WarningHeader := DeprecationWarning]
               [SunsetHeader := "Wed, 01 May 2024 00:00:00 GMT"]
  {
    var table := map[V2024_10_Preview := VersionInfo(true, Some("2024-05-01"), false)];
    var info := InfoFor(table, V2024_10_Preview);
    assert info == VersionInfo(true, Some("2024-05-01"), false);
    DeprecatedEntryHeaders(headers, info);
  }

  /** The response whose headers are annotated in place. */
  class Response {
    var headers: map<string, string>

    constructor (headers: map<string, string>)
      ensures this.headers == headers
    {
      this.headers := headers;
    }
  }

  /** `add_version_headers`: assigns the version's headers on `response` in place. */
  method AddVersionHeaders(response: Response, table: VersionTable, currentVersion: ApiVersion)
    requires SunsetParses(InfoFor(table, currentVersion))
    modifies response
    ensures response.headers == Annotate(old(response.headers), table, currentVersion)
  {
    var info := InfoFor(table, currentVersion);
    ghost var h0 := response.headers;
    if info.deprecated {
      response.headers := response.headers[DeprecationHeader := "true"];
      response.headers := response.headers[LinkHeader := DeprecationLink];
      response.headers := response.headers[WarningHeader := DeprecationWarning];
    }
    ghost var h1 := response.headers;
    if HasSunset(info) {
      response.headers := response.headers[SunsetHeader := SunsetValue(info.sunsetDate.value)];
    }
    ghost var h2 := response.headers;
    if info.preview {
      response.headers := response.headers[StatusHeader := "Preview"];
    }
    AssignmentsAreUnions(h0, h1, h2, response.headers, info);
  }

  /** The three assignment blocks of `add_version_headers` add the three header groups in turn. */
  lemma AssignmentsAreUnions(h0: map<string, string>, h1: map<string, string>, h2: map<string, string>,
                             h3: map<string, string>, info: VersionInfo)
    requires SunsetParses(info)
    requires h1 == if info.deprecated
                   then h0[DeprecationHeader := "true"][LinkHeader := DeprecationLink][WarningHeader := DeprecationWarning]
                   else h0
    requires h2 == if HasSunset(info) then h1[SunsetHeader := SunsetValue(info.sunsetDate.value)] else h1
    requires h3 == if info.preview then h2[StatusHeader := "Preview"] else h2
    ensures h3 == h0 + (DeprecationHeaders(info) + (SunsetHeaders(info) + StatusHeaders(info)))
  {
    DeprecationAssignments(h0, info);
    if HasSunset(info) {
      UpdateIsUnion(h1, SunsetHeader, SunsetValue(info.sunsetDate.value));
    } else {
      assert h1 + SunsetHeaders(info) == h1;
    }
    if info.preview {
      UpdateIsUnion(h2, StatusHeader, "Preview");
    } else {
      assert h2 + StatusHeaders(info) == h2;
    }
    MapUnionAssoc(h0 + DeprecationHeaders(info), SunsetHeaders(info), StatusHeaders(info));
    MapUnionAssoc(h0, DeprecationHeaders(info), SunsetHeaders(info) + StatusHeaders(info));
  }

  /** A request resolved to the preview version leaves with `X-Version-Status: Preview`. */
  method PreviewRequestHeaders(response: Response)
    modifies response
    ensures response.headers == old(response.headers)[StatusHeader := "Preview"]
  {
    var resolved := GetApiVersion(Some("2024-10-preview"));
    AddVersionHeaders(response, ShippedVersionInfo, resolved.value);
    ShippedAnnotation(old(response.headers));
  }
}
