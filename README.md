# uv-workspaces API and user-service core, in Dafny

This project models the decision logic of the `api` and `app` packages of the
uv-workspaces repository and proves properties of it:

- **API versions** (`wrappers.dfy`, `digits.dfy`, `http_date.dfy`, `api_version.dfy`). The
  `ApiVersion` string enumeration, the resolution of the optional
  `x-api-version` request header (`get_api_version`), and `add_version_headers`:
  it looks the version up in the `VERSION_INFO` table and assigns the
  `Deprecation`/`Link`/`Warning`, `Sunset` and `X-Version-Status` headers on
  the response in place. The `Sunset` value is an IMF-fixdate (section 7.1.1.1
  of RFC 7231) computed from a `YYYY-MM-DD` string with proleptic-Gregorian
  calendar arithmetic; its formatting and its parsing are proved to be
  inverses.
- **OpenAPI rewrite** (`openapi_doc.dfy`, `shared_openapi.dfy`,
  `custom_openapi.dfy`). The two revisions of `custom_openapi_func`. The
  generated document is an input value and the cache is an option-typed field
  of an `App` object. The first revision prepends an inline version parameter
  to every operation. The second installs one shared `ApiVersionHeader`
  component, strips stale `x-api-version` parameters case-insensitively and
  prepends a `$ref` to it. Both replace `servers`. The nested loops are
  methods proved against the functions that specify them.
- **Endpoint registry** (`posix_path.dfy`, `endpoints.dfy`, `api_path.dfy`).
  `PurePosixPath` normalisation as `Endpoint.__post_init__` applies it, child
  lookup with its `AttributeError`, the `ApiEndpoints` table and
  `get_all_endpoints`, and the `get_api_path` test helper.
- **User service** (`user_service.dfy`). `UserService` over a repository
  class that keeps users in a map from id to user. Every service operation
  preserves the invariant that no two stored users share an email.

The semantics of the Python standard library that the code relies on is
written out where it matters:

- `str.split('/')`, and the POSIX root rule of `PurePosixPath`: exactly two
  leading slashes stay `//`, while one, or three or more, become `/`;
- `datetime.toordinal`/`weekday`, and `strptime`/`strftime` for the two
  formats used;
- `dict` assignment, which overwrites rather than appends;
- the truthiness of `None`, `""` and missing keys.

Where the code and the surrounding documentation disagree, the model follows
the code. Three cases stand out:

- The repository follows `packages/app/src/repositories/base_repo.py`,
  because its method names (`find_by_id`, `find_all`, `update(id, document)`)
  match the calls `user_service.py` makes. The `UserRepository` that
  `user_service.py` imports, from `user_repo.py`, extends
  `base_repository.py` instead. That class has no `find_by_id` or
  `find_all`; it offers `get_by_id` and `find_many`, and its
  `update(id, update_dict)` takes a dictionary of fields. Under
  `base_repo.py`, the update checks `modified_count`, so it returns nothing
  when the stored record already equals the update. `update_user` with
  unchanged data then raises `UserNotFoundError` even for a known id, and
  `UserService.UserService.UpdateUser` states this case.
- The unit tests in `packages/app/src/services/test_user_service.py` are
  written against a different `UserService` revision, and the model does not
  follow them.
- `find_active_users`, which `get_active_users` calls, is defined in none of
  the repository classes shown. It is modelled as the filter on `is_active`
  that its name describes.

## Model

| member | source | states |
|---|---|---|
| ApiVersioning.Value | packages/api/src/_lib/shared.py:14-15 | each member's string value; only LATEST has the value `"latest"` |
| ApiVersioning.AllValues | packages/api/src/_lib/shared.py:12-15 | the values of the members, in declaration order, with every member's value listed |
| ApiVersioning.ValueInjective | packages/api/src/_lib/shared.py:12-15 | distinct members have distinct values |
| ApiVersioning.FromValue | packages/api/src/_lib/shared.py:35 | `ApiVersion(s)` finds the member whose value is exactly `s`, and fails exactly when no member has that value |
| ApiVersioning.GetApiVersion | packages/api/src/_lib/shared.py:31-37 | an absent header gives LATEST; a present header succeeds iff some member has exactly that value, and then resolves to that member; every failure is 400 "Invalid API version" |
| ApiVersioning.DefaultResolution | packages/api/src/_lib/shared.py:32-33 | an absent header and `"latest"` both resolve to LATEST |
| ApiVersioning.ResolveRoundTrip | packages/api/src/_lib/shared.py:12-35 | resolving any member's value gives back that member |
| ApiVersioning.ResolveRejects | packages/api/src/_lib/shared.py:34-37 | every string that is no member's value fails with 400, with no fallback to a default |
| ApiVersioning.ResolveExamples | packages/api/src/_lib/shared.py:31-37 | `"2024-10-preview"` resolves to the preview member; `""`, `"LATEST"` and an unknown string are rejected |
| ApiVersioning.HeaderNamesDistinct | packages/api/src/_lib/shared.py:44-57 | the five header names assigned are pairwise distinct |
| ApiVersioning.InfoFor | packages/api/src/_lib/shared.py:41 | `VERSION_INFO.get(v, {})`: the table entry when present; otherwise every flag reads as falsy and there is no sunset date |
| ApiVersioning.SunsetValue | packages/api/src/_lib/shared.py:52-54 | the `Sunset` value is a 29-character IMF-fixdate ending in ` 00:00:00 GMT` that parses back to the date read from the `YYYY-MM-DD` string |
| ApiVersioning.DeprecationHeaders | packages/api/src/_lib/shared.py:43-50 | a deprecated entry yields exactly `Deprecation: true`, the fixed `Link` and the `Warning`; otherwise nothing |
| ApiVersioning.SunsetHeaders | packages/api/src/_lib/shared.py:52-54 | a truthy sunset date yields exactly a `Sunset` header whose date is that sunset date; otherwise nothing |
| ApiVersioning.StatusHeaders | packages/api/src/_lib/shared.py:56-57 | a preview entry yields exactly `X-Version-Status: Preview`; otherwise nothing |
| ApiVersioning.VersionHeaders | packages/api/src/_lib/shared.py:41-57 | the headers for a version's table entry: only the five known names; each header is present iff the entry's flag is set, with the fixed values and the sunset date |
| ApiVersioning.Annotate | packages/api/src/_lib/shared.py:40-57 | every header the version's entry does not assign is kept with its value, whether or not it is one of the five names, and no other header is added; each header `VersionHeaders` gives the entry is present with that value, overwriting any earlier value |
| ApiVersioning.AnnotateIdempotent | packages/api/src/_lib/shared.py:43-57 | the assignments overwrite, so annotating twice equals annotating once |
| ApiVersioning.AnnotateWithoutFlags | packages/api/src/_lib/shared.py:41 | a version with no entry, or with no flag set, leaves the header map unchanged |
| ApiVersioning.ShippedAnnotation | packages/api/src/_lib/shared.py:18-57 | with the shipped table, the preview version gains exactly `X-Version-Status: Preview` and LATEST changes nothing |
| ApiVersioning.SunsetDateExample | packages/api/src/_lib/shared.py:52-54 | `"2024-05-01"` is read as 1 May 2024 and rendered as `Wed, 01 May 2024 00:00:00 GMT` |
| ApiVersioning.DeprecatedEntryHeaders | packages/api/src/_lib/shared.py:43-54 | for a deprecated entry with sunset 2024-05-01, the three header groups combine into the four assignments of the source |
| ApiVersioning.DeprecatedAnnotation | packages/api/src/_lib/shared.py:43-54 | a deprecated entry with sunset 2024-05-01 sets `Deprecation`, `Link`, `Warning` and `Sunset: Wed, 01 May 2024 00:00:00 GMT` and nothing else |
| ApiVersioning.AddVersionHeaders | packages/api/src/_lib/shared.py:40-57 | the headers of the response after the in-place assignments equal `Annotate` of the headers before |
| ApiVersioning.AssignmentsAreUnions | packages/api/src/_lib/shared.py:43-57 | the three assignment blocks, run in order, add the deprecation, sunset and status header groups to the map |
| ApiVersioning.PreviewRequestHeaders | packages/api/src/_lib/shared.py:23-57 | a request resolved from `"2024-10-preview"` leaves with exactly `X-Version-Status: Preview` added |
| HttpDate.Ordinal | packages/api/src/_lib/shared.py:54 | `date.toordinal()`: 0001-01-01 is day 1 and every valid date lies between day 1 and day 3652059 (9999-12-31) |
| HttpDate.Weekday | packages/api/src/_lib/shared.py:54 | `date.weekday()` behind `%a`: a day of the week from 0 (Monday) to 6, which `NextDayOrdinal` and `KnownWeekdays` pin to the calendar |
| HttpDate.DaysInMonth | packages/api/src/_lib/shared.py:53 | month lengths lie between 28 and 31 days, and a month has 29 days iff it is February of a leap year |
| HttpDate.DaysBeforeYearStep | packages/api/src/_lib/shared.py:53-54 | the day count before year y+1 is the count before y plus the length of y |
| HttpDate.NextDayOrdinal | packages/api/src/_lib/shared.py:54 | the next calendar day is valid, its ordinal is one more, and its weekday is the next weekday |
| HttpDate.KnownWeekdays | packages/api/src/_lib/shared.py:54 | 1 January 1970 is a Thursday and 1 May 2024 is a Wednesday |
| Digits.ParsePadDigits | packages/api/src/_lib/shared.py:53-54 | a number below 10^w, zero-padded to w digits, parses back to the number |
| Digits.PadParseDigits | packages/api/src/_lib/shared.py:53-54 | a digit string is the zero-padded form of the number it parses to |
| HttpDate.IsoDate | packages/api/src/_lib/shared.py:53 | the `%Y-%m-%d` form of a date is 10 characters with `-` at positions 4 and 7 |
| HttpDate.ParseIsoDate | packages/api/src/_lib/shared.py:53 | `strptime(..., "%Y-%m-%d")` accepts only valid calendar dates |
| HttpDate.IsoDateRoundTrip | packages/api/src/_lib/shared.py:53 | parsing the `YYYY-MM-DD` form of a valid date gives that date back |
| HttpDate.ParseIsoDateCanonical | packages/api/src/_lib/shared.py:53 | every string the parser accepts is the canonical `YYYY-MM-DD` form of the date it yields |
| HttpDate.MonthNumber | packages/api/src/_lib/shared.py:54 | a month abbreviation is recognised iff it is one of the twelve, and it maps to its month |
| HttpDate.ImfFixdate | packages/api/src/_lib/shared.py:54 | `%a, %d %b %Y %H:%M:%S GMT` at midnight: the weekday name, the two-digit day, the month name, the four-digit year and ` 00:00:00 GMT`, at fixed positions |
| HttpDate.ParseImfFixdate | packages/api/src/_lib/shared.py:54 | the IMF-fixdate reader yields only valid dates |
| HttpDate.ImfFixdateRoundTrip | packages/api/src/_lib/shared.py:54 | parsing the IMF-fixdate of a valid date gives that date back |
| HttpDate.ParseImfFixdateCanonical | packages/api/src/_lib/shared.py:54 | an accepted IMF-fixdate string is exactly the rendering of the date it yields, including the right weekday |
| HttpDate.ImfFixdateInjective | packages/api/src/_lib/shared.py:54 | distinct dates render as distinct `Sunset` values |
| HttpDate.SunsetExample | packages/api/src/_lib/shared.py:52-54 | 1 May 2024 renders as `Wed, 01 May 2024 00:00:00 GMT` |
| SharedOpenApi.InlineVersionParam | packages/api/src/_lib/shared.py:79-90 | the inline parameter is the optional header `X-API-VERSION` with a string enum of the two member values |
| SharedOpenApi.AugmentOperation | packages/api/src/_lib/shared.py:78-91 | the parameters become the inline parameter followed by the old list (empty if absent); the other operation fields are kept |
| SharedOpenApi.Augmented | packages/api/src/_lib/shared.py:76-98 | the rewritten document keeps the path keys, components and other fields, and has servers `[{"url": "/api"}]` |
| SharedOpenApi.AugmentOperations | packages/api/src/_lib/shared.py:77-91 | the loop over the methods of a path item rewrites each operation as `AugmentOperation` does |
| SharedOpenApi.AugmentAllPaths | packages/api/src/_lib/shared.py:76-91 | the loop over the paths rewrites each path item, keeping the keys |
| SharedOpenApi.CustomOpenApiFunc | packages/api/src/_lib/shared.py:61-100 | a cached schema is returned unchanged; otherwise the generated document is rewritten, cached and returned |
| SharedOpenApi.CallTwice | packages/api/src/_lib/shared.py:64-100 | two calls on an empty cache return the same document, rewritten once |
| SharedOpenApi.RewrittenOperation | packages/api/src/_lib/shared.py:76-91 | every operation's parameters become the inline parameter followed by its old parameters |
| SharedOpenApi.NoDeduplication | packages/api/src/_lib/shared.py:78-91 | a second rewrite would prepend a second inline parameter: there is no deduplication |
| CustomOpenApi.VersionHeaderComponent | packages/api/src/_lib/custom_openapi.py:30-40 | the shared component is the required header `x-api-version`, with enum `["2024-10-preview", "latest"]`, default `"latest"` and its description |
| CustomOpenApi.Lower | packages/api/src/_lib/custom_openapi.py:51 | lower-casing keeps the length and maps each character as `LowerChar` does |
| OpenApiDoc.NameOrEmpty | packages/api/src/_lib/custom_openapi.py:51 | `param.get("name", "")`: a `$ref`, like an inline parameter without `name`, reads as `""` |
| OpenApiDoc.ParametersOrEmpty | packages/api/src/_lib/custom_openapi.py:57 | `method.get("parameters", [])`: the list when present, otherwise empty |
| CustomOpenApi.StripVersionParams | packages/api/src/_lib/custom_openapi.py:47-52 | a parameter survives iff its name does not lower-case to `x-api-version` |
| CustomOpenApi.StripAppend | packages/api/src/_lib/custom_openapi.py:48-52 | the filter distributes over concatenation, so the survivors keep their relative order |
| CustomOpenApi.StripKeepsClean | packages/api/src/_lib/custom_openapi.py:48-52 | a list with no version parameter passes the filter unchanged |
| CustomOpenApi.StripIdempotent | packages/api/src/_lib/custom_openapi.py:48-52 | filtering twice equals filtering once |
| CustomOpenApi.AugmentOperation | packages/api/src/_lib/custom_openapi.py:46-57 | the parameters become the `$ref` followed by the old parameters that survive the filter; after the first entry no version parameter remains; the length is one plus the survivors |
| CustomOpenApi.AugmentComponents | packages/api/src/_lib/custom_openapi.py:28-41 | `components.parameters` becomes exactly the one `ApiVersionHeader` entry; other component keys are kept, and a missing `components` becomes empty |
| CustomOpenApi.Augmented | packages/api/src/_lib/custom_openapi.py:28-60 | the rewritten document keeps the path keys and other fields, rewrites every operation with `AugmentOperation`, carries the components with the `ApiVersionHeader` parameter installed (`AugmentComponents`), and has servers `[{"url": "/api"}]` |
| CustomOpenApi.AugmentOperations | packages/api/src/_lib/custom_openapi.py:45-57 | the loop over the methods of a path item rewrites each operation as `AugmentOperation` does |
| CustomOpenApi.AugmentAllPaths | packages/api/src/_lib/custom_openapi.py:44-57 | the loop over the paths rewrites each path item, keeping the keys |
| CustomOpenApi.CustomOpenApiFunc | packages/api/src/_lib/custom_openapi.py:12-63 | a cached schema is returned unchanged; otherwise the generated document is rewritten, cached and returned |
| CustomOpenApi.CallTwice | packages/api/src/_lib/custom_openapi.py:15-63 | two calls on an empty cache return the same document, rewritten once |
| CustomOpenApi.RewrittenOperation | packages/api/src/_lib/custom_openapi.py:44-57 | every operation's parameters become the `$ref` followed by its surviving old parameters in their old order, and an operation without parameters gets just the `$ref` |
| CustomOpenApi.SingleReference | packages/api/src/_lib/custom_openapi.py:54-57 | an operation that did not already reference the component ends with exactly one `$ref`, in first place |
| CustomOpenApi.CaseInsensitiveMatch | packages/api/src/_lib/custom_openapi.py:51 | the match ignores case (`X-API-VERSION`, `X-Api-Version`) and the parameter location, and rejects other names |
| CustomOpenApi.NamelessSurvives | packages/api/src/_lib/custom_openapi.py:51 | a parameter without a `name`, such as a `$ref`, is never filtered out |
| CustomOpenApi.OperationRewrittenTwice | packages/api/src/_lib/custom_openapi.py:47-57 | rewriting an operation twice leaves two `$ref` entries before the surviving parameters |
| CustomOpenApi.NotIdempotent | packages/api/src/_lib/custom_openapi.py:15-57 | the document rewrite is not idempotent; only the cache stops a second application |
| PosixPath.Split | packages/api/src/_lib/endpoints.py:17 | splitting on `/` gives at least one piece, none of which contains `/` |
| PosixPath.JoinSplit | packages/api/src/_lib/endpoints.py:17 | joining the pieces with `/` gives the string back |
| PosixPath.SplitJoin | packages/api/src/_lib/endpoints.py:17 | splitting a join of slash-free pieces gives the pieces back |
| PosixPath.Root | packages/api/src/_lib/endpoints.py:17 | the root is `""`, `/` or `//`, is a prefix of the path, and is empty iff the path does not start with `/` |
| PosixPath.KeepPartsMembers | packages/api/src/_lib/endpoints.py:17 | a segment is kept iff it occurs and is neither empty nor `.` |
| PosixPath.Parts | packages/api/src/_lib/endpoints.py:17 | the segments after the root are non-empty, not `.` and slash-free |
| PosixPath.Normalize | packages/api/src/_lib/endpoints.py:17 | `str(PurePosixPath(path))`: never empty, starting with the input's root, with no trailing slash unless it is the bare root and no two slashes in a row after the root; `NormalizeKeepsStructure`, `NormalizeClean` and `NormalizeIdempotent` add that root and segments are kept, no empty or `.` segment remains, and normalising twice equals once |
| PosixPath.NormalizeKeepsStructure | packages/api/src/_lib/endpoints.py:17 | the normalised path has the same root and the same segments as the input |
| PosixPath.NormalizeIdempotent | packages/api/src/_lib/endpoints.py:17 | normalising twice equals normalising once |
| PosixPath.NormalizeClean | packages/api/src/_lib/endpoints.py:17 | the normalised path is non-empty, ends in `/` only when it is `/` or `//`, has no repeated slash after the root, and has no empty or `.` segment |
| PosixPath.DotDotKept | packages/api/src/_lib/endpoints.py:17 | `..` segments are not resolved: every `..` of the input remains |
| PosixPath.NormalizeRootAlone | packages/api/src/_lib/endpoints.py:17 | `/` stays `/`, and the empty path becomes `.` |
| PosixPath.NormalizeTrailingSlash | packages/api/src/_lib/endpoints.py:17 | the trailing slash of `/users/` is removed |
| PosixPath.NormalizeCollapses | packages/api/src/_lib/endpoints.py:17 | in `a//b/./c/` the repeated slash collapses, `.` is dropped and the trailing slash goes, giving `a/b/c` |
| PosixPath.NormalizeDoubleRoot | packages/api/src/_lib/endpoints.py:17 | exactly two leading slashes are kept; three collapse to one |
| PosixPath.NormalizeKeepsDotDot | packages/api/src/_lib/endpoints.py:17 | `a/../b` is already normal |
| Endpoints.MakeEndpoint | packages/api/src/_lib/endpoints.py:12-17 | the stored path is normal and has the root and segments of the given path; the routes are kept |
| Endpoints.GetAttr | packages/api/src/_lib/endpoints.py:19-23 | the `__getattr__` fallback succeeds iff the name is a route and then returns that route; otherwise the error reads `'Endpoint' has no route '<name>'` |
| Endpoints.SingleSegmentNormal | packages/api/src/_lib/endpoints.py:29-46 | a one-segment absolute path is already normal |
| Endpoints.RegistryPaths | packages/api/src/_lib/endpoints.py:29-42 | each of the seven registry endpoints keeps the literal path it is declared with (`/`, `/api`, `/docs`, `/openapi.json`, `/debug`, `/hello`, `/users`), because each is already normal; `ROOT` and `API` have no routes |
| Endpoints.SlashEndpoint | packages/api/src/_lib/endpoints.py:37-44 | a child endpoint on `/` is `/` with no routes |
| Endpoints.NameEndpoint | packages/api/src/_lib/endpoints.py:38 | the child endpoint `/{name}` keeps its path and has no routes |
| Endpoints.HelloRoutes | packages/api/src/_lib/endpoints.py:34-40 | `HELLO.ROOT` is `/` and `HELLO.NAME` is `/{name}` |
| Endpoints.UsersRoutes | packages/api/src/_lib/endpoints.py:41-46 | `USERS.ROOT` is `/`, and every other child name fails |
| Endpoints.ApiHasNoUsers | packages/api/src/_lib/endpoints.py:23-30 | an example of `GetAttr`'s failure case: `API.USERS` fails with `'Endpoint' has no route 'USERS'` |
| Endpoints.GetAllEndpoints | packages/api/src/_lib/endpoints.py:48-55 | a name is listed iff its attribute is an endpoint and the name does not start with `_`, with that endpoint as value |
| Endpoints.IgnoredAttribute | packages/api/src/_lib/endpoints.py:54 | a private attribute or a non-endpoint attribute is not listed |
| Endpoints.ListedAttribute | packages/api/src/_lib/endpoints.py:54 | a public endpoint attribute is listed with its value |
| Endpoints.ListedPublic | packages/api/src/_lib/endpoints.py:29-54 | the seven endpoint attributes, added to a namespace that lists nothing, are listed under their names |
| Endpoints.ListedTrailer | packages/api/src/_lib/endpoints.py:48-55 | the `get_all_endpoints` method and the `__dict__`/`__weakref__` entries add nothing to the listing |
| Endpoints.ListedNamespace | packages/api/src/_lib/endpoints.py:26-55 | the class namespace lists exactly its seven endpoints |
| Endpoints.RegisteredEndpoints | packages/api/src/_lib/endpoints.py:29-55 | `get_all_endpoints` returns exactly `ROOT`, `API`, `DOCS`, `OPENAPI`, `DEBUG`, `HELLO` and `USERS` |
| ApiPath.GetApiPath | packages/api/src/test_utils/api_path.py:4-6 | the result is `"/api" + path`: it starts with `/api`, ends with `path` and is four characters longer |
| ApiPath.GetApiPathInjective | packages/api/src/test_utils/api_path.py:6 | distinct paths give distinct API paths |
| ApiPath.GetApiPathExamples | packages/api/src/test_utils/api_path.py:6 | `/users` gives `/api/users`; slashes in the argument are neither added nor collapsed |
| UserService.Decimal | packages/app/src/services/user_service.py:24 | the id in an error message is a non-empty string of digits |
| UserService.DecimalRoundTrip | packages/app/src/services/user_service.py:24 | the decimal form of an id reads back as the id |
| UserService.DuplicateEmail | packages/app/src/services/user_service.py:17 | the error is a `DuplicateEmailError` whose message is `User with email `, the email, then ` already exists` |
| UserService.UserNotFound | packages/app/src/services/user_service.py:24 | the error is a `UserNotFoundError` whose message is `User with id `, digits that read back as the id, then ` not found` |
| UserService.UserNotFoundInjective | packages/app/src/services/user_service.py:24 | different ids give different not-found errors |
| UserService.DuplicateEmailInjective | packages/app/src/services/user_service.py:17 | different emails give different duplicate-email errors |
| UserService.StoreKeepsUnique | packages/app/src/services/user_service.py:13-45 | storing a user whose email no other entry holds keeps the stored emails pairwise distinct |
| UserService.EmailOwnerUnique | packages/app/src/services/user_service.py:35-41 | with unique emails, an email names at most one stored user |
| UserService.UserRepository.FindByEmail | packages/app/src/repositories/user_repo.py:16-17 | a user is found iff some stored user has the email, and the one found is stored and has it |
| UserService.UserRepository.FindById | packages/app/src/repositories/base_repo.py:42-44 | the stored user under the id, or nothing when the id is absent |
| UserService.UserRepository.FindAll | packages/app/src/repositories/base_repo.py:46-49 | every stored user and nothing else, with no user listed twice, so one entry per stored id |
| UserService.UserRepository.FindActiveUsers | packages/app/src/services/user_service.py:52-53 | exactly the stored users that are active, with no user listed twice |
| UserService.UserRepository.Create | packages/app/src/repositories/base_repo.py:51-53 | the user is stored under a fresh id and returned with that id |
| UserService.UserRepository.Update | packages/app/src/repositories/base_repo.py:55-62 | the stored record is replaced and returned iff the id is present and the record changes; otherwise nothing is written and nothing returned |
| UserService.UserRepository.Delete | packages/app/src/repositories/base_repo.py:64-66 | the entry is removed, and the result says whether it existed |
| UserService.UserService.CreateUser | packages/app/src/services/user_service.py:13-19 | a taken email fails with `DuplicateEmailError` and changes nothing; otherwise the user is stored under a fresh id and returned; emails stay unique |
| UserService.UserService.GetUser | packages/app/src/services/user_service.py:21-25 | the stored user for a known id, `UserNotFoundError` for an unknown one |
| UserService.UserService.GetUsers | packages/app/src/services/user_service.py:27-28 | every stored user once, with nothing changed |
| UserService.UserService.UpdateUser | packages/app/src/services/user_service.py:30-45 | an unknown id fails first with nothing written; a changed email held by another user fails with `DuplicateEmailError` and nothing written; otherwise the record is replaced and returned, or `UserNotFoundError` when it was already equal; emails stay unique |
| UserService.UserService.DeleteUser | packages/app/src/services/user_service.py:47-50 | an unknown id fails with nothing removed; a known id is removed and `true` returned |
| UserService.UserService.GetActiveUsers | packages/app/src/services/user_service.py:52-53 | exactly the stored users that are active, each once |

## Left out

- FastAPI plumbing is not modelled. This covers `Header`/`Depends` injection, routers, application start-up and logging. `get_openapi` is represented by the document it yields, held in `App.generated`.
- The `try`/`except` around the rewrite only logs and re-raises, so the model has no error path there. Exceptions raised by the dictionary code itself, such as a non-dict operation, are not modelled.
- Async execution and concurrent population of the schema cache are not modelled; the cache is a sequential `Option` field.
- ApiVersioning.GetApiVersion: header values arrive as strings; FastAPI's case-insensitive header lookup happens before the function and is not modelled.
- ApiVersioning.Annotate: response headers are a plain map with case-sensitive names. Starlette's case-insensitive header store is not modelled.
- The upgrade target inside the `Warning` text is a fixed constant (`latest`). The f-string rendering of a `str` enumeration member differs across Python releases.
- ApiVersioning.SunsetHeaders: the table's sunset date must be a canonical zero-padded `YYYY-MM-DD` valid date. `strptime` would also accept unpadded fields, and raises on anything invalid; neither is modelled.
- HttpDate.ParseIsoDate: only the zero-padded `YYYY-MM-DD` form is accepted. `strptime` with `%Y-%m-%d` also accepts unpadded fields such as `2024-5-1`, and raises only on strings that name no calendar day; those extra accepted spellings are not modelled.
- HttpDate.ImfFixdate: the year is always padded to four digits. Some C libraries do not pad `%Y` for years below 1000, so such years may render differently.
- The shipped `VERSION_INFO` has no deprecated or sunset entries. The model takes the table as a parameter so that those branches are covered.
- The cache test is `Option`-based: a cached schema that Python would find falsy, an empty dict, counts as present here.
- Path items are maps from method to operation. Non-operation keys that OpenAPI allows inside a path item, such as `summary` or a path-level `parameters` list, are not modelled.
- The enumeration values in the first revision's inline parameter are the members' string values, the form they take once serialised to JSON.
- CustomOpenApi.Lower: lower-casing is ASCII-only. For comparison with the ASCII name `x-api-version` this decides the same as `str.lower`, except for non-ASCII characters that lower-case to `k`, which does not occur in the name.
- Endpoints.MakeEndpoint: `__post_init__` overwrites the freshly created `path` field. The model is a value built already normalised, so the moment before normalisation is not represented.
- `PurePosixPath` is modelled only as far as `str(PurePosixPath(p))` goes. Other path operations are not modelled.
- Endpoints.RegisteredEndpoints: `vars(cls)` is modelled as a map from attribute name to either an endpoint or some other value. Dictionary order is not modelled.
- MongoDB/Motor persistence is replaced by an in-memory map. Ids are natural numbers from a counter, in place of `ObjectId`/`TypeID` strings. The invalid-id error that `ObjectId(id)` raises on a malformed string is therefore not modelled.
- UserService.UserService.UpdateUser: the branch where a known id with an unchanged record raises `UserNotFoundError` exists only under the `modified_count` update of `base_repo.py`. The `base_repository.py` update that the imported `UserRepository` inherits calls `find_one_and_update` with `return_document=True`, which returns the matched document for every stored id whether or not a field changed. Its `updated_at` assignment only keeps the `$set` from being empty. That behaviour is not modelled.
- UserService.UserRepository.Update: the update replaces the email, name and active flag. Partial updates through `exclude_unset`, and the `created_at`/`updated_at` timestamps and their clock, are not modelled.
- UserService.UserRepository.FindAll: the order of the returned users is not specified, because the database order is not part of the model.
- Pydantic validation of users (email format, 422 responses) is not modelled.
