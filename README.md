# GitHub web-API client: a Dafny model

This project models the core of a small Java client for GitHub's web API.
It covers two pieces that carry real logic.

- **The client facade** (`ExternalGithubClient`):
  - `listRepositories()` pages through an organization's repositories. It asks for page 1, 2, 3, … with `per_page=100`, collects the entries into a set and stops at the first empty page.
  - `fetchLatestVersion` turns any failure of the remote call into an absent value.
  - `createIssue` and `fetchBranchInfo` check their arguments for null and forward them.
  - A request interceptor adds `Content-Type` and `Accept` headers, set to `application/json`, to every request. It adds `Authorization: token <t>` only when a token is configured.
- **The issue payload** (`CreateIssueRequest`): its title and body getters truncate to 125 and 65536 characters with a `"..."` suffix. The truncation follows the documented contract of Guava's `Ascii.truncate`.

The remote server is an oracle: the datatype `Service.GithubServer`.
- It has one total function per endpoint.
- Each function maps the HTTP request sent (endpoint with path and query parameters, plus headers) to the decoded response or to a transport failure (`FeignError`, the FeignException).
- Every facade operation returns its result together with the calls it made to the Feign proxy, in order; one trace entry is one Feign call. This makes "no call is made", "exactly k pages are requested" and "every call carries these headers" statable.
- Java references that may be null are `Option` values.
- A thrown exception is a `Failure`: `NullPointer` for `Preconditions.checkNotNull` and `Optional.of(null)`, `Transport` for a FeignException.

Modules:
- `Wrappers`: Option and Result.
- `Ascii`: Guava's truncation routine.
- `Decimal`: `String.valueOf` of a page number, and its inverse.
- `Repo`, `Branch`, `Issue`: the data records.
- `Headers`: the interceptor and a request template that it mutates in place.
- `Service`: the endpoints and the server oracle.
- `Pagination`: the listing loop over an abstract page source.
- `Client`: the facade.
- `Scenarios`: the unit tests, restated over stub servers.

The listing loop is a method that keeps loop invariants. It is written once, over a generic page source (`Pagination.CollectPages`). `Client.ExternalGithubClient.ListRepositories` runs it with the client's page request and the server's listing endpoint.

Three behaviours of the code worth noting:
- The title and body are stored in full and truncated only when read through the getters.
- `fetchLatestVersion` also rejects a null repository name.
- `fetchLatestVersion` throws a NullPointerException when the release has no tag name, because it calls `Optional.of(null)`.

## Model

| member | source | states |
|---|---|---|
| Ascii.Truncate | src/main/java/org/triplea/github/client/issue/CreateIssueRequest.java:28-34 | Results are never longer than the maximum. A string that fits is returned unchanged. A longer one comes back exactly the maximum long, as a prefix of the input followed by the indicator. |
| Ascii.TruncateIdempotent | src/main/java/org/triplea/github/client/issue/CreateIssueRequest.java:29 | Truncating an already truncated string changes nothing. |
| Ascii.TruncateUnchangedIff | src/main/java/org/triplea/github/client/issue/CreateIssueRequest.java:29 | Truncation leaves a string unchanged exactly when it fits (both directions). |
| Ascii.TruncatedShape | src/main/java/org/triplea/github/client/issue/CreateIssueRequest.java:29 | A too-long string becomes its first max-minus-indicator characters followed by the indicator. |
| Issue.CreateIssueRequest.Title | src/main/java/org/triplea/github/client/issue/CreateIssueRequest.java:16-30 | `getTitle()` is at most 125 characters. A title that fits is returned unchanged. A longer one is its first 122 characters followed by "..." (exactly 125). |
| Issue.CreateIssueRequest.Body | src/main/java/org/triplea/github/client/issue/CreateIssueRequest.java:32-34 | `getBody()` obeys the same three laws with bound 65536 and prefix length 65533. |
| Issue.LongTitleEndsWithEllipsis | src/main/java/org/triplea/github/client/issue/CreateIssueRequest.java:28-30 | A title over 125 characters reads back ending in "...". |
| Issue.LongBodyEndsWithEllipsis | src/main/java/org/triplea/github/client/issue/CreateIssueRequest.java:32-34 | A body over 65536 characters reads back ending in "...". |
| Issue.TitleIdempotent | src/main/java/org/triplea/github/client/issue/CreateIssueRequest.java:29 | Storing the read title and reading again gives the same title. |
| Issue.BodyIdempotent | src/main/java/org/triplea/github/client/issue/CreateIssueRequest.java:33 | Storing the read body and reading again gives the same body. |
| Issue.TitleReadDiffersIffLong | src/main/java/org/triplea/github/client/issue/CreateIssueRequest.java:22-30 | The stored title is kept whole. The getter differs from it exactly when it exceeds 125 characters. |
| Issue.ExampleRequestUnchanged | src/test/java/org/triplea/github/client/GithubClientTest.java:152-158 | The test's request reads back with title "Test Issue" and body "example content" unchanged. |
| Decimal.DecimalString | src/main/java/org/triplea/github/client/ExternalGithubClient.java:95 | `String.valueOf` of a page number is a non-empty string of digits without a leading zero. |
| Decimal.ParseDecimalString | src/main/java/org/triplea/github/client/ExternalGithubClient.java:95 | Reading the page parameter back as a decimal number gives the page number. |
| Decimal.CanonicalRoundTrip | src/main/java/org/triplea/github/client/ExternalGithubClient.java:95 | Every digit string without a leading zero is the rendering of its value, so the rendering is the unique canonical one. |
| Decimal.DecimalStringInjective | src/main/java/org/triplea/github/client/ExternalGithubClient.java:95 | Different page numbers give different page parameters. |
| Client.PageQuery | src/main/java/org/triplea/github/client/ExternalGithubClient.java:92-96 | The page query has exactly the keys `per_page` and `page`. `per_page` is "100". `page` is a canonical decimal string whose value is the page number. |
| Client.PageQueryInjective | src/main/java/org/triplea/github/client/ExternalGithubClient.java:92-97 | Different pages are asked for with different queries. |
| Headers.AppendHeaderLaw | src/main/java/org/triplea/github/client/ExternalGithubClient.java:47-50 | Adding a header appends one value to that header and leaves every other header unchanged. |
| Headers.InterceptedHeadersLaw | src/main/java/org/triplea/github/client/ExternalGithubClient.java:45-52 | The interceptor appends "application/json" to Content-Type and to Accept. It appends "token " + t to Authorization only when a token t is configured. Nothing else changes. |
| Headers.InterceptedHeaders | src/main/java/org/triplea/github/client/ExternalGithubClient.java:46-51 | After the interceptor, Content-Type and Accept are present, and every header the template had keeps its values, with new values only added at the end. |
| Headers.RequestHeaders | src/main/java/org/triplea/github/client/ExternalGithubClient.java:46-51 | The headers of every call are exactly Content-Type and Accept, plus Authorization when a token is set, each with one value. |
| Headers.RequestHeadersLaw | src/main/java/org/triplea/github/client/ExternalGithubClient.java:46-52 | Each request sends Content-Type and Accept set to application/json. It sends an Authorization header "token " + t exactly when a token t is set. No other header is sent. |
| Headers.RequestTemplate.Header | src/main/java/org/triplea/github/client/ExternalGithubClient.java:47-50 | The template's headers become the old headers with the value appended to the named header. |
| Headers.Intercept | src/main/java/org/triplea/github/client/ExternalGithubClient.java:45-52 | The mutated template's headers are the interceptor's function of the old headers and the token. |
| Headers.InterceptFresh | src/main/java/org/triplea/github/client/ExternalGithubClient.java:46-51 | A fresh template mutated in place by the interceptor ends with exactly the headers the facade sends on every call. |
| Pagination.CollectPages | src/main/java/org/triplea/github/client/ExternalGithubClient.java:80-90 | Pages are requested as 1, 2, … k, one request each, where k is the first page that is empty or fails. The result is page k's failure, or the set of entries of pages 1..k-1. An element is in the set exactly when it is on one of those pages. |
| Pagination.PageSource.FirstStopUnique | src/main/java/org/triplea/github/client/ExternalGithubClient.java:83-88 | The first ending page is unique, so the server's answers fix the number of requests. |
| Pagination.PageSource.PagesUnionMembership | src/main/java/org/triplea/github/client/ExternalGithubClient.java:81-86 | An entry is in the union of pages 1..k exactly when some page among them lists it. |
| Pagination.PageSource.PagesUnionSize | src/main/java/org/triplea/github/client/ExternalGithubClient.java:81-86 | The collected set never has more entries than the pages list together. |
| Pagination.PageSource.RepeatedEntryCollapses | src/main/java/org/triplea/github/client/repo/RepositoryListing.java:13-23 | An entry listed on two different pages is kept once, so the set is strictly smaller than the total listed. |
| Client.ExternalGithubClient.PageRequest | src/main/java/org/triplea/github/client/ExternalGithubClient.java:92-97 | The call for page n goes to the repository listing of the client's organization, with `per_page` "100" and a `page` parameter that is the canonical decimal string (digits only, no leading zero) of n, and carries the interceptor's headers. |
| Client.ExternalGithubClient.ListRepositories | src/main/java/org/triplea/github/client/ExternalGithubClient.java:80-98 | The k `listRepos` calls are exactly the page requests for pages 1..k, each with the fixed headers. k is the first page that is empty or fails. The result is the union of pages 1..k-1, or page k's transport failure with no partial set. An empty page 1 gives the empty set after one request. |
| Client.ExternalGithubClient.CreateIssue | src/main/java/org/triplea/github/client/ExternalGithubClient.java:65-69 | A null request fails with NullPointer and sends nothing. Otherwise exactly one `newIssue` call is made, addressed to the client's organization and `request.repo`, with the request forwarded unchanged. Its outcome is returned, and a failure propagates as Transport. |
| Client.ExternalGithubClient.FetchBranchInfo | src/main/java/org/triplea/github/client/ExternalGithubClient.java:101-105 | A null repository or branch name fails with NullPointer and sends nothing. Otherwise exactly one `getBranchInfo` call is made, with the organization, repository and branch as path parameters. Its response or its transport failure is returned. |
| Client.ExternalGithubClient.FetchLatestVersion | src/main/java/org/triplea/github/client/ExternalGithubClient.java:108-117 | A transport failure never reaches the caller. The result is Some(tag) exactly when the call returns a release with that tag, and None exactly when the call fails. NullPointer comes exactly from a null repository name (no call made) or a release without a tag; a null decoded response is not modelled. |
| Branch.BranchInfoResponse.LastCommitDateText | src/main/java/org/triplea/github/client/branch/BranchInfoResponse.java:23-24 | The text handed to the date parser is the nested `commit.commit.author.date`; it is all the response holds, so nesting it again gives the response back. |
| Scenarios.ListingStopsAtThree | src/test/java/org/triplea/github/client/GithubClientTest.java:38-46 | With pages 1 and 2 stubbed non-empty and page 3 empty, page 3 is the first page that ends the listing. |
| Scenarios.LatestReleaseScenario | src/test/java/org/triplea/github/client/GithubClientTest.java:110-129 | A stubbed release with tag "2.5.22294", served only to requests with the test token, gives Some("2.5.22294"). |
| Scenarios.MissingReleaseScenario | src/main/java/org/triplea/github/client/ExternalGithubClient.java:110-116 | A 404 from the release endpoint gives an absent version and no error. |
| Scenarios.CreateIssueScenario | src/test/java/org/triplea/github/client/GithubClientTest.java:131-160 | Creating the test's issue posts to repository "test" with the token and returns the stubbed html URL. |
| Scenarios.BranchInfoScenario | src/test/java/org/triplea/github/client/GithubClientTest.java:86-107 | The branch lookup returns the stubbed response, whose nested author date text is "2021-02-04T19:30:32Z". |

`Scenarios.RepoListingScenario` follows the repository-listing test (GithubClientTest.java:36-77) as a method: pages 1 and 2 are non-empty, page 3 is empty, and the result has the test's three repositories after three requests. The test reads its page contents from JSON resources that are not part of this model, so `ListingServer`'s pages were chosen for the model. One repository is listed on both pages on purpose, to exercise de-duplication; this overlap and the resulting four listed entries do not come from the test. That method has no contract of its own; its asserts are checked by the verifier.

## Left out

- Feign and Jackson are out of scope. This covers the builder wiring, URI targeting, `{org}/{repo}` path interpolation and JSON encoding and decoding. On the wire, Jackson writes the issue payload through `getTitle()` and `getBody()`, so GitHub only receives the truncated text; the `NewIssue` endpoint value carries the stored request, and the oracle is not restricted to reading it through the getters. A request is kept as a structured endpoint value, and the server oracle stands for the HTTP exchange. Headers Feign adds itself, such as Content-Length, are not modelled. The query parameters are an unordered map, so the order in which `HashMap` hands them to Feign (`per_page` before `page`, which the test's exact-URL stubs depend on) is not modelled.
- One trace entry is one call to the Feign proxy, not one HTTP exchange. Feign's default retryer can re-send a call after an I/O error or a reply with `Retry-After` (so a re-sent POST could create an issue twice); those retries happen inside the server oracle. The oracle also never answers a 2xx reply with a null decoded response, so the NullPointerException that `getTagName()` or `repos.isEmpty()` would then throw is not modelled.
- Client.ExternalGithubClient.FetchLatestVersion: its NullPointer cases are the null repository name and a release without a tag; a null decoded release, which Java would also dereference, is not in the oracle's range.
- Feign treats header names case-insensitively and can expand `{…}` templates in header values. Neither is modelled: the token is taken literally and names are compared exactly.
- Headers.AppendHeaderLaw: `AppendHeader` always appends. Recent Feign versions of `RequestTemplate.header` replace `Content-Type` instead of appending, keep values without duplicates and drop blank values. This does not change `Headers.RequestHeadersLaw`, which starts from an empty template and sets three distinct names once each, but `Headers.InterceptedHeadersLaw` over an arbitrary starting template is a property of the model only.
- `BranchInfoResponse.getLastCommitDate()` parses the date with `Instant.parse`, which is library code. The model keeps the nested date text (`LastCommitDateText`). A null anywhere in the nested chain is not modelled either.
- `RepositoryListing.getUri()` is left out because it is library URI parsing.
- Logging in `fetchLatestVersion` is left out.
- The static factories of `GithubClient` are left out. They only fix the API URI and an organization name.
- `Client.ExternalGithubClient.ListRepositories` requires that some page comes back empty or fails. With no such page the Java loop never terminates, and that case is not modelled.
- Client.ExternalGithubClient.ListRepositories: the page number is an unbounded natural. Java's `int` would wrap after 2^31-1 non-empty pages, which the model does not capture.
- Ascii.Truncate: lengths count Dafny characters (Unicode scalar values) rather than UTF-16 code units. For text outside the Basic Multilingual Plane, the Java lengths differ, and truncation can split a surrogate pair.
- The `@Data` setters of `CreateIssueRequest` are not modelled; the request is an immutable value. That the getters leave `repo`, `title`, `body` and `labels` unchanged therefore holds by construction. `Issue.TitleReadDiffersIffLong` shows that the stored title stays whole.
- The null path of `CreateIssueRequest` is not modelled. Lombok reads `@Nonnull` on `repo`, `title` and `body` as a not-null marker, so the generated all-args constructor, `build()` and the setters throw a NullPointerException on a null value. Only the no-args constructor leaves these fields null, and then `getTitle()`/`getBody()` throw from the null check inside `Ascii.truncate`. The model takes `repo`, `title` and `body` as non-null strings.
- Of the response fields, only `tag_name` is nullable in the model, because the code hands it to `Optional.of`, which rejects a null.
- Concurrency is out of scope: the client issues its calls one after another, and nothing is shared between calls.
