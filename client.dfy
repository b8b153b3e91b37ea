/** The client facade: issue creation, branch lookup, latest-release lookup and the
    paginated repository listing of one organization. Every operation yields, beside
    its result, the calls it made to the Feign proxy, in order. */
module Client {
  import opened Wrappers
  import opened Headers
  import opened Decimal
  import opened Repo
  import opened Branch
  import opened Issue
  import opened Service
  import opened Pagination

  /** What an operation throws: a NullPointerException from an argument check (or from
      wrapping a null tag name), or the FeignException of the remote call. */
  datatype ClientError = NullPointer | Transport(cause: FeignError)

  /** The result of an operation and the requests of the Feign calls it made. */
  datatype Traced<T> = Traced(result: Result<T, ClientError>, requests: seq<HttpRequest>)

  function AsTransport(e: FeignError): ClientError {
    Transport(e)
  }

  const PerPage: string := "100"

  /** The query parameters of the request for page `pageNumber`. */
  function PageQuery(pageNumber: nat): (q: map<string, string>)
    ensures q.Keys == {"per_page", "page"}
    ensures q["per_page"] == PerPage
    ensures IsCanonical(q["page"]) && ParseDecimal(q["page"]) == pageNumber
  {
    ParseDecimalString(pageNumber);
    map[]["per_page" := PerPage]["page" := DecimalString(pageNumber)]
  }

  /** Different pages are asked for with different queries. */
  lemma PageQueryInjective(m: nat, n: nat)
    requires PageQuery(m) == PageQuery(n)
    ensures m == n
  {
  }

  datatype ExternalGithubClient = ExternalGithubClient(
    server: GithubServer, authToken: Option<string>, githubOrganization: string)
  {
    /** The request that goes on the wire for `endpoint`, with the interceptor's headers. */
    function Send(endpoint: Endpoint): HttpRequest {
      HttpRequest(endpoint, RequestHeaders(authToken))
    }

    /** Every request of `requests` carries the interceptor's headers. */
    predicate AllCarryHeaders(requests: seq<HttpRequest>) {
      forall i :: 0 <= i < |requests| ==> requests[i].headers == RequestHeaders(authToken)
    }

    /** `createIssue`: a null request is rejected before any call; otherwise the
        organization and the request's repo become the path and the request itself is
        the body, forwarded unchanged; a failed call propagates. */
    function CreateIssue(request: Option<CreateIssueRequest>): (t: Traced<CreateIssueResponse>)
      ensures request.None? ==> t.result == Failure(NullPointer) && t.requests == []
      ensures request.Some? ==> |t.requests| == 1
      ensures request.Some? ==>
        t.requests[0].endpoint == NewIssue(githubOrganization, request.value.repo, request.value)
      ensures request.Some? ==> t.result == server.newIssue(t.requests[0]).MapFailure(AsTransport)
      ensures AllCarryHeaders(t.requests)
    {
      if request.None? then Traced(Failure(NullPointer), [])
      else
        var sent := Send(NewIssue(githubOrganization, request.value.repo, request.value));
        Traced(server.newIssue(sent).MapFailure(AsTransport), [sent])
    }

    /** `fetchBranchInfo`: a null repository or branch name is rejected before any
        call; otherwise one call, whose failure propagates. */
    function FetchBranchInfo(repoName: Option<string>, branchName: Option<string>): (t: Traced<BranchInfoResponse>)
      ensures (repoName.None? || branchName.None?) ==> t.result == Failure(NullPointer) && t.requests == []
      ensures (repoName.Some? && branchName.Some?) ==> |t.requests| == 1
      ensures (repoName.Some? && branchName.Some?) ==>
        t.requests[0].endpoint == GetBranchInfo(githubOrganization, repoName.value, branchName.value)
      ensures (repoName.Some? && branchName.Some?) ==>
        t.result == server.getBranchInfo(t.requests[0]).MapFailure(AsTransport)
      ensures AllCarryHeaders(t.requests)
    {
      if repoName.None? || branchName.None? then Traced(Failure(NullPointer), [])
      else
        var sent := Send(GetBranchInfo(githubOrganization, repoName.value, branchName.value));
        Traced(server.getBranchInfo(sent).MapFailure(AsTransport), [sent])
    }

    /** The request `fetchLatestVersion` sends for repository `repo`. */
    function LatestReleaseRequest(repo: string): HttpRequest {
      Send(GetLatestRelease(githubOrganization, repo))
    }

    /** `fetchLatestVersion`: present with the tag name when the call succeeds, absent
        when it fails for any reason; the transport failure never reaches the caller.
        A null repository name is rejected before any call, and a release without a
        tag name makes `Optional.of` throw. */
    function FetchLatestVersion(repoName: Option<string>): (t: Traced<Option<string>>)
      ensures !(t.result.Failure? && t.result.error.Transport?)
      ensures repoName.None? ==> t.result == Failure(NullPointer) && t.requests == []
      ensures repoName.Some? ==> t.requests == [LatestReleaseRequest(repoName.value)]
      ensures repoName.Some? ==>
        (t.result == Success(None) <==> server.getLatestRelease(LatestReleaseRequest(repoName.value)).Failure?)
      ensures repoName.Some? ==> forall tag ::
        t.result == Success(Some(tag)) <==>
        server.getLatestRelease(LatestReleaseRequest(repoName.value)) == Success(LatestReleaseResponse(Some(tag)))
      ensures t.result == Failure(NullPointer) <==>
        repoName.None? || server.getLatestRelease(LatestReleaseRequest(repoName.value)) == Success(LatestReleaseResponse(None))
      ensures AllCarryHeaders(t.requests)
    {
      if repoName.None? then Traced(Failure(NullPointer), [])
      else
        var sent := LatestReleaseRequest(repoName.value);
        match server.getLatestRelease(sent)
        case Success(release) =>
          if release.tagName.None? then Traced(Failure(NullPointer), [sent])
          else Traced(Success(Some(release.tagName.value)), [sent])
        case Failure(_) => Traced(Success(None), [sent])
    }

    /** The request for page `pageNumber` of the organization's repositories. */
    function PageRequest(pageNumber: nat): (r: HttpRequest)
      ensures r.endpoint.ListRepos? && r.endpoint.org == githubOrganization
      ensures r.endpoint.queryParams.Keys == {"per_page", "page"}
      ensures r.endpoint.queryParams["per_page"] == PerPage
      ensures IsCanonical(r.endpoint.queryParams["page"]) && ParseDecimal(r.endpoint.queryParams["page"]) == pageNumber
      ensures r.headers == RequestHeaders(authToken)
    {
      Send(ListRepos(PageQuery(pageNumber), githubOrganization))
    }

    /** The organization's listing as a page source: page n is asked for with
        `PageRequest(n)` and answered by the server's listing endpoint. */
    function Pages(): PageSource<HttpRequest, RepositoryListing, FeignError> {
      PageSource(server.listRepos, pageNumber => PageRequest(pageNumber))
    }

    /** `listRepositories()`: pages 1, 2, 3, ... are asked for in order, with 100
        entries per page; the entries of every non-empty page are collected into a
        set, so an entry listed twice is kept once; the first empty page ends the
        listing and the set is returned; a failed page ends it with that failure and
        no partial set. */
    method ListRepositories() returns (result: Result<set<RepositoryListing>, ClientError>, requests: seq<HttpRequest>)
      requires Pages().EventuallyStops()
      ensures Pages().FirstStop(|requests|)
      ensures forall i :: 0 <= i < |requests| ==> requests[i] == PageRequest(i + 1)
      ensures result == Pages().Listing(|requests|).MapFailure(AsTransport)
      ensures result.Success? ==> forall x :: x in result.value <==>
        exists p :: 1 <= p < |requests| && Pages().Page(p).Success? && x in Pages().Page(p).value
      ensures Pages().Page(1) == Success([]) ==> result == Success({}) && |requests| == 1
      ensures AllCarryHeaders(requests)
    {
      var collected;
      collected, requests := CollectPages(Pages());
      result := collected.MapFailure(AsTransport);
      if Pages().Page(1) == Success([]) {
        assert Pages().FirstStop(1);
        Pages().FirstStopUnique(1, |requests|);
      }
    }
  }
}
