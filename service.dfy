/** The remote GitHub web API as the client sees it: the four endpoints it calls, the
    HTTP request it sends for each, and the server's answers. The server is an oracle:
    each endpoint is a total function from the request sent to either the decoded
    response or the transport failure (non-2xx status, connection or decode error)
    that Feign raises as a FeignException. */
module Service {
  import opened Wrappers
  import opened Headers
  import opened Repo
  import opened Branch
  import opened Issue

  /** A FeignException: the HTTP status (or -1 when none was received) and the detail. */
  datatype FeignError = FeignError(status: int, detail: string)

  /** The endpoint a request addresses, with its path and query parameters. */
  datatype Endpoint =
    | NewIssue(org: string, repo: string, issue: CreateIssueRequest)   // POST /repos/{org}/{repo}/issues
    | GetBranchInfo(org: string, repo: string, branch: string)         // GET /repos/{org}/{repo}/branches/{branch}
    | GetLatestRelease(org: string, repo: string)                      // GET /repos/{org}/{repo}/releases/latest
    | ListRepos(queryParams: map<string, string>, org: string)         // GET /orgs/{org}/repos

  datatype HttpRequest = HttpRequest(endpoint: Endpoint, headers: Headers)

  datatype GithubServer = GithubServer(
    newIssue: HttpRequest -> Result<CreateIssueResponse, FeignError>,
    getBranchInfo: HttpRequest -> Result<BranchInfoResponse, FeignError>,
    getLatestRelease: HttpRequest -> Result<LatestReleaseResponse, FeignError>,
    listRepos: HttpRequest -> Result<seq<RepositoryListing>, FeignError>)
}
