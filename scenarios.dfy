/** The client tests, restated over stub servers. A stub answers the requests it was
    set up for and answers 404 to anything else. */
module Scenarios {
  import opened Wrappers
  import opened Headers
  import opened Repo
  import opened Branch
  import opened Issue
  import opened Service
  import opened Client

  const Org: string := "example-org"
  const Token: string := "test-token"
  const NotFound: FeignError := FeignError(404, "no stub matches")

  function Tutorial(): RepositoryListing {
    RepositoryListing("https://github.com/triplea-maps/tutorial", "tutorial")
  }

  function Enhanced(): RepositoryListing {
    RepositoryListing("https://github.com/triplea-maps/aa_enhanced_revised", "aa_enhanced_revised")
  }

  function RomanInvasion(): RepositoryListing {
    RepositoryListing("https://github.com/triplea-maps/roman_invasion", "roman_invasion")
  }

  /** True when the request carries the configured token, as the stubs demand. */
  predicate HasToken(request: HttpRequest) {
    Values(request.headers, Authorization) == [AuthorizationValue(Token)]
  }

  /** Page 1 lists two repositories, page 2 one new repository and one already listed,
      page 3 is empty. The three repositories are the ones the listing test expects;
      how they are spread over the pages, and the repository listed twice, are chosen
      here to exercise de-duplication. */
  function ListingServer(): GithubServer {
    GithubServer(
      _ => Failure(NotFound),
      _ => Failure(NotFound),
      _ => Failure(NotFound),
      (request: HttpRequest) =>
        if request.endpoint == ListRepos(PageQuery(1), Org) then Success([Tutorial(), Enhanced()])
        else if request.endpoint == ListRepos(PageQuery(2), Org) then Success([RomanInvasion(), Tutorial()])
        else if request.endpoint == ListRepos(PageQuery(3), Org) then Success([])
        else Failure(NotFound))
  }

  function ListingClient(): ExternalGithubClient {
    ExternalGithubClient(ListingServer(), None, Org)
  }

  /** The stub's answers as the client asks for pages 1 to 3. */
  lemma ListingPages()
    ensures ListingClient().Pages().Page(1) == Success([Tutorial(), Enhanced()])
    ensures ListingClient().Pages().Page(2) == Success([RomanInvasion(), Tutorial()])
    ensures ListingClient().Pages().Page(3) == Success([])
  {
  }

  /** Page 3 is the first page that ends the listing. */
  lemma ListingStopsAtThree()
    ensures ListingClient().Pages().FirstStop(3)
    ensures ListingClient().Pages().PagesSucceed(2)
  {
    var pages := ListingClient().Pages();
    ListingPages();
    forall p | 1 <= p < 3
      ensures !pages.Stops(p)
    {
      assert p == 1 || p == 2;
    }
    pages.StopsBeforeSucceed(3);
  }

  /** The repository listing: three distinct repositories from three page requests,
      with the repository listed on both pages kept once. */
  method RepoListingScenario() {
    var client := ListingClient();
    var pages := client.Pages();
    ListingStopsAtThree();
    var result, requests := client.ListRepositories();
    pages.FirstStopUnique(|requests|, 3);
    assert |requests| == 3;
    ListingPages();
    assert pages.PagesUnion(2) == {Tutorial(), Enhanced(), RomanInvasion()};
    assert result == Success({Tutorial(), Enhanced(), RomanInvasion()});
    pages.RepeatedEntryCollapses(2, 1, 2, Tutorial());
    assert pages.ListedCount(2) == 4;
  }

  function ReleaseServer(found: bool): GithubServer {
    GithubServer(
      _ => Failure(NotFound),
      _ => Failure(NotFound),
      (request: HttpRequest) =>
        if found && request.endpoint == GetLatestRelease(Org, "map-repo") && HasToken(request)
        then Success(LatestReleaseResponse(Some("2.5.22294")))
        else Failure(NotFound),
      _ => Failure(NotFound))
  }

  /** The latest release is found and its tag returned. */
  lemma LatestReleaseScenario()
    ensures ExternalGithubClient(ReleaseServer(true), Some(Token), Org).FetchLatestVersion(Some("map-repo")).result
         == Success(Some("2.5.22294"))
  {
  }

  /** A 404 for the release becomes an absent version, not an error. */
  lemma MissingReleaseScenario()
    ensures ExternalGithubClient(ReleaseServer(false), Some(Token), Org).FetchLatestVersion(Some("map-repo")).result
         == Success(None)
  {
  }

  const ExampleIssue: CreateIssueRequest :=
    CreateIssueRequest("test", "Test Issue", "example content", Some(["Error Report"]))

  function IssueServer(): GithubServer {
    GithubServer(
      (request: HttpRequest) =>
        if request.endpoint == NewIssue(Org, "test", ExampleIssue) && HasToken(request)
        then Success(CreateIssueResponse("https://github.com/triplea-game/test/issues/65"))
        else Failure(NotFound),
      _ => Failure(NotFound),
      _ => Failure(NotFound),
      _ => Failure(NotFound))
  }

  /** Creating the example issue posts to the "test" repository and returns the link. */
  lemma CreateIssueScenario()
    ensures ExternalGithubClient(IssueServer(), Some(Token), Org).CreateIssue(Some(ExampleIssue)).result
         == Success(CreateIssueResponse("https://github.com/triplea-game/test/issues/65"))
  {
  }

  const ExampleBranch: BranchInfoResponse :=
    BranchInfoResponse(LastCommit(Commit(CommitDetails("2021-02-04T19:30:32Z"))))

  function BranchServer(): GithubServer {
    GithubServer(
      _ => Failure(NotFound),
      (request: HttpRequest) =>
        if request.endpoint == GetBranchInfo(Org, "map-repo", "master") && HasToken(request)
        then Success(ExampleBranch)
        else Failure(NotFound),
      _ => Failure(NotFound),
      _ => Failure(NotFound))
  }

  /** The branch lookup returns the response whose nested author date is the commit's. */
  lemma BranchInfoScenario()
    ensures var t := ExternalGithubClient(BranchServer(), Some(Token), Org).FetchBranchInfo(Some("map-repo"), Some("master"));
      t.result.Success? && t.result.value.LastCommitDateText() == "2021-02-04T19:30:32Z"
  {
  }
}
