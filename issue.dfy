/** The payload for creating an issue, and the response the service gives back. */
module Issue {
  import opened Wrappers
  import opened Ascii

  /** Max length for an issue title. */
  const TitleMaxLength: nat := 125

  /** Max length for an issue body. */
  const ReportBodyMaxLength: nat := 65536

  const Ellipsis: string := "..."

  /** The stored fields are kept as given; `labels` is a nullable array. Truncation
      happens only when the title or body is read. */
  datatype CreateIssueRequest = CreateIssueRequest(
    repo: string, title: string, body: string, labels: Option<seq<string>>)
  {
    /** `getTitle()`: the title cut to 125 characters with a "..." suffix. */
    function Title(): (r: string)
      ensures |r| <= TitleMaxLength
      ensures |title| <= TitleMaxLength ==> r == title
      ensures |title| > TitleMaxLength ==>
        |r| == TitleMaxLength && r == title[..TitleMaxLength - 3] + "..."
    {
      Truncate(title, TitleMaxLength, Ellipsis)
    }

    /** `getBody()`: the body cut to 65536 characters with a "..." suffix. */
    function Body(): (r: string)
      ensures |r| <= ReportBodyMaxLength
      ensures |body| <= ReportBodyMaxLength ==> r == body
      ensures |body| > ReportBodyMaxLength ==>
        |r| == ReportBodyMaxLength && r == body[..ReportBodyMaxLength - 3] + "..."
    {
      Truncate(body, ReportBodyMaxLength, Ellipsis)
    }
  }

  datatype CreateIssueResponse = CreateIssueResponse(htmlUrl: string)

  /** A long title reads back ending in "...". */
  lemma LongTitleEndsWithEllipsis(request: CreateIssueRequest)
    requires |request.title| > TitleMaxLength
    ensures EndsWith(request.Title(), Ellipsis)
  {
  }

  /** A long body reads back ending in "...". */
  lemma LongBodyEndsWithEllipsis(request: CreateIssueRequest)
    requires |request.body| > ReportBodyMaxLength
    ensures EndsWith(request.Body(), Ellipsis)
  {
  }

  /** Storing the title as read and reading it again gives the same text. */
  lemma TitleIdempotent(request: CreateIssueRequest)
    ensures request.(title := request.Title()).Title() == request.Title()
  {
  }

  /** Storing the body as read and reading it again gives the same text. */
  lemma BodyIdempotent(request: CreateIssueRequest)
    ensures request.(body := request.Body()).Body() == request.Body()
  {
  }

  /** The stored title is never shortened; the read differs from it exactly when it
      is too long. */
  lemma TitleReadDiffersIffLong(request: CreateIssueRequest)
    ensures request.Title() != request.title <==> |request.title| > TitleMaxLength
  {
  }

  /** The request of the issue-creation example reads back unchanged. */
  lemma ExampleRequestUnchanged()
    ensures var request := CreateIssueRequest("test", "Test Issue", "example content",
                                              Some(["Error Report"]));
            request.Title() == "Test Issue" && request.Body() == "example content"
  {
  }
}
