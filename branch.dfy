/** The response of the branches endpoint, kept in the nested shape of the JSON
    (`commit.commit.author.date`). */
module Branch {

  datatype CommitDetails = CommitDetails(date: string)
  datatype Commit = Commit(author: CommitDetails)
  datatype LastCommit = LastCommit(commit: Commit)

  datatype BranchInfoResponse = BranchInfoResponse(commit: LastCommit) {
    /** The ISO-8601 text of the last commit's author date, the value that
        `getLastCommitDate` hands to the instant parser. The date is all the
        response holds: nesting it again gives the response back. */
    function LastCommitDateText(): (date: string)
      ensures BranchInfoResponse(LastCommit(Commit(CommitDetails(date)))) == this
    {
      commit.commit.author.date
    }
  }
}
