/** The repository-side response models. */
module Repo {
  import opened Wrappers

  /** One entry of an organization's repository listing. Equality is by value on both
      fields, as the generated equals/hashCode give it, so two entries with the same
      URL and name are the same element of a set. */
  datatype RepositoryListing = RepositoryListing(htmlUrl: string, name: string)

  /** The latest release of a repository; `tagName` is null when the JSON has no
      `tag_name` key. */
  datatype LatestReleaseResponse = LatestReleaseResponse(tagName: Option<string>)
}
