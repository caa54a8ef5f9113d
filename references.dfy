/**
 * A reference to a model on the HuggingFace hub: `owner/repo`, optionally
 * pinned to a content commit.
 */
module References {
  import opened Wrappers

  datatype ModelReference = ModelReference(owner: string, repo: string, commitSha: Option<string>)
}
