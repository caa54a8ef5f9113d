/** Recording the identity of a pushed model: `export_model`'s reference update. */
module Export {
  import opened Wrappers
  import opened References

  /**
   * `export_model`: the push itself is a foreign call; `commitOid` is the
   * `oid` of the commit it returns. The reference keeps owner and repository
   * and is pinned to that commit.
   */
  function ExportModel(pushRef: ModelReference, commitOid: string): (r: ModelReference)
    ensures r.owner == pushRef.owner && r.repo == pushRef.repo
    ensures r.commitSha == Some(commitOid)
  {
    pushRef.(commitSha := Some(commitOid))
  }

  /** The reference with its commit dropped: the `owner/repo` it names. */
  function Unpinned(ref: ModelReference): ModelReference
  {
    ref.(commitSha := None)
  }

  /**
   * Exporting only adds information: the exported reference names the same
   * repository, and exporting to it again with the same commit changes nothing.
   */
  lemma ExportRefines(pushRef: ModelReference, commitOid: string)
    ensures Unpinned(ExportModel(pushRef, commitOid)) == Unpinned(pushRef)
    ensures ExportModel(ExportModel(pushRef, commitOid), commitOid) == ExportModel(pushRef, commitOid)
  {
  }
}
