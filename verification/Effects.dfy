/**
 The remote effects a pull request review attempts, each with its outcome. A merge
 names no commit: `head` is the one that is the head when GitHub performs it.
 */
module Effects {
  import opened GitHub

  datatype Effect =
    | UpdateBranch(ok: bool)
    | Approve(ok: bool)
    | Merge(mergeMethod: MergeMethod, head: string, ok: bool)
    | AddComment(ok: bool)
}
