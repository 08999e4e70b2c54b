/**
  What the pages hand to each other: the repository and file records the
  analysis returns, and the snapshot kept under the `repoData` key of the
  browser's session storage. Serialising the snapshot to JSON and parsing it
  back is taken to give the same snapshot.
*/
module Handoff {
  import opened Outcome

  /** A file record as listed by the backend; only `path` is used by the logic. */
  datatype RepoFile = RepoFile(path: string, size: Option<int>)

  /** The repository record of an analysis. */
  datatype RepoInfo = RepoInfo(owner: string, name: string, fullName: string, htmlUrl: string)

  /** The answer of the repository analysis. */
  datatype AnalysisResult = AnalysisResult(repository: RepoInfo, files: seq<RepoFile>, totalFiles: nat)

  /** The stored snapshot. `preSelected` is present when the snapshot was
      written by the repository page (`generateMode` is then `selective`). */
  datatype Snapshot = Snapshot(
    repoUrl: string, repository: RepoInfo, files: seq<RepoFile>, totalFiles: nat, preSelected: Option<seq<string>>)

  /** The single `repoData` slot of session storage. */
  class SessionStorage {
    var repoData: Option<Snapshot>

    constructor()
      ensures repoData == None
    {
      repoData := None;
    }
  }
}
