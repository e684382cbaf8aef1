/** Entities shared by the store's modules. Commit ids are the hexadecimal names JGit
    prints; file contents are opaque to the store and kept as strings. */
module Types {

  type CommitId = string

  /** The bytes of one configuration file; the store never looks inside them. */
  type Content = string

  /** The branch that is never treated as a version (`MASTER_BRANCH`). */
  const MASTER_BRANCH: string := "master"

  /** Commits between two repository compactions (`MAX_COMMITS_WITHOUT_GC`). */
  const MAX_COMMITS_WITHOUT_GC: int := 40

  /** A profile: its own file configurations (relative path to content), the structured
      configurations derived from them, the last-modified marker and the parent profiles
      in declared order. The same shape serves the profiles callers hand in for writing
      and the resolved profiles the loader builds. */
  datatype Profile = Profile(
    version: string,
    id: string,
    files: map<string, Content>,
    configurations: map<string, map<string, string>>,
    lastModified: string,
    parents: seq<Profile>)

  /** A version as the cache holds it: its id, its attributes and its profiles. */
  datatype Version = Version(id: string, attributes: map<string, string>, profiles: seq<Profile>)
}
