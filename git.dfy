/** The store's side of its conversation with the repository: the operation context
    (`GitContext`) that says which phases an operation needs and accumulates its commit
    message, and the repository commands the store issues, recorded in order. */
module Git {
  import opened Wrappers
  import opened Types

  /** One piece appended to the commit message. The list of removed configuration files
      is kept as a set because the source prints a `HashSet`, whose order is unspecified. */
  datatype MessagePart =
    | Note(text: string)
    | RemovedConfigurations(files: set<string>, profileId: string)

  /** Which phases an operation requires, which of them have run, and the commit
      message so far. */
  datatype GitContext = GitContext(
    requirePull: bool,
    requireCommit: bool,
    requirePush: bool,
    pulled: bool,
    committed: bool,
    pushed: bool,
    message: seq<MessagePart>)

  /** `new GitContext()`: nothing required, nothing run, empty message. */
  function NewContext(): GitContext {
    GitContext(false, false, false, false, false, false, [])
  }

  function SetRequirePull(c: GitContext, pull: bool): GitContext {
    c.(requirePull := pull)
  }

  function RequireCommit(c: GitContext): GitContext {
    c.(requireCommit := true)
  }

  function RequirePush(c: GitContext): GitContext {
    c.(requirePush := true)
  }

  /** `context.commitMessage(text)`: appends to the message. */
  function AddMessage(c: GitContext, part: MessagePart): GitContext {
    c.(message := c.message + [part])
  }

  /** `getCommitMessage().length() == 0`: every part appended so far was empty text. */
  predicate MessageEmpty(c: GitContext) {
    forall i :: 0 <= i < |c.message| ==> c.message[i] == Note("")
  }

  /** `incrementPullCount()` (and the commit and push analogues): a phase may run only
      if the context requires it and it has not run yet; on success the phase is marked
      as run. */
  function ClaimPull(c: GitContext): Option<GitContext> {
    if c.requirePull && !c.pulled then Some(c.(pulled := true)) else None
  }

  function ClaimCommit(c: GitContext): Option<GitContext> {
    if c.requireCommit && !c.committed then Some(c.(committed := true)) else None
  }

  function ClaimPush(c: GitContext): Option<GitContext> {
    if c.requirePush && !c.pushed then Some(c.(pushed := true)) else None
  }

  /** The claim rule: a phase can be claimed iff the context requires it and it has not
      run yet; the claim marks the phase as run and changes nothing else. */
  lemma ClaimRule(c: GitContext)
    ensures ClaimPull(c).Some? <==> c.requirePull && !c.pulled
    ensures ClaimCommit(c).Some? <==> c.requireCommit && !c.committed
    ensures ClaimPush(c).Some? <==> c.requirePush && !c.pushed
    ensures ClaimPull(c).Some? ==> ClaimPull(c).value.pulled && ClaimPull(c).value.(pulled := c.pulled) == c
    ensures ClaimCommit(c).Some? ==> ClaimCommit(c).value.committed && ClaimCommit(c).value.(committed := c.committed) == c
    ensures ClaimPush(c).Some? ==> ClaimPush(c).value.pushed && ClaimPush(c).value.(pushed := c.pushed) == c
  {
  }

  /** Each phase can be claimed at most once per context. */
  lemma ClaimOnce(c: GitContext)
    ensures ClaimPull(c).Some? ==> ClaimPull(ClaimPull(c).value).None?
    ensures ClaimCommit(c).Some? ==> ClaimCommit(ClaimCommit(c).value).None?
    ensures ClaimPush(c).Some? ==> ClaimPush(ClaimPush(c).value).None?
  {
  }

  /** The repository commands the store issues (JGit calls), in the order issued. */
  datatype GitCommand =
    | ResetHard
    | Fetch(remote: string)
    | DeleteBranch(branch: string)
    | CreateTrackingBranch(branch: string, startPoint: string)
    | CleanDirectories
    | ForceCheckout(branch: string)
    | MergeTheirs(branch: string, commit: CommitId)
    | AddAll
    | Commit(message: seq<MessagePart>)
    | CollectGarbage
    | PushAll
    | RemoveBranch(branch: string)
    | CheckoutBranch(branch: string)
    | CreateOrCheckoutBranch(branch: string, remote: string)
    | WriteVersionAttributes(attributes: map<string, string>)
    | AddFiles(profileId: string, paths: set<string>)
    | RemoveFiles(profileId: string, paths: set<string>)
    | RemoveDirectory(profileId: string)
}
