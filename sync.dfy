/** The decisions of the synchronization engine, free of state: what a pull does with
    each branch name, when a merge counts as a change, and the commit countdown that
    schedules repository compaction. */
module Sync {
  import opened Wrappers
  import opened Text
  import opened Types
  import opened Refs
  import opened Git

  /** JGit's merge outcomes; only `AlreadyUpToDate` is told apart by the store. */
  datatype MergeStatus = AlreadyUpToDate | FastForward | Merged | MergedNotCommitted | Conflicting | Failed | Aborted

  /** How the fetch ended; a failure carries the exception message, which may be null. */
  datatype FetchOutcome = Fetched | FetchFailed(message: Option<string>)

  /** What the repository reports during one pull or push: the configured remote URL,
      the fetch outcome, the full ref list after the fetch, the status of merging the
      remote ref into each branch, and the number of diff entries between two commit
      trees. A failing push is swallowed by the store, so its outcome is not part of it. */
  datatype Remote = Remote(
    url: Option<string>,
    fetch: FetchOutcome,
    refs: seq<Ref>,
    mergeStatus: string -> MergeStatus,
    diffEntries: (CommitId, CommitId) -> nat)

  /** Local and remote-tracking branches by name. */
  datatype Branches = Branches(local: map<string, CommitId>, remote: map<string, CommitId>)

  function BranchesOf(refs: seq<Ref>, remoteName: string): Branches {
    Branches(Heads(refs, remoteName), Tracked(refs, remoteName))
  }

  function Names(b: Branches): set<string> {
    b.local.Keys + b.remote.Keys
  }

  /** `isCommitEqual`: reference-or-value equality, null equal only to null. */
  predicate IsCommitEqual(a: Option<CommitId>, b: Option<CommitId>) {
    a == b
  }

  /** `hasChanged`: two commits differ in content when their ids differ and the diff
      between their trees has at least one entry. */
  function HasChanged(before: CommitId, after: CommitId, diffEntries: (CommitId, CommitId) -> nat): (r: bool)
    ensures r ==> before != after
    ensures before != after ==> (r <==> diffEntries(before, after) > 0)
  {
    if IsCommitEqual(Some(before), Some(after)) then false
    else diffEntries(before, after) > 0
  }

  /** What the pull does with one branch name. */
  datatype Action =
    | Untouched
    | DeleteLocal
    | CreateLocal
    | SameCommit
    | Merge(remoteCommit: CommitId, counted: bool)

  predicate Changes(a: Action) {
    a.DeleteLocal? || a.CreateLocal? || (a.Merge? && a.counted)
  }

  /** The per-name decision of `doPullInternal`. */
  function Decide(name: string, b: Branches, doDelete: bool, r: Remote): Action
    requires name in Names(b)
  {
    if b.remote == map[] then Untouched
    else if name !in b.remote then
      if doDelete && name != MASTER_BRANCH then DeleteLocal else Untouched
    else if name !in b.local then CreateLocal
    else if b.local[name] == b.remote[name] then SameCommit
    else
      var local, remote := b.local[name], b.remote[name];
      Merge(remote, r.mergeStatus(name) != AlreadyUpToDate && HasChanged(local, remote, r.diffEntries))
  }

  /** The repository commands issued for one name. */
  function CommandsFor(name: string, a: Action, remoteName: string): seq<GitCommand> {
    match a
    case DeleteLocal => [DeleteBranch(name)]
    case CreateLocal => [CreateTrackingBranch(name, remoteName + "/" + name)]
    case Merge(commit, _) => [CleanDirectories, ForceCheckout("HEAD"), ForceCheckout(name), MergeTheirs(name, commit)]
    case _ => []
  }

  /** The names among `done` that the pull deletes, creates, or counts as changed. */
  function DeletedIn(b: Branches, doDelete: bool, r: Remote, done: set<string>): set<string>
    requires done <= Names(b)
  {
    set v | v in done && Decide(v, b, doDelete, r).DeleteLocal?
  }

  function CreatedIn(b: Branches, doDelete: bool, r: Remote, done: set<string>): set<string>
    requires done <= Names(b)
  {
    set v | v in done && Decide(v, b, doDelete, r).CreateLocal?
  }

  function ChangedIn(b: Branches, doDelete: bool, r: Remote, done: set<string>): set<string>
    requires done <= Names(b)
  {
    set v | v in done && Changes(Decide(v, b, doDelete, r))
  }

  /** The version-id set once the names in `done` are handled: deleted names leave,
      created names other than master join. */
  function VersionsAfter(versions: set<string>, b: Branches, doDelete: bool, r: Remote, done: set<string>): set<string>
    requires done <= Names(b)
  {
    (versions - DeletedIn(b, doDelete, r, done)) + (CreatedIn(b, doDelete, r, done) - {MASTER_BRANCH})
  }

  /** Whether the whole pull reports a change. */
  predicate PullReports(r: Remote, remoteName: string, doDelete: bool) {
    var b := BranchesOf(r.refs, remoteName);
    !IsNullOrBlank(r.url) && r.fetch.Fetched? && ChangedIn(b, doDelete, r, Names(b)) != {}
  }

  /** A local branch is deleted exactly when the remote side is non-empty, lacks the
      name, deletion is enabled and the name is not master. */
  lemma DeleteExactly(name: string, b: Branches, doDelete: bool, r: Remote)
    requires name in Names(b)
    ensures Decide(name, b, doDelete, r) == DeleteLocal <==>
      b.remote != map[] && name !in b.remote && doDelete && name != MASTER_BRANCH
  {
  }

  /** With deletion disabled, as on every pull `executeInternal` runs, the pull never
      deletes and so never removes a version id. */
  lemma NoDeletionWhenDisabled(versions: set<string>, b: Branches, r: Remote)
    ensures DeletedIn(b, false, r, Names(b)) == {}
    ensures versions <= VersionsAfter(versions, b, false, r, Names(b))
  {
  }

  /** A name the remote has and the local side lacks gets a tracking branch, counts as
      a change and, unless it is master, becomes a version id. */
  lemma {:induction false} CreatedJoins(versions: set<string>, name: string, b: Branches, doDelete: bool, r: Remote)
    requires name in b.remote && name !in b.local
    ensures Decide(name, b, doDelete, r) == CreateLocal
    ensures name != MASTER_BRANCH ==> name in VersionsAfter(versions, b, doDelete, r, Names(b))
    ensures name in ChangedIn(b, doDelete, r, Names(b))
  {
    assert name in CreatedIn(b, doDelete, r, Names(b));
  }

  /** A deleted name leaves the version ids. */
  lemma {:induction false} DeletedLeaves(versions: set<string>, name: string, b: Branches, doDelete: bool, r: Remote)
    requires name in Names(b) && Decide(name, b, doDelete, r) == DeleteLocal
    ensures name !in VersionsAfter(versions, b, doDelete, r, Names(b))
    ensures name in ChangedIn(b, doDelete, r, Names(b))
  {
    assert name in DeletedIn(b, doDelete, r, Names(b));
  }

  /** Equal commit ids leave the branch alone; differing ids count as a change only if
      the merge did something and the trees differ, so a commit that changes no file
      triggers no change notification. */
  lemma MergeCountsOnlyRealChange(name: string, b: Branches, doDelete: bool, r: Remote, remoteName: string)
    requires name in b.local && name in b.remote
    ensures b.local[name] == b.remote[name] ==>
      Decide(name, b, doDelete, r) == SameCommit && CommandsFor(name, SameCommit, remoteName) == []
    ensures b.local[name] != b.remote[name] ==>
      CommandsFor(name, Decide(name, b, doDelete, r), remoteName) ==
        [CleanDirectories, ForceCheckout("HEAD"), ForceCheckout(name), MergeTheirs(name, b.remote[name])]
    ensures b.local[name] != b.remote[name] ==>
      (Changes(Decide(name, b, doDelete, r)) <==>
        r.mergeStatus(name) != AlreadyUpToDate && r.diffEntries(b.local[name], b.remote[name]) > 0)
  {
  }

  /** Master is never deleted. */
  lemma MasterKept(b: Branches, doDelete: bool, r: Remote)
    requires MASTER_BRANCH in Names(b)
    ensures Decide(MASTER_BRANCH, b, doDelete, r) != DeleteLocal
  {
  }

  /** With no remote-tracking branch at all nothing is deleted, created or merged:
      an empty remote listing is taken as a guard, not as "every branch was removed". */
  lemma EmptyRemoteTouchesNothing(name: string, b: Branches, doDelete: bool, r: Remote)
    requires name in Names(b) && b.remote == map[]
    ensures Decide(name, b, doDelete, r) == Untouched
  {
  }

  /** Handling one more name moves the version set one step, whatever the order. */
  lemma {:induction false} VersionsStep(versions: set<string>, b: Branches, doDelete: bool, r: Remote, done: set<string>, v: string)
    requires done <= Names(b) && v in Names(b) && v !in done
    ensures var a := Decide(v, b, doDelete, r);
      var before := VersionsAfter(versions, b, doDelete, r, done);
      VersionsAfter(versions, b, doDelete, r, done + {v}) ==
        if a.DeleteLocal? then before - {v}
        else if a.CreateLocal? && v != MASTER_BRANCH then before + {v}
        else before
    ensures var a := Decide(v, b, doDelete, r);
      DeletedIn(b, doDelete, r, done + {v}) ==
        if a.DeleteLocal? then DeletedIn(b, doDelete, r, done) + {v} else DeletedIn(b, doDelete, r, done)
    ensures var a := Decide(v, b, doDelete, r);
      ChangedIn(b, doDelete, r, done + {v}) ==
        if Changes(a) then ChangedIn(b, doDelete, r, done) + {v} else ChangedIn(b, doDelete, r, done)
  {
    var a := Decide(v, b, doDelete, r);
    var d, c := DeletedIn(b, doDelete, r, done), CreatedIn(b, doDelete, r, done);
    assert v !in d && v !in c;
    if a.DeleteLocal? {
      assert DeletedIn(b, doDelete, r, done + {v}) == d + {v};
      assert CreatedIn(b, doDelete, r, done + {v}) == c;
    } else if a.CreateLocal? {
      assert DeletedIn(b, doDelete, r, done + {v}) == d;
      assert CreatedIn(b, doDelete, r, done + {v}) == c + {v};
    } else {
      assert DeletedIn(b, doDelete, r, done + {v}) == d;
      assert CreatedIn(b, doDelete, r, done + {v}) == c;
    }
  }

  /** One commit: the countdown drops by one and, once below zero, is reset to
      `MAX_COMMITS_WITHOUT_GC` and a compaction runs. */
  function CountdownAfterCommit(counter: int): (r: (int, bool))
    ensures 0 <= counter <= MAX_COMMITS_WITHOUT_GC ==> 0 <= r.0 <= MAX_COMMITS_WITHOUT_GC
    ensures r.1 <==> counter <= 0
  {
    if counter - 1 < 0 then (MAX_COMMITS_WITHOUT_GC, true) else (counter - 1, false)
  }

  /** The countdown after `n` commits from the start value, and how many compactions
      ran on the way. */
  function CountdownAfter(n: nat): int {
    if n == 0 then MAX_COMMITS_WITHOUT_GC else CountdownAfterCommit(CountdownAfter(n - 1)).0
  }

  function CompactionsAfter(n: nat): nat {
    if n == 0 then 0
    else CompactionsAfter(n - 1) + (if CountdownAfterCommit(CountdownAfter(n - 1)).1 then 1 else 0)
  }

  /** Compaction runs on every 41st commit, and in between the countdown stays within
      0..40. */
  lemma {:induction false} CompactionCadence(n: nat)
    ensures CountdownAfter(n) == MAX_COMMITS_WITHOUT_GC - n % (MAX_COMMITS_WITHOUT_GC + 1)
    ensures CompactionsAfter(n) == n / (MAX_COMMITS_WITHOUT_GC + 1)
    ensures 0 <= CountdownAfter(n) <= MAX_COMMITS_WITHOUT_GC
  {
    if n > 0 {
      CompactionCadence(n - 1);
      NextDivMod(n - 1);
    }
  }

  /** How division and remainder by 41 move when the dividend grows by one. */
  lemma NextDivMod(m: nat)
    ensures m % 41 == 40 ==> (m + 1) % 41 == 0 && (m + 1) / 41 == m / 41 + 1
    ensures m % 41 < 40 ==> (m + 1) % 41 == m % 41 + 1 && (m + 1) / 41 == m / 41
  {
    var q, r := m / 41, m % 41;
    assert m == 41 * q + r;
    if r == 40 {
      assert m + 1 == 41 * (q + 1) + 0;
    } else {
      assert m + 1 == 41 * q + (r + 1);
    }
  }
}
