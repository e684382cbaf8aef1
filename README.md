# Git data store of Fabric8: a verified model

This project models the decision and bookkeeping layer of `GitDataStoreImpl`, the
git-backed data store of Fabric8. The data store keeps versions as git branches and
profiles as folders in them. The model covers five parts:

- **Pull reconciliation.** `doPullInternal` fetches. It then splits the ref list into
  local branches and remote-tracking branches of the `origin` remote. For every branch
  name it decides to delete, create, merge or leave alone. It keeps the in-memory set
  of version ids and the version cache in step.
- **The operation orchestrator.** `executeInternal` checks locks, then runs pull, the
  operation, commit and push. It fires one change notification, which empties the
  whole cache. It also keeps the GC countdown `commitsWithoutGC` and the fetch-warning
  deduplicator `lastFetchWarning`.
- **Version bookkeeping.** This covers `getInitialVersions`, `addVersion`,
  `removeVersionFromCaches`, `hasVersion`, `getVersions` and `deleteVersion`.
- **Profile loading.** `populateProfile` derives profile ids from the folder tree.
  `populateFileConfigurations` with `getFilePattern` keys the files by their
  `/`-separated relative paths. `resolveVersionProfiles` and the loop of `loadVersion`
  attach parents parent-first, memoised per top-level profile.
- **Profile writing.** `createOrUpdateProfile` walks parents first with a visited set.
  `setFileConfigurationsInternal` removes stale files, then writes the new ones. The
  proxy selector's `select`/`doSelect` routes requests to the git servlet.

## How the model is laid out

- `wrappers.dfy`, `text.dfy`, `types.dfy`: `Option`/`Result`, and the Java string
  operations the source relies on:
  - `String.split(" ")`, including that it drops trailing empty strings;
  - `StringTokenizer`, which skips empty tokens;
  - `isNullOrBlank`, `startsWith`, `endsWith` and `replace`.
- `refs.dfy`: splitting the ref list into the two branch maps, and the initial
  version list.
- `git.dfy`: the `GitContext`. Pull, commit and push are each claimed at most once,
  and the commit message is a sequence of parts.
- `sync.dfy`: the per-branch decision of the pull, `hasChanged`/`isCommitEqual`, and
  the GC countdown.
- `profile_tree.dfy`: folder trees, profile-id derivation and file patterns.
- `resolver.dfy`: parent resolution.
- `proxy.dfy`: the proxy selector.
- `effects.dfy`: the store's state as a value (`StoreState`), with one function per
  step of the source. These functions are the specification of the store's methods,
  and most lemmas are proved about them.
- `store.dfy`: the class `GitDataStore`. It has the source's fields:
  - `versions`, `cache`, `commitsWithoutGC` and `lastFetchWarning`;
  - the lock holds of the calling thread;
  - a log of the git commands issued;
  - a notification count;
  - the profile directories of the checked-out tree.

  Its methods change these fields in place. Each one is proved to leave exactly the
  state that the matching function of `effects.dfy` computes.

Effects outside the program become parameters:

- The git commands issued (reset, fetch, branch create/delete, merge, add, rm, commit,
  gc, push) are appended to a command log.
- What git answers is a `Remote` value:
  - the configured URL;
  - the fetch outcome and its message;
  - the ref list;
  - the merge status per branch;
  - the number of diff entries between two commits.

  A failing push is logged and swallowed by the store, so the push outcome is not
  part of the `Remote` value.
- The iteration order of a `HashSet` is a parameter.
  - `Store.Enumeration` picks an arbitrary order.
  - The specification functions take that order as an argument.
  - The results that do not depend on it (the versions set, the cache, the changed
    flag) are proved for every order.
- The profile cache lookup `getProfileFromCache` becomes the parameter `existing`.
  For a version and profile id, it gives the file names the cached profile has, if any.
- `String.matches` becomes an uninterpreted predicate.

## Model

| member | source | states |
|---|---|---|
| Refs.ListBranches | fabric/fabric-git/src/main/java/io/fabric8/git/internal/GitDataStoreImpl.java:950-963 | The loop fills the local map from `refs/heads/` refs and the tracking map from `refs/remotes/<remote>/` refs, testing the tracking prefix first. A later ref of the same name wins. The name set is the union of both key sets. |
| Refs.Heads | fabric/fabric-git/src/main/java/io/fabric8/git/internal/GitDataStoreImpl.java:950-963 | The local map: the `refs/heads/` refs by short name, the last of a name winning, skipping refs that match the tracking prefix. Its meaning is stated by `Refs.HeadsAt`. |
| Refs.Tracked | fabric/fabric-git/src/main/java/io/fabric8/git/internal/GitDataStoreImpl.java:950-963 | The tracking map: the `refs/remotes/<remote>/` refs by short name, the last of a name winning. Its meaning is stated by `Refs.TrackedAt`. |
| Refs.HeadsAt | fabric/fabric-git/src/main/java/io/fabric8/git/internal/GitDataStoreImpl.java:950-963 | A name is a local branch iff some ref is named `refs/heads/<name>`. Its commit id is that of the last such ref. |
| Refs.TrackedAt | fabric/fabric-git/src/main/java/io/fabric8/git/internal/GitDataStoreImpl.java:950-963 | A name is a remote-tracking branch iff some ref is named `refs/remotes/<remote>/<name>`. Its commit id is that of the last such ref. |
| Refs.HeadNotTracking | fabric/fabric-git/src/main/java/io/fabric8/git/internal/GitDataStoreImpl.java:954-958 | A `refs/heads/` name never starts with a tracking prefix, so checking the tracking prefix first loses no local branch. |
| Refs.HeadVersions | fabric/fabric-git/src/main/java/io/fabric8/git/internal/GitDataStoreImpl.java:414-436 | The initial version ids are exactly the names of `refs/heads/` branches other than master, in listing order, and there are no more of them than branches. |
| Refs.VersionsOf | fabric/fabric-git/src/main/java/io/fabric8/git/internal/GitDataStoreImpl.java:420-429 | The non-master names of the local branches, in listing order. `Refs.HeadVersions` and `Refs.VersionsOfMembership` state what it lists. |
| Refs.VersionsOfMembership | fabric/fabric-git/src/main/java/io/fabric8/git/internal/GitDataStoreImpl.java:420-429 | `v` is listed iff `refs/heads/v` is a branch and `v` is not master. |
| Sync.HasChanged | fabric/fabric-git/src/main/java/io/fabric8/git/internal/GitDataStoreImpl.java:1216-1241 | Equal commit ids never count as a change. Different ids count iff the diff between them has an entry. |
| Sync.Decide | fabric/fabric-git/src/main/java/io/fabric8/git/internal/GitDataStoreImpl.java:966-1002 | The decision for one branch name: delete, create, merge, or leave it alone. `Sync.DeleteExactly`, `Sync.CreatedJoins` and `Sync.MergeCountsOnlyRealChange` state when each is taken. |
| Sync.CommandsFor | fabric/fabric-git/src/main/java/io/fabric8/git/internal/GitDataStoreImpl.java:969-1001 | The git commands one decision issues: a branch delete, a branch create tracking the remote, or the clean, checkouts and merge. `Sync.MergeCountsOnlyRealChange` states the merge sequence. |
| Sync.DeleteExactly | fabric/fabric-git/src/main/java/io/fabric8/git/internal/GitDataStoreImpl.java:969-983 | A local branch is deleted iff all four hold: the tracking map is non-empty, the name is not in it, branch deletion is enabled, and the name is not master. |
| Sync.NoDeletionWhenDisabled | fabric/fabric-git/src/main/java/io/fabric8/git/internal/GitDataStoreImpl.java:868 | With deletion disabled, as both callers pass it, no branch is deleted and no version is lost. |
| Sync.CreatedJoins | fabric/fabric-git/src/main/java/io/fabric8/git/internal/GitDataStoreImpl.java:985-990 | A name known only remotely gets a local branch. It joins the versions unless it is master, and it marks the pull as changed. |
| Sync.DeletedLeaves | fabric/fabric-git/src/main/java/io/fabric8/git/internal/GitDataStoreImpl.java:970-983 | A deleted name leaves the versions set and marks the pull as changed. |
| Sync.MergeCountsOnlyRealChange | fabric/fabric-git/src/main/java/io/fabric8/git/internal/GitDataStoreImpl.java:991-1001 | For every remote name: equal commit ids leave the branch untouched, with no command issued. Different ids issue clean, checkout of `HEAD`, checkout of the branch and a merge with the remote commit, in that order. They count as a change iff the merge status is not up-to-date and the diff is non-empty. |
| Sync.MasterKept | fabric/fabric-git/src/main/java/io/fabric8/git/internal/GitDataStoreImpl.java:972-973 | Master is never deleted. |
| Sync.EmptyRemoteTouchesNothing | fabric/fabric-git/src/main/java/io/fabric8/git/internal/GitDataStoreImpl.java:969-970 | An empty tracking map leaves every branch untouched. |
| Sync.VersionsStep | fabric/fabric-git/src/main/java/io/fabric8/git/internal/GitDataStoreImpl.java:966-1002 | Deciding one more name changes the versions set, the deleted set and the changed set by that name alone, as its decision says. |
| Sync.CountdownAfterCommit | fabric/fabric-git/src/main/java/io/fabric8/git/internal/GitDataStoreImpl.java:1038-1042 | A counter in 0..40 stays in 0..40. gc runs iff the counter was at most zero before the decrement. |
| Sync.CompactionCadence | fabric/fabric-git/src/main/java/io/fabric8/git/internal/GitDataStoreImpl.java:146-173 | After `n` commits from 40, the countdown is `40 - n mod 41` and gc has run `n div 41` times, so gc runs on every 41st commit. |
| Git.ClaimPull | fabric/fabric-git/src/main/java/io/fabric8/git/internal/GitDataStoreImpl.java:921 | Claiming the pull phase of a context. `Git.ClaimRule` states the rule. |
| Git.ClaimCommit | fabric/fabric-git/src/main/java/io/fabric8/git/internal/GitDataStoreImpl.java:1027 | Claiming the commit phase of a context. `Git.ClaimRule` states the rule. |
| Git.ClaimPush | fabric/fabric-git/src/main/java/io/fabric8/git/internal/GitDataStoreImpl.java:1053 | Claiming the push phase of a context. `Git.ClaimRule` states the rule. |
| Git.ClaimRule | fabric/fabric-git/src/main/java/io/fabric8/git/internal/GitDataStoreImpl.java:921 | Each phase (pull at line 921, commit at 1027, push at 1053) can be claimed iff the context requires it and it has not run yet. The claim sets that phase's flag and changes nothing else in the context. |
| Git.ClaimOnce | fabric/fabric-git/src/main/java/io/fabric8/git/internal/GitDataStoreImpl.java:921 | No phase can be claimed twice in one context. |
| Effects.VersionBookkeeping | fabric/fabric-git/src/main/java/io/fabric8/git/internal/GitDataStoreImpl.java:1196-1205 | `addVersion` adds the id unless it is master. `removeVersionFromCaches` removes it from both the set and the cache. No other id changes, and master stays out of the set. |
| Effects.WithVersion | fabric/fabric-git/src/main/java/io/fabric8/git/internal/GitDataStoreImpl.java:1196-1200 | `addVersion` on the state value: the id joins the versions unless it is master. `Effects.VersionBookkeeping` states this. |
| Effects.WithoutVersion | fabric/fabric-git/src/main/java/io/fabric8/git/internal/GitDataStoreImpl.java:1202-1205 | `removeVersionFromCaches` on the state value: the id leaves the versions and the cache. `Effects.VersionBookkeeping` states this. |
| Effects.Notified | fabric/fabric-git/src/main/java/io/fabric8/git/internal/GitDataStoreImpl.java:895-898 | `fireChangeNotification` on the state value: the cache is emptied and one notification is counted. `Effects.FinishedEffect` and `Effects.NotifiesExactly` state when it happens. |
| Effects.CheckedOut | fabric/fabric-git/src/main/java/io/fabric8/git/internal/GitDataStoreImpl.java:1156-1159 | `checkoutVersion` on the state value: the checkout is issued and the version added. `Effects.RanKeepsValid` shows master never enters the versions this way. |
| Effects.CreatedOrCheckedOut | fabric/fabric-git/src/main/java/io/fabric8/git/internal/GitDataStoreImpl.java:1150-1154 | `createOrCheckoutVersion` on the state value: the branch is created from the remote or checked out, and the version added. `Effects.CopiedVersionKnown` states the version is then known. |
| Effects.PullStepEffect | fabric/fabric-git/src/main/java/io/fabric8/git/internal/GitDataStoreImpl.java:966-1002 | One branch decision changes the versions and the cache as its decision says. |
| Effects.PullStep | fabric/fabric-git/src/main/java/io/fabric8/git/internal/GitDataStoreImpl.java:966-1002 | One iteration of the branch loop on the state value: the decision's commands are issued and the versions and cache follow it. `Effects.PullStepEffect` states the effect. |
| Effects.PullAlongEffect | fabric/fabric-git/src/main/java/io/fabric8/git/internal/GitDataStoreImpl.java:966-1002 | Whatever the order of the names, the loop leaves the versions and the cache that the set of decisions determines. |
| Effects.PullAlong | fabric/fabric-git/src/main/java/io/fabric8/git/internal/GitDataStoreImpl.java:966-1002 | The branch loop in a given order. Only the versions, the cache and the command log change. `Effects.PullAlongEffect` states that the order does not matter for the versions and cache. |
| Effects.PullEffect | fabric/fabric-git/src/main/java/io/fabric8/git/internal/GitDataStoreImpl.java:919-1024 | A blank URL or a failed fetch leaves the versions and the cache as they were. Otherwise they follow every branch's decision. Master never enters the versions, and with deletion disabled no version is lost. |
| Effects.Pulled | fabric/fabric-git/src/main/java/io/fabric8/git/internal/GitDataStoreImpl.java:919-1024 | The pull reports a change exactly as the per-branch decisions say, and it never notifies, commits or touches profile directories. |
| Effects.SameWarningLoggedOnce | fabric/fabric-git/src/main/java/io/fabric8/git/internal/GitDataStoreImpl.java:939-946 | Repeated fetches failing with the same message log it at most once, and remember it. |
| Effects.SuccessRearmsWarning | fabric/fabric-git/src/main/java/io/fabric8/git/internal/GitDataStoreImpl.java:937-946 | After a successful fetch, the next failure is logged again even when its message is the one logged before. |
| Effects.Committed | fabric/fabric-git/src/main/java/io/fabric8/git/internal/GitDataStoreImpl.java:1026-1046 | A commit changes only the command log and the countdown, and it keeps the countdown in range. |
| Effects.CommitCadence | fabric/fabric-git/src/main/java/io/fabric8/git/internal/GitDataStoreImpl.java:1026-1042 | After `n` commits from a fresh countdown, the log gained one gc per 41 commits and the countdown is `40 - n mod 41`. |
| Effects.Pushed | fabric/fabric-git/src/main/java/io/fabric8/git/internal/GitDataStoreImpl.java:1051-1069 | `doPushInternal`'s effect: a push of all branches is issued unless the URL is blank. `Effects.PushOnlyPushes` states that nothing else changes. |
| Effects.CountdownMatches | fabric/fabric-git/src/main/java/io/fabric8/git/internal/GitDataStoreImpl.java:1026-1042 | The countdown and the gc commands issued by repeated commits agree with the counter arithmetic. |
| Effects.WalkShape | fabric/fabric-git/src/main/java/io/fabric8/git/internal/GitDataStoreImpl.java:675-708 | The write-side walk visits no already visited id, ends with the profile itself, and writes every parent before its child. |
| Effects.Walk | fabric/fabric-git/src/main/java/io/fabric8/git/internal/GitDataStoreImpl.java:675-708 | The order `createOrUpdateProfile` writes profiles in: nothing for a visited id, else the parents' walks then the profile. `Effects.WalkShape` and `Effects.SecondWalkEmpty` state its properties. |
| Effects.WalkFrom | fabric/fabric-git/src/main/java/io/fabric8/git/internal/GitDataStoreImpl.java:683-687 | The parent loop's part of the walk, from parent `i` on, each parent seeing the ids the earlier ones visited. `Effects.WalkFromShape` states its properties. |
| Effects.WalkFromShape | fabric/fabric-git/src/main/java/io/fabric8/git/internal/GitDataStoreImpl.java:683-687 | The parent loop writes parents before children, and afterwards every parent is visited. |
| Effects.SecondWalkEmpty | fabric/fabric-git/src/main/java/io/fabric8/git/internal/GitDataStoreImpl.java:681-705 | Walking a profile again with the ids the first walk visited writes nothing: the visited set makes the walk idempotent. |
| Effects.ShapeAppend | fabric/fabric-git/src/main/java/io/fabric8/git/internal/GitDataStoreImpl.java:683-687 | Two walks, the second seeing the first's ids, together still avoid the visited ids and keep parents first. |
| Effects.SelfParentWrittenTwice | fabric/fabric-git/src/main/java/io/fabric8/git/internal/GitDataStoreImpl.java:681-705 | A profile whose only parent carries its own id is written twice: the parent first, then the profile under the same id, and the walk is still parents-first. |
| Effects.CreatedDirectoryEffect | fabric/fabric-git/src/main/java/io/fabric8/git/internal/GitDataStoreImpl.java:710-718 | A missing profile directory is created with only the metadata file, an existing one is kept, and no other directory changes. |
| Effects.CreatedDirectory | fabric/fabric-git/src/main/java/io/fabric8/git/internal/GitDataStoreImpl.java:710-718 | `createProfileDirectoryAfterCheckout` on the state value. `Effects.CreatedDirectoryEffect` states its effect. |
| Effects.StaleRemovedEffect | fabric/fabric-git/src/main/java/io/fabric8/git/internal/GitDataStoreImpl.java:723-732 | Exactly the stale files leave the profile directory. The rest keep their content, and other directories are untouched. |
| Effects.StaleRemoved | fabric/fabric-git/src/main/java/io/fabric8/git/internal/GitDataStoreImpl.java:723-732 | The removal half of `setFileConfigurationsInternal` on the state value. `Effects.StaleRemovedEffect` states its effect. |
| Effects.FilesWrittenEffect | fabric/fabric-git/src/main/java/io/fabric8/git/internal/GitDataStoreImpl.java:734-737 | The new files are written with their content over what the directory held. Other directories are untouched. |
| Effects.FilesWritten | fabric/fabric-git/src/main/java/io/fabric8/git/internal/GitDataStoreImpl.java:734-737 | The write half of `setFileConfigurationsInternal` on the state value. `Effects.FilesWrittenEffect` states its effect. |
| Effects.FilesSetEffect | fabric/fabric-git/src/main/java/io/fabric8/git/internal/GitDataStoreImpl.java:720-738 | Afterwards the directory holds the new files, plus whatever it held that is not stale. |
| Effects.FilesSet | fabric/fabric-git/src/main/java/io/fabric8/git/internal/GitDataStoreImpl.java:720-738 | `setFileConfigurationsInternal` on the state value: stale files removed, then the new files written. `Effects.FilesSetEffect` states the result. |
| Effects.WriteOneEffect | fabric/fabric-git/src/main/java/io/fabric8/git/internal/GitDataStoreImpl.java:689-701 | A written profile's directory exists when created or given files. It holds every new file with its new content and no stale file, and only that directory changes. |
| Effects.WriteOne | fabric/fabric-git/src/main/java/io/fabric8/git/internal/GitDataStoreImpl.java:689-701 | The body of `createOrUpdateProfile` after the parents, on the state value. `Effects.WriteOneEffect` and `Effects.WriteOneContext` state its effect. |
| Effects.WriteOneContext | fabric/fabric-git/src/main/java/io/fabric8/git/internal/GitDataStoreImpl.java:698-701 | Writing a profile only appends to the commit message and leaves it non-empty, with the "no content" warning when nothing else was said. |
| Effects.WriteAll | fabric/fabric-git/src/main/java/io/fabric8/git/internal/GitDataStoreImpl.java:675-708 | Writing a non-empty walk changes only directories and the command log, and leaves a non-empty commit message. |
| Effects.WriteAllAppend | fabric/fabric-git/src/main/java/io/fabric8/git/internal/GitDataStoreImpl.java:684-687 | Writing two walks in a row is writing their concatenation. |
| Effects.WriteAllKeepsDirectories | fabric/fabric-git/src/main/java/io/fabric8/git/internal/GitDataStoreImpl.java:675-708 | Writing a walk never removes a profile directory. |
| Effects.WalkCreates | fabric/fabric-git/src/main/java/io/fabric8/git/internal/GitDataStoreImpl.java:675-708 | Writing a profile with directory creation, parents first, leaves its directory in the tree and removes none. |
| Effects.WriteEach | fabric/fabric-git/src/main/java/io/fabric8/git/internal/GitDataStoreImpl.java:525-527 | The loop of `createVersion(Version)` on the state value. Only the directories and the command log change, and the commit message is only extended. |
| Effects.WriteEachCreates | fabric/fabric-git/src/main/java/io/fabric8/git/internal/GitDataStoreImpl.java:525-527 | After writing a version's profiles with directory creation, every one of them has a directory and none was removed. |
| Effects.RanFrame | fabric/fabric-git/src/main/java/io/fabric8/git/internal/GitDataStoreImpl.java:491-673 | No operation notifies, commits or changes which phases are required, and only `deleteVersion` touches the cache. |
| Effects.Ran | fabric/fabric-git/src/main/java/io/fabric8/git/internal/GitDataStoreImpl.java:491-673 | The `GitOperation` bodies of the public operations on the state value. `Effects.RanFrame`, `Effects.WritesLeaveMessage` and `Effects.RanKeepsValid` state their properties. |
| Effects.WritesLeaveMessage | fabric/fabric-git/src/main/java/io/fabric8/git/internal/GitDataStoreImpl.java:491-673 | Every operation that changes the repository leaves a non-empty commit message, so its commit cannot fail as empty. |
| Effects.RanKeepsValid | fabric/fabric-git/src/main/java/io/fabric8/git/internal/GitDataStoreImpl.java:414-673 | No operation puts master in the versions set or moves the countdown out of range. |
| Effects.FinishedEffect | fabric/fabric-git/src/main/java/io/fabric8/git/internal/GitDataStoreImpl.java:873-885 | After commit and push, one notification is fired, emptying the cache, iff the pull reported a change or a commit was required. The commit moves the countdown, and the versions and directories stay as they were. |
| Effects.Finished | fabric/fabric-git/src/main/java/io/fabric8/git/internal/GitDataStoreImpl.java:872-885 | Commit and push when required, then one notification if the pull changed something or a commit was made. `Effects.FinishedEffect` states the effect. |
| Effects.PullPhase | fabric/fabric-git/src/main/java/io/fabric8/git/internal/GitDataStoreImpl.java:866-869 | The pull phase of `executeInternal`: `doPullInternal` without deletion when a pull is required, else nothing. |
| Effects.Proceeded | fabric/fabric-git/src/main/java/io/fabric8/git/internal/GitDataStoreImpl.java:866-885 | Pull, operation, commit and push in that order, stopping at the first failure. `Effects.NotifiesExactly` and `Effects.ExecutedKeepsValid` state its properties. |
| Effects.Executed | fabric/fabric-git/src/main/java/io/fabric8/git/internal/GitDataStoreImpl.java:841-893 | `executeInternal`: the lock the context needs is asserted before any phase runs. `Effects.NotifiesExactly`, `Effects.ExecutedKeepsValid` and the per-operation lemmas from `Effects.CopiedVersionKnown` to `Effects.DeletedVersionReturns` state its properties. |
| Effects.NotifiesExactly | fabric/fabric-git/src/main/java/io/fabric8/git/internal/GitDataStoreImpl.java:841-898 | A successful execution notifies exactly once, invalidating the whole cache, iff the pull reported a change or a commit was required, and otherwise not at all. |
| Effects.ExecutedKeepsValid | fabric/fabric-git/src/main/java/io/fabric8/git/internal/GitDataStoreImpl.java:841-898 | Master never enters the versions set and the countdown stays in 0..40 across any execution. |
| Effects.DeleteVersionQuiet | fabric/fabric-git/src/main/java/io/fabric8/git/internal/GitDataStoreImpl.java:574-591 | Deleting a version with the empty context removes its branch and its id, commits nothing and fires no notification. |
| Effects.WritesCommitAndNotify | fabric/fabric-git/src/main/java/io/fabric8/git/internal/GitDataStoreImpl.java:491-673 | Every write under the write lock commits once, with the countdown stepped, and fires one notification that empties the cache. |
| Effects.PullAnswersTrue | fabric/fabric-git/src/main/java/io/fabric8/git/internal/GitDataStoreImpl.java:438-447 | `pull()` answers true. It notifies iff the pull reported a change, and it commits nothing. |
| Effects.PushOnlyPushes | fabric/fabric-git/src/main/java/io/fabric8/git/internal/GitDataStoreImpl.java:449-458 | `push()` issues the push when a URL is configured and changes nothing else. |
| Effects.InitialVersionsListed | fabric/fabric-git/src/main/java/io/fabric8/git/internal/GitDataStoreImpl.java:414-436 | The initial versions answer the non-master local branch names. The versions set becomes exactly those names, and every other part of the state is unchanged: no git command, no notification. |
| Effects.CopiedVersionKnown | fabric/fabric-git/src/main/java/io/fabric8/git/internal/GitDataStoreImpl.java:491-511 | After `createVersion(parentId, versionId, attributes)` succeeds, the versions set keeps every old version and contains the new id and the parent id unless they are master. |
| Effects.WrittenVersionKnown | fabric/fabric-git/src/main/java/io/fabric8/git/internal/GitDataStoreImpl.java:514-533 | After `createVersion(Version)` succeeds, it answers the id. The versions set gains exactly the id unless it is master, and every profile of the version has a directory. |
| Effects.ProfileWritten | fabric/fabric-git/src/main/java/io/fabric8/git/internal/GitDataStoreImpl.java:594-625 | After `createProfile` or `updateProfile` succeeds, it answers the profile id. The directory exists when created or given files, holds every new file with its content, and keeps no stale file. |
| Effects.ProfileRemoved | fabric/fabric-git/src/main/java/io/fabric8/git/internal/GitDataStoreImpl.java:656-673 | After `deleteProfile` succeeds, the profile's directory is gone, every other directory is unchanged, and a non-master branch is a version. |
| Effects.DeletedVersionReturns | fabric/fabric-git/src/main/java/io/fabric8/git/internal/GitDataStoreImpl.java:574-591 | `deleteVersion` commits and pushes nothing. A version still tracked on the remote but deleted locally leaves the versions set, and the next pull creates it again, adds it back and notifies once. |
| ProfileTree.DeriveIsLocate | fabric/fabric-git/src/main/java/io/fabric8/git/internal/GitDataStoreImpl.java:1745-1761 | Each derived profile is a suffixed folder whose id is the dash-joined names of the grouping folders above it followed by its stem, in listing order. |
| ProfileTree.Derive | fabric/fabric-git/src/main/java/io/fabric8/git/internal/GitDataStoreImpl.java:1745-1761 | `populateProfile` on a folder: the ids of the profiles found below it, dash-joined under the prefix. `ProfileTree.DeriveIsLocate` states what it yields. |
| ProfileTree.DeriveFrom | fabric/fabric-git/src/main/java/io/fabric8/git/internal/GitDataStoreImpl.java:1750-1758 | The loop of `populateProfile` over a grouping folder's children from child `i` on. `ProfileTree.PlainFilesIgnored` states that plain files contribute nothing. |
| ProfileTree.ProfilesOf | fabric/fabric-git/src/main/java/io/fabric8/git/internal/GitDataStoreImpl.java:1725-1741 | `populateVersionBuilder`'s scan of the profiles directory. `ProfileTree.ProfilesOfMembership` states what it yields. |
| ProfileTree.ProfilesOfMembership | fabric/fabric-git/src/main/java/io/fabric8/git/internal/GitDataStoreImpl.java:1725-1741 | A profile is found iff the profiles directory exists and some folder directly under it has a last commit and derives that profile with an empty prefix. |
| ProfileTree.TopLevelFrom | fabric/fabric-git/src/main/java/io/fabric8/git/internal/GitDataStoreImpl.java:1731-1738 | The loop over the profiles directory's children from child `i` on. `ProfileTree.TopLevelFromMembership` states what it yields. |
| ProfileTree.TopLevelFromMembership | fabric/fabric-git/src/main/java/io/fabric8/git/internal/GitDataStoreImpl.java:1731-1738 | A profile is found from child `i` on iff some child at `i` or later is a folder with a last commit that derives it. |
| ProfileTree.IdsStartWithPrefix | fabric/fabric-git/src/main/java/io/fabric8/git/internal/GitDataStoreImpl.java:1748-1756 | Every id found below a prefix starts with that prefix. |
| ProfileTree.ProfileFolderNotDescended | fabric/fabric-git/src/main/java/io/fabric8/git/internal/GitDataStoreImpl.java:1748-1749 | A suffixed folder yields exactly one profile, the prefix plus its stem, and its contents are not looked at. |
| ProfileTree.PlainFilesIgnored | fabric/fabric-git/src/main/java/io/fabric8/git/internal/GitDataStoreImpl.java:1750-1758 | Adding a plain file anywhere in a grouping folder changes no derived profile. |
| ProfileTree.FilePattern | fabric/fabric-git/src/main/java/io/fabric8/git/internal/GitDataStoreImpl.java:1112-1118 | The pattern is no longer than the relative path and contains no platform separator other than `/`. |
| ProfileTree.FilePatternOfRelativePath | fabric/fabric-git/src/main/java/io/fabric8/git/internal/GitDataStoreImpl.java:1112-1118 | For names free of the separator, the pattern of a relative path is its names joined with `/`. |
| ProfileTree.PopulateFileConfigurations | fabric/fabric-git/src/main/java/io/fabric8/git/internal/GitDataStoreImpl.java:1804-1816 | The method puts every file below the folder into the map, in listing order and recursively, keyed by its file pattern. |
| ProfileTree.Listing | fabric/fabric-git/src/main/java/io/fabric8/git/internal/GitDataStoreImpl.java:1804-1816 | The files below a folder, recursively and in listing order, with their platform-separated relative paths. `ProfileTree.ListingIsSlashJoined` states the keys. |
| ProfileTree.ListingIsSlashJoined | fabric/fabric-git/src/main/java/io/fabric8/git/internal/GitDataStoreImpl.java:1804-1816 | The keys put are exactly the files' paths below the profile folder joined with `/`, in listing order, whatever the platform separator. |
| ProfileTree.PutAllAppend | fabric/fabric-git/src/main/java/io/fabric8/git/internal/GitDataStoreImpl.java:1806-1814 | Putting two listings in a row is putting their concatenation, so the recursion fills one map. |
| Resolver.ResolvedShape | fabric/fabric-git/src/main/java/io/fabric8/git/internal/GitDataStoreImpl.java:1772-1795 | An id resolves iff its unresolved profile exists and all its parents resolve. The result keeps its own files, configurations and hash, and attaches the parents with the declared ids in declared order. |
| Resolver.ResolveSpec | fabric/fabric-git/src/main/java/io/fabric8/git/internal/GitDataStoreImpl.java:1772-1795 | What resolving an id yields, stated without memo. A result has the requested id. `Resolver.ResolvedShape` states the rest. |
| Resolver.ParentIdsOf | fabric/fabric-git/src/main/java/io/fabric8/git/internal/GitDataStoreImpl.java:1778-1779 | An absent `PARENTS` attribute gives no parents. Otherwise the parent ids are the attribute split on single spaces, none containing a space. |
| Resolver.ResolveVersionProfiles | fabric/fabric-git/src/main/java/io/fabric8/git/internal/GitDataStoreImpl.java:1772-1795 | It succeeds iff the id resolves, failing when an ancestor is missing. The memo then holds only resolutions, including the id. The builder receives the newly memoised profiles, each once and parents first. |
| Resolver.ResolveAll | fabric/fabric-git/src/main/java/io/fabric8/git/internal/GitDataStoreImpl.java:1706-1724 | Loading succeeds iff every listed profile resolves. Then every profile handed to the builder is the resolution of its id, and every listed id was handed over. |
| Resolver.SameIdSameProfile | fabric/fabric-git/src/main/java/io/fabric8/git/internal/GitDataStoreImpl.java:1717-1721 | Profiles built under separate memo maps for the same id are equal, so the repeated adds agree. |
| Proxy.DoSelect | fabric/fabric-git/src/main/java/io/fabric8/git/internal/GitDataStoreImpl.java:1400-1422 | The loop's answer is the declarative routing rule, including the failures for an undefined host and an out-of-range port. |
| Proxy.SelectFor | fabric/fabric-git/src/main/java/io/fabric8/git/internal/GitDataStoreImpl.java:1400-1422 | `doSelect`'s answer as a rule: an undefined host fails once there is a pattern, a matching host goes direct, otherwise the proxy if set and the port is valid. `Proxy.NonProxyHostsGoDirect` and `Proxy.ProxiedExactly` state it. |
| Proxy.Select | fabric/fabric-git/src/main/java/io/fabric8/git/internal/GitDataStoreImpl.java:1378-1398 | Requests whose path starts with `/git/fabric/` are routed by `doSelect`, and all others by the previous selector. |
| Proxy.NonProxyHostsGoDirect | fabric/fabric-git/src/main/java/io/fabric8/git/internal/GitDataStoreImpl.java:1401-1410 | A host matching a non-proxy pattern, or any host when no proxy host is set, goes direct. |
| Proxy.ProxiedExactly | fabric/fabric-git/src/main/java/io/fabric8/git/internal/GitDataStoreImpl.java:1400-1422 | The proxy is used iff a proxy host is set, the port is valid and no pattern matches. The route is then that host and port. |
| Proxy.EmptyPatternsSkipped | fabric/fabric-git/src/main/java/io/fabric8/git/internal/GitDataStoreImpl.java:1403 | Because `StringTokenizer` skips empty tokens, `a\|\|b` routes like `a\|b`. |
| Text.JoinOfPieces | fabric/fabric-git/src/main/java/io/fabric8/git/internal/GitDataStoreImpl.java:1779 | Splitting a string on a character and joining the pieces back gives the string. |
| Text.SplitOnSpace | fabric/fabric-git/src/main/java/io/fabric8/git/internal/GitDataStoreImpl.java:1779 | `String.split(" ")`: the pieces contain no space, trailing empty pieces are dropped, and a string without a space is one piece. |
| Text.Tokens | fabric/fabric-git/src/main/java/io/fabric8/git/internal/GitDataStoreImpl.java:1403-1405 | `StringTokenizer` on one delimiter: every token is non-empty and free of the delimiter. |
| Text.IsNullOrBlank | fabric/fabric-git/src/main/java/io/fabric8/git/internal/GitDataStoreImpl.java:926 | `Strings.isNullOrBlank`: an absent string, or one whose every character is at or below the space character, so `trim()` leaves nothing. `Effects.PullEffect` and `Effects.PushOnlyPushes` state that a blank URL skips the remote. |
| Text.SplitOnSpaceOfJoin | fabric/fabric-git/src/main/java/io/fabric8/git/internal/GitDataStoreImpl.java:1779 | A space-joined list of non-empty ids splits back into the same list. |
| Text.TokensOfJoin | fabric/fabric-git/src/main/java/io/fabric8/git/internal/GitDataStoreImpl.java:1403-1405 | Tokenizing a `\|`-joined list of non-empty patterns gives back the list. |
| Text.ReplaceJoin | fabric/fabric-git/src/main/java/io/fabric8/git/internal/GitDataStoreImpl.java:1117 | Replacing the separator in a separator-joined path gives the `/`-joined path. |
| Store.GitDataStore.constructor | fabric/fabric-git/src/main/java/io/fabric8/git/internal/GitDataStoreImpl.java:168-176 | The store starts with no versions, an empty cache, the countdown at 40, no fetch warning, no lock held and the remote `origin`. |
| Store.GitDataStore.AcquireWriteLock | fabric/fabric-git/src/main/java/io/fabric8/git/internal/GitDataStoreImpl.java:377-393 | Acquiring the write lock fails with "Cannot obtain profile write lock in time" iff the thread holds read locks without the write lock. Otherwise it adds one hold. |
| Store.GitDataStore.ReleaseWriteLock | fabric/fabric-git/src/main/java/io/fabric8/git/internal/GitDataStoreImpl.java:389-390 | Unlocking the write lock handle drops one hold of the calling thread. |
| Store.GitDataStore.AcquireReadLock | fabric/fabric-git/src/main/java/io/fabric8/git/internal/GitDataStoreImpl.java:397-413 | A read hold is always granted to the calling thread and counted. |
| Store.GitDataStore.ReleaseReadLock | fabric/fabric-git/src/main/java/io/fabric8/git/internal/GitDataStoreImpl.java:408-409 | Unlocking the read lock handle drops one read hold. |
| Store.GitDataStore.AddVersion | fabric/fabric-git/src/main/java/io/fabric8/git/internal/GitDataStoreImpl.java:1196-1200 | The method leaves exactly the state of `addVersion`. |
| Store.GitDataStore.RemoveVersionFromCaches | fabric/fabric-git/src/main/java/io/fabric8/git/internal/GitDataStoreImpl.java:1202-1205 | The method leaves exactly the state of `removeVersionFromCaches`. |
| Store.GitDataStore.FireChangeNotification | fabric/fabric-git/src/main/java/io/fabric8/git/internal/GitDataStoreImpl.java:895-898 | Notifying empties the whole cache and counts one notification. |
| Store.GitDataStore.HasVersion | fabric/fabric-git/src/main/java/io/fabric8/git/internal/GitDataStoreImpl.java:549-559 | The answer is true iff the id is in the versions set. |
| Store.GitDataStore.GetVersions | fabric/fabric-git/src/main/java/io/fabric8/git/internal/GitDataStoreImpl.java:536-546 | The list holds every version id exactly once. |
| Store.GitDataStore.DoPullInternal | fabric/fabric-git/src/main/java/io/fabric8/git/internal/GitDataStoreImpl.java:919-1024 | It fails, changing nothing, iff the write lock is missing or the pull is not required or already done. Otherwise it claims the pull and leaves exactly the state and answer of the pull for the order the names were visited in. The store invariant (master never a version, countdown in 0..40) is kept. |
| Store.GitDataStore.FetchRemote | fabric/fabric-git/src/main/java/io/fabric8/git/internal/GitDataStoreImpl.java:933-947 | Reset and fetch are issued. Success clears the last warning. A failure logs its message only when it differs from the last one, and a failure without a message changes nothing. |
| Store.GitDataStore.ReconcileBranches | fabric/fabric-git/src/main/java/io/fabric8/git/internal/GitDataStoreImpl.java:949-1002 | The names are visited once each. The state is the fold of the per-branch decisions. The flag is set iff some decision is a change. |
| Store.GitDataStore.ReconcileBranch | fabric/fabric-git/src/main/java/io/fabric8/git/internal/GitDataStoreImpl.java:966-1001 | One branch is handled as its decision says, and the answer is whether that decision is a change. |
| Store.GitDataStore.DoCommitInternal | fabric/fabric-git/src/main/java/io/fabric8/git/internal/GitDataStoreImpl.java:1026-1046 | It fails, changing nothing, iff the commit is not required or already done, or the message is empty. Otherwise it adds, commits, steps the countdown and runs gc on reset. The store invariant (master never a version, countdown in 0..40) is kept. |
| Store.GitDataStore.DoPushInternal | fabric/fabric-git/src/main/java/io/fabric8/git/internal/GitDataStoreImpl.java:1051-1069 | It fails iff the read lock is missing or the push is not required or already done. Otherwise it pushes all branches unless the URL is blank. |
| Store.GitDataStore.CreateProfileDirectoryAfterCheckout | fabric/fabric-git/src/main/java/io/fabric8/git/internal/GitDataStoreImpl.java:710-718 | The method leaves the state and message of creating the missing directory with its metadata file. |
| Store.GitDataStore.SetFileConfigurationsInternal | fabric/fabric-git/src/main/java/io/fabric8/git/internal/GitDataStoreImpl.java:720-738 | The stale files, the existing keys minus the new ones, are removed and the new files written. |
| Store.GitDataStore.CreateOrUpdateProfile | fabric/fabric-git/src/main/java/io/fabric8/git/internal/GitDataStoreImpl.java:675-708 | The recursion writes the profiles of the parent-first walk, marks their ids visited and answers the profile's id. |
| Store.GitDataStore.CreateOrUpdateParents | fabric/fabric-git/src/main/java/io/fabric8/git/internal/GitDataStoreImpl.java:683-687 | The parent loop writes the walks of the parents in declared order, each seeing the ids the earlier ones visited. |
| Store.GitDataStore.WriteProfileItself | fabric/fabric-git/src/main/java/io/fabric8/git/internal/GitDataStoreImpl.java:689-701 | The method leaves exactly the state and message of writing the profile itself: directory created if allowed, files set, and the "no content" warning when the message is still empty. |
| Store.GitDataStore.CheckoutVersion | fabric/fabric-git/src/main/java/io/fabric8/git/internal/GitDataStoreImpl.java:1156-1159 | Checking out a branch issues the checkout and adds the version. |
| Store.GitDataStore.CreateOrCheckoutVersion | fabric/fabric-git/src/main/java/io/fabric8/git/internal/GitDataStoreImpl.java:1150-1154 | Checking out a branch, creating it when new, adds the version. |
| Store.GitDataStore.RunOperation | fabric/fabric-git/src/main/java/io/fabric8/git/internal/GitDataStoreImpl.java:491-673 | Each operation body leaves the state, message and answer of its specification, failing without the write lock where it asserts one. The store invariant (master never a version, countdown in 0..40) is kept. |
| Store.GitDataStore.RunCopyVersion | fabric/fabric-git/src/main/java/io/fabric8/git/internal/GitDataStoreImpl.java:498-505 | The body of `createVersion(parentId, versionId, attributes)` leaves the state, message and answer of its specification, fails without the write lock, and keeps master out of the versions. |
| Store.GitDataStore.RunWriteVersion | fabric/fabric-git/src/main/java/io/fabric8/git/internal/GitDataStoreImpl.java:520-528 | The body of `createVersion(Version)` leaves the state, message and answer of its specification, fails without the write lock, and keeps master out of the versions. |
| Store.GitDataStore.RunWriteProfile | fabric/fabric-git/src/main/java/io/fabric8/git/internal/GitDataStoreImpl.java:599-620 | The body of `createProfile` and `updateProfile` leaves the state, message and answer of its specification, and fails without the write lock. |
| Store.GitDataStore.RunRemoveProfile | fabric/fabric-git/src/main/java/io/fabric8/git/internal/GitDataStoreImpl.java:661-667 | The body of `deleteProfile` always succeeds and leaves the state and message of its specification. |
| Store.GitDataStore.WriteProfiles | fabric/fabric-git/src/main/java/io/fabric8/git/internal/GitDataStoreImpl.java:525-527 | Every profile of the version is written, each with a fresh visited set. |
| Store.GitDataStore.ExecuteInternal | fabric/fabric-git/src/main/java/io/fabric8/git/internal/GitDataStoreImpl.java:841-893 | Without the write lock, a pull or commit fails with "No write lock obtained" and changes nothing. Otherwise the phases leave the state and answer of the orchestration. Without the read lock, a read-only context fails with "No read lock obtained" and changes nothing. The store invariant (master never a version, countdown in 0..40) is kept. |
| Store.GitDataStore.Proceed | fabric/fabric-git/src/main/java/io/fabric8/git/internal/GitDataStoreImpl.java:866-885 | Pull, the operation, commit and push run in that order, stopping at the first failure. Commit and push run only when the context requires them. One notification fires iff the pull changed something or a commit was required. The store invariant is kept. |
| Store.GitDataStore.PullIfRequired | fabric/fabric-git/src/main/java/io/fabric8/git/internal/GitDataStoreImpl.java:866-869 | The pull runs only when the context requires it. The store invariant (master never a version, countdown in 0..40) is kept. |
| Store.GitDataStore.FinishPhases | fabric/fabric-git/src/main/java/io/fabric8/git/internal/GitDataStoreImpl.java:872-885 | Commit runs only when required and push only when required, in that order. Then one notification fires, emptying the cache, iff the pull changed something or a commit was made. The store invariant is kept. |
| Store.GitDataStore.Pull | fabric/fabric-git/src/main/java/io/fabric8/git/internal/GitDataStoreImpl.java:438-447 | Without the write lock it fails and changes nothing. Otherwise it executes a pull-only context answering true. The store invariant (master never a version, countdown in 0..40) is kept. |
| Store.GitDataStore.Push | fabric/fabric-git/src/main/java/io/fabric8/git/internal/GitDataStoreImpl.java:449-458 | Without the read lock it fails and changes nothing. Otherwise it pushes when a URL is set, answers nothing and changes nothing else. The store invariant (master never a version, countdown in 0..40) is kept. |
| Store.GitDataStore.GetInitialVersions | fabric/fabric-git/src/main/java/io/fabric8/git/internal/GitDataStoreImpl.java:414-436 | Without the read lock it fails. Otherwise the versions set becomes exactly the non-master local branch names, which are also the answer. Nothing else in the state changes: no git command, no notification. The store invariant (master never a version, countdown in 0..40) is kept. |
| Store.GitDataStore.UnderWriteLock | fabric/fabric-git/src/main/java/io/fabric8/git/internal/GitDataStoreImpl.java:822-830 | The write lock is acquired and released around the execution, so the holds are unchanged. A thread holding only read locks fails with the lock timeout and changes nothing. The store invariant (master never a version, countdown in 0..40) is kept. |
| Store.GitDataStore.DeleteVersion | fabric/fabric-git/src/main/java/io/fabric8/git/internal/GitDataStoreImpl.java:574-591 | Under the write lock, it executes the branch removal with the empty context. A thread holding only read locks fails with the lock timeout and changes nothing. The store invariant (master never a version, countdown in 0..40) is kept. |
| Store.GitDataStore.CreateVersion | fabric/fabric-git/src/main/java/io/fabric8/git/internal/GitDataStoreImpl.java:491-511 | A pull-first write context copies the parent branch to the new version and writes the attributes when given. A thread holding only read locks fails with the lock timeout and changes nothing. The store invariant (master never a version, countdown in 0..40) is kept. |
| Store.GitDataStore.CreateVersionFrom | fabric/fabric-git/src/main/java/io/fabric8/git/internal/GitDataStoreImpl.java:514-533 | A write context creates the version branch, writes the version's own attributes and writes every profile. A thread holding only read locks fails with the lock timeout and changes nothing. The store invariant (master never a version, countdown in 0..40) is kept. |
| Store.GitDataStore.CreateProfile | fabric/fabric-git/src/main/java/io/fabric8/git/internal/GitDataStoreImpl.java:594-608 | A write context writes the profile and its parents, creating missing directories. A thread holding only read locks fails with the lock timeout and changes nothing. The store invariant (master never a version, countdown in 0..40) is kept. |
| Store.GitDataStore.UpdateProfile | fabric/fabric-git/src/main/java/io/fabric8/git/internal/GitDataStoreImpl.java:611-625 | A write context writes the profile and its parents without creating directories. A thread holding only read locks fails with the lock timeout and changes nothing. The store invariant (master never a version, countdown in 0..40) is kept. |
| Store.GitDataStore.DeleteProfile | fabric/fabric-git/src/main/java/io/fabric8/git/internal/GitDataStoreImpl.java:656-673 | A write context removes the profile directory when present and records the removal in the message. A thread holding only read locks fails with the lock timeout and changes nothing. The store invariant (master never a version, countdown in 0..40) is kept. |
| Store.Enumeration | fabric/fabric-git/src/main/java/io/fabric8/git/internal/GitDataStoreImpl.java:966 | A set is enumerated with each member exactly once, in an order nothing else depends on. |

## Left out

- Lock acquisition is modelled only by its outcome for the calling thread. Blocking, the 10-second timed `tryLock` and other threads are not modelled.
- The scheduled pull/push cycle and the `SharedCount` listener are not modelled, because they are threads and ZooKeeper. The same goes for `GitDataStoreListener.onRemoteUrlChanged` and `runRemoteUrlChanged`, whose double pull depends on `GitContext` internals outside this file.
- Credentials, the global `ProxySelector` install and restore, import/export, `loadFileConfiguration` reads and the context class loader swapping are not modelled. They are I/O and foreign calls.
- JGit is not run. Each command is an entry in the log, and each answer is a field of the `Remote` parameter.
  - A checkout or merge does not change the modelled profile directories, which hold the checked-out branch as the operations left it.
  - Exceptions other than the fetch failure are not modelled: the `CannotDeleteCurrentBranchException` fallback to master, and the pull's catch-all, which swallows an error half-way through the branch loop.
- `Effects.Executed`: on failure the model gives the error message, but not the partial effects that the phases before the failure left behind.
- `Store.GitDataStore.DoPushInternal`: its failure case on a missing read lock is reachable in the model only because the method is modelled on its own. Every caller in the source holds the lock.
- `ProfileBuilder`/`VersionBuilder` internals are not in this file and are not modelled:
  - how a profile's parents' configurations are merged;
  - how `loadVersion` merges the master and version branches;
  - the `VersionSequence` sort in `getVersions`.

  `Store.GitDataStore.GetVersions` therefore returns an unsorted enumeration.
- `GitProfiles.getBranch`, `GitHelpers.getProfilesDirectory` and `Profiles.PROFILE_FOLDER_SUFFIX` are not part of this model. The branch is a parameter of the profile operations, and the suffix a parameter of the derivation.
- `Files.getRelativePath` is modelled as the path names, each preceded by the platform separator; `getFilePattern` strips the leading one. The order of `File.listFiles` is the order of a folder's children.
- The cache miss of `getProfileFromCache`, which loads a version, is not modelled. The parameter `existing` answers with the cached profile's file names.
- `Version.toString`, which appears in commit messages, is rendered as the version id.
- The readers `getVersion`, `getProfile`, `getFileConfiguration` and the like are not modelled, and neither are `setRemote` and `assertValid`.
- `doCreateProfile` asserts that the metadata file does not exist yet. That assertion always passes here, because `Effects.CreatedDirectory` creates the directory only when it is missing, so it is not modelled as a failure.
- `setFileConfigurationsInternal` removes and adds files one at a time. The model issues one remove command and one add command for the whole set of files.
- `String.matches` is an uninterpreted predicate; regular-expression semantics are not modelled.
- `Resolver.ResolveVersionProfiles` requires the `PARENTS` attributes to be acyclic, which the ghost `rank` states. On a cycle the source recurses until the stack overflows.
- A parent carrying the profile's own id is written, and the profile is then written again under that id, as in the source, where the visited check comes before the parent loop and the id is added after it. `Effects.WalkShape` and `Effects.ShapeAppend` hold for such walks too.
