/** `GitDataStoreImpl` itself: the fields it updates in place, the lock the calling
    thread holds, and the methods that pull, commit, push, write profiles and run
    operations. Each method is proved against the function in `Effects` that says what
    the step does to the state, and the properties of the store are proved there. */
module Store {
  import opened Wrappers
  import opened Text
  import opened Types
  import opened Refs
  import opened Git
  import opened Sync
  import opened Effects

  /** The distinct members of a sequence. */
  ghost function Members(xs: seq<string>): set<string> {
    set x | x in xs
  }

  lemma MembersOf(xs: seq<string>, v: string)
    ensures v in Members(xs) <==> v in xs
  {
  }

  lemma MembersSnoc(xs: seq<string>, v: string)
    ensures Members(xs + [v]) == Members(xs) + {v}
  {
  }

  /** One more element of an enumeration: it is new, and the prefix's members grow by it. */
  lemma EnumerationStep(order: seq<string>, names: set<string>, i: nat)
    requires Enumerates(order, names) && i < |order|
    ensures order[..i + 1] == order[..i] + [order[i]]
    ensures order[i] !in Members(order[..i])
    ensures Members(order[..i + 1]) == Members(order[..i]) + {order[i]} <= names
  {
    assert order[..i + 1] == order[..i] + [order[i]];
    MembersSnoc(order[..i], order[i]);
    MembersOf(order[..i], order[i]);
  }

  /** A whole enumeration has exactly the enumerated set as members. */
  lemma EnumerationDone(order: seq<string>, names: set<string>)
    requires Enumerates(order, names)
    ensures order[..|order|] == order && Members(order) == names
  {
    assert order[..|order|] == order;
    forall v ensures v in Members(order) <==> v in names {
      MembersOf(order, v);
    }
  }

  /** Iterating over a hash set: every member once, in an order the set decides. */
  method Enumeration(names: set<string>) returns (order: seq<string>)
    ensures Enumerates(order, names)
  {
    order := [];
    var todo := names;
    while todo != {}
      invariant todo <= names
      invariant forall v :: v in order <==> v in names - todo
      invariant forall i, j :: 0 <= i < j < |order| ==> order[i] != order[j]
      decreases |todo|
    {
      var v :| v in todo;
      assert v !in order;
      order := order + [v];
      todo := todo - {v};
    }
  }

  class GitDataStore {
    /** The known version ids (`versions`). */
    var versions: set<string>
    /** The loaded versions (`versionCache`). */
    var cache: map<string, Version>
    var commitsWithoutGC: int
    var lastFetchWarning: Option<string>
    /** The fetch warnings logged. */
    var warnings: seq<string>
    /** The repository commands issued, in order. */
    var issued: seq<GitCommand>
    /** How many change notifications were fired. */
    var notifications: nat
    /** The working tree: profile directories and their files. */
    var tree: Tree
    /** The calling thread's read and write hold counts on `readWriteLock`. */
    var readHolds: nat
    var writeHolds: nat
    /** The name of the remote (`remoteRef`). */
    const remoteRef: string

    function State(): StoreState
      reads this
    {
      StoreState(versions, cache, commitsWithoutGC, lastFetchWarning, warnings, issued, notifications, tree)
    }

    /** The store's invariant: `Effects.Valid` of its state. */
    predicate Valid()
      reads this
    {
      Effects.Valid(State())
    }

    /** `assertReadLock`: a read hold, or the write lock, held by the calling thread. */
    predicate ReadLocked()
      reads this
    {
      readHolds > 0 || writeHolds > 0
    }

    /** `assertWriteLock`: the write lock held by the calling thread. */
    predicate WriteLocked()
      reads this
    {
      writeHolds > 0
    }

    constructor ()
      ensures State() == Initial() && Valid()
      ensures readHolds == 0 && writeHolds == 0 && remoteRef == "origin"
    {
      versions, cache, commitsWithoutGC := {}, map[], MAX_COMMITS_WITHOUT_GC;
      lastFetchWarning, warnings, issued := None, [], [];
      notifications, tree := 0, map[];
      readHolds, writeHolds := 0, 0;
      remoteRef := "origin";
    }

    // ------------------------------------------------------------ the lock

    /** `aquireWriteLock` for the calling thread: the write lock is reentrant, but a
        thread that holds only read locks cannot upgrade and times out. */
    method AcquireWriteLock() returns (r: Result<(), string>)
      modifies this`writeHolds
      ensures r.Success? <==> old(writeHolds) > 0 || readHolds == 0
      ensures r.Success? ==> writeHolds == old(writeHolds) + 1
      ensures r.Failure? ==> writeHolds == old(writeHolds) && r.error == "Cannot obtain profile write lock in time"
    {
      if writeHolds == 0 && readHolds > 0 {
        r := Failure("Cannot obtain profile write lock in time");
      } else {
        writeHolds := writeHolds + 1;
        r := Success(());
      }
    }

    method ReleaseWriteLock()
      requires writeHolds > 0
      modifies this`writeHolds
      ensures writeHolds == old(writeHolds) - 1
    {
      writeHolds := writeHolds - 1;
    }

    /** `aquireReadLock` for the calling thread: a read hold is always granted to a
        thread that holds the write lock or other read holds. */
    method AcquireReadLock()
      modifies this`readHolds
      ensures readHolds == old(readHolds) + 1
    {
      readHolds := readHolds + 1;
    }

    method ReleaseReadLock()
      requires readHolds > 0
      modifies this`readHolds
      ensures readHolds == old(readHolds) - 1
    {
      readHolds := readHolds - 1;
    }

    // ------------------------------------------------------------ version bookkeeping

    method AddVersion(versionId: string)
      modifies this`versions
      ensures State() == WithVersion(old(State()), versionId)
    {
      if versionId != MASTER_BRANCH {
        versions := versions + {versionId};
      }
    }

    method RemoveVersionFromCaches(versionId: string)
      modifies this`versions, this`cache
      ensures State() == WithoutVersion(old(State()), versionId)
    {
      cache := cache - {versionId};
      versions := versions - {versionId};
    }

    method FireChangeNotification()
      modifies this`cache, this`notifications
      ensures State() == Notified(old(State()))
    {
      cache := map[];
      notifications := notifications + 1;
    }

    method HasVersion(versionId: string) returns (b: bool)
      ensures b <==> versionId in versions
    {
      b := versionId in versions;
    }

    /** `getVersions`: every known version id, each once. */
    method GetVersions() returns (ids: seq<string>)
      ensures Enumerates(ids, versions)
    {
      ids := Enumeration(versions);
    }

    // ------------------------------------------------------------ pull, commit, push

    /** `doPullInternal`: fetch, then reconcile every branch name seen locally or on the
        remote, in an order the source leaves to a hash set, returned as `order`. */
    method DoPullInternal(ctx: GitContext, remote: Remote, doDelete: bool)
      returns (r: Result<(GitContext, bool), string>, ghost order: seq<string>)
      modifies this`versions, this`cache, this`lastFetchWarning, this`warnings, this`issued
      ensures r.Failure? <==> !WriteLocked() || ClaimPull(ctx).None?
      ensures r.Failure? ==> State() == old(State())
      ensures r.Success? ==> r.value.0 == ClaimPull(ctx).value
      ensures r.Success? ==> OrderFits(order, remote, remoteRef)
      ensures r.Success? ==> (State(), r.value.1) == Pulled(old(State()), remote, remoteRef, doDelete, order)
      ensures old(Valid()) ==> Valid()
    {
      order := [];
      ghost var s := State();
      if !WriteLocked() {
        return Failure("No write lock obtained"), order;
      }
      var claimed := ClaimPull(ctx);
      if claimed.None? {
        return Failure("Pull not required in context"), order;
      }
      var context := claimed.value;
      if IsNullOrBlank(remote.url) {
        return Success((context, false)), order;
      }
      ghost var s0 := State();
      var fetched := FetchRemote(remote);
      if !fetched {
        return Success((context, false)), order;
      }
      assert State() == Issue(s0, [ResetHard, Fetch(remoteRef)]).(lastFetchWarning := None);
      var hasChanged;
      hasChanged, order := ReconcileBranches(remote, doDelete);
      r := Success((context, hasChanged));
      if Effects.Valid(s) {
        PullEffect(s, remote, remoteRef, doDelete, order);
      }
    }

    /** The fetch of `doPullInternal`: reset the workspace and fetch; a failure logs its
        message once until a different one comes, and a success re-arms the warning. */
    method FetchRemote(remote: Remote) returns (fetched: bool)
      modifies this`lastFetchWarning, this`warnings, this`issued
      ensures fetched <==> remote.fetch.Fetched?
      ensures issued == old(issued) + [ResetHard, Fetch(remoteRef)]
      ensures lastFetchWarning == WarningAfter(old(lastFetchWarning), remote.fetch)
      ensures warnings == old(warnings) + WarningsLogged(old(lastFetchWarning), remote.fetch)
    {
      issued := issued + [ResetHard, Fetch(remoteRef)];
      if remote.fetch.FetchFailed? {
        var message := remote.fetch.message;
        // a null message makes the comparison throw, which the pull swallows
        if message.Some? && message != lastFetchWarning {
          warnings := warnings + [message.value];
          lastFetchWarning := message;
        }
        return false;
      }
      lastFetchWarning := None;
      fetched := true;
    }

    /** The loop of `doPullInternal` over every branch name seen locally or on the
        remote, in the order the hash set yields them, returned as `order`. */
    method ReconcileBranches(remote: Remote, doDelete: bool) returns (hasChanged: bool, order: seq<string>)
      modifies this`versions, this`cache, this`issued
      ensures Enumerates(order, Names(BranchesOf(remote.refs, remoteRef)))
      ensures State() == PullAlong(old(State()), order, BranchesOf(remote.refs, remoteRef), doDelete, remote, remoteRef)
      ensures var b := BranchesOf(remote.refs, remoteRef);
        hasChanged <==> ChangedIn(b, doDelete, remote, Names(b)) != {}
    {
      var local, tracked, names := ListBranches(remote.refs, remoteRef);
      ghost var b := BranchesOf(remote.refs, remoteRef);
      ghost var s1 := State();
      order := Enumeration(names);
      hasChanged := false;
      ghost var done: set<string> := {};
      for i := 0 to |order|
        invariant done == Members(order[..i]) && done <= Names(b)
        invariant State() == PullAlong(s1, order[..i], b, doDelete, remote, remoteRef)
        invariant hasChanged <==> ChangedIn(b, doDelete, remote, done) != {}
      {
        var version := order[i];
        EnumerationStep(order, Names(b), i);
        var changed := ReconcileBranch(version, local, tracked, remote, doDelete);
        PullAlongSnoc(s1, order[..i], version, b, doDelete, remote, remoteRef);
        VersionsStep(s1.versions, b, doDelete, remote, done, version);
        hasChanged := hasChanged || changed;
        done := done + {version};
      }
      EnumerationDone(order, Names(b));
    }

    /** One branch name of the pull: delete the local branch the remote dropped (only
        when asked, never master, and only if the remote has branches at all), create a
        tracking branch for a new remote one, or merge the remote commit into a branch
        that moved; `changed` says whether this counts as a change. */
    method ReconcileBranch(version: string, local: map<string, CommitId>, tracked: map<string, CommitId>, remote: Remote, doDelete: bool)
      returns (changed: bool)
      requires local == Heads(remote.refs, remoteRef) && tracked == Tracked(remote.refs, remoteRef)
      requires version in local.Keys + tracked.Keys
      modifies this`versions, this`cache, this`issued
      ensures State() == PullStep(old(State()), version, BranchesOf(remote.refs, remoteRef), doDelete, remote, remoteRef)
      ensures changed == Changes(Decide(version, BranchesOf(remote.refs, remoteRef), doDelete, remote))
    {
      changed := false;
      if tracked == map[] {
      } else if version !in tracked {
        if doDelete && version != MASTER_BRANCH {
          issued := issued + [DeleteBranch(version)];
          RemoveVersionFromCaches(version);
          changed := true;
        }
      } else if version !in local {
        AddVersion(version);
        issued := issued + [CreateTrackingBranch(version, remoteRef + "/" + version)];
        changed := true;
      } else {
        var localCommit, remoteCommit := local[version], tracked[version];
        if localCommit != remoteCommit {
          issued := issued + [CleanDirectories, ForceCheckout("HEAD"), ForceCheckout(version), MergeTheirs(version, remoteCommit)];
          changed := remote.mergeStatus(version) != AlreadyUpToDate && HasChanged(localCommit, remoteCommit, remote.diffEntries);
        }
      }
    }

    /** `doCommitInternal`: the context must require a commit not yet made and carry a
        message. */
    method DoCommitInternal(ctx: GitContext) returns (r: Result<GitContext, string>)
      modifies this`commitsWithoutGC, this`issued
      ensures r.Failure? <==> ClaimCommit(ctx).None? || MessageEmpty(ctx)
      ensures r.Failure? ==> State() == old(State())
      ensures r.Success? ==> r.value == ClaimCommit(ctx).value && State() == Committed(old(State()), ctx.message)
      ensures old(Valid()) ==> Valid()
    {
      var claimed := ClaimCommit(ctx);
      if claimed.None? {
        return Failure("Commit not required in context");
      }
      if MessageEmpty(ctx) {
        return Failure("Empty commit message");
      }
      issued := issued + [AddAll, Commit(ctx.message)];
      commitsWithoutGC := commitsWithoutGC - 1;
      if commitsWithoutGC < 0 {
        commitsWithoutGC := MAX_COMMITS_WITHOUT_GC;
        issued := issued + [CollectGarbage];
      }
      r := Success(claimed.value);
    }

    /** `doPushInternal`: a failing push is logged and ignored. */
    method DoPushInternal(ctx: GitContext, remote: Remote) returns (r: Result<GitContext, string>)
      modifies this`issued
      ensures r.Failure? <==> !ReadLocked() || ClaimPush(ctx).None?
      ensures r.Failure? ==> issued == old(issued)
      ensures r.Success? ==> r.value == ClaimPush(ctx).value && State() == Pushed(old(State()), remote)
    {
      if !ReadLocked() {
        return Failure("No read lock obtained");
      }
      var claimed := ClaimPush(ctx);
      if claimed.None? {
        return Failure("Push not required in context");
      }
      if !IsNullOrBlank(remote.url) {
        issued := issued + [PushAll];
      }
      r := Success(claimed.value);
    }

    // ------------------------------------------------------------ profile writes

    /** `createProfileDirectoryAfterCheckout` with `doCreateProfile`. */
    method CreateProfileDirectoryAfterCheckout(ctx: GitContext, profileId: string) returns (c: GitContext)
      requires WriteLocked()
      modifies this`tree, this`issued
      ensures (State(), c) == CreatedDirectory(old(State()), ctx, profileId)
    {
      c := ctx;
      if profileId !in tree {
        c := AddMessage(c, Note("Create profile: " + profileId));
        tree := tree[profileId := map[AGENT_METADATA_FILE := "#Profile:" + profileId + "\n"]];
        issued := issued + [AddFiles(profileId, {AGENT_METADATA_FILE})];
        c := AddMessage(c, Note("Added profile " + profileId));
      }
    }

    /** `setFileConfigurationsInternal`: remove the existing profile's files that the new
        configurations drop, then write the new ones. */
    method SetFileConfigurationsInternal(ctx: GitContext, profileId: string, files: map<string, Content>, existing: Option<set<string>>)
      returns (c: GitContext)
      requires WriteLocked()
      modifies this`tree, this`issued
      ensures (State(), c) == FilesSet(old(State()), ctx, profileId, StaleFiles(existing, files), files)
    {
      c := ctx;
      if existing.Some? {
        var removeFiles := existing.value - files.Keys;
        if removeFiles != {} {
          c := AddMessage(c, RemovedConfigurations(removeFiles, profileId));
          var present := if profileId in tree then removeFiles * tree[profileId].Keys else {};
          if present != {} {
            tree := tree[profileId := tree[profileId] - present];
            issued := issued + [RemoveFiles(profileId, present)];
          }
        }
      }
      if files != map[] {
        tree := tree[profileId := FilesOf(tree, profileId) + files];
        issued := issued + [AddFiles(profileId, files.Keys)];
        c := AddMessage(c, Note("Update configurations for profile: " + profileId));
      }
    }

    /** `createOrUpdateProfile`: parents first, then the profile itself, skipping every
        id already in `visited`; `seen` is the visited set afterwards. */
    method CreateOrUpdateProfile(ctx: GitContext, profile: Profile, allowCreate: bool, visited: set<string>, existing: Existing)
      returns (c: GitContext, seen: set<string>, id: string)
      requires WriteLocked()
      modifies this`tree, this`issued
      ensures (State(), c) == WriteAll(old(State()), ctx, Walk(profile, visited), allowCreate, existing)
      ensures seen == visited + IdsOf(Walk(profile, visited))
      ensures id == profile.id
      decreases profile, 1
    {
      c, seen, id := ctx, visited, profile.id;
      if profile.id in visited {
        return;
      }
      ghost var s0 := State();
      c, seen := CreateOrUpdateParents(c, profile, allowCreate, visited, existing);
      ghost var walked := WalkFrom(profile, 0, visited);
      WalkUnfold(profile, visited);
      WriteAllSnoc(s0, ctx, walked, profile, allowCreate, existing);
      IdsOfSnoc(walked, profile);
      c := WriteProfileItself(c, profile, allowCreate, existing);
      seen := seen + {profile.id};
    }

    /** The loop of `createOrUpdateProfile` over the parents, in declared order, each
        seeing the ids the earlier ones visited. */
    method CreateOrUpdateParents(ctx: GitContext, profile: Profile, allowCreate: bool, visited: set<string>, existing: Existing)
      returns (c: GitContext, seen: set<string>)
      requires WriteLocked()
      modifies this`tree, this`issued
      ensures (State(), c) == WriteAll(old(State()), ctx, WalkFrom(profile, 0, visited), allowCreate, existing)
      ensures seen == visited + IdsOf(WalkFrom(profile, 0, visited))
      decreases profile, 0
    {
      c, seen := ctx, visited;
      ghost var s0 := State();
      ghost var walked: seq<Profile> := [];
      var i := 0;
      while i < |profile.parents|
        invariant 0 <= i <= |profile.parents|
        invariant walked + WalkFrom(profile, i, seen) == WalkFrom(profile, 0, visited)
        invariant seen == visited + IdsOf(walked)
        invariant (State(), c) == WriteAll(s0, ctx, walked, allowCreate, existing)
      {
        ghost var w := Walk(profile.parents[i], seen);
        ghost var seenBefore := seen;
        var parentId;
        c, seen, parentId := CreateOrUpdateProfile(c, profile.parents[i], allowCreate, seen, existing);
        assert (State(), c) == WriteAll(s0, ctx, walked + w, allowCreate, existing) by {
          WriteAllAppend(s0, ctx, walked, w, allowCreate, existing);
        }
        ParentWalked(profile, i, visited, walked, seenBefore);
        walked := walked + w;
        i := i + 1;
      }
      WalkFromDone(profile, seen);
      assert walked == WalkFrom(profile, 0, visited);
    }

    /** One step of the parents loop on the walk alone: the parent's walk extends the
        walked prefix, and the ids it adds are the ones the next parent sees. */
    lemma ParentWalked(profile: Profile, i: nat, visited: set<string>, walked: seq<Profile>, seenBefore: set<string>)
      requires i < |profile.parents|
      requires walked + WalkFrom(profile, i, seenBefore) == WalkFrom(profile, 0, visited)
      requires seenBefore == visited + IdsOf(walked)
      ensures var w := Walk(profile.parents[i], seenBefore);
        seenBefore + IdsOf(w) == visited + IdsOf(walked + w) &&
        (walked + w) + WalkFrom(profile, i + 1, seenBefore + IdsOf(w)) == WalkFrom(profile, 0, visited)
    {
      var w := Walk(profile.parents[i], seenBefore);
      IdsOfAppend(walked, w);
      WalkFromUnfold(profile, i, seenBefore);
      AppendAssociates(walked, w, WalkFrom(profile, i + 1, seenBefore + IdsOf(w)));
    }

    lemma AppendAssociates(a: seq<Profile>, b: seq<Profile>, c: seq<Profile>)
      ensures a + (b + c) == (a + b) + c
    {
    }

    /** The body of `createOrUpdateProfile` after the parents: create the directory if
        allowed, set the file configurations, and leave a warning message if the commit
        message is still empty. */
    method WriteProfileItself(ctx: GitContext, profile: Profile, allowCreate: bool, existing: Existing) returns (c: GitContext)
      requires WriteLocked()
      modifies this`tree, this`issued
      ensures (State(), c) == WriteOne(old(State()), ctx, profile, allowCreate, existing)
    {
      c := ctx;
      if allowCreate {
        c := CreateProfileDirectoryAfterCheckout(c, profile.id);
      }
      c := SetFileConfigurationsInternal(c, profile.id, profile.files, existing(profile.version, profile.id));
      if MessageEmpty(c) {
        c := AddMessage(c, Note("WARNING - Profile with no content: " + profile.version + "/" + profile.id));
      }
    }

    // ------------------------------------------------------------ operations

    /** `checkoutVersion`. */
    method CheckoutVersion(branch: string)
      modifies this`versions, this`issued
      ensures State() == CheckedOut(old(State()), branch)
    {
      issued := issued + [CheckoutBranch(branch)];
      AddVersion(branch);
    }

    /** `createOrCheckoutVersion`. */
    method CreateOrCheckoutVersion(versionId: string)
      requires WriteLocked()
      modifies this`versions, this`issued
      ensures State() == CreatedOrCheckedOut(old(State()), versionId, remoteRef)
    {
      issued := issued + [CreateOrCheckoutBranch(versionId, remoteRef)];
      AddVersion(versionId);
    }

    /** The `GitOperation` bodies of the store's public operations. */
    method RunOperation(ctx: GitContext, op: Operation) returns (r: Result<(GitContext, Value), string>)
      modifies this`versions, this`cache, this`tree, this`issued
      ensures var e := Ran(old(State()), op, ctx, remoteRef, WriteLocked());
        (r.Success? <==> e.Success?) &&
        (r.Success? ==> State() == e.value.0 && r.value == (e.value.1, e.value.2))
      ensures old(Valid()) ==> Valid()
    {
      match op
      case Constant(v) =>
        r := Success((ctx, v));
      case ListInitialVersions(branches) =>
        var answer := HeadVersions(branches);
        versions := set v | v in answer;
        assert MASTER_BRANCH !in versions by {
          VersionsOfMembership(branches, MASTER_BRANCH);
        }
        r := Success((ctx, Ids(answer)));
      case RemoveVersion(id) =>
        RemoveVersionFromCaches(id);
        issued := issued + [RemoveBranch(id)];
        r := Success((ctx, NoValue));
      case CopyVersion(parent, id, attributes) =>
        r := RunCopyVersion(ctx, parent, id, attributes);
      case WriteVersion(version, existing) =>
        r := RunWriteVersion(ctx, version, existing);
      case WriteProfile(branch, profile, allowCreate, existing) =>
        r := RunWriteProfile(ctx, branch, profile, allowCreate, existing);
      case RemoveProfile(branch, id) =>
        r := RunRemoveProfile(ctx, branch, id);
    }

    /** The operation of `createVersion(parentId, versionId, attributes)`. */
    method RunCopyVersion(ctx: GitContext, parent: string, id: string, attributes: Option<map<string, string>>)
      returns (r: Result<(GitContext, Value), string>)
      modifies this`versions, this`issued
      ensures var e := Ran(old(State()), CopyVersion(parent, id, attributes), ctx, remoteRef, WriteLocked());
        (r.Success? <==> e.Success?) &&
        (r.Success? ==> State() == e.value.0 && r.value == (e.value.1, e.value.2))
      ensures old(Valid()) ==> Valid()
    {
      CheckoutVersion(parent);
      if !WriteLocked() {
        return Failure("No write lock obtained");
      }
      CreateOrCheckoutVersion(id);
      if attributes.Some? {
        issued := issued + [WriteVersionAttributes(attributes.value)];
      }
      r := Success((AddMessage(ctx, Note("Create version: " + parent + " => " + id)), NoValue));
    }

    /** The operation of `createVersion(Version)`. */
    method RunWriteVersion(ctx: GitContext, version: Version, existing: Existing)
      returns (r: Result<(GitContext, Value), string>)
      modifies this`versions, this`tree, this`issued
      ensures var e := Ran(old(State()), WriteVersion(version, existing), ctx, remoteRef, WriteLocked());
        (r.Success? <==> e.Success?) &&
        (r.Success? ==> State() == e.value.0 && r.value == (e.value.1, e.value.2))
      ensures old(Valid()) ==> Valid()
    {
      var c := AddMessage(ctx, Note("Create version: " + version.id));
      if !WriteLocked() {
        return Failure("No write lock obtained");
      }
      CreateOrCheckoutVersion(version.id);
      issued := issued + [WriteVersionAttributes(version.attributes)];
      c := WriteProfiles(c, version.profiles, existing);
      r := Success((c, Id(version.id)));
    }

    /** The operation of `createProfile` and `updateProfile`. */
    method RunWriteProfile(ctx: GitContext, branch: string, profile: Profile, allowCreate: bool, existing: Existing)
      returns (r: Result<(GitContext, Value), string>)
      modifies this`versions, this`tree, this`issued
      ensures var e := Ran(old(State()), WriteProfile(branch, profile, allowCreate, existing), ctx, remoteRef, WriteLocked());
        (r.Success? <==> e.Success?) &&
        (r.Success? ==> State() == e.value.0 && r.value == (e.value.1, e.value.2))
      ensures old(Valid()) ==> Valid()
    {
      CheckoutVersion(branch);
      if !WriteLocked() {
        return Failure("No write lock obtained");
      }
      var c, _, id := CreateOrUpdateProfile(ctx, profile, allowCreate, {}, existing);
      r := Success((c, Id(id)));
    }

    /** The operation of `deleteProfile`. */
    method RunRemoveProfile(ctx: GitContext, branch: string, id: string)
      returns (r: Result<(GitContext, Value), string>)
      modifies this`versions, this`tree, this`issued
      ensures var e := Ran(old(State()), RemoveProfile(branch, id), ctx, remoteRef, WriteLocked());
        r.Success? && e.Success? && State() == e.value.0 && r.value == (e.value.1, e.value.2)
      ensures old(Valid()) ==> Valid()
    {
      CheckoutVersion(branch);
      if id in tree {
        tree := tree - {id};
        issued := issued + [RemoveDirectory(id)];
      }
      r := Success((AddMessage(ctx, Note("Removed profile " + id)), NoValue));
    }

    /** The loop of `createVersion(Version)`: every profile of the version, each with a
        fresh visited set, creating directories as needed. */
    method WriteProfiles(ctx: GitContext, profiles: seq<Profile>, existing: Existing) returns (c: GitContext)
      requires WriteLocked()
      modifies this`tree, this`issued
      ensures (State(), c) == WriteEach(old(State()), ctx, profiles, existing)
    {
      c := ctx;
      ghost var s0 := State();
      for i := 0 to |profiles|
        invariant (State(), c) == WriteEach(s0, ctx, profiles[..i], existing)
      {
        assert profiles[..i + 1][..i] == profiles[..i];
        var seen, profileId;
        c, seen, profileId := CreateOrUpdateProfile(c, profiles[i], true, {}, existing);
      }
      assert profiles[..|profiles|] == profiles;
    }

    /** `executeInternal`: assert the lock the context needs, pull (never deleting
        branches), run the operation, commit, push, and notify when the pull changed
        something or a commit was made. */
    method ExecuteInternal(ctx: GitContext, op: Operation, remote: Remote)
      returns (r: Result<Value, string>, ghost order: seq<string>)
      modifies this`versions, this`cache, this`commitsWithoutGC, this`lastFetchWarning, this`warnings
      modifies this`issued, this`notifications, this`tree
      ensures r.Success? && ctx.requirePull ==> OrderFits(order, remote, remoteRef)
      ensures var e := Executed(old(State()), ctx, op, remote, remoteRef, ReadLocked(), WriteLocked(), order);
        (r.Success? <==> e.Success?) && (r.Success? ==> State() == e.value.0 && r.value == e.value.1)
      ensures (ctx.requirePull || ctx.requireCommit) && !WriteLocked() ==>
        r == Failure("No write lock obtained") && State() == old(State())
      ensures !(ctx.requirePull || ctx.requireCommit) && !ReadLocked() ==>
        r == Failure("No read lock obtained") && State() == old(State())
      ensures old(Valid()) ==> Valid()
    {
      order := [];
      if ctx.requirePull || ctx.requireCommit {
        if !WriteLocked() {
          return Failure("No write lock obtained"), order;
        }
      } else if !ReadLocked() {
        return Failure("No read lock obtained"), order;
      }
      r, order := Proceed(ctx, op, remote);
    }

    /** The body of `executeInternal` once the lock is checked. */
    method Proceed(ctx: GitContext, op: Operation, remote: Remote) returns (r: Result<Value, string>, ghost order: seq<string>)
      requires ReadLocked()
      requires ctx.requirePull || ctx.requireCommit ==> WriteLocked()
      modifies this`versions, this`cache, this`commitsWithoutGC, this`lastFetchWarning, this`warnings
      modifies this`issued, this`notifications, this`tree
      ensures r.Success? && ctx.requirePull ==> OrderFits(order, remote, remoteRef)
      ensures var e := Proceeded(old(State()), ctx, op, remote, remoteRef, WriteLocked(), order);
        (r.Success? <==> e.Success?) && (r.Success? ==> State() == e.value.0 && r.value == e.value.1)
      ensures old(Valid()) ==> Valid()
    {
      var pulled;
      pulled, order := PullIfRequired(ctx, remote);
      if pulled.Failure? {
        return Failure(pulled.error), order;
      }
      ghost var s1 := State();
      var ran := RunOperation(pulled.value.0, op);
      if ran.Failure? {
        return Failure(ran.error), order;
      }
      assert Ran(s1, op, pulled.value.0, remoteRef, WriteLocked()).value == (State(), ran.value.0, ran.value.1);
      r := FinishPhases(ran.value.0, ran.value.1, remote, pulled.value.1);
    }

    /** The pull phase of `executeInternal`, run when the context requires a pull. */
    method PullIfRequired(ctx: GitContext, remote: Remote) returns (r: Result<(GitContext, bool), string>, ghost order: seq<string>)
      requires ctx.requirePull ==> WriteLocked()
      modifies this`versions, this`cache, this`lastFetchWarning, this`warnings, this`issued
      ensures r.Success? && ctx.requirePull ==> OrderFits(order, remote, remoteRef)
      ensures var e := PullPhase(old(State()), ctx, remote, remoteRef, order);
        (r.Success? <==> e.Success?) && (r.Success? ==> State() == e.value.0 && r.value == (e.value.1, e.value.2))
      ensures old(Valid()) ==> Valid()
    {
      order := [];
      if !ctx.requirePull {
        return Success((ctx, false)), order;
      }
      r, order := DoPullInternal(ctx, remote, false);
    }

    /** The phases of `executeInternal` after the operation: commit and push when the
        context requires them, then notify once if the pull changed something or a
        commit was made. */
    method FinishPhases(c: GitContext, value: Value, remote: Remote, pullChanged: bool) returns (r: Result<Value, string>)
      requires ReadLocked()
      modifies this`cache, this`commitsWithoutGC, this`issued, this`notifications
      ensures var e := Finished(old(State()), c, value, remote, pullChanged);
        (r.Success? <==> e.Success?) && (r.Success? ==> State() == e.value.0 && r.value == e.value.1)
      ensures old(Valid()) ==> Valid()
    {
      var changeNotification := pullChanged;
      var context := c;
      if context.requireCommit {
        var committed := DoCommitInternal(context);
        if committed.Failure? {
          return Failure(committed.error);
        }
        context := committed.value;
        changeNotification := true;
      }
      if context.requirePush {
        var pushed := DoPushInternal(context, remote);
        if pushed.Failure? {
          return Failure(pushed.error);
        }
        context := pushed.value;
      }
      if changeNotification {
        FireChangeNotification();
      }
      r := Success(value);
    }
 
    // ------------------------------------------------------------ the public operations

    /** `pull`: the write lock must be held; the operation answers true. */
    method Pull(remote: Remote) returns (r: Result<Value, string>, ghost order: seq<string>)
      modifies this`versions, this`cache, this`commitsWithoutGC, this`lastFetchWarning, this`warnings
      modifies this`issued, this`notifications, this`tree
      ensures !WriteLocked() ==> r == Failure("No write lock obtained") && State() == old(State())
      ensures old(Valid()) ==> Valid()
      ensures var e := Executed(old(State()), SetRequirePull(NewContext(), true), Constant(Flag(true)), remote, remoteRef, ReadLocked(), WriteLocked(), order);
        (r.Success? <==> e.Success?) && (r.Success? ==> State() == e.value.0 && r.value == e.value.1)
    {
      order := [];
      if !WriteLocked() {
        return Failure("No write lock obtained"), order;
      }
      r, order := ExecuteInternal(SetRequirePull(NewContext(), true), Constant(Flag(true)), remote);
    }

    /** `push`: a read hold or the write lock must be held; the operation answers
        nothing. */
    method Push(remote: Remote) returns (r: Result<Value, string>)
      modifies this`versions, this`cache, this`commitsWithoutGC, this`lastFetchWarning, this`warnings
      modifies this`issued, this`notifications, this`tree
      ensures !ReadLocked() ==> r == Failure("No read lock obtained") && State() == old(State())
      ensures ReadLocked() ==> r == Success(NoValue) && State() == Pushed(old(State()), remote)
      ensures old(Valid()) ==> Valid()
    {
      if !ReadLocked() {
        return Failure("No read lock obtained");
      }
      ghost var order;
      r, order := ExecuteInternal(RequirePush(NewContext()), Constant(NoValue), remote);
      PushOnlyPushes(old(State()), remote, remoteRef, WriteLocked(), order);
    }

    /** `getInitialVersions`: a read operation that lists the local branches other than
        master and makes them the version set. */
    method GetInitialVersions(branches: seq<string>, remote: Remote) returns (r: Result<Value, string>)
      modifies this`versions, this`cache, this`commitsWithoutGC, this`lastFetchWarning, this`warnings
      modifies this`issued, this`notifications, this`tree
      ensures !ReadLocked() ==> r == Failure("No read lock obtained") && State() == old(State())
      ensures ReadLocked() ==>
        r == Success(Ids(VersionsOf(branches))) &&
        State() == old(State()).(versions := set v | v in VersionsOf(branches)) &&
        (forall v :: v in versions <==> HEADS + v in branches && v != MASTER_BRANCH)
      ensures old(Valid()) ==> Valid()
    {
      if !ReadLocked() {
        return Failure("No read lock obtained");
      }
      ghost var order;
      r, order := ExecuteInternal(NewContext(), ListInitialVersions(branches), remote);
      InitialVersionsListed(old(State()), branches, remote, remoteRef, WriteLocked(), order);
    }

    /** The public writers: take the write lock (a thread holding only read locks
        cannot), run the operation with the context the writer builds, release. */
    method UnderWriteLock(ctx: GitContext, op: Operation, remote: Remote) returns (r: Result<Value, string>, ghost order: seq<string>)
      modifies this`versions, this`cache, this`commitsWithoutGC, this`lastFetchWarning, this`warnings
      modifies this`issued, this`notifications, this`tree, this`writeHolds
      ensures writeHolds == old(writeHolds)
      ensures old(writeHolds) == 0 && readHolds > 0 ==>
        r == Failure("Cannot obtain profile write lock in time") && State() == old(State())
      ensures old(writeHolds) > 0 || readHolds == 0 ==>
        var e := Executed(old(State()), ctx, op, remote, remoteRef, true, true, order);
        (r.Success? <==> e.Success?) && (r.Success? ==> State() == e.value.0 && r.value == e.value.1)
      ensures old(Valid()) ==> Valid()
    {
      order := [];
      var locked := AcquireWriteLock();
      if locked.Failure? {
        return Failure(locked.error), order;
      }
      r, order := ExecuteInternal(ctx, op, remote);
      ReleaseWriteLock();
    }

    /** `deleteVersion`. */
    method DeleteVersion(versionId: string, remote: Remote) returns (r: Result<Value, string>, ghost order: seq<string>)
      modifies this`versions, this`cache, this`commitsWithoutGC, this`lastFetchWarning, this`warnings
      modifies this`issued, this`notifications, this`tree, this`writeHolds
      ensures writeHolds == old(writeHolds)
      ensures old(writeHolds) == 0 && readHolds > 0 ==>
        r == Failure("Cannot obtain profile write lock in time") && State() == old(State())
      ensures old(Valid()) ==> Valid()
      ensures old(writeHolds) > 0 || readHolds == 0 ==>
        var e := Executed(old(State()), NewContext(), RemoveVersion(versionId), remote, remoteRef, true, true, order);
        (r.Success? <==> e.Success?) && (r.Success? ==> State() == e.value.0 && r.value == e.value.1)
    {
      r, order := UnderWriteLock(NewContext(), RemoveVersion(versionId), remote);
    }

    /** `createVersion(parentId, versionId, attributes)`: pulls first. */
    method CreateVersion(parentId: string, versionId: string, attributes: Option<map<string, string>>, remote: Remote)
      returns (r: Result<Value, string>, ghost order: seq<string>)
      modifies this`versions, this`cache, this`commitsWithoutGC, this`lastFetchWarning, this`warnings
      modifies this`issued, this`notifications, this`tree, this`writeHolds
      ensures writeHolds == old(writeHolds)
      ensures old(writeHolds) == 0 && readHolds > 0 ==>
        r == Failure("Cannot obtain profile write lock in time") && State() == old(State())
      ensures old(Valid()) ==> Valid()
      ensures old(writeHolds) > 0 || readHolds == 0 ==>
        var e := Executed(old(State()), WriteContext(true), CopyVersion(parentId, versionId, attributes), remote, remoteRef, true, true, order);
        (r.Success? <==> e.Success?) && (r.Success? ==> State() == e.value.0 && r.value == e.value.1)
    {
      r, order := UnderWriteLock(WriteContext(true), CopyVersion(parentId, versionId, attributes), remote);
    }

    /** `createVersion(Version)`: writes the version's attributes and profiles. */
    method CreateVersionFrom(version: Version, existing: Existing, remote: Remote)
      returns (r: Result<Value, string>, ghost order: seq<string>)
      modifies this`versions, this`cache, this`commitsWithoutGC, this`lastFetchWarning, this`warnings
      modifies this`issued, this`notifications, this`tree, this`writeHolds
      ensures writeHolds == old(writeHolds)
      ensures old(writeHolds) == 0 && readHolds > 0 ==>
        r == Failure("Cannot obtain profile write lock in time") && State() == old(State())
      ensures old(Valid()) ==> Valid()
      ensures old(writeHolds) > 0 || readHolds == 0 ==>
        var e := Executed(old(State()), WriteContext(false), WriteVersion(version, existing), remote, remoteRef, true, true, order);
        (r.Success? <==> e.Success?) && (r.Success? ==> State() == e.value.0 && r.value == e.value.1)
    {
      r, order := UnderWriteLock(WriteContext(false), WriteVersion(version, existing), remote);
    }

    /** `createProfile`, on the branch that holds the profile. */
    method CreateProfile(branch: string, profile: Profile, existing: Existing, remote: Remote)
      returns (r: Result<Value, string>, ghost order: seq<string>)
      modifies this`versions, this`cache, this`commitsWithoutGC, this`lastFetchWarning, this`warnings
      modifies this`issued, this`notifications, this`tree, this`writeHolds
      ensures writeHolds == old(writeHolds)
      ensures old(writeHolds) == 0 && readHolds > 0 ==>
        r == Failure("Cannot obtain profile write lock in time") && State() == old(State())
      ensures old(Valid()) ==> Valid()
      ensures old(writeHolds) > 0 || readHolds == 0 ==>
        var e := Executed(old(State()), WriteContext(false), WriteProfile(branch, profile, true, existing), remote, remoteRef, true, true, order);
        (r.Success? <==> e.Success?) && (r.Success? ==> State() == e.value.0 && r.value == e.value.1)
    {
      r, order := UnderWriteLock(WriteContext(false), WriteProfile(branch, profile, true, existing), remote);
    }

    /** `updateProfile`: as `createProfile`, but no missing directory is created. */
    method UpdateProfile(branch: string, profile: Profile, existing: Existing, remote: Remote)
      returns (r: Result<Value, string>, ghost order: seq<string>)
      modifies this`versions, this`cache, this`commitsWithoutGC, this`lastFetchWarning, this`warnings
      modifies this`issued, this`notifications, this`tree, this`writeHolds
      ensures writeHolds == old(writeHolds)
      ensures old(writeHolds) == 0 && readHolds > 0 ==>
        r == Failure("Cannot obtain profile write lock in time") && State() == old(State())
      ensures old(Valid()) ==> Valid()
      ensures old(writeHolds) > 0 || readHolds == 0 ==>
        var e := Executed(old(State()), WriteContext(false), WriteProfile(branch, profile, false, existing), remote, remoteRef, true, true, order);
        (r.Success? <==> e.Success?) && (r.Success? ==> State() == e.value.0 && r.value == e.value.1)
    {
      r, order := UnderWriteLock(WriteContext(false), WriteProfile(branch, profile, false, existing), remote);
    }

    /** `deleteProfile`, on the branch that holds the profile. */
    method DeleteProfile(branch: string, profileId: string, remote: Remote)
      returns (r: Result<Value, string>, ghost order: seq<string>)
      modifies this`versions, this`cache, this`commitsWithoutGC, this`lastFetchWarning, this`warnings
      modifies this`issued, this`notifications, this`tree, this`writeHolds
      ensures writeHolds == old(writeHolds)
      ensures old(writeHolds) == 0 && readHolds > 0 ==>
        r == Failure("Cannot obtain profile write lock in time") && State() == old(State())
      ensures old(Valid()) ==> Valid()
      ensures old(writeHolds) > 0 || readHolds == 0 ==>
        var e := Executed(old(State()), WriteContext(false), RemoveProfile(branch, profileId), remote, remoteRef, true, true, order);
        (r.Success? <==> e.Success?) && (r.Success? ==> State() == e.value.0 && r.value == e.value.1)
    {
      r, order := UnderWriteLock(WriteContext(false), RemoveProfile(branch, profileId), remote);
    }
  }
}
