/** What each step of the store does to its state, as functions of the state before:
    the pull, the operations, the commit and push phases and the whole orchestration.
    The `Store` class is proved against these functions; the properties the source
    promises are proved here, about the functions. */
module Effects {
  import opened Wrappers
  import opened Text
  import opened Types
  import opened Refs
  import opened Git
  import opened Sync

  /** The marker file written into a new profile directory (`AGENT_METADATA_FILE`). */
  const AGENT_METADATA_FILE: string := "io.fabric8.agent.properties"

  /** The profile directories of the checked-out branch: profile id to the files in its
      directory (relative path to content). A key without files is an empty directory. */
  type Tree = map<string, map<string, Content>>

  /** The fields of the store that its operations change. `warnings` is the log of fetch
      warnings, `issued` the repository commands in order, and `notifications` counts the
      change notifications fired. */
  datatype StoreState = StoreState(
    versions: set<string>,
    cache: map<string, Version>,
    commitsWithoutGC: int,
    lastFetchWarning: Option<string>,
    warnings: seq<string>,
    issued: seq<GitCommand>,
    notifications: nat,
    tree: Tree)

  /** The state of a freshly activated store. */
  function Initial(): StoreState {
    StoreState({}, map[], MAX_COMMITS_WITHOUT_GC, None, [], [], 0, map[])
  }

  /** The countdown stays in range and master is never a version. */
  predicate Valid(s: StoreState) {
    0 <= s.commitsWithoutGC <= MAX_COMMITS_WITHOUT_GC && MASTER_BRANCH !in s.versions
  }

  function Issue(s: StoreState, commands: seq<GitCommand>): StoreState {
    s.(issued := s.issued + commands)
  }

  /** `addVersion`: every name but master joins the version set. */
  function WithVersion(s: StoreState, v: string): StoreState {
    if v == MASTER_BRANCH then s else s.(versions := s.versions + {v})
  }

  /** `removeVersionFromCaches`: the name leaves the cache and the version set. */
  function WithoutVersion(s: StoreState, v: string): StoreState {
    s.(versions := s.versions - {v}, cache := s.cache - {v})
  }

  /** `fireChangeNotification`: the whole cache is dropped and listeners are told. */
  function Notified(s: StoreState): StoreState {
    s.(cache := map[], notifications := s.notifications + 1)
  }

  /** The version set answers `hasVersion` as the helpers promise. */
  lemma VersionBookkeeping(s: StoreState, v: string)
    requires Valid(s)
    ensures v in WithVersion(s, v).versions <==> v != MASTER_BRANCH
    ensures Valid(WithVersion(s, v))
    ensures v !in WithoutVersion(s, v).versions && v !in WithoutVersion(s, v).cache
    ensures Valid(WithoutVersion(s, v))
    ensures forall w :: w != v ==> (w in WithVersion(s, v).versions <==> w in s.versions)
    ensures forall w :: w != v ==> (w in WithoutVersion(s, v).versions <==> w in s.versions)
  {
  }

  // ---------------------------------------------------------------- pull

  /** An enumeration of a set: every member once. */
  ghost predicate Enumerates(order: seq<string>, names: set<string>) {
    (forall i, j :: 0 <= i < j < |order| ==> order[i] != order[j]) &&
    (forall v :: v in order <==> v in names)
  }

  /** The order a pull visits the branch names in matters only once the fetch succeeded,
      and is then an enumeration of the names. */
  ghost predicate OrderFits(order: seq<string>, r: Remote, remoteName: string) {
    !IsNullOrBlank(r.url) && r.fetch.Fetched? ==> Enumerates(order, Names(BranchesOf(r.refs, remoteName)))
  }

  /** The pull's handling of one branch name. */
  function PullStep(s: StoreState, v: string, b: Branches, doDelete: bool, r: Remote, remoteName: string): StoreState {
    if v !in Names(b) then s
    else
      var a := Decide(v, b, doDelete, r);
      var t := Issue(s, CommandsFor(v, a, remoteName));
      if a.DeleteLocal? then WithoutVersion(t, v)
      else if a.CreateLocal? then WithVersion(t, v)
      else t
  }

  /** The pull's loop over branch names, in the given order. */
  function PullAlong(s: StoreState, order: seq<string>, b: Branches, doDelete: bool, r: Remote, remoteName: string): (t: StoreState)
    ensures t.(versions := s.versions, cache := s.cache, issued := s.issued) == s
  {
    if order == [] then s
    else PullStep(PullAlong(s, order[..|order| - 1], b, doDelete, r, remoteName), order[|order| - 1], b, doDelete, r, remoteName)
  }

  lemma PullAlongSnoc(s: StoreState, order: seq<string>, v: string, b: Branches, doDelete: bool, r: Remote, remoteName: string)
    ensures PullAlong(s, order + [v], b, doDelete, r, remoteName) ==
      PullStep(PullAlong(s, order, b, doDelete, r, remoteName), v, b, doDelete, r, remoteName)
  {
    assert (order + [v])[..|order|] == order;
  }

  /** `lastFetchWarning` after a fetch: cleared on success, the new message on failure,
      unchanged when the failure carries no message. */
  function WarningAfter(last: Option<string>, f: FetchOutcome): Option<string> {
    match f
    case Fetched => None
    case FetchFailed(m) => if m.Some? then m else last
  }

  /** The warnings a fetch logs: a failure message different from the last one. */
  function WarningsLogged(last: Option<string>, f: FetchOutcome): seq<string> {
    if f.FetchFailed? && f.message.Some? && f.message != last then [f.message.value] else []
  }

  /** `doPullInternal` once the lock and the context have been checked: the new state and
      whether the pull reports a change. */
  function Pulled(s: StoreState, r: Remote, remoteName: string, doDelete: bool, order: seq<string>): (p: (StoreState, bool))
    ensures p.1 == PullReports(r, remoteName, doDelete)
    ensures p.0.notifications == s.notifications && p.0.commitsWithoutGC == s.commitsWithoutGC && p.0.tree == s.tree
  {
    if IsNullOrBlank(r.url) then (s, false)
    else
      var t := Issue(s, [ResetHard, Fetch(remoteName)]);
      if r.fetch.FetchFailed? then
        (t.(lastFetchWarning := WarningAfter(s.lastFetchWarning, r.fetch),
            warnings := s.warnings + WarningsLogged(s.lastFetchWarning, r.fetch)), false)
      else
        var b := BranchesOf(r.refs, remoteName);
        (PullAlong(t.(lastFetchWarning := None), order, b, doDelete, r, remoteName), PullReports(r, remoteName, doDelete))
  }

  /** One name's step moves the version set and the cache as its decision says. */
  lemma PullStepEffect(t: StoreState, v: string, b: Branches, doDelete: bool, r: Remote, remoteName: string)
    requires v in Names(b)
    ensures var a := Decide(v, b, doDelete, r);
      var u := PullStep(t, v, b, doDelete, r, remoteName);
      u.versions == (if a.DeleteLocal? then t.versions - {v}
                     else if a.CreateLocal? && v != MASTER_BRANCH then t.versions + {v}
                     else t.versions) &&
      u.cache == (if a.DeleteLocal? then t.cache - {v} else t.cache)
  {
  }

  /** Whatever order the names are visited in, the loop leaves the version set and the
      cache as the per-name decisions say. */
  lemma {:induction false} PullAlongEffect(s: StoreState, order: seq<string>, b: Branches, doDelete: bool, r: Remote, remoteName: string)
    requires forall i, j :: 0 <= i < j < |order| ==> order[i] != order[j]
    requires forall i :: 0 <= i < |order| ==> order[i] in Names(b)
    ensures (set v | v in order) <= Names(b)
    ensures PullAlong(s, order, b, doDelete, r, remoteName).versions ==
      VersionsAfter(s.versions, b, doDelete, r, set v | v in order)
    ensures PullAlong(s, order, b, doDelete, r, remoteName).cache ==
      s.cache - DeletedIn(b, doDelete, r, set v | v in order)
  {
    if order == [] {
      assert (set v | v in order) == {};
    } else {
      var front, v := order[..|order| - 1], order[|order| - 1];
      assert forall i :: 0 <= i < |front| ==> front[i] == order[i];
      PullAlongEffect(s, front, b, doDelete, r, remoteName);
      var t0 := PullAlong(s, front, b, doDelete, r, remoteName);
      assert PullAlong(s, order, b, doDelete, r, remoteName) == PullStep(t0, v, b, doDelete, r, remoteName);
      var done := set w | w in front;
      assert (set w | w in order) == done + {v} by {
        assert order == front + [v];
      }
      assert v !in done by {
        forall i | 0 <= i < |front| ensures front[i] != v {
          assert front[i] == order[i];
        }
      }
      assert v in Names(b) by {
        assert order[|order| - 1] == v;
      }
      PullAlongStep(s, t0, done, v, b, doDelete, r, remoteName);
    }
  }

  lemma PullAlongStep(s: StoreState, t0: StoreState, done: set<string>, v: string, b: Branches, doDelete: bool, r: Remote, remoteName: string)
    requires done <= Names(b) && v in Names(b) && v !in done
    requires t0.versions == VersionsAfter(s.versions, b, doDelete, r, done)
    requires t0.cache == s.cache - DeletedIn(b, doDelete, r, done)
    ensures PullStep(t0, v, b, doDelete, r, remoteName).versions == VersionsAfter(s.versions, b, doDelete, r, done + {v})
    ensures PullStep(t0, v, b, doDelete, r, remoteName).cache == s.cache - DeletedIn(b, doDelete, r, done + {v})
  {
    PullStepEffect(t0, v, b, doDelete, r, remoteName);
    VersionsStep(s.versions, b, doDelete, r, done, v);
    var deleted := DeletedIn(b, doDelete, r, done);
    assert s.cache - deleted - {v} == s.cache - (deleted + {v});
  }

  /** The effect of a whole pull: the version set and cache follow the per-name decisions
      over all names, master never becomes a version, and without deletion no version is
      lost. A blank URL or a failed fetch touches neither. */
  lemma PullEffect(s: StoreState, r: Remote, remoteName: string, doDelete: bool, order: seq<string>)
    requires Valid(s)
    requires OrderFits(order, r, remoteName)
    ensures var b := BranchesOf(r.refs, remoteName);
      var t := Pulled(s, r, remoteName, doDelete, order).0;
      if IsNullOrBlank(r.url) || r.fetch.FetchFailed? then t.versions == s.versions && t.cache == s.cache
      else (t.versions == VersionsAfter(s.versions, b, doDelete, r, Names(b)) &&
            t.cache == s.cache - DeletedIn(b, doDelete, r, Names(b)))
    ensures Valid(Pulled(s, r, remoteName, doDelete, order).0)
    ensures !doDelete ==> s.versions <= Pulled(s, r, remoteName, doDelete, order).0.versions
  {
    var b := BranchesOf(r.refs, remoteName);
    NoDeletionWhenDisabled(s.versions, b, r);
    if !IsNullOrBlank(r.url) && r.fetch.Fetched? {
      var t := Issue(s, [ResetHard, Fetch(remoteName)]).(lastFetchWarning := None);
      PullAlongEffect(t, order, b, doDelete, r, remoteName);
      assert (set v | v in order) == Names(b);
    }
  }

  /** `n` pulls in a row, each of whose fetch fails the same way. */
  function PulledTimes(s: StoreState, r: Remote, remoteName: string, n: nat): StoreState {
    if n == 0 then s else Pulled(PulledTimes(s, r, remoteName, n - 1), r, remoteName, false, []).0
  }

  /** A fetch failure repeated over any number of pulls is logged once, and not at all
      if it was the last warning already. */
  lemma {:induction false} SameWarningLoggedOnce(s: StoreState, r: Remote, remoteName: string, m: string, n: nat)
    requires !IsNullOrBlank(r.url) && r.fetch == FetchFailed(Some(m)) && n > 0
    ensures PulledTimes(s, r, remoteName, n).warnings ==
      s.warnings + (if s.lastFetchWarning == Some(m) then [] else [m])
    ensures PulledTimes(s, r, remoteName, n).lastFetchWarning == Some(m)
  {
    if n > 1 {
      SameWarningLoggedOnce(s, r, remoteName, m, n - 1);
      var t := PulledTimes(s, r, remoteName, n - 1);
      assert WarningsLogged(t.lastFetchWarning, r.fetch) == [];
      assert Pulled(t, r, remoteName, false, []).0.warnings == t.warnings + [];
    }
  }

  /** After a successful fetch the next failure is logged again. */
  lemma SuccessRearmsWarning(s: StoreState, ok: Remote, failing: Remote, remoteName: string, m: string)
    requires !IsNullOrBlank(ok.url) && ok.fetch.Fetched?
    requires !IsNullOrBlank(failing.url) && failing.fetch == FetchFailed(Some(m))
    ensures var t := Pulled(s, ok, remoteName, false, []).0;
      Pulled(t, failing, remoteName, false, []).0.warnings == t.warnings + [m]
  {
  }

  // ---------------------------------------------------------------- commit and push

  /** `doCommitInternal` once the context has been checked: add everything, commit with
      the message, count down and compact when the countdown drops below zero. */
  function Committed(s: StoreState, message: seq<MessagePart>): (t: StoreState)
    ensures t.(issued := s.issued, commitsWithoutGC := s.commitsWithoutGC) == s
    ensures Valid(s) ==> Valid(t)
  {
    var next := CountdownAfterCommit(s.commitsWithoutGC);
    s.(issued := s.issued + [AddAll, Commit(message)] + (if next.1 then [CollectGarbage] else []),
       commitsWithoutGC := next.0)
  }

  /** `doPushInternal` once the lock and context have been checked: push all branches
      unless no remote URL is configured. A failing push is logged and ignored. */
  function Pushed(s: StoreState, r: Remote): StoreState {
    if IsNullOrBlank(r.url) then s else Issue(s, [PushAll])
  }

  /** `n` commits in a row. */
  function CommittedTimes(s: StoreState, message: seq<MessagePart>, n: nat): StoreState {
    if n == 0 then s else Committed(CommittedTimes(s, message, n - 1), message)
  }

  /** How many compactions a command log holds. */
  function Compactions(log: seq<GitCommand>): nat {
    multiset(log)[CollectGarbage]
  }

  /** From a fresh countdown, `n` commits leave the countdown where the cadence says and
      issue exactly one compaction per 41 commits. */
  lemma {:induction false} CommitCadence(s: StoreState, message: seq<MessagePart>, n: nat)
    requires s.commitsWithoutGC == MAX_COMMITS_WITHOUT_GC
    ensures var t := CommittedTimes(s, message, n);
      |s.issued| <= |t.issued| && t.issued[..|s.issued|] == s.issued &&
      t.commitsWithoutGC == MAX_COMMITS_WITHOUT_GC - n % (MAX_COMMITS_WITHOUT_GC + 1) &&
      Compactions(t.issued[|s.issued|..]) == n / (MAX_COMMITS_WITHOUT_GC + 1)
  {
    CompactionCadence(n);
    CountdownMatches(s, message, n);
  }

  lemma SplitAppend<T>(a: seq<T>, b: seq<T>, k: nat)
    requires k <= |a|
    ensures (a + b)[..k] == a[..k] && (a + b)[k..] == a[k..] + b
  {
  }

  lemma {:induction false} CountdownMatches(s: StoreState, message: seq<MessagePart>, n: nat)
    requires s.commitsWithoutGC == MAX_COMMITS_WITHOUT_GC
    ensures var t := CommittedTimes(s, message, n);
      |s.issued| <= |t.issued| && t.issued[..|s.issued|] == s.issued &&
      t.commitsWithoutGC == CountdownAfter(n) && Compactions(t.issued[|s.issued|..]) == CompactionsAfter(n)
  {
    if n == 0 {
      assert CommittedTimes(s, message, n).issued[|s.issued|..] == [];
    } else {
      CountdownMatches(s, message, n - 1);
      var u := CommittedTimes(s, message, n - 1);
      var next := CountdownAfterCommit(u.commitsWithoutGC);
      var added := [AddAll, Commit(message)] + (if next.1 then [CollectGarbage] else []);
      var t := CommittedTimes(s, message, n);
      assert t.issued == u.issued + added;
      SplitAppend(u.issued, added, |s.issued|);
      assert Compactions(added) == if next.1 then 1 else 0;
    }
  }

  // ---------------------------------------------------------------- profile writes

  /** What `getProfileFromCache(version, id)` reports: the file keys of the existing
      profile, or nothing. */
  type Existing = (string, string) -> Option<set<string>>

  function IdsOf(w: seq<Profile>): set<string> {
    set k | 0 <= k < |w| :: w[k].id
  }

  /** The profiles `createOrUpdateProfile` processes, in order: parents first, left to
      right, each id at most once per visited set. */
  function Walk(p: Profile, visited: set<string>): seq<Profile>
    decreases p, 1
  {
    if p.id in visited then [] else WalkFrom(p, 0, visited) + [p]
  }

  /** The walks of the parents from index `i` on, each one seeing the ids the earlier
      ones visited. */
  function WalkFrom(p: Profile, i: nat, visited: set<string>): seq<Profile>
    decreases p, 0, |p.parents| - i
  {
    if i >= |p.parents| then []
    else
      var w := Walk(p.parents[i], visited);
      w + WalkFrom(p, i + 1, visited + IdsOf(w))
  }

  /** No processed profile was visited before. */
  predicate Avoids(w: seq<Profile>, visited: set<string>) {
    forall k :: 0 <= k < |w| ==> w[k].id !in visited
  }

  /** Every parent of a processed profile was processed earlier or was visited before. */
  predicate ParentsFirst(w: seq<Profile>, visited: set<string>) {
    forall k, j :: 0 <= k < |w| && 0 <= j < |w[k].parents| ==> w[k].parents[j].id in visited + IdsOf(w[..k])
  }

  lemma IdsOfAppend(a: seq<Profile>, b: seq<Profile>)
    ensures IdsOf(a + b) == IdsOf(a) + IdsOf(b)
  {
    forall id | id in IdsOf(a + b) ensures id in IdsOf(a) + IdsOf(b) {
      var k :| 0 <= k < |a + b| && (a + b)[k].id == id;
      if k >= |a| {
        assert b[k - |a|].id == id;
      }
    }
    forall id | id in IdsOf(a) ensures id in IdsOf(a + b) {
      var k :| 0 <= k < |a| && a[k].id == id;
      assert (a + b)[k].id == id;
    }
    forall id | id in IdsOf(b) ensures id in IdsOf(a + b) {
      var k :| 0 <= k < |b| && b[k].id == id;
      assert (a + b)[|a| + k].id == id;
    }
  }

  /** A parent carrying its child's own id is written first, and the child is then
      written again under that id: the visited check precedes the parent loop. */
  lemma SelfParentWrittenTwice(p: Profile, q: Profile)
    requires q.id == p.id && p.parents == [q] && q.parents == []
    ensures Walk(p, {}) == [q, p] && ParentsFirst(Walk(p, {}), {})
  {
    assert WalkFrom(q, 0, {}) == [];
    assert Walk(q, {}) == [q];
    assert WalkFrom(p, 1, {q.id}) == [];
    assert WalkFrom(p, 0, {}) == [q];
    WalkShape(p, {});
  }

  /** Two walks one after the other, the second seeing what the first visited. */
  lemma ShapeAppend(a: seq<Profile>, b: seq<Profile>, visited: set<string>)
    requires Avoids(a, visited) && ParentsFirst(a, visited)
    requires Avoids(b, visited) && ParentsFirst(b, visited + IdsOf(a))
    ensures Avoids(a + b, visited) && ParentsFirst(a + b, visited)
  {
    var all := a + b;
    forall k | 0 <= k < |all| ensures all[k].id !in visited {
      if k >= |a| {
        assert all[k] == b[k - |a|];
      }
    }
    forall k, j | 0 <= k < |all| && 0 <= j < |all[k].parents|
      ensures all[k].parents[j].id in visited + IdsOf(all[..k])
    {
      if k < |a| {
        assert all[..k] == a[..k];
      } else {
        assert all[k] == b[k - |a|];
        assert all[..k] == a + b[..k - |a|];
        IdsOfAppend(a, b[..k - |a|]);
      }
    }
  }

  /** The walk processes nothing already visited, ends with the profile itself unless
      that was visited, and puts parents first. */
  lemma {:induction false} WalkShape(p: Profile, visited: set<string>)
    ensures Avoids(Walk(p, visited), visited)
    ensures p.id in visited ==> Walk(p, visited) == []
    ensures p.id !in visited ==> |Walk(p, visited)| > 0 && Walk(p, visited)[|Walk(p, visited)| - 1] == p
    ensures ParentsFirst(Walk(p, visited), visited)
    decreases p, 1
  {
    if p.id !in visited {
      var f := WalkFrom(p, 0, visited);
      WalkFromShape(p, 0, visited);
      assert ParentsFirst([p], visited + IdsOf(f)) by {
        assert [p][..0] == [];
      }
      ShapeAppend(f, [p], visited);
    }
  }

  lemma {:induction false} WalkFromShape(p: Profile, i: nat, visited: set<string>)
    ensures Avoids(WalkFrom(p, i, visited), visited)
    ensures ParentsFirst(WalkFrom(p, i, visited), visited)
    ensures forall j :: i <= j < |p.parents| ==> p.parents[j].id in visited + IdsOf(WalkFrom(p, i, visited))
    decreases p, 0, |p.parents| - i
  {
    if i < |p.parents| {
      var w := Walk(p.parents[i], visited);
      var seen := visited + IdsOf(w);
      var rest := WalkFrom(p, i + 1, seen);
      assert WalkFrom(p, i, visited) == w + rest;
      WalkShape(p.parents[i], visited);
      WalkFromShape(p, i + 1, seen);
      IdsOfAppend(w, rest);
      assert p.parents[i].id in seen by {
        if p.parents[i].id !in visited {
          assert w[|w| - 1] == p.parents[i];
        }
      }
      ShapeAppend(w, rest, visited);
    }
  }

  /** Walking the same profile again with the ids the first walk visited does nothing. */
  lemma SecondWalkEmpty(p: Profile, visited: set<string>)
    ensures Walk(p, visited + IdsOf(Walk(p, visited))) == []
  {
    WalkShape(p, visited);
    var w := Walk(p, visited);
    if p.id !in visited {
      assert w[|w| - 1].id == p.id;
    }
  }

  /** One parent's walk, then the walks of the later parents. */
  lemma WalkFromUnfold(p: Profile, i: nat, visited: set<string>)
    requires i < |p.parents|
    ensures var w := Walk(p.parents[i], visited);
      WalkFrom(p, i, visited) == w + WalkFrom(p, i + 1, visited + IdsOf(w))
  {
  }

  lemma WalkFromDone(p: Profile, visited: set<string>)
    ensures WalkFrom(p, |p.parents|, visited) == []
  {
  }

  lemma WalkUnfold(p: Profile, visited: set<string>)
    requires p.id !in visited
    ensures Walk(p, visited) == WalkFrom(p, 0, visited) + [p]
  {
  }

  lemma IdsOfSnoc(w: seq<Profile>, q: Profile)
    ensures IdsOf(w + [q]) == IdsOf(w) + {q.id}
  {
    IdsOfAppend(w, [q]);
    assert [q][0] == q;
  }

  /** `createProfileDirectoryAfterCheckout` with `doCreateProfile`: a missing profile
      directory is created holding only the metadata file. */
  function CreatedDirectory(s: StoreState, ctx: GitContext, profileId: string): (StoreState, GitContext) {
    if profileId in s.tree then (s, ctx)
    else
      (s.(tree := s.tree[profileId := map[AGENT_METADATA_FILE := "#Profile:" + profileId + "\n"]],
          issued := s.issued + [AddFiles(profileId, {AGENT_METADATA_FILE})]),
       AddMessage(AddMessage(ctx, Note("Create profile: " + profileId)), Note("Added profile " + profileId)))
  }

  /** The stale files of a profile being written: the existing profile's keys that the
      new file configurations do not have. */
  function StaleFiles(existing: Option<set<string>>, files: map<string, Content>): set<string> {
    match existing
    case None => {}
    case Some(keys) => keys - files.Keys
  }

  function FilesOf(t: Tree, profileId: string): map<string, Content> {
    if profileId in t then t[profileId] else map[]
  }

  /** The first half of `setFileConfigurationsInternal` with `deleteProfileContent`:
      stale files that are present on disk are removed. */
  function StaleRemoved(s: StoreState, ctx: GitContext, profileId: string, stale: set<string>): (StoreState, GitContext) {
    if stale == {} then (s, ctx)
    else
      var c := AddMessage(ctx, RemovedConfigurations(stale, profileId));
      var present := if profileId in s.tree then stale * s.tree[profileId].Keys else {};
      if present == {} then (s, c)
      else (s.(tree := s.tree[profileId := s.tree[profileId] - present],
               issued := s.issued + [RemoveFiles(profileId, present)]), c)
  }

  /** The second half, `setFileConfigurations`: the new files are written over the
      directory. */
  function FilesWritten(s: StoreState, ctx: GitContext, profileId: string, files: map<string, Content>): (StoreState, GitContext) {
    if files == map[] then (s, ctx)
    else
      (s.(tree := s.tree[profileId := FilesOf(s.tree, profileId) + files],
          issued := s.issued + [AddFiles(profileId, files.Keys)]),
       AddMessage(ctx, Note("Update configurations for profile: " + profileId)))
  }

  function FilesSet(s: StoreState, ctx: GitContext, profileId: string, stale: set<string>, files: map<string, Content>): (StoreState, GitContext) {
    var removed := StaleRemoved(s, ctx, profileId, stale);
    FilesWritten(removed.0, removed.1, profileId, files)
  }

  /** One profile processed by `createOrUpdateProfile`, after its parents. */
  function WriteOne(s: StoreState, ctx: GitContext, q: Profile, allowCreate: bool, existing: Existing): (StoreState, GitContext) {
    var created := if allowCreate then CreatedDirectory(s, ctx, q.id) else (s, ctx);
    var written := FilesSet(created.0, created.1, q.id, StaleFiles(existing(q.version, q.id), q.files), q.files);
    (written.0,
     if MessageEmpty(written.1) then AddMessage(written.1, Note("WARNING - Profile with no content: " + q.version + "/" + q.id))
     else written.1)
  }

  /** The context only gained message parts at the end. */
  predicate Extended(before: GitContext, after: GitContext) {
    after.(message := before.message) == before &&
    |before.message| <= |after.message| && after.message[..|before.message|] == before.message
  }

  lemma ExtendedTransitive(a: GitContext, b: GitContext, c: GitContext)
    requires Extended(a, b) && Extended(b, c)
    ensures Extended(a, c)
  {
    assert c.message[..|a.message|] == c.message[..|b.message|][..|a.message|];
  }

  /** A missing directory is created with the metadata file alone; nothing else moves. */
  lemma CreatedDirectoryEffect(s: StoreState, ctx: GitContext, id: string)
    ensures var r := CreatedDirectory(s, ctx, id);
      id in r.0.tree &&
      r.0.tree[id] == (if id in s.tree then s.tree[id] else map[AGENT_METADATA_FILE := "#Profile:" + id + "\n"]) &&
      (forall other :: other != id ==> (other in r.0.tree <==> other in s.tree) && (other in s.tree ==> r.0.tree[other] == s.tree[other])) &&
      r.0.(tree := s.tree, issued := s.issued) == s &&
      Extended(ctx, r.1)
  {
    CreatedDirectoryFrame(s, ctx, id);
  }

  /** Only the profile's directory changes, and it loses exactly its stale files. */
  lemma StaleRemovedEffect(s: StoreState, ctx: GitContext, id: string, stale: set<string>)
    ensures var r := StaleRemoved(s, ctx, id, stale);
      (id in r.0.tree <==> id in s.tree) &&
      (id in r.0.tree ==> forall f :: f in r.0.tree[id] <==> f in s.tree[id] && f !in stale) &&
      (id in r.0.tree ==> forall f :: f in r.0.tree[id] ==> r.0.tree[id][f] == s.tree[id][f]) &&
      (forall other :: other != id ==> (other in r.0.tree <==> other in s.tree) && (other in s.tree ==> r.0.tree[other] == s.tree[other])) &&
      r.0.(tree := s.tree, issued := s.issued) == s &&
      Extended(ctx, r.1)
  {
    if stale != {} {
      var c := AddMessage(ctx, RemovedConfigurations(stale, id));
      assert c.message[..|ctx.message|] == ctx.message;
      var present := if id in s.tree then stale * s.tree[id].Keys else {};
      if present != {} {
        var t := s.tree[id := s.tree[id] - present];
        assert StaleRemoved(s, ctx, id, stale).0.tree == t;
        assert forall f :: f in t[id] <==> f in s.tree[id] && f !in stale;
      } else if id in s.tree {
        forall f | f in s.tree[id] ensures f !in stale {
          assert f in stale ==> f in present;
        }
      }
    }
  }

  lemma FilesWrittenEffect(s: StoreState, ctx: GitContext, id: string, files: map<string, Content>)
    ensures var r := FilesWritten(s, ctx, id, files);
      (id in r.0.tree <==> id in s.tree || files != map[]) &&
      (id in r.0.tree ==> forall f :: f in r.0.tree[id] <==> f in files || (id in s.tree && f in s.tree[id])) &&
      (forall f :: f in files ==> r.0.tree[id][f] == files[f]) &&
      (forall other :: other != id ==> (other in r.0.tree <==> other in s.tree) && (other in s.tree ==> r.0.tree[other] == s.tree[other])) &&
      r.0.(tree := s.tree, issued := s.issued) == s &&
      Extended(ctx, r.1)
  {
  }

  /** After `setFileConfigurationsInternal` the directory holds the new files with their
      new content and whatever it held before that is not stale. */
  lemma FilesSetEffect(s: StoreState, ctx: GitContext, id: string, stale: set<string>, files: map<string, Content>)
    ensures var r := FilesSet(s, ctx, id, stale, files);
      (id in r.0.tree <==> id in s.tree || files != map[]) &&
      (id in r.0.tree ==> forall f :: f in r.0.tree[id] <==> f in files || (id in s.tree && f in s.tree[id] && f !in stale)) &&
      (forall f :: f in files ==> r.0.tree[id][f] == files[f]) &&
      (forall other :: other != id ==> (other in r.0.tree <==> other in s.tree) && (other in s.tree ==> r.0.tree[other] == s.tree[other])) &&
      r.0.(tree := s.tree, issued := s.issued) == s &&
      Extended(ctx, r.1)
  {
    var removed := StaleRemoved(s, ctx, id, stale);
    StaleRemovedEffect(s, ctx, id, stale);
    FilesWrittenEffect(removed.0, removed.1, id, files);
    ExtendedTransitive(ctx, removed.1, FilesSet(s, ctx, id, stale, files).1);
  }

  /** A written profile's directory exists, holds every new file configuration with
      its new content, holds no stale file, and otherwise keeps what it had (or the
      metadata file when it was just created). Other directories are untouched. */
  lemma WriteOneEffect(s: StoreState, ctx: GitContext, q: Profile, allowCreate: bool, existing: Existing)
    ensures var r := WriteOne(s, ctx, q, allowCreate, existing);
      var stale := StaleFiles(existing(q.version, q.id), q.files);
      var before := if q.id in s.tree then s.tree[q.id].Keys else if allowCreate then {AGENT_METADATA_FILE} else {};
      (q.id in r.0.tree <==> q.id in s.tree || allowCreate || q.files != map[]) &&
      (q.id in r.0.tree ==> forall f :: f in r.0.tree[q.id] <==> f in q.files || (f in before && f !in stale)) &&
      (forall f :: f in q.files ==> r.0.tree[q.id][f] == q.files[f]) &&
      (forall id :: id != q.id ==> (id in r.0.tree <==> id in s.tree) && (id in s.tree ==> r.0.tree[id] == s.tree[id]))
  {
    var created := if allowCreate then CreatedDirectory(s, ctx, q.id) else (s, ctx);
    var stale := StaleFiles(existing(q.version, q.id), q.files);
    var before := if q.id in s.tree then s.tree[q.id].Keys else if allowCreate then {AGENT_METADATA_FILE} else {};
    CreatedDirectoryEffect(s, ctx, q.id);
    var t0 := created.0.tree;
    assert q.id in t0 <==> q.id in s.tree || allowCreate;
    assert q.id in t0 ==> t0[q.id].Keys == before;
    assert forall id :: id != q.id ==> (id in t0 <==> id in s.tree) && (id in s.tree ==> t0[id] == s.tree[id]);
    FilesSetEffect(created.0, created.1, q.id, stale, q.files);
    assert WriteOne(s, ctx, q, allowCreate, existing).0 == FilesSet(created.0, created.1, q.id, stale, q.files).0;
  }

  /** Appending a message part extends the context. */
  lemma AddMessageExtends(c: GitContext, part: MessagePart)
    ensures Extended(c, AddMessage(c, part))
  {
    assert AddMessage(c, part).message[..|c.message|] == c.message;
  }

  /** A context holding a non-empty part has a non-empty message, and so does every
      extension of it. */
  lemma PartKeepsMessage(a: GitContext, b: GitContext, k: int)
    requires 0 <= k < |a.message| && a.message[k] != Note("")
    requires Extended(a, b)
    ensures !MessageEmpty(b)
  {
    assert b.message[..|a.message|][k] == a.message[k];
  }

  lemma CreatedDirectoryFrame(s: StoreState, ctx: GitContext, id: string)
    ensures var r := CreatedDirectory(s, ctx, id);
      r.0.(tree := s.tree, issued := s.issued) == s && Extended(ctx, r.1)
  {
    if id !in s.tree {
      var c := AddMessage(ctx, Note("Create profile: " + id));
      AddMessageExtends(ctx, Note("Create profile: " + id));
      AddMessageExtends(c, Note("Added profile " + id));
      ExtendedTransitive(ctx, c, CreatedDirectory(s, ctx, id).1);
    }
  }

  lemma FilesSetFrame(s: StoreState, ctx: GitContext, id: string, stale: set<string>, files: map<string, Content>)
    ensures var r := FilesSet(s, ctx, id, stale, files);
      r.0.(tree := s.tree, issued := s.issued) == s && Extended(ctx, r.1)
  {
    var removed := StaleRemoved(s, ctx, id, stale);
    if stale != {} {
      AddMessageExtends(ctx, RemovedConfigurations(stale, id));
    }
    assert removed.0.(tree := s.tree, issued := s.issued) == s && Extended(ctx, removed.1);
    if files != map[] {
      AddMessageExtends(removed.1, Note("Update configurations for profile: " + id));
    }
    ExtendedTransitive(ctx, removed.1, FilesSet(s, ctx, id, stale, files).1);
  }

  /** Writing a profile changes only the directories and the command log, only appends to
      the commit message, and leaves it non-empty. */
  lemma WriteOneContext(s: StoreState, ctx: GitContext, q: Profile, allowCreate: bool, existing: Existing)
    ensures var r := WriteOne(s, ctx, q, allowCreate, existing);
      r.0.(tree := s.tree, issued := s.issued) == s && Extended(ctx, r.1) && !MessageEmpty(r.1)
  {
    var created := if allowCreate then CreatedDirectory(s, ctx, q.id) else (s, ctx);
    var stale := StaleFiles(existing(q.version, q.id), q.files);
    var written := FilesSet(created.0, created.1, q.id, stale, q.files);
    CreatedDirectoryFrame(s, ctx, q.id);
    FilesSetFrame(created.0, created.1, q.id, stale, q.files);
    ExtendedTransitive(ctx, created.1, written.1);
    if MessageEmpty(written.1) {
      var part := Note("WARNING - Profile with no content: " + q.version + "/" + q.id);
      var c := AddMessage(written.1, part);
      AddMessageExtends(written.1, part);
      ExtendedTransitive(ctx, written.1, c);
      assert c.message[|written.1.message|] == part;
      PartKeepsMessage(c, c, |written.1.message|);
    }
  }

  /** The profiles of a walk processed in order. */
  function WriteAll(s: StoreState, ctx: GitContext, w: seq<Profile>, allowCreate: bool, existing: Existing): (r: (StoreState, GitContext))
    ensures r.0.(tree := s.tree, issued := s.issued) == s
    ensures Extended(ctx, r.1)
    ensures w != [] ==> !MessageEmpty(r.1)
    decreases |w|
  {
    if w == [] then (s, ctx)
    else
      var front := WriteAll(s, ctx, w[..|w| - 1], allowCreate, existing);
      WriteOneContext(front.0, front.1, w[|w| - 1], allowCreate, existing);
      ExtendedTransitive(ctx, front.1, WriteOne(front.0, front.1, w[|w| - 1], allowCreate, existing).1);
      WriteOne(front.0, front.1, w[|w| - 1], allowCreate, existing)
  }

  lemma {:induction false} WriteAllAppend(s: StoreState, ctx: GitContext, a: seq<Profile>, b: seq<Profile>, allowCreate: bool, existing: Existing)
    ensures WriteAll(s, ctx, a + b, allowCreate, existing) ==
      var m := WriteAll(s, ctx, a, allowCreate, existing);
      WriteAll(m.0, m.1, b, allowCreate, existing)
    decreases |b|
  {
    if b == [] {
      assert a + b == a;
    } else {
      var front := b[..|b| - 1];
      WriteAllAppend(s, ctx, a, front, allowCreate, existing);
      assert (a + b)[..|a + b| - 1] == a + front;
      assert (a + b)[|a + b| - 1] == b[|b| - 1];
    }
  }

  lemma WriteAllSnoc(s: StoreState, ctx: GitContext, w: seq<Profile>, q: Profile, allowCreate: bool, existing: Existing)
    ensures WriteAll(s, ctx, w + [q], allowCreate, existing) ==
      var m := WriteAll(s, ctx, w, allowCreate, existing);
      WriteOne(m.0, m.1, q, allowCreate, existing)
  {
    assert (w + [q])[..|w|] == w;
  }

  /** The loop of `createVersion(Version)`: each listed profile with a fresh visited set. */
  function WriteEach(s: StoreState, ctx: GitContext, profiles: seq<Profile>, existing: Existing): (r: (StoreState, GitContext))
    ensures r.0.(tree := s.tree, issued := s.issued) == s
    ensures Extended(ctx, r.1)
    decreases |profiles|
  {
    if profiles == [] then (s, ctx)
    else
      var front := WriteEach(s, ctx, profiles[..|profiles| - 1], existing);
      var last := WriteAll(front.0, front.1, Walk(profiles[|profiles| - 1], {}), true, existing);
      ExtendedTransitive(ctx, front.1, last.1);
      last
  }

  // ---------------------------------------------------------------- operations

  /** The operations the store runs inside `executeInternal`. */
  datatype Operation =
    | Constant(value: Value)                                         // the bodies of pull() and push()
    | ListInitialVersions(branches: seq<string>)                     // getInitialVersions
    | RemoveVersion(versionId: string)                               // deleteVersion
    | CopyVersion(parentId: string, versionId: string, attributes: Option<map<string, string>>)
    | WriteVersion(version: Version, existing: Existing)
    | WriteProfile(branch: string, profile: Profile, allowCreate: bool, existing: Existing)
    | RemoveProfile(branch: string, profileId: string)

  /** What an operation returns. */
  datatype Value = NoValue | Flag(flag: bool) | Ids(ids: seq<string>) | Id(id: string)

  /** `checkoutVersion`: check the branch out and record it as a version. */
  function CheckedOut(s: StoreState, branch: string): StoreState {
    WithVersion(Issue(s, [CheckoutBranch(branch)]), branch)
  }

  /** `createOrCheckoutVersion`. */
  function CreatedOrCheckedOut(s: StoreState, versionId: string, remoteName: string): StoreState {
    WithVersion(Issue(s, [CreateOrCheckoutBranch(versionId, remoteName)]), versionId)
  }

  /** An operation run with the lock state given; the write operations assert the write
      lock before creating a branch or writing a profile. */
  function Ran(s: StoreState, op: Operation, ctx: GitContext, remoteName: string, writeLocked: bool): Result<(StoreState, GitContext, Value), string> {
    match op
    case Constant(v) => Success((s, ctx, v))
    case ListInitialVersions(branches) =>
      var vs := VersionsOf(branches);
      Success((s.(versions := set v | v in vs), ctx, Ids(vs)))
    case RemoveVersion(id) => Success((Issue(WithoutVersion(s, id), [RemoveBranch(id)]), ctx, NoValue))
    case CopyVersion(parent, id, attributes) =>
      if !writeLocked then Failure("No write lock obtained")
      else
        var t := CreatedOrCheckedOut(CheckedOut(s, parent), id, remoteName);
        var u := if attributes.Some? then Issue(t, [WriteVersionAttributes(attributes.value)]) else t;
        Success((u, AddMessage(ctx, Note("Create version: " + parent + " => " + id)), NoValue))
    case WriteVersion(version, existing) =>
      if !writeLocked then Failure("No write lock obtained")
      else
        var c := AddMessage(ctx, Note("Create version: " + version.id));
        var t := Issue(CreatedOrCheckedOut(s, version.id, remoteName), [WriteVersionAttributes(version.attributes)]);
        var written := WriteEach(t, c, version.profiles, existing);
        Success((written.0, written.1, Id(version.id)))
    case WriteProfile(branch, profile, allowCreate, existing) =>
      if !writeLocked then Failure("No write lock obtained")
      else
        var written := WriteAll(CheckedOut(s, branch), ctx, Walk(profile, {}), allowCreate, existing);
        Success((written.0, written.1, Id(profile.id)))
    case RemoveProfile(branch, id) =>
      var t := CheckedOut(s, branch);
      var u := if id in t.tree then Issue(t.(tree := t.tree - {id}), [RemoveDirectory(id)]) else t;
      Success((u, AddMessage(ctx, Note("Removed profile " + id)), NoValue))
  }

  /** No operation fires a notification, commits or changes which phases the context
      requires; only `deleteVersion` touches the cache. */
  lemma RanFrame(s: StoreState, op: Operation, ctx: GitContext, remoteName: string, writeLocked: bool)
    requires Ran(s, op, ctx, remoteName, writeLocked).Success?
    ensures var r := Ran(s, op, ctx, remoteName, writeLocked).value;
      r.0.notifications == s.notifications && r.0.commitsWithoutGC == s.commitsWithoutGC &&
      (r.0.cache == s.cache || op.RemoveVersion?) && r.1.(message := ctx.message) == ctx
  {
  }

  /** Operations that change the repository leave a non-empty commit message. */
  lemma {:induction false} WritesLeaveMessage(s: StoreState, op: Operation, ctx: GitContext, remoteName: string)
    requires op.CopyVersion? || op.WriteVersion? || op.WriteProfile? || op.RemoveProfile?
    requires Ran(s, op, ctx, remoteName, true).Success?
    ensures !MessageEmpty(Ran(s, op, ctx, remoteName, true).value.1)
  {
    var c := Ran(s, op, ctx, remoteName, true).value.1;
    var k := |ctx.message|;
    match op
    case WriteProfile(branch, profile, allowCreate, existing) =>
      WalkUnfold(profile, {});
    case WriteVersion(version, existing) =>
      var c0 := AddMessage(ctx, Note("Create version: " + version.id));
      assert c0.message[k] != Note("");
      PartKeepsMessage(c0, c, k);
    case CopyVersion(parent, id, attributes) =>
      assert c.message[k] != Note("");
      PartKeepsMessage(c, c, k);
    case RemoveProfile(branch, id) =>
      assert c.message[k] != Note("");
      PartKeepsMessage(c, c, k);
  }

  /** Every operation keeps master out of the version set and the countdown in range. */
  lemma RanKeepsValid(s: StoreState, op: Operation, ctx: GitContext, remoteName: string, writeLocked: bool)
    requires Valid(s)
    requires Ran(s, op, ctx, remoteName, writeLocked).Success?
    ensures Valid(Ran(s, op, ctx, remoteName, writeLocked).value.0)
  {
    match op
    case ListInitialVersions(branches) =>
      VersionsOfMembership(branches, MASTER_BRANCH);
    case WriteVersion(version, existing) =>
    case WriteProfile(branch, profile, allowCreate, existing) =>
    case _ =>
  }

  // ---------------------------------------------------------------- orchestration

  /** The phases after the operation: commit if required (the message must not be
      empty), push if required, and notify once if the pull reported a change or a commit
      was required. */
  function Finished(s: StoreState, c: GitContext, value: Value, r: Remote, pullChanged: bool): Result<(StoreState, Value), string> {
    if c.requireCommit && ClaimCommit(c).None? then Failure("Commit not required in context")
    else if c.requireCommit && MessageEmpty(c) then Failure("Empty commit message")
    else
      var s3 := if c.requireCommit then Committed(s, c.message) else s;
      var c3 := if c.requireCommit then ClaimCommit(c).value else c;
      if c3.requirePush && ClaimPush(c3).None? then Failure("Push not required in context")
      else
        var s4 := if c3.requirePush then Pushed(s3, r) else s3;
        Success((if pullChanged || c.requireCommit then Notified(s4) else s4, value))
  }

  /** `executeInternal`: check the lock the context needs, then proceed. */
  function Executed(s: StoreState, ctx: GitContext, op: Operation, r: Remote, remoteName: string,
                    readLocked: bool, writeLocked: bool, order: seq<string>): Result<(StoreState, Value), string>
  {
    if (ctx.requirePull || ctx.requireCommit) && !writeLocked then Failure("No write lock obtained")
    else if !(ctx.requirePull || ctx.requireCommit) && !readLocked then Failure("No read lock obtained")
    else Proceeded(s, ctx, op, r, remoteName, writeLocked, order)
  }

  /** The pull phase of `executeInternal`: the state after it, the context, and whether
      the pull reported a change. */
  function PullPhase(s: StoreState, ctx: GitContext, r: Remote, remoteName: string, order: seq<string>): Result<(StoreState, GitContext, bool), string> {
    if !ctx.requirePull then Success((s, ctx, false))
    else if ClaimPull(ctx).None? then Failure("Pull not required in context")
    else
      var pulled := Pulled(s, r, remoteName, false, order);
      Success((pulled.0, ClaimPull(ctx).value, pulled.1))
  }

  /** `executeInternal` once the lock is checked: pull (never deleting branches), run
      the operation, and finish. */
  function Proceeded(s: StoreState, ctx: GitContext, op: Operation, r: Remote, remoteName: string,
                     writeLocked: bool, order: seq<string>): Result<(StoreState, Value), string>
  {
    var pulled := PullPhase(s, ctx, r, remoteName, order);
    if pulled.Failure? then Failure(pulled.error)
    else
      var ran := Ran(pulled.value.0, op, pulled.value.1, remoteName, writeLocked);
      if ran.Failure? then Failure(ran.error)
      else Finished(ran.value.0, ran.value.1, ran.value.2, r, pulled.value.2)
  }

  /** The finishing phases notify exactly when asked to, keep the store valid and leave
      the versions alone; a commit moves the countdown one step. */
  lemma FinishedEffect(s: StoreState, c: GitContext, value: Value, r: Remote, pullChanged: bool)
    requires Finished(s, c, value, r, pullChanged).Success?
    ensures var t := Finished(s, c, value, r, pullChanged).value.0;
      var changed := pullChanged || c.requireCommit;
      t.notifications == s.notifications + (if changed then 1 else 0) &&
      (changed ==> t.cache == map[]) && (!changed ==> t.cache == s.cache) &&
      t.versions == s.versions && t.tree == s.tree &&
      t.commitsWithoutGC == (if c.requireCommit then CountdownAfterCommit(s.commitsWithoutGC).0 else s.commitsWithoutGC) &&
      (Valid(s) ==> Valid(t))
  {
  }

  /** The context `executeWrite` builds. */
  function WriteContext(pullFirst: bool): GitContext {
    RequirePush(RequireCommit(SetRequirePull(NewContext(), pullFirst)))
  }

  /** The change notification fires exactly once when the pull reported a change or a
      commit was required, and then the whole cache is gone; otherwise it does not fire. */
  lemma NotifiesExactly(s: StoreState, ctx: GitContext, op: Operation, r: Remote, remoteName: string,
                        readLocked: bool, writeLocked: bool, order: seq<string>)
    requires Executed(s, ctx, op, r, remoteName, readLocked, writeLocked, order).Success?
    ensures var t := Executed(s, ctx, op, r, remoteName, readLocked, writeLocked, order).value.0;
      var changed := (ctx.requirePull && PullReports(r, remoteName, false)) || ctx.requireCommit;
      t.notifications == s.notifications + (if changed then 1 else 0) &&
      (changed ==> t.cache == map[])
  {
    var pulled := if ctx.requirePull then Pulled(s, r, remoteName, false, order) else (s, false);
    var c1 := if ctx.requirePull then ClaimPull(ctx).value else ctx;
    var ran := Ran(pulled.0, op, c1, remoteName, writeLocked);
    RanFrame(pulled.0, op, c1, remoteName, writeLocked);
    FinishedEffect(ran.value.0, ran.value.1, ran.value.2, r, pulled.1);
  }

  /** Every successful execution keeps the store valid. */
  lemma ExecutedKeepsValid(s: StoreState, ctx: GitContext, op: Operation, r: Remote, remoteName: string,
                           readLocked: bool, writeLocked: bool, order: seq<string>)
    requires Valid(s)
    requires ctx.requirePull ==> OrderFits(order, r, remoteName)
    requires Executed(s, ctx, op, r, remoteName, readLocked, writeLocked, order).Success?
    ensures Valid(Executed(s, ctx, op, r, remoteName, readLocked, writeLocked, order).value.0)
  {
    var pulled := if ctx.requirePull then Pulled(s, r, remoteName, false, order) else (s, false);
    var c1 := if ctx.requirePull then ClaimPull(ctx).value else ctx;
    if ctx.requirePull {
      PullEffect(s, r, remoteName, false, order);
    }
    var ran := Ran(pulled.0, op, c1, remoteName, writeLocked);
    RanKeepsValid(pulled.0, op, c1, remoteName, writeLocked);
    FinishedEffect(ran.value.0, ran.value.1, ran.value.2, r, pulled.1);
  }

  /** `deleteVersion` runs with an empty context: no pull, no commit, no push and no
      notification; the version leaves the set and the cache and its branch is removed. */
  lemma DeleteVersionQuiet(s: StoreState, v: string, r: Remote, remoteName: string, writeLocked: bool, order: seq<string>)
    ensures var e := Executed(s, NewContext(), RemoveVersion(v), r, remoteName, true, writeLocked, order);
      e.Success? &&
      e.value.0.versions == s.versions - {v} &&
      e.value.0.cache == s.cache - {v} &&
      e.value.0.issued == s.issued + [RemoveBranch(v)] &&
      e.value.0.notifications == s.notifications &&
      e.value.0.commitsWithoutGC == s.commitsWithoutGC
  {
  }

  /** A write operation under the write lock always commits once and notifies once; the
      commit compacts exactly when the countdown had reached zero. */
  lemma WritesCommitAndNotify(s: StoreState, pullFirst: bool, op: Operation, r: Remote, remoteName: string, order: seq<string>)
    requires op.CopyVersion? || op.WriteVersion? || op.WriteProfile? || op.RemoveProfile?
    ensures var e := Executed(s, WriteContext(pullFirst), op, r, remoteName, true, true, order);
      e.Success? &&
      e.value.0.notifications == s.notifications + 1 &&
      e.value.0.cache == map[] &&
      e.value.0.commitsWithoutGC == CountdownAfterCommit(s.commitsWithoutGC).0
  {
    var ctx := WriteContext(pullFirst);
    var pulled := if pullFirst then Pulled(s, r, remoteName, false, order) else (s, false);
    var c1 := if pullFirst then ClaimPull(ctx).value else ctx;
    var ran := Ran(pulled.0, op, c1, remoteName, true);
    assert ran.Success?;
    RanFrame(pulled.0, op, c1, remoteName, true);
    WritesLeaveMessage(pulled.0, op, c1, remoteName);
    assert Finished(ran.value.0, ran.value.1, ran.value.2, r, pulled.1).Success?;
    FinishedEffect(ran.value.0, ran.value.1, ran.value.2, r, pulled.1);
  }

  /** `pull` under the write lock answers true whatever the pull found; it notifies
      exactly when the pull reports a change, and commits nothing. */
  lemma PullAnswersTrue(s: StoreState, r: Remote, remoteName: string, order: seq<string>)
    ensures var e := Executed(s, SetRequirePull(NewContext(), true), Constant(Flag(true)), r, remoteName, true, true, order);
      e.Success? && e.value.1 == Flag(true) &&
      e.value.0.notifications == s.notifications + (if PullReports(r, remoteName, false) then 1 else 0) &&
      e.value.0.commitsWithoutGC == s.commitsWithoutGC && e.value.0.tree == s.tree
  {
    var ctx := SetRequirePull(NewContext(), true);
    var pulled := Pulled(s, r, remoteName, false, order);
    assert PullPhase(s, ctx, r, remoteName, order) == Success((pulled.0, ClaimPull(ctx).value, pulled.1));
    FinishedEffect(pulled.0, ClaimPull(ctx).value, Flag(true), r, pulled.1);
  }

  /** `push` under either lock pushes all branches when a remote is configured, and
      changes nothing else. */
  lemma PushOnlyPushes(s: StoreState, r: Remote, remoteName: string, writeLocked: bool, order: seq<string>)
    ensures Executed(s, RequirePush(NewContext()), Constant(NoValue), r, remoteName, true, writeLocked, order) ==
      Success((Pushed(s, r), NoValue))
  {
  }

  /** `getInitialVersions` under either lock replaces the version set by the local
      branch names other than master and returns them, without touching the repository
      or notifying. */
  lemma InitialVersionsListed(s: StoreState, branches: seq<string>, r: Remote, remoteName: string, writeLocked: bool, order: seq<string>)
    ensures var e := Executed(s, NewContext(), ListInitialVersions(branches), r, remoteName, true, writeLocked, order);
      e.Success? && e.value.1 == Ids(VersionsOf(branches)) &&
      e.value.0 == s.(versions := set v | v in VersionsOf(branches)) &&
      (forall v :: v in e.value.0.versions <==> HEADS + v in branches && v != MASTER_BRANCH)
  {
    var t := Executed(s, NewContext(), ListInitialVersions(branches), r, remoteName, true, writeLocked, order).value.0;
    forall v ensures v in t.versions <==> HEADS + v in branches && v != MASTER_BRANCH {
      VersionsOfMembership(branches, v);
    }
  }

  /** `createVersion(parentId, versionId, attributes)` under the write lock: afterwards
      `hasVersion` answers true for the new version and for its parent (unless either
      is master), and the pull that runs first loses no version known before. */
  lemma CopiedVersionKnown(s: StoreState, parentId: string, versionId: string, attributes: Option<map<string, string>>,
                           r: Remote, remoteName: string, order: seq<string>)
    requires Valid(s)
    requires OrderFits(order, r, remoteName)
    ensures var e := Executed(s, WriteContext(true), CopyVersion(parentId, versionId, attributes), r, remoteName, true, true, order);
      e.Success? &&
      s.versions <= e.value.0.versions &&
      (versionId != MASTER_BRANCH ==> versionId in e.value.0.versions) &&
      (parentId != MASTER_BRANCH ==> parentId in e.value.0.versions) &&
      Valid(e.value.0)
  {
    var ctx := WriteContext(true);
    var op := CopyVersion(parentId, versionId, attributes);
    var pulled := Pulled(s, r, remoteName, false, order);
    PullEffect(s, r, remoteName, false, order);
    var ran := Ran(pulled.0, op, ClaimPull(ctx).value, remoteName, true);
    WritesLeaveMessage(pulled.0, op, ClaimPull(ctx).value, remoteName);
    assert Finished(ran.value.0, ran.value.1, ran.value.2, r, pulled.1).Success?;
    FinishedEffect(ran.value.0, ran.value.1, ran.value.2, r, pulled.1);
    ExecutedKeepsValid(s, ctx, op, r, remoteName, true, true, order);
  }

  /** `createVersion(Version)` under the write lock: the version set gains exactly the
      new version's id (master excepted), and every profile of the version has its
      directory in the tree afterwards. */
  lemma WrittenVersionKnown(s: StoreState, version: Version, existing: Existing,
                            r: Remote, remoteName: string, order: seq<string>)
    ensures var e := Executed(s, WriteContext(false), WriteVersion(version, existing), r, remoteName, true, true, order);
      e.Success? &&
      e.value.1 == Id(version.id) &&
      e.value.0.versions == (if version.id == MASTER_BRANCH then s.versions else s.versions + {version.id}) &&
      (forall k :: 0 <= k < |version.profiles| ==> version.profiles[k].id in e.value.0.tree)
  {
    var ctx := WriteContext(false);
    var op := WriteVersion(version, existing);
    var c := AddMessage(ctx, Note("Create version: " + version.id));
    var t := Issue(CreatedOrCheckedOut(s, version.id, remoteName), [WriteVersionAttributes(version.attributes)]);
    var ran := Ran(s, op, ctx, remoteName, true);
    assert ran.value.0 == WriteEach(t, c, version.profiles, existing).0;
    WriteEachCreates(t, c, version.profiles, existing);
    WritesLeaveMessage(s, op, ctx, remoteName);
    assert Finished(ran.value.0, ran.value.1, ran.value.2, r, false).Success?;
    FinishedEffect(ran.value.0, ran.value.1, ran.value.2, r, false);
  }

  /** `createProfile` and `updateProfile` under the write lock: the profile's directory
      holds every file configuration of the profile with its content and none of the
      stale ones, and it exists whenever it was created or given files. */
  lemma ProfileWritten(s: StoreState, branch: string, profile: Profile, allowCreate: bool, existing: Existing,
                       r: Remote, remoteName: string, order: seq<string>)
    ensures var e := Executed(s, WriteContext(false), WriteProfile(branch, profile, allowCreate, existing), r, remoteName, true, true, order);
      var t := e.value.0.tree;
      e.Success? &&
      e.value.1 == Id(profile.id) &&
      (allowCreate || profile.files != map[] ==> profile.id in t) &&
      (profile.id in t ==> forall f :: f in profile.files ==> f in t[profile.id] && t[profile.id][f] == profile.files[f]) &&
      (profile.id in t ==> forall f :: f in StaleFiles(existing(profile.version, profile.id), profile.files) ==> f !in t[profile.id])
  {
    var ctx := WriteContext(false);
    var op := WriteProfile(branch, profile, allowCreate, existing);
    var s1 := CheckedOut(s, branch);
    var w := Walk(profile, {});
    WalkShape(profile, {});
    var front := w[..|w| - 1];
    assert w == front + [profile];
    WriteAllSnoc(s1, ctx, front, profile, allowCreate, existing);
    var m := WriteAll(s1, ctx, front, allowCreate, existing);
    WriteOneEffect(m.0, m.1, profile, allowCreate, existing);
    var ran := Ran(s, op, ctx, remoteName, true);
    assert ran.value.0 == WriteOne(m.0, m.1, profile, allowCreate, existing).0;
    WritesLeaveMessage(s, op, ctx, remoteName);
    assert Finished(ran.value.0, ran.value.1, ran.value.2, r, false).Success?;
    FinishedEffect(ran.value.0, ran.value.1, ran.value.2, r, false);
  }

  /** `deleteProfile` under the write lock: the profile's directory is gone afterwards,
      every other directory is as it was, and the profile's branch is a version. */
  lemma ProfileRemoved(s: StoreState, branch: string, profileId: string, r: Remote, remoteName: string, order: seq<string>)
    ensures var e := Executed(s, WriteContext(false), RemoveProfile(branch, profileId), r, remoteName, true, true, order);
      e.Success? &&
      profileId !in e.value.0.tree &&
      (forall id :: id != profileId ==> (id in e.value.0.tree <==> id in s.tree) && (id in s.tree ==> e.value.0.tree[id] == s.tree[id])) &&
      (branch != MASTER_BRANCH ==> branch in e.value.0.versions)
  {
    var ctx := WriteContext(false);
    var op := RemoveProfile(branch, profileId);
    var ran := Ran(s, op, ctx, remoteName, true);
    WritesLeaveMessage(s, op, ctx, remoteName);
    assert Finished(ran.value.0, ran.value.1, ran.value.2, r, false).Success?;
    FinishedEffect(ran.value.0, ran.value.1, ran.value.2, r, false);
  }

  /** Writing a walk never drops a profile directory. */
  lemma {:induction false} WriteAllKeepsDirectories(s: StoreState, ctx: GitContext, w: seq<Profile>, allowCreate: bool, existing: Existing)
    ensures s.tree.Keys <= WriteAll(s, ctx, w, allowCreate, existing).0.tree.Keys
    decreases |w|
  {
    if w != [] {
      var front := WriteAll(s, ctx, w[..|w| - 1], allowCreate, existing);
      WriteAllKeepsDirectories(s, ctx, w[..|w| - 1], allowCreate, existing);
      WriteOneEffect(front.0, front.1, w[|w| - 1], allowCreate, existing);
    }
  }

  /** Writing a profile with directory creation, after its parents, leaves its
      directory in the tree and drops none. */
  lemma WalkCreates(s: StoreState, ctx: GitContext, q: Profile, existing: Existing)
    ensures var t := WriteAll(s, ctx, Walk(q, {}), true, existing).0.tree;
      s.tree.Keys <= t.Keys && q.id in t
  {
    var w := Walk(q, {});
    WalkShape(q, {});
    var before := w[..|w| - 1];
    assert w == before + [q];
    WriteAllSnoc(s, ctx, before, q, true, existing);
    var m := WriteAll(s, ctx, before, true, existing);
    WriteAllKeepsDirectories(s, ctx, before, true, existing);
    WriteOneEffect(m.0, m.1, q, true, existing);
  }

  /** Writing profiles with directory creation leaves a directory for each of them, and
      drops none. */
  lemma {:induction false} WriteEachCreates(s: StoreState, ctx: GitContext, profiles: seq<Profile>, existing: Existing)
    ensures var t := WriteEach(s, ctx, profiles, existing).0.tree;
      s.tree.Keys <= t.Keys && forall k :: 0 <= k < |profiles| ==> profiles[k].id in t
    decreases |profiles|
  {
    if profiles != [] {
      var n := |profiles| - 1;
      WriteEachCreates(s, ctx, profiles[..n], existing);
      WriteEachLast(s, ctx, profiles, existing);
      DirectoriesCarry(s.tree, WriteEach(s, ctx, profiles[..n], existing).0.tree, WriteEach(s, ctx, profiles, existing).0.tree, profiles[..n], profiles);
    }
  }

  /** The last profile written gets its directory, and no earlier one is dropped. */
  lemma WriteEachLast(s: StoreState, ctx: GitContext, profiles: seq<Profile>, existing: Existing)
    requires profiles != []
    ensures var t1 := WriteEach(s, ctx, profiles[..|profiles| - 1], existing).0.tree;
      var t := WriteEach(s, ctx, profiles, existing).0.tree;
      t1.Keys <= t.Keys && profiles[|profiles| - 1].id in t
  {
    var front := WriteEach(s, ctx, profiles[..|profiles| - 1], existing);
    WalkCreates(front.0, front.1, profiles[|profiles| - 1], existing);
  }

  lemma DirectoriesCarry(t0: Tree, t1: Tree, t: Tree, front: seq<Profile>, ps: seq<Profile>)
    requires ps != [] && front == ps[..|ps| - 1]
    requires t0.Keys <= t1.Keys <= t.Keys && ps[|ps| - 1].id in t
    requires forall k :: 0 <= k < |front| ==> front[k].id in t1
    ensures t0.Keys <= t.Keys
    ensures forall k :: 0 <= k < |ps| ==> ps[k].id in t
  {
    forall k | 0 <= k < |ps| ensures ps[k].id in t {
      if k < |ps| - 1 {
        assert front[k] == ps[k];
      }
    }
  }

  /** `deleteVersion` neither commits nor pushes, so the remote keeps the branch: while
      the remote still lists it, the next `pull` (which never deletes) brings the local
      branch back and the version id with it, and reports a change. */
  lemma DeletedVersionReturns(s: StoreState, v: string, r: Remote, remoteName: string, order: seq<string>)
    requires Valid(s) && OrderFits(order, r, remoteName)
    requires !IsNullOrBlank(r.url) && r.fetch.Fetched?
    requires v != MASTER_BRANCH && v in Tracked(r.refs, remoteName) && v !in Heads(r.refs, remoteName)
    ensures var d := Executed(s, NewContext(), RemoveVersion(v), r, remoteName, true, true, order);
      d.Success? && v !in d.value.0.versions &&
      var p := Executed(d.value.0, SetRequirePull(NewContext(), true), Constant(Flag(true)), r, remoteName, true, true, order);
      p.Success? && v in p.value.0.versions && p.value.0.notifications == d.value.0.notifications + 1
  {
    DeleteVersionQuiet(s, v, r, remoteName, true, order);
    var d := Executed(s, NewContext(), RemoveVersion(v), r, remoteName, true, true, order).value.0;
    assert Valid(d);
    var b := BranchesOf(r.refs, remoteName);
    PullEffect(d, r, remoteName, false, order);
    CreatedJoins(d.versions, v, b, false, r);
    PullAnswersTrue(d, r, remoteName, order);
    var ctx := SetRequirePull(NewContext(), true);
    var pulled := Pulled(d, r, remoteName, false, order);
    FinishedEffect(pulled.0, ClaimPull(ctx).value, Flag(true), r, pulled.1);
  }
}
