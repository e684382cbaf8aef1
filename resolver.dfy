/** Resolving the parent hierarchy of the profiles loaded for one version
    (`VersionCacheLoader.resolveVersionProfiles` and the loop of `loadVersion` that
    calls it): every profile is rebuilt with its parent profiles attached, parents
    first, each id built once per memo map. */
module Resolver {
  import opened Wrappers
  import opened Text
  import opened Types

  /** A profile as collected from the branches, before its parents are attached:
      its `PARENTS` attribute (absent or a space-separated list of ids), its file
      configurations, its configurations and its profile hash. */
  datatype Unresolved = Unresolved(
    parents: Option<string>,
    files: map<string, Content>,
    configurations: map<string, map<string, string>>,
    hash: string)

  /** The version of unresolved profiles: lookup by id, and the profiles in the order
      `getProfiles` lists them. */
  datatype AuxVersion = AuxVersion(id: string, profiles: map<string, Unresolved>, order: seq<string>)

  /** The parent ids in declared order: the attribute split on single spaces as
      `String.split(" ")` does, or none when the attribute is absent. */
  function ParentIdsOf(u: Unresolved): (r: seq<string>)
    ensures u.parents.None? ==> r == []
    ensures NoneContains(r, ' ')
  {
    if u.parents.Some? then SplitOnSpace(u.parents.value) else []
  }

  /** No profile is, through its `PARENTS` attributes, its own ancestor: every parent
      that exists ranks below its child. The source recurses without bound otherwise. */
  ghost predicate Acyclic(aux: AuxVersion, rank: string -> nat) {
    forall id, p :: id in aux.profiles && p in ParentIdsOf(aux.profiles[id]) && p in aux.profiles ==> rank(p) < rank(id)
  }

  ghost function Measure(aux: AuxVersion, id: string, rank: string -> nat): nat {
    if id in aux.profiles then rank(id) + 1 else 0
  }

  /** What resolving `id` yields: nothing when no unresolved profile has that id or
      one of its ancestors is missing, otherwise the profile with its own file
      configurations, configurations and hash, and its parents resolved in declared order. */
  ghost function ResolveSpec(aux: AuxVersion, id: string, rank: string -> nat): (r: Option<Profile>)
    requires Acyclic(aux, rank)
    ensures r.Some? ==> r.value.id == id
    decreases Measure(aux, id, rank)
  {
    if id !in aux.profiles then None
    else
      var u := aux.profiles[id];
      var ps := ParentIdsOf(u);
      assert forall j :: 0 <= j < |ps| ==> ps[j] in ps;
      if forall j :: 0 <= j < |ps| ==> ResolveSpec(aux, ps[j], rank).Some? then
        Some(Profile(aux.id, id, u.files, u.configurations, u.hash,
          seq(|ps|, j requires 0 <= j < |ps| => ResolveSpec(aux, ps[j], rank).value)))
      else None
  }

  /** An id resolves exactly when its unresolved profile exists and all its parents
      resolve; the result keeps the profile's own file configurations, configurations
      and hash, and attaches the parents with the declared ids in declared order. */
  lemma ResolvedShape(aux: AuxVersion, id: string, rank: string -> nat)
    requires Acyclic(aux, rank)
    ensures var r := ResolveSpec(aux, id, rank);
      (r.Some? <==> (id in aux.profiles &&
        forall j :: 0 <= j < |ParentIdsOf(aux.profiles[id])| ==> ResolveSpec(aux, ParentIdsOf(aux.profiles[id])[j], rank).Some?)) &&
      (r.Some? ==>
        var u, ps := aux.profiles[id], ParentIdsOf(aux.profiles[id]);
        r.value.version == aux.id && r.value.files == u.files && r.value.configurations == u.configurations &&
        r.value.lastModified == u.hash && |r.value.parents| == |ps| &&
        forall j :: 0 <= j < |ps| ==> r.value.parents[j].id == ps[j])
  {
  }

  /** Every profile in the memo map is the resolution of its id. */
  ghost predicate MemoSound(aux: AuxVersion, memo: map<string, Profile>, rank: string -> nat)
    requires Acyclic(aux, rank)
  {
    forall k :: k in memo ==> ResolveSpec(aux, k, rank) == Some(memo[k])
  }

  /** The memoised profiles of the given parent ids, in the given order. */
  function Gather(ids: seq<string>, memo: map<string, Profile>): (r: seq<Profile>)
    requires forall j :: 0 <= j < |ids| ==> ids[j] in memo
    ensures |r| == |ids| && forall j :: 0 <= j < |ids| ==> r[j] == memo[ids[j]]
  {
    seq(|ids|, j requires 0 <= j < |ids| => memo[ids[j]])
  }

  function IdsOf(s: seq<Profile>): set<string> {
    set p | p in s :: p.id
  }

  /** `built'` continues `built`, and the memo lost nothing. */
  predicate Grows(memo: map<string, Profile>, built: seq<Profile>, memo': map<string, Profile>, built': seq<Profile>) {
    |built| <= |built'| && (forall j :: 0 <= j < |built| ==> built'[j] == built[j]) &&
    forall k :: k in memo ==> k in memo' && memo'[k] == memo[k]
  }

  /** The profiles handed to the builder after `from` are newly memoised, and every
      new memo entry was handed to the builder. */
  predicate AddedAreNew(memo: map<string, Profile>, from: int, memo': map<string, Profile>, built': seq<Profile>)
    requires 0 <= from <= |built'|
  {
    (forall j :: from <= j < |built'| ==> built'[j].id !in memo && built'[j].id in memo' && memo'[built'[j].id] == built'[j]) &&
    (forall k :: k in memo' ==> k in memo || exists j :: from <= j < |built'| && built'[j].id == k)
  }

  /** No id is handed to the builder twice after `from`. */
  predicate BuiltOnce(from: int, built': seq<Profile>) {
    forall i, j :: 0 <= from <= i < j < |built'| ==> built'[i].id != built'[j].id
  }

  /** Every parent of a profile handed to the builder after `from` was resolved before
      it: it is memoised, and it is not handed to the builder at that point or later. */
  predicate ParentsFirst(from: int, memo': map<string, Profile>, built': seq<Profile>) {
    (forall j, q :: 0 <= from <= j < |built'| && q in built'[j].parents ==> q.id in memo') &&
    (forall j, q, i :: 0 <= from <= j <= i < |built'| && q in built'[j].parents ==> built'[i].id != q.id)
  }

  /** From (`memo`, `built`) to (`memo'`, `built'`): the builder got the profiles that
      were newly memoised, each once, parents first, and the memo lost nothing. */
  predicate Extends(memo: map<string, Profile>, built: seq<Profile>, memo': map<string, Profile>, built': seq<Profile>) {
    Grows(memo, built, memo', built') &&
    AddedAreNew(memo, |built|, memo', built') &&
    BuiltOnce(|built|, built') &&
    ParentsFirst(|built|, memo', built')
  }

  lemma ExtendsReflexive(memo: map<string, Profile>, built: seq<Profile>)
    ensures Extends(memo, built, memo, built)
  {
  }

  lemma ExtendsTransitive(m0: map<string, Profile>, b0: seq<Profile>, m1: map<string, Profile>, b1: seq<Profile>, m2: map<string, Profile>, b2: seq<Profile>)
    requires Extends(m0, b0, m1, b1) && Extends(m1, b1, m2, b2)
    ensures Extends(m0, b0, m2, b2)
  {
    AddedTransitive(m0, b0, m1, b1, m2, b2);
    OnceTransitive(m0, b0, m1, b1, m2, b2);
    ParentsTransitive(m0, b0, m1, b1, m2, b2);
  }

  lemma AddedTransitive(m0: map<string, Profile>, b0: seq<Profile>, m1: map<string, Profile>, b1: seq<Profile>, m2: map<string, Profile>, b2: seq<Profile>)
    requires Grows(m0, b0, m1, b1) && Grows(m1, b1, m2, b2)
    requires forall j :: 0 <= j < |b1| ==> b2[j] == b1[j]
    requires AddedAreNew(m0, |b0|, m1, b1) && AddedAreNew(m1, |b1|, m2, b2)
    ensures AddedAreNew(m0, |b0|, m2, b2)
  {
    forall k | k in m2 ensures k in m0 || exists j :: |b0| <= j < |b2| && b2[j].id == k {
      if k !in m1 {
        var j :| |b1| <= j < |b2| && b2[j].id == k;
      } else if k !in m0 {
        var j :| |b0| <= j < |b1| && b1[j].id == k;
        assert b2[j].id == k;
      }
    }
  }

  lemma OnceTransitive(m0: map<string, Profile>, b0: seq<Profile>, m1: map<string, Profile>, b1: seq<Profile>, m2: map<string, Profile>, b2: seq<Profile>)
    requires Grows(m0, b0, m1, b1) && Grows(m1, b1, m2, b2)
    requires forall j :: 0 <= j < |b1| ==> b2[j] == b1[j]
    requires AddedAreNew(m0, |b0|, m1, b1) && AddedAreNew(m1, |b1|, m2, b2)
    requires BuiltOnce(|b0|, b1) && BuiltOnce(|b1|, b2)
    ensures BuiltOnce(|b0|, b2)
  {
    forall i, j | |b0| <= i < j < |b2| ensures b2[i].id != b2[j].id {
      if i < |b1| && j >= |b1| {
        assert b2[i].id in m1;
      }
    }
  }

  lemma ParentsTransitive(m0: map<string, Profile>, b0: seq<Profile>, m1: map<string, Profile>, b1: seq<Profile>, m2: map<string, Profile>, b2: seq<Profile>)
    requires Grows(m0, b0, m1, b1) && Grows(m1, b1, m2, b2)
    requires forall j :: 0 <= j < |b1| ==> b2[j] == b1[j]
    requires AddedAreNew(m1, |b1|, m2, b2)
    requires ParentsFirst(|b0|, m1, b1) && ParentsFirst(|b1|, m2, b2)
    ensures ParentsFirst(|b0|, m2, b2)
  {
    forall j, q, i | |b0| <= j <= i < |b2| && q in b2[j].parents ensures b2[i].id != q.id {
      if j < |b1| {
        assert b2[j] == b1[j];
        assert q.id in m1;
        if i < |b1| {
          assert b2[i] == b1[i];
        }
      }
    }
    forall j, q | |b0| <= j < |b2| && q in b2[j].parents ensures q.id in m2 {
      if j < |b1| {
        assert b2[j] == b1[j];
      }
    }
  }

  lemma ExtendsAddOne(memo: map<string, Profile>, built: seq<Profile>, p: Profile)
    requires p.id !in memo
    requires forall q :: q in p.parents ==> q.id in memo
    ensures Extends(memo, built, memo[p.id := p], built + [p])
  {
    assert (built + [p])[|built|] == p;
  }

  /** Once all parents of a listed id are memoised, the resolution of the id is the
      profile built from them. */
  lemma BuiltFromMemo(aux: AuxVersion, id: string, memo: map<string, Profile>, rank: string -> nat)
    requires Acyclic(aux, rank) && MemoSound(aux, memo, rank) && id in aux.profiles
    requires forall j :: 0 <= j < |ParentIdsOf(aux.profiles[id])| ==> ParentIdsOf(aux.profiles[id])[j] in memo
    ensures var u, ps := aux.profiles[id], ParentIdsOf(aux.profiles[id]);
      ResolveSpec(aux, id, rank) == Some(Profile(aux.id, id, u.files, u.configurations, u.hash, Gather(ps, memo)))
  {
    var ps := ParentIdsOf(aux.profiles[id]);
    forall j | 0 <= j < |ps| ensures ResolveSpec(aux, ps[j], rank) == Some(memo[ps[j]]) {
    }
    assert seq(|ps|, j requires 0 <= j < |ps| => ResolveSpec(aux, ps[j], rank).value) == Gather(ps, memo);
  }

  /** A parent that does not resolve leaves its child unresolved. */
  lemma MissingParent(aux: AuxVersion, id: string, j: int, rank: string -> nat)
    requires Acyclic(aux, rank) && id in aux.profiles
    requires 0 <= j < |ParentIdsOf(aux.profiles[id])|
    requires ResolveSpec(aux, ParentIdsOf(aux.profiles[id])[j], rank).None?
    ensures ResolveSpec(aux, id, rank).None?
  {
  }

  /** Everything memoised after `from` ranks below `bound`, so an id of rank `bound`
      is not among them. */
  lemma NotYetMemoised(aux: AuxVersion, id: string, memo: map<string, Profile>, from: int, memo': map<string, Profile>, built': seq<Profile>, rank: string -> nat)
    requires 0 <= from <= |built'| && AddedAreNew(memo, from, memo', built') && id !in memo
    requires forall j :: from <= j < |built'| ==> Measure(aux, built'[j].id, rank) < Measure(aux, id, rank)
    ensures id !in memo'
  {
  }

  /** One parent resolved: the loop of `resolveVersionProfiles` keeps its invariant. */
  lemma ParentStep(aux: AuxVersion, parents: seq<string>, i: int, bound: nat,
                   profiles: map<string, Profile>, built: seq<Profile>,
                   memo: map<string, Profile>, log: seq<Profile>,
                   memo': map<string, Profile>, log': seq<Profile>, rank: string -> nat)
    requires 0 <= i < |parents| && Measure(aux, parents[i], rank) < bound
    requires Grows(profiles, built, memo, log)
    requires forall j :: 0 <= j < i ==> parents[j] in memo
    requires forall j :: |built| <= j < |log| ==> Measure(aux, log[j].id, rank) < bound
    requires Grows(memo, log, memo', log') && parents[i] in memo'
    requires forall j :: |log| <= j < |log'| ==> Measure(aux, log'[j].id, rank) <= Measure(aux, parents[i], rank)
    ensures forall j :: 0 <= j < i + 1 ==> parents[j] in memo'
    ensures forall j :: |built| <= j < |log'| ==> Measure(aux, log'[j].id, rank) < bound
  {
    MeasureKept(aux, bound, Measure(aux, parents[i], rank), |built|, log, log', rank);
  }

  lemma MeasureKept(aux: AuxVersion, bound: nat, top: nat, from: int, log: seq<Profile>, log': seq<Profile>, rank: string -> nat)
    requires top < bound && 0 <= from <= |log| <= |log'|
    requires forall j :: 0 <= j < |log| ==> log'[j] == log[j]
    requires forall j :: from <= j < |log| ==> Measure(aux, log[j].id, rank) < bound
    requires forall j :: |log| <= j < |log'| ==> Measure(aux, log'[j].id, rank) <= top
    ensures forall j :: from <= j < |log'| ==> Measure(aux, log'[j].id, rank) < bound
  {
    forall j | from <= j < |log'| ensures Measure(aux, log'[j].id, rank) < bound {
      if j < |log| {
        assert log'[j] == log[j];
      }
    }
  }

  /** Memoising the resolution of an id keeps the memo sound. */
  lemma MemoSoundAdd(aux: AuxVersion, memo: map<string, Profile>, id: string, p: Profile, rank: string -> nat)
    requires Acyclic(aux, rank) && MemoSound(aux, memo, rank) && ResolveSpec(aux, id, rank) == Some(p)
    ensures MemoSound(aux, memo[id := p], rank)
  {
  }

  /** Handing a profile whose id is new and whose parents are memoised to the builder,
      and memoising it, extends the resolution so far. */
  lemma FinishExtends(aux: AuxVersion, p: Profile, bound: nat, profiles: map<string, Profile>, built: seq<Profile>,
                      memo: map<string, Profile>, log: seq<Profile>, rank: string -> nat)
    requires p.id !in profiles && bound == Measure(aux, p.id, rank)
    requires Extends(profiles, built, memo, log)
    requires forall q :: q in p.parents ==> q.id in memo
    requires forall j :: |built| <= j < |log| ==> Measure(aux, log[j].id, rank) < bound
    ensures Extends(profiles, built, memo[p.id := p], log + [p])
  {
    NotYetMemoised(aux, p.id, profiles, |built|, memo, log, rank);
    ExtendsAddOne(memo, log, p);
    ExtendsTransitive(profiles, built, memo, log, memo[p.id := p], log + [p]);
  }

  /** The last step of `resolveVersionProfiles`: memoising the built profile and
      handing it to the builder keeps every promise of the method. */
  lemma Finish(aux: AuxVersion, p: Profile, bound: nat, profiles: map<string, Profile>, built: seq<Profile>,
               memo: map<string, Profile>, log: seq<Profile>, rank: string -> nat)
    requires Acyclic(aux, rank) && MemoSound(aux, memo, rank) && ResolveSpec(aux, p.id, rank) == Some(p)
    requires p.id !in profiles && bound == Measure(aux, p.id, rank)
    requires Extends(profiles, built, memo, log)
    requires forall q :: q in p.parents ==> q.id in memo
    requires forall j :: |built| <= j < |log| ==> Measure(aux, log[j].id, rank) < bound
    ensures MemoSound(aux, memo[p.id := p], rank) && Extends(profiles, built, memo[p.id := p], log + [p])
    ensures forall j :: |built| <= j < |log + [p]| ==> Measure(aux, (log + [p])[j].id, rank) <= bound
  {
    MemoSoundAdd(aux, memo, p.id, p, rank);
    FinishExtends(aux, p, bound, profiles, built, memo, log, rank);
    MeasureKept(aux, bound + 1, bound, |built|, log, log + [p], rank);
  }

  /** `resolveVersionProfiles`: an id already in the memo map is left alone; otherwise
      its unresolved profile must exist (a fatal error otherwise), its parents are
      resolved left to right, and then the profile is built with those parents,
      handed to the builder and memoised. */
  method ResolveVersionProfiles(aux: AuxVersion, profileId: string, profiles: map<string, Profile>, built: seq<Profile>, ghost rank: string -> nat)
    returns (r: Result<(map<string, Profile>, seq<Profile>), string>)
    requires Acyclic(aux, rank) && MemoSound(aux, profiles, rank)
    ensures r.Success? <==> ResolveSpec(aux, profileId, rank).Some?
    ensures r.Success? ==>
      MemoSound(aux, r.value.0, rank) && Extends(profiles, built, r.value.0, r.value.1) && profileId in r.value.0 &&
      forall j :: |built| <= j < |r.value.1| ==> Measure(aux, r.value.1[j].id, rank) <= Measure(aux, profileId, rank)
    decreases Measure(aux, profileId, rank)
  {
    if profileId in profiles {
      ExtendsReflexive(profiles, built);
      return Success((profiles, built));
    }
    if profileId !in aux.profiles {
      return Failure("Cannot obtain profile '" + profileId + "' from: " + aux.id);
    }
    var auxProfile := aux.profiles[profileId];
    var parents := ParentIdsOf(auxProfile);
    ghost var bound := Measure(aux, profileId, rank);
    assert forall p :: p in parents ==> Measure(aux, p, rank) < bound;
    var memo, log := profiles, built;
    ExtendsReflexive(profiles, built);
    var i := 0;
    while i < |parents|
      invariant 0 <= i <= |parents|
      invariant MemoSound(aux, memo, rank) && Extends(profiles, built, memo, log)
      invariant forall j :: 0 <= j < i ==> parents[j] in memo
      invariant forall j :: |built| <= j < |log| ==> Measure(aux, log[j].id, rank) < bound
    {
      var step := ResolveVersionProfiles(aux, parents[i], memo, log, rank);
      if step.Failure? {
        MissingParent(aux, profileId, i, rank);
        return Failure(step.error);
      }
      var memo', log' := step.value.0, step.value.1;
      ExtendsTransitive(profiles, built, memo, log, memo', log');
      ParentStep(aux, parents, i, bound, profiles, built, memo, log, memo', log', rank);
      memo, log := memo', log';
      i := i + 1;
    }
    var parentProfiles := Gather(parents, memo);
    var profile := Profile(aux.id, profileId, auxProfile.files, auxProfile.configurations, auxProfile.hash, parentProfiles);
    BuiltFromMemo(aux, profileId, memo, rank);
    forall q | q in profile.parents ensures q.id in memo {
      var j :| 0 <= j < |parents| && parentProfiles[j] == q;
    }
    Finish(aux, profile, bound, profiles, built, memo, log, rank);
    memo := memo[profileId := profile];
    log := log + [profile];
    return Success((memo, log));
  }

  /** The resolution loop of `loadVersion`: every listed profile is resolved with a
      fresh memo map into one builder, and the first failure is fatal. The builder
      may receive a profile more than once, always with the same resolution. */
  method ResolveAll(aux: AuxVersion, ghost rank: string -> nat) returns (r: Result<seq<Profile>, string>)
    requires Acyclic(aux, rank)
    ensures r.Success? <==> forall i :: 0 <= i < |aux.order| ==> ResolveSpec(aux, aux.order[i], rank).Some?
    ensures r.Success? ==>
      (forall p :: p in r.value ==> ResolveSpec(aux, p.id, rank) == Some(p)) &&
      forall i :: 0 <= i < |aux.order| ==> aux.order[i] in IdsOf(r.value)
  {
    var built: seq<Profile> := [];
    var i := 0;
    while i < |aux.order|
      invariant 0 <= i <= |aux.order|
      invariant forall j :: 0 <= j < i ==> ResolveSpec(aux, aux.order[j], rank).Some?
      invariant forall p :: p in built ==> ResolveSpec(aux, p.id, rank) == Some(p)
      invariant forall j :: 0 <= j < i ==> aux.order[j] in IdsOf(built)
    {
      var step := ResolveVersionProfiles(aux, aux.order[i], map[], built, rank);
      if step.Failure? {
        return Failure(step.error);
      }
      var memo, built' := step.value.0, step.value.1;
      BuiltStaysResolved(aux, built, memo, built', rank);
      ListedSoFar(aux, i, built, memo, built');
      built := built';
      i := i + 1;
    }
    return Success(built);
  }

  /** After a top-level resolution with a fresh memo, the builder still holds only
      resolutions. */
  lemma BuiltStaysResolved(aux: AuxVersion, built: seq<Profile>, memo: map<string, Profile>, built': seq<Profile>, rank: string -> nat)
    requires Acyclic(aux, rank) && MemoSound(aux, memo, rank)
    requires Grows(map[], built, memo, built') && AddedAreNew(map[], |built|, memo, built')
    requires forall p :: p in built ==> ResolveSpec(aux, p.id, rank) == Some(p)
    ensures forall p :: p in built' ==> ResolveSpec(aux, p.id, rank) == Some(p)
  {
    BuiltResolved(aux, built, memo, built', rank);
  }

  /** After the top-level resolution of the `i`-th listed id, the builder holds every
      listed id up to the `i`-th. */
  lemma ListedSoFar(aux: AuxVersion, i: int, built: seq<Profile>, memo: map<string, Profile>, built': seq<Profile>)
    requires 0 <= i < |aux.order| && aux.order[i] in memo
    requires Grows(map[], built, memo, built') && AddedAreNew(map[], |built|, memo, built')
    requires forall j :: 0 <= j < i ==> aux.order[j] in IdsOf(built)
    ensures forall j :: 0 <= j < i + 1 ==> aux.order[j] in IdsOf(built')
  {
    NewIdListed(aux.order[i], built, memo, built');
    IdsKept(built, built');
  }

  lemma BuiltResolved(aux: AuxVersion, built: seq<Profile>, memo: map<string, Profile>, built': seq<Profile>, rank: string -> nat)
    requires Acyclic(aux, rank) && MemoSound(aux, memo, rank)
    requires |built| <= |built'| && forall j :: 0 <= j < |built| ==> built'[j] == built[j]
    requires forall j :: |built| <= j < |built'| ==> built'[j].id in memo && memo[built'[j].id] == built'[j]
    requires forall p :: p in built ==> ResolveSpec(aux, p.id, rank) == Some(p)
    ensures forall p :: p in built' ==> ResolveSpec(aux, p.id, rank) == Some(p)
  {
    forall p | p in built' ensures ResolveSpec(aux, p.id, rank) == Some(p) {
      var j :| 0 <= j < |built'| && built'[j] == p;
      if j < |built| {
        assert built[j] == p;
      }
    }
  }

  lemma IdsKept(built: seq<Profile>, built': seq<Profile>)
    requires |built| <= |built'| && forall j :: 0 <= j < |built| ==> built'[j] == built[j]
    ensures IdsOf(built) <= IdsOf(built')
  {
    forall x | x in IdsOf(built) ensures x in IdsOf(built') {
      var p :| p in built && p.id == x;
      var j :| 0 <= j < |built| && built[j] == p;
      assert built'[j] == p;
    }
  }

  lemma NewIdListed(k: string, built: seq<Profile>, memo: map<string, Profile>, built': seq<Profile>)
    requires 0 <= |built| <= |built'| && AddedAreNew(map[], |built|, memo, built') && k in memo
    ensures k in IdsOf(built')
  {
    var n :| |built| <= n < |built'| && built'[n].id == k;
    assert built'[n] in built';
  }

  /** Whatever order and however often the builder receives profiles, all it receives
      for one id are the same profile. */
  lemma SameIdSameProfile(aux: AuxVersion, rank: string -> nat, built: seq<Profile>, p: Profile, q: Profile)
    requires Acyclic(aux, rank)
    requires forall x :: x in built ==> ResolveSpec(aux, x.id, rank) == Some(x)
    requires p in built && q in built && p.id == q.id
    ensures p == q
  {
  }
}
