/** Reading the repository's ref list: the local branches (`refs/heads/<name>`) and the
    remote-tracking branches (`refs/remotes/<remote>/<name>`) become two maps from
    branch name to commit id, as `doPullInternal` builds them, and the local branch
    names other than master become the initial version ids (`getInitialVersions`). */
module Refs {
  import opened Text
  import opened Types
  import opened Wrappers

  datatype Ref = Ref(name: string, id: CommitId)

  const HEADS: string := "refs/heads/"

  function TrackingPrefix(remote: string): string {
    "refs/remotes/" + remote + "/"
  }

  predicate IsTracking(r: Ref, remote: string) {
    StartsWith(r.name, TrackingPrefix(remote))
  }

  /** The ref is a local branch; the tracking test is made first, as in the source. */
  predicate IsHead(r: Ref, remote: string) {
    !IsTracking(r, remote) && StartsWith(r.name, HEADS)
  }

  /** Remote-tracking branches by name; a later ref of the same name replaces an
      earlier one, as `HashMap.put` does. */
  function Tracked(refs: seq<Ref>, remote: string): map<string, CommitId> {
    if refs == [] then map[]
    else
      var m := Tracked(refs[..|refs| - 1], remote);
      var r := refs[|refs| - 1];
      if IsTracking(r, remote) then m[r.name[|TrackingPrefix(remote)|..] := r.id] else m
  }

  /** Local branches by name, built the same way. */
  function Heads(refs: seq<Ref>, remote: string): map<string, CommitId> {
    if refs == [] then map[]
    else
      var m := Heads(refs[..|refs| - 1], remote);
      var r := refs[|refs| - 1];
      if IsHead(r, remote) then m[r.name[|HEADS|..] := r.id] else m
  }

  /** The loop of `doPullInternal` that sorts the ref list into the two maps and
      collects every name seen on either side. */
  method ListBranches(refs: seq<Ref>, remote: string)
    returns (local: map<string, CommitId>, tracked: map<string, CommitId>, names: set<string>)
    ensures local == Heads(refs, remote)
    ensures tracked == Tracked(refs, remote)
    ensures names == local.Keys + tracked.Keys
  {
    local, tracked, names := map[], map[], {};
    var prefix := TrackingPrefix(remote);
    var i := 0;
    while i < |refs|
      invariant 0 <= i <= |refs|
      invariant local == Heads(refs[..i], remote)
      invariant tracked == Tracked(refs[..i], remote)
      invariant names == local.Keys + tracked.Keys
    {
      var r := refs[i];
      assert refs[..i + 1][..i] == refs[..i];
      if StartsWith(r.name, prefix) {
        var name := r.name[|prefix|..];
        tracked := tracked[name := r.id];
        names := names + {name};
      } else if StartsWith(r.name, HEADS) {
        var name := r.name[|HEADS|..];
        local := local[name := r.id];
        names := names + {name};
      }
      i := i + 1;
    }
    assert refs[..|refs|] == refs;
  }

  /** No local branch ref is mistaken for a remote-tracking one. */
  lemma HeadNotTracking(n: string, remote: string)
    ensures !StartsWith(HEADS + n, TrackingPrefix(remote))
  {
    assert (HEADS + n)[5] == 'h';
    assert TrackingPrefix(remote)[5] == 'r';
  }

  /** A ref is the local branch `n` exactly when it is named `refs/heads/<n>`. */
  lemma HeadNamed(r: Ref, remote: string, n: string)
    ensures IsHead(r, remote) && r.name[|HEADS|..] == n <==> r.name == HEADS + n
  {
    HeadNotTracking(n, remote);
    if r.name == HEADS + n {
      assert r.name[..|HEADS|] == HEADS;
    }
    if IsHead(r, remote) && r.name[|HEADS|..] == n {
      assert r.name == r.name[..|HEADS|] + r.name[|HEADS|..];
    }
  }

  /** A name is a local branch exactly when `refs/heads/<name>` is listed, and its
      commit id is the one of the LAST such ref. */
  lemma {:induction false} HeadsAt(refs: seq<Ref>, remote: string, n: string)
    ensures n in Heads(refs, remote) <==> exists i :: 0 <= i < |refs| && refs[i].name == HEADS + n
    ensures n in Heads(refs, remote) ==>
      exists i :: 0 <= i < |refs| && refs[i] == Ref(HEADS + n, Heads(refs, remote)[n]) &&
        forall j :: i < j < |refs| ==> refs[j].name != HEADS + n
  {
    if refs != [] {
      var front := refs[..|refs| - 1];
      var r := refs[|refs| - 1];
      HeadsAt(front, remote, n);
      assert forall i :: 0 <= i < |front| ==> front[i] == refs[i];
      HeadNamed(r, remote, n);
      if r.name == HEADS + n {
        assert refs[|refs| - 1] == Ref(HEADS + n, Heads(refs, remote)[n]);
      } else {
        assert Heads(refs, remote) == Heads(front, remote) || !IsHead(r, remote) || r.name[|HEADS|..] != n;
        if n in Heads(refs, remote) {
          var i :| 0 <= i < |front| && front[i] == Ref(HEADS + n, Heads(front, remote)[n]) &&
            forall j :: i < j < |front| ==> front[j].name != HEADS + n;
          assert refs[i] == Ref(HEADS + n, Heads(refs, remote)[n]);
          assert forall j :: i < j < |refs| ==> refs[j].name != HEADS + n by {
            forall j | i < j < |refs| ensures refs[j].name != HEADS + n {
              if j < |front| {
                assert front[j] == refs[j];
              }
            }
          }
        }
      }
    }
  }

  /** A name is a remote-tracking branch exactly when `refs/remotes/<remote>/<name>` is
      listed, and its commit id is the one of the LAST such ref. */
  lemma {:induction false} TrackedAt(refs: seq<Ref>, remote: string, n: string)
    ensures n in Tracked(refs, remote) <==>
      exists i :: 0 <= i < |refs| && refs[i].name == TrackingPrefix(remote) + n
    ensures n in Tracked(refs, remote) ==>
      exists i :: 0 <= i < |refs| && refs[i] == Ref(TrackingPrefix(remote) + n, Tracked(refs, remote)[n]) &&
        forall j :: i < j < |refs| ==> refs[j].name != TrackingPrefix(remote) + n
  {
    var p := TrackingPrefix(remote);
    if refs != [] {
      var front := refs[..|refs| - 1];
      var r := refs[|refs| - 1];
      TrackedAt(front, remote, n);
      assert forall i :: 0 <= i < |front| ==> front[i] == refs[i];
      var matches := IsTracking(r, remote) && r.name[|p|..] == n;
      assert matches <==> r.name == p + n by {
        if r.name == p + n {
          assert r.name[..|p|] == p;
        }
        if IsTracking(r, remote) && r.name[|p|..] == n {
          assert r.name == r.name[..|p|] + r.name[|p|..];
        }
      }
      if matches {
        assert refs[|refs| - 1] == Ref(p + n, Tracked(refs, remote)[n]);
      } else if n in Tracked(refs, remote) {
        var i :| 0 <= i < |front| && front[i] == Ref(p + n, Tracked(front, remote)[n]) &&
          forall j :: i < j < |front| ==> front[j].name != p + n;
        assert refs[i] == Ref(p + n, Tracked(refs, remote)[n]);
        assert forall j :: i < j < |refs| ==> refs[j].name != p + n by {
          forall j | i < j < |refs| ensures refs[j].name != p + n {
            if j < |front| {
              assert front[j] == refs[j];
            }
          }
        }
      }
    }
  }

  /** The version named by a branch ref, if it is a local branch other than master. */
  function VersionOf(branch: string): Option<string> {
    if StartsWith(branch, HEADS) && branch[|HEADS|..] != MASTER_BRANCH then Some(branch[|HEADS|..])
    else None
  }

  function VersionsOf(branches: seq<string>): seq<string> {
    if branches == [] then []
    else
      var front := VersionsOf(branches[..|branches| - 1]);
      match VersionOf(branches[|branches| - 1])
      case Some(v) => front + [v]
      case None => front
  }

  /** A version id is collected exactly when its local branch is listed and it is not
      master. */
  lemma {:induction false} VersionsOfMembership(branches: seq<string>, v: string)
    ensures v in VersionsOf(branches) <==> HEADS + v in branches && v != MASTER_BRANCH
    ensures |VersionsOf(branches)| <= |branches|
  {
    if branches != [] {
      var front := branches[..|branches| - 1];
      var b := branches[|branches| - 1];
      VersionsOfMembership(front, v);
      assert branches == front + [b];
      assert b == HEADS + v <==> StartsWith(b, HEADS) && b[|HEADS|..] == v by {
        if b == HEADS + v {
          assert b[..|HEADS|] == HEADS;
        }
        if StartsWith(b, HEADS) && b[|HEADS|..] == v {
          assert b == b[..|HEADS|] + b[|HEADS|..];
        }
      }
    }
  }

  /** The loop of `getInitialVersions`: every local branch name except master, in the
      order listed. */
  method HeadVersions(branches: seq<string>) returns (answer: seq<string>)
    ensures answer == VersionsOf(branches)
    ensures forall v :: v in answer <==> HEADS + v in branches && v != MASTER_BRANCH
    ensures |answer| <= |branches|
  {
    answer := [];
    var i := 0;
    while i < |branches|
      invariant 0 <= i <= |branches|
      invariant answer == VersionsOf(branches[..i])
    {
      var name := branches[i];
      assert branches[..i + 1][..i] == branches[..i];
      if StartsWith(name, HEADS) {
        name := name[|HEADS|..];
        if name != MASTER_BRANCH {
          answer := answer + [name];
        }
      }
      i := i + 1;
    }
    assert branches[..|branches|] == branches;
    forall v ensures v in answer <==> HEADS + v in branches && v != MASTER_BRANCH {
      VersionsOfMembership(branches, v);
    }
    VersionsOfMembership(branches, "");
  }
}
