/** Loading profiles from a checked-out branch: the folder tree under the profiles
    directory, the profile ids derived from it (`populateProfile`), the relative file
    patterns (`getFilePattern`) and the file configurations of one profile folder
    (`populateFileConfigurations`). */
module ProfileTree {
  import opened Wrappers
  import opened Text
  import opened Types

  /** A directory entry of the working tree. */
  datatype Node = File(name: string, content: Content) | Folder(name: string, children: seq<Node>)

  /** A profile found in the tree: its id and the folder that holds it. */
  datatype Found = Found(id: string, folder: Node)

  /** The folder name without the profile-folder suffix. */
  function Stem(name: string, suffix: string): string
    requires EndsWith(name, suffix)
  {
    name[..|name| - |suffix|]
  }

  /** `populateProfile`: a folder whose name ends with the profile-folder suffix is a
      profile whose id is the prefix followed by the name without the suffix, and it is
      not looked into; any other folder groups profiles: its sub-folders are visited
      with the prefix extended by its name and a dash, and its plain files are skipped. */
  function Derive(folder: Node, prefix: string, suffix: string): seq<Found>
    requires folder.Folder?
    decreases folder, 1, 0
  {
    if EndsWith(folder.name, suffix) then [Found(prefix + Stem(folder.name, suffix), folder)]
    else DeriveFrom(folder, 0, prefix + folder.name + "-", suffix)
  }

  /** The profiles below the children of `parent` from index `i` on, in listing order. */
  function DeriveFrom(parent: Node, i: nat, prefix: string, suffix: string): seq<Found>
    requires parent.Folder? && i <= |parent.children|
    decreases parent, 0, |parent.children| - i
  {
    if i == |parent.children| then []
    else
      var child := parent.children[i];
      (if child.Folder? then Derive(child, prefix, suffix) else []) + DeriveFrom(parent, i + 1, prefix, suffix)
  }

  /** `populateVersionBuilder`: every folder directly under the profiles directory that
      has a last commit is handed to `populateProfile` with an empty prefix. */
  function ProfilesOf(profilesDir: Option<Node>, hasCommit: string -> bool, suffix: string): seq<Found> {
    if profilesDir.Some? && profilesDir.value.Folder? then TopLevelFrom(profilesDir.value, 0, hasCommit, suffix)
    else []
  }

  function TopLevelFrom(dir: Node, i: nat, hasCommit: string -> bool, suffix: string): seq<Found>
    requires dir.Folder? && i <= |dir.children|
    decreases |dir.children| - i
  {
    if i == |dir.children| then []
    else
      var child := dir.children[i];
      (if child.Folder? && hasCommit(child.name) then Derive(child, "", suffix) else [])
        + TopLevelFrom(dir, i + 1, hasCommit, suffix)
  }

  /** A child of the profiles directory contributes `found` when it is a folder with a
      last commit whose derivation with an empty prefix yields it. */
  predicate TopLevelYields(child: Node, hasCommit: string -> bool, suffix: string, found: Found) {
    child.Folder? && hasCommit(child.name) && found in Derive(child, "", suffix)
  }

  /** The profiles of a version are exactly what its committed top-level folders
      derive; folders without a commit, plain files and a missing profiles directory
      contribute nothing. */
  lemma ProfilesOfMembership(profilesDir: Option<Node>, hasCommit: string -> bool, suffix: string, found: Found)
    ensures found in ProfilesOf(profilesDir, hasCommit, suffix) <==>
      profilesDir.Some? && profilesDir.value.Folder? &&
      exists k :: 0 <= k < |profilesDir.value.children| && TopLevelYields(profilesDir.value.children[k], hasCommit, suffix, found)
  {
    if profilesDir.Some? && profilesDir.value.Folder? {
      TopLevelFromMembership(profilesDir.value, 0, hasCommit, suffix, found);
    }
  }

  lemma {:induction false} TopLevelFromMembership(dir: Node, i: nat, hasCommit: string -> bool, suffix: string, found: Found)
    requires dir.Folder? && i <= |dir.children|
    ensures found in TopLevelFrom(dir, i, hasCommit, suffix) <==>
      exists k :: i <= k < |dir.children| && TopLevelYields(dir.children[k], hasCommit, suffix, found)
    decreases |dir.children| - i
  {
    if i < |dir.children| {
      TopLevelFromMembership(dir, i + 1, hasCommit, suffix, found);
      if TopLevelYields(dir.children[i], hasCommit, suffix, found) {
        assert found in TopLevelFrom(dir, i, hasCommit, suffix);
      } else {
        forall k | i <= k < |dir.children| && TopLevelYields(dir.children[k], hasCommit, suffix, found)
          ensures i + 1 <= k
        {
        }
      }
    }
  }

  /** Reference description of where profiles sit: for every profile folder, the names
      of the grouping folders on the way down (starting with `groups`) and the folder. */
  datatype Located = Located(groups: seq<string>, folder: Node)

  function Locate(folder: Node, groups: seq<string>, suffix: string): seq<Located>
    requires folder.Folder?
    decreases folder, 1, 0
  {
    if EndsWith(folder.name, suffix) then [Located(groups, folder)]
    else LocateFrom(folder, 0, groups + [folder.name], suffix)
  }

  function LocateFrom(parent: Node, i: nat, groups: seq<string>, suffix: string): seq<Located>
    requires parent.Folder? && i <= |parent.children|
    decreases parent, 0, |parent.children| - i
  {
    if i == |parent.children| then []
    else
      var child := parent.children[i];
      (if child.Folder? then Locate(child, groups, suffix) else []) + LocateFrom(parent, i + 1, groups, suffix)
  }

  /** Each group name followed by a dash: the prefix `populateProfile` has built after
      descending through `groups`. */
  function DashPrefix(groups: seq<string>): string {
    if groups == [] then "" else groups[0] + "-" + DashPrefix(groups[1..])
  }

  predicate IsProfileFolder(n: Node, suffix: string) {
    n.Folder? && EndsWith(n.name, suffix)
  }

  /** The id of a profile found below grouping folders `groups`: the group names and the
      folder's stem, joined with dashes. */
  function IdOf(l: Located, suffix: string): string
    requires IsProfileFolder(l.folder, suffix)
  {
    Join(l.groups + [Stem(l.folder.name, suffix)], '-')
  }

  lemma {:induction false} DashPrefixJoin(groups: seq<string>, last: string)
    ensures DashPrefix(groups) + last == Join(groups + [last], '-')
  {
    if groups != [] {
      DashPrefixJoin(groups[1..], last);
      assert (groups + [last])[1..] == groups[1..] + [last];
    }
  }

  lemma {:induction false} DashPrefixAppend(groups: seq<string>, g: string)
    ensures DashPrefix(groups + [g]) == DashPrefix(groups) + g + "-"
  {
    if groups != [] {
      DashPrefixAppend(groups[1..], g);
      assert (groups + [g])[1..] == groups[1..] + [g];
    }
  }

  /** The derivation finds exactly the profile folders of the reference description, in
      the same order, and gives each the id made of its grouping folders and its stem
      joined with dashes. */
  lemma {:induction false} DeriveIsLocate(folder: Node, groups: seq<string>, suffix: string)
    requires folder.Folder?
    ensures var d, l := Derive(folder, DashPrefix(groups), suffix), Locate(folder, groups, suffix);
      |d| == |l| &&
      forall k :: 0 <= k < |d| ==>
        IsProfileFolder(l[k].folder, suffix) && d[k] == Found(IdOf(l[k], suffix), l[k].folder)
    decreases folder, 1, 0
  {
    if EndsWith(folder.name, suffix) {
      DashPrefixJoin(groups, Stem(folder.name, suffix));
    } else {
      DashPrefixAppend(groups, folder.name);
      DeriveFromIsLocateFrom(folder, 0, groups + [folder.name], suffix);
    }
  }

  lemma {:induction false} DeriveFromIsLocateFrom(parent: Node, i: nat, groups: seq<string>, suffix: string)
    requires parent.Folder? && i <= |parent.children|
    ensures var d, l := DeriveFrom(parent, i, DashPrefix(groups), suffix), LocateFrom(parent, i, groups, suffix);
      |d| == |l| &&
      forall k :: 0 <= k < |d| ==>
        IsProfileFolder(l[k].folder, suffix) && d[k] == Found(IdOf(l[k], suffix), l[k].folder)
    decreases parent, 0, |parent.children| - i
  {
    if i < |parent.children| {
      var child := parent.children[i];
      DeriveFromIsLocateFrom(parent, i + 1, groups, suffix);
      if child.Folder? {
        DeriveIsLocate(child, groups, suffix);
      }
    }
  }

  /** Every id found below a grouping folder starts with the prefix handed down. */
  lemma {:induction false} IdsStartWithPrefix(folder: Node, prefix: string, suffix: string)
    requires folder.Folder?
    ensures forall f :: f in Derive(folder, prefix, suffix) ==> StartsWith(f.id, prefix)
    decreases folder, 1, 0
  {
    if !EndsWith(folder.name, suffix) {
      var p := prefix + folder.name + "-";
      IdsStartWithPrefixFrom(folder, 0, p, suffix);
      forall f | f in Derive(folder, prefix, suffix) ensures StartsWith(f.id, prefix) {
        assert StartsWith(f.id, p);
        assert f.id[..|prefix|] == p[..|prefix|];
      }
    }
  }

  lemma {:induction false} IdsStartWithPrefixFrom(parent: Node, i: nat, prefix: string, suffix: string)
    requires parent.Folder? && i <= |parent.children|
    ensures forall f :: f in DeriveFrom(parent, i, prefix, suffix) ==> StartsWith(f.id, prefix)
    decreases parent, 0, |parent.children| - i
  {
    if i < |parent.children| {
      var child := parent.children[i];
      IdsStartWithPrefixFrom(parent, i + 1, prefix, suffix);
      if child.Folder? {
        IdsStartWithPrefix(child, prefix, suffix);
      }
    }
  }

  /** A profile folder yields its own id only, whatever it contains. */
  lemma ProfileFolderNotDescended(name: string, children: seq<Node>, prefix: string, suffix: string)
    requires EndsWith(name, suffix)
    ensures Derive(Folder(name, children), prefix, suffix) == [Found(prefix + Stem(name, suffix), Folder(name, children))]
  {
  }

  /** Plain files in a grouping folder do not change what is derived from it. */
  lemma {:induction false} PlainFilesIgnored(name: string, children: seq<Node>, k: nat, file: Node, prefix: string, suffix: string)
    requires file.File? && k <= |children| && !EndsWith(name, suffix)
    ensures Derive(Folder(name, children[..k] + [file] + children[k..]), prefix, suffix) == Derive(Folder(name, children), prefix, suffix)
  {
    var p := prefix + name + "-";
    var a, b := Folder(name, children[..k] + [file] + children[k..]), Folder(name, children);
    assert forall j :: 0 <= j < k ==> a.children[j] == b.children[j];
    assert forall j :: k < j < |a.children| ==> a.children[j] == b.children[j - 1];
    ShiftedFrom(a, b, k, 0, p, suffix);
  }

  /** The derivation from index `i` of `a` equals the one from index `i` of `b` below the
      inserted file and from index `i - 1` above it. */
  lemma {:induction false} ShiftedFrom(a: Node, b: Node, k: nat, i: nat, prefix: string, suffix: string)
    requires a.Folder? && b.Folder? && k <= |b.children| && |a.children| == |b.children| + 1
    requires a.children[k].File?
    requires forall j :: 0 <= j < k ==> a.children[j] == b.children[j]
    requires forall j :: k < j < |a.children| ==> a.children[j] == b.children[j - 1]
    requires i <= |a.children|
    ensures i <= k ==> DeriveFrom(a, i, prefix, suffix) == DeriveFrom(b, i, prefix, suffix)
    ensures i > k ==> DeriveFrom(a, i, prefix, suffix) == DeriveFrom(b, i - 1, prefix, suffix)
    decreases |a.children| - i
  {
    if i < |a.children| {
      ShiftedFrom(a, b, k, i + 1, prefix, suffix);
    }
  }

  /** `getFilePattern`: the path relative to the root with one leading separator
      removed and every platform separator turned into `/`. */
  function FilePattern(relativePath: string, sep: char): (r: string)
    ensures |r| <= |relativePath|
    ensures sep != '/' ==> sep !in r
  {
    var trimmed := if StartsWith(relativePath, [sep]) then relativePath[1..] else relativePath;
    Replace(trimmed, sep, '/')
  }

  /** The relative path `Files.getRelativePath` yields for a file `segments` below the
      root: the segments, each preceded by the platform separator. */
  function RelativePath(segments: seq<string>, sep: char): string {
    [sep] + Join(segments, sep)
  }

  /** The file pattern of a file is its segments joined with `/`, whatever the
      platform separator. */
  lemma FilePatternOfRelativePath(segments: seq<string>, sep: char)
    requires NoneContains(segments, sep)
    ensures FilePattern(RelativePath(segments, sep), sep) == Join(segments, '/')
  {
    var rel := RelativePath(segments, sep);
    assert StartsWith(rel, [sep]);
    assert rel[1..] == Join(segments, sep);
    ReplaceJoin(segments, sep, '/');
  }

  /** Entry names in the tree never contain the platform separator. */
  predicate NamesFree(n: Node, sep: char) {
    sep !in n.name &&
    (n.Folder? ==> forall i :: 0 <= i < |n.children| ==> NamesFree(n.children[i], sep))
  }

  /** The (key, content) pairs `populateFileConfigurations` puts, in order, for the
      folder `dir` lying at `base` below the profile folder. */
  function Listing(dir: Node, base: seq<string>, sep: char): seq<(string, Content)>
    requires dir.Folder?
    decreases dir, 1, 0
  {
    ListingFrom(dir, 0, base, sep)
  }

  function ListingFrom(dir: Node, i: nat, base: seq<string>, sep: char): seq<(string, Content)>
    requires dir.Folder? && i <= |dir.children|
    decreases dir, 0, |dir.children| - i
  {
    if i == |dir.children| then []
    else
      var child := dir.children[i];
      (match child
       case File(name, content) => [(FilePattern(RelativePath(base + [name], sep), sep), content)]
       case Folder(name, _) => Listing(child, base + [name], sep))
      + ListingFrom(dir, i + 1, base, sep)
  }

  /** Successive `Map.put` calls: a later key replaces an earlier one. */
  function PutAll(m: map<string, Content>, entries: seq<(string, Content)>): map<string, Content>
    decreases |entries|
  {
    if entries == [] then m else PutAll(m[entries[0].0 := entries[0].1], entries[1..])
  }

  lemma {:induction false} PutAllAppend(m: map<string, Content>, a: seq<(string, Content)>, b: seq<(string, Content)>)
    ensures PutAll(m, a + b) == PutAll(PutAll(m, a), b)
    decreases |a|
  {
    if a == [] {
      assert a + b == b;
    } else {
      var m' := m[a[0].0 := a[0].1];
      assert (a + b)[0] == a[0];
      assert (a + b)[1..] == a[1..] + b;
      assert PutAll(m, a + b) == PutAll(m', a[1..] + b);
      assert PutAll(m, a) == PutAll(m', a[1..]);
      PutAllAppend(m', a[1..], b);
    }
  }

  /** `populateFileConfigurations`: walks the folder, putting each file under its
      pattern relative to the profile folder and descending into sub-folders. */
  method PopulateFileConfigurations(configurations: map<string, Content>, base: seq<string>, directory: Node, sep: char)
    returns (result: map<string, Content>)
    requires directory.Folder?
    ensures result == PutAll(configurations, Listing(directory, base, sep))
    decreases directory
  {
    result := configurations;
    var i := 0;
    while i < |directory.children|
      invariant 0 <= i <= |directory.children|
      invariant PutAll(result, ListingFrom(directory, i, base, sep)) == PutAll(configurations, Listing(directory, base, sep))
    {
      var child := directory.children[i];
      var rest := ListingFrom(directory, i + 1, base, sep);
      match child {
        case File(name, content) =>
          var relativePath := FilePattern(RelativePath(base + [name], sep), sep);
          PutAllAppend(result, [(relativePath, content)], rest);
          result := result[relativePath := content];
        case Folder(name, _) =>
          PutAllAppend(result, Listing(child, base + [name], sep), rest);
          result := PopulateFileConfigurations(result, base + [name], child, sep);
      }
      i := i + 1;
    }
  }

  /** Reference description of the files below a folder: each file's path as a list of
      names relative to the folder, with its content, in listing order. */
  function FilePaths(dir: Node): seq<(seq<string>, Content)>
    requires dir.Folder?
    decreases dir, 1, 0
  {
    FilePathsFrom(dir, 0)
  }

  function FilePathsFrom(dir: Node, i: nat): seq<(seq<string>, Content)>
    requires dir.Folder? && i <= |dir.children|
    decreases dir, 0, |dir.children| - i
  {
    if i == |dir.children| then []
    else
      var child := dir.children[i];
      (match child
       case File(name, content) => [([name], content)]
       case Folder(name, _) => Under(name, FilePaths(child)))
      + FilePathsFrom(dir, i + 1)
  }

  function Under(name: string, paths: seq<(seq<string>, Content)>): seq<(seq<string>, Content)> {
    seq(|paths|, k requires 0 <= k < |paths| => ([name] + paths[k].0, paths[k].1))
  }

  /** The keys `/`-joined, below `base`. */
  function Keyed(paths: seq<(seq<string>, Content)>, base: seq<string>): seq<(string, Content)> {
    seq(|paths|, k requires 0 <= k < |paths| => (Join(base + paths[k].0, '/'), paths[k].1))
  }

  /** Every key `populateFileConfigurations` puts is the file's path below the profile
      folder with `/` between names, whatever the platform separator, and the files
      come in listing order. */
  lemma {:induction false} ListingIsSlashJoined(dir: Node, base: seq<string>, sep: char)
    requires dir.Folder? && NamesFree(dir, sep) && NoneContains(base, sep)
    ensures Listing(dir, base, sep) == Keyed(FilePaths(dir), base)
    decreases dir, 1, 0
  {
    ListingFromIsSlashJoined(dir, 0, base, sep);
  }

  lemma {:induction false} ListingFromIsSlashJoined(dir: Node, i: nat, base: seq<string>, sep: char)
    requires dir.Folder? && NamesFree(dir, sep) && NoneContains(base, sep) && i <= |dir.children|
    ensures ListingFrom(dir, i, base, sep) == Keyed(FilePathsFrom(dir, i), base)
    decreases dir, 0, |dir.children| - i
  {
    if i < |dir.children| {
      var child := dir.children[i];
      assert NamesFree(child, sep);
      ListingFromIsSlashJoined(dir, i + 1, base, sep);
      var restPaths := FilePathsFrom(dir, i + 1);
      match child {
        case File(name, content) =>
          FilePatternOfRelativePath(base + [name], sep);
          KeyedAppend([([name], content)], restPaths, base);
        case Folder(name, _) =>
          ListingIsSlashJoined(child, base + [name], sep);
          KeyedUnder(name, FilePaths(child), base);
          KeyedAppend(Under(name, FilePaths(child)), restPaths, base);
      }
    }
  }

  lemma KeyedAppend(a: seq<(seq<string>, Content)>, b: seq<(seq<string>, Content)>, base: seq<string>)
    ensures Keyed(a + b, base) == Keyed(a, base) + Keyed(b, base)
  {
  }

  /** Keying the paths of a sub-folder below `base` is keying its own paths below
      `base + [name]`. */
  lemma KeyedUnder(name: string, inner: seq<(seq<string>, Content)>, base: seq<string>)
    ensures Keyed(Under(name, inner), base) == Keyed(inner, base + [name])
  {
    forall k | 0 <= k < |inner| ensures base + ([name] + inner[k].0) == (base + [name]) + inner[k].0 {
    }
  }
}
