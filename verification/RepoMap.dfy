/** The repository map: file and line counts of every directory, gathered in one pass over the files
    by adding each file to all directories above it. */
module RepoMap {
  import opened Options

  /** A path relative to the repository root, part by part; the root is `[]`. */
  type Path = seq<string>

  /** A file and its number of lines, unless that could not be read or was not asked for. */
  datatype File = File(path: Path, lines: Option<nat>, bytes: nat)

  datatype Directory = Directory(depth: nat, fileCount: nat, totalLines: nat)

  datatype Totals = Totals(files: nat, lines: nat, skipped: nat)

  function LinesOf(f: File): nat {
    if f.lines.Some? then f.lines.value else 0
  }

  /** What a file adds to a directory: one file, or its lines. */
  datatype Measure = Files | Lines

  function Weight(f: File, m: Measure): nat {
    match m
    case Files => 1
    case Lines => LinesOf(f)
  }

  predicate Beneath(p: Path, dir: Path) {
    |dir| < |p| && p[..|dir|] == dir
  }

  // ----- counting directly -----

  /** The files beneath a directory, counted one directory at a time. */
  function Under(files: seq<File>, dir: Path, m: Measure): nat {
    if files == [] then 0
    else
      var f := files[|files| - 1];
      Under(files[..|files| - 1], dir, m) + if Beneath(f.path, dir) then Weight(f, m) else 0
  }

  lemma BeneathIff(p: Path, dir: Path)
    ensures Beneath(p, dir) <==> exists rest: Path :: rest != [] && p == dir + rest
  {
    if Beneath(p, dir) { assert p == dir + p[|dir|..]; }
  }

  /** Where the files beneath a directory stand in the list. */
  function Positions(files: seq<File>, dir: Path): set<nat> {
    set i: nat | i < |files| && Beneath(files[i].path, dir)
  }

  /** The count of files is their number. */
  lemma {:induction false} UnderCountsFiles(files: seq<File>, dir: Path)
    ensures Under(files, dir, Files) == |Positions(files, dir)|
  {
    hide Beneath;
    if files == [] {
      assert Positions(files, dir) == {};
    } else {
      var n := |files| - 1;
      UnderCountsFiles(files[..n], dir);
      assert Positions(files, dir) == Positions(files[..n], dir) + if Beneath(files[n].path, dir) then {n} else {};
    }
  }

  /** The count of lines adds up what was read of each file beneath. */
  lemma {:induction false} UnderAddsLines(files: seq<File>, f: File, dir: Path)
    ensures Under([], dir, Lines) == 0
    ensures Under(files + [f], dir, Lines) == Under(files, dir, Lines)
      + if Beneath(f.path, dir) && f.lines.Some? then f.lines.value else 0
    ensures Total([], Lines) == 0
    ensures Total(files + [f], Lines) == Total(files, Lines) + if f.lines.Some? then f.lines.value else 0
  {
    assert (files + [f])[..|files|] == files;
  }

  function UnreadAt(files: seq<File>): set<nat> {
    set i: nat | i < |files| && files[i].lines == None
  }

  /** A file is counted as skipped when its lines could not be read. */
  lemma {:induction false} UnreadCounts(files: seq<File>)
    ensures Unread(files) == |UnreadAt(files)|
  {
    if files == [] {
      assert UnreadAt(files) == {};
    } else {
      var n := |files| - 1;
      UnreadCounts(files[..n]);
      assert UnreadAt(files) == UnreadAt(files[..n]) + if files[n].lines == None then {n} else {};
    }
  }

  function Own(files: seq<File>, dir: Path, m: Measure): nat {
    if files == [] then 0
    else
      var f := files[|files| - 1];
      Own(files[..|files| - 1], dir, m)
        + if Beneath(f.path, dir) && |f.path| == |dir| + 1 then Weight(f, m) else 0
  }

  function Total(files: seq<File>, m: Measure): nat {
    if files == [] then 0 else Total(files[..|files| - 1], m) + Weight(files[|files| - 1], m)
  }

  function Unread(files: seq<File>): nat {
    if files == [] then 0
    else Unread(files[..|files| - 1]) + if files[|files| - 1].lines.None? then 1 else 0
  }

  function Counted(files: seq<File>, target: Path, dir: Path): Directory
    requires |target| <= |dir|
  {
    Directory(|dir| - |target|, Under(files, dir, Files), Under(files, dir, Lines))
  }

  /** The directories from the target down that have a file beneath them. */
  predicate Shown(files: seq<File>, target: Path, dir: Path) {
    |target| <= |dir| && dir[..|target|] == target && Under(files, dir, Files) > 0
  }

  ghost predicate IsMap(files: seq<File>, target: Path, directories: map<Path, Directory>) {
    && (forall d :: d in directories <==> Shown(files, target, d))
    && forall d :: d in directories ==> |target| <= |d| && directories[d] == Counted(files, target, d)
  }

  // ----- the single pass -----

  /** A directory entry after one more file. */
  function Bumped(directories: map<Path, Directory>, dir: Path, depth: nat, f: File): Directory {
    var was := if dir in directories then directories[dir] else Directory(depth, 0, 0);
    was.(fileCount := was.fileCount + 1, totalLines := was.totalLines + LinesOf(f))
  }

  /** `dir` is one of the directories from the target down that lead to the file, among those with
      fewer than `n` parts. */
  predicate OnPath(dir: Path, target: Path, f: File, n: nat)
    requires n <= |f.path|
  {
    |target| <= |dir| < n && dir == f.path[..|dir|]
  }

  /** The file has been added to the directories on its path with fewer than `n` parts. */
  ghost predicate AddedTo(before: map<Path, Directory>, after: map<Path, Directory>, target: Path, f: File, n: nat)
    requires n <= |f.path|
  {
    && (forall d :: d in after <==> d in before || OnPath(d, target, f, n))
    && (forall d :: d in after && OnPath(d, target, f, n) ==> after[d] == Bumped(before, d, |d| - |target|, f))
    && (forall d :: d in before && !OnPath(d, target, f, n) ==> after[d] == before[d])
  }

  lemma OneDirectoryMore(before: map<Path, Directory>, after: map<Path, Directory>, target: Path, f: File, n: nat)
    requires |target| <= n < |f.path| && AddedTo(before, after, target, f, n)
    ensures AddedTo(before,
                    after[f.path[..n] := Bumped(after, f.path[..n], n - |target|, f)], target, f, n + 1)
  {
    forall d ensures OnPath(d, target, f, n + 1) <==> OnPath(d, target, f, n) || d == f.path[..n] {
    }
  }

  /** `_accumulate_repo_directories`.  The directory the file is in is always among those entered,
      so the branch that would enter it separately never runs. */
  method Accumulate(before: map<Path, Directory>, target: Path, f: File) returns (after: map<Path, Directory>)
    requires Beneath(f.path, target)
    ensures AddedTo(before, after, target, f, |f.path|)
    ensures f.path[..|f.path| - 1] in after
  {
    hide AddedTo;
    hide Bumped;
    NoneAdded(before, target, f);
    after := before;
    for n := |target| to |f.path|
      invariant AddedTo(before, after, target, f, n)
    {
      var directory := f.path[..n];
      OneDirectoryMore(before, after, target, f, n);
      after := after[directory := Bumped(after, directory, n - |target|, f)];
    }
    ParentIsEntered(before, after, target, f);
  }

  lemma NoneAdded(before: map<Path, Directory>, target: Path, f: File)
    requires Beneath(f.path, target)
    ensures AddedTo(before, before, target, f, |target|)
  {
  }

  lemma ParentIsEntered(before: map<Path, Directory>, after: map<Path, Directory>, target: Path, f: File)
    requires Beneath(f.path, target) && AddedTo(before, after, target, f, |f.path|)
    ensures f.path[..|f.path| - 1] in after
  {
    var parent := f.path[..|f.path| - 1];
    assert OnPath(parent, target, f, |f.path|);
  }

  /** Adding a file to the directories above it is adding it to all it is beneath. */
  lemma AddingKeepsMap(files: seq<File>, f: File, target: Path,
                       before: map<Path, Directory>, after: map<Path, Directory>)
    requires Beneath(f.path, target) && IsMap(files, target, before)
    requires AddedTo(before, after, target, f, |f.path|)
    ensures IsMap(files + [f], target, after)
  {
    var all := files + [f];
    assert all[..|all| - 1] == files;
    forall d
      ensures d in after <==> Shown(all, target, d)
      ensures d in after ==> |target| <= |d| && after[d] == Counted(all, target, d)
    {
      assert Beneath(f.path, d) && |target| <= |d| && d[..|target|] == target
        <==> OnPath(d, target, f, |f.path|);
      NothingUnder(files, d);
    }
  }

  lemma {:induction false} NothingUnder(files: seq<File>, dir: Path)
    ensures Under(files, dir, Files) == 0 ==> Under(files, dir, Lines) == 0
  {
    if files != [] { NothingUnder(files[..|files| - 1], dir); }
  }

  lemma EmptyMap(target: Path)
    ensures IsMap([], target, map[])
  {
  }

  // ----- the payload -----

  function ListedFiles(files: seq<File>, target: Path, maxDepth: int): seq<File> {
    if files == [] then []
    else
      var before, f := ListedFiles(files[..|files| - 1], target, maxDepth), files[|files| - 1];
      if |f.path| - |target| <= maxDepth then before + [f] else before
  }

  /** The files listed are those at most `maxDepth` parts below the target, in the order given. */
  lemma {:induction false} ListedAreShallow(files: seq<File>, target: Path, maxDepth: int)
    returns (from: seq<nat>)
    requires forall i | 0 <= i < |files| :: Beneath(files[i].path, target)
    ensures var listed := ListedFiles(files, target, maxDepth);
      && |from| == |listed|
      && (forall k | 0 <= k < |from| :: from[k] < |files| && files[from[k]] == listed[k])
      && (forall j, k | 0 <= j < k < |from| :: from[j] < from[k])
      && (forall i | 0 <= i < |files| :: i in from <==> |files[i].path| <= |target| + maxDepth)
  {
    from := [];
    if files != [] {
      var n := |files| - 1;
      from := ListedAreShallow(files[..n], target, maxDepth);
      if |files[n].path| <= |target| + maxDepth { from := from + [n]; }
    }
  }

  /** What the map says of a directory: it is there when a file is beneath it, and tells how far it is
      below the target and how many files are beneath it. */
  lemma MapCountsFiles(files: seq<File>, target: Path, directories: map<Path, Directory>, rest: Path)
    requires IsMap(files, target, directories)
    ensures var d := target + rest;
      && (d in directories <==> exists i :: 0 <= i < |files| && Beneath(files[i].path, d))
      && (d in directories ==>
            directories[d].depth == |rest| && directories[d].fileCount == |Positions(files, d)|
            && directories[d].totalLines == Under(files, d, Lines))
  {
    hide Beneath;
    var d := target + rest;
    assert d[..|target|] == target;
    UnderCountsFiles(files, d);
    if i: nat :| i < |files| && Beneath(files[i].path, d) {
      assert i in Positions(files, d);
    }
    if Positions(files, d) != {} {
      var i :| i in Positions(files, d);
    }
  }

  /** `_build_repo_map_payload`: the directories and files to a certain depth, and the totals. */
  method BuildRepoMap(target: Path, files: seq<File>, maxDepth: int, includeLines: bool)
    returns (shown: map<Path, Directory>, items: seq<File>, totals: Totals, ghost all: map<Path, Directory>)
    requires forall i :: 0 <= i < |files| ==> Beneath(files[i].path, target)
    requires !includeLines ==> forall i :: 0 <= i < |files| ==> files[i].lines.None?
    ensures IsMap(files, target, all)
    ensures shown == map d | d in all && all[d].depth <= maxDepth :: all[d]
    ensures items == ListedFiles(files, target, maxDepth)
    ensures totals == Totals(|files|, Total(files, Lines), if includeLines then Unread(files) else 0)
  {
    hide IsMap;
    hide AddedTo;
    hide Beneath;
    EmptyMap(target);
    var directories: map<Path, Directory> := map[];
    items := [];
    var totalLines, skipped := 0, 0;
    for i := 0 to |files|
      invariant IsMap(files[..i], target, directories)
      invariant items == ListedFiles(files[..i], target, maxDepth)
      invariant totalLines == Total(files[..i], Lines)
      invariant skipped == if includeLines then Unread(files[..i]) else 0
    {
      var f := files[i];
      if includeLines && f.lines.None? { skipped := skipped + 1; }
      if f.lines.Some? { totalLines := totalLines + f.lines.value; }
      ghost var before := directories;
      directories := Accumulate(directories, target, f);
      AddingKeepsMap(files[..i], f, target, before, directories);
      assert files[..i + 1][..i] == files[..i] && files[..i + 1] == files[..i] + [f];
      if |f.path| - |target| <= maxDepth { items := items + [f]; }
    }
    assert files[..|files|] == files;
    all := directories;
    shown := map d | d in directories && directories[d].depth <= maxDepth :: directories[d];
    totals := Totals(|files|, totalLines, skipped);
  }

  // ----- what the counts add up to -----

  /** The target directory counts everything. */
  lemma {:induction false} TargetCountsAll(files: seq<File>, target: Path, m: Measure)
    requires forall i :: 0 <= i < |files| ==> Beneath(files[i].path, target)
    ensures Under(files, target, m) == Total(files, m)
    ensures Total(files, Files) == |files|
  {
    if files != [] { TargetCountsAll(files[..|files| - 1], target, m); }
  }

  /** The names of the directories directly in `dir`. */
  function ChildNames(files: seq<File>, dir: Path): set<string> {
    set f | f in files && Beneath(f.path, dir) && |f.path| > |dir| + 1 :: f.path[|dir|]
  }

  ghost function Any(names: set<string>): (x: string)
    requires names != {}
    ensures x in names
  {
    var x :| x in names;
    x
  }

  ghost function SumUnder(files: seq<File>, dir: Path, names: set<string>, m: Measure): nat {
    if names == {} then 0
    else
      var x := Any(names);
      Under(files, dir + [x], m) + SumUnder(files, dir, names - {x}, m)
  }

  /** Adding a file changes the sum over child directories by its weight if it is in one of them. */
  lemma {:induction false} SumGrows(files: seq<File>, f: File, dir: Path, names: set<string>, m: Measure)
    ensures SumUnder(files + [f], dir, names, m) == SumUnder(files, dir, names, m)
      + if Beneath(f.path, dir) && |f.path| > |dir| + 1 && f.path[|dir|] in names then Weight(f, m) else 0
  {
    if names != {} {
      var x := Any(names);
      SumGrows(files, f, dir, names - {x}, m);
      assert (files + [f])[..|files + [f]| - 1] == files;
      assert Beneath(f.path, dir + [x]) <==>
        Beneath(f.path, dir) && |f.path| > |dir| + 1 && f.path[|dir|] == x;
    }
  }

  lemma {:induction false} SumOfNothing(dir: Path, names: set<string>, m: Measure)
    ensures SumUnder([], dir, names, m) == 0
  {
    if names != {} {
      SumOfNothing(dir, names - {Any(names)}, m);
    }
  }

  lemma {:induction false} OwnPlusNamed(files: seq<File>, dir: Path, names: set<string>, m: Measure)
    requires ChildNames(files, dir) <= names
    ensures Under(files, dir, m) == Own(files, dir, m) + SumUnder(files, dir, names, m)
  {
    if files == [] {
      SumOfNothing(dir, names, m);
    } else {
      var init, f := files[..|files| - 1], files[|files| - 1];
      assert files == init + [f];
      assert forall g :: g in init ==> g in files;
      OwnPlusNamed(init, dir, names, m);
      SumGrows(init, f, dir, names, m);
      assert f in files;
      assert Beneath(f.path, dir) && |f.path| > |dir| + 1 ==> f.path[|dir|] in ChildNames(files, dir);
    }
  }

  /** Each directory counts its own files and what its child directories count. */
  lemma DirectoryIsOwnPlusChildren(files: seq<File>, dir: Path, m: Measure)
    ensures Under(files, dir, m) == Own(files, dir, m) + SumUnder(files, dir, ChildNames(files, dir), m)
  {
    OwnPlusNamed(files, dir, ChildNames(files, dir), m);
  }

  lemma {:induction false} ChildHasFiles(files: seq<File>, dir: Path, x: string)
    ensures x in ChildNames(files, dir) <==> Under(files, dir + [x], Files) > 0
  {
    if files != [] {
      var init, f := files[..|files| - 1], files[|files| - 1];
      assert files == init + [f];
      ChildHasFiles(init, dir, x);
      assert Beneath(f.path, dir + [x]) <==>
        Beneath(f.path, dir) && |f.path| > |dir| + 1 && f.path[|dir|] == x;
      assert ChildNames(files, dir) == ChildNames(init, dir) + ChildNames([f], dir);
    }
  }

  /** The child directories are exactly those in the map. */
  lemma ChildrenAreListed(files: seq<File>, target: Path, directories: map<Path, Directory>, dir: Path, x: string)
    requires IsMap(files, target, directories) && dir in directories
    ensures dir + [x] in directories <==> x in ChildNames(files, dir)
  {
    ChildHasFiles(files, dir, x);
    assert (dir + [x])[..|target|] == dir[..|target|];
  }
}
