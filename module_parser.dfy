/**
 * Top-level module detection: counts the source files of a directory tree
 * by their first path segment, keeping the modules in order of first
 * appearance (the order a Python dictionary keeps its keys).
 */
module ModuleParser {
  import opened Strings
  import opened Seqs

  /** One entry of the directory tree: its relative path and its extension. */
  datatype FileEntry = FileEntry(path: string, ext: string)

  datatype ModuleCount = ModuleCount(name: string, fileCount: nat)

  const SourceExtensions: seq<string> := [".py", ".js", ".ts", ".java", ".cpp", ".c", ".go", ".rs"]

  predicate Counted(f: FileEntry) {
    f.ext in SourceExtensions
  }

  /** `path.split(os.sep)[0]`, with '/' as the separator. */
  function TopDir(path: string): string {
    FirstSegment(path, '/')
  }

  /** A file at the root of the tree is its own module. */
  lemma RootFileIsModule(path: string)
    requires forall i :: 0 <= i < |path| ==> path[i] != '/'
    ensures TopDir(path) == path
  {
    SplitNoSep(path, '/');
  }

  /** A file below a directory is counted under that directory. */
  lemma NestedFileModule(dir: string, rest: string)
    requires forall i :: 0 <= i < |dir| ==> dir[i] != '/'
    ensures TopDir(dir + "/" + rest) == dir
  {
    SplitNoSep(dir, '/');
    SplitAppend(dir, '/', rest);
    assert dir + "/" + rest == dir + ['/'] + rest;
  }

  function TopDirs(files: seq<FileEntry>): (r: seq<string>)
    ensures |r| == |files| && forall i :: 0 <= i < |files| ==> r[i] == TopDir(files[i].path)
  {
    seq(|files|, i requires 0 <= i < |files| => TopDir(files[i].path))
  }

  function SumCounts(modules: seq<ModuleCount>): nat {
    if modules == [] then 0 else SumCounts(modules[..|modules| - 1]) + modules[|modules| - 1].fileCount
  }

  /** A list whose counts are the occurrences of its names adds up to the sum of those occurrences. */
  lemma {:induction false} SumCountsIsOccurrences(modules: seq<ModuleCount>, names: seq<string>, dirs: seq<string>)
    requires |modules| == |names|
    requires forall i :: 0 <= i < |modules| ==> modules[i].name == names[i] && modules[i].fileCount == Occurrences(dirs, names[i])
    ensures SumCounts(modules) == SumOccurrences(names, dirs)
  {
    if modules != [] {
      SumCountsIsOccurrences(modules[..|modules| - 1], names[..|names| - 1], dirs);
    }
  }

  /** The top directories of the counted files among the first `i` entries, entry by entry. */
  function CountedDirs(tree: seq<FileEntry>, i: nat): seq<string>
    requires i <= |tree|
  {
    if i == 0 then [] else CountedDirs(tree, i - 1) + if Counted(tree[i - 1]) then [TopDir(tree[i - 1].path)] else []
  }

  lemma {:induction false} CountedDirsAll(tree: seq<FileEntry>, i: nat)
    requires i <= |tree|
    ensures CountedDirs(tree, i) == TopDirs(Keep(tree[..i], Counted))
  {
    if i == 0 {
      assert tree[..0] == [];
    } else {
      var x := tree[i - 1];
      CountedDirsAll(tree, i - 1);
      assert tree[..i] == tree[..i - 1] + [x];
      KeepAppend(tree[..i - 1], [x], Counted);
      assert [x][1..] == [];
      assert Keep([x], Counted) == if Counted(x) then [x] else [];
      TopDirsAppend(Keep(tree[..i - 1], Counted), Keep([x], Counted));
    }
  }

  lemma TopDirsAppend(a: seq<FileEntry>, b: seq<FileEntry>)
    ensures TopDirs(a + b) == TopDirs(a) + TopDirs(b)
  {
  }

  /** The top directories of the counted files of the whole tree, in tree order. */
  function CountedTopDirs(tree: seq<FileEntry>): seq<string> {
    CountedDirs(tree, |tree|)
  }

  /** They are the top directories of the files `Counted` keeps: one per counted file. */
  lemma CountedTopDirsAreFiltered(tree: seq<FileEntry>)
    ensures CountedTopDirs(tree) == TopDirs(Keep(tree, Counted))
    ensures |CountedTopDirs(tree)| == |Keep(tree, Counted)|
  {
    CountedDirsAll(tree, |tree|);
    assert tree[..|tree|] == tree;
  }

  lemma DedupeSnoc(s: seq<string>, x: string)
    ensures Dedupe(s + [x]) == if x in Dedupe(s) then Dedupe(s) else Dedupe(s) + [x]
  {
    assert (s + [x])[..|s + [x]| - 1] == s;
  }

  /** The dictionary after counting `dirs`: its keys in order of first appearance, each with its count. */
  ghost predicate Tally(dirs: seq<string>, keys: seq<string>, counts: map<string, nat>) {
    && keys == Dedupe(dirs)
    && (forall k :: k in counts <==> k in keys)
    && (forall k :: k in counts ==> counts[k] == Occurrences(dirs, k))
  }

  /** One more directory: it becomes a key if new, and its count grows by one. */
  lemma TallySnoc(dirs: seq<string>, top: string, keys: seq<string>, counts: map<string, nat>)
    requires Tally(dirs, keys, counts)
    ensures Tally(dirs + [top],
      if top in counts then keys else keys + [top],
      counts[top := (if top in counts then counts[top] else 0) + 1])
  {
    DedupeSnoc(dirs, top);
    var counts' := counts[top := (if top in counts then counts[top] else 0) + 1];
    forall k | k in counts'
      ensures counts'[k] == Occurrences(dirs + [top], k)
    {
      OccurrencesSnoc(dirs, top, k);
    }
  }

  /** One pass of the loop: a counted entry's top directory gets a key (if new) and one more count. */
  method CountEntry(tree: seq<FileEntry>, i: nat, keys0: seq<string>, counts0: map<string, nat>)
    returns (keys: seq<string>, counts: map<string, nat>)
    requires i < |tree|
    requires Tally(CountedDirs(tree, i), keys0, counts0)
    ensures Tally(CountedDirs(tree, i + 1), keys, counts)
  {
    if Counted(tree[i]) {
      var top := TopDir(tree[i].path);
      var seen := top in counts0;
      keys := if seen then keys0 else keys0 + [top];
      counts := counts0[top := (if seen then counts0[top] else 0) + 1];
      TallySnoc(CountedDirs(tree, i), top, keys0, counts0);
      assert CountedDirs(tree, i + 1) == CountedDirs(tree, i) + [top];
    } else {
      keys, counts := keys0, counts0;
      assert CountedDirs(tree, i + 1) == CountedDirs(tree, i);
    }
  }

  /**
   * `detect_modules`: one record per distinct top directory of the counted
   * files, in order of first appearance, with the number of counted files
   * under it; every count is at least one and the counts add up to the
   * number of counted files.
   */
  method DetectModules(tree: seq<FileEntry>) returns (modules: seq<ModuleCount>)
    ensures var dirs := CountedTopDirs(tree);
      && |modules| == |Dedupe(dirs)|
      && forall i :: 0 <= i < |modules| ==>
        modules[i].name == Dedupe(dirs)[i] && modules[i].fileCount == Occurrences(dirs, modules[i].name)
    ensures forall i :: 0 <= i < |modules| ==> modules[i].fileCount >= 1
    ensures SumCounts(modules) == |CountedTopDirs(tree)|
  {
    var keys: seq<string> := [];
    var counts: map<string, nat> := map[];
    var i := 0;
    assert Tally(CountedDirs(tree, 0), keys, counts);
    while i < |tree|
      invariant 0 <= i <= |tree|
      invariant Tally(CountedDirs(tree, i), keys, counts)
    {
      keys, counts := CountEntry(tree, i, keys, counts);
      i := i + 1;
    }
    ModuleListFacts(keys, counts, CountedDirs(tree, i));
    modules := ModuleList(keys, counts);
  }

  /** One record per key, in key order, with that key's count. */
  function ModuleList(keys: seq<string>, counts: map<string, nat>): (modules: seq<ModuleCount>)
    requires forall k :: k in keys ==> k in counts
    ensures |modules| == |keys|
    ensures forall j :: 0 <= j < |keys| ==> modules[j] == ModuleCount(keys[j], counts[keys[j]])
  {
    seq(|keys|, j requires 0 <= j < |keys| => ModuleCount(keys[j], counts[keys[j]]))
  }

  /** The records built from a dictionary that counted `dirs`, with the count of each distinct directory. */
  lemma ModuleListFacts(keys: seq<string>, counts: map<string, nat>, dirs: seq<string>)
    requires Tally(dirs, keys, counts)
    ensures forall k :: k in keys ==> k in counts
    ensures var modules := ModuleList(keys, counts);
      && |modules| == |Dedupe(dirs)|
      && (forall i :: 0 <= i < |modules| ==>
        modules[i].name == Dedupe(dirs)[i] && modules[i].fileCount == Occurrences(dirs, modules[i].name))
      && (forall i :: 0 <= i < |modules| ==> modules[i].fileCount >= 1)
      && SumCounts(modules) == |dirs|
  {
    var modules := ModuleList(keys, counts);
    forall j | 0 <= j < |modules|
      ensures modules[j].fileCount >= 1
    {
      assert keys[j] in dirs;
    }
    SumCountsIsOccurrences(modules, keys, dirs);
    DedupeCounts(dirs);
  }
}
