/**
 * The project overview: a description taken from package.json or the first
 * readable README, a bucketing of the repository's files by name, the project
 * type and key features inferred from those buckets, and the one-sentence
 * summary built from all of it.
 */
module ProjectAnalyzer {
  import opened Wrappers
  import opened Strings
  import opened Seqs

  // ----- README description -----

  /** A stripped line that can serve as the description: not blank, not a heading, not a badge or link. */
  predicate Describes(line: string) {
    line != "" && !StartsWith(line, "#") && !StartsWith(line, "[")
  }

  /** The index of the first line whose stripped form describes the project, -1 when there is none. */
  function FirstDescribingLine(lines: seq<string>): (k: int)
    ensures -1 <= k < |lines|
  {
    if lines == [] then -1
    else if Describes(Trim(lines[0])) then 0
    else
      var k := FirstDescribingLine(lines[1..]);
      if k < 0 then -1 else k + 1
  }

  /** The line found is the first one that describes the project, and no earlier one does. */
  lemma {:induction false} FirstDescribingLineMeaning(lines: seq<string>)
    ensures var k := FirstDescribingLine(lines);
      && (k >= 0 ==> Describes(Trim(lines[k])))
      && forall j :: 0 <= j < |lines| && (k < 0 || j < k) ==> !Describes(Trim(lines[j]))
  {
    if lines != [] && !Describes(Trim(lines[0])) {
      FirstDescribingLineMeaning(lines[1..]);
      assert forall j :: 1 <= j < |lines| ==> lines[j] == lines[1..][j - 1];
    }
  }

  /** Conversely, a line that describes the project after only lines that do not is the one found. */
  lemma {:induction false} FirstDescribingLineIs(lines: seq<string>, i: nat)
    requires i <= |lines|
    requires forall j :: 0 <= j < i ==> !Describes(Trim(lines[j]))
    requires i < |lines| ==> Describes(Trim(lines[i]))
    ensures FirstDescribingLine(lines) == if i < |lines| then i else -1
  {
    if i > 0 {
      FirstDescribingLineIs(lines[1..], i - 1);
    }
  }

  /** The description a README offers: the first describing line of its first 10, cut to 200 characters. */
  function ReadmeLine(content: string): Option<string> {
    DescribingLine(Prefix(Split(content, '\n'), 10))
  }

  /** The first describing line of `lines`, cut to 200 characters. */
  function DescribingLine(lines: seq<string>): Option<string> {
    var k := FirstDescribingLine(lines);
    if k < 0 then None else Some(Prefix(Trim(lines[k]), 200))
  }

  /**
   * What a description line is: the first of the lines whose stripped form
   * is not blank and starts with neither '#' nor '[', at most 200 characters
   * of it; None exactly when none of the lines qualifies.
   */
  lemma DescribingLineMeaning(lines: seq<string>)
    ensures match DescribingLine(lines)
      case None => forall j :: 0 <= j < |lines| ==> !Describes(Trim(lines[j]))
      case Some(line) =>
        exists k :: 0 <= k < |lines| && Describes(Trim(lines[k])) && line == Prefix(Trim(lines[k]), 200) &&
          |line| <= 200 && line != "" &&
          forall j :: 0 <= j < k ==> !Describes(Trim(lines[j]))
  {
    FirstDescribingLineMeaning(lines);
    var k := FirstDescribingLine(lines);
    if k >= 0 {
      var line := Prefix(Trim(lines[k]), 200);
      assert |line| > 0;
      assert Describes(Trim(lines[k])) && line == Prefix(Trim(lines[k]), 200) &&
        |line| <= 200 && line != "" && forall j :: 0 <= j < k ==> !Describes(Trim(lines[j]));
    }
  }

  /** The loop over the first 10 lines of a README, stopping at the first line that describes the project. */
  method ReadmeDescription(content: string) returns (description: Option<string>)
    ensures description == ReadmeLine(content)
  {
    var lines := Split(content, '\n');
    description := FirstDescription(Prefix(lines, 10));
  }

  method FirstDescription(head: seq<string>) returns (description: Option<string>)
    ensures description == DescribingLine(head)
  {
    description := None;
    var i := 0;
    while i < |head|
      invariant 0 <= i <= |head|
      invariant forall j :: 0 <= j < i ==> !Describes(Trim(head[j]))
    {
      var line := Trim(head[i]);
      if Describes(line) {
        DescribingLineAt(head, i);
        description := Some(Prefix(line, 200));
        return;
      }
      i := i + 1;
    }
    DescribingLineAt(head, |head|);
  }

  lemma DescribingLineAt(lines: seq<string>, i: nat)
    requires i <= |lines|
    requires forall j :: 0 <= j < i ==> !Describes(Trim(lines[j]))
    requires i < |lines| ==> Describes(Trim(lines[i]))
    ensures DescribingLine(lines) == if i < |lines| then Some(Prefix(Trim(lines[i]), 200)) else None
  {
    FirstDescribingLineIs(lines, i);
  }

  // ----- analyze_folder_structure -----

  datatype Bucket = Frontend | Backend | Config | Docs | Tests | Other

  /** One directory visited by the walk, after pruning: its path relative to the repository ("." for the root) and its files. */
  datatype WalkEntry = WalkEntry(relPath: string, files: seq<string>)

  /** The six lists of relative paths. */
  datatype Structure = Structure(
    frontend: seq<string>, backend: seq<string>, config: seq<string>,
    docs: seq<string>, tests: seq<string>, other: seq<string>)
  {
    function Files(b: Bucket): seq<string> {
      match b
      case Frontend => frontend
      case Backend => backend
      case Config => config
      case Docs => docs
      case Tests => tests
      case Other => other
    }

    /** `structure[b].append(path)`. */
    function Add(b: Bucket, path: string): (s: Structure)
      ensures forall c :: s.Files(c) == Files(c) + if c == b then [path] else []
    {
      match b
      case Frontend => this.(frontend := frontend + [path])
      case Backend => this.(backend := backend + [path])
      case Config => this.(config := config + [path])
      case Docs => this.(docs := docs + [path])
      case Tests => this.(tests := tests + [path])
      case Other => this.(other := other + [path])
    }

    function Total(): nat {
      |frontend| + |backend| + |config| + |docs| + |tests| + |other|
    }
  }

  const EmptyStructure := Structure([], [], [], [], [], [])

  /** The ordered substring tests on the lower-cased file name and directory. */
  function BucketOf(relPath: string, file: string): Bucket {
    var name := ToLower(file);
    if ContainsAny(name, [".jsx", ".tsx", ".js", ".ts", ".vue", ".svelte"]) then
      if ContainsAny(ToLower(relPath), ["src", "app", "components", "pages"]) then Frontend else Backend
    else if ContainsAny(name, [".py", ".java", ".go", ".rb", ".php"]) then Backend
    else if ContainsAny(name, [".json", ".yaml", ".yml", ".toml", ".env"]) then Config
    else if ContainsAny(name, [".md", ".txt", ".rst"]) then Docs
    else if ContainsAny(name, [".test.", ".spec.", "test_"]) then Tests
    else Other
  }

  /** A file the walk buckets: not at the root and not hidden. */
  predicate Bucketed(relPath: string, file: string) {
    relPath != "." && !StartsWith(file, ".")
  }

  /** `os.path.join(rel_path, file)` for a relative directory. */
  function JoinPath(relPath: string, file: string): string {
    relPath + "/" + file
  }

  /** The paths the first `n` files of one directory add to bucket `b`. */
  function EntryFiles(e: WalkEntry, b: Bucket, n: nat): seq<string>
    requires n <= |e.files|
  {
    if n == 0 then []
    else
      var file := e.files[n - 1];
      EntryFiles(e, b, n - 1) + if Bucketed(e.relPath, file) && BucketOf(e.relPath, file) == b then [JoinPath(e.relPath, file)] else []
  }

  /** The paths the whole walk adds to bucket `b`, directory by directory. */
  function WalkFiles(walk: seq<WalkEntry>, b: Bucket): seq<string> {
    if walk == [] then []
    else
      var e := walk[|walk| - 1];
      WalkFiles(walk[..|walk| - 1], b) + EntryFiles(e, b, |e.files|)
  }

  /** The number of files of the first `n` of one directory that are bucketed at all. */
  function EntryCount(e: WalkEntry, n: nat): nat
    requires n <= |e.files|
  {
    if n == 0 then 0 else EntryCount(e, n - 1) + if Bucketed(e.relPath, e.files[n - 1]) then 1 else 0
  }

  function WalkCount(walk: seq<WalkEntry>): nat {
    if walk == [] then 0 else WalkCount(walk[..|walk| - 1]) + EntryCount(walk[|walk| - 1], |walk[|walk| - 1].files|)
  }

  function BucketSizes(f: Bucket -> seq<string>): nat {
    |f(Frontend)| + |f(Backend)| + |f(Config)| + |f(Docs)| + |f(Tests)| + |f(Other)|
  }

  lemma {:induction false} EntryPartition(e: WalkEntry, n: nat)
    requires n <= |e.files|
    ensures BucketSizes(b => if n <= |e.files| then EntryFiles(e, b, n) else []) == EntryCount(e, n)
  {
    if n > 0 {
      EntryPartition(e, n - 1);
    }
  }

  /** Every bucketed file lands in exactly one bucket: the bucket sizes add up to the bucketed files. */
  lemma {:induction false} WalkPartition(walk: seq<WalkEntry>)
    ensures BucketSizes(b => WalkFiles(walk, b)) == WalkCount(walk)
  {
    if walk != [] {
      var e := walk[|walk| - 1];
      WalkPartition(walk[..|walk| - 1]);
      EntryPartition(e, |e.files|);
    }
  }

  /** Files at the repository root are never bucketed. */
  lemma {:induction false} RootFilesIgnored(walk: seq<WalkEntry>, files: seq<string>, b: Bucket)
    ensures WalkFiles(walk + [WalkEntry(".", files)], b) == WalkFiles(walk, b)
  {
    var e := WalkEntry(".", files);
    assert (walk + [e])[..|walk|] == walk;
    RootEntryEmpty(e, b, |files|);
  }

  lemma {:induction false} RootEntryEmpty(e: WalkEntry, b: Bucket, n: nat)
    requires e.relPath == "." && n <= |e.files|
    ensures EntryFiles(e, b, n) == []
  {
    if n > 0 {
      RootEntryEmpty(e, b, n - 1);
    }
  }

  /** Because ".js" is looked for as a substring before the config names, "tsconfig.json" counts as code. */
  lemma TsconfigIsCode(relPath: string)
    ensures BucketOf(relPath, "tsconfig.json") in {Frontend, Backend}
  {
    var name := "tsconfig.json";
    ToLowerNoUpper(name);
    assert OccursAt(name, ".js", 8);
    var terms := [".jsx", ".tsx", ".js", ".ts", ".vue", ".svelte"];
    assert Contains(name, terms[2]);
  }

  /** A bucketed file extends its own bucket by its path. */
  lemma AddStep(e: WalkEntry, j: nat, s0: Structure, s: Structure, bucket: Bucket)
    requires j < |e.files| && Bucketed(e.relPath, e.files[j]) && bucket == BucketOf(e.relPath, e.files[j])
    requires forall b :: s.Files(b) == s0.Files(b) + EntryFiles(e, b, j)
    ensures forall b :: s.Add(bucket, JoinPath(e.relPath, e.files[j])).Files(b) == s0.Files(b) + EntryFiles(e, b, j + 1)
  {
  }

  /** A hidden file extends no bucket. */
  lemma SkipStep(e: WalkEntry, j: nat, s0: Structure, s: Structure)
    requires j < |e.files| && StartsWith(e.files[j], ".")
    requires forall b :: s.Files(b) == s0.Files(b) + EntryFiles(e, b, j)
    ensures forall b :: s.Files(b) == s0.Files(b) + EntryFiles(e, b, j + 1)
  {
  }

  /** `s` is `s0` with the first `j` files of `e` appended to their buckets. */
  predicate Extends(s: Structure, s0: Structure, e: WalkEntry, j: nat)
    requires j <= |e.files|
  {
    && s.frontend == s0.frontend + EntryFiles(e, Frontend, j)
    && s.backend == s0.backend + EntryFiles(e, Backend, j)
    && s.config == s0.config + EntryFiles(e, Config, j)
    && s.docs == s0.docs + EntryFiles(e, Docs, j)
    && s.tests == s0.tests + EntryFiles(e, Tests, j)
    && s.other == s0.other + EntryFiles(e, Other, j)
  }

  lemma ExtendsIff(s: Structure, s0: Structure, e: WalkEntry, j: nat)
    requires j <= |e.files|
    ensures Extends(s, s0, e, j) <==> forall b :: s.Files(b) == s0.Files(b) + EntryFiles(e, b, j)
  {
    if forall b :: s.Files(b) == s0.Files(b) + EntryFiles(e, b, j) {
      assert s.Files(Frontend) == s0.Files(Frontend) + EntryFiles(e, Frontend, j);
      assert s.Files(Backend) == s0.Files(Backend) + EntryFiles(e, Backend, j);
      assert s.Files(Config) == s0.Files(Config) + EntryFiles(e, Config, j);
      assert s.Files(Docs) == s0.Files(Docs) + EntryFiles(e, Docs, j);
      assert s.Files(Tests) == s0.Files(Tests) + EntryFiles(e, Tests, j);
      assert s.Files(Other) == s0.Files(Other) + EntryFiles(e, Other, j);
    }
  }

  /** The bucketing of one directory's files, appended to `s0`. */
  method BucketEntry(e: WalkEntry, s0: Structure) returns (s: Structure)
    requires e.relPath != "."
    ensures forall b :: s.Files(b) == s0.Files(b) + EntryFiles(e, b, |e.files|)
  {
    s := s0;
    var j := 0;
    while j < |e.files|
      invariant 0 <= j <= |e.files|
      invariant Extends(s, s0, e, j)
    {
      s := BucketFile(e, j, s0, s);
      j := j + 1;
    }
    ExtendsIff(s, s0, e, j);
  }

  /** One pass of the inner loop: file `j` is appended to its bucket unless it is hidden. */
  method BucketFile(e: WalkEntry, j: nat, ghost s0: Structure, s: Structure) returns (s': Structure)
    requires e.relPath != "." && j < |e.files|
    requires Extends(s, s0, e, j)
    ensures Extends(s', s0, e, j + 1)
  {
    ExtendsIff(s, s0, e, j);
    var file := e.files[j];
    if !StartsWith(file, ".") {
      var path := JoinPath(e.relPath, file);
      var bucket := BucketOf(e.relPath, file);
      AddStep(e, j, s0, s, bucket);
      s' := s.Add(bucket, path);
    } else {
      SkipStep(e, j, s0, s);
      s' := s;
    }
    ExtendsIff(s', s0, e, j + 1);
  }

  /**
   * `analyze_folder_structure` over the walk: each bucket lists, in walk
   * order, the paths of the non-hidden files below the root that the rules
   * put in it, and the bucket sizes add up to the number of such files.
   */
  method AnalyzeFolderStructure(walk: seq<WalkEntry>) returns (structure: Structure)
    ensures forall b :: structure.Files(b) == WalkFiles(walk, b)
    ensures structure.Total() == WalkCount(walk)
  {
    structure := EmptyStructure;
    var i := 0;
    while i < |walk|
      invariant 0 <= i <= |walk|
      invariant forall b :: structure.Files(b) == WalkFiles(walk[..i], b)
    {
      assert walk[..i + 1][..i] == walk[..i];
      var e := walk[i];
      if e.relPath == "." {
        RootEntryEmpty(e, Frontend, |e.files|);
        forall b ensures EntryFiles(e, b, |e.files|) == [] {
          RootEntryEmpty(e, b, |e.files|);
        }
      } else {
        structure := BucketEntry(e, structure);
      }
      i := i + 1;
    }
    assert walk[..i] == walk;
    WalkPartition(walk);
    assert structure.Total() == BucketSizes(b => WalkFiles(walk, b)) by {
      assert structure.frontend == structure.Files(Frontend);
      assert structure.backend == structure.Files(Backend);
      assert structure.config == structure.Files(Config);
      assert structure.docs == structure.Files(Docs);
      assert structure.tests == structure.Files(Tests);
      assert structure.other == structure.Files(Other);
    }
  }

  // ----- infer_project_type -----

  /** The first of the ordered checks on which buckets are non-empty. */
  function InferProjectType(s: Structure): (projectType: string)
    ensures projectType == "Full-stack application" <==> s.frontend != [] && s.backend != []
    ensures projectType == "Frontend application" <==> s.frontend != [] && s.backend == []
    ensures projectType == "Backend application" <==> s.frontend == [] && s.backend != []
    ensures projectType == "Configuration/Infrastructure" <==> s.frontend == [] && s.backend == [] && s.config != []
    ensures projectType == "Documentation/Other" <==> s.frontend == [] && s.backend == [] && s.config == []
  {
    if s.frontend != [] && s.backend != [] then "Full-stack application"
    else if s.frontend != [] then "Frontend application"
    else if s.backend != [] then "Backend application"
    else if s.config != [] then "Configuration/Infrastructure"
    else "Documentation/Other"
  }

  /** Documentation, tests and other files never decide the type. */
  lemma ProjectTypeIgnoresDocsTestsOther(s: Structure, docs: seq<string>, tests: seq<string>, other: seq<string>)
    ensures InferProjectType(s.(docs := docs, tests := tests, other := other)) == InferProjectType(s)
  {
  }

  // ----- infer_key_features -----

  const FeatureNames := [
    "User Authentication", "REST API", "Database Integration", "Testing",
    "Containerization", "Rich UI Components", "Complex Backend Logic"]

  /** Some path, lower-cased, contains `term`. */
  predicate AnyLowerContains(paths: seq<string>, term: string) {
    exists i :: 0 <= i < |paths| && Contains(ToLower(paths[i]), term)
  }

  /** Some path, as it is, contains `term`. */
  predicate AnyContains(paths: seq<string>, term: string) {
    exists i :: 0 <= i < |paths| && Contains(paths[i], term)
  }

  /**
   * The seven checks, in order. The test and config paths are searched
   * without lower-casing, the frontend and backend paths after it.
   */
  function FeatureFlags(s: Structure): (flags: seq<bool>)
    ensures |flags| == |FeatureNames|
  {
    [ AnyLowerContains(s.frontend + s.backend, "auth"),
      AnyLowerContains(s.backend, "api"),
      AnyLowerContains(s.backend, "db") || AnyLowerContains(s.backend, "model"),
      AnyContains(s.tests, "test"),
      AnyContains(s.config, "docker"),
      |s.frontend| > 5,
      |s.backend| > 5 ]
  }

  /** The names of the first `n` features whose check passed, in the fixed order. */
  function Selected(flags: seq<bool>, n: nat): (names: seq<string>)
    requires n <= |flags| && n <= |FeatureNames|
    ensures |names| <= n
  {
    if n == 0 then [] else Selected(flags, n - 1) + if flags[n - 1] then [FeatureNames[n - 1]] else []
  }

  /** `infer_key_features`: the passed features in order, then `[:5]`. */
  method InferKeyFeatures(s: Structure) returns (features: seq<string>)
    ensures features == Prefix(Selected(FeatureFlags(s), 7), 5)
  {
    ghost var flags := FeatureFlags(s);
    features := [];
    if AnyLowerContains(s.frontend + s.backend, "auth") {
      features := features + ["User Authentication"];
    }
    assert features == Selected(flags, 1);
    if AnyLowerContains(s.backend, "api") {
      features := features + ["REST API"];
    }
    assert features == Selected(flags, 2);
    if AnyLowerContains(s.backend, "db") || AnyLowerContains(s.backend, "model") {
      features := features + ["Database Integration"];
    }
    assert features == Selected(flags, 3);
    if AnyContains(s.tests, "test") {
      features := features + ["Testing"];
    }
    assert features == Selected(flags, 4);
    if AnyContains(s.config, "docker") {
      features := features + ["Containerization"];
    }
    assert features == Selected(flags, 5);
    if |s.frontend| > 5 {
      features := features + ["Rich UI Components"];
    }
    assert features == Selected(flags, 6);
    if |s.backend| > 5 {
      features := features + ["Complex Backend Logic"];
    }
    assert features == Selected(flags, 7);
    features := Prefix(features, 5);
  }

  /** The selected names are distinct feature names from the first `n`. */
  lemma {:induction false} SelectedDistinct(flags: seq<bool>, n: nat)
    requires n <= |flags| && n <= |FeatureNames|
    ensures Distinct(Selected(flags, n))
    ensures forall x :: x in Selected(flags, n) ==> x in FeatureNames[..n]
  {
    if n > 0 {
      SelectedDistinct(flags, n - 1);
      assert FeatureNames[..n] == FeatureNames[..n - 1] + [FeatureNames[n - 1]];
      assert FeatureNames[n - 1] !in FeatureNames[..n - 1] by {
        assert forall i :: 0 <= i < n - 1 ==> |FeatureNames[i]| != |FeatureNames[n - 1]|;
      }
    }
  }

  /** At most five features, each a known feature named once. */
  lemma KeyFeaturesShape(s: Structure)
    ensures var features := Prefix(Selected(FeatureFlags(s), 7), 5);
      |features| <= 5 && Distinct(features) && forall x :: x in features ==> x in FeatureNames
  {
    var all := Selected(FeatureFlags(s), 7);
    SelectedDistinct(FeatureFlags(s), 7);
    var features := Prefix(all, 5);
    assert forall i :: 0 <= i < |features| ==> features[i] == all[i];
    assert FeatureNames[..7] == FeatureNames;
  }

  /**
   * "Rich UI Components" is listed exactly when there are more than five
   * frontend files and the five earlier checks did not all pass.
   */
  lemma RichUiIff(s: Structure)
    ensures var flags := FeatureFlags(s);
      "Rich UI Components" in Prefix(Selected(flags, 7), 5) <==>
        |s.frontend| > 5 && !(flags[0] && flags[1] && flags[2] && flags[3] && flags[4])
  {
    var flags := FeatureFlags(s);
    var five := Selected(flags, 5);
    assert Selected(flags, 6) == five + if flags[5] then ["Rich UI Components"] else [];
    assert "Rich UI Components" !in five by {
      SelectedDistinct(flags, 5);
      assert forall i :: 0 <= i < 5 ==> |FeatureNames[i]| != 18;
    }
    AllFiveSelected(flags);
  }

  /** The first five checks select five names exactly when all five pass. */
  lemma AllFiveSelected(flags: seq<bool>)
    requires |flags| >= 5
    ensures |Selected(flags, 5)| == 5 <==> flags[0] && flags[1] && flags[2] && flags[3] && flags[4]
  {
    assert |Selected(flags, 1)| == if flags[0] then 1 else 0;
    assert |Selected(flags, 2)| == |Selected(flags, 1)| + if flags[1] then 1 else 0;
    assert |Selected(flags, 3)| == |Selected(flags, 2)| + if flags[2] then 1 else 0;
    assert |Selected(flags, 4)| == |Selected(flags, 3)| + if flags[3] then 1 else 0;
    assert |Selected(flags, 5)| == |Selected(flags, 4)| + if flags[4] then 1 else 0;
  }

  // ----- generate_project_summary_text -----

  /** "a", "a and b", "a, b and c", ... */
  function FeatureList(features: seq<string>): string
    requires features != []
  {
    if |features| > 1 then Join(features[..|features| - 1], ", ") + " and " + features[|features| - 1]
    else features[0]
  }

  /** The opening of the summary: the description, else "This is a" and the lower-cased type. */
  function Opening(description: string, projectType: string): string {
    if description != "" then description else "This is a " + ToLower(projectType)
  }

  /** The summary sentence: the opening, the feature list when there is one, and a full stop. */
  function SummaryText(description: string, projectType: string, features: seq<string>): (text: string)
    ensures StartsWith(text, Opening(description, projectType))
    ensures EndsWith(text, ".")
    ensures features == [] ==> text == Opening(description, projectType) + "."
  {
    var opening := Opening(description, projectType);
    if features != [] then opening + " that includes " + FeatureList(features) + "." else opening + "."
  }

  lemma ContainsWithin(a: string, t: string, b: string, p: string)
    requires Contains(t, p)
    ensures Contains(a + t + b, p)
  {
    var i :| 0 <= i <= |t| - |p| && OccursAt(t, p, i);
    var s := a + t + b;
    assert s[|a| + i..|a| + i + |p|] == t[i..i + |p|];
    assert OccursAt(s, p, |a| + i);
  }

  lemma {:induction false} JoinMentions(parts: seq<string>, sep: string, k: nat)
    requires k < |parts|
    ensures Contains(Join(parts, sep), parts[k])
  {
    if |parts| == 1 {
      ContainsWithin("", parts[0], "", parts[0]) by {
        assert OccursAt(parts[0], parts[0], 0);
      }
      assert "" + parts[0] + "" == parts[0];
    } else if k == 0 {
      ContainsInfix("", parts[0], sep + Join(parts[1..], sep));
      assert "" + parts[0] + (sep + Join(parts[1..], sep)) == Join(parts, sep);
    } else {
      JoinMentions(parts[1..], sep, k - 1);
      ContainsWithin(parts[0] + sep, Join(parts[1..], sep), "", parts[k]);
      assert parts[0] + sep + Join(parts[1..], sep) + "" == Join(parts, sep);
    }
  }

  /** Every feature is named in the summary. */
  lemma SummaryMentionsFeatures(description: string, projectType: string, features: seq<string>, k: nat)
    requires k < |features|
    ensures Contains(SummaryText(description, projectType, features), features[k])
  {
    var opening := Opening(description, projectType);
    var n := |features|;
    var list := FeatureList(features);
    if n == 1 {
      assert OccursAt(list, features[k], 0);
    } else if k == n - 1 {
      ContainsInfix(Join(features[..n - 1], ", ") + " and ", features[k], "");
      assert Join(features[..n - 1], ", ") + " and " + features[k] + "" == list;
    } else {
      JoinMentions(features[..n - 1], ", ", k);
      ContainsWithin("", Join(features[..n - 1], ", "), " and " + features[n - 1], features[k]);
      assert "" + Join(features[..n - 1], ", ") + (" and " + features[n - 1]) == list;
    }
    ContainsWithin(opening + " that includes ", list, ".", features[k]);
  }

  /** Three features read "a, b and c". */
  lemma FeatureListOfThree(a: string, b: string, c: string)
    ensures FeatureList([a, b, c]) == a + ", " + b + " and " + c
  {
    assert [a, b, c][..2] == [a, b];
    assert [a, b][1..] == [b];
    assert Join([a, b], ", ") == a + ", " + b;
  }

  // ----- extract_project_summary -----

  /** What reading package.json gives: no file, a file that does not parse, or its description ("" when absent) and dependency names (None when absent). */
  datatype PackageJson = NoPackage | Unparsable | Parsed(description: string, dependencyNames: Option<seq<string>>)

  datatype ProjectSummary = ProjectSummary(
    description: string, projectType: string, keyFeatures: seq<string>,
    techStack: seq<string>, structure: Structure)

  /** The first README of the candidates that exists and can be read. */
  function FirstReadable(readmes: seq<Option<string>>): Option<string> {
    if readmes == [] then None else if readmes[0].Some? then readmes[0] else FirstReadable(readmes[1..])
  }

  /** The description: the first readable README's line when it has one, else package.json's, else "". */
  function ChosenDescription(package: PackageJson, readmes: seq<Option<string>>): string {
    var fromPackage := if package.Parsed? then package.description else "";
    match FirstReadable(readmes)
    case None => fromPackage
    case Some(content) => if ReadmeLine(content).Some? then ReadmeLine(content).value else fromPackage
  }

  /** A README without a describing line leaves package.json's description in place. */
  lemma PackageDescriptionKept(package: PackageJson, readmes: seq<Option<string>>)
    requires package.Parsed?
    requires FirstReadable(readmes).None? || ReadmeLine(FirstReadable(readmes).value).None?
    ensures ChosenDescription(package, readmes) == package.description
  {
  }

  /** Once a README has been read, the candidates after it are never consulted. */
  lemma LaterReadmesIgnored(package: PackageJson, content: string, rest1: seq<Option<string>>, rest2: seq<Option<string>>)
    ensures ChosenDescription(package, [Some(content)] + rest1) == ChosenDescription(package, [Some(content)] + rest2)
  {
  }

  /** A README that is missing or unreadable is skipped. */
  lemma MissingReadmeSkipped(package: PackageJson, rest: seq<Option<string>>)
    ensures ChosenDescription(package, [None] + rest) == ChosenDescription(package, rest)
  {
    assert ([None] + rest)[1..] == rest;
  }

  /**
   * The README loop of `extract_project_summary`: the first README that could
   * be read replaces `description` when it has a describing line.
   */
  method ReadmeOverride(description: string, readmes: seq<Option<string>>) returns (chosen: string)
    ensures chosen == match FirstReadable(readmes)
      case None => description
      case Some(content) => if ReadmeLine(content).Some? then ReadmeLine(content).value else description
  {
    chosen := description;
    var i := 0;
    while i < |readmes|
      invariant 0 <= i <= |readmes|
      invariant FirstReadable(readmes) == FirstReadable(readmes[i..])
      invariant chosen == description
    {
      if readmes[i].Some? {
        var line := ReadmeDescription(readmes[i].value);
        if line.Some? {
          chosen := line.value;
        }
        return;
      }
      assert readmes[i..][1..] == readmes[i + 1..];
      i := i + 1;
    }
  }

  /**
   * `extract_project_summary`. `package` is the outcome of reading
   * package.json; `readmes` holds README.md, readme.md and README.txt in that
   * order, None for one that is missing or cannot be read; `walk` is the
   * pruned directory walk.
   */
  method ExtractProjectSummary(package: PackageJson, readmes: seq<Option<string>>, walk: seq<WalkEntry>)
    returns (summary: ProjectSummary)
    ensures summary.description == ChosenDescription(package, readmes)
    ensures forall b :: summary.structure.Files(b) == WalkFiles(walk, b)
    ensures summary.projectType == if package.Parsed? then "Node.js/JavaScript" else InferProjectType(summary.structure)
    ensures summary.techStack == if package.Parsed? && package.dependencyNames.Some? then Prefix(package.dependencyNames.value, 5) else []
    ensures summary.keyFeatures == Prefix(Selected(FeatureFlags(summary.structure), 7), 5)
  {
    summary := ProjectSummary("", "unknown", [], [], EmptyStructure);
    if package.Parsed? {
      summary := summary.(description := package.description, projectType := "Node.js/JavaScript");
      if package.dependencyNames.Some? {
        summary := summary.(techStack := summary.techStack + Prefix(package.dependencyNames.value, 5));
      }
    }
    var description := ReadmeOverride(summary.description, readmes);
    summary := summary.(description := description);
    var structure := AnalyzeFolderStructure(walk);
    summary := summary.(structure := structure);
    if summary.projectType == "" || summary.projectType == "unknown" {
      summary := summary.(projectType := InferProjectType(structure));
    }
    var features := InferKeyFeatures(structure);
    summary := summary.(keyFeatures := features);
  }
}
