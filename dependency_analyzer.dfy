/**
 * The dependency analysis of the back end: which files count as code, the
 * category of a path, the post-processing of import and export matches, the
 * reverse-dependency pass over the dependency record, the resolver of an
 * import to a listed file, and the Mermaid flowchart text. The regular
 * expressions that find imports and exports and the file reads that feed them
 * are not modelled: their match lists are inputs.
 */
module DependencyAnalyzer {
  import opened Wrappers
  import opened Strings
  import opened Seqs

  predicate NoChar(s: string, c: char) {
    forall i :: 0 <= i < |s| ==> s[i] != c
  }

  // ----- is_code_file -----

  /** pathlib's `name`: the last component, trailing '/' ignored. */
  function PathName(path: string): string {
    LastSegment(StripTrailing(path, '/'), '/')
  }

  /** pathlib's `suffix`: from the last '.' of the name, unless that '.' starts or ends the name. */
  function Suffix(path: string): (r: string)
    ensures r == "" || (r[0] == '.' && |r| >= 2 && NoChar(r[1..], '.') && EndsWith(PathName(path), r) && |r| < |PathName(path)|)
  {
    var name := PathName(path);
    var i := LastIndexOf(name, '.');
    if 0 < i < |name| - 1 then
      assert forall j :: 0 <= j < |name[i..][1..]| ==> name[i..][1..][j] == name[i + 1 + j];
      name[i..]
    else ""
  }

  /** A name `stem.ext` with a non-empty stem has suffix `.ext`. */
  lemma SuffixOfStemExt(stem: string, ext: string)
    requires stem != "" && ext != ""
    requires NoChar(stem, '/') && NoChar(ext, '/') && NoChar(ext, '.')
    ensures Suffix(stem + "." + ext) == "." + ext
  {
    var x := stem + "." + ext;
    assert x[|x| - 1] == ext[|ext| - 1];
    assert StripTrailing(x, '/') == x;
    SplitNoSep(x, '/');
    assert PathName(x) == x;
    assert x[|stem|] == '.';
    assert LastIndexOf(x, '.') == |stem|;
    assert x[|stem|..] == "." + ext;
  }

  /** A hidden file `.ext` has no suffix at all. */
  lemma DotfileHasNoSuffix(ext: string)
    requires NoChar(ext, '/') && NoChar(ext, '.')
    ensures Suffix("." + ext) == ""
  {
    var x := "." + ext;
    if ext != "" {
      assert x[|x| - 1] == ext[|ext| - 1];
    }
    assert StripTrailing(x, '/') == x;
    SplitNoSep(x, '/');
    assert LastIndexOf(x, '.') == 0;
  }

  /** Only the last component counts: a directory in front changes nothing. */
  lemma SuffixInDirectory(dir: string, name: string)
    requires name != "" && NoChar(name, '/')
    ensures Suffix(dir + "/" + name) == Suffix(name)
  {
    var x := dir + "/" + name;
    assert x[|x| - 1] == name[|name| - 1];
    assert StripTrailing(x, '/') == x;
    assert StripTrailing(name, '/') == name;
    assert x == dir + ['/'] + name;
    SplitAppend(dir, '/', name);
    SplitNoSep(name, '/');
  }

  const CodeExtensions: set<string> := {
    ".js", ".jsx", ".ts", ".tsx", ".vue", ".svelte",
    ".py", ".pyx", ".pyi",
    ".java", ".kt",
    ".go",
    ".rb",
    ".php",
    ".cs",
    ".cpp", ".cc", ".cxx", ".h", ".hpp",
    ".rs",
    ".swift",
    ".scala"}

  /** `is_code_file`: the lower-cased suffix is one of the code extensions. */
  predicate IsCodeFile(filename: string) {
    ToLower(Suffix(filename)) in CodeExtensions
  }

  /** For `stem.ext`, the test is on `.ext` lower-cased, so "App.TSX" is code. */
  lemma IsCodeFileByExtension(stem: string, ext: string)
    requires stem != "" && ext != ""
    requires NoChar(stem, '/') && NoChar(ext, '/') && NoChar(ext, '.')
    ensures IsCodeFile(stem + "." + ext) <==> "." + ToLower(ext) in CodeExtensions
  {
    SuffixOfStemExt(stem, ext);
    ToLowerAppend(".", ext);
    assert ToLower(Suffix(stem + "." + ext)) == "." + ToLower(ext);
  }

  /** A hidden file named like an extension, such as ".py", is not code. */
  lemma DotfileIsNotCode(ext: string)
    requires NoChar(ext, '/') && NoChar(ext, '.')
    ensures !IsCodeFile("." + ext)
  {
    DotfileHasNoSuffix(ext);
    assert ToLower("") == "";
  }

  // ----- categorize_file_type -----

  const ReactExtensions := [".jsx", ".tsx"]
  const ScriptExtensions := [".js", ".ts"]
  const UiFolders := ["components", "pages", "views"]
  const ApiFolders := ["api", "routes", "controllers"]
  const UtilityFolders := ["utils", "helpers", "services"]
  const EndpointFolders := ["api", "routes", "endpoints"]
  const ModelFolders := ["models", "schemas"]
  const LogicFolders := ["services", "business"]

  const ScriptCategories: set<string> := {"UI Component", "API Handler", "Utility/Service", "JavaScript/TypeScript"}
  const PythonCategories: set<string> := {"API Endpoint", "Data Model", "Business Logic", "Python Module"}

  /**
   * `categorize_file_type`: substring tests on the lower-cased path, in order;
   * the first family that matches decides, and its folder tests are tried in
   * order too.
   */
  function CategorizeFileType(path: string): (r: string)
    ensures var p := ToLower(path);
      && (r == "React Component" <==> ContainsAny(p, ReactExtensions))
      && (!ContainsAny(p, ReactExtensions) && ContainsAny(p, ScriptExtensions) <==> r in ScriptCategories)
      && (!ContainsAny(p, ReactExtensions) && !ContainsAny(p, ScriptExtensions) && EndsWith(p, ".py") <==> r in PythonCategories)
      && (r == "Code File" <==> !ContainsAny(p, ReactExtensions) && !ContainsAny(p, ScriptExtensions) && !EndsWith(p, ".py"))
  {
    var p := ToLower(path);
    if ContainsAny(p, ReactExtensions) then "React Component"
    else if ContainsAny(p, ScriptExtensions) then
      if ContainsAny(p, UiFolders) then "UI Component"
      else if ContainsAny(p, ApiFolders) then "API Handler"
      else if ContainsAny(p, UtilityFolders) then "Utility/Service"
      else "JavaScript/TypeScript"
    else if EndsWith(p, ".py") then
      if ContainsAny(p, EndpointFolders) then "API Endpoint"
      else if ContainsAny(p, ModelFolders) then "Data Model"
      else if ContainsAny(p, LogicFolders) then "Business Logic"
      else "Python Module"
    else "Code File"
  }

  /** Text containing ".jsx" or ".tsx" contains ".js" or ".ts": the React test shadows the script test. */
  lemma ReactPathIsScriptPath(p: string)
    requires ContainsAny(p, ReactExtensions)
    ensures ContainsAny(p, ScriptExtensions)
  {
    var k :| 0 <= k < |ReactExtensions| && Contains(p, ReactExtensions[k]);
    var i :| 0 <= i <= |p| - |ReactExtensions[k]| && OccursAt(p, ReactExtensions[k], i);
    assert p[i..i + 3] == p[i..i + 4][..3];
    assert OccursAt(p, ScriptExtensions[k], i);
  }

  /** So a path is "Code File" exactly when it mentions neither ".js" nor ".ts" and does not end with ".py". */
  lemma CodeFileCategory(path: string)
    ensures CategorizeFileType(path) == "Code File" <==>
      !ContainsAny(ToLower(path), ScriptExtensions) && !EndsWith(ToLower(path), ".py")
  {
    if ContainsAny(ToLower(path), ReactExtensions) {
      ReactPathIsScriptPath(ToLower(path));
    }
  }

  /** The substring test catches ".json": a JSON file is always categorised as a script. */
  lemma JsonPathIsScript(path: string)
    requires EndsWith(ToLower(path), ".json")
    ensures CategorizeFileType(path) == "React Component" || CategorizeFileType(path) in ScriptCategories
  {
    var p := ToLower(path);
    var i := |p| - 5;
    assert p[i..i + 3] == p[i..][..3];
    assert OccursAt(p, ScriptExtensions[0], i);
  }

  // ----- extract_imports -----

  /** One import record; `kind` is the record's "type". */
  datatype ImportInfo = ImportInfo(kind: string, moduleName: string, source: string)

  /** The rule for one matched module: relative ones are internal, other non-empty ones external, empty ones dropped. */
  function Classify(m: string): (r: Option<ImportInfo>)
    ensures r.None? <==> m == ""
    ensures r.Some? ==> r.value.moduleName == m
    ensures r.Some? ==> (r.value.kind == "internal" <==> m[0] == '.')
    ensures r.Some? ==> (r.value.kind == "internal" || r.value.kind == "external")
    ensures r.Some? ==> r.value.source == (if r.value.kind == "internal" then "relative" else "unknown")
  {
    if m != "" && !StartsWith(m, ".") then Some(ImportInfo("external", m, "unknown"))
    else if m != "" && StartsWith(m, ".") then Some(ImportInfo("internal", m, "relative"))
    else None
  }

  /**
   * What `re.findall` returns for each import pattern. The first JavaScript
   * pattern has two groups, so its matches are pairs, of which the second
   * (the module path) is used.
   */
  datatype ImportMatches = ImportMatches(
    jsFrom: seq<(string, string)>,
    jsRequire: seq<string>,
    jsBare: seq<string>,
    pyFrom: seq<string>,
    pyImport: seq<string>,
    pyRelative: seq<string>)

  const ScriptFileExtensions := [".js", ".jsx", ".ts", ".tsx"]

  function Seconds(pairs: seq<(string, string)>): (r: seq<string>)
    ensures |r| == |pairs| && forall i :: 0 <= i < |pairs| ==> r[i] == pairs[i].1
  {
    seq(|pairs|, i requires 0 <= i < |pairs| => pairs[i].1)
  }

  /** The matched modules in the order the patterns are tried, or [] for other extensions. */
  function MatchedModules(fileExt: string, m: ImportMatches): seq<seq<string>> {
    if fileExt in ScriptFileExtensions then [Seconds(m.jsFrom), m.jsRequire, m.jsBare]
    else if fileExt == ".py" then [m.pyFrom, m.pyImport, m.pyRelative]
    else []
  }

  function Flatten(groups: seq<seq<string>>): seq<string> {
    if groups == [] then [] else Flatten(groups[..|groups| - 1]) + groups[|groups| - 1]
  }

  /** The records of a list of matched modules, in order. */
  function ImportsOf(modules: seq<string>): seq<ImportInfo> {
    if modules == [] then []
    else
      var c := Classify(modules[|modules| - 1]);
      ImportsOf(modules[..|modules| - 1]) + if c.Some? then [c.value] else []
  }

  predicate NonEmpty(s: string) {
    s != ""
  }

  lemma ImportsOfSnoc(modules: seq<string>, m: string)
    ensures ImportsOf(modules + [m]) == ImportsOf(modules) + if Classify(m).Some? then [Classify(m).value] else []
  {
    assert (modules + [m])[..|modules|] == modules;
  }

  /**
   * The records are the non-empty matches in order, each classified by its
   * first character: one record per non-empty match, none for an empty one.
   */
  lemma {:induction false} ImportsOfModules(modules: seq<string>)
    ensures |ImportsOf(modules)| == |Keep(modules, NonEmpty)|
    ensures forall i :: 0 <= i < |ImportsOf(modules)| ==> Classify(Keep(modules, NonEmpty)[i]) == Some(ImportsOf(modules)[i])
  {
    if modules != [] {
      var init := modules[..|modules| - 1];
      var last := modules[|modules| - 1];
      ImportsOfModules(init);
      assert modules == init + [last];
      KeepAppend(init, [last], NonEmpty);
    }
  }

  /** `extract_imports`, with the pattern matches given. */
  method ExtractImports(fileExt: string, m: ImportMatches) returns (imports: seq<ImportInfo>)
    ensures imports == ImportsOf(Flatten(MatchedModules(fileExt, m)))
  {
    imports := [];
    var groups := MatchedModules(fileExt, m);
    var g := 0;
    while g < |groups|
      invariant 0 <= g <= |groups|
      invariant imports == ImportsOf(Flatten(groups[..g]))
    {
      imports := AppendMatches(imports, groups[g], Flatten(groups[..g]));
      FlattenStep(groups, g);
      g := g + 1;
    }
    assert groups[..g] == groups;
  }

  /** The loop over one pattern's matches: each non-empty module name appended as external or internal. */
  method AppendMatches(imports0: seq<ImportInfo>, matches: seq<string>, ghost done: seq<string>) returns (imports: seq<ImportInfo>)
    requires imports0 == ImportsOf(done)
    ensures imports == ImportsOf(done + matches)
  {
    imports := imports0;
    var j := 0;
    assert done + matches[..0] == done;
    while j < |matches|
      invariant 0 <= j <= |matches|
      invariant imports == ImportsOf(done + matches[..j])
    {
      var moduleName := matches[j];
      ImportsOfSnoc(done + matches[..j], moduleName);
      assert done + matches[..j] + [moduleName] == done + matches[..j + 1];
      if moduleName != "" && !StartsWith(moduleName, ".") {
        imports := imports + [ImportInfo("external", moduleName, "unknown")];
      } else if moduleName != "" && StartsWith(moduleName, ".") {
        imports := imports + [ImportInfo("internal", moduleName, "relative")];
      }
      j := j + 1;
    }
    assert matches[..j] == matches;
  }

  lemma FlattenStep(groups: seq<seq<string>>, g: nat)
    requires g < |groups|
    ensures Flatten(groups[..g + 1]) == Flatten(groups[..g]) + groups[g]
  {
    assert groups[..g + 1][..g] == groups[..g];
  }

  predicate IsIdentifierStart(c: char) {
    'a' <= c <= 'z' || 'A' <= c <= 'Z' || c == '_'
  }

  /**
   * The Python patterns capture names that start with a letter or '_' (the
   * third one captures what follows the dot), so a Python file's imports are
   * never internal.
   */
  lemma {:induction false} PythonImportsAreExternal(modules: seq<string>)
    requires forall i :: 0 <= i < |modules| ==> modules[i] != "" && IsIdentifierStart(modules[i][0])
    ensures forall i :: 0 <= i < |ImportsOf(modules)| ==> ImportsOf(modules)[i].kind == "external"
  {
    if modules != [] {
      PythonImportsAreExternal(modules[..|modules| - 1]);
    }
  }

  // ----- extract_exports -----

  /** What `re.findall` returns for each export pattern. */
  datatype ExportMatches = ExportMatches(
    jsDeclared: seq<string>,
    jsBraced: seq<string>,
    jsDefault: seq<string>,
    pyClasses: seq<string>,
    pyFunctions: seq<string>)

  function TrimAll(items: seq<string>): (r: seq<string>)
    ensures |r| == |items| && forall i :: 0 <= i < |items| ==> r[i] == Trim(items[i])
  {
    seq(|items|, i requires 0 <= i < |items| => Trim(items[i]))
  }

  /** One JavaScript match: a match with ',' is split there and each piece stripped; any other is stripped. */
  function ExportItems(text: string): seq<string> {
    if !NoChar(text, ',') then TrimAll(Split(text, ',')) else [Trim(text)]
  }

  /** Both branches are the same rule: split at ',' and strip every piece. */
  lemma ExportItemsAreSplit(text: string)
    ensures ExportItems(text) == TrimAll(Split(text, ','))
  {
    if NoChar(text, ',') {
      SplitNoSep(text, ',');
      assert TrimAll([text]) == [Trim(text)];
    }
  }

  /**
   * The items the first `k` JavaScript matches yield, in order. None contains
   * ',' or starts or ends with whitespace.
   */
  function JsExportItemsUpTo(matches: seq<string>, k: nat): (r: seq<string>)
    requires k <= |matches|
    ensures AllClean(r)
  {
    if k == 0 then []
    else
      var earlier := JsExportItemsUpTo(matches, k - 1);
      var items := ExportItems(matches[k - 1]);
      ExportItemsClean(matches[k - 1]);
      AllCleanConcat(earlier, items);
      earlier + items
  }

  function JsExportItems(matches: seq<string>): seq<string> {
    JsExportItemsUpTo(matches, |matches|)
  }

  /** The candidates before the final filter: JavaScript matches split and stripped, Python matches as found. */
  function ExportCandidates(fileExt: string, m: ExportMatches): seq<string> {
    if fileExt in ScriptFileExtensions then JsExportItems(m.jsDeclared + m.jsBraced + m.jsDefault)
    else if fileExt == ".py" then m.pyClasses + m.pyFunctions
    else []
  }

  /** The final filter `[exp for exp in exports if exp]`. */
  function DropEmpty(items: seq<string>): (r: seq<string>)
    ensures forall i :: 0 <= i < |r| ==> r[i] != ""
  {
    if items == [] then [] else DropEmpty(items[..|items| - 1]) + if items[|items| - 1] != "" then [items[|items| - 1]] else []
  }

  /** It keeps exactly the non-empty items, in order. */
  lemma {:induction false} DropEmptyKeeps(items: seq<string>)
    ensures DropEmpty(items) == Keep(items, NonEmpty)
  {
    if items != [] {
      var init := items[..|items| - 1];
      DropEmptyKeeps(init);
      assert items == init + [items[|items| - 1]];
      KeepAppend(init, [items[|items| - 1]], NonEmpty);
    }
  }

  lemma DropEmptySnoc(items: seq<string>, x: string)
    ensures DropEmpty(items + [x]) == DropEmpty(items) + if x != "" then [x] else []
  {
    assert (items + [x])[..|items|] == items;
  }

  /** `extract_exports`, with the pattern matches given: the candidates without the empty strings. */
  method ExtractExports(fileExt: string, m: ExportMatches) returns (exports: seq<string>)
    ensures exports == DropEmpty(ExportCandidates(fileExt, m))
  {
    var found: seq<string> := [];
    if fileExt in ScriptFileExtensions {
      found := CollectJsExports(m.jsDeclared + m.jsBraced + m.jsDefault);
    } else if fileExt == ".py" {
      found := m.pyClasses + m.pyFunctions;
    }
    exports := KeepNonEmpty(found);
  }

  /** The loop over the JavaScript matches: each one split at ',' (when it has one) and stripped. */
  method CollectJsExports(matches: seq<string>) returns (found: seq<string>)
    ensures found == JsExportItems(matches)
  {
    found := [];
    var j := 0;
    while j < |matches|
      invariant 0 <= j <= |matches|
      invariant found == JsExportItemsUpTo(matches, j)
    {
      var items := ExportItems(matches[j]);
      JsExportItemsStep(matches, j, items);
      found := found + items;
      j := j + 1;
    }
  }

  lemma JsExportItemsStep(matches: seq<string>, j: nat, items: seq<string>)
    requires j < |matches| && items == ExportItems(matches[j])
    ensures JsExportItemsUpTo(matches, j + 1) == JsExportItemsUpTo(matches, j) + items
  {
  }

  /** The final comprehension `[exp for exp in exports if exp]`. */
  method KeepNonEmpty(found: seq<string>) returns (exports: seq<string>)
    ensures exports == DropEmpty(found)
  {
    exports := [];
    var k := 0;
    while k < |found|
      invariant 0 <= k <= |found|
      invariant exports == DropEmpty(found[..k])
    {
      DropEmptySnoc(found[..k], found[k]);
      assert found[..k + 1] == found[..k] + [found[k]];
      if found[k] != "" {
        exports := exports + [found[k]];
      }
      k := k + 1;
    }
    assert found[..k] == found;
  }

  /** No ',' inside, and no whitespace at either end. */
  predicate CleanExport(e: string) {
    NoChar(e, ',') && (e == "" || (!IsSpace(e[0]) && !IsSpace(e[|e| - 1])))
  }

  /** Stripping a piece without ',' leaves a clean export. */
  lemma TrimIsClean(p: string)
    requires NoChar(p, ',')
    ensures CleanExport(Trim(p))
  {
    var t := TrimStart(p);
    var r := TrimEnd(t);
    assert t == p[|p| - |t|..|p|];
    NoCharSlice(p, |p| - |t|, |p|, ',');
    assert r == t[0..|r|];
    NoCharSlice(t, 0, |r|, ',');
  }

  lemma NoCharSlice(s: string, i: nat, j: nat, c: char)
    requires NoChar(s, c) && i <= j <= |s|
    ensures NoChar(s[i..j], c)
  {
    forall k | 0 <= k < j - i
      ensures s[i..j][k] != c
    {
      assert s[i..j][k] == s[i + k];
    }
  }

  predicate AllClean(items: seq<string>) {
    forall i :: 0 <= i < |items| ==> CleanExport(items[i])
  }

  lemma AllCleanConcat(a: seq<string>, b: seq<string>)
    requires AllClean(a) && AllClean(b)
    ensures AllClean(a + b)
  {
    forall i | 0 <= i < |a + b|
      ensures CleanExport((a + b)[i])
    {
      if i < |a| {
        assert (a + b)[i] == a[i];
      } else {
        assert (a + b)[i] == b[i - |a|];
      }
    }
  }

  /** Every item one JavaScript match yields is clean. */
  lemma ExportItemsClean(text: string)
    ensures AllClean(ExportItems(text))
  {
    ExportItemsAreSplit(text);
    var parts := Split(text, ',');
    var items := TrimAll(parts);
    forall k | 0 <= k < |items|
      ensures CleanExport(items[k])
    {
      TrimIsClean(parts[k]);
    }
  }

  // ----- build_reverse_dependencies -----

  /** `any(imp["module"] in path for imp in imps)`. */
  predicate Mentions(imps: seq<ImportInfo>, path: string) {
    exists i :: 0 <= i < |imps| && Contains(path, imps[i].moduleName)
  }

  predicate Covers(files: seq<string>, imports: map<string, seq<ImportInfo>>) {
    forall g :: g in files ==> g in imports
  }

  /** The files among the first `k` other than `f` that have an import whose module occurs in `f`'s path. */
  function ImportersUpTo(files: seq<string>, imports: map<string, seq<ImportInfo>>, f: string, k: nat): seq<string>
    requires Covers(files, imports) && k <= |files|
  {
    if k == 0 then []
    else
      var g := files[k - 1];
      ImportersUpTo(files, imports, f, k - 1) + if g != f && Mentions(imports[g], f) then [g] else []
  }

  /** What one pass of the innermost loop appends for `f`, in key order. */
  function Importers(files: seq<string>, imports: map<string, seq<ImportInfo>>, f: string): seq<string>
    requires Covers(files, imports)
  {
    ImportersUpTo(files, imports, f, |files|)
  }

  lemma {:induction false} ImportersUpToMembers(files: seq<string>, imports: map<string, seq<ImportInfo>>, f: string, k: nat)
    requires Covers(files, imports) && k <= |files|
    ensures forall g :: g in ImportersUpTo(files, imports, f, k) <==> g in files[..k] && g != f && Mentions(imports[g], f)
  {
    if k > 0 {
      ImportersUpToMembers(files, imports, f, k - 1);
      assert files[..k] == files[..k - 1] + [files[k - 1]];
    }
  }

  /** A file is listed exactly when it is another key some import of which names a piece of `f`'s path. */
  lemma ImportersMembers(files: seq<string>, imports: map<string, seq<ImportInfo>>, f: string, g: string)
    requires Covers(files, imports)
    ensures g in Importers(files, imports, f) <==> g in files && g != f && Mentions(imports[g], f)
  {
    ImportersUpToMembers(files, imports, f, |files|);
    assert files[..|files|] == files;
  }

  /** So no file is ever listed as importing itself. */
  lemma NoSelfImport(files: seq<string>, imports: map<string, seq<ImportInfo>>, f: string)
    requires Covers(files, imports)
    ensures f !in Importers(files, imports, f)
  {
    ImportersMembers(files, imports, f, f);
  }

  function InternalCount(imps: seq<ImportInfo>): nat {
    if imps == [] then 0 else InternalCount(imps[..|imps| - 1]) + if imps[|imps| - 1].kind == "internal" then 1 else 0
  }

  lemma InternalCountSnoc(imps: seq<ImportInfo>, j: nat)
    requires j < |imps|
    ensures InternalCount(imps[..j + 1]) == InternalCount(imps[..j]) + if imps[j].kind == "internal" then 1 else 0
  {
    assert imps[..j + 1][..j] == imps[..j];
  }

  /** `s` repeated `n` times. */
  function RepeatSeq<T>(s: seq<T>, n: nat): seq<T> {
    if n == 0 then [] else RepeatSeq(s, n - 1) + s
  }

  /** With two internal imports or more, every importer is listed twice or more: the list is not duplicate-free. */
  lemma RepeatedImporters<T>(s: seq<T>, n: nat)
    requires n >= 2 && s != []
    ensures |RepeatSeq(s, n)| >= 2 * |s|
    ensures RepeatSeq(s, n)[0] == RepeatSeq(s, n)[|s|]
    ensures !Distinct(RepeatSeq(s, n))
  {
    var r := RepeatSeq(s, n);
    RepeatSeqPrefix(s, n);
    assert RepeatSeq(s, 1) == s;
    assert RepeatSeq(s, 2) == s + s;
    assert r[0] == s[0] && r[|s|] == s[0];
  }

  lemma {:induction false} RepeatSeqPrefix<T>(s: seq<T>, n: nat)
    requires n >= 2
    ensures RepeatSeq(s, 2) <= RepeatSeq(s, n)
  {
    if n > 2 {
      RepeatSeqPrefix(s, n - 1);
    }
  }

  /** A file gains entries exactly when it has an internal import and some other file mentions it. */
  lemma GainsIff(s: seq<string>, n: nat)
    ensures RepeatSeq(s, n) != [] <==> n > 0 && s != []
  {
  }

  /** The dependency record: its keys in insertion order and, per key, the imports, exports and `imported_by` list. */
  class DependencyGraph {
    var files: seq<string>
    var imports: map<string, seq<ImportInfo>>
    var exports: map<string, seq<string>>
    var importedBy: map<string, seq<string>>

    predicate Valid()
      reads this
    {
      Distinct(files) && Covers(files, imports) && forall g :: g in files ==> g in importedBy
    }

    /** The record as the graph builder leaves it before the reverse pass: every `imported_by` empty. */
    constructor (fs: seq<string>, imps: map<string, seq<ImportInfo>>, exps: map<string, seq<string>>)
      requires Distinct(fs) && Covers(fs, imps)
      ensures files == fs && imports == imps && exports == exps
      ensures importedBy == map g | g in fs :: []
      ensures Valid()
    {
      files := fs;
      imports := imps;
      exports := exps;
      importedBy := map g | g in fs :: [];
    }

    /**
     * `build_reverse_dependencies`: each file's `imported_by` list is extended,
     * once per internal import of that file, by the other files that mention
     * it; nothing else changes.
     */
    method BuildReverseDependencies()
      requires Valid()
      modifies this
      ensures files == old(files) && imports == old(imports) && exports == old(exports)
      ensures importedBy.Keys == old(importedBy).Keys
      ensures forall f :: f in importedBy ==>
        importedBy[f] == old(importedBy)[f] + if f in files then Gained(files, imports, f) else []
      ensures Valid()
    {
      var fs := files;
      var deps := imports;
      var i := 0;
      while i < |fs|
        invariant 0 <= i <= |fs| && Covers(fs, deps)
        invariant files == fs == old(files) && imports == deps == old(imports) && exports == old(exports)
        invariant importedBy.Keys == old(importedBy).Keys
        invariant forall f :: f in importedBy ==>
          importedBy[f] == old(importedBy)[f] + if f in fs[..i] then Gained(fs, deps, f) else []
      {
        var filePath := fs[i];
        assert filePath !in fs[..i];
        var list := AppendImporters(fs, deps, filePath, importedBy[filePath]);
        ReverseStep(old(importedBy), importedBy, fs, deps, i, list);
        importedBy := importedBy[filePath := list];
        i := i + 1;
      }
      assert fs[..i] == fs;
    }

    /**
     * `generate_mermaid_diagram`: the header, a node line per listed key, then
     * the edge lines, stopping once 30 have been written.
     */
    method GenerateMermaidDiagram(maxNodes: int) returns (text: string)
      requires Valid()
      ensures text == Join(DiagramLines(PySlice(files, maxNodes), imports), "\n")
    {
      var listed := PySlice(files, maxNodes);
      assert Covers(listed, imports) by {
        forall g | g in listed ensures g in imports {
          var k :| 0 <= k < |listed| && listed[k] == g;
          assert files[k] == g;
        }
      }
      var mermaidLines := ["graph TD"];
      var i := 0;
      while i < |listed|
        invariant 0 <= i <= |listed|
        invariant mermaidLines == ["graph TD"] + NodeLines(listed[..i])
      {
        var filePath := listed[i];
        var nodeId := NodeId(filePath);
        assert listed[..i + 1] == listed[..i] + [filePath];
        mermaidLines := mermaidLines + ["    " + nodeId + "[\"" + filePath + "\"]"];
        i := i + 1;
      }
      assert listed[..i] == listed;
      var targets := ResolveAllTargets(listed, imports);
      mermaidLines := AppendEdgeLines(listed, imports, targets, mermaidLines);
      text := Join(mermaidLines, "\n");
    }
  }

  /**
   * The edge loop of `generate_mermaid_diagram`: the internal imports of the
   * listed files in order, each one whose target resolves adding a line, until
   * 30 lines have been added.
   */
  method AppendEdgeLines(listed: seq<string>, imports: map<string, seq<ImportInfo>>, targets: seq<seq<Option<string>>>,
                         lines: seq<string>)
    returns (mermaidLines: seq<string>)
    requires TargetsFit(listed, imports, targets)
    ensures mermaidLines == lines + EdgeLines(EdgesDrawn(listed, imports, targets))
  {
    mermaidLines := lines;
    var edgeCount := 0;
    var i := 0;
    while i < |listed|
      invariant 0 <= i <= |listed|
      invariant mermaidLines == lines + EdgeLines(Prefix(AllEdgesUpTo(listed, imports, targets, i), MaxEdges))
      invariant edgeCount == |Prefix(AllEdgesUpTo(listed, imports, targets, i), MaxEdges)|
    {
      if edgeCount >= MaxEdges {
        CapReached(listed, imports, targets, i);
        break;
      }
      mermaidLines, edgeCount := AppendListedFile(listed, imports, targets, i, lines, mermaidLines, edgeCount);
      i := i + 1;
    }
  }

  /** One pass of the edge loop: the `i`-th listed file's edges appended, up to the cap. */
  method AppendListedFile(listed: seq<string>, imports: map<string, seq<ImportInfo>>, targets: seq<seq<Option<string>>>, i: nat,
                          ghost lines: seq<string>, lines0: seq<string>, count0: nat)
    returns (mermaidLines: seq<string>, edgeCount: nat)
    requires TargetsFit(listed, imports, targets) && i < |listed|
    requires lines0 == lines + EdgeLines(Prefix(AllEdgesUpTo(listed, imports, targets, i), MaxEdges))
    requires count0 == |Prefix(AllEdgesUpTo(listed, imports, targets, i), MaxEdges)|
    ensures mermaidLines == lines + EdgeLines(Prefix(AllEdgesUpTo(listed, imports, targets, i + 1), MaxEdges))
    ensures edgeCount == |Prefix(AllEdgesUpTo(listed, imports, targets, i + 1), MaxEdges)|
  {
    var filePath := listed[i];
    mermaidLines, edgeCount := AppendFileEdges(AllEdgesUpTo(listed, imports, targets, i), filePath, imports[filePath], targets[i], lines, lines0, count0);
    AllEdgesSnoc(listed, imports, targets, i);
  }

  /** The candidates of one more file follow those of the files before it. */
  lemma AllEdgesSnoc(listed: seq<string>, imports: map<string, seq<ImportInfo>>, targets: seq<seq<Option<string>>>, i: nat)
    requires TargetsFit(listed, imports, targets) && i < |listed|
    ensures AllEdgesUpTo(listed, imports, targets, i + 1) ==
      AllEdgesUpTo(listed, imports, targets, i) + FileEdgesUpTo(listed[i], imports[listed[i]], targets[i], |imports[listed[i]]|)
  {
  }

  /** Once 30 candidates are drawn, the later files add none: the edges drawn so far are all of them. */
  lemma CapReached(listed: seq<string>, imports: map<string, seq<ImportInfo>>, targets: seq<seq<Option<string>>>, i: nat)
    requires TargetsFit(listed, imports, targets) && i <= |listed|
    requires |Prefix(AllEdgesUpTo(listed, imports, targets, i), MaxEdges)| >= MaxEdges
    ensures Prefix(AllEdgesUpTo(listed, imports, targets, i), MaxEdges) == EdgesDrawn(listed, imports, targets)
  {
    AllEdgesGrow(listed, imports, targets, i);
    PrefixOfLonger(AllEdgesUpTo(listed, imports, targets, i), AllEdgesUpTo(listed, imports, targets, |listed|), MaxEdges);
  }

  /** `find_target_file` for every import of every listed file. */
  method ResolveAllTargets(listed: seq<string>, imports: map<string, seq<ImportInfo>>) returns (targets: seq<seq<Option<string>>>)
    requires Covers(listed, imports)
    ensures targets == AllTargets(listed, imports) && TargetsFit(listed, imports, targets)
  {
    targets := [];
    var i := 0;
    while i < |listed|
      invariant 0 <= i <= |listed|
      invariant targets == TargetsUpTo(listed, imports, i)
    {
      var found := ResolveTargets(imports[listed[i]], listed);
      targets := targets + [found];
      i := i + 1;
    }
    AllTargetsFit(listed, imports);
  }

  /** `find_target_file` for each import of a file, in import order. */
  method ResolveTargets(imps: seq<ImportInfo>, listed: seq<string>) returns (targets: seq<Option<string>>)
    ensures targets == Targets(imps, listed)
  {
    targets := [];
    var j := 0;
    while j < |imps|
      invariant 0 <= j <= |imps|
      invariant targets == Targets(imps[..j], listed)
    {
      var target := FindTargetFile(imps[j].moduleName, listed);
      assert imps[..j + 1][..j] == imps[..j];
      targets := targets + [target];
      j := j + 1;
    }
    assert imps[..j] == imps;
  }

  /**
   * The inner loop for one file: an edge line for each internal import whose
   * target is a non-empty path, until the diagram holds `MaxEdges` edges.
   */
  method AppendFileEdges(ghost done: seq<Edge>, filePath: string, imps: seq<ImportInfo>, targets: seq<Option<string>>,
                         ghost lines: seq<string>, lines0: seq<string>, count0: nat)
    returns (mermaidLines: seq<string>, edgeCount: nat)
    requires |targets| == |imps|
    requires lines0 == lines + EdgeLines(Prefix(done, MaxEdges)) && count0 == |Prefix(done, MaxEdges)|
    ensures mermaidLines == lines + EdgeLines(Prefix(done + FileEdgesUpTo(filePath, imps, targets, |imps|), MaxEdges))
    ensures edgeCount == |Prefix(done + FileEdgesUpTo(filePath, imps, targets, |imps|), MaxEdges)|
  {
    mermaidLines, edgeCount := lines0, count0;
    ghost var edges := Prefix(done, MaxEdges);
    var sourceId := NodeId(filePath);
    assert done + FileEdgesUpTo(filePath, imps, targets, 0) == done;
    var j := 0;
    while j < |imps|
      invariant 0 <= j <= |imps|
      invariant edges == Prefix(done + FileEdgesUpTo(filePath, imps, targets, j), MaxEdges)
      invariant mermaidLines == lines + EdgeLines(edges) && edgeCount == |edges|
    {
      if edgeCount >= MaxEdges {
        EdgesCapped(done, filePath, imps, targets, j);
        return;
      }
      PrefixStep(done, filePath, imps, targets, j);
      var importInfo := imps[j];
      if importInfo.kind == "internal" {
        var targetFile := targets[j];
        if targetFile.Some? && targetFile.value != "" {
          var targetId := NodeId(targetFile.value);
          ghost var edge := Edge(filePath, targetFile.value);
          EdgeLinesSnoc(edges, edge);
          mermaidLines := mermaidLines + ["    " + sourceId + " --> " + targetId];
          edges := edges + [edge];
          edgeCount := edgeCount + 1;
        }
      }
      j := j + 1;
    }
  }

  /**
   * The two inner loops for one file: for each of its internal imports, every
   * other file that mentions it is appended to `list`.
   */
  method AppendImporters(fs: seq<string>, deps: map<string, seq<ImportInfo>>, filePath: string, list: seq<string>)
    returns (extended: seq<string>)
    requires Covers(fs, deps) && filePath in deps
    ensures extended == list + Gained(fs, deps, filePath)
  {
    extended := list;
    var imps := deps[filePath];
    var j := 0;
    while j < |imps|
      invariant 0 <= j <= |imps|
      invariant extended == list + RepeatSeq(Importers(fs, deps, filePath), InternalCount(imps[..j]))
    {
      InternalCountSnoc(imps, j);
      if imps[j].kind == "internal" {
        ghost var base := extended;
        extended := AppendMentioning(fs, deps, filePath, extended);
        assert extended == base + Importers(fs, deps, filePath);
      }
      j := j + 1;
    }
    assert imps[..j] == imps;
  }

  /** The innermost loop: every other file that mentions `filePath`, in key order, appended to `list`. */
  method AppendMentioning(fs: seq<string>, deps: map<string, seq<ImportInfo>>, filePath: string, list: seq<string>)
    returns (extended: seq<string>)
    requires Covers(fs, deps)
    ensures extended == list + Importers(fs, deps, filePath)
  {
    extended := list;
    var k := 0;
    while k < |fs|
      invariant 0 <= k <= |fs|
      invariant extended == list + ImportersUpTo(fs, deps, filePath, k)
    {
      var otherFile := fs[k];
      if otherFile != filePath && Mentions(deps[otherFile], filePath) {
        extended := extended + [otherFile];
      }
      k := k + 1;
    }
  }

  /** Writing back the extended list of the `i`-th file keeps every other list as it was. */
  lemma ReverseStep(before: map<string, seq<string>>, current: map<string, seq<string>>,
                    fs: seq<string>, deps: map<string, seq<ImportInfo>>, i: nat, list: seq<string>)
    requires Covers(fs, deps) && Distinct(fs) && i < |fs| && fs[i] in current
    requires current.Keys == before.Keys
    requires forall f :: f in current ==> current[f] == before[f] + if f in fs[..i] then Gained(fs, deps, f) else []
    requires list == current[fs[i]] + Gained(fs, deps, fs[i])
    ensures forall f :: f in current[fs[i] := list] ==>
      current[fs[i] := list][f] == before[f] + if f in fs[..i + 1] then Gained(fs, deps, f) else []
  {
    assert fs[..i + 1] == fs[..i] + [fs[i]];
    assert fs[i] !in fs[..i];
  }

  /** What a file's `imported_by` gains: its importers once per internal import of its own. */
  function Gained(files: seq<string>, imports: map<string, seq<ImportInfo>>, f: string): seq<string>
    requires Covers(files, imports) && f in imports
  {
    RepeatSeq(Importers(files, imports, f), InternalCount(imports[f]))
  }

  // ----- find_target_file -----

  /** Leading dots stripped, then every ".js" and every ".py" removed. */
  function CleanModule(modulePath: string): string {
    Replace(Replace(StripLeading(modulePath, '.'), ".js", ""), ".py", "")
  }

  predicate MatchesModule(clean: string, filePath: string) {
    Contains(filePath, clean) || EndsWith(filePath, "/" + clean + ".js") || EndsWith(filePath, "/" + clean + ".py")
  }

  /** The two `endswith` tests add nothing: each implies the substring test. */
  lemma MatchIsSubstring(clean: string, filePath: string)
    ensures MatchesModule(clean, filePath) <==> Contains(filePath, clean)
  {
    if EndsWith(filePath, "/" + clean + ".js") || EndsWith(filePath, "/" + clean + ".py") {
      var start := |filePath| - |clean| - 4;
      assert filePath[start + 1..start + 1 + |clean|] == filePath[start..][1..1 + |clean|];
      assert OccursAt(filePath, clean, start + 1);
    }
  }

  /**
   * The index of the first listed file the module matches, -1 when there is
   * none; by `MatchIsSubstring` the match test is the substring test.
   */
  function FirstMatchIndex(clean: string, files: seq<string>): (r: int)
    ensures -1 <= r < |files|
  {
    if files == [] then -1
    else if Contains(files[0], clean) then 0
    else
      var r := FirstMatchIndex(clean, files[1..]);
      if r < 0 then -1 else r + 1
  }

  /** The index found matches, and no file before it does; -1 means that no file matches. */
  lemma {:induction false} FirstMatchIndexMeaning(clean: string, files: seq<string>)
    ensures var r := FirstMatchIndex(clean, files);
      && (r >= 0 ==> MatchesModule(clean, files[r]))
      && forall j :: 0 <= j < |files| && (r < 0 || j < r) ==> !MatchesModule(clean, files[j])
  {
    if files != [] {
      MatchIsSubstring(clean, files[0]);
    }
    if files != [] && !MatchesModule(clean, files[0]) {
      FirstMatchIndexMeaning(clean, files[1..]);
      assert forall j :: 1 <= j < |files| ==> files[j] == files[1..][j - 1];
    }
  }

  function TargetFile(modulePath: string, files: seq<string>): Option<string> {
    var r := FirstMatchIndex(CleanModule(modulePath), files);
    if r < 0 then None else Some(files[r])
  }

  /** `find_target_file`: the first file in list order that the cleaned module matches, or None. */
  method FindTargetFile(modulePath: string, availableFiles: seq<string>) returns (target: Option<string>)
    ensures target == TargetFile(modulePath, availableFiles)
    ensures target.Some? ==> target.value in availableFiles
  {
    var cleanModule := CleanModule(modulePath);
    var i := 0;
    while i < |availableFiles|
      invariant 0 <= i <= |availableFiles|
      invariant forall j :: 0 <= j < i ==> !MatchesModule(cleanModule, availableFiles[j])
    {
      var filePath := availableFiles[i];
      if Contains(filePath, cleanModule) || EndsWith(filePath, "/" + cleanModule + ".js") || EndsWith(filePath, "/" + cleanModule + ".py") {
        FirstMatchIsFirst(cleanModule, availableFiles, i);
        return Some(filePath);
      }
      i := i + 1;
    }
    FirstMatchIndexMeaning(cleanModule, availableFiles);
    return None;
  }

  /** The first index that matches after a run of misses is the first match. */
  lemma FirstMatchIsFirst(clean: string, files: seq<string>, i: nat)
    requires i < |files| && MatchesModule(clean, files[i])
    requires forall j :: 0 <= j < i ==> !MatchesModule(clean, files[j])
    ensures FirstMatchIndex(clean, files) == i
  {
    FirstMatchIndexMeaning(clean, files);
  }

  /** A module made only of dots cleans to the empty string, which every path contains: it resolves to the first file. */
  lemma DotsResolveToFirstFile(modulePath: string, files: seq<string>)
    requires forall i :: 0 <= i < |modulePath| ==> modulePath[i] == '.'
    requires files != []
    ensures TargetFile(modulePath, files) == Some(files[0])
  {
    StripLeadingAll(modulePath, '.');
    assert CleanModule(modulePath) == "";
    assert OccursAt(files[0], "", 0);
  }

  // ----- generate_mermaid_diagram -----

  /** The node id: '/', '.' and '-' each replaced by '_'. */
  function NodeId(path: string): string {
    Replace(Replace(Replace(path, "/", "_"), ".", "_"), "-", "_")
  }

  /** The id has the path's length, with exactly the three separators turned into '_'. */
  lemma NodeIdSanitised(path: string)
    ensures |NodeId(path)| == |path|
    ensures forall i :: 0 <= i < |path| ==>
      NodeId(path)[i] == if path[i] == '/' || path[i] == '.' || path[i] == '-' then '_' else path[i]
  {
    ReplaceOneChar(path, '/', '_');
    ReplaceOneChar(ReplaceChar(path, '/', '_'), '.', '_');
    ReplaceOneChar(ReplaceChar(ReplaceChar(path, '/', '_'), '.', '_'), '-', '_');
  }

  /** The characters that appear as '_' in an id: the three separators and '_' itself. */
  predicate BecomesUnderscore(c: char) {
    c == '/' || c == '.' || c == '-' || c == '_'
  }

  /**
   * Different paths can share an id: two paths of the same length that agree
   * wherever either has a character other than '/', '.', '-' and '_' are the
   * same node ("a/b", "a.b", "a-b" and "a_b", say).
   */
  lemma NodeIdsCollide(p: string, q: string)
    requires |p| == |q|
    requires forall i :: 0 <= i < |p| ==> p[i] == q[i] || (BecomesUnderscore(p[i]) && BecomesUnderscore(q[i]))
    ensures NodeId(p) == NodeId(q)
  {
    NodeIdSanitised(p);
    NodeIdSanitised(q);
  }

  function NodeLine(path: string): string {
    "    " + NodeId(path) + "[\"" + path + "\"]"
  }

  function EdgeLine(source: string, target: string): string {
    "    " + NodeId(source) + " --> " + NodeId(target)
  }

  datatype Edge = Edge(source: string, target: string)

  function EdgeLines(edges: seq<Edge>): (r: seq<string>)
    ensures |r| == |edges| && forall k :: 0 <= k < |edges| ==> r[k] == EdgeLine(edges[k].source, edges[k].target)
  {
    seq(|edges|, k requires 0 <= k < |edges| => EdgeLine(edges[k].source, edges[k].target))
  }

  /** Python's `s[:n]`, including a negative `n`, which drops the last `-n` elements. */
  function PySlice<T>(s: seq<T>, n: int): (r: seq<T>)
    ensures r <= s
    ensures n >= 0 ==> |r| == if n < |s| then n else |s|
    ensures n < 0 ==> |r| == if |s| + n > 0 then |s| + n else 0
  {
    if n >= 0 then Prefix(s, n) else if |s| + n > 0 then s[..|s| + n] else []
  }

  const MaxEdges := 30

  /** What `find_target_file` returns for each of a file's imports. */
  function Targets(imps: seq<ImportInfo>, listed: seq<string>): (r: seq<Option<string>>)
    ensures |r| == |imps|
  {
    if imps == [] then [] else Targets(imps[..|imps| - 1], listed) + [TargetFile(imps[|imps| - 1].moduleName, listed)]
  }

  /** Every target found is one of the listed files. */
  lemma {:induction false} TargetsListed(imps: seq<ImportInfo>, listed: seq<string>)
    ensures forall k :: 0 <= k < |imps| && Targets(imps, listed)[k].Some? ==> Targets(imps, listed)[k].value in listed
  {
    if imps != [] {
      TargetsListed(imps[..|imps| - 1], listed);
    }
  }

  /** Entry `j` is the target of import `j`. */
  lemma {:induction false} TargetAt(imps: seq<ImportInfo>, listed: seq<string>, j: nat)
    requires j < |imps|
    ensures Targets(imps, listed)[j] == TargetFile(imps[j].moduleName, listed)
  {
    if j < |imps| - 1 {
      TargetAt(imps[..|imps| - 1], listed, j);
    }
  }

  /** The edge one import contributes: one when it is internal and its target is a non-empty path. */
  function EdgeOf(source: string, imp: ImportInfo, target: Option<string>): seq<Edge> {
    if imp.kind == "internal" && target.Some? && target.value != "" then [Edge(source, target.value)] else []
  }

  /** The edges of one file's first `j` imports, given the targets they resolve to. */
  function FileEdgesUpTo(source: string, imps: seq<ImportInfo>, targets: seq<Option<string>>, j: nat): seq<Edge>
    requires j <= |imps| == |targets|
  {
    if j == 0 then [] else FileEdgesUpTo(source, imps, targets, j - 1) + EdgeOf(source, imps[j - 1], targets[j - 1])
  }

  /** The targets of the imports of the first `i` listed files, file by file. */
  function TargetsUpTo(listed: seq<string>, imports: map<string, seq<ImportInfo>>, i: nat): seq<seq<Option<string>>>
    requires Covers(listed, imports) && i <= |listed|
  {
    if i == 0 then [] else TargetsUpTo(listed, imports, i - 1) + [Targets(imports[listed[i - 1]], listed)]
  }

  function AllTargets(listed: seq<string>, imports: map<string, seq<ImportInfo>>): seq<seq<Option<string>>>
    requires Covers(listed, imports)
  {
    TargetsUpTo(listed, imports, |listed|)
  }

  /** Entry `k` holds the targets of the `k`-th listed file's imports. */
  lemma {:induction false} TargetsUpToAt(listed: seq<string>, imports: map<string, seq<ImportInfo>>, i: nat)
    requires Covers(listed, imports) && i <= |listed|
    ensures |TargetsUpTo(listed, imports, i)| == i
    ensures forall k :: 0 <= k < i ==> TargetsUpTo(listed, imports, i)[k] == Targets(imports[listed[k]], listed)
  {
    if i > 0 {
      TargetsUpToAt(listed, imports, i - 1);
    }
  }

  lemma AllTargetsFit(listed: seq<string>, imports: map<string, seq<ImportInfo>>)
    requires Covers(listed, imports)
    ensures TargetsFit(listed, imports, AllTargets(listed, imports))
  {
    TargetsUpToAt(listed, imports, |listed|);
  }

  /** One sequence of targets per listed file, one target per import. */
  predicate TargetsFit(listed: seq<string>, imports: map<string, seq<ImportInfo>>, targets: seq<seq<Option<string>>>) {
    && Covers(listed, imports) && |targets| == |listed|
    && forall k :: 0 <= k < |listed| ==> |targets[k]| == |imports[listed[k]]|
  }

  /** All candidate edges of the first `i` listed files, before the cap, given their targets. */
  function AllEdgesUpTo(listed: seq<string>, imports: map<string, seq<ImportInfo>>, targets: seq<seq<Option<string>>>, i: nat): seq<Edge>
    requires TargetsFit(listed, imports, targets) && i <= |listed|
  {
    if i == 0 then []
    else
      var source := listed[i - 1];
      AllEdgesUpTo(listed, imports, targets, i - 1) + FileEdgesUpTo(source, imports[source], targets[i - 1], |imports[source]|)
  }

  /** The first 30 candidates. */
  function EdgesDrawn(listed: seq<string>, imports: map<string, seq<ImportInfo>>, targets: seq<seq<Option<string>>>): seq<Edge>
    requires TargetsFit(listed, imports, targets)
  {
    Prefix(AllEdgesUpTo(listed, imports, targets, |listed|), MaxEdges)
  }

  /** The edges drawn: the first 30 candidates, with each import's target found among the listed files. */
  function DiagramEdges(listed: seq<string>, imports: map<string, seq<ImportInfo>>): seq<Edge>
    requires Covers(listed, imports)
  {
    AllTargetsFit(listed, imports);
    EdgesDrawn(listed, imports, AllTargets(listed, imports))
  }

  function NodeLines(listed: seq<string>): (r: seq<string>)
    ensures |r| == |listed| && forall k :: 0 <= k < |listed| ==> r[k] == NodeLine(listed[k])
  {
    seq(|listed|, k requires 0 <= k < |listed| => NodeLine(listed[k]))
  }

  /** The diagram's lines: the header, one node per listed file, then the edges drawn. */
  function DiagramLines(listed: seq<string>, imports: map<string, seq<ImportInfo>>): seq<string>
    requires Covers(listed, imports)
  {
    ["graph TD"] + NodeLines(listed) + EdgeLines(DiagramEdges(listed, imports))
  }

  /** Reaching the cap inside a file: the lines so far are those of the whole file's edges. */
  lemma EdgesCapped(done: seq<Edge>, source: string, imps: seq<ImportInfo>, targets: seq<Option<string>>, j: nat)
    requires j <= |imps| == |targets| && |Prefix(done + FileEdgesUpTo(source, imps, targets, j), MaxEdges)| >= MaxEdges
    ensures Prefix(done + FileEdgesUpTo(source, imps, targets, |imps|), MaxEdges) == Prefix(done + FileEdgesUpTo(source, imps, targets, j), MaxEdges)
  {
    FileEdgesGrow(source, imps, targets, j);
    PrefixOfLonger(done + FileEdgesUpTo(source, imps, targets, j), done + FileEdgesUpTo(source, imps, targets, |imps|), MaxEdges);
  }

  /** One more import appends its edge, if any, to the edges so far. */
  lemma FileEdgesStep(done: seq<Edge>, source: string, imps: seq<ImportInfo>, targets: seq<Option<string>>, j: nat)
    requires j < |imps| == |targets|
    ensures done + FileEdgesUpTo(source, imps, targets, j + 1) == (done + FileEdgesUpTo(source, imps, targets, j)) + EdgeOf(source, imps[j], targets[j])
  {
  }

  /** Below the cap, one more import adds its edge, if any, to the edges drawn. */
  lemma PrefixStep(done: seq<Edge>, source: string, imps: seq<ImportInfo>, targets: seq<Option<string>>, j: nat)
    requires j < |imps| == |targets| && |Prefix(done + FileEdgesUpTo(source, imps, targets, j), MaxEdges)| < MaxEdges
    ensures Prefix(done + FileEdgesUpTo(source, imps, targets, j + 1), MaxEdges) ==
      Prefix(done + FileEdgesUpTo(source, imps, targets, j), MaxEdges) + EdgeOf(source, imps[j], targets[j])
  {
    FileEdgesStep(done, source, imps, targets, j);
    var e := EdgeOf(source, imps[j], targets[j]);
    if e != [] {
      PrefixSnoc(done + FileEdgesUpTo(source, imps, targets, j), e[0], MaxEdges);
    }
  }

  lemma EdgeLinesSnoc(edges: seq<Edge>, e: Edge)
    ensures EdgeLines(edges + [e]) == EdgeLines(edges) + [EdgeLine(e.source, e.target)]
  {
    assert forall k :: 0 <= k < |edges| ==> (edges + [e])[k] == edges[k];
  }

  lemma {:induction false} FileEdgesGrow(source: string, imps: seq<ImportInfo>, targets: seq<Option<string>>, j: nat)
    requires j <= |imps| == |targets|
    ensures FileEdgesUpTo(source, imps, targets, j) <= FileEdgesUpTo(source, imps, targets, |imps|)
    decreases |imps| - j
  {
    if j < |imps| {
      FileEdgesGrow(source, imps, targets, j + 1);
    }
  }

  lemma {:induction false} AllEdgesGrow(listed: seq<string>, imports: map<string, seq<ImportInfo>>, targets: seq<seq<Option<string>>>, i: nat)
    requires TargetsFit(listed, imports, targets) && i <= |listed|
    ensures AllEdgesUpTo(listed, imports, targets, i) <= AllEdgesUpTo(listed, imports, targets, |listed|)
    decreases |listed| - i
  {
    if i < |listed| {
      AllEdgesGrow(listed, imports, targets, i + 1);
      var added := FileEdgesUpTo(listed[i], imports[listed[i]], targets[i], |imports[listed[i]]|);
      PrefixOfConcat(AllEdgesUpTo(listed, imports, targets, i), added);
    }
  }

  lemma PrefixOfConcat<T>(a: seq<T>, b: seq<T>)
    ensures a <= a + b
  {
    assert (a + b)[..|a|] == a;
  }

  predicate NoNewline(s: string) {
    NoChar(s, '\n')
  }

  lemma NoCharAppend(a: string, b: string, c: char)
    requires NoChar(a, c) && NoChar(b, c)
    ensures NoChar(a + b, c)
  {
  }

  /** The id of a path without a newline has none either. */
  lemma NodeIdNoNewline(path: string)
    requires NoNewline(path)
    ensures NoNewline(NodeId(path))
  {
    NodeIdSanitised(path);
  }

  lemma NodeLineNoNewline(path: string)
    requires NoNewline(path)
    ensures NoNewline(NodeLine(path))
  {
    NodeIdNoNewline(path);
    NoCharAppend("    ", NodeId(path), '\n');
    NoCharAppend("    " + NodeId(path), "[\"", '\n');
    NoCharAppend("    " + NodeId(path) + "[\"", path, '\n');
    NoCharAppend("    " + NodeId(path) + "[\"" + path, "\"]", '\n');
  }

  lemma EdgeLineNoNewline(source: string, target: string)
    requires NoNewline(source) && NoNewline(target)
    ensures NoNewline(EdgeLine(source, target))
  {
    NodeIdNoNewline(source);
    NodeIdNoNewline(target);
    NoCharAppend("    ", NodeId(source), '\n');
    NoCharAppend("    " + NodeId(source), " --> ", '\n');
    NoCharAppend("    " + NodeId(source) + " --> ", NodeId(target), '\n');
  }

  /** Every edge of a file goes from it to one of the targets. */
  lemma {:induction false} FileEdgesListed(source: string, imps: seq<ImportInfo>, targets: seq<Option<string>>, listed: seq<string>, j: nat)
    requires j <= |imps| == |targets|
    requires forall k :: 0 <= k < |targets| && targets[k].Some? ==> targets[k].value in listed
    ensures forall k :: 0 <= k < |FileEdgesUpTo(source, imps, targets, j)| ==>
      FileEdgesUpTo(source, imps, targets, j)[k].source == source && FileEdgesUpTo(source, imps, targets, j)[k].target in listed
  {
    if j > 0 {
      FileEdgesListed(source, imps, targets, listed, j - 1);
    }
  }

  /** Every target found is one of the listed files. */
  predicate TargetsWithin(targets: seq<seq<Option<string>>>, listed: seq<string>) {
    forall k, j :: 0 <= k < |targets| && 0 <= j < |targets[k]| && targets[k][j].Some? ==> targets[k][j].value in listed
  }

  lemma AllTargetsWithin(listed: seq<string>, imports: map<string, seq<ImportInfo>>)
    requires Covers(listed, imports)
    ensures TargetsWithin(AllTargets(listed, imports), listed)
  {
    TargetsUpToAt(listed, imports, |listed|);
    forall k | 0 <= k < |listed|
      ensures forall j :: 0 <= j < |imports[listed[k]]| && Targets(imports[listed[k]], listed)[j].Some? ==>
        Targets(imports[listed[k]], listed)[j].value in listed
    {
      TargetsListed(imports[listed[k]], listed);
    }
  }

  /** Every candidate edge goes from a listed file to a listed file. */
  lemma {:induction false} AllEdgesListed(listed: seq<string>, imports: map<string, seq<ImportInfo>>, targets: seq<seq<Option<string>>>, i: nat)
    requires TargetsFit(listed, imports, targets) && TargetsWithin(targets, listed) && i <= |listed|
    ensures forall k :: 0 <= k < |AllEdgesUpTo(listed, imports, targets, i)| ==>
      AllEdgesUpTo(listed, imports, targets, i)[k].source in listed[..i] && AllEdgesUpTo(listed, imports, targets, i)[k].target in listed
  {
    if i > 0 {
      AllEdgesListed(listed, imports, targets, i - 1);
      var source := listed[i - 1];
      var before: seq<Edge> := AllEdgesUpTo(listed, imports, targets, i - 1);
      var added: seq<Edge> := FileEdgesUpTo(source, imports[source], targets[i - 1], |imports[source]|);
      FileEdgesListed(source, imports[source], targets[i - 1], listed, |imports[source]|);
      assert listed[..i] == listed[..i - 1] + [source];
      var edges: seq<Edge> := before + added;
      forall k | 0 <= k < |edges|
        ensures edges[k].source in listed[..i] && edges[k].target in listed
      {
        if k < |before| {
          assert edges[k] == before[k];
        } else {
          assert edges[k] == added[k - |before|];
        }
      }
    }
  }

  /**
   * The diagram's shape: "graph TD" first, one node line per listed file in
   * order, then at most 30 edge lines, each between two listed files.
   */
  lemma DiagramShape(listed: seq<string>, imports: map<string, seq<ImportInfo>>)
    requires Covers(listed, imports)
    ensures var lines := DiagramLines(listed, imports);
      var edges := DiagramEdges(listed, imports);
      && lines[0] == "graph TD"
      && |edges| <= MaxEdges && |lines| == 1 + |listed| + |edges|
      && (forall k :: 0 <= k < |listed| ==> lines[k + 1] == NodeLine(listed[k]))
      && (forall k :: 0 <= k < |edges| ==> lines[1 + |listed| + k] == EdgeLine(edges[k].source, edges[k].target))
      && (forall k :: 0 <= k < |edges| ==> edges[k].source in listed && edges[k].target in listed)
  {
    var edges := DiagramEdges(listed, imports);
    AllTargetsFit(listed, imports);
    AllTargetsWithin(listed, imports);
    EdgesDrawnListed(listed, imports, AllTargets(listed, imports));
    LinesShape(listed, edges);
  }

  /** At most 30 edges are drawn, each between two listed files. */
  lemma EdgesDrawnListed(listed: seq<string>, imports: map<string, seq<ImportInfo>>, targets: seq<seq<Option<string>>>)
    requires TargetsFit(listed, imports, targets) && TargetsWithin(targets, listed)
    ensures |EdgesDrawn(listed, imports, targets)| <= MaxEdges
    ensures forall k :: 0 <= k < |EdgesDrawn(listed, imports, targets)| ==>
      EdgesDrawn(listed, imports, targets)[k].source in listed && EdgesDrawn(listed, imports, targets)[k].target in listed
  {
    var all := AllEdgesUpTo(listed, imports, targets, |listed|);
    AllEdgesListed(listed, imports, targets, |listed|);
    assert listed[..|listed|] == listed;
    var edges := Prefix(all, MaxEdges);
    forall k | 0 <= k < |edges|
      ensures edges[k].source in listed && edges[k].target in listed
    {
      assert edges[k] == all[k];
    }
  }

  /** The header, the node lines and the edge lines, at their positions. */
  lemma LinesShape(listed: seq<string>, edges: seq<Edge>)
    ensures var lines := ["graph TD"] + NodeLines(listed) + EdgeLines(edges);
      && lines[0] == "graph TD" && |lines| == 1 + |listed| + |edges|
      && (forall k :: 0 <= k < |listed| ==> lines[k + 1] == NodeLine(listed[k]))
      && (forall k :: 0 <= k < |edges| ==> lines[1 + |listed| + k] == EdgeLine(edges[k].source, edges[k].target))
  {
  }

  /** With no newline in any path, splitting the text at '\n' gives the lines back. */
  lemma DiagramTextLines(listed: seq<string>, imports: map<string, seq<ImportInfo>>)
    requires Covers(listed, imports)
    requires forall k :: 0 <= k < |listed| ==> NoNewline(listed[k])
    ensures Split(Join(DiagramLines(listed, imports), "\n"), '\n') == DiagramLines(listed, imports)
  {
    var lines := DiagramLines(listed, imports);
    var edges := DiagramEdges(listed, imports);
    DiagramShape(listed, imports);
    forall k | 0 <= k < |lines|
      ensures NoNewline(lines[k])
    {
      if k == 0 {
        assert lines[0] == "graph TD";
      } else if k <= |listed| {
        NodeLineNoNewline(listed[k - 1]);
      } else {
        var e := edges[k - 1 - |listed|];
        assert e.source in listed && e.target in listed;
        EdgeLineNoNewline(e.source, e.target);
      }
    }
    SplitJoin(lines, '\n');
  }
}
