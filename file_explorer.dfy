/**
 * The File Explorer page: fetches per-file roles, evolution history and
 * dependencies for a repository, filters the role entries by a search term
 * and a category, and shows one card per file with its connections.
 *
 * A JSON object's entries are kept as a sequence of (key, value) pairs in
 * the order `Object.entries` yields them. A body's `error` field is a string
 * where "" stands for an absent or empty (falsy) field.
 */
module FileExplorer {
  import opened Wrappers
  import opened Strings
  import opened Seqs

  datatype FileRole = FileRole(
    role: string,
    category: string,
    complexity: string,
    dependencies: seq<string>,
    keyFunctions: seq<string>)

  datatype FileHistory = FileHistory(
    commit: string,
    message: string,
    date: string,
    changeType: string,
    additions: int,
    deletions: int)

  /** One import of a dependency record; `kind` is the JSON field `type`. */
  datatype ImportRef = ImportRef(moduleName: string, kind: string)

  /** `imported_by` may be missing from a record. */
  datatype DependencyRecord = DependencyRecord(imports: seq<ImportRef>, importedBy: Option<seq<string>>)

  datatype Connections = Connections(imports: seq<string>, importedBy: seq<string>)

  type RoleEntries = seq<(string, FileRole)>
  type HistoryMap = map<string, seq<FileHistory>>
  type DependencyMap = map<string, DependencyRecord>

  /** A parsed response body: its `error` field and the payload the page reads. */
  datatype Body<T> = Body(error: string, payload: T)

  /** The outcome of `fetch` followed by `.json()`: it threw, or it produced a body. */
  datatype Fetched<T> = Threw | Received(body: Body<T>)

  const EmptyUrlMessage := "Please enter a repository URL"
  const FailureMessage := "Failed to analyze repository files"

  /** What one analysis run ends with: an error message, or the three datasets together. */
  datatype Outcome = Failed(message: string) | Loaded(roles: RoleEntries, history: HistoryMap, dependencies: DependencyMap)

  /**
   * How the three responses combine: any exception gives the generic message;
   * otherwise the first non-empty `error` in the order roles, evolution,
   * dependencies wins; only when there is none are all three datasets taken.
   */
  function Combine(roles: Fetched<RoleEntries>, evolution: Fetched<HistoryMap>, deps: Fetched<DependencyMap>): (o: Outcome)
    ensures (roles.Threw? || evolution.Threw? || deps.Threw?) ==> o == Failed(FailureMessage)
    ensures roles.Received? && evolution.Received? && deps.Received? ==>
      && (roles.body.error != "" ==> o == Failed(roles.body.error))
      && (roles.body.error == "" && evolution.body.error != "" ==> o == Failed(evolution.body.error))
      && (roles.body.error == "" && evolution.body.error == "" && deps.body.error != "" ==> o == Failed(deps.body.error))
    ensures o.Loaded? <==>
      && roles.Received? && evolution.Received? && deps.Received?
      && roles.body.error == "" && evolution.body.error == "" && deps.body.error == ""
    ensures o.Loaded? ==> o == Loaded(roles.body.payload, evolution.body.payload, deps.body.payload)
    ensures o.Failed? ==> o.message != ""
  {
    match (roles, evolution, deps)
    case (Received(r), Received(e), Received(d)) =>
      if r.error != "" then Failed(r.error)
      else if e.error != "" then Failed(e.error)
      else if d.error != "" then Failed(d.error)
      else Loaded(r.payload, e.payload, d.payload)
    case _ => Failed(FailureMessage)
  }

  /** Case-insensitive substring match of the search term on a path. */
  predicate MatchesSearch(path: string, term: string) {
    Contains(ToLower(path), ToLower(term))
  }

  function SearchFilter(files: RoleEntries, term: string): RoleEntries {
    Keep(files, (e: (string, FileRole)) => MatchesSearch(e.0, term))
  }

  function CategoryFilter(files: RoleEntries, category: string): RoleEntries {
    Keep(files, (e: (string, FileRole)) => e.1.category == category)
  }

  /** `getFilteredFiles`: the search filter when the term is non-empty, then the category filter unless it is 'all'. */
  function FilteredFiles(fileRoles: Option<RoleEntries>, term: string, category: string): RoleEntries {
    match fileRoles
    case None => []
    case Some(entries) =>
      var files := entries;
      var files := if term != "" then SearchFilter(files, term) else files;
      var files := if category != "all" then CategoryFilter(files, category) else files;
      files
  }

  /** An entry passes the filters exactly when its path matches the term and its category the filter. */
  lemma FilteredFilesMembership(entries: RoleEntries, term: string, category: string, e: (string, FileRole))
    ensures e in FilteredFiles(Some(entries), term, category) <==>
      e in entries && MatchesSearch(e.0, term) && (category == "all" || e.1.category == category)
  {
    if term == "" {
      assert ToLower(term) == "";
      assert OccursAt(ToLower(e.0), ToLower(term), 0);
    }
  }

  /** With no roles loaded, nothing is listed. */
  lemma FilteredFilesNoRoles(term: string, category: string)
    ensures FilteredFiles(None, term, category) == []
  {
  }

  /** An empty term and 'all' list every entry, in order. */
  lemma FilteredFilesUnfiltered(entries: RoleEntries)
    ensures FilteredFiles(Some(entries), "", "all") == entries
  {
  }

  /** The result is an order-preserving subsequence of the loaded entries. */
  lemma FilteredFilesSubsequence(entries: RoleEntries, term: string, category: string)
    ensures SubsequenceOf(FilteredFiles(Some(entries), term, category), entries)
  {
    var afterSearch := if term != "" then SearchFilter(entries, term) else entries;
    if term != "" {
      KeepSubsequence(entries, (e: (string, FileRole)) => MatchesSearch(e.0, term));
    } else {
      SubsequenceRefl(entries);
    }
    if category != "all" {
      KeepSubsequence(afterSearch, (e: (string, FileRole)) => e.1.category == category);
      SubsequenceTrans(CategoryFilter(afterSearch, category), afterSearch, entries);
    }
  }

  /** Filtering by category first and by search term second gives the same list. */
  lemma FiltersCommute(entries: RoleEntries, term: string, category: string)
    ensures CategoryFilter(SearchFilter(entries, term), category) == SearchFilter(CategoryFilter(entries, category), term)
  {
    KeepCommutes(entries, (e: (string, FileRole)) => MatchesSearch(e.0, term), (e: (string, FileRole)) => e.1.category == category);
  }

  /** A category that no entry has gives an empty list, not an error. */
  lemma UnknownCategoryEmpty(entries: RoleEntries, term: string, category: string)
    requires category != "all"
    requires forall i :: 0 <= i < |entries| ==> entries[i].1.category != category
    ensures FilteredFiles(Some(entries), term, category) == []
  {
    var afterSearch := if term != "" then SearchFilter(entries, term) else entries;
    forall i | 0 <= i < |afterSearch| ensures afterSearch[i].1.category != category {
      assert afterSearch[i] in entries;
    }
    KeepNone(afterSearch, (e: (string, FileRole)) => e.1.category == category);
  }

  lemma {:induction false} SubsequenceRefl<T>(s: seq<T>)
    ensures SubsequenceOf(s, s)
  {
    if s != [] { SubsequenceRefl(s[1..]); }
  }

  lemma {:induction false} SubsequenceTrans<T>(a: seq<T>, b: seq<T>, c: seq<T>)
    requires SubsequenceOf(a, b) && SubsequenceOf(b, c)
    ensures SubsequenceOf(a, c)
    decreases |c|
  {
    if a != [] {
      if b[0] == c[0] && SubsequenceOf(b[1..], c[1..]) {
        if a[0] == b[0] && SubsequenceOf(a[1..], b[1..]) {
          SubsequenceTrans(a[1..], b[1..], c[1..]);
        } else {
          SubsequenceTrans(a, b[1..], c[1..]);
        }
      } else {
        SubsequenceTrans(a, b, c[1..]);
      }
    }
  }

  /** The module names of the internal imports, in order. */
  function InternalModules(imports: seq<ImportRef>): (r: seq<string>)
    ensures |r| <= |imports|
    ensures forall m :: m in r <==> exists i :: 0 <= i < |imports| && imports[i].kind == "internal" && imports[i].moduleName == m
  {
    if |imports| == 0 then []
    else
      var rest := InternalModules(imports[1..]);
      assert forall i :: 1 <= i < |imports| ==> imports[i] == imports[1..][i - 1];
      assert forall i :: 0 <= i < |imports| - 1 ==> imports[1..][i] == imports[i + 1];
      (if imports[0].kind == "internal" then [imports[0].moduleName] else []) + rest
  }

  predicate IsInternal(imp: ImportRef) {
    imp.kind == "internal"
  }

  /** The module name of each import, in order. */
  function ModuleNames(imports: seq<ImportRef>): (r: seq<string>)
    ensures |r| == |imports| && forall i :: 0 <= i < |imports| ==> r[i] == imports[i].moduleName
  {
    seq(|imports|, i requires 0 <= i < |imports| => imports[i].moduleName)
  }

  lemma ModuleNamesAppend(a: seq<ImportRef>, b: seq<ImportRef>)
    ensures ModuleNames(a + b) == ModuleNames(a) + ModuleNames(b)
  {
  }

  /**
   * `filter(imp => imp.type === 'internal').map(imp => imp.module)`: one entry
   * per internal import, in the imports' order, duplicates kept.
   */
  lemma {:induction false} InternalModulesAreKept(imports: seq<ImportRef>)
    ensures InternalModules(imports) == ModuleNames(Keep(imports, IsInternal))
  {
    if |imports| > 0 {
      InternalModulesAreKept(imports[1..]);
      var head := if IsInternal(imports[0]) then [imports[0]] else [];
      assert Keep(imports, IsInternal) == head + Keep(imports[1..], IsInternal);
      ModuleNamesAppend(head, Keep(imports[1..], IsInternal));
    }
  }

  /** The modules of two import lists in a row are those of the first, then those of the second. */
  lemma InternalModulesAppend(a: seq<ImportRef>, b: seq<ImportRef>)
    ensures InternalModules(a + b) == InternalModules(a) + InternalModules(b)
  {
    InternalModulesAreKept(a + b);
    InternalModulesAreKept(a);
    InternalModulesAreKept(b);
    KeepAppend(a, b, IsInternal);
    ModuleNamesAppend(Keep(a, IsInternal), Keep(b, IsInternal));
  }

  /** `getFileConnections`: empty lists when no record exists; otherwise the internal imports and `imported_by` or []. */
  function FileConnections(dependencies: Option<DependencyMap>, path: string): (c: Connections)
    ensures (dependencies.None? || path !in dependencies.value) ==> c == Connections([], [])
    ensures dependencies.Some? && path in dependencies.value ==>
      var rec := dependencies.value[path];
      && c.imports == InternalModules(rec.imports)
      && (rec.importedBy.None? ==> c.importedBy == [])
      && (rec.importedBy.Some? ==> c.importedBy == rec.importedBy.value)
  {
    if dependencies.None? || path !in dependencies.value then Connections([], [])
    else
      var rec := dependencies.value[path];
      Connections(InternalModules(rec.imports), rec.importedBy.GetOr([]))
  }

  /** Clicking a card: the selected card is deselected, any other card becomes the only selection. */
  function Toggle(selected: Option<string>, path: string): (r: Option<string>)
    ensures r == Some(path) <==> selected != Some(path)
    ensures r.Some? ==> r.value == path
  {
    if selected == Some(path) then None else Some(path)
  }

  lemma ToggleTwice(selected: Option<string>, path: string)
    ensures Toggle(Toggle(selected, path), path) == (if selected == Some(path) then Some(path) else None)
  {
  }

  const DefaultBadge := "bg-gray-100 text-gray-800"

  const CategoryColors: map<string, string> := map[
    "UI Component" := "bg-green-100 text-green-800",
    "API Endpoint" := "bg-blue-100 text-blue-800",
    "Data Model" := "bg-purple-100 text-purple-800",
    "Business Logic" := "bg-orange-100 text-orange-800",
    "Frontend Utility" := "bg-teal-100 text-teal-800",
    "Backend Utility" := "bg-indigo-100 text-indigo-800",
    "Configuration" := "bg-yellow-100 text-yellow-800",
    "Test" := "bg-red-100 text-red-800"]

  /** `getCategoryColor`: the table entry, grey for any other category. */
  function CategoryColor(category: string): (c: string)
    ensures category in CategoryColors ==> c == CategoryColors[category]
    ensures c == DefaultBadge <==> category !in CategoryColors
  {
    if category in CategoryColors then CategoryColors[category] else DefaultBadge
  }

  const ChangeTypeColors: map<string, string> := map[
    "added" := "bg-green-100 text-green-800",
    "modified" := "bg-yellow-100 text-yellow-800",
    "deleted" := "bg-red-100 text-red-800"]

  /** `getChangeTypeColor`: the table knows 'added', 'modified' and 'deleted'. */
  function ChangeTypeColor(changeType: string): (c: string)
    ensures changeType in ChangeTypeColors ==> c == ChangeTypeColors[changeType]
    ensures c == DefaultBadge <==> changeType !in ChangeTypeColors
  {
    if changeType in ChangeTypeColors then ChangeTypeColors[changeType] else DefaultBadge
  }

  /** The back end reports removals as 'removed', which this table does not know. */
  lemma RemovedIsDefault()
    ensures ChangeTypeColor("removed") == DefaultBadge
    ensures ChangeTypeColor("deleted") != DefaultBadge
  {
    assert "removed" !in ChangeTypeColors;
  }

  // ----- the category dropdown -----

  predicate StrictlySorted(s: seq<string>) {
    forall i, j :: 0 <= i < j < |s| ==> Less(s[i], s[j])
  }

  /** Inserts `x` into a strictly sorted list, unless it is already there. */
  function InsertSorted(x: string, s: seq<string>): (r: seq<string>)
    requires StrictlySorted(s)
    ensures StrictlySorted(r)
    ensures forall y :: y in r <==> y == x || y in s
  {
    if s == [] then [x]
    else if x == s[0] then s
    else if Less(x, s[0]) then
      forall j | 0 < j < |s| ensures Less(x, s[j]) { LessTransitive(x, s[0], s[j]); }
      [x] + s
    else
      LessTotal(x, s[0]);
      var rest := InsertSorted(x, s[1..]);
      assert forall y :: y in rest ==> Less(s[0], y);
      [s[0]] + rest
  }

  /** The distinct values of `xs`, sorted (`Array.from(new Set(xs)).sort()`). */
  function SortedDistinct(xs: seq<string>): (r: seq<string>)
    ensures StrictlySorted(r)
    ensures forall y :: y in r <==> y in xs
  {
    if xs == [] then [] else InsertSorted(xs[0], SortedDistinct(xs[1..]))
  }

  function Categories(entries: RoleEntries): (r: seq<string>)
    ensures |r| == |entries| && forall i :: 0 <= i < |entries| ==> r[i] == entries[i].1.category
  {
    seq(|entries|, i requires 0 <= i < |entries| => entries[i].1.category)
  }

  /** `getUniqueCategories`: no options before roles are loaded; then each loaded category once, sorted. */
  function UniqueCategories(fileRoles: Option<RoleEntries>): (r: seq<string>)
    ensures fileRoles.None? ==> r == []
    ensures StrictlySorted(r)
    ensures fileRoles.Some? ==> forall c :: c in r <==> exists i :: 0 <= i < |fileRoles.value| && fileRoles.value[i].1.category == c
  {
    if fileRoles.None? then []
    else
      var cats := Categories(fileRoles.value);
      var r := SortedDistinct(cats);
      assert forall c :: c in cats <==> exists i :: 0 <= i < |fileRoles.value| && fileRoles.value[i].1.category == c by {
        forall c | c in cats ensures exists i :: 0 <= i < |fileRoles.value| && fileRoles.value[i].1.category == c {
          var i :| 0 <= i < |cats| && cats[i] == c;
        }
      }
      r
  }

  /** A strictly sorted list holds no value twice. */
  lemma SortedIsDistinct(s: seq<string>, i: int, j: int)
    requires StrictlySorted(s) && 0 <= i < j < |s|
    ensures s[i] != s[j]
  {
    LessIrreflexive(s[i]);
  }

  /** The state hooks of the page. */
  class FileExplorerState {
    var repoUrl: string
    var fileRoles: Option<RoleEntries>
    var fileHistory: Option<HistoryMap>
    var dependencies: Option<DependencyMap>
    var loading: bool
    var error: Option<string>
    var selectedFile: Option<string>
    var searchTerm: string
    var filterCategory: string

    constructor ()
      ensures repoUrl == "" && fileRoles == None && fileHistory == None && dependencies == None
      ensures !loading && error == None && selectedFile == None
      ensures searchTerm == "" && filterCategory == "all"
    {
      repoUrl := "";
      fileRoles := None;
      fileHistory := None;
      dependencies := None;
      loading := false;
      error := None;
      selectedFile := None;
      searchTerm := "";
      filterCategory := "all";
    }

    /**
     * `analyzeFiles`. The three responses are the results of the three
     * sequential fetches; `requested` is the URL passed to them (the URL
     * as typed, not trimmed), or None when no request is made.
     */
    method AnalyzeFiles(roles: Fetched<RoleEntries>, evolution: Fetched<HistoryMap>, deps: Fetched<DependencyMap>)
      returns (requested: Option<string>)
      modifies this
      ensures requested == if AllSpace(old(repoUrl)) then None else Some(old(repoUrl))
      ensures requested.None? ==>
        && error == Some(EmptyUrlMessage) && loading == old(loading)
        && fileRoles == old(fileRoles) && fileHistory == old(fileHistory) && dependencies == old(dependencies)
      ensures requested.Some? ==>
        var outcome := Combine(roles, evolution, deps);
        && !loading
        && (outcome.Failed? ==>
              error == Some(outcome.message)
              && fileRoles == old(fileRoles) && fileHistory == old(fileHistory) && dependencies == old(dependencies))
        && (outcome.Loaded? ==>
              error == None
              && fileRoles == Some(outcome.roles) && fileHistory == Some(outcome.history)
              && dependencies == Some(outcome.dependencies))
      ensures repoUrl == old(repoUrl) && selectedFile == old(selectedFile)
      ensures searchTerm == old(searchTerm) && filterCategory == old(filterCategory)
    {
      var blank := IsBlank(repoUrl);
      if blank {
        error := Some(EmptyUrlMessage);
        return None;
      }
      requested := Some(repoUrl);
      loading := true;
      error := None;
      ghost var outcome := Combine(roles, evolution, deps);
      if roles.Threw? || evolution.Threw? || deps.Threw? {
        error := Some(FailureMessage);
      } else if roles.body.error != "" || evolution.body.error != "" || deps.body.error != "" {
        error := Some(if roles.body.error != "" then roles.body.error
                      else if evolution.body.error != "" then evolution.body.error
                      else deps.body.error);
      } else {
        fileRoles := Some(roles.body.payload);
        fileHistory := Some(evolution.body.payload);
        dependencies := Some(deps.body.payload);
      }
      loading := false;
    }

    /** `getFilteredFiles`, reading the current state. */
    function GetFilteredFiles(): (files: RoleEntries)
      reads this
      ensures files == FilteredFiles(fileRoles, searchTerm, filterCategory)
      ensures fileRoles.Some? ==> SubsequenceOf(files, fileRoles.value)
      ensures fileRoles.None? ==> files == []
    {
      match fileRoles
      case None => []
      case Some(entries) =>
        FilteredFilesSubsequence(entries, searchTerm, filterCategory);
        FilteredFiles(fileRoles, searchTerm, filterCategory)
    }

    /** The card's click handler. */
    method ClickCard(path: string)
      modifies this`selectedFile
      ensures selectedFile == Toggle(old(selectedFile), path)
    {
      var isSelected := selectedFile == Some(path);
      selectedFile := if isSelected then None else Some(path);
    }
  }
}
