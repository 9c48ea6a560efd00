/**
 * The Dashboard page: analyses one repository through the project-summary
 * endpoint, lists its files in a sidebar filtered by a query and a role,
 * switches between the timeline, architecture and details tabs, and exports
 * a Markdown summary.
 *
 * The request runs to completion between two user events, so the method
 * modelling it takes the response as a parameter.
 */
module Dashboard {
  import opened Wrappers
  import opened Strings
  import opened Seqs
  import opened ViewModel

  datatype ProjectData = ProjectData(summary: string, files: seq<FileData>, architecture: string)

  /**
   * How `fetch` and `.json()` end: an exception (`Some(message)` when it is an
   * `Error`, None for any other thrown value), a response whose `ok` is false,
   * or a parsed body whose `error` is "" when absent or empty.
   */
  datatype Response = Threw(message: Option<string>) | NotOk | Body(error: string, data: ProjectData)

  datatype Tab = Timeline | Architecture | Details

  /** Which of the page's four renderings is on screen. */
  datatype Screen = Landing | Analyzing | ErrorScreen(message: string) | Workspace

  const NotOkMessage := "Failed to fetch project data"
  const UnknownFailureMessage := "Failed to load project data"

  datatype Outcome = Failed(message: string) | Loaded(data: ProjectData)

  /** What one call of `fetchProjectData` ends with. */
  function Attempt(response: Response): (o: Outcome)
    ensures response.NotOk? ==> o == Failed(NotOkMessage)
    ensures response.Threw? ==> o == Failed(response.message.GetOr(UnknownFailureMessage))
    ensures response.Body? && response.error != "" ==> o == Failed(response.error)
    ensures o.Loaded? <==> response.Body? && response.error == ""
    ensures o.Loaded? ==> o.data == response.data
  {
    match response
    case Threw(m) => Failed(m.GetOr(UnknownFailureMessage))
    case NotOk => Failed(NotOkMessage)
    case Body(e, d) => if e != "" then Failed(e) else Loaded(d)
  }

  // ----- the sidebar filter -----

  predicate MatchesQuery(file: FileData, query: string) {
    Contains(ToLower(file.name), ToLower(query)) || Contains(ToLower(file.path), ToLower(query))
  }

  predicate MatchesRole(file: FileData, roleFilter: string) {
    roleFilter == "All" || file.role == roleFilter
  }

  /** `filteredFiles`: the project's files that match both the query and the role filter; [] without a project. */
  function FilteredFiles(projectData: Option<ProjectData>, query: string, roleFilter: string): (r: seq<FileData>)
    ensures projectData.None? ==> r == []
    ensures projectData.Some? ==> |r| <= |projectData.value.files|
  {
    match projectData
    case None => []
    case Some(p) => Keep(p.files, (f: FileData) => MatchesQuery(f, query) && MatchesRole(f, roleFilter))
  }

  /** The empty query is a substring of every name. */
  lemma EmptyQueryMatches(file: FileData)
    ensures MatchesQuery(file, "")
  {
    assert ToLower("") == "";
    assert OccursAt(ToLower(file.name), "", 0);
  }

  /** A file is listed exactly when it is one of the project's files and passes both tests. */
  lemma FilteredFilesMembership(p: ProjectData, query: string, roleFilter: string, file: FileData)
    ensures file in FilteredFiles(Some(p), query, roleFilter) <==>
      file in p.files && MatchesQuery(file, query) && MatchesRole(file, roleFilter)
  {
    var r := FilteredFiles(Some(p), query, roleFilter);
    if file in p.files && MatchesQuery(file, query) && MatchesRole(file, roleFilter) {
      var i :| 0 <= i < |p.files| && p.files[i] == file;
    }
  }

  /** With the empty query and 'All', every file is listed in its original order. */
  lemma UnfilteredListsAll(p: ProjectData)
    ensures FilteredFiles(Some(p), "", "All") == p.files
  {
    forall i | 0 <= i < |p.files| ensures MatchesQuery(p.files[i], "") && MatchesRole(p.files[i], "All") {
      EmptyQueryMatches(p.files[i]);
    }
    KeepAll(p.files, (f: FileData) => MatchesQuery(f, "") && MatchesRole(f, "All"));
  }

  /** The listed files keep the project's order. */
  lemma FilteredFilesSubsequence(p: ProjectData, query: string, roleFilter: string)
    ensures SubsequenceOf(FilteredFiles(Some(p), query, roleFilter), p.files)
  {
    KeepSubsequence(p.files, (f: FileData) => MatchesQuery(f, query) && MatchesRole(f, roleFilter));
  }

  // ----- the Markdown export -----

  function FileBlock(f: FileData): string {
    "### " + f.name + "\n" + "- **Role:** " + f.role + "\n" + "- **Path:** " + f.path + "\n" + "- **Summary:** " + f.summary + "\n"
  }

  function FileBlocks(files: seq<FileData>): (r: seq<string>)
    ensures |r| == |files| && forall i :: 0 <= i < |files| ==> r[i] == FileBlock(files[i])
  {
    seq(|files|, i requires 0 <= i < |files| => FileBlock(files[i]))
  }

  function ExportDocument(p: ProjectData): string {
    "# Project Summary" + "\n" + "\n" + p.summary + "\n" + "\n" + "## Files" + "\n" + "\n" + Join(FileBlocks(p.files), "\n")
  }

  /** `handleExportSummary`: nothing without project data, otherwise the Markdown document it downloads. */
  function ExportSummary(projectData: Option<ProjectData>): (doc: Option<string>)
    ensures doc.None? <==> projectData.None?
    ensures doc.Some? ==> StartsWith(doc.value, "# Project Summary")
  {
    match projectData
    case None => None
    case Some(p) =>
      var d := ExportDocument(p);
      assert d[..|"# Project Summary"|] == "# Project Summary";
      Some(d)
  }

  /** The lines of one file's block, with the blank line that separates it from the next. */
  function BlockLines(f: FileData): seq<string> {
    ["### " + f.name, "- **Role:** " + f.role, "- **Path:** " + f.path, "- **Summary:** " + f.summary, ""]
  }

  /** The lines of the file section: five per file, in the files' order. */
  function SectionLines(files: seq<FileData>): (r: seq<string>)
    ensures |r| == 5 * |files|
  {
    if files == [] then [] else BlockLines(files[0]) + SectionLines(files[1..])
  }

  function HeaderLines(summary: string): seq<string> {
    ["# Project Summary", "", summary, "", "## Files", ""]
  }

  predicate NoNewline(s: string) {
    forall i :: 0 <= i < |s| ==> s[i] != '\n'
  }

  predicate SingleLineFields(f: FileData) {
    NoNewline(f.name) && NoNewline(f.role) && NoNewline(f.path) && NoNewline(f.summary)
  }

  /** Four lines and a blank one, joined: each line followed by the separator. */
  lemma JoinFourLines(a: string, b: string, c: string, d: string, sep: string)
    ensures Join([a, b, c, d, ""], sep) == a + sep + (b + sep + (c + sep + (d + sep)))
  {
    assert [d, ""][1..] == [""];
    assert Join([d, ""], sep) == d + sep;
    assert [c, d, ""][1..] == [d, ""];
    assert Join([c, d, ""], sep) == c + sep + (d + sep);
    assert [b, c, d, ""][1..] == [c, d, ""];
    assert Join([b, c, d, ""], sep) == b + sep + (c + sep + (d + sep));
    assert [a, b, c, d, ""][1..] == [b, c, d, ""];
  }

  lemma BlockIsJoin(f: FileData)
    ensures FileBlock(f) == Join(BlockLines(f), "\n")
  {
    var heading := "### " + f.name;
    var role := "- **Role:** " + f.role;
    var path := "- **Path:** " + f.path;
    var summary := "- **Summary:** " + f.summary;
    JoinFourLines(heading, role, path, summary, "\n");
    assert FileBlock(f) == heading + "\n" + (role + "\n" + (path + "\n" + (summary + "\n")));
  }

  lemma {:induction false} SectionIsJoin(files: seq<FileData>)
    requires |files| >= 1
    ensures Join(FileBlocks(files), "\n") == Join(SectionLines(files), "\n")
  {
    BlockIsJoin(files[0]);
    if |files| == 1 {
      assert files[1..] == [];
      assert SectionLines(files) == BlockLines(files[0]) + [];
      assert BlockLines(files[0]) + [] == BlockLines(files[0]);
      assert FileBlocks(files) == [FileBlock(files[0])];
    } else {
      var blocks := FileBlocks(files);
      assert blocks[1..] == FileBlocks(files[1..]);
      SectionIsJoin(files[1..]);
      JoinAppend(BlockLines(files[0]), SectionLines(files[1..]), "\n");
    }
  }

  lemma {:induction false} SectionLinesFree(files: seq<FileData>)
    requires forall i :: 0 <= i < |files| ==> SingleLineFields(files[i])
    ensures LinesFree(SectionLines(files))
  {
    if files != [] {
      SectionLinesFree(files[1..]);
      LinesFreeAppend(BlockLines(files[0]), SectionLines(files[1..]));
    }
  }

  /**
   * The exported document, read line by line: the header, then for each file
   * of the unfiltered list, in order, its "### name" heading, its role, path
   * and summary lines and a blank line; a project without files ends with one
   * more empty line after the header instead (fields spanning several lines
   * would add lines of their own).
   */
  lemma ExportLines(p: ProjectData)
    requires NoNewline(p.summary)
    requires forall i :: 0 <= i < |p.files| ==> SingleLineFields(p.files[i])
    ensures Split(ExportDocument(p), '\n') == HeaderLines(p.summary) + (if p.files == [] then [""] else SectionLines(p.files))
  {
    var h := HeaderLines(p.summary);
    var body := if p.files == [] then [""] else SectionLines(p.files);
    HeaderIsJoin(p.summary);
    HeaderLinesFree(p.summary);
    if p.files == [] {
      JoinSnoc(h, "", "\n");
      assert ExportDocument(p) == Join(h + body, "\n");
    } else {
      SectionIsJoin(p.files);
      JoinAppend(h, body, "\n");
      assert ExportDocument(p) == Join(h + body, "\n");
      SectionLinesFree(p.files);
    }
    LinesFreeAppend(h, body);
    SplitJoin(h + body, '\n');
  }

  lemma HeaderIsJoin(summary: string)
    ensures Join(HeaderLines(summary), "\n") + "\n" ==
      "# Project Summary" + "\n" + "\n" + summary + "\n" + "\n" + "## Files" + "\n" + "\n"
  {
    JoinCons("", [""], "\n");
    JoinCons("## Files", ["", ""], "\n");
    JoinCons("", ["## Files", ""], "\n");
    JoinCons(summary, ["", "## Files", ""], "\n");
    JoinCons("", [summary, "", "## Files", ""], "\n");
    JoinCons("# Project Summary", ["", summary, "", "## Files", ""], "\n");
  }

  predicate LinesFree(lines: seq<string>) {
    forall k, i :: 0 <= k < |lines| && 0 <= i < |lines[k]| ==> lines[k][i] != '\n'
  }

  lemma HeaderLinesFree(summary: string)
    requires NoNewline(summary)
    ensures LinesFree(HeaderLines(summary))
  {
    var h := HeaderLines(summary);
    forall k, i | 0 <= k < |h| && 0 <= i < |h[k]| ensures h[k][i] != '\n' {
      if k == 0 {
        assert h[k] == "# Project Summary";
      } else if k == 4 {
        assert h[k] == "## Files";
      }
    }
  }

  lemma LinesFreeAppend(a: seq<string>, b: seq<string>)
    requires LinesFree(a) && LinesFree(b)
    ensures LinesFree(a + b)
  {
    forall k, i | 0 <= k < |a + b| && 0 <= i < |(a + b)[k]| ensures (a + b)[k][i] != '\n' {
      if k >= |a| {
        assert (a + b)[k] == b[k - |a|];
      }
    }
  }

  /** Heading `i` of the file section names file `i`. */
  lemma {:induction false} SectionHeading(files: seq<FileData>, i: nat)
    requires i < |files|
    ensures SectionLines(files)[5 * i] == "### " + files[i].name
  {
    if i > 0 {
      SectionHeading(files[1..], i - 1);
    }
  }

  /** The state hooks of the page. */
  class DashboardState {
    var projectData: Option<ProjectData>
    var selectedFile: Option<FileData>
    var searchQuery: string
    var roleFilter: string
    var activeTab: Tab
    var loading: bool
    var error: Option<string>
    var repoUrl: string
    var hasAnalyzed: bool

    constructor ()
      ensures projectData == None && selectedFile == None
      ensures searchQuery == "" && roleFilter == "All" && activeTab == Timeline
      ensures !loading && error == None && repoUrl == "" && !hasAnalyzed
    {
      projectData := None;
      selectedFile := None;
      searchQuery := "";
      roleFilter := "All";
      activeTab := Timeline;
      loading := false;
      error := None;
      repoUrl := "";
      hasAnalyzed := false;
    }

    /** Once a repository has been analysed there is a project and no error. */
    predicate Consistent()
      reads this
    {
      hasAnalyzed ==> projectData.Some? && error == None
    }

    /** The rendering chosen by the chain of early returns. */
    function CurrentScreen(): (s: Screen)
      reads this
      ensures !hasAnalyzed ==> s == Landing
      ensures hasAnalyzed && loading ==> s == Analyzing
      ensures s.ErrorScreen? <==> hasAnalyzed && !loading && error.Some? && error.value != ""
      ensures Consistent() ==> !s.ErrorScreen?
    {
      if !hasAnalyzed then Landing
      else if loading then Analyzing
      else if error.Some? && error.value != "" then ErrorScreen(error.value)
      else Workspace
    }

    /** `fetchProjectData`, with the response standing for the request's result. */
    method FetchProjectData(response: Response)
      modifies this
      ensures !loading
      ensures Attempt(response).Failed? ==>
        error == Some(Attempt(response).message) && projectData == old(projectData) && hasAnalyzed == old(hasAnalyzed)
      ensures Attempt(response).Loaded? ==>
        error == None && projectData == Some(Attempt(response).data) && hasAnalyzed
      ensures selectedFile == old(selectedFile) && searchQuery == old(searchQuery) && roleFilter == old(roleFilter)
      ensures activeTab == old(activeTab) && repoUrl == old(repoUrl)
    {
      loading := true;
      error := None;
      match response {
        case Threw(m) =>
          error := Some(if m.Some? then m.value else UnknownFailureMessage);
        case NotOk =>
          error := Some(NotOkMessage);
        case Body(e, d) =>
          if e != "" {
            error := Some(e);
          } else {
            projectData := Some(d);
            hasAnalyzed := true;
          }
      }
      loading := false;
    }

    /**
     * `handleAnalyzeRepo`: fetches only when the URL is not blank, passing the
     * trimmed URL, which is returned; None when nothing is fetched.
     */
    method HandleAnalyzeRepo(response: Response) returns (requested: Option<string>)
      modifies this
      ensures requested == if AllSpace(old(repoUrl)) then None else Some(Trim(old(repoUrl)))
      ensures requested.None? ==>
        && projectData == old(projectData) && error == old(error) && loading == old(loading)
        && hasAnalyzed == old(hasAnalyzed)
      ensures requested.Some? ==> !loading
      ensures requested.Some? && Attempt(response).Failed? ==>
        error == Some(Attempt(response).message) && projectData == old(projectData) && hasAnalyzed == old(hasAnalyzed)
      ensures requested.Some? && Attempt(response).Loaded? ==>
        error == None && projectData == Some(Attempt(response).data) && hasAnalyzed
      ensures selectedFile == old(selectedFile) && searchQuery == old(searchQuery) && roleFilter == old(roleFilter)
      ensures activeTab == old(activeTab) && repoUrl == old(repoUrl)
      ensures !old(hasAnalyzed) ==> Consistent()
    {
      var blank := IsBlank(repoUrl);
      if !blank {
        var trimmed := Trim(repoUrl);
        FetchProjectData(response);
        requested := Some(trimmed);
      } else {
        requested := None;
      }
    }

    /** The list the sidebar and the timeline receive. */
    function VisibleFiles(): (files: seq<FileData>)
      reads this
      ensures files == FilteredFiles(projectData, searchQuery, roleFilter)
      ensures projectData.None? ==> files == []
      ensures projectData.Some? ==> SubsequenceOf(files, projectData.value.files)
    {
      match projectData
      case None => []
      case Some(p) =>
        FilteredFilesSubsequence(p, searchQuery, roleFilter);
        FilteredFiles(projectData, searchQuery, roleFilter)
    }

    /** `handleFileSelect`: selects the file and opens its details, whatever was selected before. */
    method HandleFileSelect(file: FileData)
      modifies this`selectedFile, this`activeTab
      ensures selectedFile == Some(file) && activeTab == Details
    {
      selectedFile := Some(file);
      activeTab := Details;
    }

    /** A tab button. */
    method SetTab(tab: Tab)
      modifies this`activeTab
      ensures activeTab == tab
    {
      activeTab := tab;
    }

    /** "New Repo" and "Try Another Repository": back to the landing page, keeping everything else. */
    method NewRepo()
      modifies this`hasAnalyzed
      ensures !hasAnalyzed && Consistent()
    {
      hasAnalyzed := false;
    }
  }
}
