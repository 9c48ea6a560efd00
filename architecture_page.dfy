/**
 * The Architecture page: fetches the architecture report for a repository
 * and shows one card per key file, with a category badge and, for the one
 * selected card, its key functions and first dependencies.
 */
module ArchitecturePage {
  import opened Wrappers
  import opened Strings
  import opened ViewModel
  import FileExplorer

  type FileRole = FileExplorer.FileRole

  datatype ArchitectureStats = ArchitectureStats(
    totalFiles: nat,
    frontendFiles: nat,
    backendFiles: nat,
    totalImports: nat,
    totalExports: nat)

  /** The fields of the report the page reads; `keyFiles` in `Object.entries` order. */
  datatype ArchitectureData = ArchitectureData(
    repo: string,
    projectSummary: string,
    keyFeatures: seq<string>,
    keyFiles: seq<(string, FileRole)>,
    mermaidDiagram: string,
    stats: ArchitectureStats)

  /** `fetch` or `.json()` threw, or a body arrived whose `error` is "" when absent or empty. */
  datatype Response = Threw | Body(error: string, data: ArchitectureData)

  const EmptyUrlMessage := "Please enter a repository URL"
  const FailureMessage := "Failed to analyze repository architecture"

  /** The four categories with a badge of their own; every other one is grey. */
  function CategoryBadge(category: string): (c: string)
    ensures category == "UI Component" ==> c == "bg-green-100 text-green-800"
    ensures category == "API Endpoint" ==> c == "bg-blue-100 text-blue-800"
    ensures category == "Data Model" ==> c == "bg-purple-100 text-purple-800"
    ensures category == "Business Logic" ==> c == "bg-orange-100 text-orange-800"
    ensures c == FileExplorer.DefaultBadge <==>
      category !in {"UI Component", "API Endpoint", "Data Model", "Business Logic"}
  {
    if category == "UI Component" then "bg-green-100 text-green-800"
    else if category == "API Endpoint" then "bg-blue-100 text-blue-800"
    else if category == "Data Model" then "bg-purple-100 text-purple-800"
    else if category == "Business Logic" then "bg-orange-100 text-orange-800"
    else FileExplorer.DefaultBadge
  }

  /**
   * The badge agrees with the File Explorer's table on the four categories it
   * knows, and is grey for the four the File Explorer colours in addition.
   */
  lemma BadgeAgreesWithExplorer(category: string)
    ensures category in {"UI Component", "API Endpoint", "Data Model", "Business Logic"} ==>
      CategoryBadge(category) == FileExplorer.CategoryColor(category)
    ensures category in {"Frontend Utility", "Backend Utility", "Configuration", "Test"} ==>
      CategoryBadge(category) == FileExplorer.DefaultBadge != FileExplorer.CategoryColor(category)
  {
  }

  /** The dependency list of an open card: at most three, then "+n more". */
  function DependencyPreview(dependencies: seq<string>): (p: Preview<string>)
    ensures |p.shown| == if |dependencies| < 3 then |dependencies| else 3
    ensures p.shown == dependencies[..|p.shown|]
    ensures p.hidden.Some? <==> |dependencies| > 3
    ensures p.hidden.Some? ==> p.hidden.value == |dependencies| - 3
  {
    PreviewOf(dependencies, 3)
  }

  /** The part of a card shown only when it is selected; each list only when non-empty. */
  datatype Details = Details(keyFunctions: Option<seq<string>>, dependencies: Option<Preview<string>>)

  datatype Card = Card(path: string, category: string, badge: string, role: string, selected: bool, details: Option<Details>)

  /** `renderFileCard`. */
  function RenderCard(path: string, fileRole: FileRole, selectedFile: Option<string>): (c: Card)
    ensures c.path == path && c.category == fileRole.category && c.role == fileRole.role
    ensures c.badge == CategoryBadge(fileRole.category)
    ensures c.selected <==> selectedFile == Some(path)
    ensures c.details.Some? <==> c.selected
    ensures c.details.Some? ==>
      && (c.details.value.keyFunctions.Some? <==> |fileRole.keyFunctions| > 0)
      && (c.details.value.keyFunctions.Some? ==> c.details.value.keyFunctions.value == fileRole.keyFunctions)
      && (c.details.value.dependencies.Some? <==> |fileRole.dependencies| > 0)
      && (c.details.value.dependencies.Some? ==> c.details.value.dependencies.value == DependencyPreview(fileRole.dependencies))
  {
    var isSelected := selectedFile == Some(path);
    var details :=
      if isSelected then
        Some(Details(
          if |fileRole.keyFunctions| > 0 then Some(fileRole.keyFunctions) else None,
          if |fileRole.dependencies| > 0 then Some(DependencyPreview(fileRole.dependencies)) else None))
      else None;
    Card(path, fileRole.category, CategoryBadge(fileRole.category), fileRole.role, isSelected, details)
  }

  /** The key-files grid: one card per entry, in order. */
  function RenderCards(keyFiles: seq<(string, FileRole)>, selectedFile: Option<string>): (cards: seq<Card>)
    ensures |cards| == |keyFiles|
    ensures forall i :: 0 <= i < |keyFiles| ==> cards[i] == RenderCard(keyFiles[i].0, keyFiles[i].1, selectedFile)
  {
    seq(|keyFiles|, i requires 0 <= i < |keyFiles| => RenderCard(keyFiles[i].0, keyFiles[i].1, selectedFile))
  }

  predicate DistinctPaths(keyFiles: seq<(string, FileRole)>) {
    forall i, j :: 0 <= i < j < |keyFiles| ==> keyFiles[i].0 != keyFiles[j].0
  }

  function SelectedCount(cards: seq<Card>): nat {
    if cards == [] then 0 else (if cards[0].selected then 1 else 0) + SelectedCount(cards[1..])
  }

  predicate HasPath(keyFiles: seq<(string, FileRole)>, path: string) {
    exists i :: 0 <= i < |keyFiles| && keyFiles[i].0 == path
  }

  /**
   * Object keys are distinct, so exactly one card is open when the selected
   * path is a key, and none otherwise.
   */
  lemma {:induction false} OneCardOpen(keyFiles: seq<(string, FileRole)>, selectedFile: Option<string>)
    requires DistinctPaths(keyFiles)
    ensures SelectedCount(RenderCards(keyFiles, selectedFile)) ==
      if selectedFile.Some? && HasPath(keyFiles, selectedFile.value) then 1 else 0
  {
    if keyFiles != [] {
      var cards := RenderCards(keyFiles, selectedFile);
      var rest := keyFiles[1..];
      assert cards[1..] == RenderCards(rest, selectedFile);
      assert cards[0].selected <==> selectedFile == Some(keyFiles[0].0);
      DistinctRest(keyFiles);
      OneCardOpen(rest, selectedFile);
      if selectedFile.Some? {
        HasPathCons(keyFiles, selectedFile.value);
      }
    }
  }

  /** A path is among the entries when it is the first one's or among the rest. */
  lemma HasPathCons(keyFiles: seq<(string, FileRole)>, path: string)
    requires keyFiles != []
    ensures HasPath(keyFiles, path) <==> keyFiles[0].0 == path || HasPath(keyFiles[1..], path)
  {
    var rest := keyFiles[1..];
    if HasPath(keyFiles, path) && keyFiles[0].0 != path {
      var i :| 0 <= i < |keyFiles| && keyFiles[i].0 == path;
      assert rest[i - 1].0 == path;
    }
    if HasPath(rest, path) {
      var i :| 0 <= i < |rest| && rest[i].0 == path;
      assert keyFiles[i + 1].0 == path;
    }
  }

  /** Distinct paths stay distinct without the first entry, and the first path is not among the rest. */
  lemma DistinctRest(keyFiles: seq<(string, FileRole)>)
    requires keyFiles != [] && DistinctPaths(keyFiles)
    ensures DistinctPaths(keyFiles[1..]) && !HasPath(keyFiles[1..], keyFiles[0].0)
  {
    var rest := keyFiles[1..];
    forall i, j | 0 <= i < j < |rest| ensures rest[i].0 != rest[j].0 {
      assert rest[i] == keyFiles[i + 1] && rest[j] == keyFiles[j + 1];
    }
    forall i | 0 <= i < |rest| ensures rest[i].0 != keyFiles[0].0 {
      assert rest[i] == keyFiles[i + 1];
    }
  }

  /** The state hooks of the page. */
  class ArchitectureState {
    var repoUrl: string
    var architectureData: Option<ArchitectureData>
    var loading: bool
    var error: Option<string>
    var selectedFile: Option<string>

    constructor ()
      ensures repoUrl == "" && architectureData == None && !loading && error == None && selectedFile == None
    {
      repoUrl := "";
      architectureData := None;
      loading := false;
      error := None;
      selectedFile := None;
    }

    /**
     * `analyzeArchitecture`, with the response standing for the request's
     * result; `requested` is the URL as typed, or None when nothing is fetched.
     */
    method AnalyzeArchitecture(response: Response) returns (requested: Option<string>)
      modifies this
      ensures requested == if AllSpace(old(repoUrl)) then None else Some(old(repoUrl))
      ensures requested.None? ==>
        error == Some(EmptyUrlMessage) && loading == old(loading) && architectureData == old(architectureData)
      ensures requested.Some? ==> !loading
      ensures requested.Some? && response.Threw? ==>
        error == Some(FailureMessage) && architectureData == old(architectureData)
      ensures requested.Some? && response.Body? && response.error != "" ==>
        error == Some(response.error) && architectureData == old(architectureData)
      ensures requested.Some? && response.Body? && response.error == "" ==>
        error == None && architectureData == Some(response.data)
      ensures repoUrl == old(repoUrl) && selectedFile == old(selectedFile)
    {
      var blank := IsBlank(repoUrl);
      if blank {
        error := Some(EmptyUrlMessage);
        return None;
      }
      requested := Some(repoUrl);
      loading := true;
      error := None;
      match response {
        case Threw =>
          error := Some(FailureMessage);
        case Body(e, d) =>
          if e != "" {
            error := Some(e);
          } else {
            architectureData := Some(d);
          }
      }
      loading := false;
    }

    /** A card's click handler. */
    method ClickCard(path: string)
      modifies this`selectedFile
      ensures selectedFile == FileExplorer.Toggle(old(selectedFile), path)
    {
      var isSelected := selectedFile == Some(path);
      selectedFile := if isSelected then None else Some(path);
    }

    /** The cards on screen: none before a report is loaded. */
    function Cards(): (cards: seq<Card>)
      reads this
      ensures architectureData.None? ==> cards == []
      ensures architectureData.Some? ==> |cards| == |architectureData.value.keyFiles|
      ensures architectureData.Some? ==> cards == RenderCards(architectureData.value.keyFiles, selectedFile)
    {
      match architectureData
      case None => []
      case Some(d) => RenderCards(d.keyFiles, selectedFile)
    }
  }
}
