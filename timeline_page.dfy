/**
 * The Timeline page: fetches the evolution report of a repository and turns
 * each tracked file's history into the per-file view model.
 */
module TimelinePage {
  import opened Wrappers
  import opened Strings
  import opened ViewModel
  import opened Evolution

  /** The report as the page reads it; `fileEvolution` in `Object.entries` order. */
  datatype FileEvolutionResponse = FileEvolutionResponse(
    repo: string,
    owner: string,
    repoName: string,
    totalFilesTracked: nat,
    fileEvolution: seq<(string, seq<ChangeLog>)>,
    lifecycleStats: map<string, LifecycleStats>)

  /**
   * How `fetch` and `.json()` end: an exception (`Some(message)` when it is an
   * `Error`), a response that is not ok with its status, or a parsed body
   * whose `error` is "" when absent or empty.
   */
  datatype Response = Threw(message: Option<string>) | NotOk(status: nat) | Body(error: string, data: FileEvolutionResponse)

  const UnknownFailureMessage := "An error occurred"

  function StatusMessage(status: nat): string {
    "HTTP error! status: " + NatToString(status)
  }

  datatype Outcome = Failed(message: string) | Loaded(data: FileEvolutionResponse)

  /** What one call of `fetchFileEvolution` with a non-empty URL ends with. */
  function Attempt(response: Response): (o: Outcome)
    ensures response.NotOk? ==> o == Failed(StatusMessage(response.status))
    ensures response.Threw? ==> o == Failed(response.message.GetOr(UnknownFailureMessage))
    ensures response.Body? && response.error != "" ==> o == Failed(response.error)
    ensures o.Loaded? <==> response.Body? && response.error == ""
    ensures o.Loaded? ==> o.data == response.data
  {
    match response
    case Threw(m) => Failed(m.GetOr(UnknownFailureMessage))
    case NotOk(status) => Failed(StatusMessage(status))
    case Body(e, d) => if e != "" then Failed(e) else Loaded(d)
  }

  /** The status message always carries the status in decimal. */
  lemma StatusMessageParts(status: nat)
    ensures StartsWith(StatusMessage(status), "HTTP error! status: ")
    ensures var digits := StatusMessage(status)[|"HTTP error! status: "|..];
      |digits| >= 1 && forall i :: 0 <= i < |digits| ==> IsDigit(digits[i])
  {
    var m := StatusMessage(status);
    assert m[..|"HTTP error! status: "|] == "HTTP error! status: ";
    assert m[|"HTTP error! status: "|..] == NatToString(status);
  }

  // ----- transformDataForFileTimeline -----

  /** `filename.split('/').pop() || filename`. */
  function DisplayName(filename: string): (name: string)
    ensures EndsWith(filename, name)
  {
    LastSegmentSuffix(filename, '/');
    var last := LastSegment(filename, '/');
    if last != "" then last else filename
  }

  /** A name without '/' is shown whole. */
  lemma DisplayNameNoSlash(filename: string)
    requires forall i :: 0 <= i < |filename| ==> filename[i] != '/'
    ensures DisplayName(filename) == filename
  {
    SplitNoSep(filename, '/');
  }

  /** A path ending in '/' has an empty last segment, so it is shown whole. */
  lemma DisplayNameTrailingSlash(filename: string)
    requires filename != "" && filename[|filename| - 1] == '/'
    ensures DisplayName(filename) == filename
  {
    LastSegmentSuffix(filename, '/');
  }

  /** Otherwise the name is the non-empty text after the last '/'. */
  lemma DisplayNameBasename(filename: string, k: int)
    requires 0 <= k < |filename| - 1 && filename[k] == '/' && filename[|filename| - 1] != '/'
    ensures var name := DisplayName(filename);
      && name != "" && |name| < |filename|
      && filename[|filename| - |name| - 1] == '/'
      && forall i :: 0 <= i < |name| ==> name[i] != '/'
  {
    LastSegmentSuffix(filename, '/');
    SplitHasSep(filename, '/', k);
  }

  function ChangesText(c: ChangeLog): string {
    c.changeType + " (+" + IntToString(c.additions) + ", -" + IntToString(c.deletions) + ")"
  }

  function CommitViews(history: seq<ChangeLog>): (r: seq<CommitView>)
    ensures |r| == |history|
    ensures forall i :: 0 <= i < |history| ==>
      r[i] == CommitView(history[i].commitSha, history[i].timestamp, history[i].summary, ChangesText(history[i]))
  {
    seq(|history|, i requires 0 <= i < |history| =>
      CommitView(history[i].commitSha, history[i].timestamp, history[i].summary, ChangesText(history[i])))
  }

  /** `lifecycle_stats[filename]?.total_additions || 0`, and the same for deletions. */
  function StatsTotals(stats: map<string, LifecycleStats>, filename: string): (t: (int, int))
    ensures filename !in stats ==> t == (0, 0)
    ensures filename in stats ==> t == (stats[filename].totalAdditions, stats[filename].totalDeletions)
  {
    if filename in stats then (stats[filename].totalAdditions, stats[filename].totalDeletions) else (0, 0)
  }

  function SummaryText(commits: nat, additions: int, deletions: int): string {
    "File with " + NatToString(commits) + " commits, " + IntToString(additions) + " additions, " + IntToString(deletions) + " deletions"
  }

  function TimelineEntry(filename: string, history: seq<ChangeLog>, stats: map<string, LifecycleStats>): (f: FileData)
    ensures f.name == DisplayName(filename) && f.path == filename
    ensures f.role == "File" && f.connections == []
    ensures f.commitHistory == CommitViews(history)
    ensures f.summary == SummaryText(|history|, StatsTotals(stats, filename).0, StatsTotals(stats, filename).1)
  {
    var totals := StatsTotals(stats, filename);
    FileData(DisplayName(filename), filename, "File", [], CommitViews(history), SummaryText(|history|, totals.0, totals.1))
  }

  /** One entry per tracked file, in key order; [] without data. */
  function TransformForTimeline(data: Option<FileEvolutionResponse>): (files: seq<FileData>)
    ensures data.None? ==> files == []
    ensures data.Some? ==> |files| == |data.value.fileEvolution|
    ensures data.Some? ==> forall i :: 0 <= i < |files| ==>
      files[i] == TimelineEntry(data.value.fileEvolution[i].0, data.value.fileEvolution[i].1, data.value.lifecycleStats)
  {
    match data
    case None => []
    case Some(d) =>
      seq(|d.fileEvolution|, i requires 0 <= i < |d.fileEvolution| =>
        TimelineEntry(d.fileEvolution[i].0, d.fileEvolution[i].1, d.lifecycleStats))
  }

  /** Each entry's history has the length and order of the file's change list. */
  lemma TimelineKeepsHistory(d: FileEvolutionResponse, i: int, j: int)
    requires 0 <= i < |d.fileEvolution| && 0 <= j < |d.fileEvolution[i].1|
    ensures var entry := TransformForTimeline(Some(d))[i];
      && |entry.commitHistory| == |d.fileEvolution[i].1|
      && entry.commitHistory[j].hash == d.fileEvolution[i].1[j].commitSha
      && entry.commitHistory[j].message == d.fileEvolution[i].1[j].summary
  {
  }

  /** A file without lifecycle statistics is summarised with zero totals. */
  lemma MissingStatsSummary(d: FileEvolutionResponse, i: int)
    requires 0 <= i < |d.fileEvolution| && d.fileEvolution[i].0 !in d.lifecycleStats
    ensures TransformForTimeline(Some(d))[i].summary == SummaryText(|d.fileEvolution[i].1|, 0, 0)
  {
  }

  /** The page's content below the form. */
  datatype Screen = Spinner | Page(error: Option<string>, report: Option<FileEvolutionResponse>, readyPrompt: bool)

  /** The state hooks of the page. */
  class TimelineState {
    var data: Option<FileEvolutionResponse>
    var loading: bool
    var error: Option<string>
    var inputUrl: string

    /** `repoUrl` is the component's optional property. */
    constructor (repoUrl: Option<string>)
      ensures data == None && !loading && error == None
      ensures inputUrl == repoUrl.GetOr("")
    {
      data := None;
      loading := false;
      error := None;
      inputUrl := repoUrl.GetOr("");
    }

    /** `fetchFileEvolution`: nothing happens for the empty URL; `requested` is the URL fetched. */
    method FetchFileEvolution(url: string, response: Response) returns (requested: Option<string>)
      modifies this
      ensures url == "" ==> requested == None && data == old(data) && loading == old(loading) && error == old(error)
      ensures url != "" ==> requested == Some(url) && !loading
      ensures url != "" && Attempt(response).Failed? ==> error == Some(Attempt(response).message) && data == old(data)
      ensures url != "" && Attempt(response).Loaded? ==> error == None && data == Some(Attempt(response).data)
      ensures inputUrl == old(inputUrl)
    {
      if url == "" {
        return None;
      }
      requested := Some(url);
      loading := true;
      error := None;
      match response {
        case Threw(m) =>
          error := Some(if m.Some? then m.value else UnknownFailureMessage);
        case NotOk(status) =>
          error := Some(StatusMessage(status));
        case Body(e, d) =>
          if e != "" {
            error := Some(e);
          } else {
            data := Some(d);
          }
      }
      loading := false;
    }

    /**
     * The effect run after mounting and on every change of the `repoUrl`
     * property: a present, non-empty URL is fetched; otherwise nothing happens.
     */
    method OnRepoUrl(repoUrl: Option<string>, response: Response) returns (requested: Option<string>)
      modifies this
      ensures requested == if repoUrl.Some? && repoUrl.value != "" then repoUrl else None
      ensures requested.None? ==> data == old(data) && loading == old(loading) && error == old(error)
      ensures requested.Some? && Attempt(response).Failed? ==> error == Some(Attempt(response).message) && data == old(data) && !loading
      ensures requested.Some? && Attempt(response).Loaded? ==> error == None && data == Some(Attempt(response).data) && !loading
      ensures inputUrl == old(inputUrl)
    {
      requested := None;
      if repoUrl.Some? {
        requested := FetchFileEvolution(repoUrl.value, response);
      }
    }

    /** `handleSubmit`: fetches the typed URL as it is. */
    method HandleSubmit(response: Response) returns (requested: Option<string>)
      modifies this
      ensures requested == if old(inputUrl) == "" then None else Some(old(inputUrl))
      ensures old(inputUrl) == "" ==> data == old(data) && loading == old(loading) && error == old(error)
      ensures old(inputUrl) != "" && Attempt(response).Failed? ==> error == Some(Attempt(response).message) && data == old(data) && !loading
      ensures old(inputUrl) != "" && Attempt(response).Loaded? ==> error == None && data == Some(Attempt(response).data) && !loading
      ensures inputUrl == old(inputUrl)
    {
      requested := FetchFileEvolution(inputUrl, response);
    }

    /** What is rendered: the spinner alone while loading; the ready prompt only with no data, no error. */
    function CurrentScreen(): (s: Screen)
      reads this
      ensures s.Spinner? <==> loading
      ensures s.Page? ==> s.report == data
      ensures s.Page? ==> (s.error.Some? <==> error.Some? && error.value != "")
      ensures s.Page? ==> (s.readyPrompt <==> data.None? && (error.None? || error.value == ""))
    {
      if loading then Spinner
      else
        var shownError := if error.Some? && error.value != "" then error else None;
        Page(shownError, data, data.None? && shownError.None?)
    }
  }
}
