/**
 * The details panel for one file: header with icon, role badge and a
 * "Copy Details" button, and three tabs (overview, history, connections).
 * Its role-colour and icon tables are those of the file list.
 */
module FileDetailView {
  import opened Wrappers
  import opened Strings
  import opened ViewModel
  import FileListSidebar

  /** The text handed to the clipboard. */
  function CopyText(file: FileData): string {
    file.name + "\n" + "Role: " + file.role + "\n" + "Path: " + file.path + "\n" + "Summary: " + file.summary
  }

  predicate NoNewline(s: string) {
    forall i :: 0 <= i < |s| ==> s[i] != '\n'
  }

  /** The copied text has four lines: the name, then the labelled role, path and summary. */
  lemma CopyTextLines(file: FileData)
    requires NoNewline(file.name) && NoNewline(file.role) && NoNewline(file.path) && NoNewline(file.summary)
    ensures Split(CopyText(file), '\n') == [file.name, "Role: " + file.role, "Path: " + file.path, "Summary: " + file.summary]
  {
    var lines := [file.name, "Role: " + file.role, "Path: " + file.path, "Summary: " + file.summary];
    var summary := "Summary: " + file.summary;
    var path := "Path: " + file.path;
    var role := "Role: " + file.role;
    JoinCons(path, [summary], "\n");
    JoinCons(role, [path, summary], "\n");
    JoinCons(file.name, [role, path, summary], "\n");
    assert CopyText(file) == Join(lines, "\n");
    forall k, i | 0 <= k < |lines| && 0 <= i < |lines[k]| ensures lines[k][i] != '\n' {
      if k == 1 {
        assert i < 6 ==> lines[k][i] == "Role: "[i];
        assert i >= 6 ==> lines[k][i] == file.role[i - 6];
      } else if k == 2 {
        assert i < 6 ==> lines[k][i] == "Path: "[i];
        assert i >= 6 ==> lines[k][i] == file.path[i - 6];
      } else if k == 3 {
        assert i < 9 ==> lines[k][i] == "Summary: "[i];
        assert i >= 9 ==> lines[k][i] == file.summary[i - 9];
      }
    }
    SplitJoin(lines, '\n');
  }

  /** `file.name.split('.').pop()?.toUpperCase() || 'Unknown'`. */
  function FileType(name: string): (t: string)
    ensures t == "Unknown" <==> LastSegment(name, '.') == ""
    ensures t != "Unknown" ==> t == ToUpper(LastSegment(name, '.'))
  {
    var ext := ToUpper(LastSegment(name, '.'));
    if ext != "" then
      assert ext != "Unknown" by { if |ext| == 7 { assert ext[1] != "Unknown"[1]; } }
      ext
    else "Unknown"
  }

  /** The type is 'Unknown' exactly for an empty name or one ending in '.'. */
  lemma UnknownTypeIff(name: string)
    ensures FileType(name) == "Unknown" <==> (name == "" || name[|name| - 1] == '.')
  {
    LastSegmentSuffix(name, '.');
  }

  datatype ActivityItem = ActivityItem(message: string, date: string, shortHash: string)

  /** The overview's "Recent Activity": the first three commits at most, hashes cut to eight characters. */
  function RecentActivity(history: seq<CommitView>): (items: seq<ActivityItem>)
    ensures |items| == if |history| < 3 then |history| else 3
    ensures forall i :: 0 <= i < |items| ==>
      && items[i].message == history[i].message && items[i].date == history[i].date
      && items[i].shortHash == Prefix(history[i].hash, 8)
  {
    var recent := Prefix(history, 3);
    seq(|recent|, i requires 0 <= i < |recent| => ActivityItem(recent[i].message, recent[i].date, Prefix(recent[i].hash, 8)))
  }

  /** Each short hash is the start of the full hash, eight characters when the hash is that long. */
  lemma ShortHashIsPrefix(history: seq<CommitView>, i: int)
    requires 0 <= i < |RecentActivity(history)|
    ensures StartsWith(history[i].hash, RecentActivity(history)[i].shortHash)
    ensures |history[i].hash| >= 8 ==> |RecentActivity(history)[i].shortHash| == 8
  {
  }

  datatype DetailTab = Overview | History | Connections

  datatype TabLabels = TabLabels(overview: string, history: string, connections: string)

  /** The tab buttons carry the lengths of the commit-history and connection lists. */
  function Labels(file: FileData): (l: TabLabels)
    ensures l.overview == "Overview"
    ensures l.history == "Commit History (" + NatToString(|file.commitHistory|) + ")"
    ensures l.connections == "Connections (" + NatToString(|file.connections|) + ")"
  {
    TabLabels("Overview", "Commit History (" + NatToString(|file.commitHistory|) + ")",
      "Connections (" + NatToString(|file.connections|) + ")")
  }

  /** A commit of the history tab; its changes line only when the text is non-empty. */
  datatype HistoryItem = HistoryItem(message: string, date: string, hash: string, changes: Option<string>)

  datatype Header = Header(icon: string, name: string, path: string, roleBadge: string, role: string)

  function RenderHeader(file: FileData): (h: Header)
    ensures h.icon == FileListSidebar.FileIcon(file.name) && h.roleBadge == FileListSidebar.RoleColor(file.role)
    ensures h.name == file.name && h.path == file.path && h.role == file.role
  {
    Header(FileListSidebar.FileIcon(file.name), file.name, file.path, FileListSidebar.RoleColor(file.role), file.role)
  }

  function HistoryItems(history: seq<CommitView>): (items: seq<HistoryItem>)
    ensures |items| == |history|
    ensures forall i :: 0 <= i < |history| ==>
      && items[i].hash == history[i].hash && items[i].message == history[i].message && items[i].date == history[i].date
      && (items[i].changes.Some? <==> history[i].changes != "")
      && (items[i].changes.Some? ==> items[i].changes.value == history[i].changes)
  {
    seq(|history|, i requires 0 <= i < |history| =>
      HistoryItem(history[i].message, history[i].date, history[i].hash,
        if history[i].changes != "" then Some(history[i].changes) else None))
  }

  /** The open tab's body; None for an empty list, where the "No ..." text is shown. */
  datatype Body =
    | OverviewBody(summary: string, fileType: string, commitCount: nat, connectionCount: nat, recent: Option<seq<ActivityItem>>)
    | HistoryBody(commits: Option<seq<HistoryItem>>)
    | ConnectionsBody(paths: Option<seq<string>>)

  function RenderBody(file: FileData, tab: DetailTab): (b: Body)
    ensures tab == Overview ==>
      && b.OverviewBody? && b.summary == file.summary && b.fileType == FileType(file.name)
      && b.commitCount == |file.commitHistory| && b.connectionCount == |file.connections|
      && (b.recent.None? <==> file.commitHistory == [])
      && (b.recent.Some? ==> b.recent.value == RecentActivity(file.commitHistory))
    ensures tab == History ==>
      && b.HistoryBody? && (b.commits.None? <==> file.commitHistory == [])
      && (b.commits.Some? ==> b.commits.value == HistoryItems(file.commitHistory))
    ensures tab == Connections ==> b == ConnectionsBody(if file.connections == [] then None else Some(file.connections))
  {
    match tab
    case Overview =>
      OverviewBody(file.summary, FileType(file.name), |file.commitHistory|, |file.connections|,
        if |file.commitHistory| > 0 then Some(RecentActivity(file.commitHistory)) else None)
    case History =>
      HistoryBody(if |file.commitHistory| > 0 then Some(HistoryItems(file.commitHistory)) else None)
    case Connections =>
      ConnectionsBody(if |file.connections| > 0 then Some(file.connections) else None)
  }

  /** The panel's one state hook. */
  class FileDetailViewState {
    var activeTab: DetailTab

    constructor ()
      ensures activeTab == Overview
    {
      activeTab := Overview;
    }

    method SetTab(tab: DetailTab)
      modifies this
      ensures activeTab == tab
    {
      activeTab := tab;
    }

    /** "Copy Details": the text written to the clipboard. */
    method CopyDetails(file: FileData) returns (copied: string)
      ensures copied == CopyText(file)
    {
      copied := CopyText(file);
    }
  }
}
