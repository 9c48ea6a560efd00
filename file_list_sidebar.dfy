/**
 * The dashboard's file list: one row per file with an icon chosen by
 * extension, a role badge, the first connections and the last update, the
 * selected row highlighted, and an empty state. The role-colour and icon
 * tables are the ones the file detail view repeats verbatim.
 */
module FileListSidebar {
  import opened Wrappers
  import opened Strings
  import opened ViewModel

  const GreyBadge := "bg-gray-100 text-gray-800"

  const RoleColors: map<string, string> := map[
    "UI Component" := "bg-blue-100 text-blue-800",
    "API Endpoint" := "bg-green-100 text-green-800",
    "Authentication" := "bg-red-100 text-red-800",
    "Database" := "bg-purple-100 text-purple-800",
    "Utility" := GreyBadge,
    "Configuration" := "bg-yellow-100 text-yellow-800",
    "Service" := "bg-indigo-100 text-indigo-800",
    "Type Definition" := "bg-pink-100 text-pink-800",
    "Test" := "bg-orange-100 text-orange-800",
    "Documentation" := "bg-teal-100 text-teal-800"]

  /** `getRoleColor`: the table entry for the ten known roles, grey for anything else. */
  function RoleColor(role: string): (c: string)
    ensures role in RoleColors ==> c == RoleColors[role]
    ensures role !in RoleColors ==> c == GreyBadge
    ensures c == GreyBadge <==> role !in RoleColors || role == "Utility"
  {
    if role in RoleColors then RoleColors[role] else GreyBadge
  }

  const DefaultIcon := "📄"

  const Icons: map<string, string> := map[
    "tsx" := "⚛️",
    "ts" := "📘",
    "jsx" := "⚛️",
    "js" := "📘",
    "py" := "🐍",
    "json" := DefaultIcon,
    "md" := "📝",
    "css" := "🎨",
    "html" := "🌐",
    "yml" := "⚙️",
    "yaml" := "⚙️",
    "txt" := DefaultIcon,
    "sql" := "🗄️",
    "sh" := "💻",
    "bat" := "💻",
    "ps1" := "💻"]

  /** The lookup key: the text after the last '.', lower-cased (the whole name when there is no '.'). */
  function IconKey(fileName: string): string {
    ToLower(LastSegment(fileName, '.'))
  }

  /** `getFileIcon`. */
  function FileIcon(fileName: string): (icon: string)
    ensures IconKey(fileName) in Icons ==> icon == Icons[IconKey(fileName)]
    ensures IconKey(fileName) !in Icons ==> icon == DefaultIcon
  {
    var key := IconKey(fileName);
    if key in Icons then Icons[key] else DefaultIcon
  }

  /** A name without '.' is looked up whole: a file called "PY" gets the Python icon. */
  lemma IconKeyWithoutDot(fileName: string)
    requires forall i :: 0 <= i < |fileName| ==> fileName[i] != '.'
    ensures IconKey(fileName) == ToLower(fileName)
  {
    SplitNoSep(fileName, '.');
  }

  /** Only the last extension counts, and case does not matter. */
  lemma IconOfLastExtension(stem: string, ext: string)
    requires forall i :: 0 <= i < |ext| ==> ext[i] != '.'
    ensures IconKey(stem + "." + ext) == ToLower(ext)
  {
    SplitNoSep(ext, '.');
    SplitAppend(stem, '.', ext);
    assert stem + "." + ext == stem + ['.'] + ext;
  }

  /** A name ending in '.' has the empty key, which no entry has. */
  lemma TrailingDotIsDefault(stem: string)
    ensures FileIcon(stem + ".") == DefaultIcon
  {
    IconOfLastExtension(stem, "");
    assert stem + "." + "" == stem + ".";
    assert ToLower("") == "";
    assert "" !in Icons;
  }

  /** `selectedFile?.path === file.path`. */
  predicate IsSelected(selectedFile: Option<FileData>, file: FileData) {
    selectedFile.Some? && selectedFile.value.path == file.path
  }

  datatype Row = Row(
    icon: string,
    name: string,
    highlighted: bool,
    roleBadge: string,
    role: string,
    path: string,
    connections: Option<Preview<string>>,
    lastUpdated: Option<string>)

  /** One row: connections only when there are some, at most three and "+n"; the date of the first commit. */
  function RenderRow(file: FileData, selectedFile: Option<FileData>): (r: Row)
    ensures r.icon == FileIcon(file.name) && r.name == file.name && r.path == file.path && r.role == file.role
    ensures r.roleBadge == RoleColor(file.role)
    ensures r.highlighted <==> IsSelected(selectedFile, file)
    ensures r.connections.Some? <==> |file.connections| > 0
    ensures r.connections.Some? ==>
      && |r.connections.value.shown| == (if |file.connections| < 3 then |file.connections| else 3)
      && r.connections.value.shown == file.connections[..|r.connections.value.shown|]
      && (r.connections.value.hidden.Some? <==> |file.connections| > 3)
      && (r.connections.value.hidden.Some? ==> r.connections.value.hidden.value == |file.connections| - 3)
    ensures r.lastUpdated.Some? <==> |file.commitHistory| > 0
    ensures r.lastUpdated.Some? ==> r.lastUpdated.value == file.commitHistory[0].date
  {
    Row(
      FileIcon(file.name),
      file.name,
      IsSelected(selectedFile, file),
      RoleColor(file.role),
      file.role,
      file.path,
      if |file.connections| > 0 then Some(PreviewOf(file.connections, 3)) else None,
      if |file.commitHistory| > 0 then Some(file.commitHistory[0].date) else None)
  }

  datatype Sidebar = Sidebar(heading: string, rows: seq<Row>, emptyState: bool)

  /** The list: "Files (n)", one row per file in order, and "No files found" exactly when there is none. */
  function Render(files: seq<FileData>, selectedFile: Option<FileData>): (s: Sidebar)
    ensures s.heading == "Files (" + NatToString(|files|) + ")"
    ensures |s.rows| == |files|
    ensures forall i :: 0 <= i < |files| ==> s.rows[i] == RenderRow(files[i], selectedFile)
    ensures s.emptyState <==> files == []
  {
    Sidebar("Files (" + NatToString(|files|) + ")",
      seq(|files|, i requires 0 <= i < |files| => RenderRow(files[i], selectedFile)),
      |files| == 0)
  }

  /** Rows sharing the selected file's path are all highlighted; the others none. */
  lemma HighlightedRows(files: seq<FileData>, selected: FileData, i: int)
    requires 0 <= i < |files|
    ensures Render(files, Some(selected)).rows[i].highlighted <==> files[i].path == selected.path
  {
  }

  /** With nothing selected, no row is highlighted. */
  lemma NoSelectionNoHighlight(files: seq<FileData>, i: int)
    requires 0 <= i < |files|
    ensures !Render(files, None).rows[i].highlighted
  {
  }
}
