# CodeLore, modelled in Dafny

CodeLore analyses a GitHub repository and shows what it found. A FastAPI back end does the analysis and a React front end displays it. This project models the logic of both halves as Dafny functions, methods and classes, and proves what that logic promises.

**Back end.** The model covers these rules:

- the analysis rules: which files are code, a path's category, a file's category, role and complexity, and the project type;
- the post-processing of import and export matches;
- the reverse-dependency pass over the dependency record;
- the Mermaid flowchart text and the resolver of an import to a listed file;
- the grouping of commit changes into per-file evolution lists and their lifecycle statistics;
- the parsing of a GitHub URL into owner and repository;
- the README description and the project summary sentence;
- the bucketing of the repository's files and the counting of top-level modules.

**Front end.** The model covers these parts:

- the fetch-outcome logic of the four pages;
- the search and category filters;
- card selection and tabs;
- the Markdown export;
- the evolution-to-timeline transform;
- the colour and icon tables;
- the small state machine of the diagram panel.

**How the model is built.**

- I/O becomes inputs. A fetch result, the files a commit changed, what the regular expressions matched, a file's content and the pruned directory walk are all parameters or datatype values.
- A function or method with a loop becomes a Dafny `method` whose loop invariants tie it to a specification function. Properties of that function are proved as lemmas.
- A React page's `useState` hooks become the fields of a class, and each event handler becomes a method with a `modifies` clause.

**Files.** There is one module per source file:

- `file_explorer.dfy`, `dashboard.dfy`, `architecture_page.dfy`, `timeline_page.dfy`, `architecture_graph.dfy`, `file_list_sidebar.dfy`, `file_detail_view.dfy`, `file_timeline.dfy`;
- `dependency_analyzer.dfy`, `file_analyzer.dfy`, `diff_parser.dfy`, `project_analyzer.dfy`, `module_parser.dfy`.

These modules are shared:

- `wrappers.dfy`: Option and Result;
- `strings.dfy`: ASCII case folding, stripping, splitting, joining, replacing, substring search and number formatting, with their lemmas;
- `seqs.dfy`: prefixes, filters, first-occurrence de-duplication and occurrence counts;
- `view_model.dfy`: the file record the dashboard components share, and the "first k, then +n" preview;
- `evolution.dfy`: the change record and lifecycle statistics that the back end produces and the timeline components read.

## Model

| member | source | states |
|---|---|---|
| FileExplorer.Combine | codelore-frontend/src/components/FileExplorerPage.tsx:50-72 | any exception gives 'Failed to analyze repository files'; otherwise the first non-empty `error` in the order roles, evolution, dependencies is shown; the three datasets are taken together exactly when no response threw or carried an error |
| FileExplorer.FileExplorerState.AnalyzeFiles | codelore-frontend/src/components/FileExplorerPage.tsx:41-74 | a blank or whitespace-only URL sets 'Please enter a repository URL', leaves loading and the datasets alone and issues no request; otherwise the untrimmed URL is requested, loading ends false, an error leaves all three datasets as they were, and success stores all three |
| FileExplorer.FilteredFilesMembership | codelore-frontend/src/components/FileExplorerPage.tsx:77-95 | an entry is listed exactly when it is loaded, its path contains the term ignoring case, and its category equals the filter or the filter is 'all' |
| FileExplorer.FilteredFilesNoRoles | codelore-frontend/src/components/FileExplorerPage.tsx:78 | with no roles loaded the list is empty |
| FileExplorer.FilteredFilesUnfiltered | codelore-frontend/src/components/FileExplorerPage.tsx:80-94 | an empty term and 'all' list every entry in its original order |
| FileExplorer.FilteredFilesSubsequence | codelore-frontend/src/components/FileExplorerPage.tsx:80-94 | the filtered list is an order-preserving subsequence of the loaded entries |
| FileExplorer.FiltersCommute | codelore-frontend/src/components/FileExplorerPage.tsx:83-92 | applying the category filter before the search filter gives the same list |
| FileExplorer.UnknownCategoryEmpty | codelore-frontend/src/components/FileExplorerPage.tsx:90-92 | a category no entry has gives the empty list |
| FileExplorer.FileExplorerState.GetFilteredFiles | codelore-frontend/src/components/FileExplorerPage.tsx:77-95 | on the page state: exactly the filtered list `FilteredFiles` of the loaded roles, the search term and the category; empty before roles are loaded, otherwise a subsequence of the loaded roles |
| FileExplorer.InternalModules | codelore-frontend/src/components/FileExplorerPage.tsx:103-105 | a module is listed exactly when some import of type 'internal' names it; no more entries than imports |
| FileExplorer.ModuleNames | codelore-frontend/src/components/FileExplorerPage.tsx:105 | one module name per import, position by position |
| FileExplorer.InternalModulesAreKept | codelore-frontend/src/components/FileExplorerPage.tsx:103-105 | the list is the module names of the internal imports, kept in the imports' order with repeats: filter, then map |
| FileExplorer.InternalModulesAppend | codelore-frontend/src/components/FileExplorerPage.tsx:103-105 | the internal modules of two import lists laid end to end are those of the first followed by those of the second |
| FileExplorer.FileConnections | codelore-frontend/src/components/FileExplorerPage.tsx:97-110 | a path without a dependency record gets two empty lists; otherwise the internal modules in order and `imported_by`, or [] when it is missing |
| FileExplorer.Toggle | codelore-frontend/src/components/FileExplorerPage.tsx:136-148 | the clicked path becomes the selection exactly when it was not selected before; the selection is never another path |
| FileExplorer.ToggleTwice | codelore-frontend/src/components/FileExplorerPage.tsx:148 | clicking the same card twice selects it if it was selected and clears the selection otherwise |
| FileExplorer.FileExplorerState.ClickCard | codelore-frontend/src/components/FileExplorerPage.tsx:148 | the click replaces the selection by its toggle and changes nothing else |
| FileExplorer.CategoryColor | codelore-frontend/src/components/FileExplorerPage.tsx:112-124 | the table entry for the eight known categories; the grey badge exactly for every other category |
| FileExplorer.ChangeTypeColor | codelore-frontend/src/components/FileExplorerPage.tsx:126-133 | the table entry for 'added', 'modified' and 'deleted'; grey exactly for every other change type |
| FileExplorer.RemovedIsDefault | codelore-frontend/src/components/FileExplorerPage.tsx:126-133 | 'removed', the back end's name for a deletion, gets the grey default while 'deleted' does not |
| FileExplorer.SortedDistinct | codelore-frontend/src/components/FileExplorerPage.tsx:230-231 | `Array.from(new Set(xs)).sort()`: strictly sorted and holding exactly the values of the input |
| FileExplorer.InsertSorted | codelore-frontend/src/components/FileExplorerPage.tsx:230-231 | adding a category to a strictly sorted option list keeps it strictly sorted and adds exactly that category |
| FileExplorer.Categories | codelore-frontend/src/components/FileExplorerPage.tsx:230 | the category of each loaded entry, in order |
| FileExplorer.UniqueCategories | codelore-frontend/src/components/FileExplorerPage.tsx:228-232 | no options before roles are loaded; then strictly sorted, and a category is an option exactly when some loaded role has it |
| FileExplorer.SortedIsDistinct | codelore-frontend/src/components/FileExplorerPage.tsx:231 | a strictly sorted option list holds no category twice |
| FileExplorer.FileExplorerState.constructor | codelore-frontend/src/components/FileExplorerPage.tsx:31-39 | the initial hook values: empty URL and search, nothing loaded or selected, not loading, no error, category 'all' |
| Dashboard.Attempt | codelore-frontend/src/components/DashboardPage.tsx:40-63 | a non-ok response gives 'Failed to fetch project data', a body `error` is shown verbatim, a thrown `Error` gives its message and any other thrown value 'Failed to load project data'; the data is taken exactly when the body has no error |
| Dashboard.DashboardState.FetchProjectData | codelore-frontend/src/components/DashboardPage.tsx:40-63 | loading ends false; a failure sets its message and leaves `projectData` and `hasAnalyzed` unchanged; success clears the error, stores the data and sets `hasAnalyzed`; selection, filters, tab and URL are untouched |
| Dashboard.DashboardState.HandleAnalyzeRepo | codelore-frontend/src/components/DashboardPage.tsx:65-70 | fetches exactly when the URL is not blank, passing the trimmed URL; a blank URL changes nothing; the first successful analysis leaves a project and no error |
| Dashboard.FilteredFiles | codelore-frontend/src/components/DashboardPage.tsx:72-77 | [] without a project, otherwise no more files than the project has |
| Dashboard.EmptyQueryMatches | codelore-frontend/src/components/DashboardPage.tsx:73-74 | the empty query matches every file |
| Dashboard.FilteredFilesMembership | codelore-frontend/src/components/DashboardPage.tsx:72-77 | a file is listed exactly when it is one of the project's files, its name or path contains the query ignoring case, and its role equals the filter or the filter is 'All' |
| Dashboard.UnfilteredListsAll | codelore-frontend/src/components/DashboardPage.tsx:72-77 | the empty query and 'All' list every file in order |
| Dashboard.FilteredFilesSubsequence | codelore-frontend/src/components/DashboardPage.tsx:72-77 | the listed files keep the project's order |
| Dashboard.DashboardState.VisibleFiles | codelore-frontend/src/components/DashboardPage.tsx:72-77 | on the page state: exactly the filtered list `FilteredFiles` of the project, the query and the role filter; [] without a project, otherwise a subsequence of its files |
| Dashboard.DashboardState.HandleFileSelect | codelore-frontend/src/components/DashboardPage.tsx:79-82 | always selects the file and opens the details tab; no toggle |
| Dashboard.DashboardState.SetTab | codelore-frontend/src/components/DashboardPage.tsx:292-313 | a tab button sets exactly that tab |
| Dashboard.DashboardState.NewRepo | codelore-frontend/src/components/DashboardPage.tsx:218-239 | only `hasAnalyzed` is reset; project, selection and filters remain |
| Dashboard.DashboardState.CurrentScreen | codelore-frontend/src/components/DashboardPage.tsx:101-211 | landing until a repository is analysed, then the spinner while loading, the error screen exactly when an error is set, else the workspace; a consistent state never shows the error screen |
| Dashboard.DashboardState.constructor | codelore-frontend/src/components/DashboardPage.tsx:30-38 | the initial hook values: nothing loaded or selected, empty query, filter 'All', timeline tab, not analysed |
| Dashboard.FileBlocks | codelore-frontend/src/components/DashboardPage.tsx:87-88 | one block per file, in order |
| Dashboard.ExportSummary | codelore-frontend/src/components/DashboardPage.tsx:84-89 | no document exactly when there is no project data; the document starts with "# Project Summary" |
| Dashboard.BlockIsJoin | codelore-frontend/src/components/DashboardPage.tsx:88 | a file's block is its heading, role, path and summary lines joined by newlines, with a trailing newline |
| Dashboard.JoinFourLines | codelore-frontend/src/components/DashboardPage.tsx:88 | four lines and a blank one, joined, are each line followed by the separator |
| Dashboard.SectionLines | codelore-frontend/src/components/DashboardPage.tsx:87-89 | five lines per file |
| Dashboard.SectionIsJoin | codelore-frontend/src/components/DashboardPage.tsx:87-89 | the file blocks joined by '\n' are the section's lines joined by '\n' |
| Dashboard.SectionLinesFree | codelore-frontend/src/components/DashboardPage.tsx:87-89 | single-line fields give newline-free section lines |
| Dashboard.HeaderIsJoin | codelore-frontend/src/components/DashboardPage.tsx:87 | the header is its lines joined by '\n' |
| Dashboard.HeaderLinesFree | codelore-frontend/src/components/DashboardPage.tsx:87 | a single-line summary gives newline-free header lines |
| Dashboard.LinesFreeAppend | codelore-frontend/src/components/DashboardPage.tsx:87-89 | newline-free line lists concatenate to one |
| Dashboard.ExportLines | codelore-frontend/src/components/DashboardPage.tsx:87-89 | split at newlines, the document is the header lines followed by five lines per file of the unfiltered list, in order; a project without files gives the header lines and one more empty line |
| Dashboard.SectionHeading | codelore-frontend/src/components/DashboardPage.tsx:88 | line 5·i of the file section is "### " followed by the name of file i |
| ArchitecturePage.CategoryBadge | codelore-frontend/src/components/ArchitecturePage.tsx:93-99 | 'UI Component', 'API Endpoint', 'Data Model' and 'Business Logic' get their own tokens; grey exactly for every other category |
| ArchitecturePage.BadgeAgreesWithExplorer | codelore-frontend/src/components/ArchitecturePage.tsx:93-99 | the four coloured categories get the File Explorer's colours, and the four other categories that page colours are grey here |
| ArchitecturePage.DependencyPreview | codelore-frontend/src/components/ArchitecturePage.tsx:128-144 | the first min(3, n) dependencies in order, and a "+n more" marker exactly when there are more than three, with n = length − 3 |
| ArchitecturePage.RenderCard | codelore-frontend/src/components/ArchitecturePage.tsx:78-150 | the card shows the path, category badge and role; it is highlighted exactly when its path is the selection, and only then shows the key functions and the dependency preview, each only when non-empty |
| ArchitecturePage.RenderCards | codelore-frontend/src/components/ArchitecturePage.tsx:250 | one card per key file, in entry order |
| ArchitecturePage.OneCardOpen | codelore-frontend/src/components/ArchitecturePage.tsx:250-251 | each card open exactly when its path is the selection (line 79), so with distinct paths, exactly one card is open when the selection is a key file and none otherwise |
| ArchitecturePage.HasPathCons | codelore-frontend/src/components/ArchitecturePage.tsx:250 | a path is among the entries exactly when it is the first one's or among the rest |
| ArchitecturePage.DistinctRest | codelore-frontend/src/components/ArchitecturePage.tsx:250 | distinct paths stay distinct without the first entry, and the first path is not among the rest |
| ArchitecturePage.ArchitectureState.AnalyzeArchitecture | codelore-frontend/src/components/ArchitecturePage.tsx:49-76 | a blank URL sets 'Please enter a repository URL' and fetches nothing; an exception gives 'Failed to analyze repository architecture'; a body `error` is shown and the data kept; a clean body replaces the data; loading ends false |
| ArchitecturePage.ArchitectureState.ClickCard | codelore-frontend/src/components/ArchitecturePage.tsx:89 | the click toggles whether the path is the single selection |
| ArchitecturePage.ArchitectureState.Cards | codelore-frontend/src/components/ArchitecturePage.tsx:248-252 | no cards before a report is loaded, then exactly the cards `RenderCards` draws for the key files and the selection, one per key file |
| ArchitecturePage.ArchitectureState.constructor | codelore-frontend/src/components/ArchitecturePage.tsx:34-38 | the initial hook values: empty URL, no data, not loading, no error, no selection |
| TimelinePage.Attempt | codelore-frontend/src/components/TimelinePage.tsx:21-39 | a response that is not ok gives "HTTP error! status: N", a body `error` is shown verbatim, a thrown `Error` gives its message and any other thrown value "An error occurred"; only a clean body yields data |
| TimelinePage.StatusMessageParts | codelore-frontend/src/components/TimelinePage.tsx:25 | the message is "HTTP error! status: " followed by the decimal digits of the status |
| TimelinePage.TimelineState.FetchFileEvolution | codelore-frontend/src/components/TimelinePage.tsx:15-40 | an empty URL returns at once and changes no state; otherwise loading ends false, a failure sets its message and keeps the data, and only a clean result sets the data |
| TimelinePage.TimelineState.HandleSubmit | codelore-frontend/src/components/TimelinePage.tsx:42-45 | submits the typed URL unchanged, with the same outcomes |
| TimelinePage.TimelineState.OnRepoUrl | codelore-frontend/src/components/TimelinePage.tsx:47-51 | a present, non-empty `repoUrl` property is fetched with the outcomes of a fetch; an absent or empty one changes nothing |
| TimelinePage.TimelineState.CurrentScreen | codelore-frontend/src/components/TimelinePage.tsx:77-146 | only the spinner while loading; otherwise the page with the error banner exactly when an error is set and the ready prompt exactly when there is no data and no error |
| TimelinePage.TimelineState.constructor | codelore-frontend/src/components/TimelinePage.tsx:10-13 | no data, not loading, no error, and the input holding the `repoUrl` property or "" |
| TimelinePage.DisplayName | codelore-frontend/src/components/TimelinePage.tsx:58 | the name shown is a suffix of the path |
| TimelinePage.DisplayNameNoSlash | codelore-frontend/src/components/TimelinePage.tsx:58 | a path without '/' is shown whole |
| TimelinePage.DisplayNameTrailingSlash | codelore-frontend/src/components/TimelinePage.tsx:58 | a path ending in '/' has an empty last segment and is shown whole |
| TimelinePage.DisplayNameBasename | codelore-frontend/src/components/TimelinePage.tsx:58 | otherwise the name is the non-empty text after the last '/' |
| TimelinePage.CommitViews | codelore-frontend/src/components/TimelinePage.tsx:62-67 | one commit view per history entry, in order, with the SHA, timestamp, summary and "change_type (+additions, -deletions)" |
| TimelinePage.StatsTotals | codelore-frontend/src/components/TimelinePage.tsx:68 | a file without lifecycle statistics counts 0 additions and 0 deletions, otherwise its totals |
| TimelinePage.TimelineEntry | codelore-frontend/src/components/TimelinePage.tsx:57-69 | the entry's name, path, the role "File", no connections, the commit views and the summary built from the history length and the totals |
| TimelinePage.TransformForTimeline | codelore-frontend/src/components/TimelinePage.tsx:54-70 | [] without data, otherwise one entry per `file_evolution` key, in key order |
| TimelinePage.TimelineKeepsHistory | codelore-frontend/src/components/TimelinePage.tsx:62-67 | each entry's commit history has the length and order of the file's change list |
| TimelinePage.MissingStatsSummary | codelore-frontend/src/components/TimelinePage.tsx:68 | a file without lifecycle statistics is summarised with zero totals |
| ArchitectureGraph.StyleFirstSvg | codelore-frontend/src/components/ArchitectureGraph.tsx:45-50 | only the first svg in the container gets width 100%, height auto and maxWidth 100%; every other node is unchanged |
| ArchitectureGraph.StyleWithoutSvg | codelore-frontend/src/components/ArchitectureGraph.tsx:45-46 | without an svg nothing is styled |
| ArchitectureGraph.AfterAttempt | codelore-frontend/src/components/ArchitectureGraph.tsx:14-71 | a failure in the import, `initialize` or `render` leaves only the fallback holding the source verbatim; after a successful render the container holds what `render` made of the lone div "mermaid-diagram-<now>" (class `mermaid`, the source as text), position by position, with only its first svg restyled to full width and automatic height |
| ArchitectureGraph.RenderAfterElement | codelore-frontend/src/components/ArchitectureGraph.tsx:36-50 | when `render` keeps the div and adds nodes after it, the container is that div followed by the added nodes with their first svg styled |
| ArchitectureGraph.RenderElsewhere | codelore-frontend/src/components/ArchitectureGraph.tsx:36-50 | when `render` removes the div and inserts nothing in the container, the container ends empty |
| ArchitectureGraph.ArchitectureGraphState.RenderMermaid | codelore-frontend/src/components/ArchitectureGraph.tsx:11-72 | without a container or without source the container is untouched; otherwise its previous content is cleared, and it ends as the attempt's outcome says; no exception escapes |
| ArchitectureGraph.ArchitectureGraphState.Update | codelore-frontend/src/components/ArchitectureGraph.tsx:10-111 | the container reference keeps following the source: cleared when the source becomes empty, a fresh div when source appears, the same div otherwise; the effect runs again exactly when `mermaidCode` changed, and then the container with source holds the outcome of one render; with unchanged source its content is unchanged |
| ArchitectureGraph.ArchitectureGraphState.CurrentScreen | codelore-frontend/src/components/ArchitectureGraph.tsx:77-89 | the "No Architecture Data" placeholder exactly when the source is empty, a state distinct from the failure fallback |
| ArchitectureGraph.ArchitectureGraphState.constructor | codelore-frontend/src/components/ArchitectureGraph.tsx:7-111 | mounting: a container exists exactly when there is source, and then it is a fresh div holding the outcome of the first render |
| ArchitectureGraph.Container.constructor | codelore-frontend/src/components/ArchitectureGraph.tsx:100-108 | the container first holds the loading spinner |
| FileListSidebar.RoleColor | codelore-frontend/src/components/FileListSidebar.tsx:28-42 | the table's badge for the ten known roles, grey for any other role; grey exactly for an unknown role or "Utility" |
| FileListSidebar.FileIcon | codelore-frontend/src/components/FileListSidebar.tsx:44-65 | the icon listed for the lower-cased text after the last '.', the generic document icon when that key is not listed |
| FileListSidebar.IconKeyWithoutDot | codelore-frontend/src/components/FileListSidebar.tsx:45 | a name without '.' is looked up whole, lower-cased |
| FileListSidebar.IconOfLastExtension | codelore-frontend/src/components/FileListSidebar.tsx:45 | for `stem.ext` only the last extension counts, whatever the stem holds, and its case does not matter |
| FileListSidebar.TrailingDotIsDefault | codelore-frontend/src/components/FileListSidebar.tsx:45-64 | a name ending in '.' has the empty key and gets the generic icon |
| FileListSidebar.RenderRow | codelore-frontend/src/components/FileListSidebar.tsx:72-127 | a row shows the file's icon, name, role badge and path; it is highlighted iff its path is the selected file's; connections appear iff there are some, at most the first three, with "+n" iff more than three and n the number hidden; "Last updated" appears iff there is history and shows the first commit's date |
| FileListSidebar.Render | codelore-frontend/src/components/FileListSidebar.tsx:67-139 | heading "Files (n)" with n the number of files, one row per file in order, and the empty state exactly when there are no files |
| FileListSidebar.HighlightedRows | codelore-frontend/src/components/FileListSidebar.tsx:77-87 | with a selection, row i is highlighted iff it has the selected file's path (so several rows sharing a path are all highlighted) |
| FileListSidebar.NoSelectionNoHighlight | codelore-frontend/src/components/FileListSidebar.tsx:77 | with no selection no row is highlighted |
| FileTimeline.ChangeTypeColor | codelore-frontend/src/components/FileTimeline.tsx:19-30 | green, yellow and red for "added", "modified" and "removed"; grey exactly for every other change type |
| FileTimeline.ChangeTypeIcon | codelore-frontend/src/components/FileTimeline.tsx:32-43 | the plus, pencil and cross icons for the three known types; the note icon exactly for every other type |
| FileTimeline.ColorAndIconAgree | codelore-frontend/src/components/FileTimeline.tsx:19-43 | the two switches fall back to their defaults for the same change types |
| FileTimeline.RemovedColouredOnlyHere | codelore-frontend/src/components/FileTimeline.tsx:25-26 | the back end's "removed" is red on this card but gets the File Explorer's default badge, and "deleted" is grey here |
| FileTimeline.NetChangeText | codelore-frontend/src/components/FileTimeline.tsx:74 | the magnitude of the net change after a sign: '+' exactly when it is zero or more, '-' exactly when it is negative |
| FileTimeline.NetChangeStyle | codelore-frontend/src/components/FileTimeline.tsx:73 | green exactly for a net change of zero or more, red exactly for a negative one |
| FileTimeline.SignMatchesStyle | codelore-frontend/src/components/FileTimeline.tsx:73-74 | the '+' sign marks exactly the figures drawn in green |
| FileTimeline.ShortSha | codelore-frontend/src/components/FileTimeline.tsx:101 | a prefix of the hash, eight characters long or the whole hash when it is shorter |
| FileTimeline.RenderEntry | codelore-frontend/src/components/FileTimeline.tsx:86-110 | an entry is coloured and marked by its change type and shows the summary, the author, the timestamp as received, the short hash and the signed line counts |
| FileTimeline.RenderStats | codelore-frontend/src/components/FileTimeline.tsx:49-83 | the header shows "n commits" and the signed totals; the panel shows the created and last-modified dates as received, the signed, coloured net change and the change types joined by ", " |
| FileTimeline.Render | codelore-frontend/src/components/FileTimeline.tsx:45-113 | the title is the file name; the statistics appear iff they were given; one entry per change in history order |
| FileTimeline.SplitAfterType | codelore-frontend/src/components/FileTimeline.tsx:79 | a type without ", " followed by the separator is cut off whole |
| FileTimeline.SplitLastType | codelore-frontend/src/components/FileTimeline.tsx:79 | a type without ", " is not cut |
| FileTimeline.ChangeTypesShown | codelore-frontend/src/components/FileTimeline.tsx:79 | the Change Types text shows exactly the types, in order: cut at ", " it gives them back when none contains ", " |
| FileDetailView.CopyTextLines | codelore-frontend/src/components/FileDetailView.tsx:84 | when no field holds a newline, the copied text splits into exactly four lines: the name, then "Role: ", "Path: " and "Summary: " followed by their fields |
| FileDetailView.FileType | codelore-frontend/src/components/FileDetailView.tsx:146 | the upper-cased text after the last '.', and "Unknown" exactly when that text is empty |
| FileDetailView.UnknownTypeIff | codelore-frontend/src/components/FileDetailView.tsx:146 | the type is "Unknown" exactly for an empty name or a name ending in '.' |
| FileDetailView.RecentActivity | codelore-frontend/src/components/FileDetailView.tsx:165-175 | the first three commits at most, in order, each with its message, its date and its hash cut to eight characters |
| FileDetailView.ShortHashIsPrefix | codelore-frontend/src/components/FileDetailView.tsx:171 | each shown hash starts the full hash and has eight characters when the hash is that long |
| FileDetailView.Labels | codelore-frontend/src/components/FileDetailView.tsx:96-126 | the history and connections tab labels carry the lengths of their lists |
| FileDetailView.RenderHeader | codelore-frontend/src/components/FileDetailView.tsx:24-82 | the header uses the file list's icon and role-badge tables, which this component repeats entry for entry |
| FileDetailView.HistoryItems | codelore-frontend/src/components/FileDetailView.tsx:189-204 | one item per commit in order, carrying that commit's date; the changes line appears exactly when the commit's changes text is non-empty |
| FileDetailView.RenderBody | codelore-frontend/src/components/FileDetailView.tsx:131-229 | the open tab decides the body; the overview shows the summary, the type and both counts, and its recent-activity line is the one computed from the history; the history list is the history's items, falling back to its "No ..." text exactly when the history is empty, and likewise for the other lists |
| FileDetailView.FileDetailViewState.constructor | codelore-frontend/src/components/FileDetailView.tsx:22 | the overview tab is open first |
| FileDetailView.FileDetailViewState.SetTab | codelore-frontend/src/components/FileDetailView.tsx:98-118 | a tab button opens its tab |
| FileDetailView.FileDetailViewState.CopyDetails | codelore-frontend/src/components/FileDetailView.tsx:63-84 | the button hands the four-line details text to the clipboard |
| ViewModel.PreviewOf | codelore-frontend/src/components/FileListSidebar.tsx:102-114 | exactly the first k items (all of them when there are fewer), in order, and a "+n" count exactly when some are hidden, n being the number hidden |
| Evolution.Entries | codelore-frontend/src/components/TimelinePage.tsx:57 | one (filename, history) pair per key of the evolution mapping, in key order |
| DependencyAnalyzer.Suffix | codelore-backend/services/dependency_analyzer.py:100 | pathlib's suffix: empty, or a '.' followed by at least one character and no further '.', ending the last path component and shorter than it |
| DependencyAnalyzer.SuffixOfStemExt | codelore-backend/services/dependency_analyzer.py:100 | a name `stem.ext` with a non-empty stem has the suffix `.ext` |
| DependencyAnalyzer.DotfileHasNoSuffix | codelore-backend/services/dependency_analyzer.py:100 | a hidden file such as ".py" has no suffix |
| DependencyAnalyzer.SuffixInDirectory | codelore-backend/services/dependency_analyzer.py:100 | only the last path component decides the suffix |
| DependencyAnalyzer.IsCodeFileByExtension | codelore-backend/services/dependency_analyzer.py:82-100 | `stem.ext` is code exactly when ".ext" lower-cased is one of the listed code extensions, so "App.TSX" is code |
| DependencyAnalyzer.DotfileIsNotCode | codelore-backend/services/dependency_analyzer.py:82-100 | a hidden file named like an extension is never code |
| DependencyAnalyzer.CategorizeFileType | codelore-backend/services/dependency_analyzer.py:205-232 | "React Component" exactly when the lower-cased path mentions ".jsx" or ".tsx"; otherwise one of the four script categories exactly when it mentions ".js" or ".ts"; otherwise one of the four Python categories exactly when it ends with ".py"; "Code File" exactly when none of these holds |
| DependencyAnalyzer.ReactPathIsScriptPath | codelore-backend/services/dependency_analyzer.py:211-213 | a path mentioning ".jsx" or ".tsx" also mentions ".js" or ".ts", so the React test shadows the script test |
| DependencyAnalyzer.CodeFileCategory | codelore-backend/services/dependency_analyzer.py:211-232 | a path is "Code File" exactly when it mentions neither ".js" nor ".ts" and does not end with ".py" |
| DependencyAnalyzer.JsonPathIsScript | codelore-backend/services/dependency_analyzer.py:213 | the substring test catches ".json": a JSON path always gets a script category |
| DependencyAnalyzer.Classify | codelore-backend/services/dependency_analyzer.py:124-163 | an empty match is dropped; any other becomes a record with that module name, "internal" and "relative" exactly when it starts with '.', otherwise "external" and "unknown" |
| DependencyAnalyzer.Seconds | codelore-backend/services/dependency_analyzer.py:119-120 | for the two-group pattern, the second group of each match, in order |
| DependencyAnalyzer.ImportsOfSnoc | codelore-backend/services/dependency_analyzer.py:116-137 | one more match appends exactly its classified record, or nothing when it is empty |
| DependencyAnalyzer.ImportsOfModules | codelore-backend/services/dependency_analyzer.py:116-163 | the imports are the non-empty matches, in order, each classified |
| DependencyAnalyzer.ExtractImports | codelore-backend/services/dependency_analyzer.py:102-165 | the records of the non-empty matches of the three patterns of the file's language, in pattern order; nothing for other extensions |
| DependencyAnalyzer.AppendMatches | codelore-backend/services/dependency_analyzer.py:117-137 | the loop over one pattern's matches appends exactly the classified records of its non-empty matches, in order |
| DependencyAnalyzer.FlattenStep | codelore-backend/services/dependency_analyzer.py:116-118 | the matches of one more pattern come after those of the earlier patterns |
| DependencyAnalyzer.PythonImportsAreExternal | codelore-backend/services/dependency_analyzer.py:142-163 | modules starting with a letter or '_', as the Python patterns' captures do, are all external |
| DependencyAnalyzer.TrimAll | codelore-backend/services/dependency_analyzer.py:186 | each piece stripped, in order |
| DependencyAnalyzer.ExportItemsAreSplit | codelore-backend/services/dependency_analyzer.py:184-189 | the branch for a match without ',' does the same as splitting at ',' and stripping |
| DependencyAnalyzer.JsExportItemsStep | codelore-backend/services/dependency_analyzer.py:181-189 | one more JavaScript match appends exactly its split and stripped pieces |
| DependencyAnalyzer.DropEmpty | codelore-backend/services/dependency_analyzer.py:203 | no empty export remains |
| DependencyAnalyzer.DropEmptyKeeps | codelore-backend/services/dependency_analyzer.py:203 | the filter keeps exactly the non-empty entries, in order |
| DependencyAnalyzer.DropEmptySnoc | codelore-backend/services/dependency_analyzer.py:203 | one more entry is kept exactly when it is non-empty |
| DependencyAnalyzer.ExtractExports | codelore-backend/services/dependency_analyzer.py:167-203 | the non-empty candidates: JavaScript matches split at ',' and stripped, Python class then function names, nothing for other extensions |
| DependencyAnalyzer.JsExportItemsUpTo | codelore-backend/services/dependency_analyzer.py:184-189 | no item the first k JavaScript matches yield holds ',' or starts or ends with whitespace |
| DependencyAnalyzer.ImportersUpToMembers | codelore-backend/services/dependency_analyzer.py:242-247 | among the first k keys, exactly the other files that have an import whose module occurs in the path are importers |
| DependencyAnalyzer.ImportersMembers | codelore-backend/services/dependency_analyzer.py:242-247 | g imports f exactly when g is another key and one of g's import modules (of any kind) occurs in f's path |
| DependencyAnalyzer.NoSelfImport | codelore-backend/services/dependency_analyzer.py:243 | a file is never its own importer |
| DependencyAnalyzer.InternalCountSnoc | codelore-backend/services/dependency_analyzer.py:239-240 | the internal-import count grows by one exactly for an internal import |
| DependencyAnalyzer.RepeatedImporters | codelore-backend/services/dependency_analyzer.py:239-247 | with two internal imports or more, the importers are appended once per import, so the list holds duplicates |
| DependencyAnalyzer.RepeatSeqPrefix | codelore-backend/services/dependency_analyzer.py:239-247 | the list after two internal imports is a prefix of the list after more |
| DependencyAnalyzer.GainsIff | codelore-backend/services/dependency_analyzer.py:239-247 | a file gains entries exactly when it has an internal import and some importer |
| DependencyAnalyzer.DependencyGraph.constructor | codelore-backend/services/dependency_analyzer.py:234-238 | the dependency record before the reverse pass: the given keys, imports and exports, every `imported_by` empty |
| DependencyAnalyzer.DependencyGraph.BuildReverseDependencies | codelore-backend/services/dependency_analyzer.py:234-247 | each key's `imported_by` is extended by its importers, once per internal import of that key; keys, imports and exports are unchanged |
| DependencyAnalyzer.AppendImporters | codelore-backend/services/dependency_analyzer.py:239-247 | the two inner loops for one file append exactly its gained importers |
| DependencyAnalyzer.AppendMentioning | codelore-backend/services/dependency_analyzer.py:241-247 | the innermost loop appends exactly the other keys that mention the file, in key order |
| DependencyAnalyzer.ReverseStep | codelore-backend/services/dependency_analyzer.py:238-247 | writing back one file's list leaves every other file's list as it was |
| DependencyAnalyzer.DependencyGraph.GenerateMermaidDiagram | codelore-backend/services/dependency_analyzer.py:249-287 | the text is the diagram's lines joined by '\n': the header, the node lines of the first `max_nodes` keys as Python slices them, then the capped edge lines |
| DependencyAnalyzer.AppendEdgeLines | codelore-backend/services/dependency_analyzer.py:265-285 | given every listed file's targets, the edge loop appends the lines of the first 30 candidate edges, whether it stops at the cap or runs out of files |
| DependencyAnalyzer.AppendListedFile | codelore-backend/services/dependency_analyzer.py:268-285 | one pass of the outer edge loop extends the lines by the next file's edges, capped at 30 overall |
| DependencyAnalyzer.CapReached | codelore-backend/services/dependency_analyzer.py:269-270 | once 30 candidate edges are drawn, the later files add none: the edges drawn so far are the diagram's edges |
| DependencyAnalyzer.AppendFileEdges | codelore-backend/services/dependency_analyzer.py:275-285 | one file's imports add their edges until the diagram holds 30 |
| DependencyAnalyzer.EdgesCapped | codelore-backend/services/dependency_analyzer.py:276-277 | once 30 edges are drawn, the rest of a file's imports add nothing |
| DependencyAnalyzer.FileEdgesStep | codelore-backend/services/dependency_analyzer.py:275-285 | one more import appends exactly its own edge, if any |
| DependencyAnalyzer.PrefixStep | codelore-backend/services/dependency_analyzer.py:276-285 | below the cap, one more import extends the drawn edges by its own edge |
| DependencyAnalyzer.FileEdgesGrow | codelore-backend/services/dependency_analyzer.py:275-285 | the edges of a file's first imports start the edges of all its imports |
| DependencyAnalyzer.AllEdgesGrow | codelore-backend/services/dependency_analyzer.py:268-285 | the candidate edges of the first listed files start the candidates of all listed files |
| DependencyAnalyzer.FileEdgesListed | codelore-backend/services/dependency_analyzer.py:281-284 | every edge of a file starts at that file and ends at a listed key |
| DependencyAnalyzer.AllEdgesListed | codelore-backend/services/dependency_analyzer.py:268-285 | every candidate edge of the first i files starts at one of them and ends at a listed key |
| DependencyAnalyzer.EdgeLinesSnoc | codelore-backend/services/dependency_analyzer.py:284 | one more edge appends exactly its line |
| DependencyAnalyzer.ResolveTargets | codelore-backend/services/dependency_analyzer.py:279-281 | the target found for each import, in import order |
| DependencyAnalyzer.ResolveAllTargets | codelore-backend/services/dependency_analyzer.py:268-281 | one target list per listed file, in list order, each with one target per import of that file |
| DependencyAnalyzer.TargetsUpToAt | codelore-backend/services/dependency_analyzer.py:268-281 | after the first i files, entry k is the k-th listed file's targets |
| DependencyAnalyzer.AllTargetsWithin | codelore-backend/services/dependency_analyzer.py:281 | every target resolved for a listed file is a listed key |
| DependencyAnalyzer.EdgesDrawnListed | codelore-backend/services/dependency_analyzer.py:268-285 | at most 30 edges are drawn, each from a listed key to a listed key |
| DependencyAnalyzer.MatchIsSubstring | codelore-backend/services/dependency_analyzer.py:299 | the two `endswith` tests add nothing to the substring test |
| DependencyAnalyzer.FirstMatchIndex | codelore-backend/services/dependency_analyzer.py:298-302 | an index of the list, or -1 |
| DependencyAnalyzer.FirstMatchIndexMeaning | codelore-backend/services/dependency_analyzer.py:298-302 | the index found matches the cleaned module and no earlier file does; -1 means that no file matches |
| DependencyAnalyzer.FindTargetFile | codelore-backend/services/dependency_analyzer.py:289-302 | the first file in list order that the cleaned module matches, always one of the listed files, or None |
| DependencyAnalyzer.FirstMatchIsFirst | codelore-backend/services/dependency_analyzer.py:298-300 | a match after a run of misses is the one returned |
| DependencyAnalyzer.DotsResolveToFirstFile | codelore-backend/services/dependency_analyzer.py:295-299 | a module made only of dots cleans to the empty string and resolves to the first file |
| DependencyAnalyzer.NodeIdSanitised | codelore-backend/services/dependency_analyzer.py:261 | the node id has the path's length, with exactly '/', '.' and '-' turned into '_' |
| DependencyAnalyzer.NodeIdsCollide | codelore-backend/services/dependency_analyzer.py:261 | different paths share a node id whenever they have the same length and differ only where both have one of '/', '.', '-' or '_' |
| DependencyAnalyzer.EdgeLines | codelore-backend/services/dependency_analyzer.py:284 | one edge line per edge, in order |
| DependencyAnalyzer.PySlice | codelore-backend/services/dependency_analyzer.py:254 | Python's `[:n]`: a prefix, of length n capped at the length for n >= 0, and without the last -n elements for n < 0 |
| DependencyAnalyzer.Targets | codelore-backend/services/dependency_analyzer.py:281 | one target per import |
| DependencyAnalyzer.TargetsListed | codelore-backend/services/dependency_analyzer.py:281 | every target found is one of the listed keys |
| DependencyAnalyzer.TargetAt | codelore-backend/services/dependency_analyzer.py:281 | entry j is the target of import j |
| DependencyAnalyzer.NodeLines | codelore-backend/services/dependency_analyzer.py:259-262 | one node line per listed key, in order |
| DependencyAnalyzer.DiagramShape | codelore-backend/services/dependency_analyzer.py:249-287 | "graph TD" first, one node line per listed key in order, then at most 30 edge lines, each between two listed keys |
| DependencyAnalyzer.LinesShape | codelore-backend/services/dependency_analyzer.py:256-285 | the header, node and edge lines sit at their positions |
| DependencyAnalyzer.DiagramTextLines | codelore-backend/services/dependency_analyzer.py:287 | when no key holds a newline, splitting the text at '\n' gives the lines back |
| DependencyAnalyzer.NodeIdNoNewline | codelore-backend/services/dependency_analyzer.py:261 | a path without a newline has a node id without one |
| DependencyAnalyzer.NodeLineNoNewline | codelore-backend/services/dependency_analyzer.py:262 | and so does its node line |
| DependencyAnalyzer.EdgeLineNoNewline | codelore-backend/services/dependency_analyzer.py:284 | and an edge line between two such paths |
| DependencyAnalyzer.NoCharAppend | codelore-backend/services/dependency_analyzer.py:262-284 | joining two texts without a character gives a text without it |
| DiffParser.UrlSegments | codelore-backend/services/diff_parser.py:64 | every occurrence of the prefix removed, trailing '/' stripped, split at '/': at least one segment |
| DiffParser.ExtractRepoOwnerName | codelore-backend/services/diff_parser.py:52-68 | the first two segments exactly when the URL starts with "https://github.com/" and has two segments or more; otherwise the "Invalid GitHub URL format" error naming the URL |
| DiffParser.ReplaceLeadingPrefix | codelore-backend/services/diff_parser.py:64 | removing the prefix from a URL that starts with it removes the leading one and any later ones |
| DiffParser.NoDoubleSlashNoPrefix | codelore-backend/services/diff_parser.py:64 | text without "//" cannot hold the prefix again |
| DiffParser.SegmentsAfterPrefix | codelore-backend/services/diff_parser.py:63-64 | for a path without a second prefix, the segments are those of the path after the prefix |
| DiffParser.StripKeepsName | codelore-backend/services/diff_parser.py:64 | stripping trailing '/' never shortens `owner/repo` when the repository name is non-empty |
| DiffParser.SplitOwnerRepo | codelore-backend/services/diff_parser.py:64-66 | `owner/repo` followed by nothing or by '/' splits into the owner and the repository first |
| DiffParser.ExtraSegmentsIgnored | codelore-backend/services/diff_parser.py:63-66 | further segments and trailing slashes are ignored: `owner/repo/tree/main/` gives (owner, repo) |
| DiffParser.OwnerRepoRoundTrip | codelore-backend/services/diff_parser.py:63-66 | the URL built from an owner and a non-empty repository name gives both back |
| DiffParser.OwnerOnlyRejected | codelore-backend/services/diff_parser.py:65-68 | a URL naming only an owner is rejected with the error message |
| DiffParser.EntryOf | codelore-backend/services/diff_parser.py:98-106 | a record carries the commit's hash, date, message and author and the change's status and line counts |
| DiffParser.CommitPairs | codelore-backend/services/diff_parser.py:92-106 | one (filename, record) pair per file in the commit's diff, in order |
| DiffParser.PairsCount | codelore-backend/services/diff_parser.py:85-106 | there are as many pairs as (commit, changed file) pairs |
| DiffParser.GroupSnoc | codelore-backend/services/diff_parser.py:95-106 | one more pair appends its record to its file's list, creating the list if needed |
| DiffParser.PairsSnoc | codelore-backend/services/diff_parser.py:85-92 | one more commit appends its pairs after the earlier ones |
| DiffParser.BuildFileEvolution | codelore-backend/services/diff_parser.py:70-108 | the mapping is all (filename, record) pairs grouped by filename |
| DiffParser.AddCommit | codelore-backend/services/diff_parser.py:92-106 | the inner loop adds one commit's changes in diff order to the grouping of the earlier pairs |
| DiffParser.NewKeyValid | codelore-backend/services/diff_parser.py:95-96 | a file not yet present, added as the last key with its list, keeps the keys distinct and equal to the map's keys |
| DiffParser.Names | codelore-backend/services/diff_parser.py:93 | the filename of each pair, in order |
| DiffParser.NamesSnoc | codelore-backend/services/diff_parser.py:93 | one more pair appends its filename |
| DiffParser.AddFacts | codelore-backend/services/diff_parser.py:95-106 | adding a record keeps the keys in insertion order, adds a new file as the last key, and appends to that file's list only |
| DiffParser.GroupKeys | codelore-backend/services/diff_parser.py:95-96 | the keys are the filenames in first-seen order, each once |
| DiffParser.GroupLists | codelore-backend/services/diff_parser.py:98-106 | a file's list is its records in commit order, then diff order |
| DiffParser.RecordsAbsent | codelore-backend/services/diff_parser.py:95-96 | a file that is not a key has no records |
| DiffParser.GroupContents | codelore-backend/services/diff_parser.py:83-108 | the keys are the filenames in first-seen order and each list is that file's records in order |
| DiffParser.RecordsCount | codelore-backend/services/diff_parser.py:98 | a file's list is as long as its number of appearances among the pairs |
| DiffParser.ListLengthsAreOccurrences | codelore-backend/services/diff_parser.py:98 | the list lengths over the keys sum to the appearances of those keys |
| DiffParser.EvolutionTotal | codelore-backend/services/diff_parser.py:83-108 | the lists hold as many records altogether as there are (commit, changed file) pairs |
| DiffParser.EvolutionKeys | codelore-backend/services/diff_parser.py:92-96 | a file is a key exactly when some commit's diff lists it |
| DiffParser.SumsAppend | codelore-backend/services/diff_parser.py:129-130 | the totals of joined lists are the sums of the totals |
| DiffParser.ChangeTypes | codelore-backend/services/diff_parser.py:139 | the change type of each record, in order |
| DiffParser.StatsOf | codelore-backend/services/diff_parser.py:126-140 | created and last-modified are the first and last records' timestamps; the commit count is the list length; the totals are the sums and the net change their difference; the change types are each type that occurs, each once |
| DiffParser.GetFileLifecycleStats | codelore-backend/services/diff_parser.py:110-142 | a file has statistics exactly when its list is non-empty, and they are those of its list; the dictionary's key order is the evolution's key order with the empty lists skipped |
| DiffParser.ChangedFilesDistinct | codelore-backend/services/diff_parser.py:121-139 | that key order names each file with changes exactly once and no other |
| DiffParser.CommitCountIsChangeCount | codelore-backend/services/diff_parser.py:122-135 | a file's commit count is the number of its appearances in the commits' diffs |
| ModuleParser.RootFileIsModule | codelore-backend/services/module_parser.py:37 | a file at the root of the tree is its own module |
| ModuleParser.NestedFileModule | codelore-backend/services/module_parser.py:37 | a nested file belongs to its first directory |
| ModuleParser.TopDirs | codelore-backend/services/module_parser.py:36-37 | the first path segment of each entry, in order |
| ModuleParser.SumCountsIsOccurrences | codelore-backend/services/module_parser.py:39-42 | counts that are occurrence counts add up to the occurrences of their names |
| ModuleParser.CountedDirsAll | codelore-backend/services/module_parser.py:35-38 | the loop visits the first segments of exactly the files with a listed source extension, in order |
| ModuleParser.CountedTopDirsAreFiltered | codelore-backend/services/module_parser.py:35-38 | one first segment per counted file, in order |
| ModuleParser.TallySnoc | codelore-backend/services/module_parser.py:39-40 | one more counted directory becomes the last key if new, its count grows by one, and every count stays equal to the occurrences so far |
| ModuleParser.CountEntry | codelore-backend/services/module_parser.py:35-40 | one pass of the loop keeps the dictionary equal to the tally of the counted entries so far |
| ModuleParser.DetectModules | codelore-backend/services/module_parser.py:24-42 | one entry per first segment of a counted file, in order of first appearance, with the number of counted files under it; every count is at least one and the counts add up to the number of counted files |
| ModuleParser.ModuleListFacts | codelore-backend/services/module_parser.py:42 | the records built from the dictionary name the distinct directories in order of first appearance, each with its number of occurrences; each has a file, and the counts add up to the counted files |
| ModuleParser.ModuleList | codelore-backend/services/module_parser.py:42 | one record per key, in key order, with that key's count |
| FileAnalyzer.Basename | codelore-backend/services/file_analyzer.py:17 | a suffix of the path holding no '/' |
| FileAnalyzer.PathRoundTrip | codelore-backend/services/file_analyzer.py:17-19 | `dir/name` splits back into the directory and the name |
| FileAnalyzer.BareNameHasNoDirectory | codelore-backend/services/file_analyzer.py:17-19 | a bare name is its own basename and has the empty directory |
| FileAnalyzer.Extension | codelore-backend/services/file_analyzer.py:18 | splitext's extension: empty, or a suffix of the path starting with '.' and shorter than it |
| FileAnalyzer.ExtensionOfStemExt | codelore-backend/services/file_analyzer.py:18 | `stem.ext` has the extension `.ext` when the stem holds something other than dots |
| FileAnalyzer.DotfileHasNoExtension | codelore-backend/services/file_analyzer.py:18 | a dotfile such as ".env" has no extension, so the ".env" configuration rule only fires for names like "x.env" |
| FileAnalyzer.CategorizeFile | codelore-backend/services/file_analyzer.py:48-93 | some category is always given |
| FileAnalyzer.CategoryFamilies | codelore-backend/services/file_analyzer.py:53-86 | the extension alone decides: a frontend category exactly for a frontend extension, a backend category exactly for ".py", "Configuration" and "Documentation" exactly for their extensions |
| FileAnalyzer.TestCategoryIff | codelore-backend/services/file_analyzer.py:87-89 | "Test" exactly when the extension is in none of the four earlier sets and the lower-cased path holds "test_", ".test." or ".spec."; it wins over the style rule |
| FileAnalyzer.OtherCategoryIff | codelore-backend/services/file_analyzer.py:90-93 | "Other" exactly when no extension set matches and the path holds no test marker |
| FileAnalyzer.NameRoleText | codelore-backend/services/file_analyzer.py:103-154 | each file-name rule gives a non-empty role other than the default |
| FileAnalyzer.DirectoryRole | codelore-backend/services/file_analyzer.py:157-168 | a directory rule, when one applies, gives a non-empty role other than the default |
| FileAnalyzer.HistoryRole | codelore-backend/services/file_analyzer.py:171-180 | a history rule, when one applies, gives a non-empty role other than the default |
| FileAnalyzer.DetermineFileRole | codelore-backend/services/file_analyzer.py:95-183 | some role is always given |
| FileAnalyzer.DefaultRoleIff | codelore-backend/services/file_analyzer.py:95-183 | the default role exactly when no file-name, directory or history rule applies |
| FileAnalyzer.MlSubstringWins | codelore-backend/services/file_analyzer.py:103-104 | any name containing "ml" gets the machine-learning role, whatever the directory and history |
| FileAnalyzer.IndexHtmlIsMl | codelore-backend/services/file_analyzer.py:103-104 | "index.html" gets the machine-learning role |
| FileAnalyzer.YmlNamesGetMlRole | codelore-backend/services/file_analyzer.py:103-119 | every ".yml" name gets the machine-learning role, so the configuration rule's ".yml" test never decides |
| FileAnalyzer.OnlyFirstCommitCounts | codelore-backend/services/file_analyzer.py:171-180 | histories with the same first commit give the same role |
| FileAnalyzer.NonBlankCount | codelore-backend/services/file_analyzer.py:190 | never more than the number of lines |
| FileAnalyzer.Complexity | codelore-backend/services/file_analyzer.py:192-197 | "low" exactly below 50 non-blank lines, "medium" exactly from 50 to 199, "high" exactly from 200 |
| FileAnalyzer.ComplexityMonotone | codelore-backend/services/file_analyzer.py:192-197 | more non-blank lines never lower the level |
| FileAnalyzer.AssessComplexity | codelore-backend/services/file_analyzer.py:185-197 | the level of the number of non-blank lines of the content, whatever the extension |
| FileAnalyzer.ShortContentIsLow | codelore-backend/services/file_analyzer.py:189-193 | content of fewer than 50 lines is "low" |
| FileAnalyzer.ExtractDependencies | codelore-backend/services/file_analyzer.py:199-222 | distinct, at most ten, each found by the patterns of the file's language, as many as there are distinct ones up to ten, and all of them when there are at most ten |
| FileAnalyzer.OtherFilesHaveNoDependencies | codelore-backend/services/file_analyzer.py:205-222 | files outside the script and Python extensions have no dependencies |
| FileAnalyzer.ExtractKeyFunctions | codelore-backend/services/file_analyzer.py:224-252 | a prefix of the definitions found, of length min(5, found) |
| FileAnalyzer.FunctionsBeforeClasses | codelore-backend/services/file_analyzer.py:230-252 | the first five function matches, or all functions followed by as many classes as fit in five |
| FileAnalyzer.SummaryNamesRoleOrCategory | codelore-backend/services/file_analyzer.py:39-45 | the summary is the file name, a dash and the role, or the category when the role is the default; the "Source code file" branch is never taken |
| FileAnalyzer.AnalyzeFileRole | codelore-backend/services/file_analyzer.py:5-46 | category and role from the path and history; without readable content "low" and no dependencies or key functions, otherwise the three content analyses; the summary from role and category |
| ProjectAnalyzer.FirstDescribingLine | codelore-backend/services/project_analyzer.py:46-50 | an index of the lines, or -1 |
| ProjectAnalyzer.FirstDescribingLineMeaning | codelore-backend/services/project_analyzer.py:46-50 | the line found, once stripped, is non-empty and starts with neither '#' nor '['; no earlier line qualifies; -1 means that none does |
| ProjectAnalyzer.FirstDescribingLineIs | codelore-backend/services/project_analyzer.py:46-50 | conversely, a qualifying line after only lines that do not qualify is the one found |
| ProjectAnalyzer.DescribingLineMeaning | codelore-backend/services/project_analyzer.py:46-50 | None exactly when no line qualifies; otherwise the first qualifying line, stripped, cut to at most 200 characters and non-empty |
| ProjectAnalyzer.ReadmeDescription | codelore-backend/services/project_analyzer.py:43-50 | the description a README offers: the first qualifying line among its first ten, cut to 200 characters |
| ProjectAnalyzer.FirstDescription | codelore-backend/services/project_analyzer.py:46-50 | the loop stops at the first qualifying line and gives its first 200 characters, or nothing |
| ProjectAnalyzer.DescribingLineAt | codelore-backend/services/project_analyzer.py:46-50 | the line where the loop stops is the first qualifying one |
| ProjectAnalyzer.Structure.Add | codelore-backend/services/project_analyzer.py:98-110 | appending a path extends exactly one bucket by it |
| ProjectAnalyzer.EntryPartition | codelore-backend/services/project_analyzer.py:89-110 | every bucketed file of one directory lands in exactly one bucket |
| ProjectAnalyzer.WalkPartition | codelore-backend/services/project_analyzer.py:81-110 | the bucket sizes add up to the number of non-hidden files below the root |
| ProjectAnalyzer.RootFilesIgnored | codelore-backend/services/project_analyzer.py:85-87 | files at the repository root are never bucketed |
| ProjectAnalyzer.RootEntryEmpty | codelore-backend/services/project_analyzer.py:86-87 | the root directory adds nothing to any bucket |
| ProjectAnalyzer.TsconfigIsCode | codelore-backend/services/project_analyzer.py:96-103 | "tsconfig.json" is bucketed as code, since ".js" is looked for as a substring before the configuration names |
| ProjectAnalyzer.AddStep | codelore-backend/services/project_analyzer.py:93-110 | a non-hidden file extends its own bucket by its joined path |
| ProjectAnalyzer.SkipStep | codelore-backend/services/project_analyzer.py:90-91 | a hidden file extends no bucket |
| ProjectAnalyzer.BucketEntry | codelore-backend/services/project_analyzer.py:89-110 | one directory's files, in order, each appended to the bucket its name and directory decide, hidden files skipped |
| ProjectAnalyzer.AnalyzeFolderStructure | codelore-backend/services/project_analyzer.py:68-112 | each bucket lists, in walk order, the paths of the non-hidden files below the root that the rules put in it; the sizes add up to the number of such files |
| ProjectAnalyzer.InferProjectType | codelore-backend/services/project_analyzer.py:114-127 | each of the five types exactly under its condition on which of the frontend, backend and config buckets are empty |
| ProjectAnalyzer.ProjectTypeIgnoresDocsTestsOther | codelore-backend/services/project_analyzer.py:114-127 | documentation, test and other files never change the type |
| ProjectAnalyzer.FeatureFlags | codelore-backend/services/project_analyzer.py:136-158 | one check per feature |
| ProjectAnalyzer.Selected | codelore-backend/services/project_analyzer.py:139-158 | no more names than checks considered |
| ProjectAnalyzer.InferKeyFeatures | codelore-backend/services/project_analyzer.py:129-160 | the names of the checks that pass, in the fixed order, then the first five |
| ProjectAnalyzer.SelectedDistinct | codelore-backend/services/project_analyzer.py:139-158 | each selected name is a known feature, named once |
| ProjectAnalyzer.KeyFeaturesShape | codelore-backend/services/project_analyzer.py:129-160 | at most five features, each a known feature named once |
| ProjectAnalyzer.RichUiIff | codelore-backend/services/project_analyzer.py:154-160 | "Rich UI Components" is listed exactly when there are more than five frontend files and the five earlier checks did not all pass |
| ProjectAnalyzer.SummaryText | codelore-backend/services/project_analyzer.py:162-178 | the sentence starts with the description, or "This is a" and the lower-cased type when there is none, and ends with '.'; without features it is that opening and '.' |
| ProjectAnalyzer.ContainsWithin | codelore-backend/services/project_analyzer.py:176 | text found in a part is found in the whole |
| ProjectAnalyzer.JoinMentions | codelore-backend/services/project_analyzer.py:175 | a joined list mentions each of its parts |
| ProjectAnalyzer.SummaryMentionsFeatures | codelore-backend/services/project_analyzer.py:174-176 | every feature is named in the summary |
| ProjectAnalyzer.FeatureListOfThree | codelore-backend/services/project_analyzer.py:175 | three features read "a, b and c" |
| ProjectAnalyzer.PackageDescriptionKept | codelore-backend/services/project_analyzer.py:25-53 | a README without a qualifying line leaves package.json's description in place |
| ProjectAnalyzer.LaterReadmesIgnored | codelore-backend/services/project_analyzer.py:39-51 | once a README has been read, the candidates after it are never consulted |
| ProjectAnalyzer.MissingReadmeSkipped | codelore-backend/services/project_analyzer.py:39-53 | a missing or unreadable README is skipped |
| ProjectAnalyzer.ExtractProjectSummary | codelore-backend/services/project_analyzer.py:7-66 | the description is the first readable README's line, else package.json's; the structure is the walk's bucketing; the type is "Node.js/JavaScript" when package.json parses, else inferred from the structure; the stack is the first five dependency names; the features are those the structure implies |

## Where the code and its description differ

- **Diagram panel.** The effect in `ArchitectureGraph.tsx` runs again for every change of `mermaidCode` and has no guard against an earlier, slower render finishing last. The model runs each effect to completion, so it does not decide which of two overlapping renders wins.
- **`file_analyzer.py`: file roles and summaries.**
  - `determine_file_role` tests for "ml" as a substring first. So "index.html" and every ".yml" name get the machine-learning role, and the ".yml" test of the configuration rule never decides. The model keeps this and proves it (`FileAnalyzer.IndexHtmlIsMl`, `FileAnalyzer.YmlNamesGetMlRole`).
  - The "Source code file" branch of the summary can never be taken, because a file always gets a non-empty category (`FileAnalyzer.SummaryNamesRoleOrCategory`).
  - `os.path.splitext(".env")` gives no extension, so the ".env" category rule only fires for names such as "x.env".
- **`analyze_folder_structure`.** Bucketing tests extensions as substrings of the name, so "tsconfig.json" lands among the code files (`ProjectAnalyzer.TsconfigIsCode`).
- **`find_target_file`.** The two `endswith` tests are implied by the substring test (`DependencyAnalyzer.MatchIsSubstring`). A module made only of dots resolves to the first listed file.
- **`build_reverse_dependencies`.** A file's importers are appended once per internal import of that file, so its `imported_by` list can hold duplicates (`DependencyAnalyzer.RepeatedImporters`). An import matches a file when its module, of any kind, occurs in the file's path.
- **Change types.** The back end names a deleted file "removed". The File Explorer's table only knows "deleted" and shows "removed" in the default colour (`FileExplorer.RemovedIsDefault`), while the file timeline colours it red.

## Left out

- **Network.** The HTTP requests of the four pages and `get_commit_diff`'s call to the GitHub API are not modelled. A page request is an input value: it threw, or it answered with an ok flag, a status and a body. Each commit carries the list of files its diff reports, and a failed lookup is the empty list.
- **Other back-end modules.** The FastAPI endpoints of `main.py` are not part of this model. Nor are the libraries behind `git_cloner.py`, `commit_parser.py`, `code_extractor.py` and `summarizer.py`.
- **The filesystem.**
  - The inputs are the pruned `os.walk` of `analyze_folder_structure`, the directory tree behind `detect_modules`, and the file contents read by `analyze_file_role` and `extract_project_summary`.
  - `get_code_files`, `get_directory_tree`, `build_dependency_graph` and the existence checks are not modelled.
  - A file that is missing or cannot be decoded is `None`.
- **Regular expressions.** The `re.findall` results are inputs. Their post-processing is modelled: classification, splitting, stripping, filtering, de-duplication and caps.
- **The browser and Mermaid.**
  - The model does not cover Mermaid's parsing, rendering and layout. Instead, the outcome of the import, `initialize` and `render` steps is an input.
  - The `setTimeout` call on the architecture page is left out.
  - The clipboard, the Blob download and object URLs are left out. The model states the text that is copied or exported.
  - Locale-dependent date formatting (`toLocaleString`, `toLocaleDateString`) is left out. Every date the model shows is the string received, where the browser shows it reformatted for the locale. This applies to the file timeline's entry timestamps and its created and last-modified dates, the file detail view's commit dates and the sidebar's last-updated date.
  - JSX layout and class names beyond the colour tokens are left out.
- **Text.**
  - Case folding and whitespace stripping are modelled for ASCII only.
  - Strings are sequences of characters. JavaScript's UTF-16 code units are not modelled, so `substring(0, 8)` of a hash with characters outside the basic plane is not modelled exactly.
  - Path separators are '/' (POSIX `os.sep`).
- **Ordering.**
  - Python dictionaries are modelled as a key sequence in insertion order plus a map.
  - JavaScript objects are modelled the same way, in key order.
- FileAnalyzer.ExtractDependencies: the order of `list(set(...))` is not defined by Python. The model keeps first-occurrence order, and the contract states only what holds for any order: the entries are distinct, there are at most ten, they come from the matches, and all are kept when there are at most ten.
- DiffParser.StatsOf: `change_types` comes from a set, so the contract states what holds for any order. The list is distinct and holds exactly the change types that occur.
- DependencyAnalyzer.DependencyGraph.GenerateMermaidDiagram has two gaps:
  - The lookup `connections["file_map"][file_path]["type"]` is not modelled. Its value is unused, and a key missing from `file_map` would raise.
  - The targets of every import of every listed file are resolved before the edge loop (`DependencyAnalyzer.ResolveAllTargets`). `find_target_file` is pure, so this gives the same text, but the model resolves targets the code never looks up: those of external imports and those after the cap.
- ProjectAnalyzer.ExtractProjectSummary: `PackageJson` models a package.json that is missing, does not parse, or is an object with a description and a dependency object. It leaves these cases out:
  - JSON that is not an object;
  - a description that is not a string;
  - a `dependencies` value that is not an object. There, once the description and type are set, the code raises and skips the stack.
- FileAnalyzer.HistoryRole: a history entry is modelled as its optional `message` string. `main.py` passes entries without a `message` key, so in practice this rule never fires. Messages that are not strings are not modelled.
- FileListSidebar.RoleColor: property names that a JavaScript object inherits, such as "constructor", would find a function instead of a colour. The model treats them as unknown roles. The same holds for FileListSidebar.FileIcon and for the copies of both tables in the file detail view.
- ArchitectureGraph.AfterAttempt: what Mermaid's `render` does to the container is an input function. The model does not assume that it keeps the diagram div in place; `ArchitectureGraph.RenderAfterElement` and `ArchitectureGraph.RenderElsewhere` state the outcome for the two likely behaviours.
- FileTimeline.RenderEntry: the entry's timestamp is the string received; the `toLocaleString` reformatting the card applies is not modelled (see Text above).
- FileTimeline.RenderStats: the created and last-modified dates are the strings received; the `toLocaleDateString` reformatting is not modelled.
- FileTimeline.Render: the component is modelled by its declared properties (file name, change list, optional statistics). The properties its two callers actually pass do not match that declaration, and that mismatch is not modelled.
- **Concurrency.** Overlapping requests and React's batching of state updates are not modelled. Each handler runs to completion.
