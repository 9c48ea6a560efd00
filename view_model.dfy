/**
 * The per-file view model shared by the dashboard components (the `FileData`
 * interface declared identically in DashboardPage, FileListSidebar and
 * FileDetailView), and the "first few, then +n" truncation several cards use.
 */
module ViewModel {
  import opened Wrappers
  import opened Strings

  datatype CommitView = CommitView(hash: string, date: string, message: string, changes: string)

  datatype FileData = FileData(
    name: string,
    path: string,
    role: string,
    connections: seq<string>,
    commitHistory: seq<CommitView>,
    summary: string)

  /** What a card shows of a list: the first items and, if some are hidden, how many. */
  datatype Preview<T> = Preview(shown: seq<T>, hidden: Option<nat>)

  /** `items.slice(0, k)` followed by `+{items.length - k}` when `items.length > k`. */
  function PreviewOf<T>(items: seq<T>, k: nat): (p: Preview<T>)
    ensures |p.shown| == if |items| < k then |items| else k
    ensures p.shown == items[..|p.shown|]
    ensures p.hidden.Some? <==> |items| > k
    ensures |p.shown| + p.hidden.GetOr(0) == |items|
  {
    Preview(Prefix(items, k), if |items| > k then Some(|items| - k) else None)
  }
}
