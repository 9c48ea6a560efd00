/**
 * The per-file timeline card: a header with the lifecycle totals, a panel
 * with the net change and the change types, and one entry per change.
 * Modelled by its declared properties: a file name, its change list and
 * optional statistics.
 */
module FileTimeline {
  import opened Wrappers
  import opened Strings
  import opened Evolution
  import FileExplorer

  const AddedColor := "bg-green-100 border-green-300 text-green-800"
  const ModifiedColor := "bg-yellow-100 border-yellow-300 text-yellow-800"
  const RemovedColor := "bg-red-100 border-red-300 text-red-800"
  const OtherColor := "bg-gray-100 border-gray-300 text-gray-800"

  /** `getChangeTypeColor`. */
  function ChangeTypeColor(changeType: string): (c: string)
    ensures changeType == "added" ==> c == AddedColor
    ensures changeType == "modified" ==> c == ModifiedColor
    ensures changeType == "removed" ==> c == RemovedColor
    ensures c == OtherColor <==> changeType !in {"added", "modified", "removed"}
  {
    match changeType
    case "added" => AddedColor
    case "modified" => ModifiedColor
    case "removed" => RemovedColor
    case _ => OtherColor
  }

  /** `getChangeTypeIcon`. */
  function ChangeTypeIcon(changeType: string): (icon: string)
    ensures changeType == "added" ==> icon == "➕"
    ensures changeType == "modified" ==> icon == "✏️"
    ensures changeType == "removed" ==> icon == "❌"
    ensures icon == "📝" <==> changeType !in {"added", "modified", "removed"}
  {
    match changeType
    case "added" => "➕"
    case "modified" => "✏️"
    case "removed" => "❌"
    case _ => "📝"
  }

  /** The two switches know the same three change types. */
  lemma ColorAndIconAgree(changeType: string)
    ensures ChangeTypeColor(changeType) == OtherColor <==> ChangeTypeIcon(changeType) == "📝"
  {
  }

  /**
   * The back end reports a deleted file as 'removed': this card shows it in
   * red while the File Explorer's table, which knows 'deleted', shows grey.
   */
  lemma RemovedColouredOnlyHere()
    ensures ChangeTypeColor("removed") == RemovedColor != OtherColor
    ensures FileExplorer.ChangeTypeColor("removed") == FileExplorer.DefaultBadge
    ensures ChangeTypeColor("deleted") == OtherColor
  {
    FileExplorer.RemovedIsDefault();
  }

  /** `{net >= 0 ? '+' : ''}{net}`. */
  function NetChangeText(net: int): (t: string)
    ensures |t| >= 2 && t[1..] == NatToString(if net >= 0 then net else -net)
    ensures t[0] == '+' <==> net >= 0
    ensures t[0] == '-' <==> net < 0
  {
    var digits := IntToString(net);
    if net >= 0 then "+" + digits else digits
  }

  const GainStyle := "text-green-600"
  const LossStyle := "text-red-600"

  function NetChangeStyle(net: int): (style: string)
    ensures style == GainStyle <==> net >= 0
    ensures style == LossStyle <==> net < 0
  {
    if net >= 0 then GainStyle else LossStyle
  }

  /** The '+' marks exactly the figures drawn in green. */
  lemma SignMatchesStyle(net: int)
    ensures NetChangeText(net)[0] == '+' <==> NetChangeStyle(net) == GainStyle
  {
  }

  /** `commit_sha.substring(0, 8)`. */
  function ShortSha(sha: string): (r: string)
    ensures |r| == if |sha| < 8 then |sha| else 8
    ensures StartsWith(sha, r)
  {
    Prefix(sha, 8)
  }

  /**
   * One change. `timestamp` is the date the entry shows after the author,
   * as received (the locale formatting of `toLocaleString` is not modelled).
   */
  datatype Entry = Entry(color: string, icon: string, summary: string, author: string, timestamp: string, sha: string, additions: string, deletions: string)

  function RenderEntry(log: ChangeLog): (e: Entry)
    ensures e.color == ChangeTypeColor(log.changeType) && e.icon == ChangeTypeIcon(log.changeType)
    ensures e.summary == log.summary && e.author == log.author && e.sha == ShortSha(log.commitSha)
    ensures e.timestamp == log.timestamp
    ensures e.additions == "+" + IntToString(log.additions) && e.deletions == "-" + IntToString(log.deletions)
  {
    Entry(ChangeTypeColor(log.changeType), ChangeTypeIcon(log.changeType), log.summary, log.author,
      log.timestamp, ShortSha(log.commitSha), "+" + IntToString(log.additions), "-" + IntToString(log.deletions))
  }

  /**
   * The header line and the panel, shown only with statistics. The created
   * and last-modified dates are the strings received (the locale formatting
   * of `toLocaleDateString` is not modelled).
   */
  datatype StatsView = StatsView(commits: string, additions: string, deletions: string, createdAt: string, lastModified: string,
                                 net: string, netStyle: string, changeTypes: string)

  function RenderStats(stats: LifecycleStats): (v: StatsView)
    ensures v.commits == NatToString(stats.totalCommits) + " commits"
    ensures v.additions == "+" + IntToString(stats.totalAdditions) && v.deletions == "-" + IntToString(stats.totalDeletions)
    ensures v.createdAt == stats.createdAt && v.lastModified == stats.lastModified
    ensures v.net == NetChangeText(stats.netChanges) && v.netStyle == NetChangeStyle(stats.netChanges)
    ensures v.changeTypes == Join(stats.changeTypes, ", ")
  {
    StatsView(NatToString(stats.totalCommits) + " commits", "+" + IntToString(stats.totalAdditions),
      "-" + IntToString(stats.totalDeletions), stats.createdAt, stats.lastModified,
      NetChangeText(stats.netChanges), NetChangeStyle(stats.netChanges), Join(stats.changeTypes, ", "))
  }

  datatype View = View(title: string, stats: Option<StatsView>, entries: seq<Entry>)

  /** The whole card: one entry per change, in the order of the history. */
  function Render(filename: string, history: seq<ChangeLog>, stats: Option<LifecycleStats>): (v: View)
    ensures v.title == filename
    ensures v.stats.Some? <==> stats.Some?
    ensures stats.Some? ==> v.stats.value == RenderStats(stats.value)
    ensures |v.entries| == |history|
    ensures forall i :: 0 <= i < |history| ==> v.entries[i] == RenderEntry(history[i])
  {
    View(filename, if stats.Some? then Some(RenderStats(stats.value)) else None,
      seq(|history|, i requires 0 <= i < |history| => RenderEntry(history[i])))
  }

  /** No ", " inside `t`. */
  predicate NoSeparator(t: string) {
    forall i :: 0 <= i < |t| - 1 ==> !(t[i] == ',' && t[i + 1] == ' ')
  }

  /** The Change Types text cut at every ", ", scanning left to right. */
  function SplitTypes(s: string): (r: seq<string>)
    ensures |r| >= 1
    decreases |s|
  {
    if |s| == 0 then [""]
    else if |s| >= 2 && s[0] == ',' && s[1] == ' ' then [""] + SplitTypes(s[2..])
    else
      var rest := SplitTypes(s[1..]);
      [[s[0]] + rest[0]] + rest[1..]
  }

  /** A type without ", " is cut off whole at the separator that follows it. */
  lemma {:induction false} SplitAfterType(t: string, more: string)
    requires NoSeparator(t)
    ensures SplitTypes(t + ", " + more) == [t] + SplitTypes(more)
  {
    var s := t + ", " + more;
    if t == [] {
      assert s[2..] == more;
    } else {
      assert s[1..] == t[1..] + ", " + more;
      assert !(s[0] == ',' && s[1] == ' ');
      SplitAfterType(t[1..], more);
      assert [t[0]] + t[1..] == t;
    }
  }

  /** A type without ", " is not cut at all. */
  lemma {:induction false} SplitLastType(t: string)
    requires NoSeparator(t)
    ensures SplitTypes(t) == [t]
  {
    if |t| > 0 {
      assert !(|t| >= 2 && t[0] == ',' && t[1] == ' ');
      SplitLastType(t[1..]);
      assert [t[0]] + t[1..] == t;
    }
  }

  /**
   * The Change Types text shows the types and nothing else: cutting it at
   * ", " gives them back in order, when no type itself contains ", ".
   */
  lemma {:induction false} ChangeTypesShown(types: seq<string>)
    requires forall k :: 0 <= k < |types| ==> NoSeparator(types[k])
    ensures SplitTypes(Join(types, ", ")) == if types == [] then [""] else types
  {
    if |types| == 1 {
      SplitLastType(types[0]);
    } else if |types| > 1 {
      ChangeTypesShown(types[1..]);
      SplitAfterType(types[0], Join(types[1..], ", "));
      assert [types[0]] + types[1..] == types;
    }
  }
}
