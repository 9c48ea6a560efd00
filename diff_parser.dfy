/**
 * Commit-diff processing of the back end: the owner and name in a GitHub
 * URL, the grouping of per-commit file changes into per-file change lists,
 * and the lifecycle statistics of each list. The GitHub API call that lists
 * a commit's changed files is not modelled: each commit carries its list,
 * which is [] when that call fails.
 */
module DiffParser {
  import opened Wrappers
  import opened Strings
  import opened Seqs
  import opened Evolution

  // ----- extract_repo_owner_name -----

  const GitHubPrefix := "https://github.com/"

  function InvalidUrlMessage(url: string): string {
    "Invalid GitHub URL format: " + url
  }

  /** The path segments: every occurrence of the prefix removed (`str.replace`), trailing '/' stripped, split at '/'. */
  function UrlSegments(url: string): (parts: seq<string>)
    ensures |parts| >= 1
  {
    Split(StripTrailing(Replace(url, GitHubPrefix, ""), '/'), '/')
  }

  /** `extract_repo_owner_name`: the first two segments, or the `ValueError` message. */
  function ExtractRepoOwnerName(url: string): (r: Result<(string, string), string>)
    ensures !StartsWith(url, GitHubPrefix) ==> r == Err(InvalidUrlMessage(url))
    ensures r.Err? ==> r.error == InvalidUrlMessage(url)
    ensures r.Ok? <==> StartsWith(url, GitHubPrefix) && |UrlSegments(url)| >= 2
    ensures r.Ok? ==> r.value == (UrlSegments(url)[0], UrlSegments(url)[1])
  {
    if StartsWith(url, GitHubPrefix) then
      var parts := UrlSegments(url);
      if |parts| >= 2 then Ok((parts[0], parts[1])) else Err(InvalidUrlMessage(url))
    else Err(InvalidUrlMessage(url))
  }

  predicate NoSlash(s: string) {
    forall i :: 0 <= i < |s| ==> s[i] != '/'
  }

  /** Removing the prefix from the front leaves the rest to be scanned. */
  lemma ReplaceLeadingPrefix(x: string)
    ensures Replace(GitHubPrefix + x, GitHubPrefix, "") == Replace(x, GitHubPrefix, "")
  {
    var s := GitHubPrefix + x;
    assert s[..|GitHubPrefix|] == GitHubPrefix;
    assert s[|GitHubPrefix|..] == x;
  }

  /** Text without two '/' in a row cannot hold the prefix, whose "//" follows "https:". */
  lemma NoDoubleSlashNoPrefix(x: string)
    requires forall k :: 0 <= k < |x| - 1 ==> !(x[k] == '/' && x[k + 1] == '/')
    ensures !Contains(x, GitHubPrefix)
  {
    forall i | 0 <= i <= |x| - |GitHubPrefix|
      ensures !OccursAt(x, GitHubPrefix, i)
    {
      assert GitHubPrefix[6] == '/' && GitHubPrefix[7] == '/';
      assert x[i + 6] == x[i..i + |GitHubPrefix|][6];
      assert x[i + 7] == x[i..i + |GitHubPrefix|][7];
    }
  }

  /** Once the leading prefix is gone and no other copy remains, the segments come from the rest alone. */
  lemma SegmentsAfterPrefix(x: string)
    requires !Contains(x, GitHubPrefix)
    ensures StartsWith(GitHubPrefix + x, GitHubPrefix)
    ensures UrlSegments(GitHubPrefix + x) == Split(StripTrailing(x, '/'), '/')
  {
    assert (GitHubPrefix + x)[..|GitHubPrefix|] == GitHubPrefix;
    ReplaceLeadingPrefix(x);
    ReplaceAbsent(x, GitHubPrefix, "");
  }

  /** Stripping trailing '/' cannot reach into a non-empty repository name. */
  lemma StripKeepsName(owner: string, repo: string, tail: string)
    requires repo != ""
    requires NoSlash(repo)
    ensures var r := StripTrailing(owner + "/" + repo + tail, '/');
      |r| >= |owner| + 1 + |repo| && r == owner + "/" + repo + tail[..|r| - (|owner| + 1 + |repo|)]
  {
    var x := owner + "/" + repo + tail;
    var r := StripTrailing(x, '/');
    var n := |owner| + 1 + |repo|;
    assert x[n - 1] == repo[|repo| - 1];
    assert |r| >= n;
    assert r == x[..|r|];
    assert x[..|r|] == owner + "/" + repo + tail[..|r| - n];
  }

  /** The first two segments of `owner/repo` followed by nothing or by '/'. */
  lemma SplitOwnerRepo(owner: string, repo: string, t: string)
    requires NoSlash(owner) && NoSlash(repo)
    requires t == "" || t[0] == '/'
    ensures var parts := Split(owner + "/" + repo + t, '/');
      |parts| >= 2 && parts[0] == owner && parts[1] == repo
  {
    assert owner + "/" + repo + t == owner + ['/'] + (repo + t);
    SplitNoSep(owner, '/');
    SplitAppend(owner, '/', repo + t);
    if t == "" {
      assert repo + t == repo;
      SplitNoSep(repo, '/');
    } else {
      assert repo + t == repo + ['/'] + t[1..];
      SplitNoSep(repo, '/');
      SplitAppend(repo, '/', t[1..]);
    }
  }

  /**
   * Segments after the name are ignored: for a URL `prefix/owner/repo` followed
   * by nothing or by more '/'-separated text, the result is (owner, repo).
   */
  lemma ExtraSegmentsIgnored(owner: string, repo: string, tail: string)
    requires NoSlash(owner) && NoSlash(repo) && repo != ""
    requires tail == "" || tail[0] == '/'
    requires !Contains(owner + "/" + repo + tail, GitHubPrefix)
    ensures ExtractRepoOwnerName(GitHubPrefix + owner + "/" + repo + tail) == Ok((owner, repo))
  {
    var x := owner + "/" + repo + tail;
    var url := GitHubPrefix + owner + "/" + repo + tail;
    assert url == GitHubPrefix + x;
    SegmentsAfterPrefix(x);
    StripKeepsName(owner, repo, tail);
    var r := StripTrailing(x, '/');
    var t := tail[..|r| - (|owner| + 1 + |repo|)];
    SplitOwnerRepo(owner, repo, t);
    var parts := UrlSegments(url);
    assert parts == Split(owner + "/" + repo + t, '/');
    assert |parts| >= 2 && parts[0] == owner && parts[1] == repo;
  }

  /** Round trip: a URL built from an owner and a non-empty repository name gives them back. */
  lemma OwnerRepoRoundTrip(owner: string, repo: string)
    requires NoSlash(owner) && NoSlash(repo) && repo != ""
    ensures ExtractRepoOwnerName(GitHubPrefix + owner + "/" + repo) == Ok((owner, repo))
  {
    var x := owner + "/" + repo;
    forall k | 0 <= k < |x| - 1
      ensures !(x[k] == '/' && x[k + 1] == '/')
    {
      assert x[k] == '/' ==> k == |owner|;
      assert x[k + 1] == '/' ==> k + 1 == |owner|;
    }
    NoDoubleSlashNoPrefix(x);
    assert x + "" == x;
    ExtraSegmentsIgnored(owner, repo, "");
    assert GitHubPrefix + owner + "/" + repo + "" == GitHubPrefix + owner + "/" + repo;
  }

  /** A URL naming only an owner is rejected. */
  lemma OwnerOnlyRejected(owner: string)
    requires NoSlash(owner)
    ensures ExtractRepoOwnerName(GitHubPrefix + owner) == Err(InvalidUrlMessage(GitHubPrefix + owner))
  {
    NoDoubleSlashNoPrefix(owner);
    ReplaceLeadingPrefix(owner);
    ReplaceAbsent(owner, GitHubPrefix, "");
    assert StartsWith(GitHubPrefix + owner, GitHubPrefix);
    assert StripTrailing(owner, '/') == owner;
    SplitNoSep(owner, '/');
  }

  // ----- build_file_evolution -----

  /** One entry of `get_commit_diff`'s list (its `changes`, `patch` and `raw_url` are not read). */
  datatype FileChange = FileChange(filename: string, status: string, additions: int, deletions: int)

  /** A commit as pydriller reports it, with the files its diff lists. */
  datatype Commit = Commit(hash: string, date: string, msg: string, author: string, changes: seq<FileChange>)

  /** The record appended for one change: SHA, date, message and author from the commit; the rest from the change. */
  function EntryOf(c: Commit, ch: FileChange): (e: ChangeLog)
    ensures e.commitSha == c.hash && e.timestamp == c.date && e.summary == c.msg && e.author == c.author
    ensures e.changeType == ch.status && e.additions == ch.additions && e.deletions == ch.deletions
  {
    ChangeLog(c.hash, c.date, c.author, c.msg, ch.status, ch.additions, ch.deletions)
  }

  /** The (file name, record) pairs of one commit, in the order of its diff. */
  function CommitPairs(c: Commit): (r: seq<(string, ChangeLog)>)
    ensures |r| == |c.changes|
    ensures forall j :: 0 <= j < |r| ==> r[j] == (c.changes[j].filename, EntryOf(c, c.changes[j]))
  {
    seq(|c.changes|, j requires 0 <= j < |c.changes| => (c.changes[j].filename, EntryOf(c, c.changes[j])))
  }

  /** All (commit, changed file) pairs, in iteration order. */
  function Pairs(commits: seq<Commit>): seq<(string, ChangeLog)> {
    if commits == [] then [] else Pairs(commits[..|commits| - 1]) + CommitPairs(commits[|commits| - 1])
  }

  /** The number of changed-file entries over all commits. */
  function TotalChanges(commits: seq<Commit>): nat {
    if commits == [] then 0 else TotalChanges(commits[..|commits| - 1]) + |commits[|commits| - 1].changes|
  }

  lemma {:induction false} PairsCount(commits: seq<Commit>)
    ensures |Pairs(commits)| == TotalChanges(commits)
  {
    if commits != [] {
      PairsCount(commits[..|commits| - 1]);
    }
  }

  /** One step of the inner loop: a new key gets [] first, then the record is appended. */
  function Add(e: EvolutionMap, filename: string, entry: ChangeLog): EvolutionMap {
    var e1 := if filename in e.lists then e else EvolutionMap(e.keys + [filename], e.lists[filename := []]);
    EvolutionMap(e1.keys, e1.lists[filename := e1.lists[filename] + [entry]])
  }

  /** The dictionary the loop builds from a sequence of pairs. */
  function Group(pairs: seq<(string, ChangeLog)>): EvolutionMap {
    if pairs == [] then EvolutionMap([], map[])
    else
      var last := pairs[|pairs| - 1];
      Add(Group(pairs[..|pairs| - 1]), last.0, last.1)
  }

  lemma GroupSnoc(pairs: seq<(string, ChangeLog)>, p: (string, ChangeLog))
    ensures Group(pairs + [p]) == Add(Group(pairs), p.0, p.1)
  {
    assert (pairs + [p])[..|pairs + [p]| - 1] == pairs;
  }

  lemma PairsSnoc(commits: seq<Commit>, c: Commit)
    ensures Pairs(commits + [c]) == Pairs(commits) + CommitPairs(c)
  {
    assert (commits + [c])[..|commits + [c]| - 1] == commits;
  }

  /** The inner loop of `build_file_evolution`: every change of one commit added in diff order. */
  method AddCommit(evolution0: EvolutionMap, commit: Commit, ghost done: seq<(string, ChangeLog)>)
    returns (evolution: EvolutionMap)
    requires evolution0 == Group(done)
    ensures evolution == Group(done + CommitPairs(commit))
  {
    evolution := evolution0;
    var j := 0;
    assert done + CommitPairs(commit)[..0] == done;
    while j < |commit.changes|
      invariant 0 <= j <= |commit.changes|
      invariant evolution == Group(done + CommitPairs(commit)[..j])
    {
      var change := commit.changes[j];
      var filename := change.filename;
      ghost var before := done + CommitPairs(commit)[..j];
      GroupSnoc(before, (filename, EntryOf(commit, change)));
      assert before + [(filename, EntryOf(commit, change))] == done + CommitPairs(commit)[..j + 1];
      if filename !in evolution.lists {
        evolution := EvolutionMap(evolution.keys + [filename], evolution.lists[filename := []]);
      }
      evolution := EvolutionMap(evolution.keys, evolution.lists[filename := evolution.lists[filename] + [EntryOf(commit, change)]]);
      j := j + 1;
    }
    assert CommitPairs(commit)[..j] == CommitPairs(commit);
  }

  /** `build_file_evolution`, with each commit's diff given. */
  method BuildFileEvolution(commits: seq<Commit>) returns (evolution: EvolutionMap)
    ensures evolution == Group(Pairs(commits))
  {
    evolution := EvolutionMap([], map[]);
    var i := 0;
    while i < |commits|
      invariant 0 <= i <= |commits|
      invariant evolution == Group(Pairs(commits[..i]))
    {
      evolution := AddCommit(evolution, commits[i], Pairs(commits[..i]));
      assert commits[..i + 1] == commits[..i] + [commits[i]];
      PairsSnoc(commits[..i], commits[i]);
      i := i + 1;
    }
    assert commits[..i] == commits;
  }

  // ----- properties of the grouping -----

  function Names(pairs: seq<(string, ChangeLog)>): (r: seq<string>)
    ensures |r| == |pairs| && forall i :: 0 <= i < |pairs| ==> r[i] == pairs[i].0
  {
    seq(|pairs|, i requires 0 <= i < |pairs| => pairs[i].0)
  }

  /** The records of the pairs for `filename`, in order. */
  function RecordsFor(pairs: seq<(string, ChangeLog)>, filename: string): seq<ChangeLog> {
    if pairs == [] then []
    else
      var last := pairs[|pairs| - 1];
      RecordsFor(pairs[..|pairs| - 1], filename) + if last.0 == filename then [last.1] else []
  }

  lemma NamesSnoc(pairs: seq<(string, ChangeLog)>, p: (string, ChangeLog))
    ensures Names(pairs + [p]) == Names(pairs) + [p.0]
  {
  }

  /** One `Add` on a well-formed dictionary: the key is appended when new, the record appended to its list. */
  lemma AddFacts(e: EvolutionMap, f: string, x: ChangeLog)
    requires ValidMap(e)
    ensures ValidMap(Add(e, f, x))
    ensures Add(e, f, x).keys == if f in e.keys then e.keys else e.keys + [f]
    ensures Add(e, f, x).lists == e.lists[f := (if f in e.lists then e.lists[f] else []) + [x]]
  {
    if f !in e.keys {
      assert f !in e.lists;
      var lists1 := e.lists[f := []];
      assert lists1[f] + [x] == [x];
      assert lists1[f := [x]] == e.lists[f := [x]];
      assert Add(e, f, x) == EvolutionMap(e.keys + [f], e.lists[f := [x]]);
      NewKeyValid(e, f, [x]);
    } else {
      assert f in e.lists;
      assert Add(e, f, x) == EvolutionMap(e.keys, e.lists[f := e.lists[f] + [x]]);
    }
  }

  /** A key not yet present, appended with its list, keeps the dictionary well-formed. */
  lemma NewKeyValid(e: EvolutionMap, f: string, l: seq<ChangeLog>)
    requires ValidMap(e) && f !in e.keys
    ensures ValidMap(EvolutionMap(e.keys + [f], e.lists[f := l]))
  {
    var ks := e.keys + [f];
    assert forall i :: 0 <= i < |e.keys| ==> ks[i] == e.keys[i];
    assert (set k | k in ks) == (set k | k in e.keys) + {f};
  }

  /** The grouping is a well-formed dictionary whose keys are the file names in order of first appearance. */
  lemma {:induction false} GroupKeys(pairs: seq<(string, ChangeLog)>)
    ensures ValidMap(Group(pairs))
    ensures Group(pairs).keys == Dedupe(Names(pairs))
  {
    if pairs == [] {
      assert (set k: string | k in [] :: k) == {};
    } else {
      var init := pairs[..|pairs| - 1];
      var last := pairs[|pairs| - 1];
      GroupKeys(init);
      AddFacts(Group(init), last.0, last.1);
      NamesSnoc(init, last);
      assert pairs == init + [last];
      assert Names(pairs)[..|Names(pairs)| - 1] == Names(init);
    }
  }

  /** Each key holds that file's records, in order. */
  lemma {:induction false} GroupLists(pairs: seq<(string, ChangeLog)>, f: string)
    requires f in Group(pairs).lists
    ensures Group(pairs).lists[f] == RecordsFor(pairs, f)
  {
    var init := pairs[..|pairs| - 1];
    var last := pairs[|pairs| - 1];
    GroupKeys(init);
    AddFacts(Group(init), last.0, last.1);
    if f in Group(init).lists {
      GroupLists(init, f);
    } else {
      RecordsAbsent(init, f);
    }
  }

  /** A name the grouping has no key for has no records. */
  lemma {:induction false} RecordsAbsent(pairs: seq<(string, ChangeLog)>, f: string)
    requires f !in Group(pairs).lists
    ensures RecordsFor(pairs, f) == []
  {
    if pairs != [] {
      var init := pairs[..|pairs| - 1];
      var last := pairs[|pairs| - 1];
      GroupKeys(init);
      AddFacts(Group(init), last.0, last.1);
      RecordsAbsent(init, f);
    }
  }

  lemma GroupContents(pairs: seq<(string, ChangeLog)>)
    ensures ValidMap(Group(pairs))
    ensures Group(pairs).keys == Dedupe(Names(pairs))
    ensures forall f :: f in Group(pairs).lists ==> Group(pairs).lists[f] == RecordsFor(pairs, f)
  {
    GroupKeys(pairs);
    forall f | f in Group(pairs).lists
      ensures Group(pairs).lists[f] == RecordsFor(pairs, f)
    {
      GroupLists(pairs, f);
    }
  }

  /** A file's list holds one record per change of that file: its occurrences among the names. */
  lemma {:induction false} RecordsCount(pairs: seq<(string, ChangeLog)>, f: string)
    ensures |RecordsFor(pairs, f)| == Occurrences(Names(pairs), f)
  {
    if pairs != [] {
      var init := pairs[..|pairs| - 1];
      RecordsCount(init, f);
      NamesSnoc(init, pairs[|pairs| - 1]);
      assert pairs == init + [pairs[|pairs| - 1]];
      OccurrencesSnoc(Names(init), pairs[|pairs| - 1].0, f);
    }
  }

  /** The lengths of the lists, over the keys in order. */
  function ListLengths(keys: seq<string>, lists: map<string, seq<ChangeLog>>): nat
    requires forall k :: k in keys ==> k in lists
  {
    if keys == [] then 0 else ListLengths(keys[..|keys| - 1], lists) + |lists[keys[|keys| - 1]]|
  }

  lemma {:induction false} ListLengthsAreOccurrences(keys: seq<string>, pairs: seq<(string, ChangeLog)>, lists: map<string, seq<ChangeLog>>)
    requires forall k :: k in keys ==> k in lists && lists[k] == RecordsFor(pairs, k)
    ensures ListLengths(keys, lists) == SumOccurrences(keys, Names(pairs))
  {
    if keys != [] {
      ListLengthsAreOccurrences(keys[..|keys| - 1], pairs, lists);
      RecordsCount(pairs, keys[|keys| - 1]);
    }
  }

  /** The lists hold as many records altogether as there are (commit, changed file) pairs. */
  lemma EvolutionTotal(commits: seq<Commit>)
    ensures var e := Group(Pairs(commits));
      (forall k :: k in e.keys ==> k in e.lists) && ListLengths(e.keys, e.lists) == TotalChanges(commits)
  {
    var pairs := Pairs(commits);
    GroupContents(pairs);
    var e := Group(pairs);
    ListLengthsAreOccurrences(e.keys, pairs, e.lists);
    DedupeCounts(Names(pairs));
    PairsCount(commits);
  }

  /** A file is a key exactly when some commit's diff lists it. */
  lemma EvolutionKeys(commits: seq<Commit>, f: string)
    ensures f in Group(Pairs(commits)).keys <==> exists i :: 0 <= i < |Pairs(commits)| && Pairs(commits)[i].0 == f
  {
    GroupContents(Pairs(commits));
    var names := Names(Pairs(commits));
    assert f in names <==> exists i :: 0 <= i < |names| && names[i] == f;
  }

  // ----- get_file_lifecycle_stats -----

  function SumAdditions(changes: seq<ChangeLog>): int {
    if changes == [] then 0 else SumAdditions(changes[..|changes| - 1]) + changes[|changes| - 1].additions
  }

  function SumDeletions(changes: seq<ChangeLog>): int {
    if changes == [] then 0 else SumDeletions(changes[..|changes| - 1]) + changes[|changes| - 1].deletions
  }

  /** The sums split over concatenation. */
  lemma {:induction false} SumsAppend(a: seq<ChangeLog>, b: seq<ChangeLog>)
    ensures SumAdditions(a + b) == SumAdditions(a) + SumAdditions(b)
    ensures SumDeletions(a + b) == SumDeletions(a) + SumDeletions(b)
  {
    if b != [] {
      assert (a + b)[..|a + b| - 1] == a + b[..|b| - 1];
      SumsAppend(a, b[..|b| - 1]);
    } else {
      assert a + b == a;
    }
  }

  function ChangeTypes(changes: seq<ChangeLog>): (r: seq<string>)
    ensures |r| == |changes| && forall i :: 0 <= i < |changes| ==> r[i] == changes[i].changeType
  {
    seq(|changes|, i requires 0 <= i < |changes| => changes[i].changeType)
  }

  /**
   * One file's statistics: first and last timestamps, the number of changes,
   * the sums and their difference, and the distinct change types.
   */
  function StatsOf(changes: seq<ChangeLog>): (s: LifecycleStats)
    requires changes != []
    ensures s.createdAt == changes[0].timestamp && s.lastModified == changes[|changes| - 1].timestamp
    ensures s.totalCommits == |changes|
    ensures s.totalAdditions == SumAdditions(changes) && s.totalDeletions == SumDeletions(changes)
    ensures s.netChanges == s.totalAdditions - s.totalDeletions
    ensures Distinct(s.changeTypes)
    ensures forall t :: t in s.changeTypes <==> exists i :: 0 <= i < |changes| && changes[i].changeType == t
  {
    var adds := SumAdditions(changes);
    var dels := SumDeletions(changes);
    var types := ChangeTypes(changes);
    assert forall t :: t in types <==> exists i :: 0 <= i < |changes| && changes[i].changeType == t;
    LifecycleStats(changes[0].timestamp, changes[|changes| - 1].timestamp, |changes|, adds, dels, adds - dels, Dedupe(types))
  }

  /** Whether `evolution` lists at least one change for a file. */
  function HasChanges(evolution: EvolutionMap): string -> bool {
    f => f in evolution.lists && evolution.lists[f] != []
  }

  /** What the loop of `get_file_lifecycle_stats` has built after the first `i` files. */
  ghost predicate StatsUpTo(evolution: EvolutionMap, i: nat, order: seq<string>, stats: map<string, LifecycleStats>)
    requires ValidMap(evolution) && i <= |evolution.keys|
  {
    order == Keep(evolution.keys[..i], HasChanges(evolution)) && StatsFor(evolution, evolution.keys[..i], stats)
  }

  /** `stats` holds the statistics of exactly the files of `files` with changes. */
  ghost predicate StatsFor(evolution: EvolutionMap, files: seq<string>, stats: map<string, LifecycleStats>)
    requires ValidMap(evolution) && forall f :: f in files ==> f in evolution.lists
  {
    && (forall f :: f in stats <==> f in files && evolution.lists[f] != [])
    && (forall f :: f in stats ==> evolution.lists[f] != [] && stats[f] == StatsOf(evolution.lists[f]))
  }

  /** Adding the statistics of one more file, when it has changes. */
  lemma StatsForSnoc(evolution: EvolutionMap, files: seq<string>, f: string, stats: map<string, LifecycleStats>)
    requires ValidMap(evolution) && f in evolution.lists && forall g :: g in files ==> g in evolution.lists
    requires StatsFor(evolution, files, stats)
    ensures StatsFor(evolution, files + [f],
      if evolution.lists[f] != [] then stats[f := StatsOf(evolution.lists[f])] else stats)
  {
  }

  /**
   * `get_file_lifecycle_stats`: one entry per file with a non-empty list.
   * `order` is the insertion order of the returned dictionary: the files of
   * `evolution` in its own order, the ones without changes skipped.
   */
  method GetFileLifecycleStats(evolution: EvolutionMap) returns (order: seq<string>, stats: map<string, LifecycleStats>)
    requires ValidMap(evolution)
    ensures order == Keep(evolution.keys, HasChanges(evolution))
    ensures forall f :: f in stats <==> f in evolution.lists && evolution.lists[f] != []
    ensures forall f :: f in stats ==> stats[f] == StatsOf(evolution.lists[f])
  {
    order, stats := [], map[];
    var i := 0;
    while i < |evolution.keys|
      invariant 0 <= i <= |evolution.keys|
      invariant StatsUpTo(evolution, i, order, stats)
    {
      order, stats := AddFileStats(evolution, i, order, stats);
      i := i + 1;
    }
    assert evolution.keys[..i] == evolution.keys;
  }

  /** One pass of the loop: the `i`-th file gets its statistics unless its list is empty. */
  method AddFileStats(evolution: EvolutionMap, i: nat, order: seq<string>, stats: map<string, LifecycleStats>)
    returns (order': seq<string>, stats': map<string, LifecycleStats>)
    requires ValidMap(evolution) && i < |evolution.keys| && StatsUpTo(evolution, i, order, stats)
    ensures StatsUpTo(evolution, i + 1, order', stats')
  {
    var filename := evolution.keys[i];
    var changes := evolution.lists[filename];
    assert evolution.keys[..i + 1] == evolution.keys[..i] + [filename];
    KeepAppend(evolution.keys[..i], [filename], HasChanges(evolution));
    StatsForSnoc(evolution, evolution.keys[..i], filename, stats);
    order', stats' := order, stats;
    if changes != [] {
      order', stats' := order + [filename], stats[filename := StatsOf(changes)];
    }
  }

  /** The returned dictionary's keys, in order, are exactly its entries, each once. */
  lemma {:induction false} ChangedFilesDistinct(evolution: EvolutionMap)
    requires ValidMap(evolution)
    ensures Distinct(Keep(evolution.keys, HasChanges(evolution)))
    ensures forall f :: f in Keep(evolution.keys, HasChanges(evolution)) <==> HasChanges(evolution)(f)
  {
    KeepDistinct(evolution.keys, HasChanges(evolution));
  }

  /** A file's commit count is the number of changes the diffs list for it. */
  lemma CommitCountIsChangeCount(commits: seq<Commit>, f: string)
    requires f in Group(Pairs(commits)).lists && Group(Pairs(commits)).lists[f] != []
    ensures StatsOf(Group(Pairs(commits)).lists[f]).totalCommits == Occurrences(Names(Pairs(commits)), f)
  {
    GroupContents(Pairs(commits));
    RecordsCount(Pairs(commits), f);
  }
}
