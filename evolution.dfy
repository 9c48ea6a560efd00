/**
 * The file-evolution records the back end builds from commit diffs and the
 * front end displays (`ChangeLog`, `FileHistory` and `FileEvolutionResponse`
 * of the front end's type declarations).
 */
module Evolution {
  import opened Seqs

  /** One change of one file in one commit. */
  datatype ChangeLog = ChangeLog(
    commitSha: string,
    timestamp: string,
    author: string,
    summary: string,
    changeType: string,
    additions: int,
    deletions: int)

  datatype LifecycleStats = LifecycleStats(
    createdAt: string,
    lastModified: string,
    totalCommits: nat,
    totalAdditions: int,
    totalDeletions: int,
    netChanges: int,
    changeTypes: seq<string>)

  /**
   * A dictionary from file names to change lists, with its keys in insertion
   * order (the order `dict.items()` and `Object.entries` yield them).
   */
  datatype EvolutionMap = EvolutionMap(keys: seq<string>, lists: map<string, seq<ChangeLog>>)

  predicate ValidMap(e: EvolutionMap) {
    Distinct(e.keys) && e.lists.Keys == set k | k in e.keys
  }

  /** The dictionary's items, in key order. */
  function Entries(e: EvolutionMap): (r: seq<(string, seq<ChangeLog>)>)
    requires ValidMap(e)
    ensures |r| == |e.keys|
    ensures forall i :: 0 <= i < |r| ==> r[i] == (e.keys[i], e.lists[e.keys[i]])
  {
    seq(|e.keys|, i requires 0 <= i < |e.keys| && ValidMap(e) => (e.keys[i], e.lists[e.keys[i]]))
  }
}
