/**
 * The analysis history: for each project, the entries of its past analyses,
 * trimmed to the ten most recent. The store file is modelled by the dictionary
 * it decodes to; timestamps are integers supplied by the caller.
 */
module AnalysisStore {
  import opened Wrappers
  import opened Records
  import opened Dicts
  import Sorting

  /** One stored analysis: `{"unix_timestamp", "project", "issue_count", "files_analyzed", "results"}`. */
  datatype Entry = Entry(unixTimestamp: int, project: string, issueCount: int, filesAnalyzed: int, results: ProjectReport)

  /** The number of entries whose timestamp is later than `t`. */
  function Later(xs: seq<Entry>, t: int): (n: nat)
    ensures n <= |xs|
  {
    if xs == [] then 0 else (if xs[0].unixTimestamp > t then 1 else 0) + Later(xs[1..], t)
  }

  /** The number of entries whose timestamp is `t` or later. */
  function NotEarlier(xs: seq<Entry>, t: int): (n: nat)
    ensures n <= |xs|
  {
    if xs == [] then 0 else (if xs[0].unixTimestamp >= t then 1 else 0) + NotEarlier(xs[1..], t)
  }

  lemma {:induction false} CountsAppend(a: seq<Entry>, b: seq<Entry>, t: int)
    ensures Later(a + b, t) == Later(a, t) + Later(b, t)
    ensures NotEarlier(a + b, t) == NotEarlier(a, t) + NotEarlier(b, t)
  {
    if a == [] {
      assert a + b == b;
    } else {
      assert (a + b)[0] == a[0];
      assert (a + b)[1..] == a[1..] + b;
      CountsAppend(a[1..], b, t);
    }
  }

  /** Taking out the entry at `j` takes its own share out of the counts. */
  lemma CountsRemove(ys: seq<Entry>, j: nat, t: int)
    requires j < |ys|
    ensures Later(ys, t) == Later(ys[..j] + ys[j + 1..], t) + (if ys[j].unixTimestamp > t then 1 else 0)
    ensures NotEarlier(ys, t) == NotEarlier(ys[..j] + ys[j + 1..], t) + (if ys[j].unixTimestamp >= t then 1 else 0)
  {
    assert ys == ys[..j] + ([ys[j]] + ys[j + 1..]);
    CountsAppend(ys[..j], [ys[j]] + ys[j + 1..], t);
    assert ([ys[j]] + ys[j + 1..])[1..] == ys[j + 1..];
    CountsAppend(ys[..j], ys[j + 1..], t);
  }

  /** The counts depend only on which entries there are, not on their order. */
  lemma {:induction false} CountsPermutation(xs: seq<Entry>, ys: seq<Entry>, t: int)
    requires multiset(xs) == multiset(ys)
    ensures Later(xs, t) == Later(ys, t) && NotEarlier(xs, t) == NotEarlier(ys, t)
    decreases |xs|
  {
    if xs == [] {
      assert |ys| == |multiset(ys)| == 0;
    } else {
      var x := xs[0];
      assert x in multiset(ys);
      var j :| 0 <= j < |ys| && ys[j] == x;
      var rest := ys[..j] + ys[j + 1..];
      RemoveFromMultiset(xs, ys, j);
      CountsPermutation(xs[1..], rest, t);
      CountsRemove(ys, j, t);
    }
  }

  lemma RemoveFromMultiset(xs: seq<Entry>, ys: seq<Entry>, j: nat)
    requires xs != [] && j < |ys| && ys[j] == xs[0]
    requires multiset(xs) == multiset(ys)
    ensures multiset(xs[1..]) == multiset(ys[..j] + ys[j + 1..])
  {
    assert xs == [xs[0]] + xs[1..];
    assert multiset(xs) == multiset{xs[0]} + multiset(xs[1..]);
    assert ys == ys[..j] + [ys[j]] + ys[j + 1..];
    assert multiset(ys) == multiset(ys[..j]) + multiset{ys[j]} + multiset(ys[j + 1..]);
    assert multiset(ys[..j] + ys[j + 1..]) == multiset(ys[..j]) + multiset(ys[j + 1..]);
    assert multiset(xs[1..]) == multiset(xs) - multiset{xs[0]};
  }

  /** In a list sorted latest first, the first `n` entries are at least as late as `t` and the rest no later. */
  lemma {:induction false} SortedCounts(ys: seq<Entry>, n: nat, t: int)
    requires n <= |ys|
    requires forall k :: 0 <= k < n ==> ys[k].unixTimestamp >= t
    requires forall k :: n <= k < |ys| ==> ys[k].unixTimestamp <= t
    ensures Later(ys, t) <= n && NotEarlier(ys, t) >= n
    decreases |ys|
  {
    if ys != [] {
      if n == 0 {
        NoneLater(ys, t);
      } else {
        SortedCounts(ys[1..], n - 1, t);
      }
    }
  }

  lemma {:induction false} NoneLater(ys: seq<Entry>, t: int)
    requires forall k :: 0 <= k < |ys| ==> ys[k].unixTimestamp <= t
    ensures Later(ys, t) == 0
  {
    if ys != [] {
      NoneLater(ys[1..], t);
    }
  }

  /** In a list sorted latest first, nothing before `n` is earlier and nothing from `n` on is later. */
  lemma DescendingAround(ys: seq<Entry>, n: nat)
    requires n < |ys| && Sorting.Descending(ys, Stamp)
    ensures forall k :: 0 <= k <= n ==> ys[k].unixTimestamp >= ys[n].unixTimestamp
    ensures forall k :: n <= k < |ys| ==> ys[k].unixTimestamp <= ys[n].unixTimestamp
  {
    forall k | 0 <= k < n
      ensures ys[k].unixTimestamp >= ys[n].unixTimestamp
    {
      assert Stamp(ys[k]) >= Stamp(ys[n]);
    }
    forall k | n < k < |ys|
      ensures ys[k].unixTimestamp <= ys[n].unixTimestamp
    {
      assert Stamp(ys[n]) >= Stamp(ys[k]);
    }
  }

  /**
   * The entry at `index` of the list sorted latest first ranks there among all
   * the entries: at most `index` of them are later, and more than `index` are
   * at least as late.
   */
  lemma SortedRank(entries: seq<Entry>, index: nat)
    requires index < |entries|
    ensures Later(entries, Sorting.SortDesc(entries, Stamp)[index].unixTimestamp) <= index
    ensures NotEarlier(entries, Sorting.SortDesc(entries, Stamp)[index].unixTimestamp) >= index + 1
  {
    var ys := Sorting.SortDesc(entries, Stamp);
    var t := ys[index].unixTimestamp;
    DescendingAround(ys, index);
    CountsPermutation(entries, ys, t);
    SortedCounts(ys, index, t);
    SortedCounts(ys, index + 1, t);
  }

  /** One record of `list_analyses`. */
  datatype Summary = Summary(project: string, unixTimestamp: int, issueCount: int, filesAnalyzed: int)

  function Stamp(e: Entry): int { e.unixTimestamp }

  function SummaryStamp(s: Summary): int { s.unixTimestamp }

  /** The cap on the number of entries kept per project. */
  const MaxEntries := 10

  /** The list after an append: unchanged up to ten entries, otherwise the ten latest, latest first. */
  function Trimmed(entries: seq<Entry>): seq<Entry> {
    if |entries| > MaxEntries then Sorting.SortDesc(entries, Stamp)[..MaxEntries] else entries
  }

  /**
   * Trimming keeps at most ten entries; a list of at most ten is untouched; a
   * longer one becomes ten of its entries, latest first, and no entry that was
   * dropped is later than an entry that was kept.
   */
  lemma TrimmedProperties(entries: seq<Entry>)
    ensures |Trimmed(entries)| <= MaxEntries
    ensures |entries| <= MaxEntries ==> Trimmed(entries) == entries
    ensures |entries| > MaxEntries ==>
      && |Trimmed(entries)| == MaxEntries
      && multiset(Trimmed(entries)) <= multiset(entries)
      && Sorting.Descending(Trimmed(entries), Stamp)
      && forall x, y :: x in entries && multiset(Trimmed(entries))[x] < multiset(entries)[x] && y in Trimmed(entries) ==>
           y.unixTimestamp >= x.unixTimestamp
  {
    if |entries| > MaxEntries {
      var sorted := Sorting.SortDesc(entries, Stamp);
      var kept, dropped := sorted[..MaxEntries], sorted[MaxEntries..];
      assert sorted == kept + dropped;
      assert multiset(entries) == multiset(kept) + multiset(dropped);
      Sorting.PrefixKeepsLargest(sorted, Stamp, MaxEntries);
      forall x, y | x in entries && multiset(kept)[x] < multiset(entries)[x] && y in kept
        ensures y.unixTimestamp >= x.unixTimestamp
      {
        assert x in multiset(dropped);
        var j :| 0 <= j < |dropped| && dropped[j] == x;
        var i :| 0 <= i < |kept| && kept[i] == y;
        assert sorted[i] == y && sorted[MaxEntries + j] == x;
      }
    }
  }

  /** The entry `store_analysis` appends for `results` at time `now`. */
  function NewEntry(projectName: string, results: ProjectReport, now: int): Entry {
    Entry(now, projectName, results.totalIssues, results.filesAnalyzed, results)
  }

  /** One summary per stored entry of the projects in `keys`, in store order. */
  function Summaries(store: Dict<string, seq<Entry>>, keys: seq<string>): seq<Summary>
    requires forall k :: k in keys ==> k in store.entries
  {
    if keys == [] then []
    else Summaries(store, keys[..|keys| - 1]) + SummariesOf(keys[|keys| - 1], store.entries[keys[|keys| - 1]])
  }

  function SummariesOf(project: string, entries: seq<Entry>): (r: seq<Summary>)
    ensures |r| == |entries|
  {
    if entries == [] then []
    else
      var e := entries[|entries| - 1];
      SummariesOf(project, entries[..|entries| - 1]) + [Summary(project, e.unixTimestamp, e.issueCount, e.filesAnalyzed)]
  }

  /** The number of entries stored for the projects in `keys`. */
  function EntryCount(store: Dict<string, seq<Entry>>, keys: seq<string>): nat
    requires forall k :: k in keys ==> k in store.entries
  {
    if keys == [] then 0 else EntryCount(store, keys[..|keys| - 1]) + |store.entries[keys[|keys| - 1]]|
  }

  lemma {:induction false} SummariesCount(store: Dict<string, seq<Entry>>, keys: seq<string>)
    requires forall k :: k in keys ==> k in store.entries
    ensures |Summaries(store, keys)| == EntryCount(store, keys)
  {
    if keys != [] {
      SummariesCount(store, keys[..|keys| - 1]);
    }
  }

  class AnalysisStore {
    var store: Dict<string, seq<Entry>>

    ghost predicate Valid()
      reads this
    {
      store.Valid()
    }

    /**
     * Opens the store: the decoded store file, or an empty store when the file
     * is missing or does not decode (`saved` is `None`).
     */
    constructor (saved: Option<Dict<string, seq<Entry>>>)
      requires saved.Some? ==> saved.value.Valid()
      ensures Valid()
      ensures store == saved.GetOr(Empty())
    {
      store := saved.GetOr(Empty());
    }

    /** The entries stored for a project, `[]` when it has none. */
    function EntriesOf(projectName: string): seq<Entry>
      reads this
    {
      store.Get(projectName).GetOr([])
    }

    /**
     * `store_analysis`: appends one entry for `results` to the project's list,
     * trims the list to the ten latest when it grows past ten, and leaves
     * every other project's list as it was.
     */
    method StoreAnalysis(projectName: string, results: ProjectReport, now: int)
      requires Valid()
      modifies this
      ensures Valid()
      ensures store == Put(old(store), projectName, Trimmed(old(EntriesOf(projectName)) + [NewEntry(projectName, results, now)]))
      ensures EntriesOf(projectName) == Trimmed(old(EntriesOf(projectName)) + [NewEntry(projectName, results, now)])
      ensures |EntriesOf(projectName)| <= MaxEntries
      ensures forall p :: p != projectName ==> EntriesOf(p) == old(EntriesOf(p))
    {
      ghost var appended := EntriesOf(projectName) + [NewEntry(projectName, results, now)];
      var entries := if projectName in store.entries then store.entries[projectName] else [];
      entries := entries + [NewEntry(projectName, results, now)];
      assert entries == appended;
      if |entries| > MaxEntries {
        entries := Sorting.SortDesc(entries, Stamp)[..MaxEntries];
      }
      assert entries == Trimmed(appended) && |entries| <= MaxEntries;
      store := Put(store, projectName, entries);
    }

    /**
     * `get_analysis`: the entry at `index` of the project's list sorted latest
     * first; `None` for an unknown project or an index past the end.
     */
    function GetAnalysis(projectName: string, index: nat): (r: Option<Entry>)
      reads this
      ensures r.None? <==> projectName !in store.entries || index >= |store.entries[projectName]|
      ensures r.Some? ==> r.value in store.entries[projectName]
      ensures r.Some? && index == 0 ==> forall e :: e in store.entries[projectName] ==> e.unixTimestamp <= r.value.unixTimestamp
      ensures r.Some? ==> r.value == Sorting.SortDesc(store.entries[projectName], Stamp)[index]
    {
      if projectName !in store.entries then None
      else
        var sorted := Sorting.SortDesc(store.entries[projectName], Stamp);
        if index >= |sorted| then None
        else
          assert sorted[index] in multiset(store.entries[projectName]);
          assert forall e :: e in store.entries[projectName] ==> e in multiset(sorted);
          Some(sorted[index])
    }

    /** `get_latest_analysis`: the latest entry of the project, `None` when it has none. */
    function GetLatestAnalysis(projectName: string): (r: Option<Entry>)
      reads this
      ensures r.None? <==> EntriesOf(projectName) == []
      ensures r.Some? ==> r.value in EntriesOf(projectName)
      ensures r.Some? ==> forall e :: e in EntriesOf(projectName) ==> e.unixTimestamp <= r.value.unixTimestamp
    {
      GetAnalysis(projectName, 0)
    }

    /**
     * `list_analyses`: one summary for every stored entry of every project,
     * latest first.
     */
    /** The inner loop of `list_analyses`: one summary per entry of `project`, in order, after `all`. */
    static method AppendSummaries(all: seq<Summary>, project: string, entries: seq<Entry>) returns (all1: seq<Summary>)
      ensures all1 == all + SummariesOf(project, entries)
    {
      all1 := all;
      var j := 0;
      while j < |entries|
        invariant 0 <= j <= |entries|
        invariant all1 == all + SummariesOf(project, entries[..j])
      {
        var e := entries[j];
        assert entries[..j + 1][..j] == entries[..j] && entries[..j + 1][j] == e;
        all1 := all1 + [Summary(project, e.unixTimestamp, e.issueCount, e.filesAnalyzed)];
        j := j + 1;
      }
      assert entries[..|entries|] == entries;
    }

    method ListAnalyses() returns (list: seq<Summary>)
      requires Valid()
      ensures multiset(list) == multiset(Summaries(store, store.keys))
      ensures |list| == EntryCount(store, store.keys)
      ensures Sorting.Descending(list, SummaryStamp)
    {
      var all: seq<Summary> := [];
      var keys := store.keys;
      var i := 0;
      while i < |keys|
        invariant 0 <= i <= |keys|
        invariant all == Summaries(store, keys[..i])
      {
        var project := keys[i];
        assert keys[..i + 1][..i] == keys[..i] && keys[..i + 1][i] == project;
        all := AppendSummaries(all, project, store.entries[project]);
        i := i + 1;
      }
      assert keys[..|keys|] == keys;
      SummariesCount(store, keys);
      list := Sorting.SortDesc(all, SummaryStamp);
    }
  }
}
