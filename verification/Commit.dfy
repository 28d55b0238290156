/**
 The commits of one table: what an append, an overwrite and a rewrite make of the table, and
 that in every run, interleaved with anything other writers do, each is exactly the operation it
 is named for on the rows of its parent snapshot.
 */
module Commit {
  import opened Wrappers
  import opened Rows
  import opened IcebergTable
  import opened RewrittenSnapshot

  // ── what a commit makes ─────────────────────────────────────────────────────

  /** What a snapshot is produced over: the parent it names, the manifests it keeps, and their
      totals as the base counts them. */
  datatype Base = Base(
    parent: Option<nat>, list: seq<Listed>, records: Option<nat>, files: Option<nat>, bytes: Option<nat>)

  function NewEntries(files: seq<DataFile>): seq<Entry> {
    if files == [] then [] else [Entry(Added, DataContent, files[0])] + NewEntries(files[1..])
  }

  function Plus(o: Option<nat>, n: nat): Option<nat> {
    if o.Some? then Some(o.value + n) else None
  }

  /** The catalog crate's append: one new manifest with `files` after those of the base, the
      base's snapshot as parent, and the base's totals, where it has them, with the files' own. */
  function Produce(w: World, b: Base, files: seq<DataFile>, did: Did): World {
    var id, path := w.nextSnapshot, w.nextManifest;
    w.(history := w.history[id := Snapshot(b.parent, b.list + [NewListed(w, files)], NewSummary(b, files, did))],
       live := w.live + {id},
       current := Some(id),
       manifests := w.manifests[path := Manifest(DataContent, NewEntries(files), {})],
       paths := w.paths + PathsOf(files),
       nextSnapshot := id + 1,
       nextManifest := path + 1)
  }

  function NewListed(w: World, files: seq<DataFile>): Listed {
    Listed(w.nextManifest, DataContent, Some(|files|), Some(0), Some(Sum(files).records), Some(0), w.nextSnapshot)
  }

  function NewSummary(b: Base, files: seq<DataFile>, did: Did): Summary {
    var sum := Sum(files);
    Summary(did, Plus(b.records, sum.records), Plus(b.files, sum.files), Plus(b.bytes, sum.bytes))
  }

  /** The table as it is, which an append is produced over. */
  function AsIs(w: World): Base {
    if w.current.None? || w.current.value !in w.history then Base(w.current, [], Some(0), Some(0), Some(0))
    else
      var s := w.history[w.current.value];
      Base(w.current, s.list, s.summary.records, s.summary.files, s.summary.bytes)
  }

  /** The table listing no manifests, which an overwrite is produced over. */
  function Emptied(base: Option<nat>): Base {
    Base(base, [], Some(0), Some(0), Some(0))
  }

  /** The table listing only what was added since `of`, which a rewrite is produced over. */
  function Carrying(now: nat, kept: seq<Listed>, totals: Totals): Base {
    Base(Some(now), kept, Some(totals.records), Some(totals.files), Some(totals.bytes))
  }

  ghost predicate Appends(w: World, w': World, files: seq<DataFile>) {
    w' == Produce(w, AsIs(w), files, Append)
  }

  ghost predicate Overwrites(w: World, w': World, base: Option<nat>, files: seq<DataFile>) {
    w.current == base && w' == Produce(w, Emptied(base), files, Overwrite)
  }

  /** What a rewrite of `of` needs of the snapshot it commits over: it was made from `of`, and nothing
      since replaced the files of `of` or could delete rows. */
  ghost predicate Rewritable(w: World, of: nat, now: nat)
    requires of in w.history && now in w.history
  {
    From(w.history, now, of) && Unreplaced(w, of, now)
  }

  ghost predicate Rewrites(w: World, w': World, of: nat, files: seq<DataFile>) {
    && w.current.Some? && of in w.history && w.current.value in w.history
    && Rewritable(w, of, w.current.value)
    && var kept := KeptOf(w, of, w.current.value);
       w' == Produce(w, Carrying(w.current.value, kept, Sum(Held(kept, w.manifests))), files, Rewrite)
  }

  // ── a commit keeps the table well formed ────────────────────────────────────

  function PathsOf(files: seq<DataFile>): set<string> {
    set f | f in files :: f.path
  }

  /** Files no manifest names yet. */
  ghost predicate Fresh(w: World, files: seq<DataFile>) {
    DistinctPaths(files) && PathsOf(files) !! w.paths
  }

  ghost predicate BaseOk(w: World, b: Base) {
    && (b.parent.Some? ==> b.parent.value in w.history)
    && ListOk(b.list, w.manifests)
    && Summarises(Summary(Other, b.records, b.files, b.bytes), b.list, w.manifests)
    && PathsIn(DataFiles(b.list, w.manifests), w.paths)
    && OfParent(w, b)
  }

  /** A base keeps only data files its parent has. */
  ghost predicate OfParent(w: World, b: Base) {
    forall f :: f in DataFiles(b.list, w.manifests) ==>
      b.parent.Some? && b.parent.value in w.history && f in Files(w, b.parent.value)
  }

  lemma {:induction false} NewManifest(files: seq<DataFile>)
    ensures AliveFiles(NewEntries(files)) == files
    ensures CountFiles(NewEntries(files), Added) == |files| && CountFiles(NewEntries(files), Existing) == 0
    ensures CountRows(NewEntries(files), Added) == Sum(files).records && CountRows(NewEntries(files), Existing) == 0
    ensures ManifestOk(Manifest(DataContent, NewEntries(files), {}))
  {
    if files != [] {
      NewManifest(files[1..]);
    }
  }

  /** A list with one more data manifest holds that manifest's files besides. */
  lemma OneMore(list: seq<Listed>, m: Listed, store: map<nat, Manifest>)
    requires m.path in store && m.content == DataContent && store[m.path].deletes == {}
    ensures var alive := AliveFiles(store[m.path].entries);
            && Held(list + [m], store) == Held(list, store) + alive
            && DataFiles(list + [m], store) == DataFiles(list, store) + alive
            && Dead(list + [m], store) == Dead(list, store)
  {
    HeldConcat(list, [m], store);
    DataOnlyConcat(list, [m]);
    HeldConcat(DataOnly(list), [m], store);
    assert [m][1..] == [] && DataOnly([m]) == [m];
    assert Held([m], store) == AliveFiles(store[m.path].entries);
  }

  /** What the new snapshot lists and holds. */
  lemma ProducedHeld(w: World, b: Base, files: seq<DataFile>, did: Did)
    requires TableOk(w) && BaseOk(w, b)
    ensures var w' := Produce(w, b, files, did); var list := w'.history[w.nextSnapshot].list;
            && DataFiles(list, w'.manifests) == DataFiles(b.list, w.manifests) + files
            && Held(list, w'.manifests) == Held(b.list, w.manifests) + files
            && Dead(list, w'.manifests) == Dead(b.list, w.manifests)
  {
    var w' := Produce(w, b, files, did);
    NewManifest(files);
    assert forall e :: e in b.list ==> e.path in w.manifests && e.path < w.nextManifest;
    ListStable(b.list, w.manifests, w'.manifests);
    OneMore(b.list, NewListed(w, files), w'.manifests);
  }

  lemma FilesTogether(a: seq<DataFile>, b: seq<DataFile>, paths: set<string>)
    requires DistinctPaths(a) && DistinctPaths(b) && PathsIn(a, paths) && PathsOf(b) !! paths
    ensures DistinctPaths(a + b) && PathsIn(a + b, paths + PathsOf(b))
  {
    assert forall y :: y in b ==> y.path in PathsOf(b);
  }

  lemma ProducedListings(w: World, b: Base, files: seq<DataFile>, did: Did)
    requires TableOk(w) && BaseOk(w, b)
    ensures var w' := Produce(w, b, files, did); Listings(w'.history[w.nextSnapshot].list, w'.manifests)
  {
    var w' := Produce(w, b, files, did);
    var m := NewListed(w, files);
    assert forall e :: e in b.list ==> e.path in w.manifests && e.path < w.nextManifest;
    assert w'.manifests[m.path] == Manifest(DataContent, NewEntries(files), {});
    NewManifest(files);
    ListingsMore(b.list, m, w'.manifests);
  }

  lemma ListingsMore(list: seq<Listed>, m: Listed, store: map<nat, Manifest>)
    requires Listings(list, store) && m.path in store && ListedRight(m, store[m.path])
    requires forall e :: e in list ==> e.path != m.path
    ensures Listings(list + [m], store)
  {
    assert forall i :: 0 <= i < |list| ==> list[i] in list;
  }

  lemma SummaryPlus(b: Base, files: seq<DataFile>, did: Did, data: Totals, bytes: nat)
    requires SummaryRight(Summary(Other, b.records, b.files, b.bytes), data, bytes)
    ensures SummaryRight(NewSummary(b, files, did), data.Add(Sum(files)), bytes + Sum(files).bytes)
  {
  }

  lemma ProducedSummary(w: World, b: Base, files: seq<DataFile>, did: Did)
    requires TableOk(w) && BaseOk(w, b)
    ensures var w' := Produce(w, b, files, did); var s := w'.history[w.nextSnapshot];
            Summarises(s.summary, s.list, w'.manifests)
  {
    var w' := Produce(w, b, files, did);
    var s := w'.history[w.nextSnapshot];
    var data, held := DataFiles(b.list, w.manifests), Held(b.list, w.manifests);
    SummaryPlus(b, files, did, Sum(data), Sum(held).bytes);
    ProducedHeld(w, b, files, did);
    assert Sum(DataFiles(s.list, w'.manifests)) == Sum(data).Add(Sum(files)) by {
      SumConcat(data, files);
    }
    assert Sum(Held(s.list, w'.manifests)) == Sum(held).Add(Sum(files)) by {
      SumConcat(held, files);
    }
  }

  lemma ProducedSnapshot(w: World, b: Base, files: seq<DataFile>, did: Did)
    requires TableOk(w) && BaseOk(w, b) && Fresh(w, files)
    ensures var w' := Produce(w, b, files, did); var id := w.nextSnapshot; SnapshotOk(w'.history[id], id, w')
  {
    ProducedHeld(w, b, files, did);
    ProducedListings(w, b, files, did);
    ProducedSummary(w, b, files, did);
    FilesTogether(DataFiles(b.list, w.manifests), files, w.paths);
  }

  lemma ProducedOthers(w: World, b: Base, files: seq<DataFile>, did: Did, id: nat)
    requires TableOk(w) && BaseOk(w, b) && Fresh(w, files) && id in w.history
    ensures var w' := Produce(w, b, files, did);
            id in w'.history && w'.history[id] == w.history[id] && SnapshotOk(w'.history[id], id, w')
  {
    var w' := Produce(w, b, files, did);
    assert SnapshotOk(w.history[id], id, w);
    ListStable(w.history[id].list, w.manifests, w'.manifests);
  }

  /** A commit leaves the table well formed and is, to every other writer, one of the things
      another writer may do. */
  lemma ProducedOk(w: World, b: Base, files: seq<DataFile>, did: Did, mine: set<string>)
    requires TableOk(w) && BaseOk(w, b) && Fresh(w, files) && PathsOf(files) !! mine
    ensures TableOk(Produce(w, b, files, did)) && Others(w, Produce(w, b, files, did), mine)
  {
    ProducedTable(w, b, files, did);
  }

  lemma {:induction false} DeadNames(list: seq<Listed>, w: World)
    requires TableOk(w) && Listings(list, w.manifests)
    ensures forall d :: d in Dead(list, w.manifests) ==> d.0 in w.paths
  {
  }

  lemma ProducedSpares(w: World, b: Base, files: seq<DataFile>, did: Did, of: nat)
    requires TableOk(w) && BaseOk(w, b) && Fresh(w, files) && of in w.history
    requires b.parent.Some? && From(w.history, b.parent.value, of)
    ensures Spares(Produce(w, b, files, did), w.nextSnapshot, of)
  {
    var w' := Produce(w, b, files, did);
    ProducedHeld(w, b, files, did);
    OldSnapshot(w, b, files, did, of);
    DeadNames(w.history[of].list, w);
    forall f, d | f in Files(w', w.nextSnapshot) && f !in Files(w', of) && d in Dead(w'.history[of].list, w'.manifests)
      ensures d.0 != f.path
    {
      if f in DataFiles(b.list, w.manifests) {
        assert Spares(w, b.parent.value, of);
      } else {
        assert f.path in PathsOf(files);
      }
    }
  }

  lemma OldSnapshot(w: World, b: Base, files: seq<DataFile>, did: Did, id: nat)
    requires TableOk(w) && id in w.history
    ensures var w' := Produce(w, b, files, did);
            id in w'.history && w'.history[id] == w.history[id] && Files(w', id) == Files(w, id)
            && Dead(w'.history[id].list, w'.manifests) == Dead(w.history[id].list, w.manifests)
            && Listings(w.history[id].list, w.manifests)
  {
    assert SnapshotOk(w.history[id], id, w);
    ListStable(w.history[id].list, w.manifests, Produce(w, b, files, did).manifests);
  }

  lemma ProducedSequenced(w: World, b: Base, files: seq<DataFile>, did: Did)
    requires TableOk(w) && BaseOk(w, b) && Fresh(w, files)
    ensures Sequenced(Produce(w, b, files, did))
  {
    var w' := Produce(w, b, files, did);
    forall id, of | id in w'.history && of in w'.history && From(w'.history, id, of)
      ensures Spares(w', id, of)
    {
      if id in w.history {
        FromStays(w, w'.history, id, of);
        OldSnapshot(w, b, files, did, id);
        OldSnapshot(w, b, files, did, of);
        assert Spares(w, id, of);
      } else if of != id {
        FromStays(w, w'.history, b.parent.value, of);
        ProducedSpares(w, b, files, did, of);
      }
    }
  }

  lemma ProducedTable(w: World, b: Base, files: seq<DataFile>, did: Did)
    requires TableOk(w) && BaseOk(w, b) && Fresh(w, files)
    ensures TableOk(Produce(w, b, files, did))
  {
    var w' := Produce(w, b, files, did);
    NewManifest(files);
    ProducedSequenced(w, b, files, did);
    forall id | id in w'.history
      ensures id < w'.nextSnapshot && SnapshotOk(w'.history[id], id, w')
    {
      if id in w.history {
        ProducedOthers(w, b, files, did, id);
      } else {
        ProducedSnapshot(w, b, files, did);
      }
    }
  }

  // ── the three bases are right ───────────────────────────────────────────────

  lemma AsIsOk(w: World)
    requires TableOk(w)
    ensures BaseOk(w, AsIs(w))
  {
    if w.current.Some? {
      assert SnapshotOk(w.history[w.current.value], w.current.value, w);
    }
  }

  lemma {:induction false} KeptFiles(list: seq<Listed>, gone: set<nat>, store: map<nat, Manifest>)
    requires DistinctPaths(DataFiles(list, store))
    ensures DistinctPaths(DataFiles(Kept(list, gone), store))
    ensures forall f :: f in DataFiles(Kept(list, gone), store) ==> f in DataFiles(list, store)
  {
    if list != [] {
      var a, rest := DataFiles([list[0]], store), DataFiles(list[1..], store);
      assert list == [list[0]] + list[1..];
      DataOnlyConcat([list[0]], list[1..]);
      HeldConcat(DataOnly([list[0]]), DataOnly(list[1..]), store);
      assert DataFiles(list, store) == a + rest;
      assert forall i :: 0 <= i < |rest| ==> (a + rest)[|a| + i] == rest[i];
      KeptFiles(list[1..], gone, store);
      if list[0].path !in gone {
        var k := Kept(list[1..], gone);
        DataOnlyConcat([list[0]], k);
        HeldConcat(DataOnly([list[0]]), DataOnly(k), store);
        assert Kept(list, gone) == [list[0]] + k;
        assert DataFiles(Kept(list, gone), store) == a + DataFiles(k, store);
        DistinctPart(a, rest, DataFiles(k, store));
      } else {
        assert Kept(list, gone) == Kept(list[1..], gone);
      }
    }
  }

  lemma DistinctPart(a: seq<DataFile>, b: seq<DataFile>, c: seq<DataFile>)
    requires DistinctPaths(a + b) && DistinctPaths(c) && forall f :: f in c ==> f in b
    ensures DistinctPaths(a + c)
  {
    forall i, j | 0 <= i < j < |a + c|
      ensures (a + c)[i].path != (a + c)[j].path
    {
      if j < |a| {
        assert (a + b)[i] == a[i] && (a + b)[j] == a[j];
      } else if i < |a| {
        assert c[j - |a|] in b;
        var k :| 0 <= k < |b| && b[k] == c[j - |a|];
        assert (a + b)[i] == a[i] && (a + b)[|a| + k] == b[k];
      }
    }
  }

  lemma {:induction false} KeptOnce(list: seq<Listed>, gone: set<nat>)
    requires OncePerPath(list)
    ensures OncePerPath(Kept(list, gone))
  {
    if list != [] {
      KeptOnce(list[1..], gone);
      KeptIn(list[1..], gone);
    }
  }

  lemma CarryingOk(w: World, of: nat)
    requires TableOk(w) && w.current.Some? && of in w.history && Unreplaced(w, of, w.current.value)
    ensures var now := w.current.value; var kept := KeptOf(w, of, now);
            && BaseOk(w, Carrying(now, kept, Sum(Held(kept, w.manifests))))
            && DataFiles(kept, w.manifests) == Held(kept, w.manifests)
            && Dead(kept, w.manifests) == {}
  {
    var now := w.current.value;
    var kept := KeptOf(w, of, now);
    assert SnapshotOk(w.history[now], now, w);
    KeptIn(w.history[now].list, ListPaths(w.history[of].list));
    KeptOnce(w.history[now].list, ListPaths(w.history[of].list));
    KeptFiles(w.history[now].list, ListPaths(w.history[of].list), w.manifests);
    AllData(kept);
  }

  // ── what each commit does to the rows ───────────────────────────────────────

  /** Files that hold the rows of snapshot `of`, as a compaction copies them: the rows a scan gives,
      so not those that delete files of `of` delete. */
  ghost predicate CopyOf(w: World, of: nat, files: seq<DataFile>)
    requires of in w.history
  {
    multiset(Flatten(files)) == multiset(SnapshotRows(w, of))
  }

  datatype Step =
    | Foreign(next: World)
    | PeqlAppend(files: seq<DataFile>)
    | PeqlOverwrite(base: Option<nat>, files: seq<DataFile>)
    | PeqlRewrite(of: nat, files: seq<DataFile>)

  /** Snapshot `id` is its parent put through the operation, and says so: its rows and its files, and,
      for the operations that count afresh, every total of its summary. */
  ghost predicate Effect(w: World, id: nat, step: Step)
    requires id in w.history
  {
    var s := w.history[id];
    match step
    case Foreign(_) => true
    case PeqlAppend(files) =>
      s.summary.did == Append &&
      if s.parent.None? then SnapshotRows(w, id) == Flatten(files) && Files(w, id) == files
      else
        && s.parent.value in w.history
        && SnapshotRows(w, id) == SnapshotRows(w, s.parent.value) + Flatten(files)
        && Files(w, id) == Files(w, s.parent.value) + files
    case PeqlOverwrite(base, files) =>
      && s.summary.did == Overwrite && s.parent == base
      && SnapshotRows(w, id) == Flatten(files) && Files(w, id) == files
      && Counted(w, id)
    case PeqlRewrite(of, files) =>
      && s.summary.did == Rewrite
      && s.parent.Some? && s.parent.value in w.history && of in w.history
      && multiset(SnapshotRows(w, id)) == multiset(SnapshotRows(w, s.parent.value))
      && Replaced(w, id, s.parent.value, of, files)
      && Counted(w, id)
  }

  /** The files of `id` are those of `parent` with the files of `of`, all of them among those,
      replaced by `files`. */
  ghost predicate Replaced(w: World, id: nat, parent: nat, of: nat, files: seq<DataFile>)
    requires id in w.history && parent in w.history && of in w.history
  {
    exists kept :: Files(w, id) == kept + files
                   && multiset(Files(w, parent)) == multiset(Files(w, of)) + multiset(kept)
                   && |Flatten(files)| == |SnapshotRows(w, of)|
  }

  /** The summary has every total, and each is that of the files alive in the snapshot. */
  ghost predicate Counted(w: World, id: nat)
    requires id in w.history
  {
    var s, sum := w.history[id].summary, Sum(Files(w, id));
    s.records == Some(sum.records) && s.files == Some(sum.files) && s.bytes == Some(sum.bytes)
  }

  lemma ProducedRows(w: World, b: Base, files: seq<DataFile>, did: Did)
    requires TableOk(w) && BaseOk(w, b) && Fresh(w, files)
    ensures var w' := Produce(w, b, files, did); var id := w.nextSnapshot;
            && Files(w', id) == DataFiles(b.list, w.manifests) + files
            && SnapshotRows(w', id) == RowsIn(b.list, w.manifests) + Flatten(files)
  {
    ProducedHeld(w, b, files, did);
    var dead := Dead(b.list, w.manifests);
    LiveConcat(DataFiles(b.list, w.manifests), files, dead);
    DeadNames(b.list, w);
    assert forall f :: f in files ==> f.path in PathsOf(files);
    LiveWhole(files, dead);
  }

  lemma AppendEffect(w: World, files: seq<DataFile>)
    requires TableOk(w) && Fresh(w, files)
    ensures var w' := Produce(w, AsIs(w), files, Append); Effect(w', w.nextSnapshot, PeqlAppend(files))
  {
    AsIsOk(w);
    ProducedRows(w, AsIs(w), files, Append);
    ProducedOk(w, AsIs(w), files, Append, {});
    if w.current.Some? {
      OthersKeep(w, Produce(w, AsIs(w), files, Append), {}, w.current.value);
    } else {
      assert Held([], w.manifests) == [];
    }
  }

  lemma ProducedCounts(w: World, b: Base, files: seq<DataFile>, did: Did)
    requires TableOk(w) && BaseOk(w, b) && Fresh(w, files)
    requires b.records.Some? && b.files.Some? && b.bytes.Some?
    requires DataFiles(b.list, w.manifests) == Held(b.list, w.manifests)
    ensures Counted(Produce(w, b, files, did), w.nextSnapshot)
  {
    ProducedHeld(w, b, files, did);
    ProducedSummary(w, b, files, did);
  }

  lemma OverwriteEffect(w: World, files: seq<DataFile>)
    requires TableOk(w) && Fresh(w, files)
    ensures BaseOk(w, Emptied(w.current))
    ensures var w' := Produce(w, Emptied(w.current), files, Overwrite);
            Effect(w', w.nextSnapshot, PeqlOverwrite(w.current, files))
  {
    assert Held([], w.manifests) == [] && DataOnly([]) == [];
    ProducedRows(w, Emptied(w.current), files, Overwrite);
    ProducedCounts(w, Emptied(w.current), files, Overwrite);
  }

  /** The data manifests a list keeps of another, and the manifests it keeps of it, when it keeps
      data manifests only, are the same. */
  lemma {:induction false} KeptData(list: seq<Listed>, gone: set<nat>, data: set<nat>)
    requires forall e :: e in list ==> (e.path !in gone ==> e.content == DataContent)
    requires forall e :: e in list && e.content == DataContent ==> (e.path in gone <==> e.path in data)
    ensures Kept(DataOnly(list), data) == Kept(list, gone)
  {
    if list != [] {
      assert list[0] in list;
      KeptData(list[1..], gone, data);
      if list[0].content == DataContent {
        assert DataOnly(list)[0] == list[0] && DataOnly(list)[1..] == DataOnly(list[1..]);
      } else {
        assert DataOnly(list) == DataOnly(list[1..]);
      }
    }
  }

  lemma {:induction false} DataOnlyOnce(list: seq<Listed>)
    requires IcebergTable.OncePerPath(list)
    ensures IcebergTable.OncePerPath(DataOnly(list))
  {
    if list != [] {
      DataOnlyOnce(list[1..]);
      DataOnlyIn(list[1..]);
    }
  }

  /** Of two lists that name one manifest, both say what it holds. */
  lemma SameContent(a: seq<Listed>, b: seq<Listed>, store: map<nat, Manifest>)
    requires Listings(a, store) && Listings(b, store)
    ensures forall x, y :: x in a && y in b && x.path == y.path ==> x.content == y.content
  {
    forall x, y | x in a && y in b && x.path == y.path
      ensures x.content == y.content
    {
      assert ListedRight(x, store[x.path]) && ListedRight(y, store[y.path]);
    }
  }

  /** The data files of a list are those of any list whose manifests it still has and those of the
      manifests added, when these are data manifests. */
  lemma DataSplit(list: seq<Listed>, prior: seq<Listed>, store: map<nat, Manifest>)
    requires Listings(list, store) && Listings(prior, store)
    requires ListPaths(prior) <= ListPaths(list) && AllKeptData(list, ListPaths(prior))
    ensures multiset(DataFiles(list, store)) ==
            multiset(DataFiles(prior, store)) + multiset(DataFiles(Kept(list, ListPaths(prior)), store))
  {
    DataOnlyOnce(list);
    DataOnlyOnce(prior);
    DataOnlyIn(list);
    DataOnlyIn(prior);
    SameContent(list, prior, store);
    forall p | p in ListPaths(DataOnly(prior))
      ensures p in ListPaths(DataOnly(list))
    {
      var x :| x in DataOnly(prior) && x.path == p;
      assert p in ListPaths(prior);
      var y :| y in list && y.path == p;
      assert y in DataOnly(list);
    }
    Split(DataOnly(list), DataOnly(prior), store);
    forall e | e in list && e.content == DataContent
      ensures e.path in ListPaths(prior) <==> e.path in ListPaths(DataOnly(prior))
    {
      if e.path in ListPaths(prior) {
        var x :| x in prior && x.path == e.path;
        assert x in DataOnly(prior);
      }
    }
    KeptData(list, ListPaths(prior), ListPaths(DataOnly(prior)));
    KeptIn(list, ListPaths(prior));
    AllData(Kept(list, ListPaths(prior)));
  }

  /** And what is deleted is the same: no manifest added deletes, and none that deleted is gone. */
  lemma DeadSame(list: seq<Listed>, prior: seq<Listed>, w: World)
    requires TableOk(w) && Listings(list, w.manifests) && Listings(prior, w.manifests)
    requires ListPaths(prior) <= ListPaths(list) && AllKeptData(list, ListPaths(prior))
    ensures Dead(list, w.manifests) == Dead(prior, w.manifests)
  {
    forall d | d in Dead(list, w.manifests)
      ensures d in Dead(prior, w.manifests)
    {
      var e :| e in list && e.path in w.manifests && d in w.manifests[e.path].deletes;
      assert ListedRight(e, w.manifests[e.path]) && ManifestOk(w.manifests[e.path]);
      assert e.path in ListPaths(prior);
      var x :| x in prior && x.path == e.path;
    }
    forall d | d in Dead(prior, w.manifests)
      ensures d in Dead(list, w.manifests)
    {
      var x :| x in prior && x.path in w.manifests && d in w.manifests[x.path].deletes;
      assert x.path in ListPaths(prior);
      var e :| e in list && e.path == x.path;
    }
  }

  lemma NotBoth(all: seq<DataFile>, a: seq<DataFile>, b: seq<DataFile>)
    requires DistinctPaths(all) && multiset(all) == multiset(a) + multiset(b)
    ensures forall f :: f in a && f in b ==> false
    ensures forall f :: f in b ==> f in all
  {
    forall f | f in a && f in b
      ensures false
    {
      assert multiset(all)[f] >= 2;
      OnceEach(all, f);
    }
    assert forall f :: f in b ==> f in multiset(all);
  }

  lemma {:induction false} OnceEach(all: seq<DataFile>, f: DataFile)
    requires DistinctPaths(all)
    ensures multiset(all)[f] <= 1
  {
    if all != [] {
      OnceEach(all[1..], f);
      assert all == [all[0]] + all[1..];
      if all[0] == f {
        assert f !in all[1..];
      }
    }
  }

  /** The parent of a rewrite, split into what the rewrite replaces and what it keeps: its files, and
      its rows, whether or not delete files delete some of those of `of`. */
  lemma RewriteParts(w: World, of: nat)
    requires TableOk(w) && w.current.Some? && of in w.history && Rewritable(w, of, w.current.value)
    ensures var now := w.current.value; var kept := DataFiles(KeptOf(w, of, now), w.manifests);
            && multiset(Files(w, now)) == multiset(Files(w, of)) + multiset(kept)
            && multiset(SnapshotRows(w, now)) == multiset(SnapshotRows(w, of)) + multiset(Flatten(kept))
  {
    var now := w.current.value;
    var list, prior := w.history[now].list, w.history[of].list;
    var kept := DataFiles(KeptOf(w, of, now), w.manifests);
    assert SnapshotOk(w.history[now], now, w) && SnapshotOk(w.history[of], of, w);
    DataSplit(list, prior, w.manifests);
    DeadSame(list, prior, w);
    NotBoth(Files(w, now), Files(w, of), kept);
    var dead := Dead(prior, w.manifests);
    assert Spares(w, now, of);
    LiveWhole(kept, dead);
    assert multiset(Files(w, of) + kept) == multiset(Files(w, now));
    LivePermuted(Files(w, now), Files(w, of) + kept, dead);
    LiveConcat(Files(w, of), kept, dead);
  }

  lemma RewriteEffect(w: World, of: nat, files: seq<DataFile>)
    requires TableOk(w) && Fresh(w, files)
    requires w.current.Some? && of in w.history && Rewritable(w, of, w.current.value) && CopyOf(w, of, files)
    ensures var now := w.current.value; var kept := KeptOf(w, of, now);
            var b := Carrying(now, kept, Sum(Held(kept, w.manifests)));
            var w' := Produce(w, b, files, Rewrite);
            Effect(w', w.nextSnapshot, PeqlRewrite(of, files))
  {
    var now := w.current.value;
    var list := KeptOf(w, of, now);
    var b := Carrying(now, list, Sum(Held(list, w.manifests)));
    var w' := Produce(w, b, files, Rewrite);
    var id := w.nextSnapshot;
    CarryingOk(w, of);
    ProducedRows(w, b, files, Rewrite);
    ProducedCounts(w, b, files, Rewrite);
    ProducedOk(w, b, files, Rewrite, {});
    OthersKeep(w, w', {}, now);
    OthersKeep(w, w', {}, of);
    RewriteParts(w, of);
    var kept := DataFiles(list, w.manifests);
    LiveWhole(kept, {});
    SameLength(Flatten(files), SnapshotRows(w, of));
    assert Files(w', id) == kept + files;
  }

  // ── every run ───────────────────────────────────────────────────────────────

  /** The table, and what peQL did to make each of the snapshots it made. */
  datatype State = State(world: World, made: map<nat, Step>)

  /** What one step makes of the table. */
  ghost predicate Makes(w: World, step: Step, w': World) {
    match step
    case Foreign(next) => Others(w, next, {}) && w' == next
    case PeqlAppend(files) => Fresh(w, files) && Appends(w, w', files)
    case PeqlOverwrite(base, files) => Fresh(w, files) && Overwrites(w, w', base, files)
    case PeqlRewrite(of, files) =>
      Fresh(w, files) && of in w.history && CopyOf(w, of, files) && Rewrites(w, w', of, files)
  }

  ghost predicate Next(st: State, step: Step, st': State) {
    && Makes(st.world, step, st'.world)
    && st'.made == if step.Foreign? then st.made else st.made[st.world.nextSnapshot := step]
  }

  /** A run: any commits of peQL's writers, in any order, with any foreign steps between them. */
  ghost predicate Run(sts: seq<State>, steps: seq<Step>) {
    && |sts| == |steps| + 1
    && TableOk(sts[0].world) && sts[0].made == map[]
    && forall i :: 0 <= i < |steps| ==> Next(sts[i], steps[i], sts[i + 1])
  }

  ghost predicate Safe(st: State) {
    && TableOk(st.world)
    && forall id :: id in st.made ==> id in st.world.history && Effect(st.world, id, st.made[id])
  }

  lemma EffectStays(w: World, w': World, mine: set<string>, id: nat, step: Step)
    requires TableOk(w) && Others(w, w', mine) && id in w.history && Effect(w, id, step)
    ensures Effect(w', id, step)
  {
    var s := w.history[id];
    assert SnapshotOk(s, id, w);
    OthersKeep(w, w', mine, id);
    if s.parent.Some? {
      OthersKeep(w, w', mine, s.parent.value);
    }
    if step.PeqlRewrite? {
      OthersKeep(w, w', mine, step.of);
      var kept :| Files(w, id) == kept + step.files
                  && multiset(Files(w, s.parent.value)) == multiset(Files(w, step.of)) + multiset(kept)
                  && |Flatten(step.files)| == |SnapshotRows(w, step.of)|;
      assert Files(w', id) == kept + step.files;
    }
  }

  /** One commit: the table stays well formed, and the new snapshot is what the step says. */
  lemma StepEffect(st: State, step: Step, st': State)
    requires Safe(st) && Next(st, step, st')
    ensures TableOk(st'.world) && Others(st.world, st'.world, {})
    ensures !step.Foreign? ==> st.world.nextSnapshot in st'.world.history
                               && Effect(st'.world, st.world.nextSnapshot, step)
  {
    var w := st.world;
    match step
    case Foreign(_) =>
    case PeqlAppend(files) =>
      AsIsOk(w);
      ProducedOk(w, AsIs(w), files, Append, {});
      AppendEffect(w, files);
    case PeqlOverwrite(base, files) =>
      OverwriteEffect(w, files);
      ProducedOk(w, Emptied(base), files, Overwrite, {});
    case PeqlRewrite(of, files) =>
      CarryingOk(w, of);
      var kept := KeptOf(w, of, w.current.value);
      ProducedOk(w, Carrying(w.current.value, kept, Sum(Held(kept, w.manifests))), files, Rewrite, {});
      RewriteEffect(w, of, files);
  }

  lemma StepMade(st: State, step: Step, st': State)
    requires Next(st, step, st')
    ensures st'.made == if step.Foreign? then st.made else st.made[st.world.nextSnapshot := step]
  {
  }

  lemma SafeAfter(st: State, step: Step, st': State)
    requires Safe(st) && TableOk(st'.world) && Others(st.world, st'.world, {})
    requires st'.made == if step.Foreign? then st.made else st.made[st.world.nextSnapshot := step]
    requires !step.Foreign? ==> st.world.nextSnapshot in st'.world.history
                                && Effect(st'.world, st.world.nextSnapshot, step)
    ensures Safe(st')
  {
    forall id | id in st'.made
      ensures id in st'.world.history && Effect(st'.world, id, st'.made[id])
    {
      if id in st.made && id != st.world.nextSnapshot {
        EffectStays(st.world, st'.world, {}, id, st.made[id]);
      }
    }
  }

  lemma StepSafe(st: State, step: Step, st': State)
    requires Safe(st) && Next(st, step, st')
    ensures Safe(st') && Others(st.world, st'.world, {})
  {
    StepEffect(st, step, st');
    StepMade(st, step, st');
    assert st.world.nextSnapshot !in st.made;
    SafeAfter(st, step, st');
  }

  /** In every state of every run, each snapshot peQL made is its parent put through its
      operation: an append adds its rows, an overwrite has only its own, a rewrite has its
      parent's rows exactly, whatever was appended since the snapshot it rewrote. */
  lemma {:induction false} RunSafe(sts: seq<State>, steps: seq<Step>, k: nat)
    requires Run(sts, steps) && k < |sts|
    ensures Safe(sts[k])
  {
    if k > 0 {
      RunSafe(sts, steps, k - 1);
      StepSafe(sts[k - 1], steps[k - 1], sts[k]);
    }
  }

  lemma RunStep(sts: seq<State>, steps: seq<Step>, k: nat)
    requires Run(sts, steps) && k < |steps|
    ensures Safe(sts[k + 1]) && Others(sts[k].world, sts[k + 1].world, {})
  {
    RunSafe(sts, steps, k);
    StepSafe(sts[k], steps[k], sts[k + 1]);
  }

  /** Along a run the table only grows, so an earlier state's snapshots are a later one's. */
  lemma {:induction false} RunGrows(sts: seq<State>, steps: seq<Step>, i: nat, j: nat)
    requires Run(sts, steps) && i <= j < |sts|
    ensures Others(sts[i].world, sts[j].world, {})
    decreases j
  {
    if i == j {
      RunSafe(sts, steps, j);
    } else {
      RunGrows(sts, steps, i, j - 1);
      GrowsMore(sts, steps, i, j);
    }
  }

  lemma GrowsMore(sts: seq<State>, steps: seq<Step>, i: nat, j: nat)
    requires Run(sts, steps) && i < j < |sts| && Others(sts[i].world, sts[j - 1].world, {})
    ensures Others(sts[i].world, sts[j].world, {})
  {
    StepGrows(sts, steps, j - 1);
    OthersCompose(sts[i].world, sts[j - 1].world, sts[j].world, {});
  }

  lemma StepGrows(sts: seq<State>, steps: seq<Step>, k: nat)
    requires Run(sts, steps) && k < |steps|
    ensures Others(sts[k].world, sts[k + 1].world, {})
  {
    RunStep(sts, steps, k);
  }

  lemma StillThere(sts: seq<State>, steps: seq<Step>, id: nat, i: nat, j: nat)
    requires Run(sts, steps) && i <= j < |sts| && id in sts[i].world.history
    ensures TableOk(sts[j].world) && id in sts[j].world.history
  {
    RunGrows(sts, steps, i, j);
  }

  /** Some step between `i` and `j` moved the pointer back to `base`, and it was not peQL's. */
  ghost predicate RolledBack(sts: seq<State>, steps: seq<Step>, base: Option<nat>, i: nat, j: nat)
    requires Run(sts, steps) && j < |steps|
  {
    exists k :: i < k < j && steps[k].Foreign?
                && sts[k].world.current != base && sts[k + 1].world.current == base
  }

  /** A commit of peQL's moves the pointer to a snapshot that was not there. */
  lemma MovesOn(st: State, step: Step, st': State, base: Option<nat>)
    requires TableOk(st.world) && Next(st, step, st') && !step.Foreign?
    requires base.Some? ==> base.value in st.world.history
    ensures st'.world.current != base
  {
    assert st'.world.current == Some(st.world.nextSnapshot);
  }

  lemma {:induction false} BackAtBase(sts: seq<State>, steps: seq<Step>, base: Option<nat>, i: nat, j: nat)
    requires Run(sts, steps) && i < j < |steps|
    requires base.Some? ==> base.value in sts[i + 1].world.history
    requires sts[i + 1].world.current != base && sts[j].world.current == base
    ensures RolledBack(sts, steps, base, i, j)
    decreases j
  {
    var k := j - 1;
    if sts[k].world.current == base {
      BackAtBase(sts, steps, base, i, k);
      var m :| i < m < k && steps[m].Foreign? && sts[m].world.current != base && sts[m + 1].world.current == base;
    } else if !steps[k].Foreign? {
      if base.Some? {
        StillThere(sts, steps, base.value, i + 1, k);
      } else {
        RunSafe(sts, steps, k);
      }
      MovesOn(sts[k], steps[k], sts[k + 1], base);
    }
  }

  /** When a run holds two overwrites of the same base, some foreign step between them restored the
      pointer to it. */
  lemma OverwritesFromOneBase(sts: seq<State>, steps: seq<Step>, i: nat, j: nat)
    requires Run(sts, steps) && i < j < |steps|
    requires steps[i].PeqlOverwrite? && steps[j].PeqlOverwrite? && steps[i].base == steps[j].base
    ensures RolledBack(sts, steps, steps[i].base, i, j)
  {
    RunSafe(sts, steps, i);
    assert Next(sts[i], steps[i], sts[i + 1]) && Next(sts[j], steps[j], sts[j + 1]);
    BackAtBase(sts, steps, steps[i].base, i, j);
  }

  /** With such a move both do commit, whatever the table, the snapshot they began from and the files
      they write: an overwrite, a move of the pointer back to that snapshot, and the other. */
  lemma BothCommitAfterRollback(w: World, base: Option<nat>, f: seq<DataFile>, g: seq<DataFile>)
    returns (sts: seq<State>, steps: seq<Step>)
    requires TableOk(w) && w.current == base && Fresh(w, f) && Fresh(w, g) && PathsOf(f) !! PathsOf(g)
    ensures Run(sts, steps) && sts[0].world == w && |steps| == 3
    ensures steps[0] == PeqlOverwrite(base, f) && steps[2] == PeqlOverwrite(base, g)
    ensures steps[1] == Foreign(sts[1].world.(current := base))
  {
    var s0 := State(w, map[]);
    var s1 := Overwritten(s0, base, f);
    var s2 := State(s1.world.(current := base), s1.made);
    RollBack(s1.world, base);
    var s3 := Overwritten(s2, base, g);
    sts, steps := ThreeSteps(s0, PeqlOverwrite(base, f), s1, Foreign(s2.world), s2, PeqlOverwrite(base, g), s3);
  }

  lemma ThreeSteps(s0: State, a: Step, s1: State, b: Step, s2: State, c: Step, s3: State)
    returns (sts: seq<State>, steps: seq<Step>)
    requires TableOk(s0.world) && s0.made == map[] && Next(s0, a, s1) && Next(s1, b, s2) && Next(s2, c, s3)
    ensures Run(sts, steps) && sts == [s0, s1, s2, s3] && steps == [a, b, c]
  {
    sts, steps := Chain3((s, x, t) => Next(s, x, t), s0, a, s1, b, s2, c, s3);
  }

  lemma Overwritten(st: State, base: Option<nat>, files: seq<DataFile>) returns (st': State)
    requires TableOk(st.world) && st.world.current == base && Fresh(st.world, files)
    ensures TableOk(st'.world) && Next(st, PeqlOverwrite(base, files), st')
    ensures st'.world.live == st.world.live + {st.world.nextSnapshot}
            && st'.world.paths == st.world.paths + PathsOf(files)
  {
    var w := st.world;
    OverwriteEffect(w, files);
    ProducedOk(w, Emptied(base), files, Overwrite, {});
    st' := State(Produce(w, Emptied(base), files, Overwrite), st.made[w.nextSnapshot := PeqlOverwrite(base, files)]);
  }

  lemma RollBack(w: World, base: Option<nat>)
    requires TableOk(w) && (base.Some? ==> base.value in w.live)
    ensures Others(w, w.(current := base), {})
  {
    var w' := w.(current := base);
    forall id | id in w'.history
      ensures SnapshotOk(w'.history[id], id, w')
    {
      assert SnapshotOk(w.history[id], id, w);
    }
    forall id, of | id in w'.history && of in w'.history && From(w'.history, id, of)
      ensures Spares(w', id, of)
    {
      assert Spares(w, id, of);
    }
  }
}
