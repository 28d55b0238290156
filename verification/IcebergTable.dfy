/**
 An Iceberg table as its metadata has it: immutable manifests, snapshots that list them, and a
 pointer to the current snapshot. Snapshot ids and manifest paths are numbers handed out in
 order of creation, which stands for the table's sequence numbers: nothing is ever numbered
 twice, and a snapshot's parent was made before it.
 */
module IcebergTable {
  import opened Wrappers
  import opened Rows

  datatype Status = Added | Existing | Deleted

  datatype ContentType = DataContent | DeleteContent

  /** One entry of a manifest. */
  datatype Entry = Entry(status: Status, content: ContentType, file: DataFile)

  /** What a manifest holds; a delete manifest deletes rows by file and position. */
  datatype Manifest = Manifest(content: ContentType, entries: seq<Entry>, deletes: set<(string, nat)>)

  /** A snapshot's listing of one manifest; its counts are optional. */
  datatype Listed = Listed(
    path: nat,
    content: ContentType,
    addedFiles: Option<nat>,
    existingFiles: Option<nat>,
    addedRows: Option<nat>,
    existingRows: Option<nat>,
    addedBy: nat)

  /** What a snapshot did: a write of peQL's (`peql.write`), or something else. */
  datatype Did = Append | Overwrite | Rewrite | Other

  /** A snapshot's summary; its totals are optional. */
  datatype Summary = Summary(did: Did, records: Option<nat>, files: Option<nat>, bytes: Option<nat>)

  datatype Snapshot = Snapshot(parent: Option<nat>, list: seq<Listed>, summary: Summary)

  /** The table and every object it ever named. `history` keeps each snapshot ever made, `live`
      the ids the metadata still has (the others are expired), `paths` every data file path
      any manifest names. */
  datatype World = World(
    uuid: nat,
    v2: bool,
    history: map<nat, Snapshot>,
    live: set<nat>,
    current: Option<nat>,
    manifests: map<nat, Manifest>,
    paths: set<string>,
    nextSnapshot: nat,
    nextManifest: nat)

  // ── what a list of manifests holds ──────────────────────────────────────────

  function AliveFiles(es: seq<Entry>): seq<DataFile> {
    if es == [] then []
    else (if es[0].status == Deleted then [] else [es[0].file]) + AliveFiles(es[1..])
  }

  /** The files alive in the manifests `list` names, of both contents. */
  function Held(list: seq<Listed>, store: map<nat, Manifest>): seq<DataFile> {
    if list == [] then []
    else (if list[0].path in store then AliveFiles(store[list[0].path].entries) else []) + Held(list[1..], store)
  }

  function DataOnly(list: seq<Listed>): seq<Listed> {
    if list == [] then []
    else (if list[0].content == DataContent then [list[0]] else []) + DataOnly(list[1..])
  }

  /** The data files alive in the manifests `list` names. */
  function DataFiles(list: seq<Listed>, store: map<nat, Manifest>): seq<DataFile> {
    Held(DataOnly(list), store)
  }

  /** The rows the manifests of `list` delete, by file and position. */
  function Dead(list: seq<Listed>, store: map<nat, Manifest>): set<(string, nat)> {
    set e, d | e in list && e.path in store && d in store[e.path].deletes :: d
  }

  /** The rows of a table that lists `list`. */
  function RowsIn(list: seq<Listed>, store: map<nat, Manifest>): seq<Row> {
    Live(DataFiles(list, store), Dead(list, store))
  }

  function ListPaths(list: seq<Listed>): set<nat> {
    set e | e in list :: e.path
  }

  /** The entries of `list` whose manifest is not one of `gone`. */
  function Kept(list: seq<Listed>, gone: set<nat>): seq<Listed> {
    if list == [] then []
    else (if list[0].path in gone then [] else [list[0]]) + Kept(list[1..], gone)
  }

  function Files(w: World, id: nat): seq<DataFile>
    requires id in w.history
  {
    DataFiles(w.history[id].list, w.manifests)
  }

  function SnapshotRows(w: World, id: nat): seq<Row>
    requires id in w.history
  {
    RowsIn(w.history[id].list, w.manifests)
  }

  // ── well-formed tables ──────────────────────────────────────────────────────

  function CountFiles(es: seq<Entry>, s: Status): nat {
    if es == [] then 0 else (if es[0].status == s then 1 else 0) + CountFiles(es[1..], s)
  }

  function CountRows(es: seq<Entry>, s: Status): nat {
    if es == [] then 0 else (if es[0].status == s then |es[0].file.rows| else 0) + CountRows(es[1..], s)
  }

  predicate Counts(o: Option<nat>, n: nat) {
    o.Some? ==> o.value == n
  }

  /** Those counts of a listing that are present are right. */
  predicate ListedRight(e: Listed, m: Manifest) {
    && e.content == m.content
    && Counts(e.addedFiles, CountFiles(m.entries, Added))
    && Counts(e.existingFiles, CountFiles(m.entries, Existing))
    && Counts(e.addedRows, CountRows(m.entries, Added))
    && Counts(e.existingRows, CountRows(m.entries, Existing))
  }

  /** A data manifest lists data files and deletes nothing. */
  ghost predicate ManifestOk(m: Manifest) {
    m.content == DataContent ==>
      m.deletes == {} && forall e :: e in m.entries && e.status != Deleted ==> e.content == DataContent
  }

  ghost predicate OncePerPath(list: seq<Listed>) {
    forall i, j :: 0 <= i < j < |list| ==> list[i].path != list[j].path
  }

  ghost predicate Listings(list: seq<Listed>, store: map<nat, Manifest>) {
    OncePerPath(list) && forall e :: e in list ==> e.path in store && ListedRight(e, store[e.path])
  }

  /** A list of manifests the store has, each listed once, with right counts, holding no data
      file twice. */
  ghost predicate ListOk(list: seq<Listed>, store: map<nat, Manifest>) {
    Listings(list, store) && DistinctPaths(DataFiles(list, store))
  }

  /** Those totals of a summary that are present are right: `data` is what the data files add
      up to, `bytes` counts delete files too. */
  predicate SummaryRight(s: Summary, data: Totals, bytes: nat) {
    Counts(s.records, data.records) && Counts(s.files, data.files) && Counts(s.bytes, bytes)
  }

  predicate Summarises(s: Summary, list: seq<Listed>, store: map<nat, Manifest>) {
    SummaryRight(s, Sum(DataFiles(list, store)), Sum(Held(list, store)).bytes)
  }

  ghost predicate PathsIn(files: seq<DataFile>, paths: set<string>) {
    forall f :: f in files ==> f.path in paths
  }

  ghost predicate SnapshotOk(s: Snapshot, id: nat, w: World) {
    && (s.parent.Some? ==> s.parent.value in w.history && s.parent.value < id)
    && ListOk(s.list, w.manifests)
    && Summarises(s.summary, s.list, w.manifests)
    && PathsIn(DataFiles(s.list, w.manifests), w.paths)
  }

  /** Snapshot `of` is `at` or one it was made from, by way of parents. */
  ghost predicate From(history: map<nat, Snapshot>, at: nat, of: nat)
    decreases at
  {
    at == of ||
    (at in history && history[at].parent.Some? && history[at].parent.value < at
     && From(history, history[at].parent.value, of))
  }

  /** A data file that `id` has and `of` does not is named by no delete file of `of`. */
  ghost predicate Spares(w: World, id: nat, of: nat)
    requires id in w.history && of in w.history
  {
    forall f, d :: f in Files(w, id) && f !in Files(w, of) && d in Dead(w.history[of].list, w.manifests) ==>
      d.0 != f.path
  }

  /** A delete file deletes rows of files no newer than it, as the table's sequence numbers have it:
      never of a file added to a snapshot since. */
  ghost predicate Sequenced(w: World) {
    forall id, of :: id in w.history && of in w.history && From(w.history, id, of) ==> Spares(w, id, of)
  }

  ghost predicate TableOk(w: World) {
    && (forall id :: id in w.history ==> id < w.nextSnapshot && SnapshotOk(w.history[id], id, w))
    && w.live <= w.history.Keys
    && (w.current.Some? ==> w.current.value in w.live)
    && (forall p :: p in w.manifests ==> p < w.nextManifest && ManifestOk(w.manifests[p]))
    && (forall p, d :: p in w.manifests && d in w.manifests[p].deletes ==> d.0 in w.paths)
    && Sequenced(w)
  }

  /** What other writers may do between two looks at the table, in any number of commits: add
      snapshots, move or clear the current pointer (a rollback among the moves), expire
      snapshots, raise the format, replace the table. Snapshots and manifests are immutable,
      ids fresh, and nobody else names a path in `mine`. */
  ghost predicate Others(w: World, w': World, mine: set<string>) {
    && TableOk(w')
    && (forall id :: id in w.history ==> id in w'.history && w'.history[id] == w.history[id])
    && (forall id :: id in w'.history && id !in w.history ==> id >= w.nextSnapshot)
    && (forall p :: p in w.manifests ==> p in w'.manifests && w'.manifests[p] == w.manifests[p])
    && (forall p :: p in w'.manifests && p !in w.manifests ==> p >= w.nextManifest)
    && w.nextSnapshot <= w'.nextSnapshot && w.nextManifest <= w'.nextManifest
    && w.paths <= w'.paths && (w'.paths - w.paths) !! mine
  }

  // ── lemmas: lists and stores ────────────────────────────────────────────────

  lemma OthersCompose(a: World, b: World, c: World, mine: set<string>)
    requires Others(a, b, mine) && Others(b, c, mine)
    ensures Others(a, c, mine)
  {
  }

  lemma {:induction false} HeldConcat(a: seq<Listed>, b: seq<Listed>, store: map<nat, Manifest>)
    ensures Held(a + b, store) == Held(a, store) + Held(b, store)
  {
    if a == [] {
      assert a + b == b;
    } else {
      assert (a + b)[1..] == a[1..] + b;
      HeldConcat(a[1..], b, store);
    }
  }

  lemma {:induction false} DataOnlyConcat(a: seq<Listed>, b: seq<Listed>)
    ensures DataOnly(a + b) == DataOnly(a) + DataOnly(b)
  {
    if a == [] {
      assert a + b == b;
    } else {
      var first := if a[0].content == DataContent then [a[0]] else [];
      assert (a + b)[1..] == a[1..] + b && (a + b)[0] == a[0];
      DataOnlyConcat(a[1..], b);
      assert DataOnly(a) == first + DataOnly(a[1..]);
      assert DataOnly(a + b) == first + DataOnly(a[1..] + b);
      assert first + (DataOnly(a[1..]) + DataOnly(b)) == (first + DataOnly(a[1..])) + DataOnly(b);
    }
  }

  lemma {:induction false} DataOnlyIn(list: seq<Listed>)
    ensures forall e :: e in DataOnly(list) <==> e in list && e.content == DataContent
  {
    if list != [] {
      DataOnlyIn(list[1..]);
    }
  }

  lemma {:induction false} AllData(list: seq<Listed>)
    requires forall e :: e in list ==> e.content == DataContent
    ensures DataOnly(list) == list
  {
    if list != [] {
      assert list[0] in list;
      AllData(list[1..]);
    }
  }

  lemma {:induction false} KeptIn(list: seq<Listed>, gone: set<nat>)
    ensures forall e :: e in Kept(list, gone) <==> e in list && e.path !in gone
  {
    if list != [] {
      KeptIn(list[1..], gone);
    }
  }

  /** Manifests added to the store change nothing for a list that does not name them. */
  lemma {:induction false} HeldStable(list: seq<Listed>, a: map<nat, Manifest>, b: map<nat, Manifest>)
    requires forall e :: e in list ==> e.path in a && e.path in b && a[e.path] == b[e.path]
    ensures Held(list, a) == Held(list, b)
  {
    if list != [] {
      assert list[0] in list;
      HeldStable(list[1..], a, b);
    }
  }

  lemma ListStable(list: seq<Listed>, a: map<nat, Manifest>, b: map<nat, Manifest>)
    requires forall e :: e in list ==> e.path in a && e.path in b && a[e.path] == b[e.path]
    ensures DataFiles(list, a) == DataFiles(list, b) && Held(list, a) == Held(list, b)
    ensures Dead(list, a) == Dead(list, b) && RowsIn(list, a) == RowsIn(list, b)
    ensures ListOk(list, a) <==> ListOk(list, b)
  {
    HeldStable(list, a, b);
    DataOnlyIn(list);
    HeldStable(DataOnly(list), a, b);
  }

  /** A snapshot holds what it held when it was made, whatever other writers did since. */
  lemma OthersKeep(w: World, w': World, mine: set<string>, id: nat)
    requires TableOk(w) && Others(w, w', mine) && id in w.history
    ensures Files(w', id) == Files(w, id) && SnapshotRows(w', id) == SnapshotRows(w, id)
  {
    ListStable(w.history[id].list, w.manifests, w'.manifests);
  }

  /** What a snapshot was made from does not change as snapshots are added. */
  lemma {:induction false} FromStays(w: World, history: map<nat, Snapshot>, at: nat, of: nat)
    requires TableOk(w) && at in w.history
    requires forall id :: id in w.history ==> id in history && history[id] == w.history[id]
    ensures From(history, at, of) <==> From(w.history, at, of)
    ensures From(w.history, at, of) ==> of in w.history && of <= at
    decreases at
  {
    assert SnapshotOk(w.history[at], at, w);
    if w.history[at].parent.Some? {
      FromStays(w, history, w.history[at].parent.value, of);
    }
  }

  lemma {:induction false} CountsTotal(es: seq<Entry>)
    ensures Sum(AliveFiles(es)).files == CountFiles(es, Added) + CountFiles(es, Existing)
    ensures Sum(AliveFiles(es)).records == CountRows(es, Added) + CountRows(es, Existing)
  {
    if es != [] {
      CountsTotal(es[1..]);
      if es[0].status != Deleted {
        assert AliveFiles(es) == [es[0].file] + AliveFiles(es[1..]);
        SumConcat([es[0].file], AliveFiles(es[1..]));
      } else {
        assert AliveFiles(es) == AliveFiles(es[1..]);
      }
    }
  }

  function Without(list: seq<Listed>, i: nat): seq<Listed>
    requires i < |list|
  {
    list[..i] + list[i + 1..]
  }

  lemma HeldWithout(list: seq<Listed>, i: nat, store: map<nat, Manifest>)
    requires i < |list|
    ensures multiset(Held(list, store)) == multiset(Held([list[i]], store)) + multiset(Held(Without(list, i), store))
  {
    assert list == list[..i] + ([list[i]] + list[i + 1..]);
    HeldConcat(list[..i], [list[i]] + list[i + 1..], store);
    HeldConcat([list[i]], list[i + 1..], store);
    HeldConcat(list[..i], list[i + 1..], store);
  }

  lemma KeptWithout(list: seq<Listed>, i: nat, gone: set<nat>)
    requires i < |list| && list[i].path in gone
    ensures Kept(list, gone) == Kept(Without(list, i), gone)
  {
    assert list == list[..i] + ([list[i]] + list[i + 1..]);
    KeptConcat(list[..i], [list[i]] + list[i + 1..], gone);
    KeptConcat([list[i]], list[i + 1..], gone);
    KeptConcat(list[..i], list[i + 1..], gone);
    assert Kept([list[i]], gone) == [];
  }

  lemma RestHasOthers(list: seq<Listed>, i: nat, prior: seq<Listed>)
    requires OncePerPath(list) && OncePerPath(prior) && i < |list| && prior != []
    requires list[i].path == prior[0].path && ListPaths(prior) <= ListPaths(list)
    ensures OncePerPath(Without(list, i)) && OncePerPath(prior[1..])
    ensures ListPaths(prior[1..]) <= ListPaths(Without(list, i))
    ensures ListPaths(prior) == ListPaths(prior[1..]) + {list[i].path}
    ensures list[i].path !in ListPaths(Without(list, i))
  {
    var rest := Without(list, i);
    assert prior == [prior[0]] + prior[1..];
    forall x | x in prior[1..]
      ensures x.path in ListPaths(rest)
    {
      var j :| 0 <= j < |prior[1..]| && prior[1..][j] == x;
      assert prior[j + 1] == x && x in prior && x.path in ListPaths(prior);
      var k :| 0 <= k < |list| && list[k].path == x.path;
      assert list[k] == rest[if k < i then k else k - 1];
    }
  }

  lemma SplitFirst(list: seq<Listed>, prior: seq<Listed>, store: map<nat, Manifest>) returns (rest: seq<Listed>)
    requires OncePerPath(list) && OncePerPath(prior) && prior != [] && ListPaths(prior) <= ListPaths(list)
    ensures OncePerPath(rest) && OncePerPath(prior[1..]) && ListPaths(prior[1..]) <= ListPaths(rest)
    ensures multiset(Held(list, store)) == multiset(Held([prior[0]], store)) + multiset(Held(rest, store))
    ensures Kept(list, ListPaths(prior)) == Kept(rest, ListPaths(prior[1..]))
  {
    assert prior[0] in prior && prior[0].path in ListPaths(list);
    var i :| 0 <= i < |list| && list[i].path == prior[0].path;
    rest := Without(list, i);
    RestHasOthers(list, i, prior);
    assert multiset(Held(list, store)) == multiset(Held([prior[0]], store)) + multiset(Held(rest, store)) by {
      HeldWithout(list, i, store);
      assert Held([prior[0]], store) == Held([list[i]], store);
    }
    KeptWithout(list, i, ListPaths(prior));
    KeptSame(rest, ListPaths(prior), ListPaths(prior[1..]));
  }

  /** The files a list holds are those of any manifests it lists and those of the others. */
  lemma {:induction false} Split(list: seq<Listed>, prior: seq<Listed>, store: map<nat, Manifest>)
    requires OncePerPath(list) && OncePerPath(prior) && ListPaths(prior) <= ListPaths(list)
    ensures multiset(Held(list, store)) ==
            multiset(Held(prior, store)) + multiset(Held(Kept(list, ListPaths(prior)), store))
    decreases |prior|
  {
    if prior == [] {
      KeptAll(list, ListPaths(prior));
    } else {
      var rest := SplitFirst(list, prior, store);
      Split(rest, prior[1..], store);
      assert prior == [prior[0]] + prior[1..];
      HeldConcat([prior[0]], prior[1..], store);
    }
  }

  lemma {:induction false} KeptAll(list: seq<Listed>, gone: set<nat>)
    requires forall e :: e in list ==> e.path !in gone
    ensures Kept(list, gone) == list
  {
    if list != [] {
      assert list[0] in list;
      KeptAll(list[1..], gone);
    }
  }

  lemma {:induction false} KeptConcat(a: seq<Listed>, b: seq<Listed>, gone: set<nat>)
    ensures Kept(a + b, gone) == Kept(a, gone) + Kept(b, gone)
  {
    if a == [] {
      assert a + b == b;
    } else {
      assert (a + b)[1..] == a[1..] + b;
      KeptConcat(a[1..], b, gone);
    }
  }

  lemma {:induction false} KeptSame(list: seq<Listed>, a: set<nat>, b: set<nat>)
    requires forall e :: e in list ==> (e.path in a <==> e.path in b)
    ensures Kept(list, a) == Kept(list, b)
  {
    if list != [] {
      assert list[0] in list;
      KeptSame(list[1..], a, b);
    }
  }
}
