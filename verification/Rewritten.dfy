/**
 What a rewrite of one snapshot carries forward when it commits over a later one: every
 manifest added since, with what its files add up to, or a refusal.
 */
module RewrittenSnapshot {
  import opened Wrappers
  import opened Rows
  import opened IcebergTable

  datatype Refusal =
    | NotAncestor
    | ManifestGone(manifest: nat)
    | AddedDeletes(snapshot: nat)

  /** Whether `of` is reached from `at` over parents the metadata still has. */
  predicate Descends(w: World, at: Option<nat>, of: nat)
    decreases if at.Some? then at.value + 1 else 0
  {
    at == Some(of) ||
    (at.Some? && at.value in w.live && at.value in w.history &&
     var parent := w.history[at.value].parent;
     (parent.Some? ==> parent.value < at.value) && Descends(w, parent, of))
  }

  /** Parent by parent from one snapshot to another, each but the last still in the metadata. */
  ghost predicate Lineage(w: World, now: nat, of: nat, path: seq<nat>) {
    && path != [] && path[0] == now && path[|path| - 1] == of
    && forall k :: 0 <= k < |path| - 1 ==>
         path[k] in w.live && path[k] in w.history && w.history[path[k]].parent == Some(path[k + 1])
  }

  /** That is what it is to be reached. */
  lemma DescendsWhen(w: World, now: nat, of: nat)
    requires TableOk(w)
    ensures Descends(w, Some(now), of) <==> exists path :: Lineage(w, now, of, path)
  {
    if Descends(w, Some(now), of) {
      var path := LineageOf(w, now, of);
    }
    forall path | Lineage(w, now, of, path)
      ensures Descends(w, Some(now), of)
    {
      LineageDescends(w, now, of, path);
    }
  }

  lemma {:induction false} LineageOf(w: World, now: nat, of: nat) returns (path: seq<nat>)
    requires Descends(w, Some(now), of)
    ensures Lineage(w, now, of, path)
    decreases now
  {
    if now == of {
      path := [now];
    } else {
      var rest := LineageOf(w, w.history[now].parent.value, of);
      path := [now] + rest;
      assert forall k :: 0 < k < |path| ==> path[k] == rest[k - 1];
    }
  }

  lemma {:induction false} LineageDescends(w: World, now: nat, of: nat, path: seq<nat>)
    requires TableOk(w) && Lineage(w, now, of, path)
    ensures Descends(w, Some(now), of)
    decreases |path|
  {
    if now != of {
      assert path[0] in w.history && w.history[now].parent == Some(path[1]);
      SnapshotIsOk(w, now);
      assert forall k :: 0 <= k < |path[1..]| ==> path[1..][k] == path[k + 1];
      LineageDescends(w, path[1], of, path[1..]);
    }
  }

  /** A snapshot reached over parents still in the metadata is one it was made from. */
  lemma {:induction false} DescendsFrom(w: World, at: nat, of: nat)
    requires Descends(w, Some(at), of)
    ensures From(w.history, at, of)
    decreases at
  {
    if at != of && w.history[at].parent.Some? {
      DescendsFrom(w, w.history[at].parent.value, of);
    }
  }

  predicate AllKeptData(list: seq<Listed>, gone: set<nat>) {
    forall e :: e in list && e.path !in gone ==> e.content == DataContent
  }

  /** `now` lists every manifest of `of`, and besides them data manifests only. */
  ghost predicate Unreplaced(w: World, of: nat, now: nat)
    requires of in w.history && now in w.history
  {
    && ListPaths(w.history[of].list) <= ListPaths(w.history[now].list)
    && AllKeptData(w.history[now].list, ListPaths(w.history[of].list))
  }

  /** When a rewrite of `of` may commit over `now`. */
  ghost predicate Carries(w: World, of: nat, now: nat)
    requires of in w.history && now in w.history
  {
    Descends(w, Some(now), of) && Unreplaced(w, of, now)
  }

  /** What a rewrite of `of` keeps of `now`: the manifests `of` does not list. */
  function KeptOf(w: World, of: nat, now: nat): seq<Listed>
    requires of in w.history && now in w.history
  {
    Kept(w.history[now].list, ListPaths(w.history[of].list))
  }

  /** A snapshot's size as its summary counts it, while the metadata has the snapshot. */
  function SizeOf(w: World, id: nat): Option<nat> {
    if id in w.live && id in w.history then w.history[id].summary.bytes else None
  }

  class Rewritten {
    const snapshot: nat
    const manifests: set<nat>
    /** Sums already read from manifests, by path. */
    var scanned: map<nat, Totals>

    ghost predicate Valid(store: map<nat, Manifest>)
      reads this
    {
      forall p :: p in scanned ==> p in store && scanned[p] == Sum(AliveFiles(store[p].entries))
    }

    /** What the rewrite knows stays true while manifests are only added. */
    lemma StaysValid(a: map<nat, Manifest>, b: map<nat, Manifest>)
      requires Valid(a) && forall p :: p in a ==> p in b && a[p] == b[p]
      ensures Valid(b)
    {
    }

    constructor (w: World, snapshot: nat)
      requires snapshot in w.history
      ensures this.snapshot == snapshot && manifests == ListPaths(w.history[snapshot].list)
      ensures scanned == map[]
    {
      this.snapshot := snapshot;
      manifests := ListPaths(w.history[snapshot].list);
      scanned := map[];
    }

    /** What the data files of one manifest add up to, reading each manifest once; refused for
        a manifest with a delete file alive in it. */
    method Scan(store: map<nat, Manifest>, m: Listed) returns (r: Result<Totals, Refusal>)
      requires Valid(store) && m.path in store
      modifies this
      ensures Valid(store)
      ensures r.Ok? ==> r.value == Sum(AliveFiles(store[m.path].entries))
      ensures r.Ok? ==> scanned == old(scanned)[m.path := r.value]
      ensures r.Err? ==> r.error == AddedDeletes(m.addedBy) && scanned == old(scanned)
      ensures r.Err? <==> m.path !in old(scanned) && !AliveData(store[m.path].entries)
    {
      if m.path in scanned {
        r := Ok(scanned[m.path]);
        assert scanned == scanned[m.path := scanned[m.path]];
        return;
      }
      var read := ReadManifest(store[m.path].entries);
      if read.None? {
        return Err(AddedDeletes(m.addedBy));
      }
      scanned := scanned[m.path := read.value];
      r := Ok(read.value);
    }

    /** The part of `now`'s list a rewrite keeps, with its totals. */
    method Carried(w: World, now: nat) returns (r: Result<(seq<Listed>, Totals), Refusal>)
      requires TableOk(w) && snapshot in w.history && now in w.live
      requires manifests == ListPaths(w.history[snapshot].list) && Valid(w.manifests)
      modifies this
      ensures Valid(w.manifests)
      ensures r.Ok? <==> Carries(w, snapshot, now)
      ensures r.Ok? ==> r.value.0 == KeptOf(w, snapshot, now)
      ensures r.Ok? ==> r.value.1 == Sum(Held(KeptOf(w, snapshot, now), w.manifests))
      ensures r == Err(NotAncestor) <==> !Descends(w, Some(now), snapshot)
    {
      var since, reached := WalkBack(w, now, snapshot);
      if !reached {
        return Err(NotAncestor);
      }
      SnapshotIsOk(w, now);
      SnapshotIsOk(w, snapshot);
      var list := w.history[now].list;
      var listed := ListPaths(list);
      if !(manifests <= listed) {
        assert exists p :: p in manifests && p !in listed;
        var gone :| gone in manifests && gone !in listed;
        return Err(ManifestGone(gone));
      }
      var kept := CountKept(w.manifests, list);
      if kept.Err? {
        return Err(kept.error);
      }
      var (carried, totals, counted) := kept.value;
      totals := WithBytes(w, now, carried, totals, counted);
      r := Ok((carried, totals));
    }

    /** The totals with the bytes of every file carried: the difference of the two snapshots' sizes where
        both count theirs, else with those of the manifests only counted read. */
    method WithBytes(w: World, now: nat, ghost carried: seq<Listed>, totals: Totals, counted: seq<Listed>)
      returns (t: Totals)
      requires TableOk(w) && snapshot in w.history && now in w.live && Valid(w.manifests)
      requires Unreplaced(w, snapshot, now) && carried == KeptOf(w, snapshot, now)
      requires Tallies(totals, carried, counted, w.manifests)
      modifies this
      ensures Valid(w.manifests) && t == Sum(Held(carried, w.manifests))
    {
      var n, o := SizeOf(w, now), SizeOf(w, snapshot);
      if n.Some? && o.Some? && n.value >= o.value {
        SnapshotIsOk(w, now);
        SnapshotIsOk(w, snapshot);
        SizeSince(w.history[now].list, w.history[snapshot].list, w.manifests);
        t := totals.(bytes := n.value - o.value);
      } else {
        t := ReadBytes(w.manifests, counted, totals);
      }
    }

    /** What one kept manifest adds up to: as an earlier attempt read it, from its entry in the
        list when that has every count (bytes it never has), or read now. */
    method Count(store: map<nat, Manifest>, m: Listed) returns (t: Totals, fromList: bool)
      requires Valid(store) && m.path in store && m.content == DataContent
      requires ListedRight(m, store[m.path]) && ManifestOk(store[m.path])
      modifies this
      ensures Valid(store)
      ensures var all := Sum(AliveFiles(store[m.path].entries));
              t == if fromList then all.(bytes := 0) else all
    {
      if m.path in scanned {
        t, fromList := scanned[m.path], false;
      } else if m.addedFiles.Some? && m.existingFiles.Some? && m.addedRows.Some? && m.existingRows.Some? {
        CountsTotal(store[m.path].entries);
        t := Totals(m.addedRows.value + m.existingRows.value, m.addedFiles.value + m.existingFiles.value, 0);
        fromList := true;
      } else {
        var seen := Scan(store, m);
        t, fromList := seen.value, false;
      }
    }

    /** The entries of `list` kept and what they add up to, counted from the list where its
        entries count them and from the manifests where they do not; the bytes of the files of
        the manifests `counted` from the list are not in the totals. */
    method CountKept(store: map<nat, Manifest>, list: seq<Listed>)
      returns (r: Result<(seq<Listed>, Totals, seq<Listed>), Refusal>)
      requires Valid(store) && Countable(list, store)
      modifies this
      ensures Valid(store)
      ensures r.Ok? <==> AllKeptData(list, manifests)
      ensures r.Ok? ==> Keeps(list, manifests, r.value.0) && Tallies(r.value.1, r.value.0, r.value.2, store)
      ensures r.Err? ==> r.error.AddedDeletes?
    {
      var carried, totals, counted := [], Totals(0, 0, 0), [];
      for i := 0 to |list|
        invariant Valid(store)
        invariant Keeps(list[..i], manifests, carried)
        invariant Tallies(totals, carried, counted, store)
      {
        var m := list[i];
        assert m in list && list[..i + 1] == list[..i] + [m];
        if m.path !in manifests && m.content != DataContent {
          return Err(AddedDeletes(m.addedBy));
        }
        KeepsStep(list[..i], manifests, carried, m);
        if m.path !in manifests {
          var t, fromList := Count(store, m);
          TallyRead(totals, carried, counted, store, m);
          carried := carried + [m];
          if fromList {
            TallyListed(totals.Add(Sum(AliveFiles(store[m.path].entries))), carried, counted, store, m, totals.bytes);
            counted := counted + [m];
          }
          totals := totals.Add(t);
        }
      }
      assert list[..|list|] == list;
      r := Ok((carried, totals, counted));
    }

    /** The bytes of the files whose manifests were counted from the list alone. */
    method ReadBytes(store: map<nat, Manifest>, counted: seq<Listed>, totals: Totals) returns (t: Totals)
      requires Valid(store) && ScanOk(counted, store)
      modifies this
      ensures Valid(store)
      ensures t == totals.(bytes := totals.bytes + Sum(Held(counted, store)).bytes)
    {
      t := totals;
      for i := 0 to |counted|
        invariant Valid(store)
        invariant t == totals.(bytes := totals.bytes + Weigh(counted[..i], store).bytes)
      {
        assert counted[i] in counted;
        BytesStep(counted, i, store);
        var seen := Scan(store, counted[i]);
        assert seen.Ok?;
        t := t.(bytes := t.bytes + seen.value.bytes);
      }
      assert counted[..|counted|] == counted;
    }
  }

  /** The walk back from `now` to `of`; refused when it leaves the metadata first. The snapshots
      passed, newest first, are what a refusal names. */
  method WalkBack(w: World, now: nat, of: nat) returns (since: seq<nat>, reached: bool)
    requires TableOk(w)
    ensures reached <==> Descends(w, Some(now), of)
  {
    since := [];
    var at := Some(now);
    while at != Some(of)
      invariant Descends(w, Some(now), of) <==> Descends(w, at, of)
      decreases if at.Some? then at.value + 1 else 0
    {
      if at.None? || at.value !in w.live {
        return since, false;
      }
      assert SnapshotOk(w.history[at.value], at.value, w);
      since := since + [at.value];
      at := w.history[at.value].parent;
    }
    reached := true;
  }

  /** What the files alive in a manifest add up to; nothing when one is a delete file. */
  method ReadManifest(es: seq<Entry>) returns (t: Option<Totals>)
    ensures t.Some? <==> AliveData(es)
    ensures t.Some? ==> t.value == Sum(AliveFiles(es))
  {
    var sum := Totals(0, 0, 0);
    for i := 0 to |es|
      invariant AliveData(es[..i])
      invariant sum == Sum(AliveFiles(es[..i]))
    {
      AliveStep(es, i);
      if es[i].status != Deleted {
        if es[i].content != DataContent {
          assert es[i] in es;
          return None;
        }
        sum := sum.Add(Weight(es[i].file));
      }
      assert es[..i + 1] == es[..i] + [es[i]];
    }
    assert es[..|es|] == es;
    t := Some(sum);
  }

  predicate AliveData(es: seq<Entry>) {
    forall e :: e in es && e.status != Deleted ==> e.content == DataContent
  }

  lemma AliveConcat(a: seq<Entry>, b: seq<Entry>)
    ensures AliveFiles(a + b) == AliveFiles(a) + AliveFiles(b)
  {
    if a == [] {
      assert a + b == b;
    } else {
      assert (a + b)[1..] == a[1..] + b;
      AliveConcat(a[1..], b);
    }
  }

  lemma AliveStep(es: seq<Entry>, i: nat)
    requires i < |es|
    ensures Sum(AliveFiles(es[..i + 1])) ==
            if es[i].status == Deleted then Sum(AliveFiles(es[..i]))
            else Sum(AliveFiles(es[..i])).Add(Weight(es[i].file))
  {
    assert es[..i + 1] == es[..i] + [es[i]];
    AliveConcat(es[..i], [es[i]]);
    SumConcat(AliveFiles(es[..i]), AliveFiles([es[i]]));
    assert Sum([es[i].file]) == Weight(es[i].file);
  }

  ghost predicate ScanOk(list: seq<Listed>, store: map<nat, Manifest>) {
    forall m :: m in list ==> m.path in store && AliveData(store[m.path].entries)
  }

  /** Between two manifests of the list, `totals` counts the records and files of everything
      carried, and its bytes but for `uncounted`, those of the manifests only counted. */
  predicate Tally(totals: Totals, carried: Totals, uncounted: nat) {
    totals.records == carried.records && totals.files == carried.files && totals.bytes + uncounted == carried.bytes
  }

  function Weigh(list: seq<Listed>, store: map<nat, Manifest>): Totals {
    Sum(Held(list, store))
  }

  /** How far the walk over `list` is: what it keeps, with no delete manifest among it. */
  ghost predicate Keeps(list: seq<Listed>, gone: set<nat>, carried: seq<Listed>) {
    carried == Kept(list, gone) && AllKeptData(list, gone)
  }

  lemma KeepsStep(list: seq<Listed>, gone: set<nat>, carried: seq<Listed>, m: Listed)
    requires Keeps(list, gone, carried)
    requires m.path in gone || m.content == DataContent
    ensures Keeps(list + [m], gone, if m.path in gone then carried else carried + [m])
  {
    KeptConcat(list, [m], gone);
  }

  /** How far the count is: `totals` are those of what is carried but for the bytes of the
      manifests `counted` from the list. */
  ghost predicate Tallies(totals: Totals, carried: seq<Listed>, counted: seq<Listed>, store: map<nat, Manifest>) {
    && ScanOk(counted, store)
    && Tally(totals, Weigh(carried, store), Weigh(counted, store).bytes)
  }

  lemma TallyRead(totals: Totals, carried: seq<Listed>, counted: seq<Listed>, store: map<nat, Manifest>, m: Listed)
    requires Tallies(totals, carried, counted, store) && m.path in store
    ensures Tallies(totals.Add(Sum(AliveFiles(store[m.path].entries))), carried + [m], counted, store)
  {
    HeldStep(carried, m, store);
  }

  lemma TallyListed(totals: Totals, carried: seq<Listed>, counted: seq<Listed>, store: map<nat, Manifest>, m: Listed,
                    bytes: nat)
    requires Tallies(totals, carried, counted, store) && m.path in store && AliveData(store[m.path].entries)
    requires Sum(AliveFiles(store[m.path].entries)).bytes == totals.bytes - bytes
    ensures Tallies(totals.(bytes := bytes), carried, counted + [m], store)
  {
    HeldStep(counted, m, store);
    ScanMore(counted, m, store);
    assert Weigh(counted + [m], store).bytes == Weigh(counted, store).bytes + (totals.bytes - bytes);
  }

  lemma ScanMore(counted: seq<Listed>, m: Listed, store: map<nat, Manifest>)
    requires ScanOk(counted, store) && m.path in store && AliveData(store[m.path].entries)
    ensures ScanOk(counted + [m], store)
  {
  }

  lemma HeldStep(list: seq<Listed>, m: Listed, store: map<nat, Manifest>)
    requires m.path in store
    ensures Weigh(list + [m], store) == Weigh(list, store).Add(Sum(AliveFiles(store[m.path].entries)))
  {
    var alive := AliveFiles(store[m.path].entries);
    assert Held([m], store) == alive by {
      assert [m][1..] == [];
      assert Held([], store) == [];
    }
    HeldConcat(list, [m], store);
    SumConcat(Held(list, store), alive);
  }

  lemma BytesStep(list: seq<Listed>, i: nat, store: map<nat, Manifest>)
    requires i < |list| && list[i].path in store
    ensures Weigh(list[..i + 1], store).bytes ==
              Weigh(list[..i], store).bytes + Sum(AliveFiles(store[list[i].path].entries)).bytes
  {
    assert list[..i + 1] == list[..i] + [list[i]];
    HeldStep(list[..i], list[i], store);
  }

  /** Where both snapshots count their sizes, the difference is the size of what was added. */
  lemma SizeSince(now: seq<Listed>, of: seq<Listed>, store: map<nat, Manifest>)
    requires OncePerPath(now) && OncePerPath(of) && ListPaths(of) <= ListPaths(now)
    ensures Sum(Held(now, store)).bytes ==
            Sum(Held(of, store)).bytes + Sum(Held(Kept(now, ListPaths(of)), store)).bytes
  {
    Split(now, of, store);
    SumOfParts(Held(now, store), Held(of, store), Held(Kept(now, ListPaths(of)), store));
  }

  lemma SnapshotIsOk(w: World, id: nat)
    requires TableOk(w) && id in w.history
    ensures SnapshotOk(w.history[id], id, w)
    ensures Countable(w.history[id].list, w.manifests)
  {
  }

  /** Every listing is of a manifest that can be read, with right counts. */
  ghost predicate Countable(list: seq<Listed>, store: map<nat, Manifest>) {
    forall m :: m in list ==> m.path in store && ListedRight(m, store[m.path]) && ManifestOk(store[m.path])
  }

  lemma SumOfParts(all: seq<DataFile>, a: seq<DataFile>, b: seq<DataFile>)
    requires multiset(all) == multiset(a) + multiset(b)
    ensures Sum(all) == Sum(a).Add(Sum(b))
  {
    assert multiset(a + b) == multiset(a) + multiset(b);
    Permuted(all, a + b);
    SumConcat(a, b);
  }
}
