/**
 The writes of one table as they run: each looks at the catalog several times, and between any
 two looks other writers may do anything `Others` allows. Whatever they do, a write that
 commits makes exactly one of the steps of module Commit, and one that is refused makes none.
 */
module Catalogs {
  import opened Wrappers
  import opened Rows
  import opened IcebergTable
  import opened RewrittenSnapshot
  import opened CommitRetry
  import opened NullRate
  import opened Commit

  datatype Failure = Conflict | WrongFormat | NoSnapshot

  /** Other writers keep the table well formed and never name a path of this write's own. */
  ghost predicate Fair(others: seq<World -> World>, mine: set<string>) {
    forall k :: 0 <= k < |others| ==> FairWriter(others[k], mine)
  }

  ghost predicate FairWriter(other: World -> World, mine: set<string>) {
    forall w {:trigger other(w)} :: TableOk(w) ==>
      Others(w, other(w), {}) && (w.paths !! mine ==> other(w).paths !! mine)
  }

  lemma FairFirst(others: seq<World -> World>, mine: set<string>, w: World)
    requires Fair(others, mine) && others != [] && TableOk(w) && w.paths !! mine
    ensures Others(w, others[0](w), {}) && TableOk(others[0](w)) && others[0](w).paths !! mine
    ensures Fair(others[1..], mine)
  {
    assert FairWriter(others[0], mine);
    assert forall k :: 0 <= k < |others[1..]| ==> others[1..][k] == others[k + 1];
  }

  lemma OthersNothing(w: World)
    requires TableOk(w)
    ensures Others(w, w, {})
  {
  }

  // ── what passes between two looks ───────────────────────────────────────────

  /** A look at which nobody has moved the table: its pointer, its identity and its format stay. */
  ghost predicate Still(other: World -> World) {
    forall w {:trigger other(w)} :: TableOk(w) ==> Unmoved(w, other(w))
  }

  predicate Unmoved(w: World, w': World) {
    w'.current == w.current && w'.uuid == w.uuid && w'.v2 == w.v2
  }

  /** At how many of the looks to come others may have moved the table. */
  ghost function Busy(others: seq<World -> World>): nat {
    if others == [] then 0 else (if Still(others[0]) then 0 else 1) + Busy(others[1..])
  }

  /** An append: one more snapshot, over the current one, that lists every manifest that one lists
      and besides them data manifests only. */
  ghost predicate Adds(w: World, w': World) {
    && Others(w, w', {}) && w'.uuid == w.uuid && w'.v2 == w.v2 && w.live <= w'.live
    && w'.current.Some? && w'.history[w'.current.value].parent == w.current
    && (w.current.Some? ==> Unreplaced(w', w.current.value, w'.current.value))
  }

  /** Appends one after the other, each over the table the one before it left. */
  ghost predicate Path(tables: seq<World>) {
    tables != [] && forall k :: 0 <= k < |tables| - 1 ==> Adds(tables[k], tables[k + 1])
  }

  ghost predicate AddsMany(w: World, w': World) {
    exists tables :: Path(tables) && tables[0] == w && tables[|tables| - 1] == w'
  }

  ghost predicate Appender(other: World -> World) {
    forall w {:trigger other(w)} :: TableOk(w) ==> AddsMany(w, other(w))
  }

  /** All that others do, at any look, is append. */
  ghost predicate AppendsOnly(others: seq<World -> World>) {
    forall k :: 0 <= k < |others| ==> Appender(others[k])
  }

  /** Whether a rewrite of `of` may commit in state `w`. */
  ghost predicate MayCarry(w: World, of: nat) {
    && w.current.Some? && of in w.history && w.current.value in w.history
    && Carries(w, of, w.current.value)
  }

  /** Whether a rewrite of `of` may begin in state `w`. */
  ghost predicate MayRewrite(w: World, of: nat) {
    w.v2 && of in w.live && MayCarry(w, of)
  }

  lemma {:induction false} DescendsStays(w: World, w': World, at: Option<nat>, of: nat)
    requires Descends(w, at, of) && w.live <= w'.live
    requires forall id :: id in w.history ==> id in w'.history && w'.history[id] == w.history[id]
    ensures Descends(w', at, of)
    decreases if at.Some? then at.value + 1 else 0
  {
    if at != Some(of) {
      DescendsStays(w, w', w.history[at.value].parent, of);
    }
  }

  /** What was added to the current snapshot's list besides the manifests of an earlier one was data,
      and so is what an append adds. */
  lemma UnreplacedMore(w: World, of: nat, now: nat, next: nat)
    requires TableOk(w) && of in w.history && now in w.history && next in w.history
    requires Unreplaced(w, of, now) && Unreplaced(w, now, next)
    ensures Unreplaced(w, of, next)
  {
    var (list, prior) := (w.history[next].list, w.history[now].list);
    assert SnapshotOk(w.history[now], now, w) && SnapshotOk(w.history[next], next, w);
    SameContent(list, prior, w.manifests);
    forall e | e in list && e.path !in ListPaths(w.history[of].list)
      ensures e.content == DataContent
    {
      if e.path in ListPaths(prior) {
        var x :| x in prior && x.path == e.path;
        assert x.content == DataContent;
      }
    }
  }

  /** An append leaves a rewrite what it had: it may still commit, over the appended snapshot. */
  lemma AddKeeps(w: World, w': World, of: nat)
    requires TableOk(w) && Adds(w, w') && MayRewrite(w, of)
    ensures MayRewrite(w', of)
  {
    var (now, next) := (w.current.value, w'.current.value);
    assert SnapshotOk(w'.history[next], next, w');
    DescendsStays(w, w', Some(now), of);
    assert Descends(w', Some(next), of);
    UnreplacedMore(w', of, now, next);
  }

  lemma {:induction false} PathKeeps(tables: seq<World>, k: nat, of: nat)
    requires Path(tables) && k < |tables| && TableOk(tables[0]) && MayRewrite(tables[0], of)
    ensures TableOk(tables[k]) && MayRewrite(tables[k], of)
  {
    if k == 0 {
    } else {
      PathKeeps(tables, k - 1, of);
      AddKeeps(tables[k - 1], tables[k], of);
    }
  }

  lemma AddsKeep(w: World, w': World, of: nat)
    requires TableOk(w) && AddsMany(w, w') && MayRewrite(w, of)
    ensures MayRewrite(w', of)
  {
    var tables :| Path(tables) && tables[0] == w && tables[|tables| - 1] == w';
    PathKeeps(tables, |tables| - 1, of);
  }

  lemma ListedOneMore(list: seq<Listed>, m: Listed)
    requires m.content == DataContent
    ensures ListPaths(list) <= ListPaths(list + [m]) && AllKeptData(list + [m], ListPaths(list))
  {
    forall p | p in ListPaths(list)
      ensures p in ListPaths(list + [m])
    {
      var e :| e in list && e.path == p;
      assert e in list + [m];
    }
    assert forall e :: e in list ==> e.path in ListPaths(list);
  }

  /** The append of peQL's own writers is one. */
  lemma AppendAdds(w: World, files: seq<DataFile>)
    requires TableOk(w) && Fresh(w, files)
    ensures Adds(w, Produce(w, AsIs(w), files, Append))
  {
    AsIsOk(w);
    ProducedOk(w, AsIs(w), files, Append, {});
    if w.current.Some? {
      ListedOneMore(w.history[w.current.value].list, NewListed(w, files));
    }
  }

  /** A writer of `files`, as another writer of peQL's is to this one. */
  ghost function Appending(files: seq<DataFile>): World -> World {
    w => if TableOk(w) && Fresh(w, files) then Produce(w, AsIs(w), files, Append) else w
  }

  lemma AppendingIs(files: seq<DataFile>, mine: set<string>)
    requires PathsOf(files) !! mine
    ensures Appender(Appending(files)) && FairWriter(Appending(files), mine)
  {
    forall w | TableOk(w)
      ensures AddsMany(w, Appending(files)(w)) && Others(w, Appending(files)(w), {})
      ensures w.paths !! mine ==> Appending(files)(w).paths !! mine
    {
      AppendingOnce(w, files);
    }
  }

  lemma AppendingOnce(w: World, files: seq<DataFile>)
    requires TableOk(w)
    ensures AddsMany(w, Appending(files)(w)) && Others(w, Appending(files)(w), {})
    ensures Appending(files)(w).paths <= w.paths + PathsOf(files)
  {
    if Fresh(w, files) {
      AppendAdds(w, files);
      assert Path([w, Appending(files)(w)]);
    } else {
      assert Path([w]);
      OthersNothing(w);
    }
  }

  /** What a commit may rely on from one look to a later one: where the table was moved, a busy look
      is gone, and where all do no more than append, a rewrite that might begin still might. */
  ghost predicate Passed(w: World, others: seq<World -> World>, w': World, others': seq<World -> World>) {
    && Busy(others') <= Busy(others)
    && (Busy(others') == Busy(others) ==> Unmoved(w, w'))
    && (AppendsOnly(others) ==> AppendsOnly(others') && forall of :: MayRewrite(w, of) ==> MayRewrite(w', of))
  }

  /** `w'` comes after `w`, by what others did at the looks between. */
  ghost predicate Since(w: World, others: seq<World -> World>, w': World, others': seq<World -> World>) {
    TableOk(w') && Others(w, w', {}) && Passed(w, others, w', others')
  }

  lemma PassedNothing(w: World, others: seq<World -> World>)
    ensures Passed(w, others, w, others)
  {
  }

  lemma PassedOne(w: World, others: seq<World -> World>, mine: set<string>)
    requires TableOk(w) && w.paths !! mine && Fair(others, mine) && others != []
    ensures Passed(w, others, others[0](w), others[1..])
  {
    FairFirst(others, mine, w);
    if AppendsOnly(others) {
      assert forall k :: 0 <= k < |others[1..]| ==> others[1..][k] == others[k + 1];
      assert Appender(others[0]);
      forall of | MayRewrite(w, of)
        ensures MayRewrite(others[0](w), of)
      {
        AddsKeep(w, others[0](w), of);
      }
    }
  }

  lemma PassedTogether(w: World, a: seq<World -> World>, v: World, b: seq<World -> World>, w': World,
                       c: seq<World -> World>)
    requires Passed(w, a, v, b) && Passed(v, b, w', c)
    ensures Passed(w, a, w', c)
  {
  }

  lemma SinceNothing(w: World, others: seq<World -> World>)
    requires TableOk(w)
    ensures Since(w, others, w, others)
  {
    OthersNothing(w);
    PassedNothing(w, others);
  }

  lemma SinceTogether(w: World, a: seq<World -> World>, v: World, b: seq<World -> World>, w': World,
                      c: seq<World -> World>)
    requires Since(w, a, v, b) && Since(v, b, w', c)
    ensures Since(w, a, w', c)
  {
    OthersCompose(w, v, w', {});
    PassedTogether(w, a, v, b, w', c);
  }

  /** The catalog, and what other writers will do: one function of the table for each of this
      write's looks at it. */
  class Catalog {
    var world: World
    var others: seq<World -> World>

    ghost predicate Valid(mine: set<string>)
      reads this
    {
      TableOk(world) && world.paths !! mine && Fair(others, mine)
    }

    constructor (world: World, others: seq<World -> World>)
      ensures this.world == world && this.others == others
    {
      this.world, this.others := world, others;
    }

    method Interfere(ghost mine: set<string>)
      requires Valid(mine)
      modifies this
      ensures Valid(mine) && Since(old(world), old(others), world, others)
      ensures old(others) == [] ==> world == old(world) && others == []
    {
      if others != [] {
        FairFirst(others, mine, world);
        PassedOne(world, others, mine);
        var (next, rest) := (others[0](world), others[1..]);
        world, others := next, rest;
      } else {
        SinceNothing(world, others);
      }
    }

    /** The table as it is now. */
    method Load(ghost mine: set<string>) returns (w: World)
      requires Valid(mine)
      modifies this
      ensures Valid(mine) && w == world && Since(old(world), old(others), world, others)
      ensures old(others) == [] ==> world == old(world) && others == []
    {
      Interfere(mine);
      w := world;
    }

    /** Compare-and-swap: succeeds only if identity and pointer still match the base. `at` is the state
        at that moment. */
    method UpdateTable(b: Base, uuid: nat, files: seq<DataFile>, did: Did, ghost mine: set<string>)
      returns (ok: bool, ghost at: World)
      requires Valid(mine) && PathsOf(files) <= mine && DistinctPaths(files)
      modifies this
      ensures Since(old(world), old(others), at, others) && Fresh(at, files)
      ensures ok <==> at.current == b.parent && at.uuid == uuid
      ensures ok ==> world == Produce(at, b, files, did)
      ensures !ok ==> world == at && Valid(mine)
      ensures old(others) == [] ==> at == old(world)
    {
      Interfere(mine);
      at := world;
      ok := world.current == b.parent && world.uuid == uuid;
      if ok {
        world := Produce(world, b, files, did);
      }
    }
  }

  /** A base is as right for a later table whose current snapshot is still its parent. */
  lemma AsIsStays(w: World, w': World)
    requires TableOk(w) && Others(w, w', {}) && w'.current == w.current
    ensures AsIs(w') == AsIs(w)
  {
  }

  /** A rewrite may commit over the same snapshot of a later table, and keeps the same of it. */
  lemma RewritableStays(w: World, w': World, of: nat, now: nat)
    requires TableOk(w) && Others(w, w', {}) && of in w.history && now in w.history && Carries(w, of, now)
    ensures Rewritable(w', of, now) && KeptOf(w', of, now) == KeptOf(w, of, now)
    ensures Held(KeptOf(w', of, now), w'.manifests) == Held(KeptOf(w, of, now), w.manifests)
  {
    assert SnapshotOk(w.history[now], now, w);
    DescendsFrom(w, now, of);
    FromStays(w, w'.history, now, of);
    KeptIn(w.history[now].list, ListPaths(w.history[of].list));
    HeldStable(KeptOf(w, of, now), w.manifests, w'.manifests);
  }

  lemma CopyStays(w: World, w': World, of: nat, files: seq<DataFile>)
    requires TableOk(w) && Others(w, w', {}) && of in w.history && CopyOf(w, of, files)
    ensures of in w'.history && CopyOf(w', of, files)
  {
    OthersKeep(w, w', {}, of);
  }

  /** A guard around the catalog, for commits that must land on one given snapshot. */
  class Pinned {
    const inner: Catalog
    const base: Base
    const uuid: nat

    constructor (inner: Catalog, base: Base, uuid: nat)
      ensures this.inner == inner && this.base == base && this.uuid == uuid
    {
      this.inner, this.base, this.uuid := inner, base, uuid;
    }

    method LoadTable(ghost mine: set<string>) returns (ok: bool)
      requires inner.Valid(mine)
      modifies inner
      ensures inner.Valid(mine) && Since(old(inner.world), old(inner.others), inner.world, inner.others)
      ensures ok <==> inner.world.current == base.parent && inner.world.uuid == uuid
      ensures old(inner.others) == [] ==> inner.world == old(inner.world) && inner.others == []
    {
      var now := inner.Load(mine);
      ok := now.current == base.parent && now.uuid == uuid;
    }

    /** The crate's commit through this catalog: a load, the append over the base, the swap; a
        refusal is not retried. `at` is the table just before the swap, or as it is left. */
    method Commit(files: seq<DataFile>, did: Did, ghost mine: set<string>) returns (ok: bool, ghost at: World)
      requires inner.Valid(mine) && PathsOf(files) <= mine && DistinctPaths(files)
      modifies inner
      ensures Since(old(inner.world), old(inner.others), at, inner.others) && Fresh(at, files)
      ensures ok ==> at.current == base.parent && inner.world == Produce(at, base, files, did)
      ensures !ok ==> inner.world == at && inner.Valid(mine)
      ensures !ok ==> at.current != base.parent || at.uuid != uuid
      ensures old(inner.others) == [] ==> at == old(inner.world)
    {
      ok := LoadTable(mine);
      ghost var (loaded, rest) := (inner.world, inner.others);
      at := loaded;
      if ok {
        ok, at := inner.UpdateTable(base, uuid, files, did, mine);
        SinceTogether(old(inner.world), old(inner.others), loaded, rest, at, inner.others);
      }
    }
  }

  /** One try of an append: over the table as just loaded. */
  method TryAppend(cat: Catalog, files: seq<DataFile>, ghost mine: set<string>) returns (ok: bool, ghost at: World)
    requires cat.Valid(mine) && PathsOf(files) <= mine && DistinctPaths(files)
    modifies cat
    ensures Since(old(cat.world), old(cat.others), at, cat.others)
    ensures ok ==> Makes(at, PeqlAppend(files), cat.world) && cat.world.current.Some?
    ensures !ok ==> cat.world == at && cat.Valid(mine) && Busy(cat.others) < Busy(old(cat.others))
  {
    var w := cat.Load(mine);
    ghost var rest := cat.others;
    ok, at := cat.UpdateTable(AsIs(w), w.uuid, files, Append, mine);
    SinceTogether(old(cat.world), old(cat.others), w, rest, at, cat.others);
    if ok {
      AsIsStays(w, at);
    }
  }

  /** Append: each try starts from a fresh load, as often as the crate tries. It is refused only when
      others moved the table at more looks than there are retries. */
  method CommitAppend(cat: Catalog, files: seq<DataFile>, retries: nat, ghost mine: set<string>)
    returns (r: Result<nat, Failure>, tries: nat, ghost at: World)
    requires cat.Valid(mine) && PathsOf(files) <= mine && DistinctPaths(files)
    modifies cat
    ensures TableOk(at) && Others(old(cat.world), at, {}) && tries <= retries + 1
    ensures r.Ok? ==> Makes(at, PeqlAppend(files), cat.world) && Some(r.value) == cat.world.current
    ensures r.Err? ==> cat.world == at && tries == retries + 1 && Busy(cat.others) + tries <= Busy(old(cat.others))
  {
    at := cat.world;
    OthersNothing(at);
    tries := 0;
    while tries <= retries
      invariant cat.Valid(mine) && cat.world == at && Others(old(cat.world), at, {})
      invariant tries <= retries + 1 && Busy(cat.others) + tries <= Busy(old(cat.others))
    {
      ghost var before := at;
      var ok;
      ok, at := TryAppend(cat, files, mine);
      OthersCompose(old(cat.world), before, at, {});
      tries := tries + 1;
      if ok {
        return Ok(cat.world.current.value), tries, at;
      }
    }
    r := Err(Conflict);
  }

  /** Overwrite: lands on `base` or not at all. Where nobody moves the table meanwhile, what it does is
      decided by the table as it was. */
  method CommitOverwrite(cat: Catalog, base: Option<nat>, files: seq<DataFile>, ghost mine: set<string>)
    returns (r: Result<nat, Failure>, ghost at: World)
    requires cat.Valid(mine) && PathsOf(files) <= mine && DistinctPaths(files)
    modifies cat
    ensures TableOk(at) && Others(old(cat.world), at, {})
    ensures r.Ok? ==> Makes(at, PeqlOverwrite(base, files), cat.world) && Some(r.value) == cat.world.current
    ensures r.Err? ==> cat.world == at
    ensures Busy(cat.others) == Busy(old(cat.others)) ==>
              if old(cat.world).current != base then r == Err(Conflict)
              else if base.Some? && !old(cat.world).v2 then r == Err(WrongFormat)
              else r.Ok?
  {
    var w := cat.Load(mine);
    ghost var rest := cat.others;
    at := w;
    if w.current != base {
      return Err(Conflict), at;
    }
    if base.Some? && !w.v2 {
      return Err(WrongFormat), at;
    }
    var pinned := new Pinned(cat, Emptied(base), w.uuid);
    var ok;
    ok, at := pinned.Commit(files, Overwrite, mine);
    SinceTogether(old(cat.world), old(cat.others), w, rest, at, cat.others);
    r := if ok then Ok(cat.world.current.value) else Err(Conflict);
  }

  /** What a rewrite holds between attempts: what it knows of `of` is right. */
  ghost predicate Ready(cat: Catalog, rewritten: Rewritten, mine: set<string>)
    reads cat, rewritten
  {
    && cat.Valid(mine) && rewritten.snapshot in cat.world.history
    && rewritten.manifests == ListPaths(cat.world.history[rewritten.snapshot].list)
    && rewritten.Valid(cat.world.manifests)
  }

  /** The base for one round, from a fresh load: there is one exactly when the rewrite may commit in
      that state. */
  method PrepareRewrite(cat: Catalog, rewritten: Rewritten, ghost mine: set<string>)
    returns (b: Option<Base>, uuid: nat)
    requires Ready(cat, rewritten, mine)
    modifies cat, rewritten
    ensures Ready(cat, rewritten, mine) && uuid == cat.world.uuid
    ensures Since(old(cat.world), old(cat.others), cat.world, cat.others)
    ensures old(cat.others) == [] ==> cat.world == old(cat.world) && cat.others == []
    ensures b.Some? <==> MayCarry(cat.world, rewritten.snapshot)
    ensures b.Some? ==> var w := cat.world; var kept := KeptOf(w, rewritten.snapshot, w.current.value);
                        b.value == Carrying(w.current.value, kept, Sum(Held(kept, w.manifests)))
  {
    var w := cat.Load(mine);
    rewritten.StaysValid(old(cat.world).manifests, w.manifests);
    uuid := w.uuid;
    if w.current.None? {
      return None, uuid;
    }
    var carried := rewritten.Carried(w, w.current.value);
    b := if carried.Ok? then Some(Carrying(w.current.value, carried.value.0, carried.value.1)) else None;
  }

  datatype Attempted = Refused | Moved | Committed

  /** One round of a rewrite: a base for the state just loaded, then the swap. It is refused where the
      rewrite may not commit, and beaten to the swap only where others moved the table. */
  method TryOnce(cat: Catalog, rewritten: Rewritten, files: seq<DataFile>, ghost mine: set<string>)
    returns (done: Attempted, ghost at: World)
    requires Ready(cat, rewritten, mine) && PathsOf(files) <= mine && DistinctPaths(files)
    modifies cat, rewritten
    ensures Since(old(cat.world), old(cat.others), at, cat.others)
    ensures done.Committed? ==> Fresh(at, files) && Rewrites(at, cat.world, rewritten.snapshot, files)
    ensures !done.Committed? ==> cat.world == at && Ready(cat, rewritten, mine)
    ensures done.Refused? ==> !MayCarry(at, rewritten.snapshot)
    ensures done.Moved? ==> Busy(cat.others) < Busy(old(cat.others))
    ensures old(cat.others) == [] ==> (done.Committed? <==> MayCarry(old(cat.world), rewritten.snapshot))
  {
    var b, uuid := PrepareRewrite(cat, rewritten, mine);
    ghost var (prepared, rest) := (cat.world, cat.others);
    at := prepared;
    if b.None? {
      return Refused, at;
    }
    var pinned := new Pinned(cat, b.value, uuid);
    var ok;
    ok, at := pinned.Commit(files, Rewrite, mine);
    SinceTogether(old(cat.world), old(cat.others), prepared, rest, at, cat.others);
    if ok {
      RewritableStays(prepared, at, rewritten.snapshot, b.value.parent.value);
      done := Committed;
    } else {
      rewritten.StaysValid(prepared.manifests, at.manifests);
      done := Moved;
    }
  }

  /** One round, and the wait for the next where it was beaten to the swap. */
  method TryAndWait(cat: Catalog, rewritten: Rewritten, files: seq<DataFile>, retry: Retrying, units: seq<real>,
                    ghost mine: set<string>)
    returns (done: Attempted, again: bool, ghost at: World)
    requires Ready(cat, rewritten, mine) && PathsOf(files) <= mine && DistinctPaths(files) && retry.Valid()
    modifies cat, rewritten, retry, retry.clock
    ensures Since(old(cat.world), old(cat.others), at, cat.others)
    ensures done.Committed? ==> Fresh(at, files) && Rewrites(at, cat.world, rewritten.snapshot, files)
    ensures !done.Committed? ==> cat.world == at && Ready(cat, rewritten, mine)
    ensures done.Refused? ==> !MayCarry(at, rewritten.snapshot)
    ensures done.Moved? ==> Busy(cat.others) < Busy(old(cat.others))
    ensures old(cat.others) == [] ==> (done.Committed? <==> MayCarry(old(cat.world), rewritten.snapshot))
    ensures retry.Valid() && retry.retried == old(retry.retried) + if again then 1 else 0
    ensures again ==> done.Moved?
    ensures done.Moved? && !again ==> retry.Exhausted(units)
    ensures old(retry.OnTime(units)) ==> retry.OnTime(units)
    ensures old(retry.OnTime(units)) && done.Moved? && !again ==> retry.retried == retry.policy.retries
  {
    done, at := TryOnce(cat, rewritten, files, mine);
    again := false;
    if done.Moved? {
      again := retry.WaitNext(units);
    }
  }

  /** A rewrite of `of` may begin, others do no more than append, and at no more looks than there are
      retries. */
  ghost predicate Granted(w: World, others: seq<World -> World>, of: nat, retries: nat) {
    MayRewrite(w, of) && AppendsOnly(others) && Busy(others) <= retries
  }

  lemma StillGranted(w: World, others: seq<World -> World>, w': World, others': seq<World -> World>, of: nat,
                     retries: nat)
    requires Since(w, others, w', others') && Granted(w, others, of, retries)
    ensures Granted(w', others', of, retries)
  {
  }

  /** The attempts of a rewrite: one more for each that was beaten to the swap, until the retry policy
      has none left. */
  method TryRewrite(cat: Catalog, rewritten: Rewritten, files: seq<DataFile>, retry: Retrying, units: seq<real>,
                    ghost mine: set<string>)
    returns (done: Attempted, attempts: nat, ghost at: World)
    requires Ready(cat, rewritten, mine) && PathsOf(files) <= mine && DistinctPaths(files)
    requires retry.Valid() && retry.retried == 0
    modifies cat, rewritten, retry, retry.clock
    ensures retry.Valid() && attempts == retry.retried + if done.Refused? then 0 else 1
    ensures Since(old(cat.world), old(cat.others), at, cat.others)
    ensures done.Committed? ==> Fresh(at, files) && Rewrites(at, cat.world, rewritten.snapshot, files)
    ensures !done.Committed? ==> cat.world == at
    ensures done.Refused? ==> !MayCarry(at, rewritten.snapshot)
    ensures done.Moved? ==> retry.Exhausted(units) && Busy(cat.others) + attempts <= Busy(old(cat.others))
    ensures done.Moved? && old(retry.OnTime(units)) ==> attempts == retry.policy.retries + 1
    ensures Granted(old(cat.world), old(cat.others), rewritten.snapshot, retry.policy.retries) ==>
              (old(retry.OnTime(units)) ==> done.Committed?)
    ensures old(cat.others) == [] ==> (done.Committed? <==> MayCarry(old(cat.world), rewritten.snapshot))
  {
    attempts, at := 0, cat.world;
    SinceNothing(at, cat.others);
    while true
      invariant Ready(cat, rewritten, mine) && at == cat.world && Since(old(cat.world), old(cat.others), at, cat.others)
      invariant retry.Valid() && (old(retry.OnTime(units)) ==> retry.OnTime(units))
      invariant attempts == retry.retried && Busy(cat.others) + attempts <= Busy(old(cat.others))
      invariant old(cat.others) == [] ==> attempts == 0 && cat.others == [] && cat.world == old(cat.world)
      decreases retry.policy.retries - retry.retried
    {
      ghost var (before, rest) := (at, cat.others);
      var again;
      done, again, at := TryAndWait(cat, rewritten, files, retry, units, mine);
      SinceTogether(old(cat.world), old(cat.others), before, rest, at, cat.others);
      attempts := attempts + if done.Refused? then 0 else 1;
      if !again {
        if Granted(old(cat.world), old(cat.others), rewritten.snapshot, retry.policy.retries) {
          StillGranted(old(cat.world), old(cat.others), at, cat.others, rewritten.snapshot, retry.policy.retries);
        }
        return;
      }
    }
  }

  /** Every attempt so far was beaten to the swap, and no more may be made. */
  ghost predicate Beaten(retry: Retrying, units: seq<real>, attempts: nat)
    requires Rounds(retry.fl)
    reads retry, retry.clock
  {
    attempts == retry.retried + 1 && retry.Exhausted(units)
  }

  /** A rewrite's start: it learns the manifests of `of` and scans what was added by now, and is
      refused at once where an attempt would be. What promised its success still does. */
  method BeginRewrite(cat: Catalog, of: nat, ghost retries: nat, ghost mine: set<string>)
    returns (r: Result<Rewritten, Failure>)
    requires cat.Valid(mine) && of in cat.world.history
    modifies cat
    ensures cat.Valid(mine) && Others(old(cat.world), cat.world, {})
    ensures r.Ok? ==> fresh(r.value) && Ready(cat, r.value, mine) && r.value.snapshot == of
    ensures r == Err(WrongFormat) ==> !cat.world.v2
    ensures r == Err(NoSnapshot) ==> of !in cat.world.live
    ensures r == Err(Conflict) ==> !MayCarry(cat.world, of)
    ensures old(cat.others) == [] ==> cat.others == [] && cat.world == old(cat.world)
    ensures Granted(old(cat.world), old(cat.others), of, retries) ==>
              r.Ok? && Granted(cat.world, cat.others, of, retries)
    ensures old(cat.others) == [] ==> (r.Ok? <==> MayRewrite(old(cat.world), of))
  {
    var w := cat.Load(mine);
    if !w.v2 {
      return Err(WrongFormat);
    }
    if of !in w.live {
      return Err(NoSnapshot);
    }
    ghost var rest := cat.others;
    var rewritten := new Rewritten(w, of);
    var first, _ := PrepareRewrite(cat, rewritten, mine);
    SinceTogether(old(cat.world), old(cat.others), w, rest, cat.world, cat.others);
    if Granted(old(cat.world), old(cat.others), of, retries) {
      StillGranted(old(cat.world), old(cat.others), cat.world, cat.others, of, retries);
    }
    r := if first.Some? then Ok(rewritten) else Err(Conflict);
  }

  /** The attempts, and what they come to: committed, or a conflict. */
  method FinishRewrite(cat: Catalog, rewritten: Rewritten, files: seq<DataFile>, retry: Retrying, units: seq<real>,
                       ghost mine: set<string>)
    returns (r: Result<nat, Failure>, attempts: nat, ghost at: World)
    requires Ready(cat, rewritten, mine) && PathsOf(files) <= mine && DistinctPaths(files)
    requires retry.Valid() && retry.retried == 0 && CopyOf(cat.world, rewritten.snapshot, files)
    modifies cat, rewritten, retry, retry.clock
    ensures retry.Valid() && TableOk(at) && Others(old(cat.world), at, {})
    ensures r.Ok? ==> Makes(at, PeqlRewrite(rewritten.snapshot, files), cat.world) && Some(r.value) == cat.world.current
    ensures r.Err? ==> cat.world == at && r == Err(Conflict)
    ensures r.Err? ==> if attempts == retry.retried then !MayCarry(at, rewritten.snapshot)
                       else Beaten(retry, units, attempts)
    ensures attempts <= retry.retried + 1
    ensures Granted(old(cat.world), old(cat.others), rewritten.snapshot, retry.policy.retries) ==>
              (old(retry.OnTime(units)) ==> r.Ok?)
    ensures old(cat.others) == [] ==> (r.Ok? <==> MayCarry(old(cat.world), rewritten.snapshot))
  {
    var done;
    done, attempts, at := TryRewrite(cat, rewritten, files, retry, units, mine);
    CopyStays(old(cat.world), at, rewritten.snapshot, files);
    r := if done.Committed? then Ok(cat.world.current.value) else Err(Conflict);
  }

  /** Rewrite: replaces the manifests of `of` in the current snapshot's list, keeping every other. */
  method CommitRewrite(cat: Catalog, of: nat, files: seq<DataFile>, retry: Retrying, units: seq<real>,
                       ghost mine: set<string>)
    returns (r: Result<nat, Failure>, attempts: nat, ghost at: World)
    requires cat.Valid(mine) && PathsOf(files) <= mine && DistinctPaths(files)
    requires retry.Valid() && retry.retried == 0 && of in cat.world.history && CopyOf(cat.world, of, files)
    modifies cat, retry, retry.clock
    ensures retry.Valid() && attempts <= retry.retried + 1
    ensures TableOk(at) && Others(old(cat.world), at, {})
    ensures r.Ok? ==> Makes(at, PeqlRewrite(of, files), cat.world) && Some(r.value) == cat.world.current
    ensures r.Err? ==> cat.world == at
    ensures r == Err(WrongFormat) ==> !at.v2
    ensures r == Err(NoSnapshot) ==> of !in at.live
    ensures r == Err(Conflict) ==> if attempts == retry.retried then !MayCarry(at, of) else Beaten(retry, units, attempts)
    ensures r.Err? && r != Err(Conflict) ==> attempts == retry.retried
    ensures Granted(old(cat.world), old(cat.others), of, retry.policy.retries) ==> (old(retry.OnTime(units)) ==> r.Ok?)
    ensures old(cat.others) == [] ==> (r.Ok? <==> MayRewrite(old(cat.world), of))
  {
    var begun := BeginRewrite(cat, of, retry.policy.retries, mine);
    if begun.Err? {
      return Err(begun.error), 0, cat.world;
    }
    ghost var read := cat.world;
    CopyStays(old(cat.world), read, of, files);
    r, attempts, at := FinishRewrite(cat, begun.value, files, retry, units, mine);
    OthersCompose(old(cat.world), read, at, {});
  }
}
