/**
 The facts of a table's snapshots: recorded with a snapshot, or replayed from the writes since the
 nearest snapshot that has them. The reference is validating every row of the snapshot.
 */
module SnapshotFacts {
  import opened Wrappers
  import opened Rows
  import opened IcebergTable
  import opened RewrittenSnapshot
  import opened Manifests
  import opened Facts
  import opened FactsAgree
  import opened Commit

  type FactsManifest = Manifests.Manifest

  /** A write's facts under one contract, and the time of the snapshot it made. */
  datatype Recorded = Recorded(write: WriteFacts, at: int)

  ghost predicate ParentsBefore(w: World) {
    forall id :: id in w.history && w.history[id].parent.Some? ==> w.history[id].parent.value < id
  }

  /** A snapshot's facts, one write at a time: recorded, or the parent's after its write. Nothing
      for a snapshot that is expired or was not written under the contract. */
  ghost function Known(c: Compilation, w: World, writes: map<nat, Recorded>, facts: map<nat, FactsManifest>, s: nat):
    Result<Option<FactsManifest>, FactsError>
    requires ParentsBefore(w)
    decreases s
  {
    if s !in w.live || s !in w.history then Ok(None)
    else if s in facts then
      if facts[s].snapshotId != Some(s) then Err(Misfiled) else Ok(Some(facts[s]))
    else if s !in writes then Ok(None)
    else
      var (r, parent) := (writes[s], w.history[s].parent);
      if r.write.written == Facts.Overwrite || parent.None? then AfterWrite(c, None, r.write, r.at, Some(s))
      else
        var before := Known(c, w, writes, facts, parent.value);
        if before.Err? || before.value.None? then before
        else AfterWrite(c, before.value, r.write, r.at, Some(s))
  }

  // ── memoising ───────────────────────────────────────────────────────────────

  /** `after` is `before` with facts recorded for some snapshots, each as `Known` gives them. */
  ghost predicate Memoised(c: Compilation, w: World, writes: map<nat, Recorded>,
                           before: map<nat, FactsManifest>, after: map<nat, FactsManifest>)
    requires ParentsBefore(w)
  {
    && (forall s :: s in before ==> s in after && after[s] == before[s])
    && (forall s :: s in after && s !in before ==>
          Known(c, w, writes, before, s) == Ok(Some(after[s])) && after[s].snapshotId == Some(s))
  }

  /** Recording facts on the way changes the answer for no snapshot. */
  lemma {:induction false} MemoisingIsHidden(c: Compilation, w: World, writes: map<nat, Recorded>,
                                             before: map<nat, FactsManifest>, after: map<nat, FactsManifest>, s: nat)
    requires ParentsBefore(w) && Memoised(c, w, writes, before, after)
    ensures Known(c, w, writes, after, s) == Known(c, w, writes, before, s)
    decreases s
  {
    if s in w.live && s in w.history && s !in after && s in writes && w.history[s].parent.Some? {
      MemoisingIsHidden(c, w, writes, before, after, w.history[s].parent.value);
    }
  }

  lemma MemoisedMore(c: Compilation, w: World, writes: map<nat, Recorded>,
                     before: map<nat, FactsManifest>, after: map<nat, FactsManifest>, s: nat, m: FactsManifest)
    requires ParentsBefore(w) && Memoised(c, w, writes, before, after) && s !in before
    requires Known(c, w, writes, before, s) == Ok(Some(m)) && m.snapshotId == Some(s)
    ensures Memoised(c, w, writes, before, after[s := m])
  {
  }

  /** The snapshots of `walk`, oldest last: each the parent of the one before it, each with a
      write to replay and no facts recorded. */
  ghost predicate Walk(w: World, writes: map<nat, Recorded>, facts: map<nat, FactsManifest>, walk: seq<nat>)
    requires ParentsBefore(w)
  {
    && (forall i :: 0 <= i < |walk| ==>
          walk[i] in w.live && walk[i] in w.history && walk[i] !in facts && walk[i] in writes)
    && (forall i :: 0 <= i < |walk| - 1 ==>
          writes[walk[i]].write.written != Facts.Overwrite && w.history[walk[i]].parent == Some(walk[i + 1]))
  }

  /** Nothing known, or an error, at the end of the walk is that for its start. */
  lemma {:induction false} WalkStops(c: Compilation, w: World, writes: map<nat, Recorded>,
                                     facts: map<nat, FactsManifest>, walk: seq<nat>, at: nat)
    requires ParentsBefore(w) && Walk(w, writes, facts, walk) && walk != []
    requires writes[walk[|walk| - 1]].write.written != Facts.Overwrite
    requires w.history[walk[|walk| - 1]].parent == Some(at)
    requires Known(c, w, writes, facts, at).Err? || Known(c, w, writes, facts, at).value.None?
    ensures Known(c, w, writes, facts, walk[0]) == Known(c, w, writes, facts, at)
  {
    var n := |walk| - 1;
    assert Known(c, w, writes, facts, walk[n]) == Known(c, w, writes, facts, at);
    if n > 0 {
      WalkStops(c, w, writes, facts, walk[..n], walk[n]);
    }
  }

  /** What `Known` gives one step of the replay from what was known before it. */
  ghost function Replayed(c: Compilation, writes: map<nat, Recorded>, s: nat, known: Option<FactsManifest>):
    Result<Option<FactsManifest>, FactsError>
    requires s in writes
  {
    AfterWrite(c, known, writes[s].write, writes[s].at, Some(s))
  }

  /** Whether `known` is what the replay of `walk[n]` starts from. */
  ghost predicate Before(c: Compilation, w: World, writes: map<nat, Recorded>, facts: map<nat, FactsManifest>,
                         s: nat, known: Option<FactsManifest>)
    requires ParentsBefore(w) && s in writes && s in w.history
  {
    if writes[s].write.written == Facts.Overwrite || w.history[s].parent.None? then known.None?
    else known.Some? && Known(c, w, writes, facts, w.history[s].parent.value) == Ok(known)
  }

  lemma ReplayIs(c: Compilation, w: World, writes: map<nat, Recorded>, facts: map<nat, FactsManifest>,
                 walk: seq<nat>, i: nat, known: Option<FactsManifest>)
    requires ParentsBefore(w) && Walk(w, writes, facts, walk) && i < |walk|
    requires Before(c, w, writes, facts, walk[i], known)
    ensures Known(c, w, writes, facts, walk[i]) == Replayed(c, writes, walk[i], known)
    ensures var r := Replayed(c, writes, walk[i], known);
            r.Ok? && r.value.Some? ==> r.value.value.snapshotId == Some(walk[i])
                                       && (i > 0 ==> Before(c, w, writes, facts, walk[i - 1], r.value))
    ensures var r := Replayed(c, writes, walk[i], known);
            (r.Err? || r.value.None?) ==> Known(c, w, writes, facts, walk[0]) == r
  {
    var r := Replayed(c, writes, walk[i], known);
    assert i > 0 ==> w.history[walk[i - 1]].parent == Some(walk[i]);
    if (r.Err? || r.value.None?) && i > 0 {
      assert walk[..i][i - 1] == walk[i - 1];
      WalkStops(c, w, writes, facts, walk[..i], walk[i]);
    }
  }

  // ── the store ───────────────────────────────────────────────────────────────

  /** One contract's facts beside a table: of each snapshot that has them, and of each write. */
  class Store {
    var facts: map<nat, FactsManifest>
    var writes: map<nat, Recorded>

    /** What the walk back finds: the snapshots to replay, and what the oldest starts from. */
    method WalkBack(c: Compilation, w: World, s: nat)
      returns (stop: Option<Result<Option<FactsManifest>, FactsError>>, walk: seq<nat>, known: Option<FactsManifest>)
      requires ParentsBefore(w)
      ensures stop.Some? ==> Known(c, w, writes, facts, s) == stop.value
      ensures stop.Some? && stop.value.Ok? && stop.value.value.Some? ==>
                s in facts && stop.value.value == Some(facts[s])
      ensures stop.None? ==> walk != [] && walk[0] == s && Walk(w, writes, facts, walk)
                             && Before(c, w, writes, facts, walk[|walk| - 1], known)
    {
      walk, known, stop := [], None, None;
      var at := Some(s);
      while at.Some?
        invariant Walk(w, writes, facts, walk)
        invariant walk == [] ==> at == Some(s)
        invariant walk != [] ==> walk[0] == s && w.history[walk[|walk| - 1]].parent == at
        invariant walk != [] ==> writes[walk[|walk| - 1]].write.written != Facts.Overwrite
        invariant known.None?
        decreases if at.Some? then at.value + 1 else 0
      {
        var id := at.value;
        if id !in w.live || id !in w.history {
          if walk != [] {
            WalkStops(c, w, writes, facts, walk, id);
          }
          stop := Some(Ok(None));
          return;
        }
        if id in facts {
          if facts[id].snapshotId != Some(id) {
            if walk != [] {
              WalkStops(c, w, writes, facts, walk, id);
            }
            stop := Some(Err(Misfiled));
            return;
          }
          known := Some(facts[id]);
          if walk == [] {
            stop := Some(Ok(known));
          }
          return;
        }
        if id !in writes {
          if walk != [] {
            WalkStops(c, w, writes, facts, walk, id);
          }
          stop := Some(Ok(None));
          return;
        }
        walk := walk + [id];
        if writes[id].write.written == Facts.Overwrite {
          return;
        }
        at := w.history[id].parent;
      }
    }

    /** Answers for one snapshot: walks parents until something is known, then replays forward,
        memoising every step. */
    method IcebergFacts(c: Compilation, w: World, s: nat) returns (r: Result<Option<FactsManifest>, FactsError>)
      requires ParentsBefore(w)
      modifies this`facts
      ensures r == Known(c, w, writes, old(facts), s)
      ensures Memoised(c, w, writes, old(facts), facts)
      ensures r.Ok? && r.value.Some? ==> s in facts && facts[s] == r.value.value
    {
      var stop, walk, known := WalkBack(c, w, s);
      if stop.Some? {
        return stop.value;
      }
      ghost var was := facts;
      var i := |walk|;
      while i > 0
        invariant 0 <= i <= |walk| && Walk(w, writes, was, walk)
        invariant Memoised(c, w, writes, was, facts)
        invariant i > 0 ==> Before(c, w, writes, was, walk[i - 1], known)
        invariant i < |walk| ==> Known(c, w, writes, was, walk[i]) == Ok(known)
                                 && known.Some? && walk[i] in facts && facts[walk[i]] == known.value
      {
        i := i - 1;
        var id := walk[i];
        ReplayIs(c, w, writes, was, walk, i, known);
        var after := AfterWrite(c, known, writes[id].write, writes[id].at, Some(id));
        if after.Err? || after.value.None? {
          return after;
        }
        MemoisedMore(c, w, writes, was, facts, id, after.value.value);
        facts := facts[id := after.value.value];
        known := after.value;
      }
      r := Ok(known);
    }
  }

  // ── the facts of every snapshot peQL made ───────────────────────────────────

  /** The facts of a step's write: of the rows and files it wrote, and for a rewrite the paths of
      the files it replaced. */
  ghost predicate FactsOf(c: Compilation, w: World, step: Step, write: WriteFacts) {
    match step
    case Foreign(_) => false
    case PeqlAppend(files) => write.written == Facts.Append && Agrees(c, write.facts, Flatten(files), files)
    case PeqlOverwrite(_, files) => write.written == Facts.Overwrite && Agrees(c, write.facts, Flatten(files), files)
    case PeqlRewrite(of, files) =>
      && write.written == Facts.Rewrite && Agrees(c, write.facts, Flatten(files), files)
      && of in w.history && Names(write.removed, Files(w, of))
  }

  /** Every write's facts are of the step that made the snapshot, or of another compilation. */
  ghost predicate WritesRight(c: Compilation, st: State, writes: map<nat, Recorded>) {
    forall id :: id in writes ==>
      id in st.made
      && (writes[id].write.facts.compilationHash == c.compilationHash ==>
            FactsOf(c, st.world, st.made[id], writes[id].write))
  }

  /** Every snapshot's recorded facts name it, and agree with it or are of another compilation. */
  ghost predicate FactsRight(c: Compilation, w: World, facts: map<nat, FactsManifest>) {
    forall s :: s in facts ==>
      s in w.history && facts[s].snapshotId == Some(s)
      && (facts[s].compilationHash == c.compilationHash ==> Agrees(c, facts[s], SnapshotRows(w, s), Files(w, s)))
  }

  ghost predicate AllFit(c: Compilation, w: World) {
    CompilationOk(c) && forall id :: id in w.history ==> Fits(c, |SnapshotRows(w, id)|)
  }

  /** Some row of `of` is deleted: its files hold more rows than it has. */
  ghost predicate Lost(w: World, of: nat)
    requires of in w.history
  {
    AnyDead(Files(w, of), Dead(w.history[of].list, w.manifests))
  }

  lemma LostRows(w: World, of: nat)
    requires of in w.history
    ensures Lost(w, of) <==> |SnapshotRows(w, of)| != |Flatten(Files(w, of))|
  {
    LiveCount(Files(w, of), Dead(w.history[of].list, w.manifests));
  }

  /** Snapshot `s` is a rewrite that left deleted rows behind. */
  ghost predicate Drops(st: State, s: nat) {
    s in st.made && st.made[s].PeqlRewrite? && st.made[s].of in st.world.history && Lost(st.world, st.made[s].of)
  }

  /** What asking for a snapshot's facts comes to: they are right, they are refused, or this
      compilation has none. */
  datatype Outcome = Right | Refused | Unheld

  /** Facts are to be had of `s` when they are recorded, or by replaying writes under this compilation
      back to a snapshot that has them or whose write replaced the data; the replay of a rewrite that
      left deleted rows behind is refused, and so is every replay from it on. */
  ghost function OutcomeOf(c: Compilation, st: State, writes: map<nat, Recorded>, facts: map<nat, FactsManifest>,
                           s: nat): Outcome
    requires ParentsBefore(st.world)
    decreases s
  {
    var w := st.world;
    if s !in w.live || s !in w.history then Unheld
    else if s in facts then if facts[s].compilationHash == c.compilationHash then Right else Unheld
    else if s !in writes then Unheld
    else
      var (ours, parent) := (writes[s].write.facts.compilationHash == c.compilationHash, w.history[s].parent);
      if writes[s].write.written == Facts.Overwrite || parent.None? then if ours then Right else Unheld
      else
        match OutcomeOf(c, st, writes, facts, parent.value)
        case Refused => Refused
        case Unheld => Unheld
        case Right => if !ours then Unheld else if Drops(st, s) then Refused else Right
  }

  ghost predicate Sound(c: Compilation, st: State, writes: map<nat, Recorded>, facts: map<nat, FactsManifest>) {
    Safe(st) && ParentsBefore(st.world) && AllFit(c, st.world) && WritesRight(c, st, writes)
      && FactsRight(c, st.world, facts)
  }

  lemma SafeParents(w: World)
    requires TableOk(w)
    ensures ParentsBefore(w)
  {
    forall id | id in w.history && w.history[id].parent.Some?
      ensures w.history[id].parent.value < id
    {
      assert SnapshotOk(w.history[id], id, w);
    }
  }

  lemma AfterSource(c: Compilation, st: State, id: nat, r: Recorded)
    requires Safe(st) && id in st.made && FactsOf(c, st.world, st.made[id], r.write)
    requires r.write.written == Facts.Overwrite || st.world.history[id].parent.None?
    ensures var m := AfterWrite(c, None, r.write, r.at, Some(id));
            m.Ok? && m.value.Some? && Agrees(c, m.value.value, SnapshotRows(st.world, id), Files(st.world, id))
  {
    var w := st.world;
    assert Effect(w, id, st.made[id]);
    assert SnapshotOk(w.history[id], id, w);
    OverwriteAgrees(c, None, r.write, r.at, Some(id), SnapshotRows(w, id), Files(w, id));
  }

  /** What a rewrite of `of` with `files` did to its parent's files and rows. */
  ghost predicate Swapped(w: World, id: nat, p: nat, of: nat, files: seq<DataFile>, kept: seq<DataFile>)
    requires id in w.history && p in w.history && of in w.history
  {
    && Files(w, id) == kept + files && DistinctPaths(Files(w, id)) && DistinctPaths(Files(w, p))
    && multiset(Files(w, p)) == multiset(Files(w, of)) + multiset(kept)
    && |Flatten(files)| == |SnapshotRows(w, of)|
    && multiset(SnapshotRows(w, id)) == multiset(SnapshotRows(w, p))
  }

  lemma CopyParts(st: State, id: nat, p: nat) returns (kept: seq<DataFile>)
    requires Safe(st) && id in st.made && st.made[id].PeqlRewrite? && st.world.history[id].parent == Some(p)
    ensures p in st.world.history && st.made[id].of in st.world.history
    ensures Swapped(st.world, id, p, st.made[id].of, st.made[id].files, kept)
  {
    var w := st.world;
    var (of, files) := (st.made[id].of, st.made[id].files);
    assert Effect(w, id, st.made[id]);
    assert SnapshotOk(w.history[id], id, w) && SnapshotOk(w.history[p], p, w);
    kept :| Files(w, id) == kept + files
            && multiset(Files(w, p)) == multiset(Files(w, of)) + multiset(kept)
            && |Flatten(files)| == |SnapshotRows(w, of)|;
  }

  lemma AfterCopy(c: Compilation, w: World, id: nat, p: nat, of: nat, files: seq<DataFile>, kept: seq<DataFile>,
                  r: Recorded, b: FactsManifest)
    requires id in w.history && p in w.history && of in w.history && Swapped(w, id, p, of, files, kept)
    requires FactsOf(c, w, PeqlRewrite(of, files), r.write) && Agrees(c, b, SnapshotRows(w, p), Files(w, p))
    ensures var m := AfterWrite(c, Some(b), r.write, r.at, Some(id));
            if Lost(w, of) then m.Err? && m.error.RowsDiffer?
            else m.Ok? && m.value.Some? && Agrees(c, m.value.value, SnapshotRows(w, id), Files(w, id))
  {
    LostRows(w, of);
    if Lost(w, of) {
      RewriteRefused(c, b, SnapshotRows(w, p), Files(w, p), r.write, r.at, Some(id), Files(w, of), kept, files);
    } else {
      RewriteAgrees(c, b, SnapshotRows(w, p), Files(w, p), r.write, r.at, Some(id), Files(w, of), kept, files,
                    SnapshotRows(w, id));
    }
  }

  /** The facts after one write over its parent's: right, but for a rewrite that left deleted rows
      behind, which its row count refuses. */
  lemma AfterParent(c: Compilation, st: State, id: nat, r: Recorded, b: FactsManifest)
    requires Safe(st) && id in st.made && FactsOf(c, st.world, st.made[id], r.write)
    requires r.write.written != Facts.Overwrite && st.world.history[id].parent.Some?
    requires CompilationOk(c) && Fits(c, |SnapshotRows(st.world, id)|)
    requires var p := st.world.history[id].parent.value;
             p in st.world.history && Agrees(c, b, SnapshotRows(st.world, p), Files(st.world, p))
    ensures var m := AfterWrite(c, Some(b), r.write, r.at, Some(id));
            if Drops(st, id) then m.Err? && m.error.RowsDiffer?
            else m.Ok? && m.value.Some? && Agrees(c, m.value.value, SnapshotRows(st.world, id), Files(st.world, id))
  {
    var w := st.world;
    var p := w.history[id].parent.value;
    match st.made[id]
    case PeqlAppend(files) =>
      assert Effect(w, id, st.made[id]);
      assert SnapshotOk(w.history[id], id, w);
      AppendAgrees(c, b, SnapshotRows(w, p), Files(w, p), r.write, r.at, Some(id), Flatten(files), files);
    case PeqlRewrite(of, files) =>
      var kept := CopyParts(st, id, p);
      AfterCopy(c, w, id, p, of, files, kept, r, b);
  }

  /** What an answer for `s` is to be. */
  ghost predicate Answers(c: Compilation, w: World, facts: map<nat, FactsManifest>, s: nat, outcome: Outcome,
                          r: Result<Option<FactsManifest>, FactsError>)
  {
    match outcome
    case Right => r.Ok? && r.value.Some? && s in w.history && Agrees(c, r.value.value, SnapshotRows(w, s), Files(w, s))
    case Refused => r.Err? && r.error.RowsDiffer?
    case Unheld =>
      && r.Ok?
      && (r.value.Some? ==>
            s in facts && r.value.value == facts[s] && facts[s].compilationHash != c.compilationHash)
  }

  lemma AnswerRecorded(c: Compilation, st: State, writes: map<nat, Recorded>, facts: map<nat, FactsManifest>, s: nat)
    requires ParentsBefore(st.world) && FactsRight(c, st.world, facts)
    requires s in facts || s !in st.world.live || s !in st.world.history || s !in writes
    ensures Answers(c, st.world, facts, s, OutcomeOf(c, st, writes, facts, s), Known(c, st.world, writes, facts, s))
  {
  }

  /** What the replay of one write comes to, from what it starts from. */
  ghost function Replays(c: Compilation, st: State, writes: map<nat, Recorded>, s: nat,
                         before: Option<FactsManifest>): Outcome
    requires s in writes
  {
    if writes[s].write.facts.compilationHash != c.compilationHash
       || (before.Some? && before.value.compilationHash != c.compilationHash) then Unheld
    else if before.Some? && Drops(st, s) then Refused
    else Right
  }

  lemma AnswerReplayed(c: Compilation, st: State, writes: map<nat, Recorded>, facts: map<nat, FactsManifest>, s: nat,
                       before: Option<FactsManifest>)
    requires Sound(c, st, writes, facts) && s in writes
    requires (writes[s].write.written == Facts.Overwrite || st.world.history[s].parent.None?) == before.None?
    requires before.Some? && before.value.compilationHash == c.compilationHash ==>
               var p := st.world.history[s].parent.value;
               p in st.world.history && Agrees(c, before.value, SnapshotRows(st.world, p), Files(st.world, p))
    ensures Answers(c, st.world, facts, s, Replays(c, st, writes, s, before), Replayed(c, writes, s, before))
  {
    if writes[s].write.facts.compilationHash == c.compilationHash {
      if before.None? {
        AfterSource(c, st, s, writes[s]);
      } else if before.value.compilationHash == c.compilationHash {
        AfterParent(c, st, s, writes[s], before.value);
      }
    }
  }

  lemma AnswerSource(c: Compilation, st: State, writes: map<nat, Recorded>, facts: map<nat, FactsManifest>, s: nat)
    requires Sound(c, st, writes, facts) && s in writes && s !in facts && s in st.world.live && s in st.world.history
    requires writes[s].write.written == Facts.Overwrite || st.world.history[s].parent.None?
    ensures Answers(c, st.world, facts, s, OutcomeOf(c, st, writes, facts, s), Known(c, st.world, writes, facts, s))
  {
    AnswerReplayed(c, st, writes, facts, s, None);
  }

  lemma AnswerHash(c: Compilation, w: World, facts: map<nat, FactsManifest>, s: nat, outcome: Outcome,
                   r: Result<Option<FactsManifest>, FactsError>)
    requires Answers(c, w, facts, s, outcome, r)
    ensures outcome.Refused? <==> r.Err?
    ensures outcome.Right? <==> r.Ok? && r.value.Some? && r.value.value.compilationHash == c.compilationHash
    ensures outcome.Right? ==> s in w.history && Agrees(c, r.value.value, SnapshotRows(w, s), Files(w, s))
  {
  }

  lemma AnswerPassed(c: Compilation, w: World, facts: map<nat, FactsManifest>, s: nat, p: nat, outcome: Outcome,
                     r: Result<Option<FactsManifest>, FactsError>)
    requires Answers(c, w, facts, p, outcome, r) && (r.Err? || r.value.None?)
    ensures Answers(c, w, facts, s, outcome, r)
  {
  }

  lemma KnownVia(c: Compilation, st: State, writes: map<nat, Recorded>, facts: map<nat, FactsManifest>, s: nat, p: nat)
    requires ParentsBefore(st.world) && s in writes && s !in facts && s in st.world.live && s in st.world.history
    requires writes[s].write.written != Facts.Overwrite && st.world.history[s].parent == Some(p)
    ensures var before := Known(c, st.world, writes, facts, p);
            Known(c, st.world, writes, facts, s) ==
            if before.Err? || before.value.None? then before else Replayed(c, writes, s, before.value)
    ensures OutcomeOf(c, st, writes, facts, s) ==
            match OutcomeOf(c, st, writes, facts, p) {
              case Refused => Refused
              case Unheld => Unheld
              case Right =>
                if writes[s].write.facts.compilationHash != c.compilationHash then Unheld
                else if Drops(st, s) then Refused else Right
            }
  {
  }

  lemma AnswerParent(c: Compilation, st: State, writes: map<nat, Recorded>, facts: map<nat, FactsManifest>, s: nat,
                     p: nat)
    requires Sound(c, st, writes, facts) && s in writes && s !in facts && s in st.world.live && s in st.world.history
    requires writes[s].write.written != Facts.Overwrite && st.world.history[s].parent == Some(p)
    requires Answers(c, st.world, facts, p, OutcomeOf(c, st, writes, facts, p), Known(c, st.world, writes, facts, p))
    ensures Answers(c, st.world, facts, s, OutcomeOf(c, st, writes, facts, s), Known(c, st.world, writes, facts, s))
  {
    var before := Known(c, st.world, writes, facts, p);
    AnswerHash(c, st.world, facts, p, OutcomeOf(c, st, writes, facts, p), before);
    KnownVia(c, st, writes, facts, s, p);
    if before.Err? || before.value.None? {
      AnswerPassed(c, st.world, facts, s, p, OutcomeOf(c, st, writes, facts, p), before);
    } else {
      AnswerReplayed(c, st, writes, facts, s, before.value);
    }
  }

  /** Whatever is recorded on the way, facts come back under this compilation exactly when they are
      to be had, and then each is what validating the whole snapshot finds; facts of another
      compilation come back only as they were recorded with the snapshot itself; and the walk fails
      exactly at a rewrite of a snapshot with a deleted row, and from it on. */
  lemma {:induction false} KnownAgrees(c: Compilation, st: State, writes: map<nat, Recorded>,
                                       facts: map<nat, FactsManifest>, s: nat)
    requires Sound(c, st, writes, facts)
    ensures Answers(c, st.world, facts, s, OutcomeOf(c, st, writes, facts, s), Known(c, st.world, writes, facts, s))
    decreases s
  {
    if s in facts || s !in st.world.live || s !in st.world.history || s !in writes {
      AnswerRecorded(c, st, writes, facts, s);
    } else if writes[s].write.written == Facts.Overwrite || st.world.history[s].parent.None? {
      AnswerSource(c, st, writes, facts, s);
    } else {
      KnownAgrees(c, st, writes, facts, st.world.history[s].parent.value);
      AnswerParent(c, st, writes, facts, s, st.world.history[s].parent.value);
    }
  }

  /** Where no rewrite left a deleted row behind, nothing is refused. */
  lemma {:induction false} NoneRefused(c: Compilation, st: State, writes: map<nat, Recorded>,
                                       facts: map<nat, FactsManifest>, s: nat)
    requires ParentsBefore(st.world) && forall id :: id in st.made ==> !Drops(st, id)
    ensures OutcomeOf(c, st, writes, facts, s) != Refused
    decreases s
  {
    if s in st.world.history && st.world.history[s].parent.Some? {
      NoneRefused(c, st, writes, facts, st.world.history[s].parent.value);
    }
  }

  // ── every run ───────────────────────────────────────────────────────────────

  /** The table, the facts of its writes and of its snapshots. */
  datatype Ledger = Ledger(st: State, writes: map<nat, Recorded>, facts: map<nat, FactsManifest>)

  datatype Act =
    | Commits(step: Step, write: Option<Recorded>) // a commit, its facts under this contract saved before it
    | Asks(s: nat)                                 // a read, which records what it replays
    | Validates(s: nat)                            // the whole snapshot validated and recorded
    | Elsewhere                                    // an engine with another compilation records facts

  ghost predicate Acts(c: Compilation, l: Ledger, act: Act, l': Ledger) {
    match act
    case Commits(step, write) =>
      && Next(l.st, step, l'.st) && AllFit(c, l'.st.world) && l'.facts == l.facts
      && if step.Foreign? || write.None? then l'.writes == l.writes
         else
           && l'.writes == l.writes[l.st.world.nextSnapshot := write.value]
           && (write.value.write.facts.compilationHash == c.compilationHash ==>
                 FactsOf(c, l.st.world, step, write.value.write))
    case Asks(s) =>
      && l' == Ledger(l.st, l.writes, l'.facts)
      && ParentsBefore(l.st.world) && Memoised(c, l.st.world, l.writes, l.facts, l'.facts)
    case Validates(s) =>
      && l' == Ledger(l.st, l.writes, l'.facts) && s in l.st.world.history && s in l'.facts
      && l'.facts == l.facts[s := l'.facts[s]] && l'.facts[s].snapshotId == Some(s)
      && Agrees(c, l'.facts[s], SnapshotRows(l.st.world, s), Files(l.st.world, s))
    case Elsewhere =>
      && l' == Ledger(l.st, l.writes, l'.facts) && l.facts.Keys <= l'.facts.Keys
      && forall s :: s in l'.facts && (s !in l.facts || l.facts[s] != l'.facts[s]) ==>
           s in l.st.world.history && l'.facts[s].snapshotId == Some(s)
           && l'.facts[s].compilationHash != c.compilationHash
  }

  ghost predicate Ledgers(c: Compilation, ls: seq<Ledger>, acts: seq<Act>) {
    && |ls| == |acts| + 1
    && TableOk(ls[0].st.world) && AllFit(c, ls[0].st.world)
    && ls[0].st.made == map[] && ls[0].writes == map[] && ls[0].facts == map[]
    && forall i :: 0 <= i < |acts| ==> Acts(c, ls[i], acts[i], ls[i + 1])
  }

  lemma FactsStay(c: Compilation, w: World, w': World, facts: map<nat, FactsManifest>)
    requires TableOk(w) && Others(w, w', {}) && FactsRight(c, w, facts)
    ensures FactsRight(c, w', facts)
  {
    forall s | s in facts
      ensures s in w'.history && SnapshotRows(w', s) == SnapshotRows(w, s) && Files(w', s) == Files(w, s)
    {
      OthersKeep(w, w', {}, s);
    }
  }

  lemma FactsOfStays(c: Compilation, w: World, w': World, step: Step, write: WriteFacts)
    requires TableOk(w) && Others(w, w', {}) && FactsOf(c, w, step, write)
    ensures FactsOf(c, w', step, write)
  {
    if step.PeqlRewrite? {
      OthersKeep(w, w', {}, step.of);
    }
  }

  lemma WritesStay(c: Compilation, st: State, writes: map<nat, Recorded>, st': State)
    requires TableOk(st.world) && Others(st.world, st'.world, {}) && WritesRight(c, st, writes)
    requires forall id :: id in st.made ==> id in st'.made && st'.made[id] == st.made[id]
    ensures WritesRight(c, st', writes)
  {
    forall id | id in writes && writes[id].write.facts.compilationHash == c.compilationHash
      ensures FactsOf(c, st'.world, st'.made[id], writes[id].write)
    {
      FactsOfStays(c, st.world, st'.world, st.made[id], writes[id].write);
    }
  }

  lemma CommitMade(l: Ledger, step: Step, l': Ledger)
    requires Safe(l.st) && Next(l.st, step, l'.st)
    ensures forall id :: id in l.st.made ==> id in l'.st.made && l'.st.made[id] == l.st.made[id]
    ensures !step.Foreign? ==> l.st.world.nextSnapshot in l'.st.made && l'.st.made[l.st.world.nextSnapshot] == step
  {
    StepMade(l.st, step, l'.st);
    assert l.st.world.nextSnapshot !in l.st.world.history;
  }

  lemma WriteAdded(c: Compilation, st: State, writes: map<nat, Recorded>, id: nat, r: Recorded)
    requires WritesRight(c, st, writes) && id in st.made
    requires r.write.facts.compilationHash == c.compilationHash ==> FactsOf(c, st.world, st.made[id], r.write)
    ensures WritesRight(c, st, writes[id := r])
  {
  }

  lemma CommitStays(c: Compilation, l: Ledger, step: Step, write: Option<Recorded>, l': Ledger)
    requires Sound(c, l.st, l.writes, l.facts) && Acts(c, l, Commits(step, write), l')
    ensures Sound(c, l'.st, l'.writes, l'.facts)
  {
    StepSafe(l.st, step, l'.st);
    SafeParents(l'.st.world);
    FactsStay(c, l.st.world, l'.st.world, l.facts);
    CommitMade(l, step, l');
    WritesStay(c, l.st, l.writes, l'.st);
    if !step.Foreign? && write.Some? {
      if write.value.write.facts.compilationHash == c.compilationHash {
        FactsOfStays(c, l.st.world, l'.st.world, step, write.value.write);
      }
      WriteAdded(c, l'.st, l.writes, l.st.world.nextSnapshot, write.value);
    }
  }

  lemma AskStays(c: Compilation, l: Ledger, act: Act, l': Ledger)
    requires Sound(c, l.st, l.writes, l.facts) && act.Asks? && Acts(c, l, act, l')
    ensures Sound(c, l'.st, l'.writes, l'.facts)
  {
    forall s | s in l'.facts
      ensures s in l.st.world.history && l'.facts[s].snapshotId == Some(s)
      ensures l'.facts[s].compilationHash == c.compilationHash ==>
                Agrees(c, l'.facts[s], SnapshotRows(l.st.world, s), Files(l.st.world, s))
    {
      if s !in l.facts {
        KnownAgrees(c, l.st, l.writes, l.facts, s);
      }
    }
  }

  lemma RecordedStays(c: Compilation, l: Ledger, act: Act, l': Ledger)
    requires FactsRight(c, l.st.world, l.facts) && (act.Validates? || act.Elsewhere?) && Acts(c, l, act, l')
    ensures l'.st == l.st && l'.writes == l.writes && FactsRight(c, l'.st.world, l'.facts)
  {
    forall s | s in l'.facts
      ensures s in l.st.world.history && l'.facts[s].snapshotId == Some(s)
      ensures l'.facts[s].compilationHash == c.compilationHash ==>
                Agrees(c, l'.facts[s], SnapshotRows(l.st.world, s), Files(l.st.world, s))
    {
    }
  }

  lemma ActSound(c: Compilation, l: Ledger, act: Act, l': Ledger)
    requires Sound(c, l.st, l.writes, l.facts) && Acts(c, l, act, l')
    ensures Sound(c, l'.st, l'.writes, l'.facts)
  {
    match act
    case Commits(step, write) => CommitStays(c, l, step, write, l');
    case Asks(_) => AskStays(c, l, act, l');
    case Validates(_) => RecordedStays(c, l, act, l');
    case Elsewhere => RecordedStays(c, l, act, l');
  }

  lemma {:induction false} RunSound(c: Compilation, ls: seq<Ledger>, acts: seq<Act>, k: nat)
    requires Ledgers(c, ls, acts) && k < |ls|
    ensures Sound(c, ls[k].st, ls[k].writes, ls[k].facts)
    decreases k
  {
    if k == 0 {
      SafeParents(ls[0].st.world);
    } else {
      RunSound(c, ls, acts, k - 1);
      ActSound(c, ls[k - 1], acts[k - 1], ls[k]);
    }
  }

  /** In every run of commits, reads, validations and engines with other compilations, in any
      order, the facts answered for any snapshot agree with the whole of it, or are of another
      compilation and were recorded as they are; and asking is refused exactly from a rewrite of a
      snapshot with a deleted row on. */
  lemma RunAgrees(c: Compilation, ls: seq<Ledger>, acts: seq<Act>, k: nat, s: nat)
    requires Ledgers(c, ls, acts) && k < |ls|
    ensures Sound(c, ls[k].st, ls[k].writes, ls[k].facts)
    ensures Answers(c, ls[k].st.world, ls[k].facts, s, OutcomeOf(c, ls[k].st, ls[k].writes, ls[k].facts, s),
                    Known(c, ls[k].st.world, ls[k].writes, ls[k].facts, s))
  {
    RunSound(c, ls, acts, k);
    KnownAgrees(c, ls[k].st, ls[k].writes, ls[k].facts, s);
  }

  // ── where asking fails, and where it is not of the reader's rules ───────────

  /** A contract with no rules and no statistics. */
  const BARE := Compilation("c", "h", "h", [], [], [], Library(x => x, (s, n) => None, s => None, s => s))

  function BareFacts(rows: nat, files: seq<DataFile>, s: Option<nat>): FactsManifest {
    Manifests.Manifest("c", "h", "h", 0, rows, map[], true, [], map[], map[], HashText(Entries(files)), Entries(files),
                       s)
  }

  lemma BareAgrees(rows: seq<Row>, files: seq<DataFile>, s: Option<nat>)
    ensures Agrees(BARE, BareFacts(|rows|, files, s), rows, files)
  {
    assert Failures(BARE.flags, rows) == map[];
  }

  /** One row in a file, and a delete file that deletes it. */
  const HELD := DataFile("f", [map[]], 1, "", map[], "")
  const COPIED := DataFile("g", [], 1, "", map[], "")

  const DELETED := World(
    0, true,
    map[0 := Snapshot(None, [Listed(0, DataContent, None, None, None, None, 0),
                             Listed(1, DeleteContent, None, None, None, None, 0)],
                      Summary(Did.Other, None, None, None))],
    {0}, Some(0),
    map[0 := IcebergTable.Manifest(DataContent, [Entry(Added, DataContent, HELD)], {}),
        1 := IcebergTable.Manifest(DeleteContent, [], {("f", 0)})],
    {"f"}, 1, 2)

  lemma DeletedFiles()
    ensures Files(DELETED, 0) == [HELD] && Dead(DELETED.history[0].list, DELETED.manifests) == {("f", 0)}
  {
    var list := DELETED.history[0].list;
    var m := DELETED.manifests[0];
    assert m.entries[1..] == [] && AliveFiles(m.entries) == [HELD];
    assert list[1..][1..] == [] && DataOnly(list[1..]) == [] && DataOnly(list) == [list[0]];
    assert [list[0]][1..] == [];
    assert Held([list[0]], DELETED.manifests) == [HELD];
    assert ("f", 0) in DELETED.manifests[1].deletes && list[1] in list;
  }

  lemma DeletedRows()
    ensures SnapshotRows(DELETED, 0) == []
  {
    DeletedFiles();
    var dead := {("f", 0)};
    assert |HELD.rows| == 1 && LiveOf(HELD, dead, 1) == [];
    assert (HELD.path, 0) in dead && LiveOf(HELD, dead, 0) == [];
    assert [HELD][1..] == [] && Live([], dead) == [];
    assert Live([HELD], dead) == LiveOf(HELD, dead, 0) + Live([], dead);
  }

  lemma DeletedOk()
    ensures TableOk(DELETED) && Lost(DELETED, 0)
  {
    DeletedFiles();
    var list := DELETED.history[0].list;
    assert Listings(list, DELETED.manifests);
    assert HELD in [HELD] && (HELD.path, 0) in {("f", 0)} && 0 < |HELD.rows|;
    assert From(DELETED.history, 0, 0);
  }

  lemma DeletedFresh()
    ensures Fresh(DELETED, [COPIED]) && Flatten([COPIED]) == [] && PathsOf([COPIED]) == {"g"}
  {
    assert PathsOf([COPIED]) == {"g"};
  }

  lemma DeletedUnreplaced()
    ensures Rewritable(DELETED, 0, 0)
  {
    var list := DELETED.history[0].list;
    assert forall e :: e in list ==> e.path in ListPaths(list);
  }

  const COPY := PeqlRewrite(0, [COPIED])

  function CopyWrite(): Recorded {
    Recorded(WriteFacts(Facts.Rewrite, BareFacts(0, [COPIED], None), ["f"]), 0)
  }

  /** The table after its compaction. */
  function Compacted(): World {
    var kept := KeptOf(DELETED, 0, 0);
    Produce(DELETED, Carrying(0, kept, Sum(Held(kept, DELETED.manifests))), [COPIED], Did.Rewrite)
  }

  lemma CompactedMade()
    ensures Makes(DELETED, COPY, Compacted())
  {
    DeletedFresh();
    DeletedUnreplaced();
    DeletedRows();
  }

  lemma CompactedShape()
    ensures var w := Compacted(); w.live == {0, 1} && 1 in w.history && w.history[1].parent == Some(0)
  {
  }

  /** The run: nothing known, the snapshot validated, the compaction committed. */
  function Begun(): Ledger {
    Ledger(State(DELETED, map[]), map[], map[])
  }

  function Checked(): Ledger {
    Ledger(State(DELETED, map[]), map[], map[0 := BareFacts(0, [HELD], Some(0))])
  }

  function Copied(): Ledger {
    Ledger(State(Compacted(), map[1 := COPY]), map[1 := CopyWrite()], Checked().facts)
  }

  lemma BareFits(w: World)
    ensures AllFit(BARE, w)
  {
  }

  lemma CheckedActs()
    ensures Acts(BARE, Begun(), Validates(0), Checked())
  {
    DeletedFiles();
    DeletedRows();
    BareAgrees([], [HELD], Some(0));
    assert map[][0 := BareFacts(0, [HELD], Some(0))] == Checked().facts;
  }

  lemma CopyFacts()
    ensures FactsOf(BARE, DELETED, COPY, CopyWrite().write)
  {
    DeletedFiles();
    DeletedFresh();
    BareAgrees([], [COPIED], None);
  }

  lemma CopyNext()
    ensures Next(Checked().st, COPY, Copied().st)
  {
    CompactedMade();
    assert map[][1 := COPY] == Copied().st.made;
  }

  lemma CopyActs()
    ensures Acts(BARE, Checked(), Commits(COPY, Some(CopyWrite())), Copied())
  {
    CopyFacts();
    CopyNext();
    BareFits(Compacted());
    assert map[][1 := CopyWrite()] == Copied().writes;
  }

  /** A compaction of a snapshot with a delete file: the table's rows are right, and the facts of the
      snapshot it makes are refused, under a contract with no rules at all. */
  lemma CompactedDeletesRefused() returns (ls: seq<Ledger>, acts: seq<Act>)
    ensures ls == [Begun(), Checked(), Copied()] && acts == [Validates(0), Commits(COPY, Some(CopyWrite()))]
    ensures Ledgers(BARE, ls, acts) && ParentsBefore(Compacted())
    ensures Known(BARE, Compacted(), Copied().writes, Copied().facts, 1).Err?
  {
    DeletedOk();
    BareFits(DELETED);
    CheckedActs();
    CopyActs();
    ls, acts := TwoActs(Begun(), Validates(0), Checked(), Commits(COPY, Some(CopyWrite())), Copied());
    CopyAsked(ls, acts);
  }

  lemma TwoActs(l0: Ledger, a: Act, l1: Ledger, b: Act, l2: Ledger) returns (ls: seq<Ledger>, acts: seq<Act>)
    requires TableOk(l0.st.world) && AllFit(BARE, l0.st.world)
    requires l0.st.made == map[] && l0.writes == map[] && l0.facts == map[]
    requires Acts(BARE, l0, a, l1) && Acts(BARE, l1, b, l2)
    ensures Ledgers(BARE, ls, acts) && ls == [l0, l1, l2] && acts == [a, b]
  {
    ls, acts := Chain((l, act, l') => Acts(BARE, l, act, l'), l0, a, l1, b, l2);
  }

  lemma CopyAsked(ls: seq<Ledger>, acts: seq<Act>)
    requires Ledgers(BARE, ls, acts) && ls == [Begun(), Checked(), Copied()]
    ensures ParentsBefore(Compacted()) && Known(BARE, Compacted(), Copied().writes, Copied().facts, 1).Err?
  {
    DeletedOk();
    RunSound(BARE, ls, acts, 1);
    CopyNext();
    StepSafe(Checked().st, COPY, Copied().st);
    StillLost(Checked(), Copied());
    RunAgrees(BARE, ls, acts, 2, 1);
    CompactedShape();
    CopyRefused(Copied());
  }

  lemma CopyRefused(l: Ledger)
    requires ParentsBefore(l.st.world) && 0 in l.st.world.history && Lost(l.st.world, 0)
    requires l.st.world.live == {0, 1} && 1 in l.st.world.history && l.st.world.history[1].parent == Some(0)
    requires l.st.made == map[1 := COPY] && l.writes == map[1 := CopyWrite()]
    requires l.facts == map[0 := BareFacts(0, [HELD], Some(0))]
    ensures OutcomeOf(BARE, l.st, l.writes, l.facts, 1) == Refused
  {
    assert OutcomeOf(BARE, l.st, l.writes, l.facts, 0) == Right;
  }

  lemma StillLost(l: Ledger, l': Ledger)
    requires TableOk(l.st.world) && Others(l.st.world, l'.st.world, {}) && 0 in l.st.world.history
             && Lost(l.st.world, 0)
    ensures 0 in l'.st.world.history && Lost(l'.st.world, 0)
  {
    ListStable(l.st.world.history[0].list, l.st.world.manifests, l'.st.world.manifests);
  }

  /** Facts another compilation recorded with a snapshot are the answer for it, whatever they say of
      its rows. */
  lemma OthersFactsReturned(c: Compilation, l: Ledger, s: nat, m: FactsManifest) returns (l': Ledger)
    requires ParentsBefore(l.st.world) && s in l.st.world.live && s in l.st.world.history
    requires m.snapshotId == Some(s) && m.compilationHash != c.compilationHash
    ensures Acts(c, l, Elsewhere, l') && l'.st == l.st
    ensures Known(c, l'.st.world, l'.writes, l'.facts, s) == Ok(Some(m))
  {
    l' := Ledger(l.st, l.writes, l.facts[s := m]);
  }
}
