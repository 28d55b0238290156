/**
 One local directory of files that several contracts are bound to, and the manifest each keeps of
 it. The reference is validating every row of the directory.
 */
module Directory {
  import opened Wrappers
  import opened Rows
  import opened Manifests
  import opened Facts
  import opened FactsAgree
  import opened Violation

  datatype Mode = Appending | Overwriting

  datatype EngineError = UnknownContract | Violated(rules: seq<(string, int)>)

  /** The file a contract's manifest is kept in. */
  function FileName(name: string): string {
    if name == "" then ""
    else (if name[0] == '/' then "__" else [name[0]]) + FileName(name[1..])
  }

  ghost predicate NamesDiffer(cs: seq<Compilation>) {
    forall i, j :: 0 <= i < j < |cs| ==> cs[i].name != cs[j].name
  }

  ghost predicate FilesDiffer(cs: seq<Compilation>) {
    forall i, j :: 0 <= i < j < |cs| ==> FileName(cs[i].name) != FileName(cs[j].name)
  }

  /** `at` is the places of the contracts a write reaches: the writer's first, then every other. */
  ghost predicate Reaches(at: seq<nat>, n: nat, writer: nat) {
    && at != [] && at[0] == writer && (forall i :: 0 <= i < |at| ==> at[i] < n)
    && (forall j :: 0 <= j < n ==> j in at)
    && (forall i, j :: 0 <= i < j < |at| ==> at[i] != at[j])
  }

  /** `m` is of a compilation that was registered, and agrees under it with the whole of the files. */
  ghost predicate Right(m: Manifest, compiled: map<string, Compilation>, files: seq<DataFile>) {
    m.compilationHash in compiled && Agrees(compiled[m.compilationHash], m, Flatten(files), files)
  }

  /** `good` is the manifests that are right of the files. */
  ghost predicate Holds(good: iset<Manifest>, compiled: map<string, Compilation>, files: seq<DataFile>) {
    forall m: Manifest {:trigger Right(m, compiled, files)} :: Right(m, compiled, files) <==> m in good
  }

  ghost predicate Current(manifests: map<string, Manifest>, compiled: map<string, Compilation>, files: seq<DataFile>) {
    forall k :: k in manifests ==> Right(manifests[k], compiled, files)
  }

  ghost predicate Registered(cs: seq<Compilation>, compiled: map<string, Compilation>) {
    && NamesDiffer(cs)
    && (forall i :: 0 <= i < |cs| ==> cs[i].compilationHash in compiled && compiled[cs[i].compilationHash] == cs[i])
    && (forall h :: h in compiled ==> CompilationOk(compiled[h]) && compiled[h].compilationHash == h)
  }

  /** No manifest is left of a contract that is not registered. */
  ghost predicate Owned(manifests: map<string, Manifest>, cs: seq<Compilation>) {
    forall k :: k in manifests ==> exists i :: 0 <= i < |cs| && FileName(cs[i].name) == k
  }

  /** What a contract knew before a write. */
  function KnewOf(mode: Mode, c: Compilation, manifests: map<string, Manifest>,
                  files: seq<DataFile>): Option<Option<Manifest>>
  {
    var k := FileName(c.name);
    if mode == Overwriting then Some(None)
    else if k in manifests then Some(Some(manifests[k]))
    else if files == [] then Some(None)
    else None
  }

  class Engine {
    var files: seq<DataFile>
    /** What the directory holds of each contract, by the file it is kept in. */
    var manifests: map<string, Manifest>
    /** The contracts bound to the directory, each as last registered. */
    var contracts: seq<Compilation>
    /** Every compilation ever registered, by its hash. */
    ghost var compiled: map<string, Compilation>

    ghost predicate Valid()
      reads this
    {
      && DistinctPaths(files) && Registered(contracts, compiled)
      && Owned(manifests, contracts) && Current(manifests, compiled, files)
    }

    /** An engine over a directory with no manifests in it. */
    constructor (files: seq<DataFile>)
      requires DistinctPaths(files)
      ensures Valid() && this.files == files && contracts == [] && manifests == map[] && compiled == map[]
    {
      this.files, manifests, contracts, compiled := files, map[], [], map[];
    }

    method Find(name: string) returns (i: int)
      ensures i == -1 <==> forall j :: 0 <= j < |contracts| ==> contracts[j].name != name
      ensures i != -1 ==> 0 <= i < |contracts| && contracts[i].name == name
    {
      i := 0;
      while i < |contracts|
        invariant 0 <= i <= |contracts| && forall j :: 0 <= j < i ==> contracts[j].name != name
      {
        if contracts[i].name == name {
          return;
        }
        i := i + 1;
      }
      i := -1;
    }

    /** Registers a contract, or another version of one; a hash names one compilation. */
    method Register(c: Compilation)
      requires Valid() && CompilationOk(c)
      requires c.compilationHash in compiled ==> compiled[c.compilationHash] == c
      modifies this`contracts, this`compiled
      ensures Valid() && compiled == old(compiled)[c.compilationHash := c]
      ensures if forall j :: 0 <= j < |old(contracts)| ==> old(contracts)[j].name != c.name
              then contracts == old(contracts) + [c]
              else exists i :: 0 <= i < |old(contracts)| && old(contracts)[i].name == c.name
                               && contracts == old(contracts)[i := c]
    {
      var i := Find(c.name);
      ghost var was := contracts;
      VersionRegistered(contracts, compiled, c, i);
      VersionOwned(manifests, contracts, c, i);
      StaysCurrent(manifests, compiled, files, c);
      contracts := Version(contracts, c, i);
      compiled := compiled[c.compilationHash := c];
      assert contracts == Version(was, c, i);
    }

    /** The contracts a write reaches. */
    method Bound(writer: nat) returns (at: seq<nat>)
      requires writer < |contracts| && NamesDiffer(contracts)
      ensures Reaches(at, |contracts|, writer)
    {
      at := [writer];
      for i := 0 to |contracts|
        invariant at != [] && at[0] == writer && forall j :: 0 <= j < |at| ==> at[j] < |contracts|
        invariant forall j :: 0 <= j < i ==> j in at
        invariant forall j :: 0 < j < |at| ==> at[j] < i
        invariant forall j, k :: 0 <= j < k < |at| ==> at[j] != at[k]
      {
        if contracts[i].name != contracts[writer].name {
          at := at + [i];
        }
        assert i == writer ==> at[0] == i;
        assert i != writer ==> at[|at| - 1] == i;
      }
    }

    /** What each contract knew: nothing of data with no rows, its manifest's facts, or, of files
        written elsewhere, not even that. */
    method Knew(mode: Mode, at: seq<nat>) returns (before: seq<Option<Option<Manifest>>>)
      requires forall i :: 0 <= i < |at| ==> at[i] < |contracts|
      ensures |before| == |at|
      ensures forall i :: 0 <= i < |at| ==> before[i] == KnewOf(mode, contracts[at[i]], manifests, files)
    {
      before := [];
      for i := 0 to |at|
        invariant |before| == i && forall j :: 0 <= j < i ==>
                    before[j] == KnewOf(mode, contracts[at[j]], manifests, files)
      {
        var k := FileName(contracts[at[i]].name);
        if mode == Overwriting {
          before := before + [Some(None)];
        } else if k in manifests {
          before := before + [Some(Some(manifests[k]))];
        } else if files == [] {
          before := before + [Some(None)];
        } else {
          before := before + [None];
        }
      }
    }

    /** The files become the directory's, and every bound contract's manifest is brought up to date or
        removed. */
    method Publish(mode: Mode, writer: nat, news: seq<DataFile>, validated: map<string, Manifest>, writtenAt: int)
      requires Valid() && writer < |contracts|
      requires DistinctPaths(if mode == Overwriting then news else files + news)
      requires Facted(contracts, news, validated) && FitsAll(contracts, |Flatten(files)| + |Flatten(news)|)
      modifies this`files, this`manifests
      ensures Valid() && Wrote(mode, contracts, news, old(manifests), old(files), manifests, files)
    {
      var at := Bound(writer);
      var afters, good := Combine(mode, at, news, validated, writtenAt);
      ghost var (was, rows) := (manifests, files);
      if mode == Overwriting {
        files := [];
      }
      files := files + news;
      assert files == if mode == Overwriting then news else rows + news;
      Save(at, afters, good);
      Published(mode, contracts, at, news, afters, was, rows, manifests, good, compiled, files);
    }

    /** For each contract reached, its facts after the write, or that it has none. */
    method Combine(mode: Mode, at: seq<nat>, news: seq<DataFile>, validated: map<string, Manifest>, writtenAt: int)
      returns (afters: seq<Option<Manifest>>, ghost good: iset<Manifest>)
      requires Valid() && forall i :: 0 <= i < |at| ==> at[i] < |contracts|
      requires DistinctPaths(if mode == Overwriting then news else files + news)
      requires Facted(contracts, news, validated) && FitsAll(contracts, |Flatten(files)| + |Flatten(news)|)
      ensures Holds(good, compiled, if mode == Overwriting then news else files + news)
      ensures AllAfter(mode, contracts, at, manifests, files, afters, good)
    {
      ghost var all := if mode == Overwriting then news else files + news;
      good := iset m: Manifest | Right(m, compiled, all);
      var before := Knew(mode, at);
      AllReady(mode, contracts, at, before, validated, manifests, files, news, compiled, all);
      afters := Afters(mode, contracts, at, before, news, validated, writtenAt, files, compiled, all, good);
    }

    /** The writer's place, or why its write is refused. */
    method Admit(name: string, policy: OnWrite, news: seq<DataFile>, validated: map<string, Manifest>)
      returns (r: Result<nat, EngineError>)
      requires NamesDiffer(contracts) && Facted(contracts, news, validated)
      ensures r.Ok? ==> r.value < |contracts| && contracts[r.value].name == name
      ensures r == Err(UnknownContract) <==> !HasContract(contracts, name)
      ensures r.Err? && r.error.Violated? <==> policy == Refuse && WriterBreaks(contracts, name, Flatten(news))
      ensures r.Err? && r.error.Violated? ==> RulesNamed(contracts, name, Flatten(news), r.error.rules)
    {
      var writer := Find(name);
      if writer == -1 {
        return Err(UnknownContract);
      }
      var c := contracts[writer];
      BrokenRules(c.flags, validated[c.name].failures, Flatten(news));
      WriterIs(contracts, name, writer, Flatten(news));
      RulesAre(contracts, name, writer, validated[c.name].failures, Flatten(news));
      var broken := Broken(c.flags, validated[c.name].failures);
      if policy == Refuse && broken != [] {
        return Err(Violated(broken));
      }
      r := Ok(writer);
    }

    /** Finishes a write: every bound contract validates the rows written; under `Refuse`, rows that
        break one of the writer's rules publish nothing; otherwise the files are published. */
    method FinishWrite(name: string, mode: Mode, policy: OnWrite, news: seq<DataFile>, validated: map<string, Manifest>,
                       writtenAt: int)
      returns (r: Result<(), EngineError>)
      requires Valid() && DistinctPaths(if mode == Overwriting then news else files + news)
      requires Facted(contracts, news, validated) && FitsAll(contracts, |Flatten(files)| + |Flatten(news)|)
      modifies this`files, this`manifests
      ensures Valid()
      ensures r == Err(UnknownContract) <==> !HasContract(contracts, name)
      ensures r.Err? && r.error.Violated? <==>
              policy == Refuse && WriterBreaks(contracts, name, Flatten(news))
      ensures r.Err? && r.error.Violated? ==> RulesNamed(contracts, name, Flatten(news), r.error.rules)
      ensures r.Err? ==> files == old(files) && manifests == old(manifests)
      ensures r.Ok? ==> Wrote(mode, contracts, news, old(manifests), old(files), manifests, files)
    {
      var writer := Admit(name, policy, news, validated);
      if writer.Err? {
        return Err(writer.error);
      }
      Publish(mode, writer.value, news, validated, writtenAt);
      r := Ok(());
    }

    /** Validates the whole directory under one contract and records what it finds. */
    method Validate(name: string, found: Manifest) returns (r: Result<(), EngineError>)
      requires Valid()
      requires Found(contracts, name, found, files)
      modifies this`manifests
      ensures Valid() && (r.Err? <==> forall i :: 0 <= i < |contracts| ==> contracts[i].name != name)
      ensures manifests == if r.Ok? then old(manifests)[FileName(name) := found] else old(manifests)
    {
      var i := Find(name);
      if i == -1 {
        return Err(UnknownContract);
      }
      RefreshCurrent(contracts, manifests, compiled, files, i, found);
      manifests := manifests[FileName(name) := found];
      r := Ok(());
    }

    /** Records each contract's facts after a write, or removes what is no longer known, one
        contract at a time, the writer's first. */
    method Save(at: seq<nat>, afters: seq<Option<Manifest>>, ghost good: iset<Manifest>)
      requires |afters| == |at| && forall i :: 0 <= i < |at| ==> at[i] < |contracts|
      requires forall i, j :: 0 <= i < j < |at| ==> at[i] != at[j]
      requires forall i :: 0 <= i < |at| && afters[i].Some? ==> afters[i].value in good
      modifies this`manifests
      ensures Saved(old(manifests), manifests, contracts, at, good)
      ensures Exactly(manifests, contracts, at, afters)
    {
      ghost var was := manifests;
      for i := 0 to |at|
        invariant Saved(was, manifests, contracts, at[..i], good)
        invariant Exactly(manifests, contracts, at[..i], afters[..i])
      {
        var k := FileName(contracts[at[i]].name);
        assert at[..i + 1] == at[..i] + [at[i]] && afters[..i + 1] == afters[..i] + [afters[i]];
        SavedMore(was, manifests, contracts, at[..i], at[i], good, afters[i]);
        ExactlyMore(manifests, contracts, at[..i], afters[..i], at[i], afters[i]);
        manifests := if afters[i].Some? then manifests[k := afters[i].value] else manifests - {k};
      }
      assert at[..|at|] == at && afters[..|at|] == afters;
    }
  }

  /** A row of the write fails an assert of an id whose rows are dropped or denied. */
  ghost predicate BreaksRules(flags: seq<Flag>, rows: seq<Row>) {
    exists i, k, row :: 0 <= i < |flags| && flags[i].onFail in {Drop, Deny} && row in rows
                        && 0 <= k < |flags| && flags[k].assertId == flags[i].assertId && !flags[k].passes(row)
  }

  ghost predicate HasContract(cs: seq<Compilation>, name: string) {
    exists i :: 0 <= i < |cs| && cs[i].name == name
  }

  /** A row of the write fails a rule it can break of the contract of that name. */
  ghost predicate WriterBreaks(cs: seq<Compilation>, name: string, rows: seq<Row>) {
    exists i :: 0 <= i < |cs| && cs[i].name == name && BreaksRules(cs[i].flags, rows)
  }

  lemma WriterIs(cs: seq<Compilation>, name: string, writer: nat, rows: seq<Row>)
    requires NamesDiffer(cs) && writer < |cs| && cs[writer].name == name
    ensures WriterBreaks(cs, name, rows) <==> BreaksRules(cs[writer].flags, rows)
  {
  }

  /** The rules named are the asserts of the contract of that name that drop or deny and that some row
      fails, each with how many do. */
  ghost predicate RulesNamed(cs: seq<Compilation>, name: string, rows: seq<Row>, rules: seq<(string, int)>) {
    exists j :: 0 <= j < |cs| && cs[j].name == name && CountedRules(cs[j].flags, rows, rules)
  }

  ghost predicate CountedRules(flags: seq<Flag>, rows: seq<Row>, rules: seq<(string, int)>) {
    forall p :: p in rules <==>
      exists i :: 0 <= i < |flags| && flags[i].onFail in {Drop, Deny}
                  && p == (flags[i].assertId, CountFails(flags, flags[i].assertId, rows)) && p.1 > 0
  }

  lemma RulesAre(cs: seq<Compilation>, name: string, writer: nat, failures: map<string, int>, rows: seq<Row>)
    requires writer < |cs| && cs[writer].name == name && failures == Failures(cs[writer].flags, rows)
    ensures RulesNamed(cs, name, rows, Broken(cs[writer].flags, failures))
  {
    BrokenWhen(cs[writer].flags, cs[writer].flags, failures, rows);
  }

  lemma BrokenFound(flags: seq<Flag>, failures: map<string, int>, rows: seq<Row>)
    requires failures == Failures(flags, rows) && BreaksRules(flags, rows)
    ensures Broken(flags, failures) != []
  {
    BrokenWhen(flags, flags, failures, rows);
    var i, k, row :| 0 <= i < |flags| && flags[i].onFail in {Drop, Deny} && row in rows
                     && 0 <= k < |flags| && flags[k].assertId == flags[i].assertId && !flags[k].passes(row);
    assert Fails(flags, flags[i].assertId, row);
    NoFails(flags, flags[i].assertId, rows);
    assert (flags[i].assertId, CountFails(flags, flags[i].assertId, rows)) in Broken(flags, failures);
  }

  lemma BrokenRules(flags: seq<Flag>, failures: map<string, int>, rows: seq<Row>)
    requires failures == Failures(flags, rows)
    ensures Broken(flags, failures) != [] <==> BreaksRules(flags, rows)
  {
    if Broken(flags, failures) != [] {
      BrokenWhen(flags, flags, failures, rows);
      var p := Broken(flags, failures)[0];
      assert p in Broken(flags, failures);
      var i :| 0 <= i < |flags| && flags[i].onFail in {Drop, Deny}
        && p == (flags[i].assertId, CountFails(flags, flags[i].assertId, rows)) && p.1 > 0;
      NoFails(flags, flags[i].assertId, rows);
      var row :| row in rows && Fails(flags, flags[i].assertId, row);
      var k :| 0 <= k < |flags| && flags[k].assertId == flags[i].assertId && !flags[k].passes(row);
    } else if BreaksRules(flags, rows) {
      BrokenFound(flags, failures, rows);
    }
  }

  /** What validating the whole directory under the contract of a name finds. */
  ghost predicate Found(cs: seq<Compilation>, name: string, found: Manifest, files: seq<DataFile>) {
    forall i :: 0 <= i < |cs| && cs[i].name == name ==> Agrees(cs[i], found, Flatten(files), files)
  }

  lemma RefreshCurrent(cs: seq<Compilation>, manifests: map<string, Manifest>, compiled: map<string, Compilation>,
                       files: seq<DataFile>, i: nat, m: Manifest)
    requires Registered(cs, compiled) && Current(manifests, compiled, files) && Owned(manifests, cs)
    requires i < |cs| && Found(cs, cs[i].name, m, files)
    ensures Current(manifests[FileName(cs[i].name) := m], compiled, files)
    ensures Owned(manifests[FileName(cs[i].name) := m], cs)
  {
    assert Agrees(cs[i], m, Flatten(files), files);
    assert Right(m, compiled, files);
    OwnedMore(manifests, cs, i, m);
  }

  lemma OwnedMore(manifests: map<string, Manifest>, cs: seq<Compilation>, i: nat, m: Manifest)
    requires Owned(manifests, cs) && i < |cs|
    ensures Owned(manifests[FileName(cs[i].name) := m], cs)
  {
  }

  /** The facts a read of a contract is given: what its file holds, whatever it is of. */
  function Served(manifests: map<string, Manifest>, name: string): Option<Manifest> {
    if FileName(name) in manifests then Some(manifests[FileName(name)]) else None
  }

  /** Of two contracts that share a file, at most one is ever given its own facts. */
  lemma SharedServes(cs: seq<Compilation>, compiled: map<string, Compilation>, now: map<string, Manifest>,
                     i: nat, j: nat)
    requires Registered(cs, compiled) && i < j < |cs| && FileName(cs[i].name) == FileName(cs[j].name)
    requires FileName(cs[i].name) in now
    ensures Served(now, cs[i].name) == Served(now, cs[j].name) && Served(now, cs[i].name).Some?
    ensures var h := Served(now, cs[i].name).value.compilationHash;
            h != cs[i].compilationHash || h != cs[j].compilationHash
  {
    HashesDiffer(cs, compiled, i, j);
  }

  /** A contract whose one rule every row fails, and one of another name without rules. */
  const RULED := Compilation("a/b", "h1", "h1", [Flag("r", "r_ok", Deny, row => false)], [], [],
                             Library(x => x, (s, n) => None, s => None, s => s))
  const UNRULED := Compilation("a__b", "h2", "h2", [], [], [], Library(x => x, (s, n) => None, s => None, s => s))

  function OneRow(): seq<DataFile> {
    [DataFile("f", [map[]], 1, "", map[], "")]
  }

  function FoundRuled(): Manifest {
    Manifest("a/b", "h1", "h1", 0, 1, map["r" := 1], false, ["r"], map[], map[], HashText(Entries(OneRow())),
             Entries(OneRow()), None)
  }

  function FoundUnruled(): Manifest {
    Manifest("a__b", "h2", "h2", 0, 1, map[], true, [], map[], map[], HashText(Entries(OneRow())), Entries(OneRow()),
             None)
  }

  lemma FoundAgree()
    ensures Agrees(RULED, FoundRuled(), Flatten(OneRow()), OneRow())
    ensures Agrees(UNRULED, FoundUnruled(), Flatten(OneRow()), OneRow())
  {
    var rows: seq<Row> := [map[]];
    assert OneRow()[1..] == [] && Flatten(OneRow()) == rows && rows[1..] == [];
    assert Asserts(RULED.flags) == {"r"} by {
      assert RULED.flags[0].assertId == "r";
    }
    assert Fails(RULED.flags, "r", map[]) by {
      assert !RULED.flags[0].passes(map[]);
    }
    assert CountFails(RULED.flags, "r", rows) == 1;
    assert Failures(RULED.flags, rows) == map["r" := 1];
    assert RULED.flags[1..] == [] && FailedAsserts(RULED.flags, map["r" := 1]) == ["r"];
    assert Failures(UNRULED.flags, rows) == map[];
  }

  method TwoContracts() returns (e: Engine)
    ensures fresh(e) && e.Valid() && e.contracts == [RULED, UNRULED] && e.files == OneRow()
  {
    e := new Engine(OneRow());
    e.Register(RULED);
    e.Register(UNRULED);
  }

  lemma SharedFound(name: string)
    ensures name == "a/b" ==> Found([RULED, UNRULED], name, FoundRuled(), OneRow())
    ensures name == "a__b" ==> Found([RULED, UNRULED], name, FoundUnruled(), OneRow())
    ensures FileName("a/b") == FileName("a__b")
  {
    FileNamesCollide("a", "b");
    assert "a" + "/" + "b" == "a/b" && "a" + "__" + "b" == "a__b";
    FoundAgree();
  }

  /** Validating a directory under one contract and then under another whose name shares its file
      loses what the first was found to be: a read of it is given the other's facts, which say the
      data is valid where its own rule fails every row. */
  method SharedManifest() returns (e: Engine, own: Option<Manifest>, served: Option<Manifest>)
    ensures fresh(e) && e.Valid() && e.contracts == [RULED, UNRULED]
    ensures own == Some(FoundRuled()) && !own.value.valid
    ensures served == Served(e.manifests, "a/b") == Some(FoundUnruled()) && served.value.valid
  {
    e := TwoContracts();
    SharedFound("a/b");
    var first := e.Validate("a/b", FoundRuled());
    assert first.Ok? by {
      assert e.contracts[0].name == "a/b";
    }
    own := Served(e.manifests, "a/b");
    SharedFound("a__b");
    var second := e.Validate("a__b", FoundUnruled());
    assert second.Ok? by {
      assert e.contracts[1].name == "a__b";
    }
    served := Served(e.manifests, "a/b");
  }

  /** A slash in a name and two underscores are kept alike. */
  lemma FileNamesCollide(a: string, b: string)
    ensures FileName(a + "/" + b) == FileName(a + "__" + b)
  {
    FileNameConcat(a + "/", b);
    FileNameConcat(a, "/");
    FileNameConcat(a + "__", b);
    FileNameConcat(a, "__");
    assert FileName("/") == "__" && FileName("_") == "_" && "__"[1..] == "_";
  }

  /** A file name has no slash: each is two underscores, and any other character is kept. */
  lemma {:induction false} FileNameIs(name: string)
    ensures '/' !in FileName(name)
    ensures '/' !in name ==> FileName(name) == name
    ensures FileName("/" + name) == "__" + FileName(name)
  {
    assert ("/" + name)[1..] == name;
    if name != "" {
      FileNameIs(name[1..]);
      assert name == [name[0]] + name[1..];
    }
  }

  lemma {:induction false} FileNameConcat(a: string, b: string)
    ensures FileName(a + b) == FileName(a) + FileName(b)
  {
    if a == "" {
      assert a + b == b;
    } else {
      assert (a + b)[1..] == a[1..] + b;
      FileNameConcat(a[1..], b);
    }
  }

  /** What was known of the files was known under `c` itself. */
  predicate Remembers(c: Compilation, before: Option<Option<Manifest>>) {
    before.Some? && (before.value.Some? ==> before.value.value.compilationHash == c.compilationHash)
  }

  // ── registering ─────────────────────────────────────────────────────────────

  function Version(cs: seq<Compilation>, c: Compilation, i: int): seq<Compilation>
    requires -1 <= i < |cs|
  {
    if i == -1 then cs + [c] else cs[i := c]
  }

  lemma VersionRegistered(cs: seq<Compilation>, compiled: map<string, Compilation>, c: Compilation, i: int)
    requires -1 <= i < |cs| && Registered(cs, compiled) && CompilationOk(c)
    requires c.compilationHash in compiled ==> compiled[c.compilationHash] == c
    requires if i == -1 then forall j :: 0 <= j < |cs| ==> cs[j].name != c.name else cs[i].name == c.name
    ensures Registered(Version(cs, c, i), compiled[c.compilationHash := c])
  {
  }

  lemma VersionOwned(manifests: map<string, Manifest>, cs: seq<Compilation>, c: Compilation, i: int)
    requires -1 <= i < |cs| && Owned(manifests, cs) && (i != -1 ==> cs[i].name == c.name)
    ensures Owned(manifests, Version(cs, c, i))
  {
    forall k | k in manifests
      ensures exists j :: 0 <= j < |Version(cs, c, i)| && FileName(Version(cs, c, i)[j].name) == k
    {
      var j :| 0 <= j < |cs| && FileName(cs[j].name) == k;
      assert FileName(Version(cs, c, i)[j].name) == k;
    }
  }

  lemma StaysCurrent(manifests: map<string, Manifest>, compiled: map<string, Compilation>, files: seq<DataFile>,
                     c: Compilation)
    requires Current(manifests, compiled, files)
    requires c.compilationHash in compiled ==> compiled[c.compilationHash] == c
    ensures Current(manifests, compiled[c.compilationHash := c], files)
  {
    forall k | k in manifests
      ensures Right(manifests[k], compiled[c.compilationHash := c], files)
    {
      var h := manifests[k].compilationHash;
      assert compiled[c.compilationHash := c][h] == compiled[h];
    }
  }

  // ── saving manifests ────────────────────────────────────────────────────────

  /** The validation of a write's rows under each contract, by name. */
  ghost predicate Facted(cs: seq<Compilation>, news: seq<DataFile>, validated: map<string, Manifest>) {
    forall i :: 0 <= i < |cs| ==> cs[i].name in validated && Agrees(cs[i], validated[cs[i].name], Flatten(news), news)
  }

  ghost predicate FitsAll(cs: seq<Compilation>, rows: nat) {
    forall i :: 0 <= i < |cs| ==> Fits(cs[i], rows)
  }

  ghost predicate Reached(k: string, cs: seq<Compilation>, at: seq<nat>)
    requires forall i :: 0 <= i < |at| ==> at[i] < |cs|
  {
    exists i :: 0 <= i < |at| && FileName(cs[at[i]].name) == k
  }

  /** The manifests of the contracts at `at` are good, and the others are as they were. */
  ghost predicate Saved(was: map<string, Manifest>, now: map<string, Manifest>, cs: seq<Compilation>, at: seq<nat>,
                        good: iset<Manifest>)
    requires forall i :: 0 <= i < |at| ==> at[i] < |cs|
  {
    forall k :: k in now ==> if Reached(k, cs, at) then now[k] in good else k in was && now[k] == was[k]
  }

  /** No other contract's manifest is kept in the file of `cs[i]`. */
  ghost predicate Alone(cs: seq<Compilation>, i: nat)
    requires i < |cs|
  {
    forall j :: 0 <= j < |cs| && j != i ==> FileName(cs[j].name) != FileName(cs[i].name)
  }

  /** None of the contracts at `at` whose file is `k` knows anything after the write. */
  ghost predicate Quiet(k: string, cs: seq<Compilation>, at: seq<nat>, afters: seq<Option<Manifest>>)
    requires |afters| == |at| && forall i :: 0 <= i < |at| ==> at[i] < |cs|
  {
    forall i :: 0 <= i < |at| && FileName(cs[at[i]].name) == k ==> afters[i].None?
  }

  ghost predicate Holding(k: string, now: map<string, Manifest>, after: Option<Manifest>) {
    after == if k in now then Some(now[k]) else None
  }

  /** The contracts at `at` have just the manifests in `afters`, but for those that share a file. */
  ghost predicate Exactly(now: map<string, Manifest>, cs: seq<Compilation>, at: seq<nat>, afters: seq<Option<Manifest>>)
    requires |afters| == |at| && forall i :: 0 <= i < |at| ==> at[i] < |cs|
  {
    forall i :: 0 <= i < |at| && (Alone(cs, at[i]) || Quiet(FileName(cs[at[i]].name), cs, at, afters)) ==>
      Holding(FileName(cs[at[i]].name), now, afters[i])
  }

  lemma SavedMore(was: map<string, Manifest>, now: map<string, Manifest>, cs: seq<Compilation>, at: seq<nat>, next: nat,
                  good: iset<Manifest>, after: Option<Manifest>)
    requires next < |cs| && (forall i :: 0 <= i < |at| ==> at[i] < |cs|) && Saved(was, now, cs, at, good)
    requires after.Some? ==> after.value in good
    ensures var k := FileName(cs[next].name);
            Saved(was, if after.Some? then now[k := after.value] else now - {k}, cs, at + [next], good)
  {
    var more := at + [next];
    forall k
      ensures Reached(k, cs, more) <==> Reached(k, cs, at) || k == FileName(cs[next].name)
    {
      if Reached(k, cs, at) {
        var i :| 0 <= i < |at| && FileName(cs[at[i]].name) == k;
        assert more[i] == at[i];
      }
      assert more[|at|] == next;
    }
  }

  lemma ExactlyMore(now: map<string, Manifest>, cs: seq<Compilation>, at: seq<nat>, afters: seq<Option<Manifest>>,
                    next: nat, after: Option<Manifest>)
    requires |afters| == |at| && next < |cs| && forall i :: 0 <= i < |at| ==> at[i] < |cs| && at[i] != next
    requires Exactly(now, cs, at, afters)
    ensures var k := FileName(cs[next].name);
            Exactly(if after.Some? then now[k := after.value] else now - {k}, cs, at + [next], afters + [after])
  {
    var k := FileName(cs[next].name);
    var now' := if after.Some? then now[k := after.value] else now - {k};
    var (at', afters') := (at + [next], afters + [after]);
    forall i | 0 <= i < |at'| && (Alone(cs, at'[i]) || Quiet(FileName(cs[at'[i]].name), cs, at', afters'))
      ensures Holding(FileName(cs[at'[i]].name), now', afters'[i])
    {
      if i < |at| {
        var l := FileName(cs[at[i]].name);
        if l == k {
          assert !Alone(cs, at[i]);
          assert FileName(cs[at'[|at|]].name) == k && afters'[|at|] == after;
        } else {
          assert Quiet(l, cs, at', afters') ==> Quiet(l, cs, at, afters) by {
            QuietLess(l, cs, at, afters, next, after);
          }
        }
      }
    }
  }

  lemma QuietLess(k: string, cs: seq<Compilation>, at: seq<nat>, afters: seq<Option<Manifest>>, next: nat,
                  after: Option<Manifest>)
    requires |afters| == |at| && next < |cs| && forall i :: 0 <= i < |at| ==> at[i] < |cs|
    ensures Quiet(k, cs, at + [next], afters + [after]) ==> Quiet(k, cs, at, afters)
  {
    forall i | 0 <= i < |at|
      ensures (at + [next])[i] == at[i] && (afters + [after])[i] == afters[i]
    {
    }
  }

  /** A write reaches every contract, so no manifest of the files before it is left. */
  lemma AllSaved(was: map<string, Manifest>, now: map<string, Manifest>, cs: seq<Compilation>, at: seq<nat>,
                 good: iset<Manifest>)
    requires at != [] && Reaches(at, |cs|, at[0]) && Owned(was, cs) && Saved(was, now, cs, at, good)
    ensures Owned(now, cs) && forall k :: k in now ==> now[k] in good
  {
    forall k | k in was
      ensures Reached(k, cs, at)
    {
      var j :| 0 <= j < |cs| && FileName(cs[j].name) == k;
      assert j in at;
      var i :| 0 <= i < |at| && at[i] == j;
      assert FileName(cs[at[i]].name) == k;
    }
    forall k | k in now
      ensures exists j :: 0 <= j < |cs| && FileName(cs[j].name) == k
    {
      var i :| 0 <= i < |at| && FileName(cs[at[i]].name) == k;
      assert FileName(cs[at[i]].name) == k;
    }
  }

  /** A contract's data stays known after a write: it is replaced whole, or the contract has facts of
      it under its own compilation, or it has none and there is no data. */
  ghost predicate StaysKnown(mode: Mode, c: Compilation, was: map<string, Manifest>, rows: seq<DataFile>) {
    match mode
    case Overwriting => true
    case Appending =>
      if FileName(c.name) in was then was[FileName(c.name)].compilationHash == c.compilationHash else rows == []
  }

  /** What was remembered, case by case. */
  lemma RemembersWhen(mode: Mode, c: Compilation, was: map<string, Manifest>, rows: seq<DataFile>)
    ensures Remembers(c, KnewOf(mode, c, was, rows)) <==> StaysKnown(mode, c, was, rows)
  {
  }

  /** After a write a contract has facts exactly when its data stays known, and they are of its own
      compilation. */
  ghost predicate FactsKept(mode: Mode, cs: seq<Compilation>, was: map<string, Manifest>, rows: seq<DataFile>,
                            now: map<string, Manifest>)
  {
    forall j :: 0 <= j < |cs| ==>
      var k := FileName(cs[j].name);
      (k in now <==> StaysKnown(mode, cs[j], was, rows))
      && (k in now ==> now[k].compilationHash == cs[j].compilationHash)
  }

  /** A contract has facts of its own after a write just when its data stays known. */
  ghost predicate KeptAlone(mode: Mode, c: Compilation, was: map<string, Manifest>, rows: seq<DataFile>,
                            now: map<string, Manifest>)
  {
    var k := FileName(c.name);
    (k in now <==> StaysKnown(mode, c, was, rows)) && (k in now ==> now[k].compilationHash == c.compilationHash)
  }

  /** Of contracts that share a manifest file, none knows its data after the write. */
  ghost predicate Unmixed(mode: Mode, cs: seq<Compilation>, was: map<string, Manifest>, rows: seq<DataFile>) {
    forall i, j :: 0 <= i < |cs| && 0 <= j < |cs| && i != j && FileName(cs[i].name) == FileName(cs[j].name) ==>
      !StaysKnown(mode, cs[i], was, rows)
  }

  /** What a write makes of the directory: its files; manifests that count every row, those there
      were and those written; and facts for just the contracts whose data stays known, exactly when
      none of them shares a file. Whatever is shared, a contract that is alone on its file has facts
      just when its data stays known. */
  ghost predicate Wrote(mode: Mode, cs: seq<Compilation>, news: seq<DataFile>, was: map<string, Manifest>,
                        rows: seq<DataFile>, now: map<string, Manifest>, files: seq<DataFile>)
  {
    && files == (if mode == Overwriting then news else rows + news)
    && (forall k :: k in now ==>
          now[k].rowCount == (if mode == Overwriting then 0 else |Flatten(rows)|) + |Flatten(news)|)
    && (forall j :: 0 <= j < |cs| && Alone(cs, j) ==> KeptAlone(mode, cs[j], was, rows, now))
    && (FactsKept(mode, cs, was, rows, now) <==> Unmixed(mode, cs, was, rows))
  }

  /** After an overwrite every contract keeps its facts exactly when no two share a file. */
  lemma UnmixedOverwriting(cs: seq<Compilation>, was: map<string, Manifest>, rows: seq<DataFile>)
    ensures Unmixed(Overwriting, cs, was, rows) <==> FilesDiffer(cs)
  {
    if Unmixed(Overwriting, cs, was, rows) {
      forall i, j | 0 <= i < j < |cs|
        ensures FileName(cs[i].name) != FileName(cs[j].name)
      {
        assert StaysKnown(Overwriting, cs[i], was, rows);
      }
    }
  }

  /** Contracts that share a file and remember cannot both have their facts in it. */
  lemma KeptUnmixed(mode: Mode, cs: seq<Compilation>, compiled: map<string, Compilation>, was: map<string, Manifest>,
                  rows: seq<DataFile>, now: map<string, Manifest>)
    requires Registered(cs, compiled) && FactsKept(mode, cs, was, rows, now)
    ensures Unmixed(mode, cs, was, rows)
  {
    forall i, j | 0 <= i < |cs| && 0 <= j < |cs| && i != j && FileName(cs[i].name) == FileName(cs[j].name)
      ensures !StaysKnown(mode, cs[i], was, rows)
    {
      HashesDiffer(cs, compiled, i, j);
    }
  }

  lemma HashesDiffer(cs: seq<Compilation>, compiled: map<string, Compilation>, i: nat, j: nat)
    requires Registered(cs, compiled) && i < |cs| && j < |cs| && i != j
    ensures cs[i].compilationHash != cs[j].compilationHash
  {
    assert cs[i].name != cs[j].name;
    assert compiled[cs[i].compilationHash] == cs[i] && compiled[cs[j].compilationHash] == cs[j];
  }

  lemma UnmixedExact(mode: Mode, cs: seq<Compilation>, at: seq<nat>, afters: seq<Option<Manifest>>,
                   was: map<string, Manifest>, rows: seq<DataFile>, good: iset<Manifest>, i: nat)
    requires AllAfter(mode, cs, at, was, rows, afters, good) && i < |at| && Unmixed(mode, cs, was, rows)
    requires forall x, y :: 0 <= x < y < |at| ==> at[x] != at[y]
    ensures Alone(cs, at[i]) || Quiet(FileName(cs[at[i]].name), cs, at, afters)
  {
    if !Alone(cs, at[i]) {
      var j :| 0 <= j < |cs| && j != at[i] && FileName(cs[j].name) == FileName(cs[at[i]].name);
      forall x | 0 <= x < |at| && FileName(cs[at[x]].name) == FileName(cs[at[i]].name)
        ensures afters[x].None?
      {
        var other := if at[x] == at[i] then j else at[i];
        RemembersWhen(mode, cs[at[x]], was, rows);
        assert FileName(cs[other].name) == FileName(cs[at[x]].name) && other != at[x];
      }
    }
  }

  lemma AllExact(mode: Mode, cs: seq<Compilation>, at: seq<nat>,
                 afters: seq<Option<Manifest>>, was: map<string, Manifest>, rows: seq<DataFile>,
                 now: map<string, Manifest>,
                 good: iset<Manifest>)
    requires at != [] && Reaches(at, |cs|, at[0]) && |at| == |afters| && Exactly(now, cs, at, afters)
    requires AllAfter(mode, cs, at, was, rows, afters, good) && Unmixed(mode, cs, was, rows)
    ensures FactsKept(mode, cs, was, rows, now)
  {
    forall j | 0 <= j < |cs|
      ensures var k := FileName(cs[j].name);
              (k in now <==> StaysKnown(mode, cs[j], was, rows))
              && (k in now ==> now[k].compilationHash == cs[j].compilationHash)
    {
      assert j in at;
      var i :| 0 <= i < |at| && at[i] == j;
      UnmixedExact(mode, cs, at, afters, was, rows, good, i);
      RemembersWhen(mode, cs[j], was, rows);
      assert Holding(FileName(cs[j].name), now, afters[i]);
      assert AfterIs(cs[j], KnewOf(mode, cs[j], was, rows), afters[i], good);
    }
  }

  lemma AloneExact(mode: Mode, cs: seq<Compilation>, at: seq<nat>, afters: seq<Option<Manifest>>,
                   was: map<string, Manifest>, rows: seq<DataFile>, now: map<string, Manifest>, good: iset<Manifest>)
    requires at != [] && Reaches(at, |cs|, at[0]) && |at| == |afters| && Exactly(now, cs, at, afters)
    requires AllAfter(mode, cs, at, was, rows, afters, good)
    ensures forall j :: 0 <= j < |cs| && Alone(cs, j) ==> KeptAlone(mode, cs[j], was, rows, now)
  {
    forall j | 0 <= j < |cs| && Alone(cs, j)
      ensures KeptAlone(mode, cs[j], was, rows, now)
    {
      assert j in at;
      var i :| 0 <= i < |at| && at[i] == j;
      assert Holding(FileName(cs[at[i]].name), now, afters[i]);
      assert AfterIs(cs[j], KnewOf(mode, cs[j], was, rows), afters[i], good);
      RemembersWhen(mode, cs[j], was, rows);
    }
  }

  lemma Published(mode: Mode, cs: seq<Compilation>, at: seq<nat>, news: seq<DataFile>,
                  afters: seq<Option<Manifest>>, was: map<string, Manifest>, rows: seq<DataFile>,
                  now: map<string, Manifest>, good: iset<Manifest>, compiled: map<string, Compilation>,
                  files: seq<DataFile>)
    requires at != [] && Reaches(at, |cs|, at[0]) && |at| == |afters| && Registered(cs, compiled)
    requires Owned(was, cs) && Saved(was, now, cs, at, good) && Exactly(now, cs, at, afters)
    requires AllAfter(mode, cs, at, was, rows, afters, good)
    requires Holds(good, compiled, files) && files == if mode == Overwriting then news else rows + news
    ensures Owned(now, cs) && Current(now, compiled, files) && Wrote(mode, cs, news, was, rows, now, files)
  {
    FlattenConcat(rows, news);
    AloneExact(mode, cs, at, afters, was, rows, now, good);
    AllSaved(was, now, cs, at, good);
    SavedRight(now, good, compiled, files);
    if Unmixed(mode, cs, was, rows) {
      AllExact(mode, cs, at, afters, was, rows, now, good);
    }
    if FactsKept(mode, cs, was, rows, now) {
      KeptUnmixed(mode, cs, compiled, was, rows, now);
    }
  }

  lemma SavedRight(now: map<string, Manifest>, good: iset<Manifest>, compiled: map<string, Compilation>,
                   files: seq<DataFile>)
    requires Holds(good, compiled, files)
    requires forall k :: k in now ==> now[k] in good
    ensures Current(now, compiled, files)
  {
  }

  /** What one contract's facts after a write are taken from: its own validation of the rows
      written, and what it knew of the files before. */
  ghost predicate Ready(mode: Mode, c: Compilation, before: Option<Option<Manifest>>, validated: Manifest,
                        files: seq<DataFile>, news: seq<DataFile>, compiled: map<string, Compilation>,
                        all: seq<DataFile>)
  {
    && CompilationOk(c) && c.compilationHash in compiled && compiled[c.compilationHash] == c
    && Agrees(c, validated, Flatten(news), news) && Fits(c, |Flatten(files)| + |Flatten(news)|)
    && all == (if mode == Overwriting then news else files + news) && DistinctPaths(all)
    && (mode == Overwriting ==> before == Some(None))
    && (mode == Appending && before == Some(None) ==> files == [])
    && (before.Some? && before.value.Some? ==> Right(before.value.value, compiled, files))
  }

  ghost predicate ReadyFor(mode: Mode, c: Compilation, before: Option<Option<Manifest>>,
                           validated: map<string, Manifest>, files: seq<DataFile>, news: seq<DataFile>,
                           compiled: map<string, Compilation>, all: seq<DataFile>)
  {
    c.name in validated && Ready(mode, c, before, validated[c.name], files, news, compiled, all)
  }

  /** What a contract knows after a write: facts under its own compilation, when it remembers. */
  ghost predicate AfterIs(c: Compilation, before: Option<Option<Manifest>>, after: Option<Manifest>,
                          good: iset<Manifest>)
  {
    && (after.Some? <==> Remembers(c, before))
    && (after.Some? ==> after.value in good && after.value.compilationHash == c.compilationHash)
  }

  ghost predicate AllAfter(mode: Mode, cs: seq<Compilation>, at: seq<nat>, was: map<string, Manifest>,
                           rows: seq<DataFile>, afters: seq<Option<Manifest>>, good: iset<Manifest>)
  {
    && |afters| == |at|
    && forall i :: 0 <= i < |at| ==>
         at[i] < |cs| && AfterIs(cs[at[i]], KnewOf(mode, cs[at[i]], was, rows), afters[i], good)
  }

  lemma AllReady(mode: Mode, cs: seq<Compilation>, at: seq<nat>, before: seq<Option<Option<Manifest>>>,
                 validated: map<string, Manifest>, manifests: map<string, Manifest>, files: seq<DataFile>,
                 news: seq<DataFile>, compiled: map<string, Compilation>, all: seq<DataFile>)
    requires |before| == |at| && (forall i :: 0 <= i < |at| ==> at[i] < |cs|)
    requires Registered(cs, compiled) && Current(manifests, compiled, files)
    requires Facted(cs, news, validated) && FitsAll(cs, |Flatten(files)| + |Flatten(news)|)
    requires all == (if mode == Overwriting then news else files + news) && DistinctPaths(all)
    requires forall i :: 0 <= i < |at| ==> before[i] == KnewOf(mode, cs[at[i]], manifests, files)
    ensures forall i :: 0 <= i < |at| ==> ReadyFor(mode, cs[at[i]], before[i], validated, files, news, compiled, all)
  {
    forall i | 0 <= i < |at|
      ensures ReadyFor(mode, cs[at[i]], before[i], validated, files, news, compiled, all)
    {
      var k := FileName(cs[at[i]].name);
      if k in manifests {
        assert Right(manifests[k], compiled, files);
      }
    }
  }

  /** One contract's facts after a write: none when it did not know the files or knew them under
      another compilation, and otherwise right of all of them. */
  method AfterOne(mode: Mode, c: Compilation, before: Option<Option<Manifest>>, validated: map<string, Manifest>,
                  writtenAt: int, ghost files: seq<DataFile>, ghost news: seq<DataFile>,
                  ghost compiled: map<string, Compilation>, ghost all: seq<DataFile>, ghost good: iset<Manifest>)
    returns (after: Option<Manifest>)
    requires ReadyFor(mode, c, before, validated, files, news, compiled, all) && Holds(good, compiled, all)
    ensures AfterIs(c, before, after, good)
  {
    if before.None? {
      return None;
    }
    var write := WriteFacts(if mode == Overwriting then Facts.Overwrite else Facts.Append, validated[c.name], []);
    if before.value.None? {
      assert [] + news == news;
      OverwriteAgrees(c, None, write, writtenAt, None, Flatten(news), news);
    } else if before.value.value.compilationHash == c.compilationHash {
      FlattenConcat(files, news);
      AppendAgrees(c, before.value.value, Flatten(files), files, write, writtenAt, None, Flatten(news), news);
    }
    after := AfterWrite(c, before.value, write, writtenAt, None).value;
    assert after.Some? ==> Right(after.value, compiled, all);
  }

  /** What each contract knows after a write. */
  method Afters(mode: Mode, cs: seq<Compilation>, at: seq<nat>, before: seq<Option<Option<Manifest>>>,
                ghost news: seq<DataFile>, validated: map<string, Manifest>, writtenAt: int,
                ghost rows: seq<DataFile>, ghost compiled: map<string, Compilation>,
                ghost all: seq<DataFile>, ghost good: iset<Manifest>)
    returns (afters: seq<Option<Manifest>>)
    requires Holds(good, compiled, all)
    requires |before| == |at| && forall i :: 0 <= i < |at| ==> at[i] < |cs|
    requires forall i :: 0 <= i < |at| ==> ReadyFor(mode, cs[at[i]], before[i], validated, rows, news, compiled, all)
    ensures |afters| == |at|
    ensures forall i :: 0 <= i < |at| ==> AfterIs(cs[at[i]], before[i], afters[i], good)
  {
    afters := [];
    for i := 0 to |at|
      invariant |afters| == i && AftersTo(cs, at, before, afters, good)
    {
      var after := AfterOne(mode, cs[at[i]], before[i], validated, writtenAt, rows, news, compiled, all, good);
      OneMoreAfter(cs, at, before, afters, after, good);
      afters := afters + [after];
    }
  }

  /** What the contracts reached so far know after the write. */
  ghost predicate AftersTo(cs: seq<Compilation>, at: seq<nat>, before: seq<Option<Option<Manifest>>>,
                           afters: seq<Option<Manifest>>, good: iset<Manifest>)
    requires |afters| <= |at| == |before| && forall i :: 0 <= i < |at| ==> at[i] < |cs|
  {
    forall i :: 0 <= i < |afters| ==> AfterIs(cs[at[i]], before[i], afters[i], good)
  }

  lemma OneMoreAfter(cs: seq<Compilation>, at: seq<nat>, before: seq<Option<Option<Manifest>>>,
                     afters: seq<Option<Manifest>>, after: Option<Manifest>, good: iset<Manifest>)
    requires |afters| < |at| == |before| && forall i :: 0 <= i < |at| ==> at[i] < |cs|
    requires AftersTo(cs, at, before, afters, good) && AfterIs(cs[at[|afters|]], before[|afters|], after, good)
    ensures AftersTo(cs, at, before, afters + [after], good)
  {
    assert forall i :: 0 <= i < |afters| ==> (afters + [after])[i] == afters[i];
  }
}
