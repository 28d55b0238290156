/**
 Two ways to take a contract's view: from stored flag and derived columns, or by evaluating its
 rules on each row. When the two give the same rows, and which rows either leaves out.
 */
module Views {
  import opened Wrappers
  import opened Rows
  import opened Manifests
  import opened Facts
  import opened FactsAgree
  import opened Violation

  datatype Derived = Derived(column: string, value: Row -> Value)

  datatype Output = Output(name: string, value: Row -> Value)

  /** One version of a contract. Flags and derived columns are computed of the enriched row; admits
      and outputs read a row that has them. */
  datatype Contract = Contract(
    hash: string,
    rowSchema: set<string>,
    enrich: Row -> Row,
    flags: seq<Flag>,
    derived: seq<Derived>,
    admits: Row -> bool,
    outputs: seq<Output>)

  /** The columns of the row schema: what a rule evaluated live starts from. */
  function Raw(c: Contract, row: Row): Row {
    map n | n in row && n in c.rowSchema :: row[n]
  }

  function WithFlags(flags: seq<Flag>, enriched: Row, row: Row): Row {
    if flags == [] then row
    else WithFlags(flags[1..], enriched, row[flags[0].column := Bool(flags[0].passes(enriched))])
  }

  function WithDerived(ds: seq<Derived>, enriched: Row, row: Row): Row {
    if ds == [] then row
    else WithDerived(ds[1..], enriched, row[ds[0].column := ds[0].value(enriched)])
  }

  /** A row as a write under the contract stores it. */
  function Computed(c: Contract, row: Row): Row {
    var e := c.enrich(Raw(c, row));
    WithDerived(c.derived, e, WithFlags(c.flags, e, e))
  }

  ghost predicate WellFormed(c: Contract) {
    && (forall i :: 0 <= i < |c.flags| ==> c.flags[i].column !in c.rowSchema)
    && (forall i :: 0 <= i < |c.derived| ==> c.derived[i].column !in c.rowSchema)
    && (forall row: Row {:trigger c.enrich(row)} :: Raw(c, row) == row ==> Raw(c, c.enrich(row)) == row)
    && (forall i, j :: 0 <= i < |c.flags| && 0 <= j < |c.derived| ==> c.flags[i].column != c.derived[j].column)
    && (forall i, j :: 0 <= i < j < |c.flags| ==> c.flags[i].column != c.flags[j].column)
  }

  // ── views ───────────────────────────────────────────────────────────────────

  /** The row's flags say that it breaks no rule it can break. */
  predicate Unbroken(c: Contract, row: Row) {
    Rules(EnforcedFlags(c.flags), row) == []
  }

  /** The view lets a row through: the contract admits it, and it breaks no row rule. */
  predicate Shown(c: Contract, row: Row) {
    c.admits(row) && Unbroken(c, row)
  }

  function Outputs(outputs: seq<Output>, row: Row): seq<(string, Value)> {
    if outputs == [] then [] else [(outputs[0].name, outputs[0].value(row))] + Outputs(outputs[1..], row)
  }

  /** The view over stored flags and derived columns. */
  function StoredView(c: Contract, rows: seq<Row>): seq<seq<(string, Value)>> {
    if rows == [] then []
    else (if Shown(c, rows[0]) then [Outputs(c.outputs, rows[0])] else []) + StoredView(c, rows[1..])
  }

  /** The view with every rule evaluated on the row. */
  function LiveView(c: Contract, rows: seq<Row>): seq<seq<(string, Value)>> {
    if rows == [] then []
    else
      var row := Computed(c, rows[0]);
      (if Shown(c, row) then [Outputs(c.outputs, row)] else []) + LiveView(c, rows[1..])
  }

  /** The view over some rows of the files: of the stored columns when every file carries the
      contract's hash. */
  function ViewOf(c: Contract, files: seq<DataFile>, rows: seq<Row>): seq<seq<(string, Value)>> {
    if FlagsCurrent(Entries(files), c.hash) then StoredView(c, rows) else LiveView(c, rows)
  }

  function View(c: Contract, files: seq<DataFile>): seq<seq<(string, Value)>> {
    ViewOf(c, files, Flatten(files))
  }

  /** A view's columns are the contract's outputs, in order, each under its name. */
  lemma {:induction false} OutputsAre(outputs: seq<Output>, row: Row, k: nat)
    requires k < |outputs|
    ensures |Outputs(outputs, row)| == |outputs|
    ensures Outputs(outputs, row)[k] == (outputs[k].name, outputs[k].value(row))
  {
    if |outputs| > 1 {
      OutputsAre(outputs[1..], row, if k == 0 then 0 else k - 1);
    }
  }

  /** The stored columns are read when there are files and every one carries the contract's hash. */
  lemma {:induction false} StoredWhen(c: Contract, files: seq<DataFile>)
    ensures FlagsCurrent(Entries(files), c.hash) <==>
            files != [] && forall k :: 0 <= k < |files| ==> files[k].contractHash == c.hash
  {
    EntriesAt(files);
    var es := Entries(files);
    assert forall k :: 0 <= k < |files| ==> es[k].contractHash == files[k].contractHash;
    assert forall k :: 0 <= k < |files| ==> es[k] in es;
  }

  // ── stored rows ─────────────────────────────────────────────────────────────

  lemma {:induction false} FlagsRaw(c: Contract, flags: seq<Flag>, e: Row, row: Row)
    requires forall i :: 0 <= i < |flags| ==> flags[i].column !in c.rowSchema
    ensures Raw(c, WithFlags(flags, e, row)) == Raw(c, row)
  {
    if flags != [] {
      var next := row[flags[0].column := Bool(flags[0].passes(e))];
      assert Raw(c, next) == Raw(c, row);
      FlagsRaw(c, flags[1..], e, next);
    }
  }

  lemma {:induction false} DerivedRaw(c: Contract, ds: seq<Derived>, e: Row, row: Row)
    requires forall i :: 0 <= i < |ds| ==> ds[i].column !in c.rowSchema
    ensures Raw(c, WithDerived(ds, e, row)) == Raw(c, row)
  {
    if ds != [] {
      var next := row[ds[0].column := ds[0].value(e)];
      assert Raw(c, next) == Raw(c, row);
      DerivedRaw(c, ds[1..], e, next);
    }
  }

  /** Evaluating the rules again on a stored row gives the row. */
  lemma Recomputed(c: Contract, row: Row)
    requires WellFormed(c)
    ensures Computed(c, Computed(c, row)) == Computed(c, row)
  {
    var raw := Raw(c, row);
    assert Raw(c, raw) == raw;
    var e := c.enrich(raw);
    FlagsRaw(c, c.flags, e, e);
    DerivedRaw(c, c.derived, e, WithFlags(c.flags, e, e));
  }

  // ── when the stored view is the live one ────────────────────────────────────

  /** The contract with other rows admitted. */
  function Admitting(c: Contract, admits: Row -> bool): Contract {
    c.(admits := admits)
  }

  /** Whichever rows the contract admits, both views of these are the same. */
  ghost predicate Alike(c: Contract, rows: seq<Row>) {
    forall admits: Row -> bool :: StoredView(Admitting(c, admits), rows) == LiveView(Admitting(c, admits), rows)
  }

  /** What a row may be stored as: if it breaks no rule, as stored or as the contract computes it,
      then as the contract computes it; or in any form whose flags say the same of it. */
  datatype Standard = AsComputed | SameVerdict

  ghost predicate Meets(to: Standard, c: Contract, row: Row) {
    match to
    case AsComputed => Unbroken(c, row) || Unbroken(c, Computed(c, row)) ==> row == Computed(c, row)
    case SameVerdict => Unbroken(c, row) <==> Unbroken(c, Computed(c, row))
  }

  ghost predicate AllMeet(to: Standard, c: Contract, rows: seq<Row>) {
    forall row :: row in rows ==> Meets(to, c, row)
  }

  /** Every row that breaks no rule, as it is stored or as the contract computes it, is stored as the
      contract computes it. */
  ghost predicate Faithful(c: Contract, rows: seq<Row>) {
    AllMeet(AsComputed, c, rows)
  }

  lemma {:induction false} FaithfulAlike(c: Contract, admits: Row -> bool, rows: seq<Row>)
    requires Faithful(c, rows)
    ensures StoredView(Admitting(c, admits), rows) == LiveView(Admitting(c, admits), rows)
  {
    if rows != [] {
      assert rows[0] in rows && Computed(Admitting(c, admits), rows[0]) == Computed(c, rows[0]);
      FaithfulAlike(c, admits, rows[1..]);
    }
  }

  /** Of one computed form that breaks no rule, the live view shows every row that has it, and the
      stored view those alone that are stored as it. */
  lemma {:induction false} LiveShowsMore(c: Contract, x: Row, rows: seq<Row>, row: Row)
    requires Computed(c, x) == x && Unbroken(c, x)
    ensures var only := Admitting(c, r => r == x);
            && |StoredView(only, rows)| <= |LiveView(only, rows)|
            && (row in rows && row != x == Computed(c, row) ==> |StoredView(only, rows)| < |LiveView(only, rows)|)
  {
    if rows != [] {
      assert Computed(Admitting(c, r => r == x), rows[0]) == Computed(c, rows[0]);
      LiveShowsMore(c, x, rows[1..], row);
    }
  }

  /** No row has a computed form that the contract does not compute of it again. */
  lemma {:induction false} NeverComputed(c: Contract, x: Row, rows: seq<Row>)
    requires WellFormed(c) && Computed(c, x) != x
    ensures LiveView(Admitting(c, r => r == x), rows) == []
  {
    if rows != [] {
      assert Computed(Admitting(c, r => r == x), rows[0]) == Computed(c, rows[0]);
      Recomputed(c, rows[0]);
      NeverComputed(c, x, rows[1..]);
    }
  }

  /** Of one row alone, the stored view shows every copy or none. */
  lemma {:induction false} ShowsOne(c: Contract, x: Row, rows: seq<Row>)
    ensures StoredView(Admitting(c, r => r == x), rows) != [] <==> x in rows && Unbroken(c, x)
  {
    if rows != [] {
      ShowsOne(c, x, rows[1..]);
    }
  }

  lemma ToldApart(c: Contract, rows: seq<Row>, row: Row)
    requires WellFormed(c) && row in rows && row != Computed(c, row)
    requires Unbroken(c, row) || Unbroken(c, Computed(c, row))
    ensures !Alike(c, rows)
  {
    var x := if Unbroken(c, row) then row else Computed(c, row);
    var only := Admitting(c, r => r == x);
    if Unbroken(c, row) {
      NeverComputed(c, row, rows);
      ShowsOne(c, row, rows);
    } else {
      Recomputed(c, row);
      LiveShowsMore(c, x, rows, row);
    }
    assert StoredView(only, rows) != LiveView(only, rows);
  }

  /** Both views of the rows are the same, whichever of them the contract admits, exactly when each
      row that breaks no rule in one form or the other is stored as the contract computes it. */
  lemma StoredExactly(c: Contract, rows: seq<Row>)
    requires WellFormed(c)
    ensures Alike(c, rows) <==> Faithful(c, rows)
  {
    if Faithful(c, rows) {
      forall admits: Row -> bool
        ensures StoredView(Admitting(c, admits), rows) == LiveView(Admitting(c, admits), rows)
      {
        FaithfulAlike(c, admits, rows);
      }
    }
    if !Faithful(c, rows) {
      var row :| row in rows && !Meets(AsComputed, c, row);
      ToldApart(c, rows, row);
    }
  }

  lemma {:induction false} FlattenIn(files: seq<DataFile>, row: Row)
    ensures row in Flatten(files) <==> exists i :: 0 <= i < |files| && row in files[i].rows
  {
    if files != [] {
      FlattenIn(files[1..], row);
      assert forall i :: 0 < i < |files| ==> files[i] == files[1..][i - 1];
    }
  }

  // ── runs of writes under any versions ───────────────────────────────────────

  /** The table's files, and every version of the contract written under, by its hash. */
  datatype Table = Table(files: seq<DataFile>, versions: map<string, Contract>)

  datatype Write =
    | Appends(under: Contract, news: seq<DataFile>)
    | Overwrites(under: Contract, news: seq<DataFile>)
    | Compacts(under: Contract, gone: seq<DataFile>, kept: seq<DataFile>, news: seq<DataFile>)
    | Elsewhere(news: seq<DataFile>) // files of no version of the contract

  /** Files of rows given, computed and stamped under `c`. */
  ghost predicate WrittenUnder(c: Contract, files: seq<DataFile>) {
    forall f :: f in files ==>
      f.contractHash == c.hash && forall row :: row in f.rows ==> exists given :: row == Computed(c, given)
  }

  ghost predicate Knows(t: Table, t': Table, c: Contract) {
    WellFormed(c) && (c.hash in t.versions ==> t.versions[c.hash] == c) && t'.versions == t.versions[c.hash := c]
  }

  /** A compaction copies the rows of the files it replaces as they are stored, and stamps the files
      it writes with its own contract's hash. */
  ghost predicate CopiesAsStored(t: Table, w: Write, t': Table)
    requires w.Compacts?
  {
    && multiset(t.files) == multiset(w.gone) + multiset(w.kept) && t'.files == w.kept + w.news
    && multiset(Flatten(w.news)) == multiset(Flatten(w.gone))
    && forall f :: f in w.news ==> f.contractHash == w.under.hash
  }

  ghost predicate Step(t: Table, w: Write, t': Table) {
    match w
    case Appends(c, news) => Knows(t, t', c) && WrittenUnder(c, news) && t'.files == t.files + news
    case Overwrites(c, news) => Knows(t, t', c) && WrittenUnder(c, news) && t'.files == news
    case Compacts(c, gone, kept, news) => Knows(t, t', c) && CopiesAsStored(t, w, t')
    case Elsewhere(news) =>
      t'.versions == t.versions && t'.files == t.files + news
      && forall f :: f in news ==> f.contractHash !in t.versions
  }

  /** Every file replaced carries the compacting contract's own hash. */
  ghost predicate SameHash(w: Write) {
    w.Compacts? ==> forall f :: f in w.gone ==> f.contractHash == w.under.hash
  }

  /** Every row a compaction copies meets the standard under the compacting contract. */
  ghost predicate Copies(to: Standard, w: Write) {
    w.Compacts? ==> AllMeet(to, w.under, Flatten(w.gone))
  }

  ghost predicate StoredRight(to: Standard, t: Table) {
    && (forall h :: h in t.versions ==> t.versions[h].hash == h && WellFormed(t.versions[h]))
    && forall f :: f in t.files && f.contractHash in t.versions ==> AllMeet(to, t.versions[f.contractHash], f.rows)
  }

  /** A version becomes known only by writing, so no file written elsewhere has its hash. */
  ghost predicate NoneForged(t: Table, w: Write) {
    !w.Elsewhere? && w.under.hash !in t.versions ==> forall f :: f in t.files ==> f.contractHash != w.under.hash
  }

  lemma WrittenMeets(to: Standard, c: Contract, files: seq<DataFile>)
    requires WellFormed(c) && WrittenUnder(c, files)
    ensures forall f :: f in files ==> AllMeet(to, c, f.rows)
  {
    forall f, row | f in files && row in f.rows
      ensures row == Computed(c, row)
    {
      var given :| row == Computed(c, given);
      Recomputed(c, given);
    }
  }

  lemma FlattenMeets(to: Standard, c: Contract, files: seq<DataFile>)
    ensures AllMeet(to, c, Flatten(files)) <==> forall f :: f in files ==> AllMeet(to, c, f.rows)
  {
    if AllMeet(to, c, Flatten(files)) {
      forall f, row | f in files && row in f.rows
        ensures row in Flatten(files)
      {
        FlattenIn(files, row);
      }
    }
    if forall f :: f in files ==> AllMeet(to, c, f.rows) {
      forall row | row in Flatten(files)
        ensures exists f :: f in files && row in f.rows
      {
        FlattenIn(files, row);
        var i :| 0 <= i < |files| && row in files[i].rows;
        assert files[i] in files;
      }
    }
  }

  lemma CopiedMeets(to: Standard, c: Contract, gone: seq<DataFile>, news: seq<DataFile>)
    requires multiset(Flatten(news)) == multiset(Flatten(gone))
    ensures AllMeet(to, c, Flatten(news)) <==> AllMeet(to, c, Flatten(gone))
  {
    assert forall row :: row in Flatten(news) <==> row in multiset(Flatten(news));
    assert forall row :: row in Flatten(gone) <==> row in multiset(Flatten(gone));
  }

  /** A compaction within one hash copies rows that were stored as it computes them. */
  lemma SameHashCopies(to: Standard, t: Table, w: Write, t': Table)
    requires StoredRight(to, t) && Step(t, w, t') && NoneForged(t, w) && SameHash(w)
    ensures Copies(to, w)
  {
    if w.Compacts? {
      assert forall f :: f in w.gone ==> f in multiset(t.files);
      FlattenMeets(to, w.under, w.gone);
    }
  }

  lemma RightWith(to: Standard, t: Table, t': Table, c: Contract)
    requires StoredRight(to, t) && Knows(t, t', c)
    requires c.hash !in t.versions ==> forall f :: f in t.files ==> f.contractHash != c.hash
    requires forall f :: f in t'.files ==> f in t.files || (f.contractHash == c.hash && AllMeet(to, c, f.rows))
    ensures StoredRight(to, t')
  {
  }

  lemma StepRight(to: Standard, t: Table, w: Write, t': Table)
    requires StoredRight(to, t) && Step(t, w, t') && Copies(to, w) && NoneForged(t, w)
    ensures StoredRight(to, t')
  {
    match w
    case Appends(c, news) =>
      WrittenMeets(to, c, news);
      RightWith(to, t, t', c);
    case Overwrites(c, news) =>
      WrittenMeets(to, c, news);
      RightWith(to, t, t', c);
    case Elsewhere(_) =>
    case Compacts(c, gone, kept, news) =>
      assert forall f :: f in kept ==> f in multiset(t.files);
      CopiedMeets(to, c, gone, news);
      FlattenMeets(to, c, news);
      RightWith(to, t, t', c);
  }

  ghost predicate Run(ts: seq<Table>, ws: seq<Write>) {
    && |ts| == |ws| + 1 && ts[0] == Table([], map[])
    && forall i :: 0 <= i < |ws| ==> Step(ts[i], ws[i], ts[i + 1]) && NoneForged(ts[i], ws[i])
  }

  /** A run up to its state `k` whose compactions stay within one hash, or copy only rows that meet
      the standard. */
  ghost predicate RunTo(to: Standard, ts: seq<Table>, ws: seq<Write>, k: nat) {
    Run(ts, ws) && k < |ts| && forall i :: 0 <= i < k ==> SameHash(ws[i]) || Copies(to, ws[i])
  }

  lemma {:induction false} RunRight(to: Standard, ts: seq<Table>, ws: seq<Write>, k: nat)
    requires RunTo(to, ts, ws, k)
    ensures StoredRight(to, ts[k])
  {
    if k > 0 {
      RunRight(to, ts, ws, k - 1);
      if SameHash(ws[k - 1]) {
        SameHashCopies(to, ts[k - 1], ws[k - 1], ts[k]);
      }
      StepRight(to, ts[k - 1], ws[k - 1], ts[k]);
    }
  }

  lemma CurrentMeets(to: Standard, t: Table, c: Contract)
    requires StoredRight(to, t) && c.hash in t.versions && t.versions[c.hash] == c
    requires FlagsCurrent(Entries(t.files), c.hash)
    ensures AllMeet(to, c, Flatten(t.files))
  {
    EntriesAt(t.files);
    forall f | f in t.files
      ensures AllMeet(to, c, f.rows)
    {
      var i :| 0 <= i < |t.files| && t.files[i] == f;
      assert Entries(t.files)[i] in Entries(t.files);
    }
    FlattenMeets(to, c, t.files);
  }

  /** Over any run of appends, overwrites and writes from elsewhere, under any versions of the
      contract, and compactions of files that carry the compacting version's own hash or of rows
      stored as that version computes them, whichever way the view is taken it is the same rows. */
  lemma StoredViewIsLive(ts: seq<Table>, ws: seq<Write>, k: nat, c: Contract)
    requires RunTo(AsComputed, ts, ws, k)
    requires c.hash in ts[k].versions && ts[k].versions[c.hash] == c
    ensures View(c, ts[k].files) == LiveView(c, Flatten(ts[k].files))
  {
    RunRight(AsComputed, ts, ws, k);
    if FlagsCurrent(Entries(ts[k].files), c.hash) {
      CurrentMeets(AsComputed, ts[k], c);
      FaithfulAlike(c, c.admits, Flatten(ts[k].files));
      assert Admitting(c, c.admits) == c;
    }
  }

  /** However the view of the files is taken it is the same, whichever rows the contract admits. */
  ghost predicate ViewsAlike(c: Contract, files: seq<DataFile>) {
    forall admits: Row -> bool :: View(Admitting(c, admits), files) == LiveView(Admitting(c, admits), Flatten(files))
  }

  lemma ViewsExactly(c: Contract, files: seq<DataFile>)
    requires WellFormed(c)
    ensures ViewsAlike(c, files) <==> (FlagsCurrent(Entries(files), c.hash) ==> Faithful(c, Flatten(files)))
  {
    var rows := Flatten(files);
    StoredExactly(c, rows);
    forall admits: Row -> bool
      ensures View(Admitting(c, admits), files) ==
              if FlagsCurrent(Entries(files), c.hash) then StoredView(Admitting(c, admits), rows)
              else LiveView(Admitting(c, admits), rows)
    {
    }
    if ViewsAlike(c, files) && FlagsCurrent(Entries(files), c.hash) {
      forall admits: Row -> bool
        ensures StoredView(Admitting(c, admits), rows) == LiveView(Admitting(c, admits), rows)
      {
        assert View(Admitting(c, admits), files) == LiveView(Admitting(c, admits), rows);
      }
    }
  }

  /** After a compaction whose contract's view is of the stored columns, all rows meet a standard
      exactly when those it copied do. */
  lemma CompactionMeets(to: Standard, t: Table, w: Write, t': Table)
    requires StoredRight(to, t) && Step(t, w, t') && NoneForged(t, w) && w.Compacts?
    requires FlagsCurrent(Entries(t'.files), w.under.hash)
    ensures AllMeet(to, w.under, Flatten(t'.files)) <==> Copies(to, w)
  {
    var c := w.under;
    EntriesAt(t'.files);
    forall f | f in w.kept
      ensures AllMeet(to, c, f.rows)
    {
      var i :| 0 <= i < |w.kept| && w.kept[i] == f;
      assert t'.files[i] == f && Entries(t'.files)[i] in Entries(t'.files);
      assert f in multiset(t.files);
    }
    FlattenMeets(to, c, t'.files);
    FlattenMeets(to, c, w.news);
    CopiedMeets(to, c, w.gone, w.news);
    assert forall f :: f in t'.files <==> f in w.kept || f in w.news;
  }

  /** What a compaction does to the views of its own contract, over any table that was right: they
      are the same ever after exactly when each row it copies that breaks no rule is stored as the
      contract computes it, or when a file of another hash is left, so that the view is not taken
      of the stored columns. */
  lemma CompactionAlike(t: Table, w: Write, t': Table)
    requires StoredRight(AsComputed, t) && Step(t, w, t') && NoneForged(t, w) && w.Compacts?
    ensures ViewsAlike(w.under, t'.files) <==>
            (FlagsCurrent(Entries(t'.files), w.under.hash) ==> Copies(AsComputed, w))
  {
    ViewsExactly(w.under, t'.files);
    if FlagsCurrent(Entries(t'.files), w.under.hash) {
      CompactionMeets(AsComputed, t, w, t');
    }
  }

  // ── a compaction under another version ──────────────────────────────────────

  lemma {:induction false} OnlyShown(c: Contract, rows: seq<Row>, row: Row)
    requires forall r :: r in rows ==> !Shown(c, r)
    ensures StoredView(c, rows) == []
  {
    if rows != [] {
      OnlyShown(c, rows[1..], row);
    }
  }

  lemma EnforcedRules(flags: seq<Flag>, row: Row)
    requires flags != []
    ensures Rules(EnforcedFlags(flags), row) ==
            (if Enforced(flags[0]) && !Flagged(flags[0], row) then [flags[0].assertId] else [])
            + Rules(EnforcedFlags(flags[1..]), row)
  {
    var first := if Enforced(flags[0]) then [flags[0]] else [];
    assert EnforcedFlags(flags) == first + EnforcedFlags(flags[1..]);
    RulesFlags(first, EnforcedFlags(flags[1..]), row);
    if Enforced(flags[0]) {
      assert first[1..] == [];
    }
  }

  lemma {:induction false} EnforcedIn(flags: seq<Flag>, i: nat, row: Row)
    requires i < |flags| && flags[i].onFail in {Drop, Deny} && !Flagged(flags[i], row)
    ensures Rules(EnforcedFlags(flags), row) != []
  {
    EnforcedRules(flags, row);
    if i > 0 {
      EnforcedIn(flags[1..], i - 1, row);
    }
  }

  /** A table compacted under a version whose enforced flag its rows were not stored with: the
      files carry that version's hash, so the view is taken of the stored columns, where the flag
      is null, and shows nothing, whatever the rules say of the rows. */
  lemma CompactionHides(t: Table, w: Write, t': Table, i: nat)
    requires w.Compacts? && Step(t, w, t') && w.kept == [] && w.news != []
    requires i < |w.under.flags| && w.under.flags[i].onFail in {Drop, Deny}
    requires forall f, row :: f in t.files && row in f.rows ==> Column(row, w.under.flags[i].column) == Null
    ensures View(w.under, t'.files) == []
  {
    var c := w.under;
    var files := t'.files;
    assert files == w.news && multiset(t.files) == multiset(w.gone);
    EntriesAt(files);
    assert FlagsCurrent(Entries(files), c.hash);
    forall row | row in Flatten(files)
      ensures !Shown(c, row)
    {
      assert row in multiset(Flatten(w.gone));
      FlattenIn(w.gone, row);
      var j :| 0 <= j < |w.gone| && row in w.gone[j].rows;
      assert w.gone[j] in multiset(t.files);
      EnforcedIn(c.flags, i, row);
    }
    OnlyShown(c, Flatten(files), map[]);
  }

  /** Every name of a set is shorter than some length. */
  lemma {:induction false} Shorter(names: set<string>) returns (n: nat)
    ensures forall x :: x in names ==> |x| < n
    decreases |names|
  {
    if names == {} {
      return 0;
    }
    var x :| x in names;
    var m := Shorter(names - {x});
    n := if m > |x| then m else |x| + 1;
    assert forall y :: y in names ==> y == x || y in names - {x};
  }

  /** A name that is not in the set. */
  lemma NewName(names: set<string>) returns (name: string)
    ensures name !in names
  {
    var n := Shorter(names);
    name := seq(n, _ => 'x');
  }

  lemma {:induction false} Columns(rows: seq<Row>) returns (names: set<string>)
    ensures forall row, n :: row in rows && n in row ==> n in names
  {
    if rows == [] {
      return {};
    }
    var rest := Columns(rows[1..]);
    names := rows[0].Keys + rest;
  }

  /** A version with one rule, under a flag column of its own, that every row passes. */
  function Passed(hash: string, column: string): Contract {
    Contract(hash, {}, row => row, [Flag("a", column, Drop, row => true)], [], row => true, [])
  }

  lemma {:induction false} PassedLive(hash: string, column: string, rows: seq<Row>)
    ensures |LiveView(Passed(hash, column), rows)| == |rows|
  {
    if rows != [] {
      PassedLive(hash, column, rows[1..]);
      var c := Passed(hash, column);
      var e: Row := map[];
      assert Raw(c, rows[0]) == e && c.flags[1..] == [];
      assert WithFlags(c.flags, e, e) == e[column := Bool(true)];
      assert Computed(c, rows[0]) == e[column := Bool(true)];
      assert EnforcedFlags(c.flags) == c.flags;
      assert Rules(c.flags, e[column := Bool(true)]) == [];
    }
  }

  /** No table with rows is safe from it: whatever is stored, and however it came to be, there is a
      version of the contract that every row passes and whose compaction, which may come next in
      any run, hides every row. */
  lemma CompactionCanHide(t: Table, file: DataFile) returns (c: Contract, w: Write, t': Table)
    requires Flatten(t.files) != [] && file.rows == Flatten(t.files)
    ensures w == Compacts(c, t.files, [], [file.(contractHash := c.hash)]) && Step(t, w, t') && NoneForged(t, w)
            && !SameHash(w)
    ensures View(c, t'.files) == [] && |LiveView(c, Flatten(t'.files))| == |Flatten(t.files)|
  {
    var names := Columns(Flatten(t.files));
    var column := NewName(names);
    var hash := NewName(t.versions.Keys + set f | f in t.files :: f.contractHash);
    c := Passed(hash, column);
    var news := file.(contractHash := hash);
    w := Compacts(c, t.files, [], [news]);
    t' := Table([news], t.versions[hash := c]);
    assert Flatten([news]) == file.rows && [] + [news] == [news];
    assert multiset(t.files) == multiset(t.files) + multiset([]);
    assert t.files != [] && t.files[0] in t.files;
    forall f, row | f in t.files && row in f.rows
      ensures Column(row, column) == Null
    {
      FlattenIn(t.files, row);
    }
    CompactionHides(t, w, t', 0);
    PassedLive(hash, column, Flatten(t.files));
  }

  // ── what the view leaves out ────────────────────────────────────────────────

  lemma {:induction false} FlagsKept(flags: seq<Flag>, e: Row, row: Row, column: string)
    requires forall j :: 0 <= j < |flags| ==> flags[j].column != column
    ensures Column(WithFlags(flags, e, row), column) == Column(row, column)
  {
    if flags != [] {
      FlagsKept(flags[1..], e, row[flags[0].column := Bool(flags[0].passes(e))], column);
    }
  }

  lemma {:induction false} DerivedKept(ds: seq<Derived>, e: Row, row: Row, column: string)
    requires forall j :: 0 <= j < |ds| ==> ds[j].column != column
    ensures Column(WithDerived(ds, e, row), column) == Column(row, column)
  {
    if ds != [] {
      DerivedKept(ds[1..], e, row[ds[0].column := ds[0].value(e)], column);
    }
  }

  lemma {:induction false} DerivedIs(ds: seq<Derived>, e: Row, row: Row, i: nat)
    requires i < |ds| && forall j :: i < j < |ds| ==> ds[j].column != ds[i].column
    ensures Column(WithDerived(ds, e, row), ds[i].column) == ds[i].value(e)
  {
    var next := row[ds[0].column := ds[0].value(e)];
    if i == 0 {
      DerivedKept(ds[1..], e, next, ds[0].column);
    } else {
      DerivedIs(ds[1..], e, next, i - 1);
    }
  }

  /** A stored row has, of each derived column, what the contract makes of the row as enriched; where
      two have one name, what the last makes. */
  lemma DerivedStored(c: Contract, row: Row, i: nat)
    requires i < |c.derived| && forall j :: i < j < |c.derived| ==> c.derived[j].column != c.derived[i].column
    ensures Column(Computed(c, row), c.derived[i].column) == c.derived[i].value(c.enrich(Raw(c, row)))
  {
    var e := c.enrich(Raw(c, row));
    DerivedIs(c.derived, e, WithFlags(c.flags, e, e), i);
  }

  lemma {:induction false} FlagStored(flags: seq<Flag>, e: Row, row: Row, i: nat)
    requires i < |flags| && forall j, k :: 0 <= j < k < |flags| ==> flags[j].column != flags[k].column
    ensures Column(WithFlags(flags, e, row), flags[i].column) == Bool(flags[i].passes(e))
  {
    var next := row[flags[0].column := Bool(flags[0].passes(e))];
    if i == 0 {
      FlagsKept(flags[1..], e, next, flags[0].column);
    } else {
      FlagStored(flags[1..], e, next, i - 1);
    }
  }

  /** A computed row's flag is what its rule says of the enriched row. */
  lemma FlagIs(c: Contract, row: Row, i: nat)
    requires WellFormed(c) && i < |c.flags|
    ensures Flagged(c.flags[i], Computed(c, row)) <==> c.flags[i].passes(c.enrich(Raw(c, row)))
  {
    var e := c.enrich(Raw(c, row));
    FlagStored(c.flags, e, e, i);
    DerivedKept(c.derived, e, WithFlags(c.flags, e, e), c.flags[i].column);
  }

  /** `c` as the facts see it: its flags decide of the rows as they are stored. */
  ghost predicate Decides(c: Contract, k: Compilation) {
    && |k.flags| == |c.flags|
    && forall i :: 0 <= i < |c.flags| ==>
         k.flags[i].assertId == c.flags[i].assertId && k.flags[i].onFail == c.flags[i].onFail
         && forall row {:trigger k.flags[i].passes(row)} ::
              k.flags[i].passes(row) == c.flags[i].passes(c.enrich(Raw(c, row)))
  }

  lemma {:induction false} EnforcedPass(flags: seq<Flag>, row: Row)
    requires forall i :: 0 <= i < |flags| && flags[i].onFail in {Drop, Deny} ==> Flagged(flags[i], row)
    ensures Rules(EnforcedFlags(flags), row) == []
  {
    if flags != [] {
      EnforcedRules(flags, row);
      EnforcedPass(flags[1..], row);
    }
  }

  /** The row passes every rule it can break. */
  predicate Passes(c: Contract, row: Row) {
    forall i :: 0 <= i < |c.flags| && c.flags[i].onFail in {Drop, Deny} ==> c.flags[i].passes(c.enrich(Raw(c, row)))
  }

  /** A row computed by the contract breaks no rule by its flags exactly when it passes every rule it
      can break. */
  lemma FilterRemoves(c: Contract, row: Row)
    requires WellFormed(c)
    ensures Unbroken(c, Computed(c, row)) <==> Passes(c, row)
  {
    forall i | 0 <= i < |c.flags|
      ensures Flagged(c.flags[i], Computed(c, row)) <==> c.flags[i].passes(c.enrich(Raw(c, row)))
    {
      FlagIs(c, row, i);
    }
    if Passes(c, row) {
      EnforcedPass(c.flags, Computed(c, row));
    } else {
      var i :| 0 <= i < |c.flags| && c.flags[i].onFail in {Drop, Deny} && !c.flags[i].passes(c.enrich(Raw(c, row)));
      EnforcedIn(c.flags, i, Computed(c, row));
    }
  }

  /** The form of a row that a view of the files is taken of. */
  function Form(c: Contract, files: seq<DataFile>, row: Row): Row {
    if FlagsCurrent(Entries(files), c.hash) then row else Computed(c, row)
  }

  /** The flag filter of a view of the files lets the row through. */
  predicate LetsThrough(c: Contract, files: seq<DataFile>, row: Row) {
    Unbroken(c, Form(c, files, row))
  }

  /** Of some rows of the files, the filter lets through just those that pass every rule. */
  ghost predicate FilterExact(c: Contract, files: seq<DataFile>, rows: seq<Row>) {
    forall row :: row in rows ==> (LetsThrough(c, files, row) <==> Passes(c, row))
  }

  /** When the filter is right of the rows, and when it errs to either side only: it passes a failing
      row never, or a passing one always, exactly when their stored flags do, or are not used. */
  lemma FilterExactly(c: Contract, files: seq<DataFile>, rows: seq<Row>)
    requires WellFormed(c)
    ensures var stored := FlagsCurrent(Entries(files), c.hash);
            && (FilterExact(c, files, rows) <==> (stored ==> AllMeet(SameVerdict, c, rows)))
            && ((forall row :: row in rows && LetsThrough(c, files, row) ==> Passes(c, row)) <==>
                (stored ==> forall row :: row in rows && Unbroken(c, row) ==> Unbroken(c, Computed(c, row))))
            && ((forall row :: row in rows && Passes(c, row) ==> LetsThrough(c, files, row)) <==>
                (stored ==> forall row :: row in rows && Unbroken(c, Computed(c, row)) ==> Unbroken(c, row)))
  {
    forall row | row in rows
      ensures Unbroken(c, Computed(c, row)) <==> Passes(c, row)
    {
      FilterRemoves(c, row);
    }
  }

  /** What a view promises: the outputs of the rows admitted that pass every rule, and no others. */
  function Promised(c: Contract, files: seq<DataFile>, rows: seq<Row>): seq<seq<(string, Value)>> {
    if rows == [] then []
    else
      var row := Form(c, files, rows[0]);
      (if c.admits(row) && Passes(c, rows[0]) then [Outputs(c.outputs, row)] else []) + Promised(c, files, rows[1..])
  }

  ghost predicate KeepsPromise(c: Contract, files: seq<DataFile>) {
    forall admits: Row -> bool ::
      View(Admitting(c, admits), files) == Promised(Admitting(c, admits), files, Flatten(files))
  }

  lemma {:induction false} ExactPromised(c: Contract, files: seq<DataFile>, rows: seq<Row>)
    requires FilterExact(c, files, rows)
    ensures ViewOf(c, files, rows) == Promised(c, files, rows)
  {
    if rows != [] {
      assert rows[0] in rows;
      ExactPromised(c, files, rows[1..]);
    }
  }

  /** And a view of stored columns promises every copy of it or none. */
  lemma {:induction false} PromisesOne(c: Contract, files: seq<DataFile>, x: Row, rows: seq<Row>)
    requires FlagsCurrent(Entries(files), c.hash)
    ensures Promised(Admitting(c, r => r == x), files, rows) != [] <==> x in rows && Passes(c, x)
  {
    if rows != [] {
      PromisesOne(c, files, x, rows[1..]);
    }
  }

  /** A view shows the rows admitted that pass every rule it can break, and no others, whichever rows
      are admitted, exactly when it is live or the stored flags say of every row what the rules do. */
  lemma ViewExactly(c: Contract, files: seq<DataFile>)
    requires WellFormed(c)
    ensures KeepsPromise(c, files) <==>
            (FlagsCurrent(Entries(files), c.hash) ==> AllMeet(SameVerdict, c, Flatten(files)))
  {
    var rows := Flatten(files);
    FilterExactly(c, files, rows);
    if FilterExact(c, files, rows) {
      forall admits: Row -> bool
        ensures View(Admitting(c, admits), files) == Promised(Admitting(c, admits), files, rows)
      {
        var d := Admitting(c, admits);
        FilterAdmitting(c, admits, files, rows);
        ExactPromised(d, files, rows);
      }
    } else {
      var x :| x in rows && (LetsThrough(c, files, x) <==> !Passes(c, x));
      ShowsOne(c, x, rows);
      PromisesOne(c, files, x, rows);
      var only := Admitting(c, r => r == x);
      assert View(only, files) != Promised(only, files, rows);
    }
  }

  lemma FilterAdmitting(c: Contract, admits: Row -> bool, files: seq<DataFile>, rows: seq<Row>)
    ensures FilterExact(Admitting(c, admits), files, rows) <==> FilterExact(c, files, rows)
  {
    forall row: Row
      ensures LetsThrough(Admitting(c, admits), files, row) == LetsThrough(c, files, row)
      ensures Passes(Admitting(c, admits), row) == Passes(c, row)
    {
      assert Computed(Admitting(c, admits), row) == Computed(c, row);
    }
  }

  /** After a compaction of a table that was right, its contract's view shows just the rows that pass
      exactly when the flags stored with each row copied say what its rules do of it, or a file of
      another hash is left. */
  lemma CompactionKeeps(t: Table, w: Write, t': Table)
    requires StoredRight(SameVerdict, t) && Step(t, w, t') && NoneForged(t, w) && w.Compacts?
    ensures KeepsPromise(w.under, t'.files) <==>
            (FlagsCurrent(Entries(t'.files), w.under.hash) ==> Copies(SameVerdict, w))
  {
    ViewExactly(w.under, t'.files);
    if FlagsCurrent(Entries(t'.files), w.under.hash) {
      CompactionMeets(SameVerdict, t, w, t');
    }
  }

  /** Rows that meet either standard have flags that say what the rules do. */
  lemma VerdictMet(to: Standard, c: Contract, rows: seq<Row>)
    requires AllMeet(to, c, rows)
    ensures AllMeet(SameVerdict, c, rows)
  {
    forall row | row in rows
      ensures Meets(SameVerdict, c, row)
    {
      assert Meets(to, c, row);
    }
  }

  /** Over any run whose compactions stay within one hash, or copy only rows whose stored flags say
      what the compacting version's rules do (as those stored as it computes them have), every view
      shows just the rows that pass. */
  lemma RunKeepsPromise(to: Standard, ts: seq<Table>, ws: seq<Write>, k: nat, c: Contract)
    requires RunTo(to, ts, ws, k)
    requires c.hash in ts[k].versions && ts[k].versions[c.hash] == c
    ensures KeepsPromise(c, ts[k].files) && FilterExact(c, ts[k].files, Flatten(ts[k].files))
  {
    RunRight(to, ts, ws, k);
    if FlagsCurrent(Entries(ts[k].files), c.hash) {
      CurrentMeets(to, ts[k], c);
      VerdictMet(to, c, Flatten(ts[k].files));
    }
    ViewExactly(c, ts[k].files);
    FilterExactly(c, ts[k].files, Flatten(ts[k].files));
  }

  /** A refusing read is refused exactly when a row of the data fails a rule it can break. That is
      when the filter of the view it would be given removes a row just if the filter is live, or the
      stored flags of the rows all say they pass exactly when the rules do. */
  lemma RefusedWhenRemoving(c: Contract, k: Compilation, m: Manifest, rows: seq<Row>, files: seq<DataFile>)
    requires WellFormed(c) && Decides(c, k) && OneFlagEach(k.flags) && Agrees(k, m, rows, files)
    ensures var refused := Broken(k.flags, m.failures) != [];
            var stored := FlagsCurrent(Entries(files), c.hash);
            && (refused <==> exists row :: row in rows && !Passes(c, row))
            && ((refused <==> exists row :: row in rows && !LetsThrough(c, files, row)) <==>
                (stored ==> ((forall row :: row in rows ==> Unbroken(c, row)) <==>
                             (forall row :: row in rows ==> Unbroken(c, Computed(c, row))))))
            && (FilterExact(c, files, rows) ==>
                  (refused <==> exists row :: row in rows && !LetsThrough(c, files, row)))
  {
    BrokenFor(c, k, m.failures, rows);
    forall row | row in rows
      ensures Unbroken(c, Computed(c, row)) <==> Passes(c, row)
    {
      FilterRemoves(c, row);
    }
  }

  lemma FailsIs(c: Contract, k: Compilation, i: nat, row: Row)
    requires Decides(c, k) && OneFlagEach(k.flags) && i < |k.flags|
    ensures Fails(k.flags, k.flags[i].assertId, row) <==> !c.flags[i].passes(c.enrich(Raw(c, row)))
  {
  }

  lemma FailingBreaks(c: Contract, k: Compilation, failures: map<string, int>, rows: seq<Row>, row: Row)
    requires Decides(c, k) && OneFlagEach(k.flags) && failures == Failures(k.flags, rows) && row in rows
             && !Passes(c, row)
    ensures Broken(k.flags, failures) != []
  {
    BrokenWhen(k.flags, k.flags, failures, rows);
    var i :| 0 <= i < |c.flags| && c.flags[i].onFail in {Drop, Deny} && !c.flags[i].passes(c.enrich(Raw(c, row)));
    FailsIs(c, k, i, row);
    NoFails(k.flags, k.flags[i].assertId, rows);
    assert (k.flags[i].assertId, CountFails(k.flags, k.flags[i].assertId, rows)) in Broken(k.flags, failures);
  }

  lemma BrokenFor(c: Contract, k: Compilation, failures: map<string, int>, rows: seq<Row>)
    requires Decides(c, k) && OneFlagEach(k.flags) && failures == Failures(k.flags, rows)
    ensures Broken(k.flags, failures) != [] <==> exists row :: row in rows && !Passes(c, row)
  {
    if Broken(k.flags, failures) != [] {
      BrokenWhen(k.flags, k.flags, failures, rows);
      var p := Broken(k.flags, failures)[0];
      assert p in Broken(k.flags, failures);
      var i :| 0 <= i < |k.flags| && k.flags[i].onFail in {Drop, Deny}
               && p == (k.flags[i].assertId, CountFails(k.flags, k.flags[i].assertId, rows)) && p.1 > 0;
      NoFails(k.flags, k.flags[i].assertId, rows);
      var row :| row in rows && Fails(k.flags, k.flags[i].assertId, row);
      FailsIs(c, k, i, row);
    } else if exists row :: row in rows && !Passes(c, row) {
      var row :| row in rows && !Passes(c, row);
      FailingBreaks(c, k, failures, rows, row);
    }
  }

  // ── a compaction under a stricter version ───────────────────────────────────

  /** A version with one rule over the column `x`, and its flag in the column `f`. */
  function Versioned(hash: string, passes: Row -> bool): Contract {
    Contract(hash, {"x"}, row => row, [Flag("r", "f", Drop, passes)], [], row => true,
             [Output("x", row => Column(row, "x"))])
  }

  /** Any row passes. */
  function Loose(): Contract {
    Versioned("h1", row => true)
  }

  /** No row passes. */
  function Strict(): Contract {
    Versioned("h2", row => false)
  }

  function Stored(): Row {
    map["x" := Int(1), "f" := Bool(true)]
  }

  function FileOf(path: string, hash: string): DataFile {
    DataFile(path, [Stored()], 1, hash, map[], "")
  }

  lemma VersionedComputes(hash: string, passes: Row -> bool)
    ensures var c := Versioned(hash, passes);
            && WellFormed(c)
            && Computed(c, Stored()) == map["x" := Int(1), "f" := Bool(passes(map["x" := Int(1)]))]
  {
    var c := Versioned(hash, passes);
    var e: Row := map["x" := Int(1)];
    assert Raw(c, Stored()) == e && c.flags[1..] == [];
    assert WithFlags(c.flags, e, e) == e["f" := Bool(passes(e))];
  }

  lemma OneFlagUnbroken(hash: string, passes: Row -> bool, row: Row)
    ensures var c := Versioned(hash, passes); Unbroken(c, row) <==> Column(row, "f") == Bool(true)
  {
    var c := Versioned(hash, passes);
    assert c.flags[1..] == [];
    assert EnforcedFlags(c.flags) == c.flags;
    assert Rules(c.flags, row) == (if Flagged(c.flags[0], row) then [] else ["r"]) + Rules([], row);
  }

  /** A row is written under one version, and compacted under a stricter one with the same flag
      column: the view of the stricter one shows the row, which fails its rule; a live view would
      show nothing. */
  lemma CompactionLeaks() returns (ts: seq<Table>, ws: seq<Write>)
    ensures ws == [Appends(Loose(), [FileOf("a", "h1")]),
                   Compacts(Strict(), [FileOf("a", "h1")], [], [FileOf("b", "h2")])]
    ensures Run(ts, ws) && |ts| == 3
    ensures ts[2] == Table([FileOf("b", "h2")], map["h1" := Loose(), "h2" := Strict()])
    ensures View(Strict(), ts[2].files) == [[("x", Int(1))]] && !Passes(Strict(), Stored())
    ensures LiveView(Strict(), Flatten(ts[2].files)) == []
  {
    ts, ws := LeakRun(FileOf("a", "h1"), FileOf("b", "h2"), Loose(), Strict());
    VersionedComputes("h2", row => false);
    LeakViews(FileOf("b", "h2"));
  }

  lemma LeakRun(a: DataFile, b: DataFile, loose: Contract, strict: Contract)
    returns (ts: seq<Table>, ws: seq<Write>)
    requires a == FileOf("a", "h1") && b == FileOf("b", "h2") && loose == Loose() && strict == Strict()
    ensures ws == [Appends(loose, [a]), Compacts(strict, [a], [], [b])] && Run(ts, ws)
    ensures ts == [Table([], map[]), Table([a], map["h1" := loose]), Table([b], map["h1" := loose, "h2" := strict])]
  {
    VersionedComputes("h1", row => true);
    VersionedComputes("h2", row => false);
    LeakWritten(loose, a);
    LeakCopied(strict, a, b);
    ts, ws := TwoWrites(Table([a], map["h1" := loose]), Appends(loose, [a]),
                        Table([b], map["h1" := loose, "h2" := strict]), Compacts(strict, [a], [], [b]));
  }

  lemma TwoWrites(t: Table, w: Write, t': Table, w': Write) returns (ts: seq<Table>, ws: seq<Write>)
    requires Step(Table([], map[]), w, t) && NoneForged(Table([], map[]), w) && Step(t, w', t') && NoneForged(t, w')
    ensures Run(ts, ws) && ts == [Table([], map[]), t, t'] && ws == [w, w']
  {
    ts, ws := Chain((x, v, y) => Step(x, v, y) && NoneForged(x, v), Table([], map[]), w, t, w', t');
  }

  lemma LeakWritten(c: Contract, a: DataFile)
    requires a == FileOf("a", "h1") && c == Loose() && WellFormed(c) && Computed(c, Stored()) == Stored()
    ensures var (t, w) := (Table([], map[]), Appends(c, [a]));
            Step(t, w, Table([a], map["h1" := c])) && NoneForged(t, w)
  {
    assert Stored() == Computed(c, Stored());
    assert [] + [a] == [a];
  }

  lemma FlattenOne(f: DataFile)
    ensures Flatten([f]) == f.rows
  {
    assert [f][1..] == [];
  }

  lemma LeakCopied(c: Contract, a: DataFile, b: DataFile)
    requires a.rows == b.rows && a.contractHash == "h1" && b.contractHash == c.hash == "h2" && WellFormed(c)
    ensures var (t, w) := (Table([a], map["h1" := Loose()]), Compacts(c, [a], [], [b]));
            Step(t, w, Table([b], map["h1" := Loose(), "h2" := c])) && NoneForged(t, w)
  {
    assert [] + [b] == [b];
    FlattenOne(a);
    FlattenOne(b);
    assert multiset([a]) == multiset([a]) + multiset([]);
  }

  lemma LeakViews(b: DataFile)
    requires b == FileOf("b", "h2")
    requires Computed(Strict(), Stored()) == map["x" := Int(1), "f" := Bool(false)]
    ensures View(Strict(), [b]) == [[("x", Int(1))]] && !Passes(Strict(), Stored())
    ensures LiveView(Strict(), Flatten([b])) == []
  {
    var c := Strict();
    EntriesAt([b]);
    assert Flatten([b]) == [Stored()] && [Stored()][1..] == [];
    OneFlagUnbroken("h2", row => false, Stored());
    OneFlagUnbroken("h2", row => false, Computed(c, Stored()));
    assert c.outputs[1..] == [];
    assert Outputs(c.outputs, Stored()) == [("x", Int(1))];
    assert !c.flags[0].passes(c.enrich(Raw(c, Stored()))) && c.flags[0].onFail in {Drop, Deny};
  }

  /** Where the stored flags hide rows that all pass, a refusing read is not refused, though the
      filter removes some. */
  lemma HiddenNotRefused(c: Contract, k: Compilation, m: Manifest, rows: seq<Row>, files: seq<DataFile>, row: Row)
    requires WellFormed(c) && Decides(c, k) && OneFlagEach(k.flags) && Agrees(k, m, rows, files)
    requires FlagsCurrent(Entries(files), c.hash) && row in rows && !Unbroken(c, row)
    requires forall r :: r in rows ==> Passes(c, r)
    ensures Broken(k.flags, m.failures) == [] && !LetsThrough(c, files, row)
  {
    RefusedWhenRemoving(c, k, m, rows, files);
  }

  /** What a resolution counts: for each rule a row can break, the rows of the data that fail it;
      a rule is named exactly when one does. */
  lemma ExcludedCounts(k: Compilation, m: Manifest, rows: seq<Row>, files: seq<DataFile>, id: string, n: int)
    requires OneFlagEach(k.flags) && Agrees(k, m, rows, files)
    ensures (id, n) in Broken(k.flags, m.failures) <==>
            n > 0 && n == CountFails(k.flags, id, rows)
            && exists i :: 0 <= i < |k.flags| && k.flags[i].assertId == id && k.flags[i].onFail in {Drop, Deny}
  {
    BrokenWhen(k.flags, k.flags, m.failures, rows);
  }
}
