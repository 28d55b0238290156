/**
 Manifests as values, and the function that takes an old manifest and a write's own to the new one
 without looking at old rows. `Agrees` is the reference they are held to: a validation of every row.
 */
module Facts {
  import opened Wrappers
  import opened Order
  import opened Rows
  import opened Manifests
  import opened NullRate

  // ── contracts ───────────────────────────────────────────────────────────────

  datatype OnFail = Drop | Deny | Report

  /** An assert: its id, the flag column it writes, and the rows it passes. */
  datatype Flag = Flag(assertId: string, column: string, onFail: OnFail, passes: Row -> bool)

  datatype Type = IntT | UintT | DoubleT | DecimalT(scale: nat) | StringT | BoolT | TimestampT | OtherT

  datatype ColumnStat = NullCount | NullRate | MinStat | MaxStat | DistinctCount

  datatype Field = RowCount | PassRate(assertion: string) | OfColumn(name: string, stat: ColumnStat) | OtherField

  datatype Stat = Stat(column: string, ty: Type, field: Field)

  datatype Guarantee = Guarantee(id: string, deny: bool)

  /** What the facts take from elsewhere: rounding, the reading of decimals and instants, and
      the hash of a text. */
  datatype Library = Library(
    fl: real -> real,
    decimal: (string, nat) -> Option<int>,
    instant: string -> Option<int>,
    sha: string -> string)

  datatype Compilation = Compilation(
    name: string,
    contractHash: string,
    compilationHash: string,
    flags: seq<Flag>,
    stats: seq<Stat>,
    guarantees: seq<Guarantee>,
    lib: Library)

  ghost predicate CompilationOk(c: Compilation) {
    && (forall i, j :: 0 <= i < j < |c.stats| ==> c.stats[i].column != c.stats[j].column)
    && Rounds(c.lib.fl)
  }

  function Asserts(flags: seq<Flag>): set<string> {
    set i | 0 <= i < |flags| :: flags[i].assertId
  }

  // ── what validating rows finds ──────────────────────────────────────────────

  predicate Fails(flags: seq<Flag>, assertion: string, row: Row) {
    exists i :: 0 <= i < |flags| && flags[i].assertId == assertion && !flags[i].passes(row)
  }

  function CountFails(flags: seq<Flag>, assertion: string, rows: seq<Row>): nat {
    if rows == [] then 0
    else (if Fails(flags, assertion, rows[0]) then 1 else 0) + CountFails(flags, assertion, rows[1..])
  }

  function Failures(flags: seq<Flag>, rows: seq<Row>): map<string, int> {
    map a | a in Asserts(flags) :: CountFails(flags, a, rows)
  }

  function Nulls(column: string, rows: seq<Row>): nat {
    if rows == [] then 0 else (if Column(rows[0], column) == Null then 1 else 0) + Nulls(column, rows[1..])
  }

  function PassRateOf(lib: Library, failed: int, rows: int): real {
    if rows > 0 then lib.fl(1.0 - lib.fl(failed as real / rows as real)) else 1.0
  }

  function DistinctValues(column: string, rows: seq<Row>): set<Value> {
    set r | r in rows && Column(r, column) != Null :: Column(r, column)
  }

  datatype Key = NumKey(r: real) | StrKey(s: string) | BoolKey(b: bool)

  /** What a value of a type is compared by; a value that is not of the type has no key. */
  function KeyOf(lib: Library, ty: Type, v: Value): Option<Key> {
    match (ty, v)
    case (IntT, Int(i)) => if AsI64(v).Some? then Some(NumKey(i as real)) else None
    case (UintT, Int(i)) => if 0 <= i < 0x1_0000_0000_0000_0000 then Some(NumKey(i as real)) else None
    case (DoubleT, Int(i)) => Some(NumKey(i as real))
    case (DoubleT, Real(r)) => Some(NumKey(r))
    case (DecimalT(scale), Str(s)) =>
      var d := lib.decimal(s, scale);
      if d.Some? then Some(NumKey(d.value as real)) else None
    case (StringT, Str(s)) => Some(StrKey(s))
    case (BoolT, Bool(b)) => Some(BoolKey(b))
    case (TimestampT, Str(s)) =>
      var t := lib.instant(s);
      if t.Some? then Some(NumKey(t.value as real)) else None
    case _ => None
  }

  predicate KeyLess(a: Key, b: Key) {
    match (a, b)
    case (NumKey(x), NumKey(y)) => x < y
    case (StrKey(x), StrKey(y)) => Before(x, y)
    case (BoolKey(x), BoolKey(y)) => !x && y
    case _ => false
  }

  /** Whether `a` is further out than `b`: less for a minimum, greater for a maximum. */
  predicate Beyond(a: Key, b: Key, least: bool) {
    if least then KeyLess(a, b) else KeyLess(b, a)
  }

  /** Values of a type, each type's own: integers of 64 bits, numbers, texts that read as decimals or
      instants, any text, truth values. */
  ghost predicate OfType(lib: Library, ty: Type, v: Value) {
    match ty
    case IntT => v.Int? && -0x8000_0000_0000_0000 <= v.i < 0x8000_0000_0000_0000
    case UintT => v.Int? && 0 <= v.i < 0x1_0000_0000_0000_0000
    case DoubleT => v.Int? || v.Real?
    case DecimalT(scale) => v.Str? && lib.decimal(v.s, scale).Some?
    case StringT => v.Str?
    case BoolT => v.Bool?
    case TimestampT => v.Str? && lib.instant(v.s).Some?
    case OtherT => false
  }

  ghost function Number(v: Value): real {
    if v.Int? then v.i as real else if v.Real? then v.r else 0.0
  }

  /** `a` is not above `b`, in the order of their type: numbers by size, texts by the first character
      that differs, decimals and instants by what they stand for, false before true. */
  ghost predicate NotAbove(lib: Library, ty: Type, a: Value, b: Value)
    requires OfType(lib, ty, a) && OfType(lib, ty, b)
  {
    match ty
    case IntT => a.i <= b.i
    case UintT => a.i <= b.i
    case DoubleT => Number(a) <= Number(b)
    case DecimalT(scale) => lib.decimal(a.s, scale).value <= lib.decimal(b.s, scale).value
    case StringT => a.s == b.s || FirstLess(a.s, b.s)
    case BoolT => a.b ==> b.b
    case TimestampT => lib.instant(a.s).value <= lib.instant(b.s).value
    case OtherT => false
  }

  /** `v` is the least or greatest value of the column over the rows; null when none has one. */
  ghost predicate IsExtreme(lib: Library, ty: Type, column: string, rows: seq<Row>, least: bool, v: Value) {
    if v == Null then forall r :: r in rows ==> Column(r, column) == Null
    else
      && (exists r :: r in rows && Column(r, column) == v)
      && OfType(lib, ty, v)
      && forall r :: r in rows && Column(r, column) != Null ==>
           && OfType(lib, ty, Column(r, column))
           && if least then NotAbove(lib, ty, v, Column(r, column)) else NotAbove(lib, ty, Column(r, column), v)
  }

  /** What validating `rows` finds for a statistic; an aggregate of the contract's own may be
      anything. Rates are rounded at each operation. */
  ghost predicate IsStat(c: Compilation, s: Stat, rows: seq<Row>, v: Value) {
    match s.field
    case RowCount => v == Int(|rows|)
    case PassRate(a) =>
      var failed := if a in Asserts(c.flags) then CountFails(c.flags, a, rows) else 0;
      v == Real(if rows == [] then 1.0 else c.lib.fl(1.0 - c.lib.fl(failed as real / |rows| as real)))
    case OfColumn(column, NullCount) => v == Int(Nulls(column, rows))
    case OfColumn(column, NullRate) =>
      v == Real(if rows == [] then 0.0 else c.lib.fl(Nulls(column, rows) as real / |rows| as real))
    case OfColumn(column, MinStat) => IsExtreme(c.lib, s.ty, column, rows, true, v)
    case OfColumn(column, MaxStat) => IsExtreme(c.lib, s.ty, column, rows, false, v)
    case OfColumn(column, DistinctCount) => v == Int(|DistinctValues(column, rows)|)
    case OtherField => true
  }

  // ── combining ───────────────────────────────────────────────────────────────

  function AsI64(v: Value): Option<int> {
    if v.Int? && -0x8000_0000_0000_0000 <= v.i < 0x8000_0000_0000_0000 then Some(v.i) else None
  }

  function AsF64(v: Value): Option<real> {
    match v
    case Real(r) => Some(r)
    case Int(i) => Some(i as real)
    case _ => None
  }

  /** The extreme of two extremes. Null means none of those rows had a value. */
  function Extreme(lib: Library, ty: Type, x: Value, y: Value, least: bool): Option<Value> {
    if x == Null then Some(y)
    else if y == Null then Some(x)
    else
      var j, k := KeyOf(lib, ty, x), KeyOf(lib, ty, y);
      if j.None? || k.None? then None
      else Some(if Beyond(j.value, k.value, least) then x else y)
  }

  function NullsOf(c: Compilation, rate: Value, rows: int): Option<int> {
    var r := AsF64(rate);
    if r.None? || rows < 0 then None else Some(CountOf(c.lib.fl, r.value, rows))
  }

  function StatOf(m: Manifest, column: string): Option<Value> {
    if column in m.stats then Some(m.stats[column]) else None
  }

  function FailuresOf(m: Manifest, assertion: string): int {
    if assertion in m.failures then m.failures[assertion] else 0
  }

  /** A statistic of two sets of rows together, when it combines. */
  function Combined(c: Compilation, s: Stat, a: Manifest, b: Manifest, rows: int,
                    failures: map<string, int>): Option<Value>
  {
    var x, y := StatOf(a, s.column), StatOf(b, s.column);
    match s.field
    case RowCount => Some(Int(rows))
    case PassRate(id) => Some(Real(PassRateOf(c.lib, if id in failures then failures[id] else 0, rows)))
    case OfColumn(_, stat) =>
      if x.None? || y.None? then None
      else (
        match stat
        case NullCount =>
          var m, n := AsI64(x.value), AsI64(y.value);
          if m.None? || n.None? then None else Some(Int(m.value + n.value))
        case NullRate =>
          var m, n := NullsOf(c, x.value, a.rowCount), NullsOf(c, y.value, b.rowCount);
          if m.None? || n.None? then None
          else Some(Real(if rows > 0 then c.lib.fl((m.value + n.value) as real / rows as real) else 0.0))
        case MinStat => Extreme(c.lib, s.ty, x.value, y.value, true)
        case MaxStat => Extreme(c.lib, s.ty, x.value, y.value, false)
        case DistinctCount => None
      )
    case OtherField => None
  }

  /** Each statistic's column and what combines for it. */
  function Each(c: Compilation, a: Manifest, b: Manifest, rows: int,
                failures: map<string, int>): seq<(string, Option<Value>)>
  {
    seq(|c.stats|, i requires 0 <= i < |c.stats| => (c.stats[i].column, Combined(c, c.stats[i], a, b, rows, failures)))
  }

  /** The values there are, by column. */
  function Gather(vs: seq<(string, Option<Value>)>): map<string, Value> {
    if vs == [] then map[]
    else
      var (rest, last) := (Gather(vs[..|vs| - 1]), vs[|vs| - 1]);
      if last.1.Some? then rest[last.0 := last.1.value] else rest
  }

  function CombinedStats(c: Compilation, a: Manifest, b: Manifest, rows: int,
                         failures: map<string, int>): map<string, Value>
  {
    Gather(Each(c, a, b, rows, failures))
  }

  method CombineStats(c: Compilation, a: Manifest, b: Manifest, rows: int, failures: map<string, int>)
    returns (out: map<string, Value>)
    ensures out == CombinedStats(c, a, b, rows, failures)
  {
    out := map[];
    ghost var each := Each(c, a, b, rows, failures);
    for i := 0 to |c.stats|
      invariant out == Gather(each[..i])
    {
      assert each[..i + 1][..i] == each[..i];
      var v := Combined(c, c.stats[i], a, b, rows, failures);
      if v.Some? {
        out := out[c.stats[i].column := v.value];
      }
    }
    assert each[..|c.stats|] == each;
  }

  // ── verdicts ────────────────────────────────────────────────────────────────

  /** The ids of the asserts that make data invalid. */
  function FailedAsserts(flags: seq<Flag>, failures: map<string, int>): seq<string> {
    if flags == [] then []
    else
      (if flags[0].onFail == Deny && flags[0].assertId in failures && failures[flags[0].assertId] > 0
       then [flags[0].assertId] else []) + FailedAsserts(flags[1..], failures)
  }

  function FailedGuarantees(gs: seq<Guarantee>, checks: map<string, Check>): seq<string> {
    if gs == [] then []
    else
      (if gs[0].deny && gs[0].id in checks && !checks[gs[0].id].holds then [gs[0].id] else [])
      + FailedGuarantees(gs[1..], checks)
  }

  function Breached(c: Compilation, failures: map<string, int>, checks: map<string, Check>): seq<string> {
    FailedAsserts(c.flags, failures) + FailedGuarantees(c.guarantees, checks)
  }

  method ComputeBreached(c: Compilation, failures: map<string, int>, checks: map<string, Check>)
    returns (out: seq<string>)
    ensures out == Breached(c, failures, checks)
  {
    out := FailedAsserts(c.flags, failures);
    for i := 0 to |c.guarantees|
      invariant out + FailedGuarantees(c.guarantees[i..], checks) == Breached(c, failures, checks)
    {
      var g := c.guarantees[i];
      assert c.guarantees[i..][1..] == c.guarantees[i + 1..];
      if g.deny && g.id in checks && !checks[g.id].holds {
        out := out + [g.id];
      }
    }
  }

  // ── after a write ───────────────────────────────────────────────────────────

  datatype Written = Append | Overwrite | Rewrite

  /** A write's own manifest under some contract and, for a rewrite, which paths it takes away. */
  datatype WriteFacts = WriteFacts(written: Written, facts: Manifest, removed: seq<string>)

  datatype FactsError = NothingToReplace | NotListed | RowsDiffer(gone: int, written: int) | Misfiled

  /** The entries whose path is (`inside`) or is not one of `paths`. */
  function Pick(files: seq<FileEntry>, paths: set<string>, inside: bool): seq<FileEntry> {
    if files == [] then []
    else (if (files[0].path in paths) == inside then [files[0]] else []) + Pick(files[1..], paths, inside)
  }

  function EntryRows(files: seq<FileEntry>): int {
    if files == [] then 0 else files[0].rows + EntryRows(files[1..])
  }

  function PathSet(paths: seq<string>): set<string> {
    set p | p in paths
  }

  /** The facts in their final form: files in path order, the hash of them, the verdict. */
  function Settle(c: Compilation, m: Manifest, snapshotId: Option<nat>): Manifest {
    var files := Sorted(m.files);
    var breached := Breached(c, m.failures, m.guarantees);
    m.(files := files, dataHash := c.lib.sha(HashText(files)), snapshotId := snapshotId,
       breached := breached, valid := breached == [])
  }

  function Replace(c: Compilation, b: Manifest, write: WriteFacts): Result<Manifest, FactsError> {
    var w, removed := write.facts, PathSet(write.removed);
    var gone := Pick(b.files, removed, true);
    if |gone| != |removed| then Err(NotListed)
    else if EntryRows(gone) != w.rowCount then Err(RowsDiffer(EntryRows(gone), w.rowCount))
    else Ok(b.(files := Pick(b.files, removed, false) + w.files))
  }

  function Extend(c: Compilation, b: Manifest, w: Manifest, writtenAt: int): Manifest {
    var rows := b.rowCount + w.rowCount;
    var failures := map a | a in Asserts(c.flags) :: FailuresOf(b, a) + FailuresOf(w, a);
    w.(writtenAt := writtenAt, rowCount := rows, failures := failures,
       stats := CombinedStats(c, b, w, rows, failures),
       files := b.files + w.files, guarantees := b.guarantees)
  }

  /** The manifest after a write, given the one before it (none: the data was empty). There is no
      manifest after it when either side carries another compilation's hash. */
  function AfterWrite(c: Compilation, before: Option<Manifest>, write: WriteFacts, writtenAt: int,
                      snapshotId: Option<nat>):
    Result<Option<Manifest>, FactsError>
  {
    var w := write.facts;
    if w.compilationHash != c.compilationHash then Ok(None)
    else if write.written == Overwrite || (write.written == Append && before.None?) then
      Ok(Some(Settle(c, w.(writtenAt := writtenAt, guarantees := map[]), snapshotId)))
    else if before.None? then Err(NothingToReplace)
    else if before.value.compilationHash != c.compilationHash then Ok(None)
    else if write.written == Rewrite then
      var m := Replace(c, before.value, write);
      if m.Err? then Err(m.error) else Ok(Some(Settle(c, m.value, snapshotId)))
    else Ok(Some(Settle(c, Extend(c, before.value, w, writtenAt), snapshotId)))
  }

  // ── agreement with the whole data ───────────────────────────────────────────

  /** Every fact `m` holds is what validating every one of `rows`, in `files`, finds: its files are
      listed in whatever order the directory or the table gave them. */
  ghost predicate Agrees(c: Compilation, m: Manifest, rows: seq<Row>, files: seq<DataFile>) {
    && m.compilationHash == c.compilationHash
    && m.rowCount == |rows|
    && m.failures == Failures(c.flags, rows)
    && multiset(m.files) == multiset(Entries(files))
    && m.dataHash == c.lib.sha(HashText(Entries(files)))
    && m.breached == Breached(c, m.failures, m.guarantees) && (m.valid <==> m.breached == [])
    && StatsAgree(c, m.stats, rows)
  }

  ghost predicate StatsAgree(c: Compilation, stats: map<string, Value>, rows: seq<Row>) {
    forall s :: s in c.stats && s.column in stats ==> IsStat(c, s, rows, stats[s.column])
  }
}
