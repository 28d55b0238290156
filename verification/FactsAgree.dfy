/**
 That the facts a write leaves agree with validating every row: after an append, an overwrite and
 a rewrite, for any rows, files and contract.
 */
module FactsAgree {
  import opened Wrappers
  import opened Order
  import opened Rows
  import opened Manifests
  import opened NullRate
  import opened Facts

  // ── counts over rows ────────────────────────────────────────────────────────

  lemma {:induction false} CountFailsConcat(flags: seq<Flag>, a: string, x: seq<Row>, y: seq<Row>)
    ensures CountFails(flags, a, x + y) == CountFails(flags, a, x) + CountFails(flags, a, y)
  {
    if x == [] {
      assert x + y == y;
    } else {
      assert (x + y)[1..] == x[1..] + y;
      CountFailsConcat(flags, a, x[1..], y);
    }
  }

  lemma {:induction false} NullsConcat(column: string, x: seq<Row>, y: seq<Row>)
    ensures Nulls(column, x + y) == Nulls(column, x) + Nulls(column, y)
  {
    if x == [] {
      assert x + y == y;
    } else {
      assert (x + y)[1..] == x[1..] + y;
      NullsConcat(column, x[1..], y);
    }
  }

  lemma {:induction false} NullsAtMost(column: string, x: seq<Row>)
    ensures Nulls(column, x) <= |x|
  {
    if x != [] {
      NullsAtMost(column, x[1..]);
    }
  }

  lemma {:induction false} CountFailsPermuted(flags: seq<Flag>, a: string, x: seq<Row>, y: seq<Row>)
    requires multiset(x) == multiset(y)
    ensures CountFails(flags, a, x) == CountFails(flags, a, y)
    decreases |x|
  {
    SameLength(x, y);
    if x != [] {
      var i := TakeFirst(x, y);
      CountFailsPermuted(flags, a, x[1..], y[..i] + y[i + 1..]);
      CountFailsConcat(flags, a, y[..i], y[i + 1..]);
      assert y == y[..i] + ([y[i]] + y[i + 1..]);
      CountFailsConcat(flags, a, y[..i], [y[i]] + y[i + 1..]);
      assert ([y[i]] + y[i + 1..])[1..] == y[i + 1..];
    }
  }

  lemma {:induction false} NullsPermuted(column: string, x: seq<Row>, y: seq<Row>)
    requires multiset(x) == multiset(y)
    ensures Nulls(column, x) == Nulls(column, y)
    decreases |x|
  {
    SameLength(x, y);
    if x != [] {
      var i := TakeFirst(x, y);
      NullsPermuted(column, x[1..], y[..i] + y[i + 1..]);
      NullsConcat(column, y[..i], y[i + 1..]);
      assert y == y[..i] + ([y[i]] + y[i + 1..]);
      NullsConcat(column, y[..i], [y[i]] + y[i + 1..]);
      assert ([y[i]] + y[i + 1..])[1..] == y[i + 1..];
    }
  }

  /** Which of the rows fail an assert, and which are null in a column. */
  ghost function FailingAt(flags: seq<Flag>, assertion: string, rows: seq<Row>): set<int> {
    set k | 0 <= k < |rows|
            && exists i :: 0 <= i < |flags| && flags[i].assertId == assertion && !flags[i].passes(rows[k])
  }

  ghost function NullAt(column: string, rows: seq<Row>): set<int> {
    set k | 0 <= k < |rows| && (column in rows[k] ==> rows[k][column] == Null)
  }

  /** What is counted is rows, each once. */
  lemma CountsAre(flags: seq<Flag>, assertion: string, column: string, rows: seq<Row>)
    ensures CountFails(flags, assertion, rows) == |FailingAt(flags, assertion, rows)|
    ensures Nulls(column, rows) == |NullAt(column, rows)|
  {
    var fails := (row: Row) => Fails(flags, assertion, row);
    var isNull := (row: Row) => column in row ==> row[column] == Null;
    FailsPlaces(flags, assertion, rows, fails);
    NullPlaces(column, rows, isNull);
    assert Places(rows, fails) == FailingAt(flags, assertion, rows);
    assert Places(rows, isNull) == NullAt(column, rows);
  }

  lemma {:induction false} FailsPlaces(flags: seq<Flag>, assertion: string, rows: seq<Row>, fails: Row -> bool)
    requires forall row :: fails(row) <==> Fails(flags, assertion, row)
    ensures CountFails(flags, assertion, rows) == |Places(rows, fails)|
  {
    if rows != [] {
      FailsPlaces(flags, assertion, rows[1..], fails);
      PlacesStep(rows, fails);
    }
  }

  lemma {:induction false} NullPlaces(column: string, rows: seq<Row>, isNull: Row -> bool)
    requires forall row: Row :: isNull(row) <==> Column(row, column) == Null
    ensures Nulls(column, rows) == |Places(rows, isNull)|
  {
    if rows != [] {
      NullPlaces(column, rows[1..], isNull);
      PlacesStep(rows, isNull);
    }
  }

  // ── extremes ────────────────────────────────────────────────────────────────

  predicate SameKind(a: Key, b: Key) {
    (a.NumKey? && b.NumKey?) || (a.StrKey? && b.StrKey?) || (a.BoolKey? && b.BoolKey?)
  }

  lemma OneKind(lib: Library, ty: Type, u: Value, v: Value)
    requires KeyOf(lib, ty, u).Some? && KeyOf(lib, ty, v).Some?
    ensures SameKind(KeyOf(lib, ty, u).value, KeyOf(lib, ty, v).value)
  {
  }

  /** Values of one type are ordered: what is beyond `b` or level with it is never passed by going
      back through `b`. */
  lemma BeyondOrders(a: Key, b: Key, c: Key, least: bool)
    requires SameKind(a, b) && SameKind(b, c)
    ensures Beyond(a, b, least) && Beyond(b, c, least) ==> Beyond(a, c, least)
    ensures Beyond(a, c, least) ==> Beyond(a, b, least) || Beyond(b, c, least)
    ensures !(Beyond(a, b, least) && Beyond(b, a, least))
  {
    if a.StrKey? {
      Total(a.s, b.s);
      Total(b.s, c.s);
      Total(a.s, c.s);
      StringsOrder(a.s, b.s, c.s);
      StringsOrder(c.s, b.s, a.s);
    }
  }

  lemma StringsOrder(a: string, b: string, c: string)
    ensures Before(a, b) && Before(b, c) ==> Before(a, c)
    ensures Before(a, c) ==> Before(a, b) || Before(b, c)
  {
    Total(a, b);
    Total(b, c);
    if Before(a, b) && Before(b, c) {
      Transitive(a, b, c);
    }
    if Before(a, c) && !Before(a, b) && a != b {
      Transitive(b, a, c);
    }
  }

  /** The keys that values are compared by order them as their types do. */
  lemma KeysOrder(lib: Library, ty: Type, a: Value, b: Value)
    ensures KeyOf(lib, ty, a).Some? <==> OfType(lib, ty, a)
    ensures OfType(lib, ty, a) && OfType(lib, ty, b) ==>
              (!KeyLess(KeyOf(lib, ty, b).value, KeyOf(lib, ty, a).value) <==> NotAbove(lib, ty, a, b))
  {
    if ty.StringT? && a.Str? && b.Str? {
      Total(a.s, b.s);
      BeforeIs(a.s, b.s);
    }
  }

  /** The least or greatest value by those keys. */
  ghost predicate KeyExtreme(lib: Library, ty: Type, column: string, rows: seq<Row>, least: bool, v: Value) {
    if v == Null then forall r :: r in rows ==> Column(r, column) == Null
    else
      && (exists r :: r in rows && Column(r, column) == v)
      && KeyOf(lib, ty, v).Some?
      && forall r :: r in rows && Column(r, column) != Null ==>
           var k := KeyOf(lib, ty, Column(r, column));
           k.Some? && !Beyond(k.value, KeyOf(lib, ty, v).value, least)
  }

  lemma ExtremeByKey(lib: Library, ty: Type, column: string, rows: seq<Row>, least: bool, v: Value)
    ensures IsExtreme(lib, ty, column, rows, least, v) <==> KeyExtreme(lib, ty, column, rows, least, v)
  {
    forall r | r in rows
      ensures KeyOf(lib, ty, Column(r, column)).Some? <==> OfType(lib, ty, Column(r, column))
      ensures OfType(lib, ty, v) && OfType(lib, ty, Column(r, column)) ==>
                (!Beyond(KeyOf(lib, ty, Column(r, column)).value, KeyOf(lib, ty, v).value, least) <==>
                 if least then NotAbove(lib, ty, v, Column(r, column)) else NotAbove(lib, ty, Column(r, column), v))
    {
      KeysOrder(lib, ty, v, Column(r, column));
      KeysOrder(lib, ty, Column(r, column), v);
    }
    KeysOrder(lib, ty, v, v);
  }

  /** An extreme of some rows stays one of more rows when nothing among the others is beyond it. */
  lemma ExtremeOver(lib: Library, ty: Type, column: string, x: seq<Row>, y: seq<Row>, least: bool, v: Value, u: Value)
    requires KeyExtreme(lib, ty, column, x, least, v) && KeyExtreme(lib, ty, column, y, least, u)
    requires v != Null
    requires u != Null ==> !Beyond(KeyOf(lib, ty, u).value, KeyOf(lib, ty, v).value, least)
    ensures KeyExtreme(lib, ty, column, x + y, least, v) && KeyExtreme(lib, ty, column, y + x, least, v)
  {
    forall r | r in y && Column(r, column) != Null
      ensures var k := KeyOf(lib, ty, Column(r, column));
              k.Some? && !Beyond(k.value, KeyOf(lib, ty, v).value, least)
    {
      OneKind(lib, ty, Column(r, column), u);
      OneKind(lib, ty, u, v);
      BeyondOrders(KeyOf(lib, ty, Column(r, column)).value, KeyOf(lib, ty, u).value, KeyOf(lib, ty, v).value, least);
    }
  }

  lemma KeyAppend(lib: Library, ty: Type, column: string, x: seq<Row>, y: seq<Row>, least: bool, v: Value, u: Value)
    requires KeyExtreme(lib, ty, column, x, least, v) && KeyExtreme(lib, ty, column, y, least, u)
    ensures Extreme(lib, ty, v, u, least).Some?
    ensures KeyExtreme(lib, ty, column, x + y, least, Extreme(lib, ty, v, u, least).value)
  {
    if v == Null {
      if u != Null {
        ExtremeOver(lib, ty, column, y, x, least, u, v);
      }
    } else if u == Null {
      ExtremeOver(lib, ty, column, x, y, least, v, u);
    } else {
      OneKind(lib, ty, v, u);
      var j, k := KeyOf(lib, ty, v).value, KeyOf(lib, ty, u).value;
      BeyondOrders(j, k, j, least);
      if Beyond(j, k, least) {
        ExtremeOver(lib, ty, column, x, y, least, v, u);
      } else {
        ExtremeOver(lib, ty, column, y, x, least, u, v);
      }
    }
  }

  /** The extreme of two sets of rows is always found, and is that of all the rows: of values that
      stand level, the second set's. */
  lemma ExtremeAppend(lib: Library, ty: Type, column: string, x: seq<Row>, y: seq<Row>, least: bool, v: Value, u: Value)
    requires IsExtreme(lib, ty, column, x, least, v) && IsExtreme(lib, ty, column, y, least, u)
    ensures Extreme(lib, ty, v, u, least).Some?
    ensures IsExtreme(lib, ty, column, x + y, least, Extreme(lib, ty, v, u, least).value)
    ensures v != Null && u != Null && NotAbove(lib, ty, v, u) && NotAbove(lib, ty, u, v) ==>
              Extreme(lib, ty, v, u, least) == Some(u)
  {
    ExtremeByKey(lib, ty, column, x, least, v);
    ExtremeByKey(lib, ty, column, y, least, u);
    KeyAppend(lib, ty, column, x, y, least, v, u);
    ExtremeByKey(lib, ty, column, x + y, least, Extreme(lib, ty, v, u, least).value);
    KeysOrder(lib, ty, v, u);
    KeysOrder(lib, ty, u, v);
  }

  lemma ExtremePermuted(lib: Library, ty: Type, column: string, x: seq<Row>, y: seq<Row>, least: bool, v: Value)
    requires multiset(x) == multiset(y) && IsExtreme(lib, ty, column, x, least, v)
    ensures IsExtreme(lib, ty, column, y, least, v)
  {
    SameRowsIn(x, y);
  }

  lemma SameRowsIn(x: seq<Row>, y: seq<Row>)
    requires multiset(x) == multiset(y)
    ensures forall r :: r in x <==> r in y
  {
    assert forall r :: r in x <==> r in multiset(x);
    assert forall r :: r in y <==> r in multiset(y);
  }

  // ── statistics ──────────────────────────────────────────────────────────────

  /** The rows a contract's statistics can count: any number, or, where a null rate is kept, fewer
      than 2^50. */
  ghost predicate Fits(c: Compilation, rows: nat) {
    (forall s :: s in c.stats ==> !(s.field.OfColumn? && s.field.stat == NullRate)) || rows < ROWS_LIMIT
  }

  lemma RateAppend(c: Compilation, column: string, x: seq<Row>, y: seq<Row>)
    requires Rounds(c.lib.fl) && |x| + |y| < ROWS_LIMIT
    ensures NullsOf(c, Real(Rate(c.lib.fl, Nulls(column, x), |x|)), |x|) == Some(Nulls(column, x))
    ensures NullsOf(c, Real(Rate(c.lib.fl, Nulls(column, y), |y|)), |y|) == Some(Nulls(column, y))
    ensures Nulls(column, x + y) == Nulls(column, x) + Nulls(column, y)
  {
    NullsAtMost(column, x);
    NullsAtMost(column, y);
    CountRecovered(c.lib.fl, Nulls(column, x), |x|);
    CountRecovered(c.lib.fl, Nulls(column, y), |y|);
    NullsConcat(column, x, y);
  }

  /** A pass rate is the share of rows that pass, to within the rounding of its two operations. */
  lemma PassRateNear(lib: Library, failed: nat, rows: nat)
    requires Rounds(lib.fl) && failed <= rows
    ensures rows == 0 ==> PassRateOf(lib, failed, rows) == 1.0
    ensures rows > 0 ==> Abs(PassRateOf(lib, failed, rows) - (rows - failed) as real / rows as real)
                         <= 3.0 / 9007199254740992.0
  {
    if rows > 0 {
      var (q, p) := (failed as real / rows as real, (rows - failed) as real / rows as real);
      ShareOf(failed, rows);
      var a := lib.fl(q);
      assert Within(a, q) && Within(lib.fl(1.0 - a), 1.0 - a);
    }
  }

  lemma ShareOf(failed: nat, rows: nat)
    requires failed <= rows && rows > 0
    ensures 0.0 <= failed as real / rows as real <= 1.0
    ensures (rows - failed) as real / rows as real == 1.0 - failed as real / rows as real
  {
    var (f, r) := (failed as real, rows as real);
    var q := f / r;
    assert q * r == f;
    Quotients(1.0 - q, r, r - f);
    if q < 0.0 {
      Positive(-q, r);
    }
    if q > 1.0 {
      Positive(q - 1.0, r);
    }
  }

  lemma Positive(x: real, r: real)
    requires x > 0.0 && r > 0.0
    ensures x * r > 0.0
  {
  }

  lemma Quotients(x: real, r: real, y: real)
    requires r > 0.0 && x * r == y
    ensures y / r == x
  {
  }

  /** What `CombinedStats` is given: the facts of two sets of rows, right about each. */
  ghost predicate Both(c: Compilation, a: Manifest, x: seq<Row>, b: Manifest, y: seq<Row>) {
    a.rowCount == |x| && b.rowCount == |y| && StatsAgree(c, a.stats, x) && StatsAgree(c, b.stats, y)
  }

  /** A statistic that combines is that of all the rows, to the last bit of a null rate. */
  lemma StatAppend(c: Compilation, s: Stat, a: Manifest, x: seq<Row>, b: Manifest, y: seq<Row>)
    requires CompilationOk(c) && Fits(c, |x| + |y|) && s in c.stats && Both(c, a, x, b, y)
    requires Combined(c, s, a, b, |x| + |y|, Failures(c.flags, x + y)).Some?
    ensures IsStat(c, s, x + y, Combined(c, s, a, b, |x| + |y|, Failures(c.flags, x + y)).value)
  {
    match s.field
    case RowCount =>
    case PassRate(id) =>
    case OtherField =>
    case OfColumn(_, stat) =>
      match stat {
        case NullCount => NullCountAppend(c, s, a, x, b, y);
        case NullRate => NullRateAppend(c, s, a, x, b, y);
        case MinStat => EndAppend(c, s, a, x, b, y);
        case MaxStat => EndAppend(c, s, a, x, b, y);
        case DistinctCount =>
      }
  }

  lemma NullCountAppend(c: Compilation, s: Stat, a: Manifest, x: seq<Row>, b: Manifest, y: seq<Row>)
    requires s in c.stats && s.field.OfColumn? && s.field.stat == NullCount && Both(c, a, x, b, y)
    requires Combined(c, s, a, b, |x| + |y|, Failures(c.flags, x + y)).Some?
    ensures IsStat(c, s, x + y, Combined(c, s, a, b, |x| + |y|, Failures(c.flags, x + y)).value)
  {
    assert IsStat(c, s, x, a.stats[s.column]) && IsStat(c, s, y, b.stats[s.column]);
    NullsConcat(s.field.name, x, y);
  }

  lemma NullRateAppend(c: Compilation, s: Stat, a: Manifest, x: seq<Row>, b: Manifest, y: seq<Row>)
    requires CompilationOk(c) && Fits(c, |x| + |y|) && Both(c, a, x, b, y)
    requires s in c.stats && s.field.OfColumn? && s.field.stat == NullRate
    requires Combined(c, s, a, b, |x| + |y|, Failures(c.flags, x + y)).Some?
    ensures IsStat(c, s, x + y, Combined(c, s, a, b, |x| + |y|, Failures(c.flags, x + y)).value)
  {
    assert IsStat(c, s, x, a.stats[s.column]) && IsStat(c, s, y, b.stats[s.column]);
    RateAppend(c, s.field.name, x, y);
  }

  lemma EndAppend(c: Compilation, s: Stat, a: Manifest, x: seq<Row>, b: Manifest, y: seq<Row>)
    requires Both(c, a, x, b, y) && s in c.stats && s.field.OfColumn? && s.field.stat in {MinStat, MaxStat}
    requires Combined(c, s, a, b, |x| + |y|, Failures(c.flags, x + y)).Some?
    ensures IsStat(c, s, x + y, Combined(c, s, a, b, |x| + |y|, Failures(c.flags, x + y)).value)
  {
    var u, v := a.stats[s.column], b.stats[s.column];
    assert IsStat(c, s, x, u) && IsStat(c, s, y, v);
    ExtremeAppend(c.lib, s.ty, s.field.name, x, y, s.field.stat == MinStat, u, v);
  }

  /** A statistic of the sort that combines: it is known of all the rows when it is of each part. */
  predicate Combines(f: Facts.Field) {
    f.OfColumn? && f.stat != DistinctCount
  }

  lemma StatKept(c: Compilation, s: Stat, a: Manifest, x: seq<Row>, b: Manifest, y: seq<Row>,
                 failures: map<string, int>)
    requires CompilationOk(c) && s in c.stats && Both(c, a, x, b, y) && |x| + |y| < 0x8000_0000_0000_0000
    ensures Combined(c, s, a, b, |x| + |y|, failures).Some? <==>
            s.field.RowCount? || s.field.PassRate? || (Combines(s.field) && s.column in a.stats && s.column in b.stats)
  {
    if Combines(s.field) && s.column in a.stats && s.column in b.stats {
      var u, v := a.stats[s.column], b.stats[s.column];
      assert IsStat(c, s, x, u) && IsStat(c, s, y, v);
      NullsAtMost(s.field.name, x);
      NullsAtMost(s.field.name, y);
      match s.field.stat {
        case MinStat => ExtremeAppend(c.lib, s.ty, s.field.name, x, y, true, u, v);
        case MaxStat => ExtremeAppend(c.lib, s.ty, s.field.name, x, y, false, u, v);
        case NullRate =>
        case NullCount =>
      }
    }
  }

  lemma {:induction false} GatherAt(vs: seq<(string, Option<Value>)>)
    requires forall i, j :: 0 <= i < j < |vs| ==> vs[i].0 != vs[j].0
    ensures forall k :: k in Gather(vs) ==> exists i :: 0 <= i < |vs| && vs[i].0 == k
    ensures forall i :: 0 <= i < |vs| ==> (vs[i].0 in Gather(vs) <==> vs[i].1.Some?)
    ensures forall i :: 0 <= i < |vs| && vs[i].1.Some? ==> Gather(vs)[vs[i].0] == vs[i].1.value
  {
    if vs != [] {
      GatherAt(vs[..|vs| - 1]);
    }
  }

  lemma CombinedOf(c: Compilation, s: Stat, a: Manifest, b: Manifest, rows: int, failures: map<string, int>)
    requires CompilationOk(c) && s in c.stats
    ensures var out := CombinedStats(c, a, b, rows, failures);
            var v := Combined(c, s, a, b, rows, failures);
            (s.column in out <==> v.Some?) && (v.Some? ==> out[s.column] == v.value)
  {
    var each := Each(c, a, b, rows, failures);
    GatherAt(each);
    var i :| 0 <= i < |c.stats| && c.stats[i] == s;
    assert each[i] == (s.column, Combined(c, s, a, b, rows, failures));
  }

  lemma StatsAppend(c: Compilation, a: Manifest, x: seq<Row>, b: Manifest, y: seq<Row>)
    requires CompilationOk(c) && Fits(c, |x| + |y|) && Both(c, a, x, b, y)
    ensures StatsAgree(c, CombinedStats(c, a, b, |x| + |y|, Failures(c.flags, x + y)), x + y)
  {
    var failures := Failures(c.flags, x + y);
    var out := CombinedStats(c, a, b, |x| + |y|, failures);
    forall s | s in c.stats && s.column in out
      ensures IsStat(c, s, x + y, out[s.column])
    {
      CombinedOf(c, s, a, b, |x| + |y|, failures);
      StatAppend(c, s, a, x, b, y);
    }
  }

  lemma FailuresAppend(c: Compilation, a: Manifest, x: seq<Row>, b: Manifest, y: seq<Row>)
    requires a.failures == Failures(c.flags, x) && b.failures == Failures(c.flags, y)
    ensures (map i | i in Asserts(c.flags) :: FailuresOf(a, i) + FailuresOf(b, i)) == Failures(c.flags, x + y)
  {
    forall i | i in Asserts(c.flags)
      ensures FailuresOf(a, i) + FailuresOf(b, i) == CountFails(c.flags, i, x + y)
    {
      CountFailsConcat(c.flags, i, x, y);
    }
  }

  lemma FailuresPermuted(c: Compilation, x: seq<Row>, y: seq<Row>)
    requires multiset(x) == multiset(y)
    ensures Failures(c.flags, x) == Failures(c.flags, y)
  {
    forall i | i in Asserts(c.flags)
      ensures CountFails(c.flags, i, x) == CountFails(c.flags, i, y)
    {
      CountFailsPermuted(c.flags, i, x, y);
    }
  }

  /** No statistic sees the order of the rows. */
  lemma StatPermuted(c: Compilation, s: Stat, x: seq<Row>, y: seq<Row>, v: Value)
    requires multiset(x) == multiset(y) && IsStat(c, s, x, v)
    ensures IsStat(c, s, y, v)
  {
    SameLength(x, y);
    match s.field
    case RowCount =>
    case OtherField =>
    case PassRate(id) => CountFailsPermuted(c.flags, id, x, y);
    case OfColumn(column, stat) =>
      match stat {
        case NullCount => NullsPermuted(column, x, y);
        case NullRate => NullsPermuted(column, x, y);
        case MinStat => ExtremePermuted(c.lib, s.ty, column, x, y, true, v);
        case MaxStat => ExtremePermuted(c.lib, s.ty, column, x, y, false, v);
        case DistinctCount =>
          SameRowsIn(x, y);
          assert DistinctValues(column, x) == DistinctValues(column, y);
      }
  }

  lemma StatsPermuted(c: Compilation, stats: map<string, Value>, x: seq<Row>, y: seq<Row>)
    requires multiset(x) == multiset(y) && StatsAgree(c, stats, x)
    ensures StatsAgree(c, stats, y)
  {
    forall s | s in c.stats && s.column in stats
      ensures IsStat(c, s, y, stats[s.column])
    {
      StatPermuted(c, s, x, y, stats[s.column]);
    }
  }

  // ── files ───────────────────────────────────────────────────────────────────

  lemma {:induction false} EntriesConcat(a: seq<DataFile>, b: seq<DataFile>)
    ensures Entries(a + b) == Entries(a) + Entries(b)
  {
    if a == [] {
      assert a + b == b;
    } else {
      assert (a + b)[1..] == a[1..] + b;
      EntriesConcat(a[1..], b);
    }
  }

  lemma {:induction false} EntriesAt(a: seq<DataFile>)
    ensures |Entries(a)| == |a| && forall i :: 0 <= i < |a| ==> Entries(a)[i] == EntryOf(a[i])
  {
    if a != [] {
      EntriesAt(a[1..]);
    }
  }

  lemma EntriesOnce(a: seq<DataFile>)
    requires DistinctPaths(a)
    ensures Manifests.OncePerPath(Entries(a))
  {
    EntriesAt(a);
  }

  lemma {:induction false} EntriesPermuted(a: seq<DataFile>, b: seq<DataFile>)
    requires multiset(a) == multiset(b)
    ensures multiset(Entries(a)) == multiset(Entries(b))
    decreases |a|
  {
    SameLength(a, b);
    if a != [] {
      var i := TakeFirst(a, b);
      EntriesPermuted(a[1..], b[..i] + b[i + 1..]);
      assert b == b[..i] + ([b[i]] + b[i + 1..]);
      EntriesConcat(b[..i], [b[i]] + b[i + 1..]);
      EntriesConcat(b[..i], b[i + 1..]);
      assert ([b[i]] + b[i + 1..])[1..] == b[i + 1..];
      assert Entries([b[i]] + b[i + 1..]) == [EntryOf(b[i])] + Entries(b[i + 1..]);
    }
  }

  /** Entries of two lists of files put together are the entries of both. */
  lemma EntriesTogether(a: seq<FileEntry>, x: seq<DataFile>, b: seq<FileEntry>, y: seq<DataFile>, all: seq<DataFile>)
    requires multiset(a) == multiset(Entries(x)) && multiset(b) == multiset(Entries(y))
    requires multiset(all) == multiset(x) + multiset(y)
    ensures multiset(a + b) == multiset(Entries(all))
  {
    assert multiset(x + y) == multiset(all);
    EntriesPermuted(all, x + y);
    EntriesConcat(x, y);
    assert multiset(a + b) == multiset(a) + multiset(b);
  }

  // ── an overwrite, an append ─────────────────────────────────────────────────

  /** Settling puts the files in path order and hashes them: the hash is the one any order gives. */
  lemma SettleFiles(c: Compilation, m: Manifest, id: Option<nat>, files: seq<DataFile>)
    requires DistinctPaths(files) && multiset(m.files) == multiset(Entries(files))
    ensures var s := Settle(c, m, id);
            && multiset(s.files) == multiset(Entries(files)) && InOrder(s.files)
            && s.dataHash == c.lib.sha(HashText(Entries(files)))
  {
    EntriesOnce(files);
    SortedKeeps(m.files);
    SortedOnce(Entries(files), Sorted(m.files));
  }

  lemma SettleAgrees(c: Compilation, m: Manifest, id: Option<nat>, rows: seq<Row>, files: seq<DataFile>)
    requires m.compilationHash == c.compilationHash && m.rowCount == |rows| && m.failures == Failures(c.flags, rows)
    requires StatsAgree(c, m.stats, rows)
    requires DistinctPaths(files) && multiset(m.files) == multiset(Entries(files))
    ensures Agrees(c, Settle(c, m, id), rows, files) && InOrder(Settle(c, m, id).files)
  {
    SettleFiles(c, m, id, files);
  }

  /** An overwrite, or a first append, leaves just the write's own facts. */
  lemma OverwriteAgrees(c: Compilation, before: Option<Manifest>, write: WriteFacts, writtenAt: int, id: Option<nat>,
                        rows: seq<Row>, files: seq<DataFile>)
    requires write.written == Overwrite || (write.written == Append && before.None?)
    requires Agrees(c, write.facts, rows, files) && DistinctPaths(files)
    ensures var m := AfterWrite(c, before, write, writtenAt, id);
            m.Ok? && m.value.Some? && Agrees(c, m.value.value, rows, files)
            && m.value.value.snapshotId == id && InOrder(m.value.value.files) && m.value.value.guarantees == map[]
            && m.value.value.writtenAt == writtenAt && m.value.value.contract == write.facts.contract
            && m.value.value.contractHash == write.facts.contractHash
  {
    SettleAgrees(c, write.facts.(writtenAt := writtenAt, guarantees := map[]), id, rows, files);
  }

  lemma ExtendFacts(c: Compilation, b: Manifest, x: seq<Row>, xs: seq<DataFile>, w: Manifest, y: seq<Row>,
                    ys: seq<DataFile>, writtenAt: int)
    requires CompilationOk(c) && Fits(c, |x| + |y|) && Agrees(c, b, x, xs) && Agrees(c, w, y, ys)
    ensures var m := Extend(c, b, w, writtenAt);
            && m.compilationHash == c.compilationHash && m.rowCount == |x + y|
            && m.failures == Failures(c.flags, x + y) && StatsAgree(c, m.stats, x + y)
            && m.files == b.files + w.files && m.guarantees == b.guarantees
  {
    FailuresAppend(c, b, x, w, y);
    StatsAppend(c, b, x, w, y);
  }

  lemma AfterAppend(c: Compilation, b: Manifest, write: WriteFacts, writtenAt: int, id: Option<nat>)
    requires write.written == Append && b.compilationHash == write.facts.compilationHash == c.compilationHash
    ensures AfterWrite(c, Some(b), write, writtenAt, id) ==
              Ok(Some(Settle(c, Extend(c, b, write.facts, writtenAt), id)))
  {
  }

  /** After an append, every fact kept is what validating all the rows would find. */
  lemma AppendAgrees(c: Compilation, b: Manifest, x: seq<Row>, xs: seq<DataFile>, write: WriteFacts, writtenAt: int,
                     id: Option<nat>, y: seq<Row>, ys: seq<DataFile>)
    requires CompilationOk(c) && Fits(c, |x| + |y|) && write.written == Append
    requires Agrees(c, b, x, xs) && Agrees(c, write.facts, y, ys) && DistinctPaths(xs + ys)
    ensures var m := AfterWrite(c, Some(b), write, writtenAt, id);
            m.Ok? && m.value.Some? && Agrees(c, m.value.value, x + y, xs + ys)
            && m.value.value.snapshotId == id && InOrder(m.value.value.files)
            && m.value.value.guarantees == b.guarantees
            && m.value.value.writtenAt == writtenAt && m.value.value.contract == write.facts.contract
            && m.value.value.contractHash == write.facts.contractHash
  {
    AfterAppend(c, b, write, writtenAt, id);
    assert multiset(xs + ys) == multiset(xs) + multiset(ys);
    EntriesTogether(b.files, xs, write.facts.files, ys, xs + ys);
    ExtendFacts(c, b, x, xs, write.facts, y, ys, writtenAt);
    var m := Extend(c, b, write.facts, writtenAt);
    SettleAgrees(c, m, id, x + y, xs + ys);
  }

  /** After an append, the statistics known are the row count, the pass rates, and every null
      count, null rate, minimum and maximum known before and of the write; a distinct count or an
      aggregate of the contract's own is not known. */
  lemma AppendKnows(c: Compilation, b: Manifest, x: seq<Row>, xs: seq<DataFile>, write: WriteFacts, writtenAt: int,
                    id: Option<nat>, y: seq<Row>, ys: seq<DataFile>, s: Stat)
    requires CompilationOk(c) && |x| + |y| < 0x8000_0000_0000_0000 && write.written == Append && s in c.stats
    requires Agrees(c, b, x, xs) && Agrees(c, write.facts, y, ys)
    ensures var m := AfterWrite(c, Some(b), write, writtenAt, id);
            && m.Ok? && m.value.Some?
            && (s.column in m.value.value.stats <==>
                s.field.RowCount? || s.field.PassRate?
                || (Combines(s.field) && s.column in b.stats && s.column in write.facts.stats))
  {
    AppendStats(c, b, write, writtenAt, id);
    KnownStat(c, s, b, x, write.facts, y);
  }

  /** What an append combines the failures of. */
  function BothFailures(c: Compilation, a: Manifest, b: Manifest): map<string, int> {
    map id | id in Asserts(c.flags) :: FailuresOf(a, id) + FailuresOf(b, id)
  }

  lemma KnownStat(c: Compilation, s: Stat, a: Manifest, x: seq<Row>, b: Manifest, y: seq<Row>)
    requires CompilationOk(c) && s in c.stats && Both(c, a, x, b, y) && |x| + |y| < 0x8000_0000_0000_0000
    ensures s.column in CombinedStats(c, a, b, |x| + |y|, BothFailures(c, a, b)) <==>
            s.field.RowCount? || s.field.PassRate? || (Combines(s.field) && s.column in a.stats && s.column in b.stats)
  {
    StatKept(c, s, a, x, b, y, BothFailures(c, a, b));
    CombinedOf(c, s, a, b, |x| + |y|, BothFailures(c, a, b));
  }

  lemma AppendStats(c: Compilation, b: Manifest, write: WriteFacts, writtenAt: int, id: Option<nat>)
    requires write.written == Append && b.compilationHash == write.facts.compilationHash == c.compilationHash
    ensures var m := AfterWrite(c, Some(b), write, writtenAt, id);
            var w := write.facts;
            && m.Ok? && m.value.Some?
            && m.value.value.stats == CombinedStats(c, b, w, b.rowCount + w.rowCount, BothFailures(c, b, w))
  {
    var w := write.facts;
    assert BothFailures(c, b, w) == map a | a in Asserts(c.flags) :: FailuresOf(b, a) + FailuresOf(w, a);
  }

  // ── a rewrite ───────────────────────────────────────────────────────────────

  lemma {:induction false} PickConcat(a: seq<FileEntry>, b: seq<FileEntry>, paths: set<string>, inside: bool)
    ensures Pick(a + b, paths, inside) == Pick(a, paths, inside) + Pick(b, paths, inside)
  {
    if a == [] {
      assert a + b == b;
    } else {
      assert (a + b)[1..] == a[1..] + b;
      PickConcat(a[1..], b, paths, inside);
      var first := if (a[0].path in paths) == inside then [a[0]] else [];
      assert Pick(a, paths, inside) == first + Pick(a[1..], paths, inside);
      assert Pick(a + b, paths, inside) == first + Pick(a[1..] + b, paths, inside);
    }
  }

  lemma PickOneOut(s: seq<FileEntry>, i: nat, paths: set<string>, inside: bool)
    requires i < |s|
    ensures multiset(Pick(s, paths, inside)) ==
            multiset(Pick([s[i]], paths, inside)) + multiset(Pick(s[..i] + s[i + 1..], paths, inside))
  {
    assert s == s[..i] + ([s[i]] + s[i + 1..]);
    PickConcat(s[..i], [s[i]] + s[i + 1..], paths, inside);
    PickConcat([s[i]], s[i + 1..], paths, inside);
    PickConcat(s[..i], s[i + 1..], paths, inside);
  }

  lemma {:induction false} PickPermuted(a: seq<FileEntry>, b: seq<FileEntry>, paths: set<string>, inside: bool)
    requires multiset(a) == multiset(b)
    ensures multiset(Pick(a, paths, inside)) == multiset(Pick(b, paths, inside))
    decreases |a|
  {
    SameLength(a, b);
    if a != [] {
      var i := TakeFirst(a, b);
      PickPermuted(a[1..], b[..i] + b[i + 1..], paths, inside);
      PickOneOut(b, i, paths, inside);
      PickOneOut(a, 0, paths, inside);
      assert a[..0] + a[1..] == a[1..];
    }
  }

  lemma {:induction false} PickAll(a: seq<FileEntry>, paths: set<string>, inside: bool)
    requires forall e :: e in a ==> ((e.path in paths) == inside)
    ensures Pick(a, paths, inside) == a && Pick(a, paths, !inside) == []
  {
    if a != [] {
      assert a[0] in a;
      PickAll(a[1..], paths, inside);
    }
  }

  /** The files a rewrite removes, picked out of the facts' list by their paths. */
  lemma Picked(files: seq<FileEntry>, gone: seq<FileEntry>, kept: seq<FileEntry>, paths: set<string>)
    requires multiset(files) == multiset(gone) + multiset(kept)
    requires (forall e :: e in gone ==> e.path in paths) && (forall e :: e in kept ==> e.path !in paths)
    ensures multiset(Pick(files, paths, true)) == multiset(gone)
            && multiset(Pick(files, paths, false)) == multiset(kept)
  {
    assert multiset(gone + kept) == multiset(files);
    PickPermuted(files, gone + kept, paths, true);
    PickPermuted(files, gone + kept, paths, false);
    PickConcat(gone, kept, paths, true);
    PickConcat(gone, kept, paths, false);
    PickAll(gone, paths, true);
    PickAll(kept, paths, false);
  }

  lemma {:induction false} EntryRowsConcat(a: seq<FileEntry>, b: seq<FileEntry>)
    ensures EntryRows(a + b) == EntryRows(a) + EntryRows(b)
  {
    if a == [] {
      assert a + b == b;
    } else {
      assert (a + b)[1..] == a[1..] + b;
      EntryRowsConcat(a[1..], b);
    }
  }

  lemma {:induction false} EntryRowsPermuted(a: seq<FileEntry>, b: seq<FileEntry>)
    requires multiset(a) == multiset(b)
    ensures EntryRows(a) == EntryRows(b)
    decreases |a|
  {
    SameLength(a, b);
    if a != [] {
      var i := TakeFirst(a, b);
      EntryRowsPermuted(a[1..], b[..i] + b[i + 1..]);
      assert b == b[..i] + ([b[i]] + b[i + 1..]);
      EntryRowsConcat(b[..i], [b[i]] + b[i + 1..]);
      EntryRowsConcat([b[i]], b[i + 1..]);
      EntryRowsConcat(b[..i], b[i + 1..]);
    }
  }

  lemma {:induction false} EntryRowsOf(files: seq<DataFile>)
    ensures EntryRows(Entries(files)) == |Flatten(files)|
  {
    if files != [] {
      EntryRowsOf(files[1..]);
    }
  }

  lemma {:induction false} PathCount(paths: seq<string>)
    requires Distinct(paths)
    ensures |PathSet(paths)| == |paths|
  {
    if paths != [] {
      PathCount(paths[1..]);
      assert PathSet(paths) == {paths[0]} + PathSet(paths[1..]);
      assert paths[0] !in PathSet(paths[1..]);
    }
  }

  /** `removed` names the files `gone`, once each. */
  ghost predicate Names(removed: seq<string>, gone: seq<DataFile>) {
    |removed| == |gone| && forall i :: 0 <= i < |gone| ==> removed[i] == gone[i].path
  }

  /** The data before a rewrite, and which of its files the rewrite replaces. */
  ghost predicate Replaces(files: seq<DataFile>, gone: seq<DataFile>, kept: seq<DataFile>, removed: seq<string>) {
    DistinctPaths(files) && multiset(files) == multiset(gone) + multiset(kept) && Names(removed, gone)
  }

  lemma PathsPermuted(a: seq<DataFile>, b: seq<DataFile>)
    requires DistinctPaths(a) && multiset(a) == multiset(b)
    ensures DistinctPaths(b)
  {
    EntriesPermuted(a, b);
    EntriesOnce(a);
    OncePerPathPermuted(Entries(a), Entries(b));
    EntriesAt(b);
  }

  lemma OnceOver(files: seq<DataFile>, gone: seq<DataFile>, kept: seq<DataFile>)
    requires DistinctPaths(files) && multiset(files) == multiset(gone) + multiset(kept)
    ensures forall i, j :: 0 <= i < j < |gone| ==> gone[i].path != gone[j].path
    ensures forall i, j :: 0 <= i < |gone| && 0 <= j < |kept| ==> gone[i].path != kept[j].path
  {
    var both := gone + kept;
    PathsPermuted(files, both);
    assert forall i :: 0 <= i < |gone| ==> both[i] == gone[i];
    assert forall j :: 0 <= j < |kept| ==> both[|gone| + j] == kept[j];
  }

  lemma Apart(files: seq<DataFile>, gone: seq<DataFile>, kept: seq<DataFile>, removed: seq<string>)
    requires Replaces(files, gone, kept, removed)
    ensures Distinct(removed)
    ensures forall e :: e in Entries(gone) ==> e.path in PathSet(removed)
    ensures forall e :: e in Entries(kept) ==> e.path !in PathSet(removed)
  {
    OnceOver(files, gone, kept);
    EntriesAt(gone);
    EntriesAt(kept);
  }

  /** The files a rewrite replaces are all among the facts' files, so of its two refusals only that
      of other row counts can be met: when the files do not hold as many rows as it wrote. */
  lemma RewriteFinds(c: Compilation, b: Manifest, write: WriteFacts,
                     files: seq<DataFile>, gone: seq<DataFile>, kept: seq<DataFile>)
    requires multiset(b.files) == multiset(Entries(files)) && Replaces(files, gone, kept, write.removed)
    ensures write.facts.rowCount == |Flatten(gone)| ==> Replace(c, b, write).Ok?
    ensures write.facts.rowCount != |Flatten(gone)| ==>
              Replace(c, b, write) == Err(RowsDiffer(|Flatten(gone)|, write.facts.rowCount))
    ensures multiset(Pick(b.files, PathSet(write.removed), false)) == multiset(Entries(kept))
  {
    var removed := PathSet(write.removed);
    assert multiset(files) == multiset(gone + kept);
    EntriesPermuted(files, gone + kept);
    EntriesConcat(gone, kept);
    Apart(files, gone, kept, write.removed);
    Picked(b.files, Entries(gone), Entries(kept), removed);
    SameLength(Pick(b.files, removed, true), Entries(gone));
    EntriesAt(gone);
    PathCount(write.removed);
    EntryRowsPermuted(Pick(b.files, removed, true), Entries(gone));
    EntryRowsOf(gone);
  }

  lemma ReplaceFiles(c: Compilation, b: Manifest, write: WriteFacts, xs: seq<DataFile>,
                     gone: seq<DataFile>, kept: seq<DataFile>, ys: seq<DataFile>)
    requires multiset(b.files) == multiset(Entries(xs)) && Replaces(xs, gone, kept, write.removed)
    requires multiset(write.facts.files) == multiset(Entries(ys)) && write.facts.rowCount == |Flatten(gone)|
    ensures var m := Replace(c, b, write);
            m.Ok? && m.value == b.(files := m.value.files) && multiset(m.value.files) == multiset(Entries(kept + ys))
  {
    RewriteFinds(c, b, write, xs, gone, kept);
    assert multiset(kept + ys) == multiset(kept) + multiset(ys);
    EntriesTogether(Pick(b.files, PathSet(write.removed), false), kept, write.facts.files, ys, kept + ys);
  }

  lemma AfterRewrite(c: Compilation, b: Manifest, write: WriteFacts, writtenAt: int, id: Option<nat>)
    requires write.written == Rewrite && b.compilationHash == write.facts.compilationHash == c.compilationHash
    requires Replace(c, b, write).Ok?
    ensures AfterWrite(c, Some(b), write, writtenAt, id) == Ok(Some(Settle(c, Replace(c, b, write).value, id)))
  {
  }

  /** A rewrite that replaces files by others of the same rows never fails, and the facts after it
      agree with the data as they did before, under the files it now has. */
  lemma RewriteAgrees(c: Compilation, b: Manifest, x: seq<Row>, xs: seq<DataFile>, write: WriteFacts, writtenAt: int,
                      id: Option<nat>, gone: seq<DataFile>, kept: seq<DataFile>, ys: seq<DataFile>, z: seq<Row>)
    requires write.written == Rewrite && Agrees(c, b, x, xs) && Agrees(c, write.facts, Flatten(ys), ys)
    requires Replaces(xs, gone, kept, write.removed) && |Flatten(ys)| == |Flatten(gone)|
    requires DistinctPaths(kept + ys) && multiset(z) == multiset(x)
    ensures var m := AfterWrite(c, Some(b), write, writtenAt, id);
            m.Ok? && m.value.Some? && Agrees(c, m.value.value, z, kept + ys)
            && m.value.value.snapshotId == id && InOrder(m.value.value.files)
            && m.value.value.guarantees == b.guarantees
            && m.value.value.stats == b.stats && m.value.value.writtenAt == b.writtenAt
            && m.value.value.contract == b.contract && m.value.value.contractHash == b.contractHash
  {
    ReplaceFiles(c, b, write, xs, gone, kept, ys);
    AfterRewrite(c, b, write, writtenAt, id);
    var m := Replace(c, b, write).value;
    SameLength(x, z);
    FailuresPermuted(c, x, z);
    StatsPermuted(c, b.stats, x, z);
    SettleAgrees(c, m, id, z, kept + ys);
  }

  /** When nothing is known after a write, and when it is an error: either side's facts are of another
      compilation, and a rewrite of data without facts. */
  lemma AfterNothing(c: Compilation, before: Option<Manifest>, write: WriteFacts, writtenAt: int, id: Option<nat>)
    ensures AfterWrite(c, before, write, writtenAt, id) == Ok(None) <==>
            write.facts.compilationHash != c.compilationHash
            || (write.written != Overwrite && before.Some? && before.value.compilationHash != c.compilationHash)
    ensures AfterWrite(c, before, write, writtenAt, id) == Err(NothingToReplace) <==>
            write.facts.compilationHash == c.compilationHash && write.written == Rewrite && before.None?
  {
    if write.facts.compilationHash == c.compilationHash && before.Some? && write.written == Rewrite {
      assert Replace(c, before.value, write) != Err(NothingToReplace);
    }
  }

  lemma AfterRefused(c: Compilation, b: Manifest, write: WriteFacts, writtenAt: int, id: Option<nat>)
    requires write.written == Rewrite && b.compilationHash == write.facts.compilationHash == c.compilationHash
    requires Replace(c, b, write).Err?
    ensures AfterWrite(c, Some(b), write, writtenAt, id) == Err(Replace(c, b, write).error)
  {
  }

  /** A rewrite of files that hold other numbers of rows than it wrote is refused, saying so. */
  lemma RewriteRefused(c: Compilation, b: Manifest, x: seq<Row>, xs: seq<DataFile>, write: WriteFacts, writtenAt: int,
                       id: Option<nat>, gone: seq<DataFile>, kept: seq<DataFile>, ys: seq<DataFile>)
    requires write.written == Rewrite && Agrees(c, b, x, xs) && Agrees(c, write.facts, Flatten(ys), ys)
    requires Replaces(xs, gone, kept, write.removed) && |Flatten(ys)| != |Flatten(gone)|
    ensures AfterWrite(c, Some(b), write, writtenAt, id) == Err(RowsDiffer(|Flatten(gone)|, |Flatten(ys)|))
  {
    RewriteFinds(c, b, write, xs, gone, kept);
    AfterRefused(c, b, write, writtenAt, id);
  }

  // ── null counts summed over entries ─────────────────────────────────────────

  /** Every file that counts the nulls of a column counts them right. */
  ghost predicate NullsRight(files: seq<DataFile>, column: string) {
    forall f :: f in files && column in f.nullCounts ==> f.nullCounts[column] == Nulls(column, f.rows)
  }

  ghost predicate AllCounted(files: seq<DataFile>, column: string) {
    forall f :: f in files ==> column in f.nullCounts
  }

  /** The deleted rows of a file, from the `i`th row on, that are null in a column. */
  function DeadNullsOf(f: DataFile, dead: set<(string, nat)>, i: nat, column: string): nat
    requires i <= |f.rows|
    decreases |f.rows| - i
  {
    if i == |f.rows| then 0
    else
      (if (f.path, i) in dead && Column(f.rows[i], column) == Null then 1 else 0)
      + DeadNullsOf(f, dead, i + 1, column)
  }

  function DeadNulls(files: seq<DataFile>, dead: set<(string, nat)>, column: string): nat {
    if files == [] then 0 else DeadNullsOf(files[0], dead, 0, column) + DeadNulls(files[1..], dead, column)
  }

  /** Some deleted row of the files is null in the column. */
  ghost predicate NullDeleted(files: seq<DataFile>, dead: set<(string, nat)>, column: string) {
    exists f, i: nat :: f in files && i < |f.rows| && (f.path, i) in dead && Column(f.rows[i], column) == Null
  }

  lemma {:induction false} LiveNullsOf(f: DataFile, dead: set<(string, nat)>, i: nat, column: string)
    requires i <= |f.rows|
    ensures Nulls(column, f.rows[i..]) == Nulls(column, LiveOf(f, dead, i)) + DeadNullsOf(f, dead, i, column)
    ensures DeadNullsOf(f, dead, i, column) == 0 <==>
            forall j: nat :: i <= j < |f.rows| && (f.path, j) in dead ==> Column(f.rows[j], column) != Null
    decreases |f.rows| - i
  {
    if i < |f.rows| {
      LiveNullsOf(f, dead, i + 1, column);
      assert f.rows[i..][1..] == f.rows[i + 1..];
      var first := if (f.path, i) in dead then [] else [f.rows[i]];
      NullsConcat(column, first, LiveOf(f, dead, i + 1));
      assert first != [] ==> first[1..] == [];
    }
  }

  /** The nulls of every row of the files, deleted or not. */
  function FileNulls(files: seq<DataFile>, column: string): nat {
    if files == [] then 0 else Nulls(column, files[0].rows) + FileNulls(files[1..], column)
  }

  /** The nulls of every row of the files are those of the rows not deleted and of the deleted. */
  lemma {:induction false} LiveNulls(files: seq<DataFile>, dead: set<(string, nat)>, column: string)
    ensures FileNulls(files, column) == Nulls(column, Live(files, dead)) + DeadNulls(files, dead, column)
    ensures DeadNulls(files, dead, column) == 0 <==> !NullDeleted(files, dead, column)
  {
    if files != [] {
      var f := files[0];
      LiveNullsOf(f, dead, 0, column);
      assert f.rows[0..] == f.rows;
      LiveNulls(files[1..], dead, column);
      NullsConcat(column, LiveOf(f, dead, 0), Live(files[1..], dead));
      assert f in files && forall g :: g in files <==> g == f || g in files[1..];
    }
  }

  /** A null count is reported exactly when every file counts the column, and is `n`. */
  ghost predicate Reports(listed: seq<FileEntry>, files: seq<DataFile>, column: string, n: nat) {
    NullSum(listed, column) == if AllCounted(files, column) then Some(n) else None
  }

  lemma {:induction false} NullSumConcat(a: seq<FileEntry>, b: seq<FileEntry>, column: string)
    requires NullSum(a, column).Some? && NullSum(b, column).Some?
    ensures NullSum(a + b, column) == Some(NullSum(a, column).value + NullSum(b, column).value)
  {
    if a == [] {
      assert a + b == b;
    } else {
      assert (a + b)[1..] == a[1..] + b;
      NullSumConcat(a[1..], b, column);
    }
  }

  lemma {:induction false} NullSumSome(a: seq<FileEntry>, column: string)
    ensures NullSum(a, column).Some? <==> forall e :: e in a ==> column in e.nullCounts
  {
    if a != [] {
      NullSumSome(a[1..], column);
    }
  }

  lemma {:induction false} NullSumPermuted(a: seq<FileEntry>, b: seq<FileEntry>, column: string)
    requires multiset(a) == multiset(b) && NullSum(a, column).Some?
    ensures NullSum(b, column) == NullSum(a, column)
    decreases |a|
  {
    SameLength(a, b);
    if a != [] {
      var i := TakeFirst(a, b);
      NullSumPermuted(a[1..], b[..i] + b[i + 1..], column);
      NullSumSome(b[..i] + b[i + 1..], column);
      NullSumSome(b[..i], column);
      NullSumSome(b[i + 1..], column);
      NullSumConcat(b[..i], b[i + 1..], column);
      assert b == b[..i] + ([b[i]] + b[i + 1..]);
      assert ([b[i]] + b[i + 1..])[1..] == b[i + 1..];
      NullSumConcat(b[..i], [b[i]] + b[i + 1..], column);
    }
  }

  lemma {:induction false} NullSumOf(files: seq<DataFile>, column: string)
    requires NullsRight(files, column)
    ensures Reports(Entries(files), files, column, FileNulls(files, column))
  {
    if files != [] {
      assert files[0] in files && forall f :: f in files <==> f == files[0] || f in files[1..];
      NullSumOf(files[1..], column);
    }
  }

  /** A null count is reported exactly when every file counts the column, in whatever order the files
      are listed. It is that of the rows, and of the rows deleted: so of the rows alone exactly when
      no deleted row is null in the column. */
  lemma TableNulls(c: Compilation, m: Manifest, rows: seq<Row>, files: seq<DataFile>, dead: set<(string, nat)>,
                   column: string)
    requires Agrees(c, m, rows, files) && NullsRight(files, column) && multiset(rows) == multiset(Live(files, dead))
    ensures Reports(m.files, files, column, Nulls(column, rows) + DeadNulls(files, dead, column))
    ensures DeadNulls(files, dead, column) == 0 <==> !NullDeleted(files, dead, column)
  {
    LiveListed(m.files, rows, files, dead, column);
    NoNullDeleted(files, dead, column);
  }

  lemma LiveListed(listed: seq<FileEntry>, rows: seq<Row>, files: seq<DataFile>, dead: set<(string, nat)>,
                   column: string)
    requires multiset(listed) == multiset(Entries(files)) && NullsRight(files, column)
    requires multiset(rows) == multiset(Live(files, dead))
    ensures Reports(listed, files, column, Nulls(column, rows) + DeadNulls(files, dead, column))
  {
    LiveRowsNulls(rows, files, dead, column);
    ListedNulls(listed, files, column, Nulls(column, rows) + DeadNulls(files, dead, column));
  }

  lemma NoNullDeleted(files: seq<DataFile>, dead: set<(string, nat)>, column: string)
    ensures DeadNulls(files, dead, column) == 0 <==> !NullDeleted(files, dead, column)
  {
    LiveNulls(files, dead, column);
  }

  lemma LiveRowsNulls(rows: seq<Row>, files: seq<DataFile>, dead: set<(string, nat)>, column: string)
    requires multiset(rows) == multiset(Live(files, dead))
    ensures FileNulls(files, column) == Nulls(column, rows) + DeadNulls(files, dead, column)
  {
    LiveNulls(files, dead, column);
    NullsPermuted(column, rows, Live(files, dead));
  }

  lemma ListedNulls(listed: seq<FileEntry>, files: seq<DataFile>, column: string, n: nat)
    requires multiset(listed) == multiset(Entries(files)) && NullsRight(files, column)
    requires FileNulls(files, column) == n
    ensures Reports(listed, files, column, n)
  {
    NullSumOf(files, column);
    if NullSum(Entries(files), column).Some? {
      NullSumPermuted(Entries(files), listed, column);
    } else if NullSum(listed, column).Some? {
      NullSumPermuted(listed, Entries(files), column);
    }
  }

  /** A file whose one row is null in a column and deleted: one null is reported, of no rows. */
  lemma DeletedNullCounted()
    ensures var f := DataFile("a", [map[]], 1, "", map["x" := 1], "");
            && NullsRight([f], "x") && Live([f], {("a", 0)}) == [] && NullSum(Entries([f]), "x") == Some(1)
  {
    var f := DataFile("a", [map[]], 1, "", map["x" := 1], "");
    assert f.rows[1..] == [] && [f][1..] == [];
    assert Nulls("x", f.rows) == 1;
    assert LiveOf(f, {("a", 0)}, 1) == [] && LiveOf(f, {("a", 0)}, 0) == [];
    assert Entries([f]) == [EntryOf(f)] && [EntryOf(f)][1..] == [];
  }

  /** Every file of `files` counts a column exactly when all of `a` and all of `b` do. */
  ghost predicate CountedAs(files: seq<DataFile>, a: seq<DataFile>, b: seq<DataFile>, column: string) {
    AllCounted(files, column) <==> AllCounted(a, column) && AllCounted(b, column)
  }

  /** If no row of the files `zs` is deleted, none that is null in the column is, of these or of `xs`. */
  ghost predicate NoneNull(xs: seq<DataFile>, dead: set<(string, nat)>, zs: seq<DataFile>, dead': set<(string, nat)>,
                           column: string)
  {
    !AnyDead(zs, dead') ==> !NullDeleted(xs, dead, column) && !NullDeleted(zs, dead', column)
  }

  /** A rewrite changes a null count reported before and after it only by the nulls of deleted rows:
      by nothing when it leaves no row deleted, since its facts are refused if one was. A column
      comes to be reported when only files replaced did not count it, and ceases when a new one does
      not. */
  lemma RewriteNulls(c: Compilation, b: Manifest, x: seq<Row>, xs: seq<DataFile>, write: WriteFacts, writtenAt: int,
                     id: Option<nat>, gone: seq<DataFile>, kept: seq<DataFile>, ys: seq<DataFile>, z: seq<Row>,
                     dead: set<(string, nat)>, dead': set<(string, nat)>, column: string)
    requires write.written == Rewrite && Agrees(c, b, x, xs) && Agrees(c, write.facts, Flatten(ys), ys)
    requires Replaces(xs, gone, kept, write.removed) && |Flatten(ys)| == |Flatten(gone)|
    requires DistinctPaths(kept + ys) && multiset(z) == multiset(x)
    requires multiset(x) == multiset(Live(xs, dead)) && multiset(z) == multiset(Live(kept + ys, dead'))
    requires NullsRight(xs, column) && NullsRight(kept + ys, column)
    ensures Reports(b.files, xs, column, Nulls(column, x) + DeadNulls(xs, dead, column))
    ensures var m := AfterWrite(c, Some(b), write, writtenAt, id);
            && m.Ok? && m.value.Some?
            && Reports(m.value.value.files, kept + ys, column, Nulls(column, x) + DeadNulls(kept + ys, dead', column))
    ensures NoneNull(xs, dead, kept + ys, dead', column)
    ensures CountedAs(xs, gone, kept, column) && CountedAs(kept + ys, kept, ys, column)
  {
    RewriteAgrees(c, b, x, xs, write, writtenAt, id, gone, kept, ys, z);
    var m := AfterWrite(c, Some(b), write, writtenAt, id).value.value;
    ListedRewrite(b.files, m.files, x, xs, gone, kept, ys, dead, dead', column);
  }

  lemma ListedRewrite(was: seq<FileEntry>, now: seq<FileEntry>, x: seq<Row>, xs: seq<DataFile>, gone: seq<DataFile>,
                      kept: seq<DataFile>, ys: seq<DataFile>, dead: set<(string, nat)>, dead': set<(string, nat)>,
                      column: string)
    requires multiset(was) == multiset(Entries(xs)) && multiset(now) == multiset(Entries(kept + ys))
    requires multiset(xs) == multiset(gone) + multiset(kept) && |Flatten(ys)| == |Flatten(gone)|
    requires multiset(x) == multiset(Live(xs, dead)) && multiset(x) == multiset(Live(kept + ys, dead'))
    requires NullsRight(xs, column) && NullsRight(kept + ys, column)
    ensures Reports(was, xs, column, Nulls(column, x) + DeadNulls(xs, dead, column))
    ensures Reports(now, kept + ys, column, Nulls(column, x) + DeadNulls(kept + ys, dead', column))
    ensures CountedAs(xs, gone, kept, column) && CountedAs(kept + ys, kept, ys, column)
    ensures NoneNull(xs, dead, kept + ys, dead', column)
  {
    ListedBoth(was, now, x, xs, kept + ys, dead, dead', column);
    CountedTogether(xs, gone, kept, ys, column);
    NoneLeft(x, xs, gone, kept, ys, dead, dead', column);
  }

  lemma ListedBoth(was: seq<FileEntry>, now: seq<FileEntry>, x: seq<Row>, xs: seq<DataFile>, zs: seq<DataFile>,
                   dead: set<(string, nat)>, dead': set<(string, nat)>, column: string)
    requires multiset(was) == multiset(Entries(xs)) && multiset(now) == multiset(Entries(zs))
    requires multiset(x) == multiset(Live(xs, dead)) && multiset(x) == multiset(Live(zs, dead'))
    requires NullsRight(xs, column) && NullsRight(zs, column)
    ensures Reports(was, xs, column, Nulls(column, x) + DeadNulls(xs, dead, column))
    ensures Reports(now, zs, column, Nulls(column, x) + DeadNulls(zs, dead', column))
  {
    LiveListed(was, x, xs, dead, column);
    LiveListed(now, x, zs, dead', column);
  }

  lemma NoneLeft(x: seq<Row>, xs: seq<DataFile>, gone: seq<DataFile>, kept: seq<DataFile>, ys: seq<DataFile>,
                 dead: set<(string, nat)>, dead': set<(string, nat)>, column: string)
    requires multiset(xs) == multiset(gone) + multiset(kept) && |Flatten(ys)| == |Flatten(gone)|
    requires multiset(x) == multiset(Live(xs, dead)) && multiset(x) == multiset(Live(kept + ys, dead'))
    ensures NoneNull(xs, dead, kept + ys, dead', column)
  {
    AsManyRows(xs, gone, kept, ys);
    SameLength(x, Live(xs, dead));
    SameLength(x, Live(kept + ys, dead'));
    NoneDeleted(xs, dead, kept + ys, dead', column);
  }

  lemma CountedTogether(xs: seq<DataFile>, gone: seq<DataFile>, kept: seq<DataFile>, ys: seq<DataFile>, column: string)
    requires multiset(xs) == multiset(gone) + multiset(kept)
    ensures CountedAs(xs, gone, kept, column) && CountedAs(kept + ys, kept, ys, column)
  {
    assert forall f :: f in xs <==> f in multiset(gone) + multiset(kept);
    assert forall f :: f in xs <==> f in gone || f in kept;
    assert forall f :: f in kept + ys <==> f in kept || f in ys;
  }

  lemma NoneDeleted(xs: seq<DataFile>, dead: set<(string, nat)>, zs: seq<DataFile>, dead': set<(string, nat)>,
                    column: string)
    requires |Flatten(xs)| == |Flatten(zs)| && |Live(xs, dead)| == |Live(zs, dead')|
    ensures NoneNull(xs, dead, zs, dead', column)
  {
    LiveCount(xs, dead);
    LiveCount(zs, dead');
  }

  /** Files replaced by others of as many rows. */
  lemma AsManyRows(xs: seq<DataFile>, gone: seq<DataFile>, kept: seq<DataFile>, ys: seq<DataFile>)
    requires multiset(xs) == multiset(gone) + multiset(kept) && |Flatten(ys)| == |Flatten(gone)|
    ensures |Flatten(xs)| == |Flatten(kept + ys)|
  {
    assert multiset(xs) == multiset(gone + kept);
    Permuted(xs, gone + kept);
    SameLength(Flatten(xs), Flatten(gone + kept));
    FlattenConcat(gone, kept);
    FlattenConcat(kept, ys);
  }

  // ── the verdict ─────────────────────────────────────────────────────────────

  lemma {:induction false} NoFails(flags: seq<Flag>, a: string, rows: seq<Row>)
    ensures CountFails(flags, a, rows) == 0 <==> forall r :: r in rows ==> !Fails(flags, a, r)
  {
    if rows != [] {
      assert rows[0] in rows;
      NoFails(flags, a, rows[1..]);
    }
  }

  /** What makes data invalid, or not servable: the ids of the denying asserts some row fails, and then
      of the denying guarantees last found not to hold, each in the contract's order. */
  lemma {:induction false} BreachedInOrder(c: Compilation, failures: map<string, int>, checks: map<string, Check>,
                                           failed: Flag -> bool, ofFlag: Flag -> string,
                                           broken: Guarantee -> bool, ofGuarantee: Guarantee -> string)
    requires forall f :: ofFlag(f) == f.assertId
    requires forall f :: failed(f) <==> f.onFail == Deny && f.assertId in failures && failures[f.assertId] > 0
    requires forall g :: ofGuarantee(g) == g.id
    requires forall g :: broken(g) <==> g.deny && g.id in checks && !checks[g.id].holds
    ensures Breached(c, failures, checks) ==
            Chosen(c.flags, failed, ofFlag) + Chosen(c.guarantees, broken, ofGuarantee)
  {
    FailedInOrder(c.flags, failures, failed, ofFlag);
    GuaranteesInOrder(c.guarantees, checks, broken, ofGuarantee);
  }

  lemma {:induction false} FailedInOrder(flags: seq<Flag>, failures: map<string, int>, failed: Flag -> bool,
                                         id: Flag -> string)
    requires forall f :: id(f) == f.assertId
    requires forall f :: failed(f) <==> f.onFail == Deny && f.assertId in failures && failures[f.assertId] > 0
    ensures FailedAsserts(flags, failures) == Chosen(flags, failed, id)
  {
    if flags != [] {
      FailedInOrder(flags[1..], failures, failed, id);
      var first := if failed(flags[0]) then [id(flags[0])] else [];
      assert FailedAsserts(flags, failures) == first + FailedAsserts(flags[1..], failures);
    }
  }

  lemma {:induction false} GuaranteesInOrder(gs: seq<Guarantee>, checks: map<string, Check>, broken: Guarantee -> bool,
                                             id: Guarantee -> string)
    requires forall g :: id(g) == g.id
    requires forall g :: broken(g) <==> g.deny && g.id in checks && !checks[g.id].holds
    ensures FailedGuarantees(gs, checks) == Chosen(gs, broken, id)
  {
    if gs != [] {
      GuaranteesInOrder(gs[1..], checks, broken, id);
      var first := if broken(gs[0]) then [id(gs[0])] else [];
      assert FailedGuarantees(gs, checks) == first + FailedGuarantees(gs[1..], checks);
    }
  }

  lemma {:induction false} AssertsHold(flags: seq<Flag>, failures: map<string, int>)
    ensures FailedAsserts(flags, failures) == [] <==>
            forall i :: 0 <= i < |flags| && flags[i].onFail == Deny ==>
              !(flags[i].assertId in failures && failures[flags[i].assertId] > 0)
  {
    if flags != [] {
      AssertsHold(flags[1..], failures);
      assert forall i :: 0 < i < |flags| ==> flags[i] == flags[1..][i - 1];
    }
  }

  lemma {:induction false} GuaranteesHold(gs: seq<Guarantee>, checks: map<string, Check>)
    ensures FailedGuarantees(gs, checks) == [] <==>
            forall g :: g in gs && g.deny && g.id in checks ==> checks[g.id].holds
  {
    if gs != [] {
      GuaranteesHold(gs[1..], checks);
    }
  }

  /** The verdict kept is right of the whole data: valid exactly when no row fails a deny-level
      assert and every deny-level guarantee held when last decided. */
  lemma VerdictIs(c: Compilation, m: Manifest, rows: seq<Row>, files: seq<DataFile>)
    requires Agrees(c, m, rows, files)
    ensures m.valid <==>
            && (forall i, r :: 0 <= i < |c.flags| && c.flags[i].onFail == Deny && r in rows ==>
                  !Fails(c.flags, c.flags[i].assertId, r))
            && (forall g :: g in c.guarantees && g.deny && g.id in m.guarantees ==> m.guarantees[g.id].holds)
  {
    AssertsHold(c.flags, m.failures);
    GuaranteesHold(c.guarantees, m.guarantees);
    forall i | 0 <= i < |c.flags|
      ensures c.flags[i].assertId in m.failures
      ensures m.failures[c.flags[i].assertId] == 0 <==>
              forall r :: r in rows ==> !Fails(c.flags, c.flags[i].assertId, r)
    {
      NoFails(c.flags, c.flags[i].assertId, rows);
    }
  }
}
