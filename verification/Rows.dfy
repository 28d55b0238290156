/** Rows, and the immutable data files that hold them. */
module Rows {
  import opened Wrappers

  /** A value of a column, or of a statistic as its JSON holds it. */
  datatype Value = Null | Bool(b: bool) | Int(i: int) | Real(r: real) | Str(s: string)

  /** A row, by column name; a column the row does not name is null. */
  type Row = map<string, Value>

  function Column(row: Row, name: string): Value {
    if name in row then row[name] else Null
  }

  /** A data file as its footer and its bytes give it: its rows, its size, the hash of the
      contract it was written under, the nulls it counts per column, and its sha256. */
  datatype DataFile = DataFile(
    path: string,
    rows: seq<Row>,
    bytes: nat,
    contractHash: string,
    nullCounts: map<string, nat>,
    sha256: string)

  ghost predicate DistinctPaths(fs: seq<DataFile>) {
    forall i, j :: 0 <= i < j < |fs| ==> fs[i].path != fs[j].path
  }

  /** Every row of `fs`, file by file. */
  function Flatten(fs: seq<DataFile>): seq<Row> {
    if fs == [] then [] else fs[0].rows + Flatten(fs[1..])
  }

  /** The rows of `f` from `i` on that no position in `dead` deletes. */
  function LiveOf(f: DataFile, dead: set<(string, nat)>, i: nat): seq<Row>
    requires i <= |f.rows|
    decreases |f.rows| - i
  {
    if i == |f.rows| then []
    else (if (f.path, i) in dead then [] else [f.rows[i]]) + LiveOf(f, dead, i + 1)
  }

  /** Every row of `fs` that `dead` does not delete, file by file. */
  function Live(fs: seq<DataFile>, dead: set<(string, nat)>): seq<Row> {
    if fs == [] then [] else LiveOf(fs[0], dead, 0) + Live(fs[1..], dead)
  }

  /** Sums over data files: the three counters of a snapshot summary. */
  datatype Totals = Totals(records: nat, files: nat, bytes: nat) {
    function Add(o: Totals): Totals {
      Totals(records + o.records, files + o.files, bytes + o.bytes)
    }
  }

  function Weight(f: DataFile): Totals {
    Totals(|f.rows|, 1, f.bytes)
  }

  function Sum(fs: seq<DataFile>): Totals {
    if fs == [] then Totals(0, 0, 0) else Weight(fs[0]).Add(Sum(fs[1..]))
  }

  lemma {:induction false} FlattenConcat(a: seq<DataFile>, b: seq<DataFile>)
    ensures Flatten(a + b) == Flatten(a) + Flatten(b)
  {
    if a == [] {
      assert a + b == b;
    } else {
      assert (a + b)[1..] == a[1..] + b;
      FlattenConcat(a[1..], b);
    }
  }

  lemma {:induction false} LiveConcat(a: seq<DataFile>, b: seq<DataFile>, dead: set<(string, nat)>)
    ensures Live(a + b, dead) == Live(a, dead) + Live(b, dead)
  {
    if a == [] {
      assert a + b == b;
    } else {
      assert (a + b)[1..] == a[1..] + b;
      LiveConcat(a[1..], b, dead);
    }
  }

  lemma {:induction false} SumConcat(a: seq<DataFile>, b: seq<DataFile>)
    ensures Sum(a + b) == Sum(a).Add(Sum(b))
  {
    if a == [] {
      assert a + b == b;
    } else {
      assert (a + b)[1..] == a[1..] + b && (a + b)[0] == a[0];
      SumConcat(a[1..], b);
      assert Sum(a + b) == Weight(a[0]).Add(Sum(a[1..] + b));
    }
  }

  /** What the totals count: the files, their rows, and the bytes of each. */
  lemma {:induction false} SumIs(fs: seq<DataFile>)
    ensures Sum(fs).files == |fs| && Sum(fs).records == |Flatten(fs)|
    ensures fs == [] ==> Sum(fs).bytes == 0
    ensures fs != [] ==> Sum(fs).bytes == fs[0].bytes + Sum(fs[1..]).bytes
  {
    if fs != [] {
      SumIs(fs[1..]);
    }
  }

  lemma {:induction false} LiveOfWhole(f: DataFile, dead: set<(string, nat)>, i: nat)
    requires i <= |f.rows|
    requires forall d :: d in dead ==> d.0 != f.path
    ensures LiveOf(f, dead, i) == f.rows[i..]
    decreases |f.rows| - i
  {
    if i < |f.rows| {
      LiveOfWhole(f, dead, i + 1);
      assert f.rows[i..] == [f.rows[i]] + f.rows[i + 1..];
    }
  }

  /** One file taken out of a list, and the rows of the rest that are not deleted. */
  lemma LiveOneOut(fs: seq<DataFile>, i: nat, dead: set<(string, nat)>)
    requires i < |fs|
    ensures multiset(Live(fs, dead)) == multiset(LiveOf(fs[i], dead, 0)) + multiset(Live(fs[..i] + fs[i + 1..], dead))
  {
    var after := [fs[i]] + fs[i + 1..];
    assert fs == fs[..i] + after && after[1..] == fs[i + 1..];
    LiveConcat(fs[..i], after, dead);
    LiveConcat(fs[..i], fs[i + 1..], dead);
  }

  lemma {:induction false} LivePermuted(a: seq<DataFile>, b: seq<DataFile>, dead: set<(string, nat)>)
    requires multiset(a) == multiset(b)
    ensures multiset(Live(a, dead)) == multiset(Live(b, dead))
    decreases |a|
  {
    SameLength(a, b);
    if a != [] {
      var i := TakeFirst(a, b);
      LivePermuted(a[1..], b[..i] + b[i + 1..], dead);
      LiveOneOut(b, i, dead);
    }
  }

  /** Some row of the files is deleted. */
  ghost predicate AnyDead(fs: seq<DataFile>, dead: set<(string, nat)>) {
    exists f, i: nat :: f in fs && i < |f.rows| && (f.path, i) in dead
  }

  lemma {:induction false} LiveOfCount(f: DataFile, dead: set<(string, nat)>, i: nat)
    requires i <= |f.rows|
    ensures |LiveOf(f, dead, i)| <= |f.rows| - i
    ensures |LiveOf(f, dead, i)| == |f.rows| - i <==> forall j: nat :: i <= j < |f.rows| ==> (f.path, j) !in dead
    decreases |f.rows| - i
  {
    if i < |f.rows| {
      LiveOfCount(f, dead, i + 1);
    }
  }

  /** Files hold more rows than are live exactly when some row of them is deleted. */
  lemma {:induction false} LiveCount(fs: seq<DataFile>, dead: set<(string, nat)>)
    ensures |Live(fs, dead)| <= |Flatten(fs)|
    ensures |Live(fs, dead)| < |Flatten(fs)| <==> AnyDead(fs, dead)
  {
    if fs != [] {
      LiveOfCount(fs[0], dead, 0);
      LiveCount(fs[1..], dead);
      assert forall f :: f in fs <==> f == fs[0] || f in fs[1..];
    }
  }

  /** Files that no deleted position names keep every row. */
  lemma {:induction false} LiveWhole(fs: seq<DataFile>, dead: set<(string, nat)>)
    requires forall f, d :: f in fs && d in dead ==> d.0 != f.path
    ensures Live(fs, dead) == Flatten(fs)
  {
    if fs != [] {
      assert fs[0] in fs;
      LiveOfWhole(fs[0], dead, 0);
      LiveWhole(fs[1..], dead);
    }
  }

  /** One file taken out of a list, and the rest. */
  lemma OneOut(fs: seq<DataFile>, i: nat)
    requires i < |fs|
    ensures var rest := fs[..i] + fs[i + 1..];
            && multiset(Flatten(fs)) == multiset(fs[i].rows) + multiset(Flatten(rest))
            && Sum(fs) == Weight(fs[i]).Add(Sum(rest))
  {
    var after := [fs[i]] + fs[i + 1..];
    assert fs == fs[..i] + after && after[1..] == fs[i + 1..];
    FlattenConcat(fs[..i], after);
    FlattenConcat(fs[..i], fs[i + 1..]);
    SumConcat(fs[..i], after);
    SumConcat(fs[..i], fs[i + 1..]);
  }

  /** The rows and the totals of files do not depend on the order of the files. */
  lemma {:induction false} Permuted(a: seq<DataFile>, b: seq<DataFile>)
    requires multiset(a) == multiset(b)
    ensures multiset(Flatten(a)) == multiset(Flatten(b)) && Sum(a) == Sum(b)
    decreases |a|
  {
    SameLength(a, b);
    if a != [] {
      var i := TakeFirst(a, b);
      Permuted(a[1..], b[..i] + b[i + 1..]);
      OneOut(b, i);
    }
  }
}
