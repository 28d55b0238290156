/**
 What a file's footer says of it, row group by row group: whether every row passes a flag, and how
 many nulls a column has.
 */
module Footer {
  import opened Wrappers
  import opened Rows

  /** A column's statistics in one row group. */
  datatype Statistics = Booleans(min: Option<bool>, max: Option<bool>, nulls: Option<nat>) | Others(nulls: Option<nat>)

  /** A column of one row group: its values, and its statistics if the footer has them. */
  datatype Chunk = Chunk(values: seq<Value>, stats: Option<Statistics>)

  datatype FlagStatus = AllPass | AllFail | Mixed

  function NullsIn(values: seq<Value>): nat {
    if values == [] then 0 else (if values[0] == Null then 1 else 0) + NullsIn(values[1..])
  }

  predicate AllNull(values: seq<Value>) {
    forall v :: v in values ==> v == Null
  }

  /** The statistics present are those of the values: bounds are of those that are not null. */
  ghost predicate Right(c: Chunk) {
    c.stats.Some? ==>
      (c.stats.value.nulls.Some? ==> c.stats.value.nulls.value == NullsIn(c.values))
      && (c.stats.value.Booleans? ==>
            && (forall v :: v in c.values ==> v.Bool? || v == Null)
            && (c.stats.value.min.Some? ==>
                  (Bool(false) in c.values <==> !c.stats.value.min.value) && !AllNull(c.values))
            && (c.stats.value.max.Some? ==>
                  (Bool(true) in c.values <==> c.stats.value.max.value) && !AllNull(c.values)))
  }

  /** Boolean statistics of a group with values give its least and its greatest. */
  ghost predicate Bounded(c: Chunk) {
    c.stats.Some? && c.stats.value.Booleans? && !AllNull(c.values) ==>
      c.stats.value.min.Some? && c.stats.value.max.Some?
  }

  ghost predicate Every(chunks: seq<Chunk>, b: bool) {
    forall i, v :: 0 <= i < |chunks| && v in chunks[i].values ==> v == Bool(b)
  }

  /** Whether a chunk is known to hold, or may hold, a value. */
  predicate MayHold(c: Chunk, b: bool) {
    match c.stats
    case Some(Booleans(min, max, _)) => (if b then max else min) == Some(b)
    case _ => true
  }

  predicate AnyMayHold(chunks: seq<Chunk>, b: bool) {
    exists i :: 0 <= i < |chunks| && MayHold(chunks[i], b)
  }

  function StatusOf(chunks: seq<Chunk>): FlagStatus {
    var (t, f) := (AnyMayHold(chunks, true), AnyMayHold(chunks, false));
    if t && !f then AllPass else if f && !t then AllFail else Mixed
  }

  method FoldStatus(chunks: seq<Chunk>) returns (status: FlagStatus)
    ensures status == StatusOf(chunks)
  {
    var anyTrue, anyFalse := false, false;
    for i := 0 to |chunks|
      invariant anyTrue <==> exists j :: 0 <= j < i && MayHold(chunks[j], true)
      invariant anyFalse <==> exists j :: 0 <= j < i && MayHold(chunks[j], false)
    {
      match chunks[i].stats {
        case Some(Booleans(min, max, _)) =>
          anyTrue, anyFalse := anyTrue || max == Some(true), anyFalse || min == Some(false);
        case _ =>
          anyTrue, anyFalse := true, true;
      }
      assert anyTrue <==> (exists j :: 0 <= j < i && MayHold(chunks[j], true)) || MayHold(chunks[i], true);
      assert anyFalse <==> (exists j :: 0 <= j < i && MayHold(chunks[j], false)) || MayHold(chunks[i], false);
    }
    status := if anyTrue && !anyFalse then AllPass else if anyFalse && !anyTrue then AllFail else Mixed;
  }

  /** Boolean statistics do not say whether the other value of a flag is there. */
  predicate LacksBound(c: Chunk, b: bool) {
    match c.stats
    case Some(Booleans(min, max, _)) => (if b then min else max) == None
    case _ => false
  }

  /** A status of all passing, or all failing, is true of every row exactly when no row's flag is
      null and no row group whose statistics lack that bound holds a row that says otherwise. */
  lemma StatusRight(chunks: seq<Chunk>, b: bool)
    requires (forall i :: 0 <= i < |chunks| ==> Right(chunks[i]))
             && StatusOf(chunks) == (if b then AllPass else AllFail)
    ensures Every(chunks, b) <==>
            forall i :: 0 <= i < |chunks| ==>
              Null !in chunks[i].values && (LacksBound(chunks[i], b) ==> Bool(!b) !in chunks[i].values)
  {
    assert forall i :: 0 <= i < |chunks| ==> !MayHold(chunks[i], !b);
    if !Every(chunks, b) {
      var i, v :| 0 <= i < |chunks| && v in chunks[i].values && v != Bool(b);
      assert v == Bool(!b) || v == Null;
    }
  }

  /** The status is given whenever every group has both bounds, some group has rows, and every row
      says so. */
  lemma StatusGiven(chunks: seq<Chunk>, b: bool, k: nat)
    requires forall i :: 0 <= i < |chunks| ==>
               Right(chunks[i]) && Bounded(chunks[i]) && chunks[i].stats.Some? && chunks[i].stats.value.Booleans?
    requires k < |chunks| && chunks[k].values != [] && Every(chunks, b)
    ensures StatusOf(chunks) == if b then AllPass else AllFail
  {
    assert chunks[k].values[0] in chunks[k].values;
    assert MayHold(chunks[k], b);
    forall i | 0 <= i < |chunks|
      ensures !MayHold(chunks[i], !b)
    {
    }
  }

  /** With statistics that lack a bound, a file can be recorded as all passing with a row that does
      not pass. */
  lemma MissingBound()
    ensures var chunks := [Chunk([Bool(true)], Some(Booleans(Some(true), Some(true), Some(0)))),
                           Chunk([Bool(false)], Some(Booleans(None, None, Some(0))))];
            (forall i :: 0 <= i < |chunks| ==> Right(chunks[i])) && StatusOf(chunks) == AllPass && !Every(chunks, true)
  {
    var a, b := Chunk([Bool(true)], Some(Booleans(Some(true), Some(true), Some(0)))),
                Chunk([Bool(false)], Some(Booleans(None, None, Some(0))));
    var chunks := [a, b];
    assert [Bool(true)][1..] == [] && [Bool(false)][1..] == [];
    assert chunks[0] == a && chunks[1] == b;
    assert Bool(true) in a.values && forall i :: 0 <= i < |chunks| ==> chunks[i] == a || chunks[i] == b;
    assert MayHold(chunks[0], true);
    assert Bool(false) in b.values;
  }

  /** A null flag does not pass, and bounds leave it out: a group of rows that pass and rows stored
      without the flag, as a compaction can write, is recorded as all passing. */
  lemma NullFlag()
    ensures var chunks := [Chunk([Bool(true), Null], Some(Booleans(Some(true), Some(true), Some(1))))];
            Right(chunks[0]) && Bounded(chunks[0]) && StatusOf(chunks) == AllPass && !Every(chunks, true)
  {
    var c := Chunk([Bool(true), Null], Some(Booleans(Some(true), Some(true), Some(1))));
    var chunks := [c];
    assert [Bool(true), Null][1..] == [Null] && [Null][1..] == [];
    assert Bool(true) in c.values && Null in c.values;
    assert MayHold(chunks[0], true) && !MayHold(chunks[0], false);
  }

  // ── nulls ───────────────────────────────────────────────────────────────────

  function CountOf(c: Chunk): Option<nat> {
    if c.stats.None? then None else c.stats.value.nulls
  }

  /** Every value of the column, group by group. */
  function Values(chunks: seq<Chunk>): seq<Value> {
    if chunks == [] then [] else chunks[0].values + Values(chunks[1..])
  }

  /** The column's nulls over every group; nothing when a group does not count them. */
  method SumNulls(chunks: seq<Chunk>) returns (n: Option<nat>)
    requires forall i :: 0 <= i < |chunks| ==> Right(chunks[i])
    ensures n.Some? <==> forall i :: 0 <= i < |chunks| ==> CountOf(chunks[i]).Some?
    ensures n.Some? ==> n.value == NullsIn(Values(chunks))
  {
    var sum := 0;
    for i := 0 to |chunks|
      invariant forall j :: 0 <= j < i ==> CountOf(chunks[j]).Some?
      invariant sum + NullsIn(Values(chunks[i..])) == NullsIn(Values(chunks))
    {
      var c := CountOf(chunks[i]);
      if c.None? {
        return None;
      }
      assert chunks[i..][1..] == chunks[i + 1..];
      NullsConcat(chunks[i].values, Values(chunks[i + 1..]));
      sum := sum + c.value;
    }
    n := Some(sum);
  }

  lemma {:induction false} NullsConcat(a: seq<Value>, b: seq<Value>)
    ensures NullsIn(a + b) == NullsIn(a) + NullsIn(b)
  {
    if a == [] {
      assert a + b == b;
    } else {
      assert (a + b)[1..] == a[1..] + b;
      NullsConcat(a[1..], b);
    }
  }
}
