/**
 Splitting rows into those that pass and those set aside, in one call and over the parts of a write.
 */
module Violation {
  import opened Wrappers
  import opened Rows
  import opened Facts

  const VIOLATIONS_COLUMN := "_violations"

  /** A batch of rows: the columns it has with their types, and its rows. */
  datatype Batch = Batch(types: map<string, Type>, rows: seq<Row>)

  /** A row set aside: the row schema's columns of it, and the rules it broke. */
  datatype SetAside = SetAside(row: Row, rules: seq<string>)

  datatype Split = Split(
    passing: seq<seq<Row>>, passingRows: nat, breaking: Option<seq<SetAside>>, counts: map<string, nat>)

  datatype SplitError = NamesViolations | NoFlag(column: string) | NotBoolean(column: string) | NoColumn(name: string)

  // ── which rules a row breaks ────────────────────────────────────────────────

  predicate Enforced(f: Flag) {
    f.onFail == Drop || f.onFail == Deny
  }

  /** The flags that can set a row aside. */
  function EnforcedFlags(flags: seq<Flag>): seq<Flag> {
    if flags == [] then []
    else (if Enforced(flags[0]) then [flags[0]] else []) + EnforcedFlags(flags[1..])
  }

  /** Whether a row's stored flag says it passes; a null does not pass. */
  predicate Flagged(f: Flag, row: Row) {
    Column(row, f.column) == Bool(true)
  }

  /** The rules a row breaks, in the contract's order. */
  function Rules(flags: seq<Flag>, row: Row): seq<string> {
    if flags == [] then []
    else (if Flagged(flags[0], row) then [] else [flags[0].assertId]) + Rules(flags[1..], row)
  }

  function Project(row: Row, schema: seq<string>): Row {
    map n | n in row && n in schema :: row[n]
  }

  function Passing(flags: seq<Flag>, rows: seq<Row>): seq<Row> {
    if rows == [] then []
    else (if Rules(flags, rows[0]) == [] then [rows[0]] else []) + Passing(flags, rows[1..])
  }

  function Breaking(flags: seq<Flag>, schema: seq<string>, rows: seq<Row>): seq<SetAside> {
    if rows == [] then []
    else
      (if Rules(flags, rows[0]) == [] then [] else [SetAside(Project(rows[0], schema), Rules(flags, rows[0]))])
      + Breaking(flags, schema, rows[1..])
  }

  function Unflagged(f: Flag, rows: seq<Row>): nat {
    if rows == [] then 0 else (if Flagged(f, rows[0]) then 0 else 1) + Unflagged(f, rows[1..])
  }

  /** Rows that break the rule `id`. */
  function BreakRule(flags: seq<Flag>, id: string, rows: seq<Row>): nat {
    if flags == [] then 0
    else (if flags[0].assertId == id then Unflagged(flags[0], rows) else 0) + BreakRule(flags[1..], id, rows)
  }

  function Given(batches: seq<Batch>): seq<Row> {
    if batches == [] then [] else batches[0].rows + Given(batches[1..])
  }

  function Joined(batches: seq<seq<Row>>): seq<Row> {
    if batches == [] then [] else batches[0] + Joined(batches[1..])
  }

  // ── when rows can be split ──────────────────────────────────────────────────

  ghost predicate BatchOk(flags: seq<Flag>, schema: seq<string>, b: Batch) {
    && (forall i :: 0 <= i < |flags| ==> flags[i].column in b.types && b.types[flags[i].column] == BoolT)
    && ((forall r :: r in b.rows ==> Rules(flags, r) == []) || forall n :: n in schema ==> n in b.types)
  }

  ghost predicate Splittable(flags: seq<Flag>, schema: seq<string>, batches: seq<Batch>) {
    "_violations" !in schema && forall b :: b in batches ==> BatchOk(flags, schema, b)
  }

  /** Counts by rule: present exactly for the rules some row breaks. */
  ghost predicate CountsRight(counts: map<string, nat>, flags: seq<Flag>, rows: seq<Row>) {
    forall id ::
      && (id in counts <==> BreakRule(flags, id, rows) > 0)
      && (id in counts ==> counts[id] == BreakRule(flags, id, rows))
  }

  ghost predicate SplitRight(s: Split, flags: seq<Flag>, schema: seq<string>, rows: seq<Row>) {
    && Joined(s.passing) == Passing(flags, rows) && s.passingRows == |Passing(flags, rows)|
    && (if Breaking(flags, schema, rows) == [] then s.breaking == None
        else s.breaking == Some(Breaking(flags, schema, rows)))
    && CountsRight(s.counts, flags, rows)
  }

  // ── lemmas ──────────────────────────────────────────────────────────────────

  lemma {:induction false} PassingConcat(flags: seq<Flag>, a: seq<Row>, b: seq<Row>)
    ensures Passing(flags, a + b) == Passing(flags, a) + Passing(flags, b)
  {
    if a == [] {
      assert a + b == b;
    } else {
      assert (a + b)[1..] == a[1..] + b;
      PassingConcat(flags, a[1..], b);
    }
  }

  lemma {:induction false} BreakingConcat(flags: seq<Flag>, schema: seq<string>, a: seq<Row>, b: seq<Row>)
    ensures Breaking(flags, schema, a + b) == Breaking(flags, schema, a) + Breaking(flags, schema, b)
  {
    if a == [] {
      assert a + b == b;
    } else {
      assert (a + b)[1..] == a[1..] + b && (a + b)[0] == a[0];
      BreakingConcat(flags, schema, a[1..], b);
      var first := if Rules(flags, a[0]) == [] then []
                   else [SetAside(Project(a[0], schema), Rules(flags, a[0]))];
      assert Breaking(flags, schema, a) == first + Breaking(flags, schema, a[1..]);
      assert Breaking(flags, schema, a + b) == first + Breaking(flags, schema, a[1..] + b);
    }
  }

  lemma {:induction false} UnflaggedConcat(f: Flag, a: seq<Row>, b: seq<Row>)
    ensures Unflagged(f, a + b) == Unflagged(f, a) + Unflagged(f, b)
  {
    if a == [] {
      assert a + b == b;
    } else {
      assert (a + b)[1..] == a[1..] + b;
      UnflaggedConcat(f, a[1..], b);
    }
  }

  lemma {:induction false} BreakRuleConcat(flags: seq<Flag>, id: string, a: seq<Row>, b: seq<Row>)
    ensures BreakRule(flags, id, a + b) == BreakRule(flags, id, a) + BreakRule(flags, id, b)
  {
    if flags != [] {
      UnflaggedConcat(flags[0], a, b);
      BreakRuleConcat(flags[1..], id, a, b);
    }
  }

  lemma {:induction false} BreakRuleFlags(x: seq<Flag>, y: seq<Flag>, id: string, rows: seq<Row>)
    ensures BreakRule(x + y, id, rows) == BreakRule(x, id, rows) + BreakRule(y, id, rows)
  {
    if x == [] {
      assert x + y == y;
    } else {
      assert (x + y)[1..] == x[1..] + y;
      BreakRuleFlags(x[1..], y, id, rows);
    }
  }

  lemma {:induction false} RulesFlags(x: seq<Flag>, y: seq<Flag>, row: Row)
    ensures Rules(x + y, row) == Rules(x, row) + Rules(y, row)
  {
    if x == [] {
      assert x + y == y;
    } else {
      assert (x + y)[1..] == x[1..] + y;
      RulesFlags(x[1..], y, row);
    }
  }

  lemma {:induction false} JoinedMore(bs: seq<seq<Row>>, b: seq<Row>)
    ensures Joined(bs + [b]) == Joined(bs) + b
  {
    if bs == [] {
      assert bs + [b] == [b];
    } else {
      assert (bs + [b])[1..] == bs[1..] + [b];
      JoinedMore(bs[1..], b);
    }
  }

  lemma {:induction false} GivenMore(bs: seq<Batch>, b: Batch)
    ensures Given(bs + [b]) == Given(bs) + b.rows
  {
    if bs == [] {
      assert bs + [b] == [b];
    } else {
      assert (bs + [b])[1..] == bs[1..] + [b];
      GivenMore(bs[1..], b);
    }
  }

  lemma {:induction false} NoneBreaks(flags: seq<Flag>, schema: seq<string>, rows: seq<Row>)
    ensures |Passing(flags, rows)| + |Breaking(flags, schema, rows)| == |rows|
    ensures Breaking(flags, schema, rows) == [] <==> forall r :: r in rows ==> Rules(flags, r) == []
  {
    if rows != [] {
      assert rows[0] in rows;
      NoneBreaks(flags, schema, rows[1..]);
    }
  }

  lemma CountsAdd(a: map<string, nat>, b: map<string, nat>, c: map<string, nat>, flags: seq<Flag>, x: seq<Row>,
                  y: seq<Row>)
    requires CountsRight(a, flags, x) && CountsRight(b, flags, y) && Added(a, b, c)
    ensures CountsRight(c, flags, x + y)
  {
    forall id
      ensures (id in c <==> BreakRule(flags, id, x + y) > 0) && (id in c ==> c[id] == BreakRule(flags, id, x + y))
    {
      BreakRuleConcat(flags, id, x, y);
    }
  }

  function CountOf(m: map<string, nat>, id: string): nat {
    if id in m then m[id] else 0
  }

  ghost predicate Added(a: map<string, nat>, b: map<string, nat>, c: map<string, nat>) {
    forall id :: (id in c <==> id in a || id in b) && CountOf(c, id) == CountOf(a, id) + CountOf(b, id)
  }

  // ── splitting ───────────────────────────────────────────────────────────────

  /** What an error says of a batch is so. */
  ghost predicate FaultOf(error: SplitError, flags: seq<Flag>, schema: seq<string>, b: Batch) {
    match error
    case NamesViolations => false
    case NoFlag(column) => column !in b.types && exists i :: 0 <= i < |flags| && flags[i].column == column
    case NotBoolean(column) =>
      column in b.types && b.types[column] != BoolT && exists i :: 0 <= i < |flags| && flags[i].column == column
    case NoColumn(name) => name in schema && name !in b.types
  }

  method CheckFlags(flags: seq<Flag>, b: Batch) returns (r: Result<(), SplitError>)
    ensures r.Err? ==> FaultOf(r.error, flags, [], b)
    ensures r.Ok? <==> forall i :: 0 <= i < |flags| ==> flags[i].column in b.types && b.types[flags[i].column] == BoolT
  {
    for i := 0 to |flags|
      invariant forall j :: 0 <= j < i ==> flags[j].column in b.types && b.types[flags[j].column] == BoolT
    {
      if flags[i].column !in b.types {
        return Err(NoFlag(flags[i].column));
      }
      if b.types[flags[i].column] != BoolT {
        return Err(NotBoolean(flags[i].column));
      }
    }
    r := Ok(());
  }

  method CheckColumns(schema: seq<string>, b: Batch) returns (r: Result<(), SplitError>)
    ensures r.Err? ==> FaultOf(r.error, [], schema, b)
    ensures r.Ok? <==> forall n :: n in schema ==> n in b.types
  {
    for i := 0 to |schema|
      invariant forall j :: 0 <= j < i ==> schema[j] in b.types
    {
      if schema[i] !in b.types {
        return Err(NoColumn(schema[i]));
      }
    }
    r := Ok(());
  }

  method CountFailed(f: Flag, rows: seq<Row>) returns (n: nat)
    ensures n == Unflagged(f, rows)
  {
    n := 0;
    for i := 0 to |rows|
      invariant n + Unflagged(f, rows[i..]) == Unflagged(f, rows)
    {
      assert rows[i..][1..] == rows[i + 1..];
      if !Flagged(f, rows[i]) {
        n := n + 1;
      }
    }
  }

  /** Adds one batch's failing rows to the counts by rule. */
  method CountBatch(counts: map<string, nat>, flags: seq<Flag>, rows: seq<Row>, ghost was: seq<Row>)
    returns (out: map<string, nat>)
    requires CountsRight(counts, flags, was)
    ensures CountsRight(out, flags, was + rows)
  {
    out := counts;
    for i := 0 to |flags|
      invariant forall id :: (id in out <==> id in counts || BreakRule(flags[..i], id, rows) > 0)
      invariant forall id :: CountOf(out, id) == CountOf(counts, id) + BreakRule(flags[..i], id, rows)
    {
      assert flags[..i + 1] == flags[..i] + [flags[i]];
      var failed := CountFailed(flags[i], rows);
      forall id
        ensures BreakRule(flags[..i + 1], id, rows) ==
                  BreakRule(flags[..i], id, rows) + (if flags[i].assertId == id then failed else 0)
      {
        BreakRuleFlags(flags[..i], [flags[i]], id, rows);
      }
      if failed > 0 {
        out := out[flags[i].assertId := CountOf(out, flags[i].assertId) + failed];
      }
    }
    assert flags[..|flags|] == flags;
    forall id
      ensures BreakRule(flags, id, was + rows) == BreakRule(flags, id, was) + BreakRule(flags, id, rows)
    {
      BreakRuleConcat(flags, id, was, rows);
    }
  }

  method RulesOf(flags: seq<Flag>, row: Row) returns (rules: seq<string>)
    ensures rules == Rules(flags, row)
  {
    rules := [];
    for i := 0 to |flags|
      invariant rules == Rules(flags[..i], row)
    {
      assert flags[..i + 1] == flags[..i] + [flags[i]];
      RulesFlags(flags[..i], [flags[i]], row);
      if !Flagged(flags[i], row) {
        rules := rules + [flags[i].assertId];
      }
    }
    assert flags[..|flags|] == flags;
  }

  /** One batch, row by row. */
  method SplitBatch(flags: seq<Flag>, schema: seq<string>, rows: seq<Row>)
    returns (kept: seq<Row>, aside: seq<SetAside>)
    ensures kept == Passing(flags, rows) && aside == Breaking(flags, schema, rows)
  {
    kept, aside := [], [];
    for i := 0 to |rows|
      invariant kept == Passing(flags, rows[..i]) && aside == Breaking(flags, schema, rows[..i])
    {
      assert rows[..i + 1] == rows[..i] + [rows[i]];
      PassingConcat(flags, rows[..i], [rows[i]]);
      BreakingConcat(flags, schema, rows[..i], [rows[i]]);
      var rules := RulesOf(flags, rows[i]);
      if rules == [] {
        kept := kept + [rows[i]];
      } else {
        aside := aside + [SetAside(Project(rows[i], schema), rules)];
      }
    }
    assert rows[..|rows|] == rows;
  }

  /** What has been split of the batches so far. */
  ghost predicate SoFar(s: Split, aside: seq<SetAside>, flags: seq<Flag>, schema: seq<string>, rows: seq<Row>) {
    && Joined(s.passing) == Passing(flags, rows) && s.passingRows == |Passing(flags, rows)|
    && aside == Breaking(flags, schema, rows) && s.breaking.None? && CountsRight(s.counts, flags, rows)
  }

  lemma SoFarMore(s: Split, aside: seq<SetAside>, flags: seq<Flag>, schema: seq<string>, was: seq<Row>, rows: seq<Row>,
                  counts: map<string, nat>)
    requires SoFar(s, aside, flags, schema, was) && CountsRight(counts, flags, was + rows)
    ensures var whole := Passing(flags, rows);
            SoFar(Split(s.passing + [whole], s.passingRows + |whole|, None, counts),
                  aside + Breaking(flags, schema, rows), flags, schema, was + rows)
  {
    PassingConcat(flags, was, rows);
    BreakingConcat(flags, schema, was, rows);
    JoinedMore(s.passing, Passing(flags, rows));
  }

  /** Splits one more batch; refused exactly when it cannot be split. */
  method SplitMore(s: Split, aside: seq<SetAside>, b: Batch, flags: seq<Flag>, schema: seq<string>, ghost was: seq<Row>)
    returns (r: Result<(Split, seq<SetAside>), SplitError>)
    requires SoFar(s, aside, flags, schema, was)
    ensures r.Ok? <==> BatchOk(flags, schema, b)
    ensures r.Err? ==> FaultOf(r.error, flags, schema, b)
    ensures r.Ok? ==> SoFar(r.value.0, r.value.1, flags, schema, was + b.rows)
  {
    NoneBreaks(flags, schema, b.rows);
    var flagged := CheckFlags(flags, b);
    if flagged.Err? {
      return Err(flagged.error);
    }
    var counts := CountBatch(s.counts, flags, b.rows, was);
    var whole, more := SplitBatch(flags, schema, b.rows);
    SoFarMore(s, aside, flags, schema, was, b.rows, counts);
    if more != [] {
      var columns := CheckColumns(schema, b);
      if columns.Err? {
        return Err(columns.error);
      }
    }
    r := Ok((Split(s.passing + [whole], s.passingRows + |whole|, None, counts), aside + more));
  }

  /** Rows with a stored flag for every rule, into those that pass every rule and those that break
      one; refused exactly when the rows cannot be split. */
  method SplitRows(batches: seq<Batch>, flags: seq<Flag>, schema: seq<string>) returns (r: Result<Split, SplitError>)
    ensures r.Ok? <==> Splittable(flags, schema, batches)
    ensures r == Err(NamesViolations) <==> "_violations" in schema
    ensures r.Err? && !r.error.NamesViolations? ==>
              exists i :: 0 <= i < |batches| && FaultOf(r.error, flags, schema, batches[i])
    ensures r.Ok? ==> SplitRight(r.value, flags, schema, Given(batches))
  {
    if VIOLATIONS_COLUMN in schema {
      return Err(NamesViolations);
    }
    var s, aside: seq<SetAside> := Split([], 0, None, map[]), [];
    ZeroBreak(flags);
    for i := 0 to |batches|
      invariant forall j :: 0 <= j < i ==> BatchOk(flags, schema, batches[j])
      invariant SoFar(s, aside, flags, schema, Given(batches[..i]))
    {
      assert batches[..i + 1] == batches[..i] + [batches[i]];
      GivenMore(batches[..i], batches[i]);
      var more := SplitMore(s, aside, batches[i], flags, schema, Given(batches[..i]));
      if more.Err? {
        assert batches[i] in batches;
        return Err(more.error);
      }
      s, aside := more.value.0, more.value.1;
    }
    assert batches[..|batches|] == batches;
    r := Ok(s.(breaking := if aside == [] then None else Some(aside)));
  }

  lemma {:induction false} ZeroBreak(flags: seq<Flag>)
    ensures forall id :: BreakRule(flags, id, []) == 0
  {
    if flags != [] {
      ZeroBreak(flags[1..]);
    }
  }

  // ── what splitting conserves ────────────────────────────────────────────────

  lemma PassingAt(flags: seq<Flag>, rows: seq<Row>, i: nat)
    requires i < |rows| && Rules(flags, rows[i]) == []
    ensures var k := |Passing(flags, rows[..i])|; k < |Passing(flags, rows)| && Passing(flags, rows)[k] == rows[i]
  {
    var rest := rows[i..];
    assert rows == rows[..i] + rest && rest[0] == rows[i];
    PassingConcat(flags, rows[..i], rest);
    assert Passing(flags, rest) == [rows[i]] + Passing(flags, rest[1..]);
  }

  lemma BreakingAt(flags: seq<Flag>, schema: seq<string>, rows: seq<Row>, i: nat)
    requires i < |rows| && Rules(flags, rows[i]) != []
    ensures var (a, aside) := (|Breaking(flags, schema, rows[..i])|, Breaking(flags, schema, rows));
            a < |aside| && aside[a] == SetAside(Project(rows[i], schema), Rules(flags, rows[i]))
  {
    var rest := rows[i..];
    assert rows == rows[..i] + rest && rest[0] == rows[i];
    BreakingConcat(flags, schema, rows[..i], rest);
    assert Breaking(flags, schema, rest) ==
           [SetAside(Project(rows[i], schema), Rules(flags, rows[i]))] + Breaking(flags, schema, rest[1..]);
  }

  /** Every row is kept or set aside, and lands after just those rows of its side that came before
      it: the two sides hold all the rows, in order, and each row set aside has its rules. */
  lemma Partition(flags: seq<Flag>, schema: seq<string>, rows: seq<Row>, i: nat)
    requires i < |rows|
    ensures |Passing(flags, rows)| + |Breaking(flags, schema, rows)| == |rows|
    ensures var (k, a) := (|Passing(flags, rows[..i])|, |Breaking(flags, schema, rows[..i])|);
            && k + a == i
            && if Rules(flags, rows[i]) == [] then k < |Passing(flags, rows)| && Passing(flags, rows)[k] == rows[i]
               else a < |Breaking(flags, schema, rows)|
                    && Breaking(flags, schema, rows)[a] == SetAside(Project(rows[i], schema), Rules(flags, rows[i]))
    ensures var row := Project(rows[i], schema);
            && (forall n :: n in row <==> n in rows[i] && n in schema) && forall n :: n in row ==> row[n] == rows[i][n]
  {
    NoneBreaks(flags, schema, rows);
    NoneBreaks(flags, schema, rows[..i]);
    if Rules(flags, rows[i]) == [] {
      PassingAt(flags, rows, i);
    } else {
      BreakingAt(flags, schema, rows, i);
    }
  }

  /** A row's rules are exactly those whose flag it lacks, in the contract's order. */
  lemma {:induction false} RulesExact(flags: seq<Flag>, row: Row)
    ensures forall id :: id in Rules(flags, row) <==>
              exists i :: 0 <= i < |flags| && flags[i].assertId == id && !Flagged(flags[i], row)
    ensures Rules(flags, row) == [] <==> forall i :: 0 <= i < |flags| ==> Flagged(flags[i], row)
  {
    if flags != [] {
      RulesExact(flags[1..], row);
      assert forall i :: 0 < i < |flags| ==> flags[i] == flags[1..][i - 1];
    }
  }

  /** A row's rules are the ids of the asserts whose flag is not true of it, in the contract's order. */
  lemma {:induction false} RulesInOrder(flags: seq<Flag>, row: Row, unset: Flag -> bool, id: Flag -> string)
    requires forall f :: id(f) == f.assertId && (unset(f) <==> Column(row, f.column) != Bool(true))
    ensures Rules(flags, row) == Chosen(flags, unset, id)
  {
    if flags != [] {
      RulesInOrder(flags[1..], row, unset, id);
      assert id(flags[0]) == flags[0].assertId && (unset(flags[0]) <==> !Flagged(flags[0], row));
      var first := if unset(flags[0]) then [flags[0].assertId] else [];
      assert Rules(flags, row) == first + Rules(flags[1..], row);
      assert Chosen(flags, unset, id) == first + Chosen(flags[1..], unset, id);
    }
  }

  /** Rows that break a rule, each once. */
  function RowsBreaking(flags: seq<Flag>, id: string, rows: seq<Row>): nat {
    if rows == [] then 0 else (if id in Rules(flags, rows[0]) then 1 else 0) + RowsBreaking(flags, id, rows[1..])
  }

  ghost predicate OneFlagEach(flags: seq<Flag>) {
    forall i, j :: 0 <= i < j < |flags| ==> flags[i].assertId != flags[j].assertId
  }

  lemma {:induction false} NoRule(flags: seq<Flag>, id: string, rows: seq<Row>)
    requires forall i :: 0 <= i < |flags| ==> flags[i].assertId != id
    ensures BreakRule(flags, id, rows) == 0 && forall r :: r in rows ==> id !in Rules(flags, r)
  {
    if flags != [] {
      NoRule(flags[1..], id, rows);
    }
  }

  lemma {:induction false} RowBreaks(flags: seq<Flag>, id: string, row: Row)
    requires OneFlagEach(flags)
    ensures BreakRule(flags, id, [row]) == if id in Rules(flags, row) then 1 else 0
  {
    if flags != [] {
      RowBreaks(flags[1..], id, row);
      if flags[0].assertId == id {
        NoRule(flags[1..], id, [row]);
        assert row in [row] && id !in Rules(flags[1..], row);
      }
      assert [row][1..] == [];
      assert Unflagged(flags[0], [row]) == if Flagged(flags[0], row) then 0 else 1;
    }
  }

  /** Which of the rows break a rule. */
  ghost function Breakers(flags: seq<Flag>, id: string, rows: seq<Row>): set<int> {
    set k | 0 <= k < |rows| && id in Rules(flags, rows[k])
  }

  lemma RowsBreakingIs(flags: seq<Flag>, id: string, rows: seq<Row>)
    ensures RowsBreaking(flags, id, rows) == |Breakers(flags, id, rows)|
  {
    var breaks := (row: Row) => id in Rules(flags, row);
    RowsBreakingPlaces(flags, id, rows, breaks);
    assert Places(rows, breaks) == Breakers(flags, id, rows);
  }

  lemma {:induction false} RowsBreakingPlaces(flags: seq<Flag>, id: string, rows: seq<Row>, breaks: Row -> bool)
    requires forall row :: breaks(row) <==> id in Rules(flags, row)
    ensures RowsBreaking(flags, id, rows) == |Places(rows, breaks)|
  {
    if rows != [] {
      RowsBreakingPlaces(flags, id, rows[1..], breaks);
      PlacesStep(rows, breaks);
    }
  }

  /** With one flag a rule, a rule's count is the number of rows that break it. */
  lemma {:induction false} RuleCounts(flags: seq<Flag>, id: string, rows: seq<Row>)
    requires OneFlagEach(flags)
    ensures BreakRule(flags, id, rows) == RowsBreaking(flags, id, rows)
    ensures BreakRule(flags, id, rows) == |Breakers(flags, id, rows)|
  {
    RowsBreakingIs(flags, id, rows);
    if rows == [] {
      ZeroBreak(flags);
    } else {
      RuleCounts(flags, id, rows[1..]);
      assert rows == [rows[0]] + rows[1..];
      BreakRuleConcat(flags, id, [rows[0]], rows[1..]);
      RowBreaks(flags, id, rows[0]);
    }
  }

  // ── which rows a write sets aside ───────────────────────────────────────────

  /** The row has a true flag of every assert that drops or denies. */
  ghost predicate Clean(flags: seq<Flag>, row: Row) {
    forall i :: 0 <= i < |flags| && flags[i].onFail in {Drop, Deny} ==> Column(row, flags[i].column) == Bool(true)
  }

  ghost function CleanRows(flags: seq<Flag>, rows: seq<Row>): seq<Row> {
    if rows == [] then [] else (if Clean(flags, rows[0]) then [rows[0]] else []) + CleanRows(flags, rows[1..])
  }

  /** What is set aside of a row that is not clean: the columns of the row schema it has, and the ids
      of the dropping and denying asserts whose flag is not true of it. */
  ghost predicate AsideOf(flags: seq<Flag>, schema: seq<string>, row: Row, aside: SetAside) {
    && !Clean(flags, row)
    && (forall n :: n in aside.row <==> n in row && n in schema)
    && (forall n :: n in aside.row ==> aside.row[n] == row[n])
    && forall id :: id in aside.rules <==>
         exists i :: 0 <= i < |flags| && flags[i].onFail in {Drop, Deny} && flags[i].assertId == id
                     && Column(row, flags[i].column) != Bool(true)
  }

  lemma {:induction false} EnforcedAre(flags: seq<Flag>)
    ensures forall f :: f in EnforcedFlags(flags) <==> f in flags && f.onFail in {Drop, Deny}
  {
    if flags != [] {
      EnforcedAre(flags[1..]);
    }
  }

  /** A row is set aside exactly when it is not clean, and with what it broke. */
  lemma SetAsideWhen(flags: seq<Flag>, schema: seq<string>, row: Row)
    ensures Rules(EnforcedFlags(flags), row) == [] <==> Clean(flags, row)
    ensures !Clean(flags, row) ==>
              AsideOf(flags, schema, row, SetAside(Project(row, schema), Rules(EnforcedFlags(flags), row)))
  {
    var enforced := EnforcedFlags(flags);
    EnforcedAre(flags);
    RulesExact(enforced, row);
    assert forall i :: 0 <= i < |flags| && flags[i].onFail in {Drop, Deny} ==> flags[i] in enforced;
    assert forall i :: 0 <= i < |enforced| ==> enforced[i] in enforced;
  }

  lemma {:induction false} PassingClean(flags: seq<Flag>, rows: seq<Row>)
    ensures Passing(EnforcedFlags(flags), rows) == CleanRows(flags, rows)
  {
    if rows != [] {
      SetAsideWhen(flags, [], rows[0]);
      PassingClean(flags, rows[1..]);
    }
  }

  /** Where no assert drops or denies every row is clean. */
  lemma {:induction false} NoneEnforced(flags: seq<Flag>, rows: seq<Row>)
    requires EnforcedFlags(flags) == []
    ensures CleanRows(flags, rows) == rows
  {
    if rows != [] {
      SetAsideWhen(flags, [], rows[0]);
      NoneEnforced(flags, rows[1..]);
    }
  }

  lemma {:induction false} AllClean(flags: seq<Flag>, rows: seq<Row>)
    ensures forall k :: 0 <= k < |CleanRows(flags, rows)| ==> Clean(flags, CleanRows(flags, rows)[k])
  {
    if rows != [] {
      AllClean(flags, rows[1..]);
    }
  }

  lemma {:induction false} CleanConcat(flags: seq<Flag>, a: seq<Row>, b: seq<Row>)
    ensures CleanRows(flags, a + b) == CleanRows(flags, a) + CleanRows(flags, b)
  {
    PassingClean(flags, a);
    PassingClean(flags, b);
    PassingClean(flags, a + b);
    PassingConcat(EnforcedFlags(flags), a, b);
  }

  lemma {:induction false} AsideFrom(flags: seq<Flag>, schema: seq<string>, rows: seq<Row>, k: nat)
    returns (row: Row)
    requires k < |Breaking(EnforcedFlags(flags), schema, rows)|
    ensures row in rows && AsideOf(flags, schema, row, Breaking(EnforcedFlags(flags), schema, rows)[k])
  {
    var enforced := EnforcedFlags(flags);
    if Rules(enforced, rows[0]) == [] {
      row := AsideFrom(flags, schema, rows[1..], k);
    } else if k > 0 {
      row := AsideFrom(flags, schema, rows[1..], k - 1);
    } else {
      row := rows[0];
      SetAsideWhen(flags, schema, row);
    }
  }

  lemma BreakingAside(flags: seq<Flag>, schema: seq<string>, rows: seq<Row>)
    ensures var aside := Breaking(EnforcedFlags(flags), schema, rows);
            && |aside| + |CleanRows(flags, rows)| == |rows|
            && forall k :: 0 <= k < |aside| ==> exists row :: row in rows && AsideOf(flags, schema, row, aside[k])
  {
    var enforced := EnforcedFlags(flags);
    PassingClean(flags, rows);
    NoneBreaks(enforced, schema, rows);
    var aside := Breaking(enforced, schema, rows);
    forall k | 0 <= k < |aside|
      ensures exists row :: row in rows && AsideOf(flags, schema, row, aside[k])
    {
      var row := AsideFrom(flags, schema, rows, k);
    }
  }

  /** The count kept of a dropping or denying assert is the number of rows whose flag of it is not
      true; none is kept of one that reports. */
  lemma CountsOf(counts: map<string, nat>, flags: seq<Flag>, rows: seq<Row>, i: nat)
    requires CountsRight(counts, EnforcedFlags(flags), rows) && OneFlagEach(flags) && i < |flags|
    ensures flags[i].onFail in {Drop, Deny} ==>
              CountOf(counts, flags[i].assertId) ==
                |set k | 0 <= k < |rows| && Column(rows[k], flags[i].column) != Bool(true)|
    ensures flags[i].onFail == Report ==> flags[i].assertId !in counts
  {
    EnforcedRule(flags, flags[i].assertId, rows);
    OneRule(flags, rows, i);
    UnflaggedIs(flags[i], rows);
  }

  /** Of one rule the enforced flags count what all the flags that drop or deny do. */
  lemma {:induction false} EnforcedRule(flags: seq<Flag>, id: string, rows: seq<Row>)
    ensures BreakRule(EnforcedFlags(flags), id, rows) == BreakEnforced(flags, id, rows)
  {
    if flags != [] {
      EnforcedRule(flags[1..], id, rows);
      var first := if Enforced(flags[0]) then [flags[0]] else [];
      assert EnforcedFlags(flags) == first + EnforcedFlags(flags[1..]);
      BreakRuleFlags(first, EnforcedFlags(flags[1..]), id, rows);
      assert first != [] ==> first[1..] == [];
    }
  }

  ghost function BreakEnforced(flags: seq<Flag>, id: string, rows: seq<Row>): nat {
    if flags == [] then 0
    else
      (if flags[0].onFail in {Drop, Deny} && flags[0].assertId == id then Unflagged(flags[0], rows) else 0)
      + BreakEnforced(flags[1..], id, rows)
  }

  lemma {:induction false} OneRule(flags: seq<Flag>, rows: seq<Row>, i: nat)
    requires OneFlagEach(flags) && i < |flags|
    ensures BreakEnforced(flags, flags[i].assertId, rows) ==
            if flags[i].onFail in {Drop, Deny} then Unflagged(flags[i], rows) else 0
  {
    if i == 0 {
      OtherRule(flags[1..], flags[0].assertId, rows);
    } else {
      OneRule(flags[1..], rows, i - 1);
    }
  }

  lemma {:induction false} OtherRule(flags: seq<Flag>, id: string, rows: seq<Row>)
    requires forall i :: 0 <= i < |flags| ==> flags[i].assertId != id
    ensures BreakEnforced(flags, id, rows) == 0
  {
    if flags != [] {
      OtherRule(flags[1..], id, rows);
    }
  }

  lemma {:induction false} UnflaggedIs(f: Flag, rows: seq<Row>)
    ensures Unflagged(f, rows) == |set k | 0 <= k < |rows| && Column(rows[k], f.column) != Bool(true)|
  {
    var unset := (row: Row) => Column(row, f.column) != Bool(true);
    UnflaggedPlaces(f, rows, unset);
    assert Places(rows, unset) == set k | 0 <= k < |rows| && Column(rows[k], f.column) != Bool(true);
  }

  lemma {:induction false} UnflaggedPlaces(f: Flag, rows: seq<Row>, unset: Row -> bool)
    requires forall row :: unset(row) <==> Column(row, f.column) != Bool(true)
    ensures Unflagged(f, rows) == |Places(rows, unset)|
  {
    if rows != [] {
      UnflaggedPlaces(f, rows[1..], unset);
      PlacesStep(rows, unset);
    }
  }

  // ── a refused write ─────────────────────────────────────────────────────────

  /** Rules that any row breaks, with how many, from failure counts. */
  function Broken(flags: seq<Flag>, failures: map<string, int>): seq<(string, int)> {
    if flags == [] then []
    else
      (if Enforced(flags[0]) && flags[0].assertId in failures && failures[flags[0].assertId] > 0
       then [(flags[0].assertId, failures[flags[0].assertId])] else []) + Broken(flags[1..], failures)
  }

  /** A write has broken rules exactly when a row of it fails a rule whose rows are dropped or denied. */
  lemma {:induction false} BrokenWhen(flags: seq<Flag>, all: seq<Flag>, failures: map<string, int>, rows: seq<Row>)
    requires failures == Failures(all, rows)
    requires forall i :: 0 <= i < |flags| ==> flags[i].assertId in Asserts(all)
    ensures forall p :: p in Broken(flags, failures) <==>
              exists i :: 0 <= i < |flags| && flags[i].onFail in {Drop, Deny}
                && p == (flags[i].assertId, CountFails(all, flags[i].assertId, rows)) && p.1 > 0
  {
    if flags != [] {
      assert flags[0].assertId in Asserts(all);
      assert forall i :: 0 < i < |flags| ==> flags[i] == flags[1..][i - 1];
      BrokenWhen(flags[1..], all, failures, rows);
    }
  }

  /** And they are named in the contract's order, each with its count. */
  lemma {:induction false} BrokenInOrder(flags: seq<Flag>, failures: map<string, int>, broken: Flag -> bool,
                                         named: Flag -> (string, int))
    requires forall f :: broken(f) <==>
               f.onFail in {Drop, Deny} && f.assertId in failures && failures[f.assertId] > 0
    requires forall f :: broken(f) ==> named(f) == (f.assertId, failures[f.assertId])
    ensures Broken(flags, failures) == Chosen(flags, broken, named)
  {
    if flags != [] {
      BrokenInOrder(flags[1..], failures, broken, named);
    }
  }

  // ── a write in parts ────────────────────────────────────────────────────────

  datatype OnWrite = Refuse | Exclude | Warn

  /** A write begun: what it has counted so far. */
  class Writing {
    const flags: seq<Flag>
    const schema: seq<string>
    const onViolation: OnWrite
    var rows: nat
    var rowsExcluded: nat
    var excluded: map<string, nat>
    /** Every row given to the parts that succeeded, and every row they wrote. */
    ghost var given: seq<Row>
    ghost var written: seq<Row>

    ghost predicate Splits() {
      onViolation == Exclude && EnforcedFlags(flags) != []
    }

    ghost predicate Valid()
      reads this
    {
      && rows == |written| && rows + rowsExcluded == |given|
      && written == (if onViolation == Exclude then CleanRows(flags, given) else given)
      && if Splits() then CountsRight(excluded, EnforcedFlags(flags), given) else excluded == map[]
    }

    constructor (flags: seq<Flag>, schema: seq<string>, onViolation: OnWrite)
      ensures Valid() && given == [] && this.flags == flags && this.schema == schema && this.onViolation == onViolation
    {
      this.flags, this.schema, this.onViolation := flags, schema, onViolation;
      rows, rowsExcluded, excluded := 0, 0, map[];
      given, written := [], [];
      new;
      ZeroBreak(EnforcedFlags(flags));
    }

    method Tally(counts: map<string, nat>)
      modifies this`excluded
      ensures Added(old(excluded), counts, excluded)
    {
      var left := counts.Keys;
      while left != {}
        invariant left <= counts.Keys
        invariant forall id :: id in excluded <==> id in old(excluded) || (id in counts && id !in left)
        invariant forall id :: CountOf(excluded, id) ==
                               CountOf(old(excluded), id) + (if id in counts && id !in left then counts[id] else 0)
      {
        var rule :| rule in left;
        excluded := excluded[rule := CountOf(excluded, rule) + counts[rule]];
        left := left - {rule};
      }
    }

    /** Writes one part; a part that cannot be split changes nothing. Where rows are excluded, just the
        rows are written whose flag of every assert that drops or denies is true, and each other row
        is set aside; else every row is written. Over all the parts so far the rows written, the rows
        set aside and the counts by rule are those of every row given. */
    method WritePart(batches: seq<Batch>) returns (r: Result<Option<seq<SetAside>>, SplitError>)
      requires Valid()
      modifies this
      ensures Valid()
      ensures r.Err? <==> Splits() && !Splittable(EnforcedFlags(flags), schema, batches)
      ensures given == if r.Ok? then old(given) + Given(batches) else old(given)
      ensures r.Err? ==> excluded == old(excluded) && rows == old(rows) && rowsExcluded == old(rowsExcluded)
      ensures written == if r.Err? then old(written)
                         else old(written) + if onViolation == Exclude then CleanRows(flags, Given(batches))
                                             else Given(batches)
      ensures forall k :: |old(written)| <= k < |written| && onViolation == Exclude ==> Clean(flags, written[k])
      ensures r.Ok? && Splits() ==>
                (if r.value.Some? then r.value.value else []) == Breaking(EnforcedFlags(flags), schema, Given(batches))
      ensures r.Ok? ==> |written| - |old(written)| + (if r.value.Some? then |r.value.value| else 0) == |Given(batches)|
      ensures r.Ok? && r.value.Some? ==>
                && onViolation == Exclude && r.value.value != []
                && forall k :: 0 <= k < |r.value.value| ==>
                     exists row :: row in Given(batches) && AsideOf(flags, schema, row, r.value.value[k])
    {
      ghost var part := Given(batches);
      var enforced := EnforcedFlags(flags);
      CleanConcat(flags, given, part);
      PassingClean(flags, part);
      AllClean(flags, part);
      var n := CountRows(batches);
      if onViolation == Exclude && |enforced| > 0 {
        var split := SplitRows(batches, enforced, schema);
        if split.Err? {
          return Err(split.error);
        }
        var s := split.value;
        NoneBreaks(enforced, schema, part);
        BreakingAside(flags, schema, part);
        ghost var before := excluded;
        Tally(s.counts);
        CountsAdd(before, s.counts, excluded, enforced, given, part);
        rowsExcluded := rowsExcluded + (n - s.passingRows);
        rows := rows + s.passingRows;
        given, written := given + part, written + Passing(enforced, part);
        r := Ok(s.breaking);
      } else {
        if onViolation == Exclude {
          NoneEnforced(flags, part);
        }
        rows := rows + n;
        given, written := given + part, written + part;
        r := Ok(None);
      }
    }
  }

  method CountRows(batches: seq<Batch>) returns (n: nat)
    ensures n == |Given(batches)|
  {
    n := 0;
    for i := 0 to |batches|
      invariant n + |Given(batches[i..])| == |Given(batches)|
    {
      assert batches[i..][1..] == batches[i + 1..];
      n := n + |batches[i].rows|;
    }
  }
}
