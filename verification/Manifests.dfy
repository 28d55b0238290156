/**
 Manifests and the file entries they list; putting entries in path order, and the text that a data
 hash is taken of.
 */
module Manifests {
  import opened Wrappers
  import opened Order
  import opened Rows

  datatype FileEntry = FileEntry(
    path: string, rows: int, bytes: nat, contractHash: string, nullCounts: map<string, nat>, sha256: string)

  /** A guarantee's last decision over the whole data. */
  datatype Check = Check(holds: bool, snapshotId: Option<nat>)

  datatype Manifest = Manifest(
    contract: string,
    contractHash: string,
    compilationHash: string,
    writtenAt: int,
    rowCount: int,
    failures: map<string, int>,
    valid: bool,
    breached: seq<string>,
    guarantees: map<string, Check>,
    stats: map<string, Value>,
    dataHash: string,
    files: seq<FileEntry>,
    snapshotId: Option<nat>)

  /** A file's entry, as its footer and its bytes give it. */
  function EntryOf(f: DataFile): FileEntry {
    FileEntry(f.path, |f.rows|, f.bytes, f.contractHash, f.nullCounts, f.sha256)
  }

  function Entries(fs: seq<DataFile>): seq<FileEntry> {
    if fs == [] then [] else [EntryOf(fs[0])] + Entries(fs[1..])
  }

  // ── files in path order ─────────────────────────────────────────────────────

  function Insert(e: FileEntry, s: seq<FileEntry>): seq<FileEntry> {
    if s == [] || AtMost(e.path, s[0].path) then [e] + s else [s[0]] + Insert(e, s[1..])
  }

  /** The entries in path order. */
  function Sorted(s: seq<FileEntry>): seq<FileEntry> {
    if s == [] then [] else Insert(s[0], Sorted(s[1..]))
  }

  ghost predicate InOrder(s: seq<FileEntry>) {
    forall i, j :: 0 <= i < j < |s| ==> AtMost(s[i].path, s[j].path)
  }

  ghost predicate OncePerPath(s: seq<FileEntry>) {
    forall i, j :: 0 <= i < j < |s| ==> s[i].path != s[j].path
  }

  lemma FirstBefore(first: FileEntry, rest: seq<FileEntry>)
    requires InOrder(rest) && forall x :: x in rest ==> AtMost(first.path, x.path)
    ensures InOrder([first] + rest)
  {
  }

  lemma {:induction false} InsertIn(e: FileEntry, s: seq<FileEntry>)
    ensures forall x :: x in Insert(e, s) ==> x == e || x in s
  {
    if s != [] && !AtMost(e.path, s[0].path) {
      InsertIn(e, s[1..]);
    }
  }

  lemma {:induction false} InsertKeeps(e: FileEntry, s: seq<FileEntry>)
    requires InOrder(s)
    ensures InOrder(Insert(e, s)) && multiset(Insert(e, s)) == multiset(s) + multiset{e}
  {
    if s == [] {
    } else if AtMost(e.path, s[0].path) {
      forall j | 0 <= j < |s|
        ensures AtMost(e.path, s[j].path)
      {
        if j > 0 {
          AtMostTransitive(e.path, s[0].path, s[j].path);
        }
      }
    } else {
      assert s == [s[0]] + s[1..];
      InsertKeeps(e, s[1..]);
      Total(e.path, s[0].path);
      InsertIn(e, s[1..]);
      FirstBefore(s[0], Insert(e, s[1..]));
    }
  }

  lemma {:induction false} SortedKeeps(s: seq<FileEntry>)
    ensures InOrder(Sorted(s)) && multiset(Sorted(s)) == multiset(s)
  {
    if s != [] {
      SortedKeeps(s[1..]);
      InsertKeeps(s[0], Sorted(s[1..]));
      assert s == [s[0]] + s[1..];
    }
  }

  lemma OncePerPathPermuted(a: seq<FileEntry>, b: seq<FileEntry>)
    requires multiset(a) == multiset(b) && OncePerPath(a)
    ensures OncePerPath(b)
  {
    forall i, j | 0 <= i < j < |b|
      ensures b[i].path != b[j].path
    {
      if b[i].path == b[j].path {
        assert b[i] in multiset(a) && b[j] in multiset(a);
        var k :| 0 <= k < |a| && a[k] == b[i];
        var l :| 0 <= l < |a| && a[l] == b[j];
        assert k == l;
        TwiceIn(b, i, j);
        TwiceIs(a, k);
      }
    }
  }

  lemma TwiceIn(s: seq<FileEntry>, i: nat, j: nat)
    requires i < j < |s| && s[i] == s[j]
    ensures multiset(s)[s[i]] >= 2
  {
    assert s == s[..i] + [s[i]] + s[i + 1..j] + [s[j]] + s[j + 1..];
  }

  lemma TwiceIs(s: seq<FileEntry>, k: nat)
    requires k < |s| && OncePerPath(s)
    ensures multiset(s)[s[k]] == 1
  {
    assert s == s[..k] + [s[k]] + s[k + 1..];
    assert s[k] !in s[..k] && s[k] !in s[k + 1..];
  }

  lemma FirstSame(a: seq<FileEntry>, b: seq<FileEntry>)
    requires InOrder(a) && InOrder(b) && multiset(a) == multiset(b) && OncePerPath(a) && a != [] && b != []
    ensures a[0] == b[0]
  {
    assert a[0] in multiset(b) && b[0] in multiset(a);
    var i :| 0 <= i < |b| && b[i] == a[0];
    var j :| 0 <= j < |a| && a[j] == b[0];
    assert i > 0 ==> AtMost(b[0].path, a[0].path);
    assert j > 0 ==> AtMost(a[0].path, b[0].path);
    Total(a[0].path, b[0].path);
  }

  lemma WithoutFirst<T>(a: seq<T>, b: seq<T>)
    requires a != [] && b != [] && a[0] == b[0] && multiset(a) == multiset(b)
    ensures multiset(a[1..]) == multiset(b[1..])
  {
    assert a == [a[0]] + a[1..] && b == [b[0]] + b[1..];
    assert multiset(a[1..]) == multiset(a) - multiset{a[0]};
    assert multiset(b[1..]) == multiset(b) - multiset{b[0]};
  }

  /** There is one way to put entries of different paths in path order. */
  lemma {:induction false} OneOrder(a: seq<FileEntry>, b: seq<FileEntry>)
    requires InOrder(a) && InOrder(b) && multiset(a) == multiset(b) && OncePerPath(a)
    ensures a == b
    decreases |a|
  {
    SameLength(a, b);
    if a != [] {
      FirstSame(a, b);
      WithoutFirst(a, b);
      OneOrder(a[1..], b[1..]);
      assert a == [a[0]] + a[1..] && b == [b[0]] + b[1..];
    }
  }

  lemma SortedOnce(a: seq<FileEntry>, b: seq<FileEntry>)
    requires multiset(a) == multiset(b) && OncePerPath(a)
    ensures Sorted(a) == Sorted(b)
  {
    SortedKeeps(a);
    SortedKeeps(b);
    OncePerPathPermuted(a, Sorted(a));
    OneOrder(Sorted(a), Sorted(b));
  }

  // ── the hash of the files ───────────────────────────────────────────────────

  function Line(e: FileEntry): string {
    e.path + ":" + e.sha256 + "\n"
  }

  function Lines(s: seq<FileEntry>): string {
    if s == [] then "" else Line(s[0]) + Lines(s[1..])
  }

  /** The text the data hash is taken of. */
  function HashText(files: seq<FileEntry>): string {
    Lines(Sorted(files))
  }

  method DataHashText(files: seq<FileEntry>) returns (acc: string)
    ensures acc == HashText(files)
  {
    var sorted := Sorted(files);
    acc := "";
    for i := 0 to |sorted|
      invariant acc + Lines(sorted[i..]) == Lines(sorted)
    {
      LineAdded(acc, sorted, i);
      acc := acc + sorted[i].path;
      acc := acc + ":";
      acc := acc + sorted[i].sha256;
      acc := acc + "\n";
    }
  }

  lemma LineAdded(acc: string, s: seq<FileEntry>, i: nat)
    requires i < |s|
    ensures acc + s[i].path + ":" + s[i].sha256 + "\n" + Lines(s[i + 1..]) == acc + Lines(s[i..])
  {
    assert s[i..] == [s[i]] + s[i + 1..];
    var (line, rest) := (Line(s[i]), Lines(s[i + 1..]));
    assert acc + s[i].path + ":" + s[i].sha256 + "\n" == acc + line;
    assert (acc + line) + rest == acc + (line + rest);
  }

  /** A file's path and the hash of its bytes: all the data hash reads of an entry. */
  function Pair(e: FileEntry): (string, string) {
    (e.path, e.sha256)
  }

  function Pairs(s: seq<FileEntry>): seq<(string, string)> {
    if s == [] then [] else [Pair(s[0])] + Pairs(s[1..])
  }

  /** What every hash is like: 64 characters none of which is a newline. */
  predicate Hashed(s: seq<FileEntry>) {
    forall e :: e in s ==> |e.sha256| == 64 && '\n' !in e.sha256
  }

  /** At `i` a text reads as the end of a line: a colon, 64 characters of a hash, and a newline. */
  predicate EndsAt(text: string, i: nat) {
    i + 65 < |text| && text[i] == ':' && text[i + 65] == '\n' && '\n' !in text[i + 1..i + 65]
  }

  /** The first such place from `i` on. */
  function FirstEnd(text: string, i: nat): (end: Option<nat>)
    ensures end.Some? ==> i <= end.value && EndsAt(text, end.value)
    ensures forall k: nat :: i <= k && EndsAt(text, k) ==> end.Some? && end.value <= k
    decreases |text| - i
  {
    if i >= |text| then None else if EndsAt(text, i) then Some(i) else FirstEnd(text, i + 1)
  }

  /** The pairs a text is read as, line by line. */
  function ReadPairs(text: string): seq<(string, string)>
    decreases |text|
  {
    var end := FirstEnd(text, 0);
    if end.None? then []
    else [(text[..end.value], text[end.value + 1..end.value + 65])] + ReadPairs(text[end.value + 66..])
  }

  /** The pairs one file's line is read as: its path is cut wherever it reads as the end of a line. */
  function CutPath(path: string, sha256: string): seq<(string, string)>
    decreases |path|
  {
    var end := FirstEnd(path, 0);
    if end.None? then [(path, sha256)]
    else [(path[..end.value], path[end.value + 1..end.value + 65])] + CutPath(path[end.value + 66..], sha256)
  }

  function CutAll(s: seq<FileEntry>): seq<(string, string)> {
    if s == [] then [] else CutPath(s[0].path, s[0].sha256) + CutAll(s[1..])
  }

  function LineOf(pair: (string, string)): string {
    pair.0 + ":" + pair.1 + "\n"
  }

  function WritePairs(pairs: seq<(string, string)>): string {
    if pairs == [] then "" else LineOf(pairs[0]) + WritePairs(pairs[1..])
  }

  /** Before the hash of a line begins, the text reads as the end of one just where its path does. */
  lemma EndsInPath(path: string, sha256: string, more: string, i: nat)
    requires |sha256| == 64 && '\n' !in sha256 && i <= |path|
    ensures EndsAt(LineOf((path, sha256)) + more, i) <==> i == |path| || EndsAt(path, i)
  {
    var text := LineOf((path, sha256)) + more;
    assert forall k :: 0 <= k < 64 ==> text[|path| + 1 + k] == sha256[k];
    assert text[|path| + 1..|path| + 65] == sha256;
    assert text[..|path|] == path;
    if i + 65 < |path| {
      assert text[i + 1..i + 65] == path[i + 1..i + 65];
    } else if i < |path| {
      assert text[i + 65] == if i + 65 == |path| then ':' else sha256[i + 65 - |path| - 1];
    }
  }

  lemma FirstIs(text: string, i: nat)
    requires EndsAt(text, i) && forall k: nat :: k < i ==> !EndsAt(text, k)
    ensures FirstEnd(text, 0) == Some(i)
  {
    assert FirstEnd(text, 0).Some?;
  }

  /** A line ends first where its path first reads as the end of one, or else after the path. */
  lemma FirstInLine(path: string, sha256: string, more: string)
    requires |sha256| == 64 && '\n' !in sha256
    ensures var end := FirstEnd(path, 0);
            FirstEnd(LineOf((path, sha256)) + more, 0) == if end.None? then Some(|path|) else end
  {
    var text := LineOf((path, sha256)) + more;
    forall i: nat | i <= |path|
      ensures EndsAt(text, i) <==> i == |path| || EndsAt(path, i)
    {
      EndsInPath(path, sha256, more, i);
    }
    var end := FirstEnd(path, 0);
    FirstIs(text, if end.None? then |path| else end.value);
  }

  /** What is read at the first end of a line, and what is left. */
  lemma ReadFirst(text: string, k: nat, first: (string, string), more: string)
    requires FirstEnd(text, 0) == Some(k) && first == (text[..k], text[k + 1..k + 65]) && more == text[k + 66..]
    ensures ReadPairs(text) == [first] + ReadPairs(more)
  {
  }

  lemma {:induction false} ReadLine(path: string, sha256: string, more: string)
    requires |sha256| == 64 && '\n' !in sha256
    ensures ReadPairs(LineOf((path, sha256)) + more) == CutPath(path, sha256) + ReadPairs(more)
    decreases |path|
  {
    var (text, end) := (LineOf((path, sha256)) + more, FirstEnd(path, 0));
    FirstInLine(path, sha256, more);
    if end.None? {
      LineParts(path, sha256, more);
      ReadFirst(text, |path|, (path, sha256), more);
    } else {
      var (first, rest) := ((path[..end.value], path[end.value + 1..end.value + 65]), path[end.value + 66..]);
      LineCut(path, sha256, more, end.value);
      ReadFirst(text, end.value, first, LineOf((rest, sha256)) + more);
      ReadLine(rest, sha256, more);
      assert [first] + (CutPath(rest, sha256) + ReadPairs(more)) == ([first] + CutPath(rest, sha256)) + ReadPairs(more);
    }
  }

  lemma LineParts(path: string, sha256: string, more: string)
    requires |sha256| == 64
    ensures var text := LineOf((path, sha256)) + more;
            text[..|path|] == path && text[|path| + 1..|path| + 65] == sha256 && text[|path| + 66..] == more
  {
  }

  lemma LineCut(path: string, sha256: string, more: string, k: nat)
    requires EndsAt(path, k)
    ensures var text := LineOf((path, sha256)) + more;
            && text[..k] == path[..k] && text[k + 1..k + 65] == path[k + 1..k + 65]
            && text[k + 66..] == LineOf((path[k + 66..], sha256)) + more
  {
  }

  /** The text of some lines is read as the pairs of each. */
  lemma {:induction false} ReadLines(a: seq<FileEntry>)
    requires Hashed(a)
    ensures ReadPairs(Lines(a)) == CutAll(a)
  {
    if a != [] {
      assert a[0] in a && Line(a[0]) == LineOf(Pair(a[0]));
      ReadLine(a[0].path, a[0].sha256, Lines(a[1..]));
      ReadLines(a[1..]);
    }
  }

  lemma {:induction false} WriteConcat(a: seq<(string, string)>, b: seq<(string, string)>)
    ensures WritePairs(a + b) == WritePairs(a) + WritePairs(b)
  {
    if a == [] {
      assert a + b == b;
    } else {
      assert (a + b)[1..] == a[1..] + b;
      WriteConcat(a[1..], b);
    }
  }

  lemma PathCut(path: string, k: nat)
    requires EndsAt(path, k)
    ensures path == LineOf((path[..k], path[k + 1..k + 65])) + path[k + 66..]
  {
  }

  lemma {:induction false} WriteCut(path: string, sha256: string)
    ensures WritePairs(CutPath(path, sha256)) == LineOf((path, sha256))
    decreases |path|
  {
    var end := FirstEnd(path, 0);
    if end.None? {
      assert WritePairs([(path, sha256)]) == LineOf((path, sha256)) + WritePairs([]);
    } else {
      var (first, rest) := ((path[..end.value], path[end.value + 1..end.value + 65]), path[end.value + 66..]);
      WriteCut(rest, sha256);
      WriteConcat([first], CutPath(rest, sha256));
      assert WritePairs([first]) == LineOf(first) + WritePairs([]);
      PathCut(path, end.value);
      LineSplit(first, rest, sha256);
    }
  }

  lemma LineSplit(first: (string, string), rest: string, sha256: string)
    ensures LineOf((LineOf(first) + rest, sha256)) == LineOf(first) + LineOf((rest, sha256))
  {
  }

  lemma {:induction false} WriteLines(a: seq<FileEntry>)
    ensures WritePairs(CutAll(a)) == Lines(a)
  {
    if a != [] {
      WriteCut(a[0].path, a[0].sha256);
      WriteConcat(CutPath(a[0].path, a[0].sha256), CutAll(a[1..]));
      WriteLines(a[1..]);
    }
  }

  /** Whatever the paths, two lists of files have one text exactly when their lines, in path order,
      are read as the same pairs. */
  lemma HashTextExactly(a: seq<FileEntry>, b: seq<FileEntry>)
    requires Hashed(a) && Hashed(b)
    ensures HashText(a) == HashText(b) <==> CutAll(Sorted(a)) == CutAll(Sorted(b))
  {
    SortedKeeps(a);
    SortedKeeps(b);
    assert forall e :: e in Sorted(a) ==> e in multiset(a);
    assert forall e :: e in Sorted(b) ==> e in multiset(b);
    ReadLines(Sorted(a));
    ReadLines(Sorted(b));
    WriteLines(Sorted(a));
    WriteLines(Sorted(b));
  }

  /** No path reads anywhere as the end of a line, as none does without a newline in it. */
  ghost predicate Whole(s: seq<FileEntry>)
    ensures (forall e :: e in s ==> '\n' !in e.path) ==> Whole(s)
  {
    forall e, i: nat :: e in s ==> !EndsAt(e.path, i)
  }

  lemma {:induction false} CutWhole(a: seq<FileEntry>)
    requires Whole(a)
    ensures CutAll(a) == Pairs(a)
  {
    if a != [] {
      assert a[0] in a && FirstEnd(a[0].path, 0).None?;
      CutWhole(a[1..]);
    }
  }

  lemma {:induction false} PairsWritten(a: seq<FileEntry>, b: seq<FileEntry>)
    requires Pairs(a) == Pairs(b)
    ensures Lines(a) == Lines(b) && |a| == |b| && forall i :: 0 <= i < |a| ==> a[i].path == b[i].path
  {
    if a != [] && b != [] {
      assert Pairs(a)[0] == Pair(a[0]) && Pairs(b)[0] == Pair(b[0]);
      assert Pairs(a)[1..] == Pairs(a[1..]) && Pairs(b)[1..] == Pairs(b[1..]);
      PairsWritten(a[1..], b[1..]);
    }
  }

  lemma {:induction false} PairsConcat(a: seq<FileEntry>, b: seq<FileEntry>)
    ensures Pairs(a + b) == Pairs(a) + Pairs(b)
  {
    if a == [] {
      assert a + b == b;
    } else {
      assert (a + b)[1..] == a[1..] + b;
      PairsConcat(a[1..], b);
    }
  }

  lemma {:induction false} PairsPermuted(a: seq<FileEntry>, b: seq<FileEntry>)
    requires multiset(a) == multiset(b)
    ensures multiset(Pairs(a)) == multiset(Pairs(b))
    decreases |a|
  {
    SameLength(a, b);
    if a != [] {
      var i := TakeFirst(a, b);
      PairsPermuted(a[1..], b[..i] + b[i + 1..]);
      assert b == b[..i] + ([b[i]] + b[i + 1..]);
      PairsConcat(b[..i], [b[i]] + b[i + 1..]);
      PairsConcat(b[..i], b[i + 1..]);
      assert Pairs([b[i]] + b[i + 1..]) == [Pair(b[i])] + Pairs(b[i + 1..]);
      assert Pairs(a) == [Pair(a[0])] + Pairs(a[1..]);
    }
  }

  /** Insertion sees only the path: entries of the same pairs stay so when one more is put in. */
  lemma {:induction false} InsertPairs(e: FileEntry, f: FileEntry, a: seq<FileEntry>, b: seq<FileEntry>)
    requires Pair(e) == Pair(f) && Pairs(a) == Pairs(b)
    ensures Pairs(Insert(e, a)) == Pairs(Insert(f, b))
  {
    if a != [] && b != [] {
      assert Pairs(a)[0] == Pair(a[0]) && Pairs(b)[0] == Pair(b[0]);
      assert Pairs(a)[1..] == Pairs(a[1..]) && Pairs(b)[1..] == Pairs(b[1..]);
      InsertPairs(e, f, a[1..], b[1..]);
    }
  }

  lemma {:induction false} SortedPairs(a: seq<FileEntry>, b: seq<FileEntry>)
    requires Pairs(a) == Pairs(b)
    ensures Pairs(Sorted(a)) == Pairs(Sorted(b))
  {
    if a != [] && b != [] {
      assert Pairs(a)[0] == Pair(a[0]) && Pairs(b)[0] == Pair(b[0]);
      assert Pairs(a)[1..] == Pairs(a[1..]) && Pairs(b)[1..] == Pairs(b[1..]);
      SortedPairs(a[1..], b[1..]);
      InsertPairs(a[0], b[0], Sorted(a[1..]), Sorted(b[1..]));
    }
  }

  lemma TakePair(a: seq<FileEntry>, ps: seq<(string, string)>) returns (i: nat)
    requires multiset(Pairs(a)) == multiset(ps) && ps != []
    ensures i < |a| && Pair(a[i]) == ps[0]
    ensures multiset(Pairs(a[..i] + a[i + 1..])) == multiset(ps[1..])
  {
    i := TakeFirst(ps, Pairs(a));
    PairsAll(a);
    PairsAt(a, i);
    PairsConcat(a[..i], a[i + 1..]);
  }

  /** Puts `a` in the order whose pairs are `ps`. */
  lemma {:induction false} Arranged(a: seq<FileEntry>, ps: seq<(string, string)>) returns (b: seq<FileEntry>)
    requires multiset(Pairs(a)) == multiset(ps)
    ensures multiset(b) == multiset(a) && Pairs(b) == ps
    decreases |ps|
  {
    if ps == [] {
      SameLength(Pairs(a), ps);
      PairsAll(a);
      b := [];
    } else {
      var i := TakePair(a, ps);
      var tail := Arranged(a[..i] + a[i + 1..], ps[1..]);
      b := [a[i]] + tail;
      PutBack(a, i, tail);
      assert Pairs(b) == [Pair(a[i])] + Pairs(tail);
    }
  }

  lemma PutBack(a: seq<FileEntry>, i: nat, tail: seq<FileEntry>)
    requires i < |a| && multiset(tail) == multiset(a[..i] + a[i + 1..])
    ensures multiset([a[i]] + tail) == multiset(a)
  {
    assert a == a[..i] + ([a[i]] + a[i + 1..]);
    assert multiset(a) == multiset(a[..i]) + multiset([a[i]]) + multiset(a[i + 1..]);
    assert multiset(a[..i] + a[i + 1..]) == multiset(a[..i]) + multiset(a[i + 1..]);
    assert multiset([a[i]] + tail) == multiset([a[i]]) + multiset(tail);
  }

  lemma {:induction false} PairsAll(a: seq<FileEntry>)
    ensures |Pairs(a)| == |a| && forall i :: 0 <= i < |a| ==> Pairs(a)[i] == Pair(a[i])
  {
    if a != [] {
      PairsAll(a[1..]);
    }
  }

  lemma PairsAt(a: seq<FileEntry>, i: nat)
    requires i < |a| && |Pairs(a)| == |a|
    ensures Pairs(a)[i] == Pair(a[i])
    ensures Pairs(a[..i]) == Pairs(a)[..i] && Pairs(a[i + 1..]) == Pairs(a)[i + 1..]
  {
    PairsAll(a);
    PairsAll(a[..i]);
    PairsAll(a[i + 1..]);
  }

  /** The text is the same exactly for the lists of files that hold the same pairs of path and
      hash, in whatever order, when no path is there twice or reads as the end of a line. */
  lemma HashTextReads(a: seq<FileEntry>, b: seq<FileEntry>)
    requires Hashed(a) && Hashed(b) && Whole(a) && Whole(b) && OncePerPath(a)
    ensures HashText(a) == HashText(b) <==> multiset(Pairs(a)) == multiset(Pairs(b))
  {
    SortedKeeps(a);
    SortedKeeps(b);
    PairsPermuted(Sorted(a), a);
    PairsPermuted(Sorted(b), b);
    assert forall e :: e in Sorted(a) ==> e in multiset(a);
    assert forall e :: e in Sorted(b) ==> e in multiset(b);
    CutWhole(Sorted(a));
    CutWhole(Sorted(b));
    HashTextExactly(a, b);
    if multiset(Pairs(a)) == multiset(Pairs(b)) {
      var c := Arranged(a, Pairs(b));
      SortedOnce(a, c);
      SortedPairs(c, b);
      PairsWritten(Sorted(c), Sorted(b));
    }
  }

  /** Of any two paths in order, one file whose path holds the first one's line has the text of two. */
  lemma NewlineCollides(p: string, x: string, q: string, y: string)
    requires AtMost(p, q)
    ensures HashText([FileEntry(p + ":" + x + "\n" + q, 0, 0, "", map[], y)])
         == HashText([FileEntry(p, 0, 0, "", map[], x), FileEntry(q, 0, 0, "", map[], y)])
  {
    var one := FileEntry(p + ":" + x + "\n" + q, 0, 0, "", map[], y);
    var a, b := FileEntry(p, 0, 0, "", map[], x), FileEntry(q, 0, 0, "", map[], y);
    assert Sorted([one]) == [one] && Lines([one]) == Line(one);
    assert [a, b][1..] == [b] && Sorted([b]) == [b];
    assert Sorted([a, b]) == [a, b];
    assert Lines([a, b]) == Line(a) + Line(b);
    assert Line(one) == Line(a) + Line(b);
  }

  // ── statistics from the entries ─────────────────────────────────────────────

  /** Nulls of one column summed over files, when every file counts them. */
  function NullSum(files: seq<FileEntry>, column: string): Option<nat> {
    if files == [] then Some(0)
    else if column !in files[0].nullCounts then None
    else
      var rest := NullSum(files[1..], column);
      if rest.None? then None else Some(files[0].nullCounts[column] + rest.value)
  }

  method TableStats(m: Manifest, columns: seq<string>) returns (rows: int, nulls: map<string, nat>)
    ensures rows == m.rowCount
    ensures forall c :: c in nulls <==> c in columns && NullSum(m.files, c).Some?
    ensures forall c :: c in nulls ==> Some(nulls[c]) == NullSum(m.files, c)
  {
    rows, nulls := m.rowCount, map[];
    for i := 0 to |columns|
      invariant forall c :: c in nulls <==> c in columns[..i] && NullSum(m.files, c).Some?
      invariant forall c :: c in nulls ==> Some(nulls[c]) == NullSum(m.files, c)
    {
      var n := NullSum(m.files, columns[i]);
      if n.Some? {
        nulls := nulls[columns[i] := n.value];
      }
    }
  }

  predicate FlagsCurrent(files: seq<FileEntry>, contractHash: string) {
    files != [] && forall f :: f in files ==> f.contractHash == contractHash
  }
}
