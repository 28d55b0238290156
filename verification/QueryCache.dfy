/**
 The result cache: the least recently used answers go first when an answer is put that does not
 fit, and every byte held is counted.
 */
module QueryCaches {
  import opened Wrappers

  datatype CacheKey = CacheKey(digest: string, contracts: seq<string>)

  datatype Batch = Batch(data: string, size: nat)

  /** An entry of the cache, its answer's size and when it was put. */
  datatype Slot = Slot(key: CacheKey, batches: seq<Batch>, bytes: nat, at: nat)

  /** An answer as it was put. */
  datatype Put = Put(batches: seq<Batch>, at: nat)

  function SizeOf(batches: seq<Batch>): nat {
    if batches == [] then 0 else batches[0].size + SizeOf(batches[1..])
  }

  function Total(lru: seq<Slot>): nat {
    if lru == [] then 0 else lru[0].bytes + Total(lru[1..])
  }

  function Without(lru: seq<Slot>, key: CacheKey): seq<Slot> {
    if lru == [] then []
    else (if lru[0].key == key then [] else [lru[0]]) + Without(lru[1..], key)
  }

  /** The entries whose answer did not read `contract`. */
  function Unread(lru: seq<Slot>, contract: string): seq<Slot> {
    if lru == [] then []
    else (if contract in lru[0].key.contracts then [] else [lru[0]]) + Unread(lru[1..], contract)
  }

  function Elapsed(now: nat, at: nat): nat {
    if now > at then now - at else 0
  }

  /** The entries in order of use, the last used first; so no key has two. */
  ghost predicate ByUse(lru: seq<Slot>, used: map<CacheKey, nat>, clock: nat) {
    && (forall i :: 0 <= i < |lru| ==> lru[i].key in used && used[lru[i].key] < clock)
    && (forall i, j :: 0 <= i < j < |lru| ==> used[lru[i].key] > used[lru[j].key])
  }

  /** Each entry is the latest answer accepted for its key. */
  ghost predicate Latest(lru: seq<Slot>, accepted: map<CacheKey, Put>) {
    forall i :: 0 <= i < |lru| ==>
      lru[i].key in accepted && accepted[lru[i].key] == Put(lru[i].batches, lru[i].at)
        && lru[i].bytes == SizeOf(lru[i].batches)
  }

  ghost predicate Held(lru: seq<Slot>, total: int, used: map<CacheKey, nat>, clock: nat, accepted: map<CacheKey, Put>) {
    total == Total(lru) && ByUse(lru, used, clock) && Latest(lru, accepted)
  }

  // ── lemmas ──────────────────────────────────────────────────────────────────

  function Cut(lru: seq<Slot>, i: nat): seq<Slot>
    requires i < |lru|
  {
    lru[..i] + lru[i + 1..]
  }

  lemma CutTail(lru: seq<Slot>, i: nat)
    requires 0 < i < |lru|
    ensures Cut(lru, i) == [lru[0]] + Cut(lru[1..], i - 1)
  {
  }

  lemma {:induction false} CutTotal(lru: seq<Slot>, i: nat)
    requires i < |lru|
    ensures Total(lru) == lru[i].bytes + Total(Cut(lru, i))
  {
    if i == 0 {
      assert Cut(lru, 0) == lru[1..];
    } else {
      CutTotal(lru[1..], i - 1);
      CutTail(lru, i);
      assert Cut(lru, i)[1..] == Cut(lru[1..], i - 1);
    }
  }

  lemma {:induction false} WithoutAll(lru: seq<Slot>, key: CacheKey)
    requires forall i :: 0 <= i < |lru| ==> lru[i].key != key
    ensures Without(lru, key) == lru
  {
    if lru != [] {
      WithoutAll(lru[1..], key);
    }
  }

  lemma {:induction false} CutWithout(lru: seq<Slot>, i: nat, key: CacheKey)
    requires i < |lru| && forall j :: 0 <= j < |lru| ==> (lru[j].key == key <==> j == i)
    ensures Without(lru, key) == Cut(lru, i)
  {
    if i == 0 {
      WithoutAll(lru[1..], key);
      assert Cut(lru, 0) == lru[1..];
    } else {
      CutWithout(lru[1..], i - 1, key);
      CutTail(lru, i);
    }
  }

  lemma CutKeeps(lru: seq<Slot>, i: nat, used: map<CacheKey, nat>, clock: nat, accepted: map<CacheKey, Put>)
    requires i < |lru| && ByUse(lru, used, clock) && Latest(lru, accepted)
    ensures ByUse(Cut(lru, i), used, clock) && Latest(Cut(lru, i), accepted)
  {
    assert forall j :: 0 <= j < |Cut(lru, i)| ==> Cut(lru, i)[j] == lru[if j < i then j else j + 1];
  }

  /** Taking out one entry leaves the others as they were, in order. */
  lemma HeldAt(lru: seq<Slot>, total: int, used: map<CacheKey, nat>, clock: nat, accepted: map<CacheKey, Put>, i: nat)
    requires i < |lru| && Held(lru, total, used, clock, accepted)
    ensures total >= lru[i].bytes && Held(Cut(lru, i), total - lru[i].bytes, used, clock, accepted)
    ensures Cut(lru, i) == Without(lru, lru[i].key)
    ensures forall s :: s in Cut(lru, i) ==> s in lru && s.key != lru[i].key
    ensures forall j :: 0 <= j < |lru| && lru[j].key == lru[i].key ==> j == i
  {
    CutTotal(lru, i);
    CutKeeps(lru, i, used, clock, accepted);
    CutWithout(lru, i, lru[i].key);
  }

  lemma HeldLast(lru: seq<Slot>, total: int, used: map<CacheKey, nat>, clock: nat, accepted: map<CacheKey, Put>)
    requires lru != [] && Held(lru, total, used, clock, accepted)
    ensures var n := |lru| - 1;
            total >= lru[n].bytes && Held(lru[..n], total - lru[n].bytes, used, clock, accepted)
  {
    var n := |lru| - 1;
    HeldAt(lru, total, used, clock, accepted, n);
    assert Cut(lru, n) == lru[..n];
  }

  /** An entry put in front is the last used. */
  lemma HeldFront(lru: seq<Slot>, total: int, used: map<CacheKey, nat>, clock: nat, accepted: map<CacheKey, Put>,
                  slot: Slot)
    requires Held(lru, total, used, clock, accepted) && slot.bytes == SizeOf(slot.batches)
    requires forall i :: 0 <= i < |lru| ==> lru[i].key != slot.key
    ensures Held([slot] + lru, total + slot.bytes, used[slot.key := clock], clock + 1,
                 accepted[slot.key := Put(slot.batches, slot.at)])
  {
    var all := [slot] + lru;
    assert all[1..] == lru;
    assert forall i :: 0 < i < |all| ==> all[i] == lru[i - 1];
  }

  lemma HeldTouch(lru: seq<Slot>, total: int, used: map<CacheKey, nat>, clock: nat, accepted: map<CacheKey, Put>,
                  i: nat)
    requires i < |lru| && Held(lru, total, used, clock, accepted)
    ensures Held([lru[i]] + Cut(lru, i), total, used[lru[i].key := clock], clock + 1, accepted)
    ensures Cut(lru, i) == Without(lru, lru[i].key)
  {
    var (slot, rest) := (lru[i], Cut(lru, i));
    HeldAt(lru, total, used, clock, accepted, i);
    forall j | 0 <= j < |rest|
      ensures rest[j].key != slot.key
    {
      assert rest[j] in rest;
    }
    HeldFront(rest, total - slot.bytes, used, clock, accepted, slot);
    assert accepted[slot.key := Put(slot.batches, slot.at)] == accepted;
  }

  /** Those taken out are just those of the key, or those that read the contract; the others keep their
      order. */
  lemma {:induction false} TakenOut(lru: seq<Slot>, key: CacheKey, contract: string)
    ensures Without(lru, key) == Chosen(lru, (s: Slot) => s.key != key, (s: Slot) => s)
    ensures Unread(lru, contract) == Chosen(lru, (s: Slot) => contract !in s.key.contracts, (s: Slot) => s)
  {
    if lru != [] {
      TakenOut(lru[1..], key, contract);
    }
  }

  /** An answer's size is that of its batches, each counted. */
  lemma {:induction false} SizeIs(a: seq<Batch>, b: seq<Batch>)
    ensures SizeOf(a + b) == SizeOf(a) + SizeOf(b)
    ensures |b| == 1 ==> SizeOf(b) == b[0].size
  {
    if a == [] {
      assert a + b == b;
      if |b| == 1 {
        assert b[1..] == [];
      }
    } else {
      assert (a + b)[1..] == a[1..] + b;
      SizeIs(a[1..], b);
    }
  }

  lemma {:induction false} UnreadWithout(lru: seq<Slot>, key: CacheKey, contract: string)
    requires contract in key.contracts
    ensures Unread(Without(lru, key), contract) == Unread(lru, contract)
  {
    if lru != [] {
      UnreadWithout(lru[1..], key, contract);
      if lru[0].key != key {
        assert Without(lru, key) == [lru[0]] + Without(lru[1..], key);
      } else {
        assert Without(lru, key) == Without(lru[1..], key);
      }
    }
  }

  lemma {:induction false} UnreadAll(lru: seq<Slot>, contract: string)
    requires forall i :: 0 <= i < |lru| ==> contract !in lru[i].key.contracts
    ensures Unread(lru, contract) == lru
  {
    if lru != [] {
      UnreadAll(lru[1..], contract);
    }
  }

  // ── the cache ───────────────────────────────────────────────────────────────

  class QueryCache {
    const capacity: nat
    const maxBytes: nat
    const ttl: nat
    /** The entries, the most recently used first. */
    var lru: seq<Slot>
    var totalBytes: nat
    var hits: nat
    var misses: nat
    /** For each key, the latest answer accepted and not invalidated since. */
    ghost var accepted: map<CacheKey, Put>
    /** When each key was last put or hit. */
    ghost var used: map<CacheKey, nat>
    ghost var clock: nat

    ghost predicate Valid()
      reads this
    {
      && capacity > 0 && |lru| <= capacity && totalBytes <= maxBytes
      && Held(lru, totalBytes, used, clock, accepted)
    }

    constructor (maxEntries: nat, maxBytes: nat, ttl: nat)
      ensures Valid() && lru == [] && hits == misses == 0 && accepted == map[]
      ensures capacity == (if maxEntries > 1 then maxEntries else 1) && this.maxBytes == maxBytes && this.ttl == ttl
    {
      capacity, this.maxBytes, this.ttl := if maxEntries > 1 then maxEntries else 1, maxBytes, ttl;
      lru, totalBytes, hits, misses := [], 0, 0, 0;
      accepted, used, clock := map[], map[], 0;
    }

    method Find(key: CacheKey) returns (i: int)
      ensures i == -1 <==> forall j :: 0 <= j < |lru| ==> lru[j].key != key
      ensures i != -1 ==> 0 <= i < |lru| && lru[i].key == key
    {
      i := 0;
      while i < |lru|
        invariant 0 <= i <= |lru| && forall j :: 0 <= j < i ==> lru[j].key != key
      {
        if lru[i].key == key {
          return;
        }
        i := i + 1;
      }
      i := -1;
    }

    /** Takes the entry of a key out, and its bytes off the total. */
    method Pop(key: CacheKey)
      requires Valid()
      modifies this`lru, this`totalBytes
      ensures Valid() && lru == Without(old(lru), key) && totalBytes <= old(totalBytes) && |lru| <= |old(lru)|
      ensures forall s :: s in lru ==> s in old(lru) && s.key != key
    {
      var i := Find(key);
      if i == -1 {
        WithoutAll(lru, key);
      } else {
        HeldAt(lru, totalBytes, used, clock, accepted, i);
        totalBytes := totalBytes - lru[i].bytes;
        lru := Cut(lru, i);
      }
    }

    /** The answer held for a key: there is one exactly when the key has an entry not expired, it is
        the latest accepted, and getting it makes it the most recently used. */
    method Get(key: CacheKey, now: nat) returns (r: Option<seq<Batch>>)
      requires Valid()
      modifies this`lru, this`totalBytes, this`hits, this`misses, this`used, this`clock
      ensures Valid()
      ensures r.Some? <==> Here(old(lru), key, now)
      ensures r.Some? ==> key in accepted && r.value == accepted[key].batches && now <= accepted[key].at + ttl
      ensures r.Some? ==> |lru| > 0 && lru[0].key == key && lru[1..] == Without(old(lru), key)
      ensures r.None? ==> lru == Without(old(lru), key)
      ensures hits == old(hits) + (if r.Some? then 1 else 0) && misses == old(misses) + (if r.Some? then 0 else 1)
    {
      var i := Find(key);
      if i == -1 {
        WithoutAll(lru, key);
        misses := misses + 1;
        return None;
      }
      var slot := lru[i];
      assert Here(lru, key, now) <==> Elapsed(now, slot.at) <= ttl by {
        HeldAt(lru, totalBytes, used, clock, accepted, i);
      }
      if Elapsed(now, slot.at) > ttl {
        Pop(key);
        misses := misses + 1;
        return None;
      }
      Touch(i);
      hits := hits + 1;
      r := Some(slot.batches);
    }

    /** Makes an entry the most recently used. */
    method Touch(i: nat)
      requires Valid() && i < |lru|
      modifies this`lru, this`used, this`clock
      ensures Valid() && lru == [old(lru)[i]] + Without(old(lru), old(lru)[i].key)
    {
      var slot := lru[i];
      HeldTouch(lru, totalBytes, used, clock, accepted, i);
      used, clock := used[slot.key := clock], clock + 1;
      lru := [slot] + Cut(lru, i);
    }

    /** Whether a key has an entry that is not expired. */
    ghost predicate Here(lru: seq<Slot>, key: CacheKey, now: nat) {
      exists i :: 0 <= i < |lru| && lru[i].key == key && now <= lru[i].at + ttl
    }

    /** `after` is as many of the most recently used of `before` as leave room for `bytes`. */
    ghost predicate Fitted(before: seq<Slot>, after: seq<Slot>, bytes: nat) {
      && |after| <= |before| && after == before[..|after|] && Total(after) + bytes <= maxBytes
      && (|after| < |before| ==> Total(before[..|after| + 1]) + bytes > maxBytes)
    }

    /** Lets the least recently used go until an answer of `bytes` fits. */
    method Evict(bytes: nat)
      requires Valid() && bytes <= maxBytes
      modifies this`lru, this`totalBytes
      ensures Valid() && Fitted(old(lru), lru, bytes) && totalBytes + bytes <= maxBytes
    {
      while totalBytes + bytes > maxBytes
        invariant Valid() && |lru| <= |old(lru)| && lru == old(lru)[..|lru|]
        invariant |lru| < |old(lru)| ==> Total(old(lru)[..|lru| + 1]) + bytes > maxBytes
        decreases |lru|
      {
        var n := |lru| - 1;
        HeldLast(lru, totalBytes, used, clock, accepted);
        assert lru == old(lru)[..n + 1];
        totalBytes := totalBytes - lru[n].bytes;
        lru := lru[..n];
      }
    }

    /** `after` is what `before` keeps when an entry for `key` is pushed: not the old one of that key,
        or else, at capacity, all but the least recently used. */
    ghost predicate Pushed(before: seq<Slot>, key: CacheKey, after: seq<Slot>) {
      if exists i :: 0 <= i < |before| && before[i].key == key then after == Without(before, key)
      else |after| == (if |before| == capacity then capacity - 1 else |before|) && after <= before
    }

    /** Makes room for an entry: takes out the old one of its key, or, at capacity, the least
        recently used. */
    method MakeRoom(key: CacheKey)
      requires Valid()
      modifies this`lru, this`totalBytes
      ensures Valid() && Pushed(old(lru), key, lru) && |lru| < capacity && totalBytes <= old(totalBytes)
      ensures forall i :: 0 <= i < |lru| ==> lru[i].key != key
    {
      var i := Find(key);
      if i != -1 {
        HeldAt(lru, totalBytes, used, clock, accepted, i);
        totalBytes := totalBytes - lru[i].bytes;
        lru := Cut(lru, i);
        assert forall j :: 0 <= j < |lru| ==> lru[j] in lru;
      } else {
        WithoutAll(lru, key);
        if |lru| == capacity {
          HeldLast(lru, totalBytes, used, clock, accepted);
          totalBytes := totalBytes - lru[|lru| - 1].bytes;
          lru := lru[..|lru| - 1];
        }
      }
    }

    /** Puts an answer in; one larger than the cache may hold is not accepted, and changes nothing,
        not even the answer held for its key. What stays of the others is the most recently used of
        them, in order. */
    method PutIn(key: CacheKey, batches: seq<Batch>, now: nat)
      requires Valid()
      modifies this`lru, this`totalBytes, this`accepted, this`used, this`clock
      ensures Valid()
      ensures SizeOf(batches) > maxBytes ==> lru == old(lru) && accepted == old(accepted)
      ensures SizeOf(batches) <= maxBytes ==>
                && accepted == old(accepted)[key := Put(batches, now)]
                && |lru| > 0 && lru[0] == Slot(key, batches, SizeOf(batches), now)
                && exists n :: 0 <= n <= |old(lru)| && Fitted(old(lru), old(lru)[..n], SizeOf(batches))
                               && Pushed(old(lru)[..n], key, lru[1..])
    {
      var bytes := Measure(batches);
      if bytes > maxBytes {
        return;
      }
      Evict(bytes);
      ghost var fit := lru;
      assert fit == old(lru)[..|fit|];
      MakeRoom(key);
      var slot := Slot(key, batches, bytes, now);
      HeldFront(lru, totalBytes, used, clock, accepted, slot);
      accepted, used, clock := accepted[key := Put(batches, now)], used[key := clock], clock + 1;
      lru := [slot] + lru;
      totalBytes := totalBytes + bytes;
      assert Pushed(old(lru)[..|fit|], key, lru[1..]);
    }

    method KeysOf(contract: string) returns (keys: seq<CacheKey>)
      ensures forall k :: k in keys ==> contract in k.contracts
      ensures forall i :: 0 <= i < |lru| && contract in lru[i].key.contracts ==> lru[i].key in keys
    {
      keys := [];
      for i := 0 to |lru|
        invariant forall k :: k in keys ==> contract in k.contracts
        invariant forall j :: 0 <= j < i && contract in lru[j].key.contracts ==> lru[j].key in keys
      {
        if contract in lru[i].key.contracts {
          keys := keys + [lru[i].key];
        }
      }
    }

    /** Takes out just the entries with `contract` among their key's contracts. */
    method InvalidateContract(contract: string)
      requires Valid()
      modifies this`lru, this`totalBytes, this`accepted
      ensures Valid() && lru == Unread(old(lru), contract)
      ensures accepted == map k | k in old(accepted) && contract !in k.contracts :: old(accepted)[k]
    {
      var keys := KeysOf(contract);
      ghost var was := lru;
      for i := 0 to |keys|
        invariant Valid() && accepted == old(accepted) && Unread(lru, contract) == Unread(was, contract)
        invariant forall s :: s in lru ==> s in was && s.key !in keys[..i]
      {
        assert keys[i] in keys && keys[..i + 1] == keys[..i] + [keys[i]];
        UnreadWithout(lru, keys[i], contract);
        Pop(keys[i]);
      }
      assert keys[..|keys|] == keys;
      forall i | 0 <= i < |lru|
        ensures contract !in lru[i].key.contracts
      {
        assert lru[i] in lru && lru[i] in was;
      }
      UnreadAll(lru, contract);
      accepted := map k | k in accepted && contract !in k.contracts :: accepted[k];
    }

    method InvalidateAll()
      requires Valid()
      modifies this`lru, this`totalBytes, this`accepted
      ensures Valid() && lru == [] && totalBytes == 0 && accepted == map[]
    {
      lru, totalBytes, accepted := [], 0, map[];
    }
  }

  method Measure(batches: seq<Batch>) returns (bytes: nat)
    ensures bytes == SizeOf(batches)
  {
    bytes := 0;
    for i := 0 to |batches|
      invariant bytes + SizeOf(batches[i..]) == SizeOf(batches)
    {
      assert batches[i..][1..] == batches[i + 1..];
      bytes := bytes + batches[i].size;
    }
  }

  // ── what a key covers ───────────────────────────────────────────────────────

  /** One contract of a query: its name and the fingerprint of everything else the answer depends on. */
  datatype Part = Part(name: string, fingerprint: string)

  function Texts(parts: seq<Part>): string {
    if parts == [] then ""
    else Texts(parts[..|parts| - 1]) + "\U{1e}" + parts[|parts| - 1].name + "\U{1f}" + parts[|parts| - 1].fingerprint
  }

  function KeyText(sql: string, parts: seq<Part>): string {
    sql + Texts(parts)
  }

  function Names(parts: seq<Part>): seq<string> {
    seq(|parts|, i requires 0 <= i < |parts| => parts[i].name)
  }

  lemma LastField(x: string, a: string, y: string, b: string)
    requires x + "\U{1f}" + a == y + "\U{1f}" + b && '\U{1f}' !in a && '\U{1f}' !in b
    ensures x == y && a == b
  {
    var s := x + "\U{1f}" + a;
    assert s[|x|] == '\U{1f}' && s[|y|] == '\U{1f}';
    assert forall i :: |x| < i < |s| ==> s[i] == a[i - |x| - 1];
    assert forall i :: |y| < i < |s| ==> s[i] == b[i - |y| - 1];
    assert |x| == |y|;
    assert x == s[..|x|] && y == s[..|x|];
    assert a == s[|x| + 1..] && b == s[|x| + 1..];
  }

  lemma LastName(x: string, y: string, name: string)
    requires x + "\U{1e}" + name == y + "\U{1e}" + name
    ensures x == y
  {
    assert x == (x + "\U{1e}" + name)[..|x|] && y == (y + "\U{1e}" + name)[..|y|];
  }

  /** Two queries have one key only when they are the same text over the same contracts with the
      same fingerprints, whatever characters the text and the names hold. */
  lemma {:induction false} KeyCovers(sql: string, parts: seq<Part>, sql': string, parts': seq<Part>)
    requires forall p :: p in parts || p in parts' ==> '\U{1f}' !in p.fingerprint
    requires KeyText(sql, parts) == KeyText(sql', parts') && Names(parts) == Names(parts')
    ensures sql == sql' && parts == parts'
    decreases |parts|
  {
    assert |parts| == |Names(parts)| == |Names(parts')| == |parts'|;
    if parts != [] {
      var n := |parts| - 1;
      var (p, q) := (parts[n], parts'[n]);
      assert p.name == Names(parts)[n] == Names(parts')[n] == q.name;
      var (a, b) := (KeyText(sql, parts[..n]), KeyText(sql', parts'[..n]));
      assert KeyText(sql, parts) == a + "\U{1e}" + p.name + "\U{1f}" + p.fingerprint;
      assert KeyText(sql', parts') == b + "\U{1e}" + q.name + "\U{1f}" + q.fingerprint;
      assert p in parts && q in parts';
      LastField(a + "\U{1e}" + p.name, p.fingerprint, b + "\U{1e}" + q.name, q.fingerprint);
      LastName(a, b, p.name);
      assert Names(parts[..n]) == Names(parts)[..n] && Names(parts'[..n]) == Names(parts')[..n];
      KeyCovers(sql, parts[..n], sql', parts'[..n]);
      assert parts == parts[..n] + [p] && parts' == parts'[..n] + [q];
    } else {
      assert sql + "" == sql && sql' + "" == sql';
    }
  }
}
