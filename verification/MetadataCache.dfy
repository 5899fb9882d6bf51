/** The metadata cache: least recently used entries go first, under a byte and an entry limit. */
module MetadataCache {
  import opened Evidence

  type Key = seq<string>

  /** Encoded JSON; decoding an encoded value gives the value back. */
  type Bytes = seq<bv8>

  datatype Entry = Entry(key: Key, value: Bytes)

  function Utf8Length(s: string): nat {
    if s == [] then 0
    else
      var c := s[|s| - 1] as int;
      Utf8Length(s[..|s| - 1]) + if c < 0x80 then 1 else if c < 0x800 then 2 else if c < 0x1_0000 then 3 else 4
  }

  function KeyBytes(key: Key): nat {
    if key == [] then 0 else KeyBytes(key[..|key| - 1]) + Utf8Length(key[|key| - 1])
  }

  function Size(e: Entry): nat { |e.value| + KeyBytes(e.key) }

  function Total(entries: seq<Entry>): nat {
    if entries == [] then 0 else Total(entries[..|entries| - 1]) + Size(entries[|entries| - 1])
  }

  // ---- the ordered dictionary --------------------------------------------------------------------------------------

  ghost predicate UniqueKeys(entries: seq<Entry>) {
    forall i, j :: 0 <= i < j < |entries| ==> entries[i].key != entries[j].key
  }

  function Find(entries: seq<Entry>, key: Key): (k: nat)
    ensures k <= |entries| && (k < |entries| ==> entries[k].key == key)
    ensures k == |entries| ==> forall i :: 0 <= i < |entries| ==> entries[i].key != key
  {
    if entries == [] then 0
    else
      var k := Find(entries[..|entries| - 1], key);
      if k < |entries| - 1 then k else if entries[|entries| - 1].key == key then |entries| - 1 else |entries|
  }

  predicate Has(entries: seq<Entry>, key: Key) { Find(entries, key) < |entries| }

  /** `pop(key, None)`. */
  function Without(entries: seq<Entry>, key: Key): seq<Entry> {
    var k := Find(entries, key);
    if k < |entries| then Drop(entries, k) else entries
  }

  function Touched(entries: seq<Entry>, key: Key): seq<Entry> {
    var k := Find(entries, key);
    if k < |entries| then Without(entries, key) + [entries[k]] else entries
  }

  predicate FitsIn(entries: seq<Entry>, maxBytes: nat, maxEntries: nat) {
    Total(entries) <= maxBytes && |entries| <= maxEntries
  }

  /** Drops the oldest entries until both limits hold. */
  function Trim(entries: seq<Entry>, maxBytes: nat, maxEntries: nat): seq<Entry> {
    if entries == [] || FitsIn(entries, maxBytes, maxEntries) then entries else Trim(entries[1..], maxBytes, maxEntries)
  }

  function Stored(entries: seq<Entry>, e: Entry, maxBytes: nat, maxEntries: nat): seq<Entry> {
    Trim(Without(entries, e.key) + [e], maxBytes, maxEntries)
  }

  /** What stays is the longest suffix within both limits. */
  lemma {:induction false} TrimFacts(entries: seq<Entry>, maxBytes: nat, maxEntries: nat)
    ensures var r := Trim(entries, maxBytes, maxEntries);
            var n := |entries| - |r|;
      && 0 <= n && r == entries[n..] && FitsIn(r, maxBytes, maxEntries)
      && (forall m :: 0 <= m < n ==> !FitsIn(entries[m..], maxBytes, maxEntries))
  {
    if entries == [] || FitsIn(entries, maxBytes, maxEntries) {
      assert entries[0..] == entries;
    } else {
      var rest := entries[1..];
      TrimFacts(rest, maxBytes, maxEntries);
      var n := |entries| - |Trim(entries, maxBytes, maxEntries)|;
      assert rest[n - 1..] == entries[n..];
      forall m | 0 <= m < n ensures !FitsIn(entries[m..], maxBytes, maxEntries) {
        if m == 0 {
          assert entries[0..] == entries;
        } else {
          assert entries[m..] == rest[m - 1..];
        }
      }
    }
  }

  /** An entry that fits alone survives its own insertion. */
  lemma {:induction false} NewestStays(front: seq<Entry>, e: Entry, maxBytes: nat, maxEntries: nat)
    requires Size(e) <= maxBytes && 1 <= maxEntries
    ensures var r := Trim(front + [e], maxBytes, maxEntries); r != [] && r[|r| - 1] == e
  {
    var all := front + [e];
    if front == [] {
      TotalOne(e);
      assert all == [e];
    } else if !FitsIn(all, maxBytes, maxEntries) {
      assert all[1..] == front[1..] + [e];
      NewestStays(front[1..], e, maxBytes, maxEntries);
    }
  }

  lemma {:induction false} TotalConcat(a: seq<Entry>, b: seq<Entry>)
    ensures Total(a + b) == Total(a) + Total(b)
  {
    if b == [] {
      assert a + b == a;
    } else {
      assert (a + b)[..|a + b| - 1] == a + b[..|b| - 1];
      TotalConcat(a, b[..|b| - 1]);
    }
  }

  lemma TotalOne(e: Entry)
    ensures Total([e]) == Size(e)
  {
    assert [e][..0] == [];
  }

  function Drop(entries: seq<Entry>, k: nat): seq<Entry>
    requires k < |entries|
  {
    entries[..k] + entries[k + 1..]
  }

  lemma {:induction false} DropInner(entries: seq<Entry>, k: nat)
    requires k < |entries| - 1
    ensures var n := |entries| - 1; Drop(entries, k) == Drop(entries[..n], k) + [entries[n]] && entries[..n][k] == entries[k]
  {
  }

  lemma {:induction false} TotalSnoc(entries: seq<Entry>, e: Entry)
    ensures Total(entries + [e]) == Total(entries) + Size(e)
  {
    TotalConcat(entries, [e]);
    TotalOne(e);
  }

  lemma {:induction false} TotalDrop(entries: seq<Entry>, k: nat)
    requires k < |entries|
    ensures Total(entries) == Total(Drop(entries, k)) + Size(entries[k])
  {
    var n := |entries| - 1;
    var front := entries[..n];
    if k == n {
      assert Drop(entries, k) == front;
    } else {
      TotalDrop(front, k);
      DropInner(entries, k);
      TotalSnoc(Drop(front, k), entries[n]);
    }
  }

  lemma WithoutFacts(entries: seq<Entry>, key: Key)
    requires UniqueKeys(entries)
    ensures var r := Without(entries, key);
      && UniqueKeys(r) && (forall i :: 0 <= i < |r| ==> r[i].key != key)
  {
    var k, r := Find(entries, key), Without(entries, key);
    if k < |entries| {
      assert forall i :: 0 <= i < |r| ==> r[i] == if i < k then entries[i] else entries[i + 1];
    }
  }

  lemma TouchedFacts(entries: seq<Entry>, key: Key)
    requires UniqueKeys(entries)
    ensures UniqueKeys(Touched(entries, key))
    ensures Total(Touched(entries, key)) == Total(entries) && |Touched(entries, key)| == |entries|
  {
    var k := Find(entries, key);
    if k < |entries| {
      WithoutFacts(entries, key);
      TotalDrop(entries, k);
      TotalConcat(Without(entries, key), [entries[k]]);
      TotalOne(entries[k]);
    }
  }

  // ---- the cache ---------------------------------------------------------------------------------------------------

  class Cache {
    const maxBytes: nat
    const maxEntries: nat
    var entries: seq<Entry>
    var bytes: nat
    var hits: nat
    var misses: nat
    var evictions: nat

    /** The counter is the sum of the sizes, keys are unique, and both limits hold. */
    ghost predicate Valid()
      reads this
    {
      && 1 <= maxBytes && 1 <= maxEntries
      && UniqueKeys(entries) && bytes == Total(entries) <= maxBytes && |entries| <= maxEntries
    }

    constructor (maxBytes: nat, maxEntries: nat)
      requires 1 <= maxBytes && 1 <= maxEntries
      ensures Valid() && entries == [] && this.maxBytes == maxBytes && this.maxEntries == maxEntries
    {
      this.maxBytes, this.maxEntries := maxBytes, maxEntries;
      entries, bytes, hits, misses, evictions := [], 0, 0, 0, 0;
    }

    method Get(key: Key) returns (r: Option<Bytes>)
      requires Valid()
      modifies this
      ensures Valid() && entries == Touched(old(entries), key)
      ensures r == if Has(old(entries), key) then Some(old(entries)[Find(old(entries), key)].value) else None
      ensures hits + misses == old(hits + misses) + 1 && (r.Some? <==> hits == old(hits) + 1)
      ensures evictions == old(evictions)
    {
      var k := Find(entries, key);
      if k == |entries| {
        misses := misses + 1;
        return None;
      }
      TouchedFacts(entries, key);
      r := Some(entries[k].value);
      entries := Touched(entries, key);
      hits := hits + 1;
    }

    /** A value larger than the cache is ignored; otherwise it becomes the newest entry, and the
        oldest entries go until both limits hold. */
    method Set(key: Key, value: Bytes)
      requires Valid()
      modifies this
      ensures Valid() && hits == old(hits) && misses == old(misses)
      ensures var e := Entry(key, value);
        if Size(e) > maxBytes then entries == old(entries) && evictions == old(evictions)
        else
          && entries == Stored(old(entries), e, maxBytes, maxEntries)
          && entries != [] && entries[|entries| - 1] == e
          && evictions == old(evictions) + |Without(old(entries), key)| + 1 - |entries|
    {
      var e := Entry(key, value);
      var size := Size(e);
      if size > maxBytes {
        return;
      }
      InsertFacts(entries, e);
      NewestStays(Without(entries, key), e, maxBytes, maxEntries);
      TrimUnique(Without(entries, key) + [e], maxBytes, maxEntries);
      var k := Find(entries, key);
      if k < |entries| {
        bytes := bytes - Size(entries[k]);
        entries := Drop(entries, k);
      }
      entries := entries + [e];
      bytes := bytes + size;
      Evict();
    }

    /** The eviction loop behind an insertion. */
    method Evict()
      requires bytes == Total(entries)
      modifies this
      ensures hits == old(hits) && misses == old(misses)
      ensures entries == Trim(old(entries), maxBytes, maxEntries) && bytes == Total(entries)
      ensures evictions == old(evictions) + |old(entries)| - |entries|
    {
      ghost var all := entries;
      while bytes > maxBytes || |entries| > maxEntries
        invariant Trim(entries, maxBytes, maxEntries) == Trim(all, maxBytes, maxEntries)
        invariant bytes == Total(entries)
        invariant evictions == old(evictions) + |all| - |entries|
        invariant hits == old(hits) && misses == old(misses)
        decreases |entries|
      {
        EvictStep(entries, maxBytes, maxEntries);
        bytes := bytes - Size(entries[0]);
        entries := entries[1..];
        evictions := evictions + 1;
      }
    }
  }

  lemma EvictStep(entries: seq<Entry>, maxBytes: nat, maxEntries: nat)
    requires !FitsIn(entries, maxBytes, maxEntries)
    ensures entries != [] && Total(entries) == Total(entries[1..]) + Size(entries[0])
    ensures Trim(entries, maxBytes, maxEntries) == Trim(entries[1..], maxBytes, maxEntries)
  {
    TotalDrop(entries, 0);
    assert Drop(entries, 0) == entries[1..];
  }

  lemma TrimUnique(entries: seq<Entry>, maxBytes: nat, maxEntries: nat)
    requires UniqueKeys(entries)
    ensures UniqueKeys(Trim(entries, maxBytes, maxEntries)) && FitsIn(Trim(entries, maxBytes, maxEntries), maxBytes, maxEntries)
  {
    TrimFacts(entries, maxBytes, maxEntries);
  }

  lemma InsertFacts(entries: seq<Entry>, e: Entry)
    requires UniqueKeys(entries)
    ensures var all := Without(entries, e.key) + [e];
            var k := Find(entries, e.key);
      && UniqueKeys(all)
      && Total(all) == Total(entries) - (if k < |entries| then Size(entries[k]) else 0) + Size(e)
  {
    var k := Find(entries, e.key);
    WithoutFacts(entries, e.key);
    if k < |entries| {
      TotalDrop(entries, k);
    }
    TotalConcat(Without(entries, e.key), [e]);
    TotalOne(e);
  }

  // ---- histories ---------------------------------------------------------------------------------------------------

  datatype Op = Get(key: Key) | Set(key: Key, value: Bytes)

  datatype Limits = Limits(maxBytes: nat, maxEntries: nat)

  function Apply(l: Limits, entries: seq<Entry>, op: Op): seq<Entry> {
    match op
    case Get(key) => Touched(entries, key)
    case Set(key, value) =>
      if Size(Entry(key, value)) > l.maxBytes then entries
      else Stored(entries, Entry(key, value), l.maxBytes, l.maxEntries)
  }

  /** The entries after a history, as the methods leave them. */
  function After(l: Limits, ops: seq<Op>): seq<Entry> {
    if ops == [] then [] else Apply(l, After(l, ops[..|ops| - 1]), ops[|ops| - 1])
  }

  /** The operation hits `key`, or stores an accepted value under it. */
  predicate Uses(l: Limits, entries: seq<Entry>, op: Op, key: Key) {
    op.key == key && (if op.Get? then Has(entries, key) else Size(Entry(key, op.value)) <= l.maxBytes)
  }

  /** When a key was last used; -1 if never. */
  function LastUse(l: Limits, ops: seq<Op>, key: Key): (t: int)
    ensures -1 <= t < |ops|
  {
    if ops == [] then -1
    else
      var n := |ops| - 1;
      if Uses(l, After(l, ops[..n]), ops[n], key) then n else LastUse(l, ops[..n], key)
  }

  /** The most recently accepted value of a key. */
  function LastValue(l: Limits, ops: seq<Op>, key: Key): Option<Bytes> {
    if ops == [] then None
    else
      var n := |ops| - 1;
      if ops[n].Set? && ops[n].key == key && Size(Entry(key, ops[n].value)) <= l.maxBytes then Some(ops[n].value)
      else LastValue(l, ops[..n], key)
  }

  /** Entries stand in the order of their last use and hold the value last accepted for their key. */
  ghost predicate Faithful(l: Limits, ops: seq<Op>, entries: seq<Entry>) {
    && UniqueKeys(entries)
    && (forall i, j :: 0 <= i < j < |entries| ==> LastUse(l, ops, entries[i].key) < LastUse(l, ops, entries[j].key))
    && (forall i :: 0 <= i < |entries| ==> LastValue(l, ops, entries[i].key) == Some(entries[i].value))
  }

  lemma WithoutFaithful(l: Limits, ops: seq<Op>, entries: seq<Entry>, key: Key)
    requires Faithful(l, ops, entries)
    ensures Faithful(l, ops, Without(entries, key))
  {
    var k, r := Find(entries, key), Without(entries, key);
    if k < |entries| {
      forall i | 0 <= i < |r| ensures r[i] == entries[if i < k then i else i + 1] {
      }
    }
  }

  /** An operation that does not use a key leaves its last use and value alone. */
  lemma Unused(l: Limits, ops: seq<Op>, op: Op, key: Key)
    requires !Uses(l, After(l, ops), op, key)
    ensures LastUse(l, ops + [op], key) == LastUse(l, ops, key)
    ensures LastValue(l, ops + [op], key) == LastValue(l, ops, key)
  {
    assert (ops + [op])[..|ops|] == ops;
  }

  lemma UsedNow(l: Limits, ops: seq<Op>, op: Op)
    requires Uses(l, After(l, ops), op, op.key)
    ensures LastUse(l, ops + [op], op.key) == |ops|
    ensures LastValue(l, ops + [op], op.key) == if op.Set? then Some(op.value) else LastValue(l, ops, op.key)
  {
    assert (ops + [op])[..|ops|] == ops;
  }

  lemma StillFaithful(l: Limits, ops: seq<Op>, op: Op, entries: seq<Entry>)
    requires Faithful(l, ops, entries)
    requires forall i :: 0 <= i < |entries| ==> !Uses(l, After(l, ops), op, entries[i].key)
    ensures Faithful(l, ops + [op], entries)
  {
    forall i | 0 <= i < |entries|
      ensures LastUse(l, ops + [op], entries[i].key) == LastUse(l, ops, entries[i].key)
      ensures LastValue(l, ops + [op], entries[i].key) == LastValue(l, ops, entries[i].key)
    {
      Unused(l, ops, op, entries[i].key);
    }
  }

  lemma FaithfulNewest(l: Limits, ops: seq<Op>, op: Op, entries: seq<Entry>, e: Entry)
    requires Faithful(l, ops, entries) && Uses(l, After(l, ops), op, op.key) && e.key == op.key
    requires forall i :: 0 <= i < |entries| ==> entries[i].key != op.key
    requires LastValue(l, ops + [op], op.key) == Some(e.value)
    ensures Faithful(l, ops + [op], entries + [e])
  {
    StillFaithful(l, ops, op, entries);
    UsedNow(l, ops, op);
    var r := entries + [e];
    forall i | 0 <= i < |entries| ensures LastUse(l, ops + [op], r[i].key) < |ops| {
      Unused(l, ops, op, entries[i].key);
    }
  }

  lemma SuffixFaithful(l: Limits, ops: seq<Op>, entries: seq<Entry>, n: nat)
    requires Faithful(l, ops, entries) && n <= |entries|
    ensures Faithful(l, ops, entries[n..])
  {
  }

  lemma ApplyFaithful(l: Limits, ops: seq<Op>, op: Op)
    requires Faithful(l, ops, After(l, ops))
    ensures Faithful(l, ops + [op], Apply(l, After(l, ops), op))
  {
    var entries := After(l, ops);
    if Uses(l, entries, op, op.key) {
      var rest := Without(entries, op.key);
      WithoutFacts(entries, op.key);
      WithoutFaithful(l, ops, entries, op.key);
      UsedNow(l, ops, op);
      var e := if op.Get? then entries[Find(entries, op.key)] else Entry(op.key, op.value);
      FaithfulNewest(l, ops, op, rest, e);
      if op.Set? {
        TrimFacts(rest + [e], l.maxBytes, l.maxEntries);
        SuffixFaithful(l, ops + [op], rest + [e], |rest + [e]| - |Apply(l, entries, op)|);
      }
    } else {
      StillFaithful(l, ops, op, entries);
    }
  }

  /** After every history: entries are ordered by their last use, so eviction from the front removes
      the least recently used ones, and every hit returns the value last accepted for its key. */
  lemma {:induction false} LeastRecentlyUsed(l: Limits, ops: seq<Op>)
    ensures Faithful(l, ops, After(l, ops))
  {
    if ops != [] {
      var front := ops[..|ops| - 1];
      LeastRecentlyUsed(l, front);
      ApplyFaithful(l, front, ops[|ops| - 1]);
      assert front + [ops[|ops| - 1]] == ops;
    }
  }

  /** Both limits hold after every history. */
  lemma {:induction false} WithinLimits(l: Limits, ops: seq<Op>)
    ensures Total(After(l, ops)) <= l.maxBytes && |After(l, ops)| <= l.maxEntries
  {
    if ops != [] {
      WithinLimits(l, ops[..|ops| - 1]);
      LeastRecentlyUsed(l, ops[..|ops| - 1]);
      var entries, op := After(l, ops[..|ops| - 1]), ops[|ops| - 1];
      TouchedFacts(entries, op.key);
      if op.Set? {
        TrimFacts(Without(entries, op.key) + [Entry(op.key, op.value)], l.maxBytes, l.maxEntries);
      }
    }
  }

  /** An evicted entry was used before every entry that stays. */
  lemma EvictsOldest(l: Limits, ops: seq<Op>, op: Op, i: nat, j: nat)
    requires op.Set? && Size(Entry(op.key, op.value)) <= l.maxBytes
    requires var all := Without(After(l, ops), op.key) + [Entry(op.key, op.value)];
      i < |all| - |Trim(all, l.maxBytes, l.maxEntries)| <= j < |all|
    ensures var all := Without(After(l, ops), op.key) + [Entry(op.key, op.value)];
      LastUse(l, ops + [op], all[i].key) < LastUse(l, ops + [op], all[j].key)
  {
    var entries := After(l, ops);
    LeastRecentlyUsed(l, ops);
    WithoutFacts(entries, op.key);
    WithoutFaithful(l, ops, entries, op.key);
    UsedNow(l, ops, op);
    FaithfulNewest(l, ops, op, Without(entries, op.key), Entry(op.key, op.value));
  }
}
