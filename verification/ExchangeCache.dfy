/** The bounded LRU cache of verified identities, as a sequence of entries with distinct keys, oldest first. */
module ExchangeCache {
  import opened Wrappers

  datatype Identity = Identity(expires: real, token: string)
  datatype Entry = Entry(key: string, id: Identity)

  const SKEW := 60.0

  predicate Distinct(c: seq<Entry>) {
    forall i, j :: 0 <= i < j < |c| ==> c[i].key != c[j].key
  }

  function Keys(c: seq<Entry>): set<string> {
    set e | e in c :: e.key
  }

  function Find(c: seq<Entry>, k: string): Option<Identity> {
    if c == [] then None else if c[0].key == k then Some(c[0].id) else Find(c[1..], k)
  }

  function Remove(c: seq<Entry>, k: string): seq<Entry> {
    if c == [] then [] else if c[0].key == k then Remove(c[1..], k) else [c[0]] + Remove(c[1..], k)
  }

  /** Assignment followed by `move_to_end`. */
  function Touch(c: seq<Entry>, k: string, id: Identity): seq<Entry> {
    Remove(c, k) + [Entry(k, id)]
  }

  /** `popitem(last=False)` until at most `max` entries are left. */
  function Trim(c: seq<Entry>, max: nat): seq<Entry> {
    if |c| > max then c[|c| - max..] else c
  }

  function Get(c: seq<Entry>, k: string, now: real): (seq<Entry>, Option<Identity>) {
    match Find(c, k)
    case None => (c, None)
    case Some(id) => if now >= id.expires - SKEW then (Remove(c, k), None) else (Touch(c, k, id), Some(id))
  }

  function Put(c: seq<Entry>, k: string, id: Identity, max: nat): seq<Entry> {
    Trim(Touch(c, k, id), max)
  }

  datatype Op = GetOp(key: string, now: real) | PutOp(key: string, id: Identity) | InvalidateOp(key: string)

  function Apply(c: seq<Entry>, op: Op, max: nat): seq<Entry> {
    match op
    case GetOp(k, now) => Get(c, k, now).0
    case PutOp(k, id) => Put(c, k, id, max)
    case InvalidateOp(k) => Remove(c, k)
  }

  function ApplyAll(c: seq<Entry>, ops: seq<Op>, max: nat): seq<Entry>
    decreases |ops|
  {
    if ops == [] then c else ApplyAll(Apply(c, ops[0], max), ops[1..], max)
  }

  // ------------------------------------------------------------------ entries and keys

  lemma {:induction false} FindMeans(c: seq<Entry>, k: string)
    requires Distinct(c)
    ensures Find(c, k).Some? <==> k in Keys(c)
    ensures forall e :: e in c && e.key == k ==> Find(c, k) == Some(e.id)
    ensures Find(c, k).Some? ==> Entry(k, Find(c, k).value) in c
  {
    if c != [] {
      FindMeans(c[1..], k);
      assert forall e :: e in c <==> e == c[0] || e in c[1..];
      if c[0].key == k {
        forall e | e in c[1..] ensures e.key != k {
          var i :| 0 <= i < |c[1..]| && c[1..][i] == e;
          assert c[i + 1] == e;
        }
      }
    }
  }

  lemma {:induction false} RemoveMeans(c: seq<Entry>, k: string)
    requires Distinct(c)
    ensures Distinct(Remove(c, k)) && Keys(Remove(c, k)) == Keys(c) - {k}
    ensures forall e :: e in Remove(c, k) <==> e in c && e.key != k
    ensures |Remove(c, k)| == if k in Keys(c) then |c| - 1 else |c|
    ensures k !in Keys(c) ==> Remove(c, k) == c
  {
    RemoveMembers(c, k);
    if c != [] {
      var r := Remove(c[1..], k);
      FirstIsAlone(c);
      RemoveMeans(c[1..], k);
      assert c == [c[0]] + c[1..];
      if c[0].key != k { DistinctCons(c[0], r); }
    }
  }

  lemma {:induction false} RemoveMembers(c: seq<Entry>, k: string)
    ensures forall e :: e in Remove(c, k) <==> e in c && e.key != k
    ensures Keys(Remove(c, k)) == Keys(c) - {k}
  {
    if c != [] {
      RemoveMembers(c[1..], k);
      assert forall e :: e in c <==> e == c[0] || e in c[1..];
    }
  }

  lemma DistinctCons(e: Entry, c: seq<Entry>)
    requires Distinct(c) && e.key !in Keys(c)
    ensures Distinct([e] + c)
  {
    assert forall i :: 0 <= i < |c| ==> c[i] in c;
  }

  lemma FirstIsAlone(c: seq<Entry>)
    requires c != [] && Distinct(c)
    ensures c[0].key !in Keys(c[1..]) && Keys(c) == {c[0].key} + Keys(c[1..]) && Distinct(c[1..])
  {
    forall e | e in c[1..] ensures e.key != c[0].key {
      var i :| 0 <= i < |c[1..]| && c[1..][i] == e;
      assert c[i + 1] == e;
    }
    assert forall e :: e in c <==> e == c[0] || e in c[1..];
  }

  lemma DropFirstIsRemove(c: seq<Entry>)
    requires c != [] && Distinct(c)
    ensures c[1..] == Remove(c, c[0].key)
  {
    FirstIsAlone(c);
    RemoveMeans(c[1..], c[0].key);
  }

  lemma TouchMeans(c: seq<Entry>, k: string, id: Identity)
    requires Distinct(c)
    ensures Distinct(Touch(c, k, id)) && Keys(Touch(c, k, id)) == Keys(c) + {k}
    ensures |Touch(c, k, id)| == if k in Keys(c) then |c| else |c| + 1
  {
    RemoveMeans(c, k);
    var r := Remove(c, k);
    assert forall i :: 0 <= i < |r| ==> r[i] in r;
    assert forall e :: e in r + [Entry(k, id)] <==> e in r || e == Entry(k, id);
  }

  // ------------------------------------------------------------------ inclusion

  /** The entries of `c` whose keys are in `ks`, in order. */
  function Keep(c: seq<Entry>, ks: set<string>): seq<Entry> {
    if c == [] then [] else if c[0].key in ks then [c[0]] + Keep(c[1..], ks) else Keep(c[1..], ks)
  }

  lemma {:induction false} KeepOfConcat(a: seq<Entry>, b: seq<Entry>, ks: set<string>)
    ensures Keep(a + b, ks) == Keep(a, ks) + Keep(b, ks)
  {
    if a == [] {
      assert a + b == b;
    } else {
      assert (a + b)[1..] == a[1..] + b;
      KeepOfConcat(a[1..], b, ks);
    }
  }

  lemma {:induction false} KeepOfRemove(c: seq<Entry>, k: string, ks: set<string>)
    ensures Keep(Remove(c, k), ks) == Remove(Keep(c, ks), k)
    ensures Keep(Remove(c, k), ks - {k}) == Remove(Keep(c, ks), k)
    ensures Keep(c, ks - {k}) == Remove(Keep(c, ks), k)
    ensures Keep(Remove(c, k), ks + {k}) == Keep(Remove(c, k), ks)
  {
    if c != [] {
      KeepOfRemove(c[1..], k, ks);
    }
  }

  /** The smaller cache (bound `m`) is the larger one (bound `n`) with some entries left out, and the
      larger one holds at most `n - m` entries more. */
  predicate Included(small: seq<Entry>, big: seq<Entry>, m: nat, n: nat) {
    && Distinct(small) && Distinct(big) && |small| <= m && |big| <= n
    && small == Keep(big, Keys(small))
    && |big| - |small| <= n - m
  }

  lemma {:induction false} KeepIsPart(c: seq<Entry>, ks: set<string>)
    ensures forall e :: e in Keep(c, ks) <==> e in c && e.key in ks
  {
    if c != [] {
      KeepIsPart(c[1..], ks);
      assert forall e :: e in c <==> e == c[0] || e in c[1..];
    }
  }

  lemma IncludedFinds(small: seq<Entry>, big: seq<Entry>, m: nat, n: nat, k: string)
    requires Included(small, big, m, n)
    ensures Find(small, k).Some? ==> Find(big, k) == Find(small, k)
    ensures Keys(small) <= Keys(big)
  {
    KeepIsPart(big, Keys(small));
    FindMeans(small, k);
    FindMeans(big, k);
  }

  lemma IncludedAfterRemove(small: seq<Entry>, big: seq<Entry>, m: nat, n: nat, k: string)
    requires Included(small, big, m, n)
    ensures Included(Remove(small, k), Remove(big, k), m, n)
  {
    IncludedFinds(small, big, m, n, k);
    KeepOfRemove(big, k, Keys(small));
    RemoveMeans(small, k);
    RemoveMeans(big, k);
  }

  /** Touching a key in the larger cache alone (a hit there, a miss in the smaller one). */
  lemma IncludedAfterBigHit(small: seq<Entry>, big: seq<Entry>, m: nat, n: nat, k: string, id: Identity)
    requires Included(small, big, m, n) && k in Keys(big) && k !in Keys(small)
    ensures Included(small, Touch(big, k, id), m, n)
  {
    KeepOfConcat(Remove(big, k), [Entry(k, id)], Keys(small));
    KeepOfRemove(big, k, Keys(small));
    RemoveMeans(small, k);
    TouchMeans(big, k, id);
  }

  lemma KeepAfterTouch(small: seq<Entry>, big: seq<Entry>, m: nat, n: nat, k: string, id: Identity)
    requires Included(small, big, m, n)
    ensures Touch(small, k, id) == Keep(Touch(big, k, id), Keys(Touch(small, k, id)))
    ensures |Touch(big, k, id)| - |Touch(small, k, id)| <= n - m
    ensures |Touch(big, k, id)| == n + 1 ==> |Touch(small, k, id)| == m + 1
  {
    var ks := Keys(small);
    IncludedFinds(small, big, m, n, k);
    TouchMeans(small, k, id);
    TouchMeans(big, k, id);
    KeepOfConcat(Remove(big, k), [Entry(k, id)], ks + {k});
    KeepOfRemove(big, k, ks);
  }

  lemma KeepAfterDrop(small: seq<Entry>, big: seq<Entry>)
    requires Distinct(small) && Distinct(big) && small != [] && small == Keep(big, Keys(small))
    ensures small[1..] == Keep(big, Keys(small[1..]))
    ensures big != [] && small[1..] == Keep(big[1..], Keys(small[1..]))
  {
    var ks, first := Keys(small), small[0].key;
    FirstIsAlone(small);
    DropFirstIsRemove(small);
    KeepOfRemove(big, first, ks);
    assert Keys(small[1..]) == ks - {first};
  }

  lemma IncludedAfterPut(small: seq<Entry>, big: seq<Entry>, m: nat, n: nat, k: string, id: Identity)
    requires Included(small, big, m, n)
    ensures Included(Put(small, k, id, m), Put(big, k, id, n), m, n)
  {
    var s, b := Touch(small, k, id), Touch(big, k, id);
    TouchMeans(small, k, id);
    TouchMeans(big, k, id);
    KeepAfterTouch(small, big, m, n, k, id);
    KeepAfterDrop(s, b);
  }

  lemma IncludedAfterGet(small: seq<Entry>, big: seq<Entry>, m: nat, n: nat, k: string, now: real)
    requires Included(small, big, m, n)
    ensures Included(Get(small, k, now).0, Get(big, k, now).0, m, n)
    ensures Get(small, k, now).1.Some? ==> Get(big, k, now).1 == Get(small, k, now).1
  {
    IncludedFinds(small, big, m, n, k);
    FindMeans(small, k);
    FindMeans(big, k);
    match Find(big, k)
    case None =>
    case Some(id) =>
      if now >= id.expires - SKEW {
        IncludedAfterRemove(small, big, m, n, k);
        RemoveMeans(small, k);
      } else if k in Keys(small) {
        TouchMeans(small, k, id);
        TouchMeans(big, k, id);
        KeepAfterTouch(small, big, m, n, k, id);
      } else {
        IncludedAfterBigHit(small, big, m, n, k, id);
      }
  }

  /** LRU inclusion: fed the same operations at the same times, with expiry and invalidation in the
      mix, the cache with the larger bound keeps every entry of the smaller one, with the same value
      and in the same order. */
  lemma {:induction false} LargerCacheIncludesSmaller(small: seq<Entry>, big: seq<Entry>, ops: seq<Op>, m: nat, n: nat)
    requires Included(small, big, m, n)
    ensures Included(ApplyAll(small, ops, m), ApplyAll(big, ops, n), m, n)
    decreases |ops|
  {
    if ops != [] {
      match ops[0] {
        case GetOp(k, now) => IncludedAfterGet(small, big, m, n, k, now);
        case PutOp(k, id) => IncludedAfterPut(small, big, m, n, k, id);
        case InvalidateOp(k) => IncludedAfterRemove(small, big, m, n, k);
      }
      LargerCacheIncludesSmaller(Apply(small, ops[0], m), Apply(big, ops[0], n), ops[1..], m, n);
    }
  }

  /** From empty caches: a hit in the smaller one is the same hit in the larger one. */
  lemma LargerCacheHitsMore(ops: seq<Op>, m: nat, n: nat, k: string, now: real)
    requires m <= n
    ensures var small, big := ApplyAll([], ops, m), ApplyAll([], ops, n);
            && small == Keep(big, Keys(small)) && |small| <= m && |big| <= n
            && (Get(small, k, now).1.Some? ==> Get(big, k, now).1 == Get(small, k, now).1)
  {
    LargerCacheIncludesSmaller([], [], ops, m, n);
    IncludedAfterGet(ApplyAll([], ops, m), ApplyAll([], ops, n), m, n, k, now);
  }

  // ------------------------------------------------------------------ the cache as an object

  class ExchangeCache {
    const maxSize: nat
    var entries: seq<Entry>

    constructor (maxSize: nat)
      ensures this.maxSize == maxSize && entries == []
    {
      this.maxSize := maxSize;
      this.entries := [];
    }

    /** `get`. */
    method Lookup(k: string, now: real) returns (id: Option<Identity>)
      modifies this
      ensures (entries, id) == Get(old(entries), k, now)
    {
      id := Find(entries, k);
      if id.None? {
        return;
      }
      var deadline := id.value.expires - SKEW;
      if now >= deadline {
        entries := Remove(entries, k);
        return None;
      }
      entries := Remove(entries, k) + [Entry(k, id.value)];
    }

    /** `put`, with its eviction loop. */
    method Store(k: string, id: Identity)
      modifies this
      ensures entries == Put(old(entries), k, id, maxSize)
    {
      entries := Remove(entries, k) + [Entry(k, id)];
      ghost var touched := entries;
      while |entries| > maxSize
        invariant |entries| <= |touched| && entries == touched[|touched| - |entries|..]
        invariant |touched| > maxSize ==> |entries| >= maxSize
        invariant |touched| <= maxSize ==> entries == touched
      {
        entries := entries[1..];
      }
    }

    /** `invalidate`: an unknown key is a no-op. */
    method Invalidate(k: string)
      modifies this
      ensures entries == Remove(old(entries), k)
    {
      entries := Remove(entries, k);
    }
  }
}
