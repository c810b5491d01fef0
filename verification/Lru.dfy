/** The least-recently-used cache of the nonce maps, most recent entry first. */
module Lru {
  import opened Prelude

  datatype Entry<+V> = Entry(key: string, value: V)

  function First<T>(s: seq<T>, n: nat): seq<T> {
    s[..Min(|s|, n)]
  }

  ghost predicate Distinct<V>(c: seq<Entry<V>>) {
    forall i, j :: 0 <= i < j < |c| ==> c[i].key != c[j].key
  }

  ghost predicate Holds<V>(c: seq<Entry<V>>, key: string) {
    exists e :: e in c && e.key == key
  }

  function Without<V>(c: seq<Entry<V>>, key: string): seq<Entry<V>> {
    if c == [] then []
    else if c[0].key == key then Without(c[1..], key)
    else [c[0]] + Without(c[1..], key)
  }

  function AfterPut<V>(c: seq<Entry<V>>, key: string, value: V, capacity: nat): seq<Entry<V>> {
    First([Entry(key, value)] + Without(c, key), capacity)
  }

  function Lookup<V>(c: seq<Entry<V>>, key: string): Option<V> {
    if c == [] then None else if c[0].key == key then Some(c[0].value) else Lookup(c[1..], key)
  }

  /** A successful read makes the entry the most recent one. */
  function AfterGet<V>(c: seq<Entry<V>>, key: string): seq<Entry<V>> {
    var found := Lookup(c, key);
    if found.Some? then [Entry(key, found.value)] + Without(c, key) else c
  }

  // ----- The cache object --------------------------------------------------------

  lemma {:induction false} WithoutAbsent<V>(c: seq<Entry<V>>, key: string)
    requires !Holds(c, key)
    ensures Without(c, key) == c && Lookup(c, key) == None
  {
    if c != [] {
      assert c == [c[0]] + c[1..];
      assert forall e :: e in c[1..] ==> e in c;
      assert c[0] in c;
      WithoutAbsent(c[1..], key);
    }
  }

  lemma {:induction false} WithoutAt<V>(c: seq<Entry<V>>, key: string, at: nat)
    requires Distinct(c) && at < |c| && c[at].key == key
    ensures Without(c, key) == c[..at] + c[at + 1..] && Lookup(c, key) == Some(c[at].value)
  {
    if at == 0 {
      assert !Holds(c[1..], key) by {
        assert forall i :: 0 <= i < |c[1..]| ==> c[1..][i] == c[i + 1];
      }
      WithoutAbsent(c[1..], key);
    } else {
      WithoutAt(c[1..], key, at - 1);
      assert c[..at] + c[at + 1..] == [c[0]] + (c[1..][..at - 1] + c[1..][at..]);
    }
  }

  class LruCache<V> {
    const capacity: nat
    var entries: seq<Entry<V>>

    ghost predicate Valid()
      reads this
    {
      Distinct(entries) && |entries| <= capacity && capacity > 0
    }

    constructor (capacity: nat)
      requires capacity > 0
      ensures Valid() && this.capacity == capacity && entries == []
    {
      this.capacity := capacity;
      entries := [];
    }

    method Find(key: string) returns (at: nat)
      ensures at <= |entries|
      ensures at < |entries| ==> entries[at].key == key
      ensures at == |entries| ==> !Holds(entries, key)
    {
      at := 0;
      while at < |entries| && entries[at].key != key
        invariant at <= |entries| && forall i :: 0 <= i < at ==> entries[i].key != key
      {
        at := at + 1;
      }
    }

    /** An existing key moves to the front; a new key evicts the oldest entry of a full cache. */
    method Put(key: string, value: V)
      requires Valid()
      modifies this
      ensures Valid() && entries == AfterPut(old(entries), key, value, capacity)
    {
      var at := Find(key);
      if at < |entries| {
        WithoutAt(entries, key, at);
        entries := [Entry(key, value)] + (entries[..at] + entries[at + 1..]);
      } else {
        WithoutAbsent(entries, key);
        ghost var before := entries;
        if |entries| == capacity {
          entries := entries[..|entries| - 1];
        }
        entries := [Entry(key, value)] + entries;
        assert entries == First([Entry(key, value)] + before, capacity);
      }
    }

    method Get(key: string) returns (r: Option<V>)
      requires Valid()
      modifies this
      ensures Valid() && r == Lookup(old(entries), key) && entries == AfterGet(old(entries), key)
    {
      var at := Find(key);
      if at < |entries| {
        WithoutAt(entries, key, at);
        r := Some(entries[at].value);
        entries := [entries[at]] + (entries[..at] + entries[at + 1..]);
      } else {
        WithoutAbsent(entries, key);
        r := None;
      }
    }
  }

  // ----- What a history of puts leaves in the cache ------------------------------------

  /** All puts of a history, one after another, into an empty cache. */
  function Replay<V>(h: seq<Entry<V>>, capacity: nat): seq<Entry<V>> {
    if h == [] then []
    else
      var last := h[|h| - 1];
      AfterPut(Replay(h[..|h| - 1], capacity), last.key, last.value, capacity)
  }

  /** Position of the last put under a key. */
  function LastIndex<V>(h: seq<Entry<V>>, key: string): int {
    if h == [] then -1 else if h[|h| - 1].key == key then |h| - 1 else LastIndex(h[..|h| - 1], key)
  }

  /** The last put of every key, the latest first. */
  function Recent<V>(h: seq<Entry<V>>): seq<Entry<V>> {
    if h == [] then []
    else
      var last := h[|h| - 1];
      [last] + Without(Recent(h[..|h| - 1]), last.key)
  }

  lemma {:induction false} WithoutAppend<V>(a: seq<Entry<V>>, b: seq<Entry<V>>, key: string)
    ensures Without(a + b, key) == Without(a, key) + Without(b, key)
  {
    if a == [] {
      assert a + b == b;
    } else {
      assert (a + b)[1..] == a[1..] + b;
      WithoutAppend(a[1..], b, key);
    }
  }

  lemma {:induction false} WithoutMembers<V>(c: seq<Entry<V>>, key: string)
    ensures forall e :: e in Without(c, key) ==> e in c && e.key != key
    ensures forall e :: e in c && e.key != key ==> e in Without(c, key)
  {
    if c != [] {
      WithoutMembers(c[1..], key);
      assert c == [c[0]] + c[1..];
    }
  }

  lemma DistinctCons<V>(first: Entry<V>, rest: seq<Entry<V>>)
    ensures Distinct([first] + rest) <==> Distinct(rest) && !Holds(rest, first.key)
  {
    var c := [first] + rest;
    assert c[1..] == rest;
    assert forall i :: 0 <= i < |rest| ==> c[i + 1] == rest[i];
    if Distinct(c) {
      forall e | e in rest ensures e.key != first.key {
        var i :| 0 <= i < |rest| && rest[i] == e;
        assert c[i + 1].key != c[0].key;
      }
      forall i, j | 0 <= i < j < |rest| ensures rest[i].key != rest[j].key {
        assert c[i + 1].key != c[j + 1].key;
      }
    }
  }

  /** Removing a key takes at most one entry out of a cache. */
  lemma {:induction false} WithoutDistinct<V>(c: seq<Entry<V>>, key: string)
    requires Distinct(c)
    ensures Distinct(Without(c, key)) && |Without(c, key)| >= |c| - 1
  {
    if c != [] {
      assert c == [c[0]] + c[1..];
      DistinctCons(c[0], c[1..]);
      WithoutDistinct(c[1..], key);
      WithoutMembers(c[1..], key);
      if c[0].key == key {
        WithoutAbsent(c[1..], key);
      } else {
        DistinctCons(c[0], Without(c[1..], key));
      }
    }
  }

  lemma {:induction false} RecentDistinct<V>(h: seq<Entry<V>>)
    ensures Distinct(Recent(h))
  {
    if h != [] {
      var last, before := h[|h| - 1], Recent(h[..|h| - 1]);
      RecentDistinct(h[..|h| - 1]);
      WithoutDistinct(before, last.key);
      WithoutMembers(before, last.key);
      DistinctCons(last, Without(before, last.key));
    }
  }

  lemma FirstOfLonger<V>(e: Entry<V>, head: seq<Entry<V>>, tail: seq<Entry<V>>, n: nat)
    requires |head| >= n - 1
    ensures First([e] + head, n) == First([e] + (head + tail), n)
  {
  }

  lemma FirstStep<V>(recent: seq<Entry<V>>, key: string, value: V, n: nat)
    requires Distinct(recent)
    ensures AfterPut(First(recent, n), key, value, n) == First([Entry(key, value)] + Without(recent, key), n)
  {
    var head := First(recent, n);
    if |recent| <= n {
      assert head == recent;
    } else {
      var tail := recent[n..];
      assert recent == head + tail;
      hide Without;
      WithoutAppend(head, tail, key);
      WithoutDistinct(head, key);
      FirstOfLonger(Entry(key, value), Without(head, key), Without(tail, key), n);
    }
  }

  /** The cache holds the most recent keys, as many as fit, each with the value put last. */
  lemma {:induction false} ReplayIsRecent<V>(h: seq<Entry<V>>, capacity: nat)
    ensures Replay(h, capacity) == First(Recent(h), capacity)
  {
    if h != [] {
      var last := h[|h| - 1];
      ReplayIsRecent(h[..|h| - 1], capacity);
      RecentDistinct(h[..|h| - 1]);
      FirstStep(Recent(h[..|h| - 1]), last.key, last.value, capacity);
    }
  }

  lemma {:induction false} LastIndexIs<V>(h: seq<Entry<V>>, key: string)
    ensures LastIndex(h, key) < |h|
    ensures LastIndex(h, key) >= 0 <==> Holds(h, key)
    ensures LastIndex(h, key) >= 0 ==> h[LastIndex(h, key)].key == key
    ensures forall i :: LastIndex(h, key) < i < |h| && i >= 0 ==> h[i].key != key
  {
    if h != [] && h[|h| - 1].key != key {
      var before := h[..|h| - 1];
      LastIndexIs(before, key);
      forall i | LastIndex(h, key) < i < |h| && i >= 0 ensures h[i].key != key {
        if i < |h| - 1 { assert before[i] == h[i]; }
      }
      if LastIndex(h, key) >= 0 {
        assert h[LastIndex(h, key)].key == key;
      }
    }
  }

  /** Entries in the order of the last puts of their keys, latest first. */
  ghost predicate Latest<V>(c: seq<Entry<V>>, h: seq<Entry<V>>) {
    forall i, j :: 0 <= i < j < |c| ==> LastIndex(h, c[i].key) > LastIndex(h, c[j].key)
  }

  lemma LatestCons<V>(first: Entry<V>, rest: seq<Entry<V>>, h: seq<Entry<V>>)
    requires Latest(rest, h) && forall e :: e in rest ==> LastIndex(h, first.key) > LastIndex(h, e.key)
    ensures Latest([first] + rest, h)
  {
    hide LastIndex;
  }

  lemma LatestTail<V>(c: seq<Entry<V>>, h: seq<Entry<V>>)
    requires Latest(c, h) && c != []
    ensures Latest(c[1..], h)
    ensures forall e :: e in c[1..] ==> LastIndex(h, c[0].key) > LastIndex(h, e.key)
  {
    hide LastIndex;
    forall e | e in c[1..]
      ensures LastIndex(h, c[0].key) > LastIndex(h, e.key)
    {
      var i :| 0 <= i < |c| - 1 && c[1..][i] == e;
      assert LastIndex(h, c[0].key) > LastIndex(h, c[i + 1].key);
    }
  }

  lemma {:induction false} WithoutLatest<V>(c: seq<Entry<V>>, key: string, before: seq<Entry<V>>, h: seq<Entry<V>>)
    requires Latest(c, before)
    requires forall k :: k != key ==> LastIndex(h, k) == LastIndex(before, k)
    ensures Latest(Without(c, key), h)
  {
    if c != [] {
      assert c == [c[0]] + c[1..];
      LatestTail(c, before);
      WithoutLatest(c[1..], key, before, h);
      WithoutMembers(c[1..], key);
      if c[0].key != key {
        LatestCons(c[0], Without(c[1..], key), h);
      }
    }
  }

  /** Recent keys are exactly the keys of the history, with their last values, in the order of their last puts. */
  lemma {:induction false} RecentMeaning<V>(h: seq<Entry<V>>)
    ensures forall key :: Holds(h, key) ==> Holds(Recent(h), key)
    ensures forall e :: e in Recent(h) ==> 0 <= LastIndex(h, e.key) < |h| && e == h[LastIndex(h, e.key)]
    ensures Latest(Recent(h), h)
  {
    if h != [] {
      var last, before := h[|h| - 1], h[..|h| - 1];
      RecentMeaning(before);
      WithoutMembers(Recent(before), last.key);
      WithoutLatest(Recent(before), last.key, before, h);
      forall e | e in Without(Recent(before), last.key)
        ensures 0 <= LastIndex(h, e.key) < |h| - 1 && e == h[LastIndex(h, e.key)]
      {
        assert before[LastIndex(before, e.key)] == h[LastIndex(before, e.key)];
      }
      LatestCons(last, Without(Recent(before), last.key), h);
      forall key | Holds(h, key) ensures Holds(Recent(h), key) {
        RecentHolds(h, key);
      }
    }
  }

  lemma RecentHolds<V>(h: seq<Entry<V>>, key: string)
    requires h != [] && Holds(h, key)
    requires Holds(h[..|h| - 1], key) ==> Holds(Recent(h[..|h| - 1]), key)
    ensures Holds(Recent(h), key)
  {
    var last, before := h[|h| - 1], h[..|h| - 1];
    assert h == before + [last];
    WithoutMembers(Recent(before), last.key);
    if key == last.key {
      assert last in Recent(h);
    } else {
      var e :| e in Recent(before) && e.key == key;
      assert e in Without(Recent(before), last.key);
    }
  }

  // ----- Two caches fed by the same keys ---------------------------------------------

  /** The same keys in the same order, with a part of each value. */
  function Part<V, W>(c: seq<Entry<V>>, part: V -> W): (p: seq<Entry<W>>)
    ensures |p| == |c| && forall i :: 0 <= i < |c| ==> p[i] == Entry(c[i].key, part(c[i].value))
  {
    if c == [] then [] else [Entry(c[0].key, part(c[0].value))] + Part(c[1..], part)
  }

  lemma {:induction false} PartOfWithout<V, W>(c: seq<Entry<V>>, part: V -> W, key: string)
    ensures Without(Part(c, part), key) == Part(Without(c, key), part)
  {
    if c != [] {
      PartOfWithout(c[1..], part, key);
      assert Part(c, part)[1..] == Part(c[1..], part);
      if c[0].key != key {
        assert ([c[0]] + Without(c[1..], key))[1..] == Without(c[1..], key);
      }
    }
  }

  lemma PartOfPut<V, W>(c: seq<Entry<V>>, part: V -> W, key: string, value: V, capacity: nat)
    ensures AfterPut(Part(c, part), key, part(value), capacity) == Part(AfterPut(c, key, value, capacity), part)
  {
    PartOfWithout(c, part, key);
    var all := [Entry(key, value)] + Without(c, key);
    assert Part(First(all, capacity), part) == First(Part(all, part), capacity);
  }
}
