/** The memory of recently closed streams: a map of expiry times and a binary heap whose entries are deleted
    lazily. The pair agrees with the map alone: pruning removes exactly what has expired, compacting leaves the
    map as it is, and eviction takes the entries that expire first. */
module ExpiryHeap {
  import opened Words

  datatype Entry = Entry(streamID: uint16, expires: int)

  const CAPACITY := 2000

  function Parent(i: nat): (p: nat)
    ensures i > 0 ==> p < i
  {
    if i == 0 then 0 else (i - 1) / 2
  }

  /** Every entry below n whose parent is at or after lo, other than the children of `hole`, expires no
      earlier than its parent. */
  ghost predicate OrderedBut(h: seq<Entry>, lo: nat, n: nat, hole: int) {
    && n <= |h|
    && forall c :: 0 < c < n && Parent(c) >= lo && Parent(c) != hole ==> h[Parent(c)].expires <= h[c].expires
  }

  ghost predicate HeapOrdered(h: seq<Entry>) {
    OrderedBut(h, 0, |h|, -1)
  }

  lemma {:induction false} RootIsEarliest(h: seq<Entry>, i: nat)
    requires HeapOrdered(h) && i < |h|
    ensures h[0].expires <= h[i].expires
  {
    if i > 0 { RootIsEarliest(h, Parent(i)); }
  }

  function Swapped(h: seq<Entry>, i: nat, j: nat): (r: seq<Entry>)
    requires i < |h| && j < |h|
    ensures |r| == |h| && multiset(r) == multiset(h)
  {
    h[i := h[j]][j := h[i]]
  }

  lemma ChildrenOf(i: nat, c: nat)
    requires c > 0
    ensures Parent(c) == i <==> c == 2 * i + 1 || c == 2 * i + 2
    ensures Parent(c) < c
  {
  }

  /** No child of i expires before i's parent does. */
  ghost predicate GrandparentsHold(h: seq<Entry>, n: nat, i: nat) {
    n <= |h| && i < n && forall c :: 0 < c < n && Parent(c) == i ==> h[Parent(i)].expires <= h[c].expires
  }

  /** One step of `down`: swapping the hole with its earlier child moves the hole there. */
  lemma SinkStep(h: seq<Entry>, lo: nat, n: nat, i: nat, j: nat)
    requires OrderedBut(h, lo, n, i) && lo <= i < n && (i > lo ==> Parent(i) >= lo && GrandparentsHold(h, n, i))
    requires 0 < j < n && Parent(j) == i && h[j].expires < h[i].expires
    requires forall c :: 0 < c < n && Parent(c) == i ==> h[j].expires <= h[c].expires
    ensures OrderedBut(Swapped(h, i, j), lo, n, j) && GrandparentsHold(Swapped(h, i, j), n, j)
  {
    hide Parent;
    ChildrenOf(i, j);
    var r := Swapped(h, i, j);
    forall c | 0 < c < n && Parent(c) >= lo && Parent(c) != j
      ensures r[Parent(c)].expires <= r[c].expires
    {
      ChildrenOf(Parent(c), c);
      if Parent(c) == i {} else if c == i {} else {}
    }
    forall c | 0 < c < n && Parent(c) == j ensures r[Parent(j)].expires <= r[c].expires {
      ChildrenOf(j, c);
    }
  }

  lemma SinkEnds(h: seq<Entry>, lo: nat, n: nat, i: nat)
    requires OrderedBut(h, lo, n, i)
    requires forall c :: 0 < c < n && Parent(c) == i ==> h[i].expires <= h[c].expires
    ensures OrderedBut(h, lo, n, -1)
  {
    hide Parent;
  }

  /** container/heap's `down`: sinks the entry at lo within the first n entries. */
  method Down(h: seq<Entry>, lo: nat, n: nat) returns (r: seq<Entry>)
    requires lo < n <= |h| && OrderedBut(h, lo, n, lo)
    ensures |r| == |h| && multiset(r) == multiset(h)
    ensures OrderedBut(r, lo, n, -1)
    ensures forall k :: n <= k < |h| ==> r[k] == h[k]
  {
    hide Parent, OrderedBut, GrandparentsHold;
    r := h;
    var i := lo;
    while true
      invariant lo <= i < n && |r| == |h| && multiset(r) == multiset(h)
      invariant OrderedBut(r, lo, n, i)
      invariant i > lo ==> Parent(i) >= lo && GrandparentsHold(r, n, i)
      invariant forall k :: n <= k < |h| ==> r[k] == h[k]
      decreases n - i
    {
      var left := 2 * i + 1;
      forall c | 0 < c < n ensures Parent(c) == i <==> c == left || c == left + 1 { ChildrenOf(i, c); }
      if left >= n {
        SinkEnds(r, lo, n, i);
        break;
      }
      var j := left;
      if left + 1 < n && r[left + 1].expires < r[left].expires {
        j := left + 1;
      }
      if !(r[j].expires < r[i].expires) {
        SinkEnds(r, lo, n, i);
        break;
      }
      SinkStep(r, lo, n, i, j);
      r := Swapped(r, i, j);
      i := j;
    }
  }

  /** Ordered except that entry j may expire before its parent. */
  ghost predicate OrderedAbove(h: seq<Entry>, j: nat) {
    && j < |h|
    && (forall c :: 0 < c < |h| && c != j ==> h[Parent(c)].expires <= h[c].expires)
    && (j > 0 ==> GrandparentsHold(h, |h|, j))
  }

  lemma RiseStep(h: seq<Entry>, j: nat)
    requires OrderedAbove(h, j) && j > 0 && h[j].expires < h[Parent(j)].expires
    ensures Parent(j) < j && OrderedAbove(Swapped(h, j, Parent(j)), Parent(j))
  {
    hide Parent;
    ChildrenOf(Parent(j), j);
    var p, r := Parent(j), Swapped(h, j, Parent(j));
    forall c | 0 < c < |h| && c != p ensures r[Parent(c)].expires <= r[c].expires {
      ChildrenOf(Parent(c), c);
      if Parent(c) == j {} else if Parent(c) == p {} else {}
    }
    if p > 0 {
      ChildrenOf(Parent(p), p);
      forall c | 0 < c < |h| && Parent(c) == p ensures r[Parent(p)].expires <= r[c].expires {
        ChildrenOf(p, c);
        assert h[Parent(p)].expires <= h[p].expires;
        if c == j {} else { assert h[p].expires <= h[c].expires; }
      }
    }
  }

  /** container/heap's `up`, on a heap whose last entry is new. */
  method Up(h: seq<Entry>) returns (r: seq<Entry>)
    requires h != [] && OrderedAbove(h, |h| - 1)
    ensures HeapOrdered(r) && |r| == |h| && multiset(r) == multiset(h)
  {
    r := h;
    var j: nat := |r| - 1;
    while j > 0 && r[j].expires < r[Parent(j)].expires
      invariant |r| == |h| && multiset(r) == multiset(h)
      invariant OrderedAbove(r, j)
    {
      RiseStep(r, j);
      r := Swapped(r, j, Parent(j));
      j := Parent(j);
    }
  }

  lemma AppendedIsOrderedAbove(h: seq<Entry>, e: Entry)
    requires HeapOrdered(h)
    ensures OrderedAbove(h + [e], |h|)
  {
    hide Parent;
    forall c | 0 < c <= |h| ensures Parent(c) < c && Parent(c) != |h| { ChildrenOf(|h|, c); }
  }

  method HeapPush(h: seq<Entry>, e: Entry) returns (r: seq<Entry>)
    requires HeapOrdered(h)
    ensures HeapOrdered(r) && |r| == |h| + 1 && multiset(r) == multiset(h) + multiset{e}
  {
    AppendedIsOrderedAbove(h, e);
    r := Up(h + [e]);
  }

  method HeapPop(h: seq<Entry>) returns (r: seq<Entry>, e: Entry)
    requires HeapOrdered(h) && h != []
    ensures e == h[0] && HeapOrdered(r) && |r| == |h| - 1
    ensures multiset(h) == multiset(r) + multiset{e}
  {
    var n := |h| - 1;
    r := Swapped(h, 0, n);
    assert r[n] == h[0];
    if n > 0 {
      r := Down(r, 0, n);
    }
    e := r[n];
    assert r == r[..n] + [r[n]];
    r := r[..n];
  }

  method HeapInit(h: seq<Entry>) returns (r: seq<Entry>)
    ensures HeapOrdered(r) && |r| == |h| && multiset(r) == multiset(h)
  {
    r := h;
    var i := |h| / 2;
    while i > 0
      invariant 0 <= i <= |h| / 2 && |r| == |h| && multiset(r) == multiset(h)
      invariant OrderedBut(r, i, |h|, -1)
    {
      i := i - 1;
      r := Down(r, i, |h|);
    }
  }

  /** Every live stream has a heap entry with its current expiry. */
  ghost predicate Covered(streams: map<uint16, int>, heap: seq<Entry>) {
    forall id :: id in streams ==> Entry(id, streams[id]) in multiset(heap)
  }

  function Unexpired(streams: map<uint16, int>, now: int): map<uint16, int> {
    map id | id in streams && now < streams[id] :: streams[id]
  }

  function Threshold(n: nat): nat {
    Max(n + n / 2, n + 4)
  }

  /** Half as many again as there are live streams, and at least four more. */
  lemma ThresholdIs(n: nat)
    ensures Threshold(n) == if n < 8 then n + 4 else n + n / 2
    ensures n < Threshold(n) <= 2 * n + 4
  {
  }

  /** Popping an entry that is stale, or whose stream is dropped with it, keeps the rest covered. */
  lemma PopKeepsCover(streams: map<uint16, int>, h: seq<Entry>, r: seq<Entry>, e: Entry)
    requires Covered(streams, h) && multiset(h) == multiset(r) + multiset{e}
    ensures (e.streamID !in streams || streams[e.streamID] != e.expires) ==> Covered(streams, r)
    ensures Covered(streams - {e.streamID}, r)
  {
  }

  /** When the root has not expired, nothing has. */
  lemma NothingExpired(streams: map<uint16, int>, h: seq<Entry>, now: int)
    requires HeapOrdered(h) && Covered(streams, h) && (h == [] || now < h[0].expires)
    ensures Unexpired(streams, now) == streams
  {
    hide HeapOrdered;
    forall id | id in streams ensures now < streams[id] {
      var k :| 0 <= k < |h| && h[k] == Entry(id, streams[id]);
      RootIsEarliest(h, k);
    }
  }

  lemma RootBelowLive(streams: map<uint16, int>, h: seq<Entry>)
    requires HeapOrdered(h) && Covered(streams, h)
    ensures h == [] ==> streams == map[]
    ensures h != [] ==> forall id :: id in streams ==> h[0].expires <= streams[id]
  {
    hide HeapOrdered;
    forall id | id in streams ensures h != [] && h[0].expires <= streams[id] {
      var k :| 0 <= k < |h| && h[k] == Entry(id, streams[id]);
      RootIsEarliest(h, k);
    }
  }

  class RecentlyClosed {
    var streams: map<uint16, int>
    var heap: seq<Entry>

    ghost predicate Valid()
      reads this
    {
      HeapOrdered(heap) && Covered(streams, heap)
    }

    constructor ()
      ensures Valid() && streams == map[]
    {
      streams, heap := map[], [];
    }

    /** After a prune the map holds exactly the entries that have not expired, and the heap is small. */
    method Prune(now: int)
      requires Valid()
      modifies this
      ensures Valid()
      ensures streams == Unexpired(old(streams), now)
      ensures forall id :: id in streams <==> id in old(streams) && now < old(streams)[id]
      ensures forall id :: id in streams ==> streams[id] == old(streams)[id]
      ensures |heap| <= Threshold(|streams|)
    {
      hide HeapOrdered, Covered;
      while |heap| > 0
        invariant Valid()
        invariant Unexpired(streams, now) == Unexpired(old(streams), now)
        decreases |heap|
      {
        var entry := heap[0];
        ghost var before := heap;
        if entry.streamID !in streams || streams[entry.streamID] != entry.expires {
          heap, entry := HeapPop(heap);
          PopKeepsCover(streams, before, heap, entry);
          continue;
        }
        if now < streams[entry.streamID] {
          break;
        }
        heap, entry := HeapPop(heap);
        PopKeepsCover(streams, before, heap, entry);
        streams := streams - {entry.streamID};
      }
      NothingExpired(streams, heap, now);
      Compact();
    }

    /** Rebuilds the heap from the map when too many of its entries are stale. */
    method Compact()
      requires Valid()
      modifies this`heap
      ensures Valid()
      ensures |heap| <= Threshold(|streams|)
    {
      var threshold := |streams| + |streams| / 2;
      if threshold < |streams| + 4 {
        threshold := |streams| + 4;
      }
      if |heap| <= threshold {
        return;
      }
      var rebuilt: seq<Entry> := [];
      var keys := streams.Keys;
      while keys != {}
        invariant keys <= streams.Keys && |rebuilt| + |keys| == |streams.Keys|
        invariant forall id :: id in streams && id !in keys ==> Entry(id, streams[id]) in rebuilt
      {
        var id :| id in keys;
        rebuilt := rebuilt + [Entry(id, streams[id])];
        keys := keys - {id};
      }
      heap := HeapInit(rebuilt);
    }

    /** Shrinks the map to the capacity; what is dropped expires no later than anything kept. */
    method Evict(capacity: nat)
      requires Valid()
      modifies this
      ensures Valid()
      ensures |streams| == Min(|old(streams)|, capacity)
      ensures forall id :: id in streams ==> id in old(streams) && streams[id] == old(streams)[id]
      ensures forall kept, dropped :: kept in streams && dropped in old(streams) && dropped !in streams ==>
        old(streams)[dropped] <= streams[kept]
    {
      hide HeapOrdered, Covered;
      RootBelowLive(streams, heap);
      while |streams| > capacity && |heap| > 0
        invariant Valid()
        invariant |streams| >= Min(|old(streams)|, capacity)
        invariant forall id :: id in streams ==> id in old(streams) && streams[id] == old(streams)[id]
        invariant |streams| < |old(streams)| ==> |streams| >= capacity
        invariant |streams| <= |old(streams)|
        invariant |streams| == |old(streams)| ==> streams == old(streams)
        invariant forall kept, dropped :: kept in streams && dropped in old(streams) && dropped !in streams ==>
          old(streams)[dropped] <= streams[kept]
        decreases |heap|
      {
        var entry;
        ghost var before := heap;
        heap, entry := HeapPop(heap);
        RootBelowLive(streams, before);
        PopKeepsCover(streams, before, heap, entry);
        if entry.streamID !in streams || streams[entry.streamID] != entry.expires {
          continue;
        }
        assert |streams.Keys - {entry.streamID}| == |streams.Keys| - 1;
        streams := streams - {entry.streamID};
      }
      RootBelowLive(streams, heap);
    }

    /** A stream closed at `now`; `retention` is the configured one or, when that is not positive, 15 s. */
    method Remember(streamID: uint16, now: int, retention: nat)
      requires Valid() && retention > 0
      modifies this
      ensures Valid()
      ensures var all := Unexpired(old(streams), now)[streamID := now + retention];
        && |streams| == Min(|all|, CAPACITY)
        && (forall id :: id in streams ==> id in all && streams[id] == all[id])
        && (forall kept, dropped :: kept in streams && dropped in all && dropped !in streams ==>
          all[dropped] <= streams[kept])
    {
      Prune(now);
      streams := streams[streamID := now + retention];
      heap := HeapPush(heap, Entry(streamID, now + retention));
      Evict(CAPACITY);
    }

    method IsRecentlyClosed(streamID: uint16, now: int) returns (r: bool)
      requires Valid()
      modifies this
      ensures Valid() && streams == Unexpired(old(streams), now)
      ensures r <==> streamID in old(streams) && now < old(streams)[streamID]
    {
      Prune(now);
      // The prune leaves nothing expired, so the second test of the code only ever confirms the first.
      r := streamID in streams && now < streams[streamID];
    }
  }
}
