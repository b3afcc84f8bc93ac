/** The six-level transmit queue: level lists, a bit mask of the non-empty levels, a census by key and a
    size counter, refining one list ordered by priority and, within a priority, by insertion. */
module LevelQueue {
  import opened Words

  const LEVELS := 6

  datatype QueueEntry<+T> = QueueEntry(key: nat, item: T)

  /** An entry of the ordered list the queue stands for. */
  datatype Entry<+T> = Entry(priority: nat, key: nat, item: T)

  /** The level an item of any priority goes to; out of range means the normal level. */
  function Lane(priority: int): (lane: nat)
    ensures lane < LEVELS
  {
    if priority < 0 || priority >= LEVELS then 3 else priority
  }

  lemma LaneIs(priority: int)
    ensures Lane(priority) == if 0 <= priority <= 5 then priority else 3
  {
  }

  // ----- the bit mask -----

  function Bit(p: nat): bv16 {
    if p == 0 then 1 else if p == 1 then 2 else if p == 2 then 4 else if p == 3 then 8 else if p == 4 then 16
    else if p == 5 then 32 else 0
  }

  function Set(mask: bv16, p: nat): bv16 {
    mask | Bit(p)
  }

  function Unset(mask: bv16, p: nat): bv16 {
    mask & !Bit(p)
  }

  predicate Has(mask: bv16, p: nat) {
    mask & Bit(p) != 0
  }

  predicate OnlyLevels(mask: bv16) {
    mask & 0xFFC0 == 0
  }

  /** bits.TrailingZeros16 on a mask of levels. */
  function TrailingZeros(mask: bv16): (p: nat)
    requires OnlyLevels(mask) && mask != 0
    ensures p < LEVELS && Has(mask, p) && forall q: nat :: q < p ==> !Has(mask, q)
  {
    if mask & 1 != 0 then 0 else if mask & 2 != 0 then 1 else if mask & 4 != 0 then 2
    else if mask & 8 != 0 then 3 else if mask & 16 != 0 then 4 else 5
  }

  lemma SetBit(mask: bv16, p: nat)
    requires p < LEVELS && OnlyLevels(mask)
    ensures OnlyLevels(Set(mask, p)) && Has(Set(mask, p), p)
    ensures forall q: nat :: q < LEVELS && q != p ==> (Has(Set(mask, p), q) <==> Has(mask, q))
  {
  }

  lemma ClearBit(mask: bv16, p: nat)
    requires p < LEVELS && OnlyLevels(mask)
    ensures OnlyLevels(Unset(mask, p)) && !Has(Unset(mask, p), p)
    ensures forall q: nat :: q < LEVELS && q != p ==> (Has(Unset(mask, p), q) <==> Has(mask, q))
  {
  }

  lemma SomeBit(mask: bv16)
    requires OnlyLevels(mask)
    ensures mask == 0 <==> forall p: nat :: p < LEVELS ==> !Has(mask, p)
  {
    if forall p: nat :: p < LEVELS ==> !Has(mask, p) {
      assert !Has(mask, 0) && !Has(mask, 1) && !Has(mask, 2) && !Has(mask, 3) && !Has(mask, 4) && !Has(mask, 5);
    }
  }

  // ----- the list the levels stand for -----

  function Tag<T>(q: seq<QueueEntry<T>>, p: nat): (r: seq<Entry<T>>)
    ensures |r| == |q|
    ensures forall i :: 0 <= i < |q| ==> r[i] == Entry(p, q[i].key, q[i].item)
  {
    seq(|q|, i requires 0 <= i < |q| => Entry(p, q[i].key, q[i].item))
  }

  /** The entries of the levels before p. */
  function Above<T>(queues: seq<seq<QueueEntry<T>>>, p: nat): seq<Entry<T>>
    requires p <= |queues|
  {
    if p == 0 then [] else Above(queues, p - 1) + Tag(queues[p - 1], p - 1)
  }

  /** The entries of the levels from p on. */
  function From<T>(queues: seq<seq<QueueEntry<T>>>, p: nat): seq<Entry<T>>
    requires p <= |queues|
    decreases |queues| - p
  {
    if p == |queues| then [] else Tag(queues[p], p) + From(queues, p + 1)
  }

  lemma {:induction false} SplitAtLevel<T>(queues: seq<seq<QueueEntry<T>>>, p: nat)
    requires p <= |queues|
    ensures From(queues, 0) == Above(queues, p) + From(queues, p)
  {
    if p > 0 {
      SplitAtLevel(queues, p - 1);
      assert Above(queues, p - 1) + (Tag(queues[p - 1], p - 1) + From(queues, p))
          == (Above(queues, p - 1) + Tag(queues[p - 1], p - 1)) + From(queues, p);
    }
  }

  lemma {:induction false} LevelsOfAbove<T>(queues: seq<seq<QueueEntry<T>>>, p: nat)
    requires p <= |queues|
    ensures forall i :: 0 <= i < |Above(queues, p)| ==> Above(queues, p)[i].priority < p
  {
    if p > 0 { LevelsOfAbove(queues, p - 1); }
  }

  lemma {:induction false} LevelsOfFrom<T>(queues: seq<seq<QueueEntry<T>>>, p: nat)
    requires p <= |queues|
    ensures forall i :: 0 <= i < |From(queues, p)| ==> p <= From(queues, p)[i].priority < |queues|
    decreases |queues| - p
  {
    if p < |queues| { LevelsOfFrom(queues, p + 1); }
  }

  lemma {:induction false} AboveUnchanged<T>(queues: seq<seq<QueueEntry<T>>>, p: nat, r: nat, q: seq<QueueEntry<T>>)
    requires r <= p < |queues|
    ensures Above(queues[p := q], r) == Above(queues, r)
  {
    if r > 0 { AboveUnchanged(queues, p, r - 1, q); }
  }

  lemma {:induction false} FromUnchanged<T>(queues: seq<seq<QueueEntry<T>>>, p: nat, r: nat, q: seq<QueueEntry<T>>)
    requires p < r <= |queues|
    ensures From(queues[p := q], r) == From(queues, r)
    decreases |queues| - r
  {
    if r < |queues| { FromUnchanged(queues, p, r + 1, q); }
  }

  /** Replacing one level replaces its stretch of the list and nothing else. */
  lemma LevelStretch<T>(queues: seq<seq<QueueEntry<T>>>, p: nat, q: seq<QueueEntry<T>>)
    requires p < |queues|
    ensures From(queues, 0) == Above(queues, p) + Tag(queues[p], p) + From(queues, p + 1)
    ensures From(queues[p := q], 0) == Above(queues, p) + Tag(q, p) + From(queues, p + 1)
  {
    SplitAtLevel(queues, p);
    SplitAtLevel(queues[p := q], p);
    AboveUnchanged(queues, p, p, q);
    FromUnchanged(queues, p, p + 1, q);
  }

  lemma {:induction false} AboveEmpty<T>(queues: seq<seq<QueueEntry<T>>>, p: nat)
    requires p <= |queues| && forall r :: 0 <= r < p ==> queues[r] == []
    ensures Above(queues, p) == []
  {
    if p > 0 { AboveEmpty(queues, p - 1); }
  }

  // ----- the ordered list as a specification -----

  /** Behind every entry of the same or a better priority. */
  function Inserted<T>(list: seq<Entry<T>>, e: Entry<T>): seq<Entry<T>> {
    if list == [] || list[0].priority > e.priority then [e] + list
    else [list[0]] + Inserted(list[1..], e)
  }

  function Without<T>(list: seq<T>, i: nat): seq<T>
    requires i < |list|
  {
    list[..i] + list[i + 1..]
  }

  lemma {:induction false} InsertedBetween<T>(a: seq<Entry<T>>, b: seq<Entry<T>>, e: Entry<T>)
    requires forall i :: 0 <= i < |a| ==> a[i].priority <= e.priority
    requires forall i :: 0 <= i < |b| ==> b[i].priority > e.priority
    ensures Inserted(a + b, e) == a + [e] + b
  {
    if a == [] {
      assert a + b == b;
    } else {
      assert (a + b)[1..] == a[1..] + b;
      InsertedBetween(a[1..], b, e);
    }
  }

  ghost function KeySet<T>(list: seq<Entry<T>>): set<nat> {
    set e | e in list :: e.key
  }

  lemma {:induction false} KeySetIsSmall<T>(list: seq<Entry<T>>)
    ensures |KeySet(list)| <= |list|
  {
    if list == [] {
      assert KeySet(list) == {};
    } else {
      KeySetIsSmall(list[1..]);
      assert list == [list[0]] + list[1..];
      assert KeySet(list) == {list[0].key} + KeySet(list[1..]);
    }
  }

  lemma KeySetWithOne<T>(a: seq<Entry<T>>, b: seq<Entry<T>>, e: Entry<T>)
    ensures KeySet(a + [e] + b) == KeySet(a + b) + {e.key}
    ensures |KeySet(a + [e] + b)| == |a + [e] + b| ==> e.key !in KeySet(a + b)
  {
    KeySetIsSmall(a + b);
  }

  /** Every key is queued at most once. */
  lemma KeysAreDistinct<T>(list: seq<Entry<T>>, i: nat, j: nat)
    requires |KeySet(list)| == |list| && i < j < |list|
    ensures list[i].key != list[j].key
  {
    assert list == list[..i] + [list[i]] + list[i + 1..];
    hide KeySet;
    KeySetWithOne(list[..i], list[i + 1..], list[i]);
    KeyIsIn(list[i + 1..], j - i - 1, list[..i]);
  }

  lemma KeyIsIn<T>(b: seq<Entry<T>>, k: nat, a: seq<Entry<T>>)
    requires k < |b|
    ensures b[k].key in KeySet(a + b)
  {
    assert (a + b)[|a| + k] == b[k];
  }

  /** Insertion loses and invents nothing. */
  lemma {:induction false} InsertedAddsOne<T>(list: seq<Entry<T>>, e: Entry<T>)
    ensures multiset(Inserted(list, e)) == multiset(list) + multiset{e}
  {
    if list == [] || list[0].priority > e.priority {
    } else {
      InsertedAddsOne(list[1..], e);
      assert list == [list[0]] + list[1..];
    }
  }

  /** Insertion keeps the list ordered by priority. */
  lemma {:induction false} InsertedIsOrdered<T>(list: seq<Entry<T>>, e: Entry<T>)
    requires Ordered(list)
    ensures Ordered(Inserted(list, e))
    ensures forall i :: 0 <= i < |Inserted(list, e)| ==>
      Inserted(list, e)[i].priority >= if list == [] || e.priority < list[0].priority then e.priority else list[0].priority
  {
    if list == [] || list[0].priority > e.priority {
    } else {
      assert list[1..] != [] ==> list[1..][0].priority >= list[0].priority;
      InsertedIsOrdered(list[1..], e);
    }
  }

  ghost predicate Ordered<T>(list: seq<Entry<T>>) {
    forall i, j :: 0 <= i < j < |list| ==> list[i].priority <= list[j].priority
  }

  lemma {:induction false} LevelsAreOrdered<T>(queues: seq<seq<QueueEntry<T>>>, p: nat)
    requires p <= |queues|
    ensures Ordered(From(queues, p))
    decreases |queues| - p
  {
    if p < |queues| {
      LevelsAreOrdered(queues, p + 1);
      LevelsOfFrom(queues, p + 1);
    }
  }

  ghost predicate MaskAgrees<T>(queues: seq<seq<QueueEntry<T>>>, mask: bv16) {
    && |queues| == LEVELS
    && OnlyLevels(mask)
    && forall p: nat :: p < LEVELS ==> (Has(mask, p) <==> queues[p] != [])
  }

  ghost predicate CensusAgrees<T>(list: seq<Entry<T>>, census: map<nat, nat>) {
    && census.Keys == KeySet(list)
    && |KeySet(list)| == |list|
    && forall e :: e in list ==> e.key in census && census[e.key] == e.priority
  }

  lemma CensusAfterInsert<T>(a: seq<Entry<T>>, b: seq<Entry<T>>, e: Entry<T>, census: map<nat, nat>)
    requires CensusAgrees(a + b, census) && e.key !in census
    ensures CensusAgrees(a + [e] + b, census[e.key := e.priority])
  {
    KeySetWithOne(a, b, e);
  }

  lemma CensusAfterRemove<T>(list: seq<Entry<T>>, r: nat, census: map<nat, nat>)
    requires CensusAgrees(list, census) && r < |list|
    ensures CensusAgrees(Without(list, r), census - {list[r].key})
    ensures |census - {list[r].key}| == |census| - 1
  {
    var a, b, e := list[..r], list[r + 1..], list[r];
    assert list == a + [e] + b;
    KeySetWithOne(a, b, e);
    var census' := census - {e.key};
    assert census'.Keys == census.Keys - {e.key} == KeySet(a + b);
    assert |census'.Keys| == |census.Keys| - 1;
  }

  /** list' is list without its entry i, which carries the item. */
  ghost predicate TakenAt<T>(list: seq<Entry<T>>, list': seq<Entry<T>>, i: nat, item: T) {
    i < |list| && list[i].item == item && list' == Without(list, i)
  }

  /** Entry i is the first one of its level. */
  ghost predicate LevelHead<T>(list: seq<Entry<T>>, i: nat, priority: int) {
    i < |list| && list[i].priority == priority && forall j :: 0 <= j < i ==> list[j].priority != priority
  }

  /** Appending to level p inserts behind every entry of the same or a better priority. */
  lemma AppendInserts<T>(queues: seq<seq<QueueEntry<T>>>, p: nat, q: QueueEntry<T>)
    requires p < |queues|
    ensures var queues' := queues[p := queues[p] + [q]]; var e := Entry(p, q.key, q.item);
      var a, b := Above(queues, p) + Tag(queues[p], p), From(queues, p + 1);
      && From(queues, 0) == a + b && From(queues', 0) == a + [e] + b
      && From(queues', 0) == Inserted(From(queues, 0), e)
  {
    var e := Entry(p, q.key, q.item);
    var a, b := Above(queues, p) + Tag(queues[p], p), From(queues, p + 1);
    LevelStretch(queues, p, queues[p] + [q]);
    LevelsOfAbove(queues, p);
    LevelsOfFrom(queues, p + 1);
    InsertedBetween(a, b, e);
    assert Tag(queues[p] + [q], p) == Tag(queues[p], p) + [e];
    assert Above(queues, p) + (Tag(queues[p], p) + [e]) + b == a + [e] + b;
  }

  /** Removing entry i of level p removes its place in the list. */
  lemma RemoveDrops<T>(queues: seq<seq<QueueEntry<T>>>, p: nat, i: nat)
    requires p < |queues| && i < |queues[p]|
    ensures var list, at := From(queues, 0), |Above(queues, p)| + i;
      && at < |list| && list[at] == Entry(p, queues[p][i].key, queues[p][i].item)
      && From(queues[p := Without(queues[p], i)], 0) == Without(list, at)
  {
    LevelStretch(queues, p, Without(queues[p], i));
    assert Tag(Without(queues[p], i), p) == Without(Tag(queues[p], p), i);
  }

  /** The entry in front of the first non-empty level is the head of the list. */
  lemma FirstLevelIsHead<T>(queues: seq<seq<QueueEntry<T>>>, p: nat)
    requires p < |queues| && queues[p] != [] && forall r :: 0 <= r < p ==> queues[r] == []
    ensures |Above(queues, p)| == 0 && From(queues, 0) != []
    ensures From(queues, 0)[0] == Entry(p, queues[p][0].key, queues[p][0].item)
  {
    AboveEmpty(queues, p);
    RemoveDrops(queues, p, 0);
  }

  lemma EmptyLevels<T>(queues: seq<seq<QueueEntry<T>>>)
    requires forall r :: 0 <= r < |queues| ==> queues[r] == []
    ensures From(queues, 0) == []
  {
    AboveEmpty(queues, |queues|);
    SplitAtLevel(queues, |queues|);
  }

  /** The position in the list of entry i of level p, and back. */
  lemma {:induction false} PlaceInLevel<T>(queues: seq<seq<QueueEntry<T>>>, r: nat, at: nat)
    returns (p: nat, i: nat)
    requires r <= |queues| && at < |From(queues, r)|
    ensures r <= p < |queues| && i < |queues[p]|
    ensures From(queues, r)[at] == Entry(p, queues[p][i].key, queues[p][i].item)
    ensures |Above(queues, r)| + at == |Above(queues, p)| + i
    decreases |queues| - r
  {
    if at < |queues[r]| {
      p, i := r, at;
    } else {
      p, i := PlaceInLevel(queues, r + 1, at - |queues[r]|);
    }
  }

  /** The scanning mask holds exactly the non-empty levels from `done` on. */
  ghost predicate StillToScan<T>(queues: seq<seq<QueueEntry<T>>>, mask: bv16, done: nat) {
    && |queues| == LEVELS && OnlyLevels(mask)
    && forall q: nat :: q < LEVELS ==> (Has(mask, q) <==> q >= done && queues[q] != [])
  }

  lemma MaskIsScan<T>(queues: seq<seq<QueueEntry<T>>>, mask: bv16)
    requires MaskAgrees(queues, mask)
    ensures StillToScan(queues, mask, 0)
  {
  }

  lemma ScanAdvances<T>(queues: seq<seq<QueueEntry<T>>>, mask: bv16, done: nat)
    requires StillToScan(queues, mask, done) && mask != 0
    ensures OnlyLevels(mask)
    ensures var p := TrailingZeros(mask);
      && done <= p < LEVELS && queues[p] != [] && (forall q :: done <= q < p ==> queues[q] == [])
      && StillToScan(queues, Unset(mask, p), p + 1)
  {
    hide Bit, Set, Unset, Has, OnlyLevels, TrailingZeros;
    var p := TrailingZeros(mask);
    ClearBit(mask, p);
    assert Has(mask, p);
    forall q: nat | done <= q < p ensures queues[q] == [] { assert !Has(mask, q); }
    var next := Unset(mask, p);
    forall q: nat | q < LEVELS ensures Has(next, q) <==> q >= p + 1 && queues[q] != [] {
      assert q != p ==> (Has(next, q) <==> Has(mask, q));
      assert q < p ==> !Has(mask, q);
    }
  }

  lemma ScanDone<T>(queues: seq<seq<QueueEntry<T>>>, done: nat)
    requires StillToScan(queues, 0, done)
    ensures forall q :: done <= q < LEVELS ==> queues[q] == []
  {
    hide Bit, OnlyLevels;
    forall q: nat | done <= q < LEVELS ensures queues[q] == [] { assert !Has(0, q); }
  }

  lemma CensusKeys<T>(list: seq<Entry<T>>, census: map<nat, nat>, key: nat)
    requires CensusAgrees(list, census)
    ensures key in census <==> exists i :: 0 <= i < |list| && list[i].key == key
  {
    KeyQueued(list, key);
  }

  lemma PushKeeps<T>(queues: seq<seq<QueueEntry<T>>>, mask: bv16, census: map<nat, nat>, p: nat, q: QueueEntry<T>)
    requires MaskAgrees(queues, mask) && CensusAgrees(From(queues, 0), census) && p < LEVELS && q.key !in census
    ensures var queues' := queues[p := queues[p] + [q]];
      && MaskAgrees(queues', Set(mask, p)) && CensusAgrees(From(queues', 0), census[q.key := p])
      && |From(queues', 0)| == |From(queues, 0)| + 1
      && From(queues', 0) == Inserted(From(queues, 0), Entry(p, q.key, q.item))
  {
    hide Bit, Set, Unset, Has, OnlyLevels, Inserted, Above, From, KeySet, CensusAgrees;
    AppendInserts(queues, p, q);
    CensusAfterInsert(Above(queues, p) + Tag(queues[p], p), From(queues, p + 1), Entry(p, q.key, q.item), census);
    SetBit(mask, p);
  }

  method FirstInLevel<T>(level: seq<QueueEntry<T>>, wanted: T -> bool) returns (i: nat)
    ensures i <= |level|
    ensures i < |level| ==> wanted(level[i].item)
    ensures forall j :: 0 <= j < i ==> !wanted(level[j].item)
  {
    i := 0;
    while i < |level| && !wanted(level[i].item)
      invariant i <= |level|
      invariant forall j :: 0 <= j < i ==> !wanted(level[j].item)
    {
      i := i + 1;
    }
  }

  /** No item of the first n entries is wanted. */
  ghost predicate NoneWanted<T>(list: seq<Entry<T>>, n: nat, wanted: T -> bool) {
    n <= |list| && forall i :: 0 <= i < n ==> !wanted(list[i].item)
  }

  /** Nothing of at most the given priority number is wanted. */
  ghost predicate NoMatch<T>(list: seq<Entry<T>>, maxPriority: int, wanted: T -> bool) {
    forall i :: 0 <= i < |list| ==> list[i].priority > maxPriority || !wanted(list[i].item)
  }

  /** Entry i of level p is the first wanted entry of the whole list. */
  ghost predicate MatchAt<T>(queues: seq<seq<QueueEntry<T>>>, p: nat, i: nat, wanted: T -> bool) {
    && p < |queues| && i < |queues[p]| && wanted(queues[p][i].item)
    && |Above(queues, p)| + i < |From(queues, 0)|
    && NoneWanted(From(queues, 0), |Above(queues, p)| + i, wanted)
    && From(queues, 0)[|Above(queues, p)| + i] == Entry(p, queues[p][i].key, queues[p][i].item)
  }

  lemma LevelRejected<T>(queues: seq<seq<QueueEntry<T>>>, p: nat, i: nat, wanted: T -> bool)
    requires p < |queues| && i <= |queues[p]|
    requires NoneWanted(From(queues, 0), |Above(queues, p)|, wanted)
    requires forall j :: 0 <= j < i ==> !wanted(queues[p][j].item)
    ensures NoneWanted(From(queues, 0), |Above(queues, p)| + i, wanted)
    ensures i == |queues[p]| ==> |Above(queues, p + 1)| == |Above(queues, p)| + i
    ensures i < |queues[p]| && wanted(queues[p][i].item) ==> MatchAt(queues, p, i, wanted)
  {
    hide From, Above;
    LevelPassed(queues, p);
    var list, from := From(queues, 0), |Above(queues, p)|;
    forall k | from <= k < from + i ensures !wanted(list[k].item) {
      assert list[k].item == queues[p][k - from].item;
    }
    assert |Above(queues, p)| + |queues[p]| <= |From(queues, 0)|;
  }

  /** The scan of PopAnyIf: level by level, best first, each from its front. */
  method FindMatch<T>(queues: seq<seq<QueueEntry<T>>>, bitmask: bv16, maxPriority: int, wanted: T -> bool)
    returns (r: Option<(nat, nat)>)
    requires MaskAgrees(queues, bitmask)
    ensures r.None? ==> NoMatch(From(queues, 0), maxPriority, wanted)
    ensures r.Some? ==> r.value.0 <= maxPriority && MatchAt(queues, r.value.0, r.value.1, wanted)
  {
    hide Bit, Set, Unset, Has, OnlyLevels, Above, From, StillToScan, TrailingZeros, NoneWanted, NoMatch, MatchAt;
    MaskIsScan(queues, bitmask);
    assert |queues| == LEVELS;
    hide MaskAgrees;
    ghost var done: nat := 0;
    var tempMask := bitmask;
    NoneYet(queues, wanted);
    while tempMask != 0
      invariant done <= LEVELS && StillToScan(queues, tempMask, done)
      invariant NoneWanted(From(queues, 0), |Above(queues, done)|, wanted)
      decreases LEVELS - done
    {
      ScanAdvances(queues, tempMask, done);
      var p := TrailingZeros(tempMask);
      EmptyBetween(queues, done, p);
      if p > maxPriority {
        ScanEnds(queues, p, maxPriority, wanted);
        return None;
      }
      var i := FirstInLevel(queues[p], wanted);
      LevelRejected(queues, p, i, wanted);
      if i < |queues[p]| {
        return Some((p, i));
      }
      tempMask := Unset(tempMask, p);
      done := p + 1;
    }
    ScanDone(queues, done);
    EmptyBetween(queues, done, LEVELS);
    ScanEnds(queues, LEVELS, maxPriority, wanted);
    return None;
  }

  lemma NoneYet<T>(queues: seq<seq<QueueEntry<T>>>, wanted: T -> bool)
    ensures NoneWanted(From(queues, 0), |Above(queues, 0)|, wanted)
  {
  }

  lemma ScanEnds<T>(queues: seq<seq<QueueEntry<T>>>, p: nat, maxPriority: int, wanted: T -> bool)
    requires p <= |queues| && (p > maxPriority || p == |queues|)
    requires NoneWanted(From(queues, 0), |Above(queues, p)|, wanted)
    ensures NoMatch(From(queues, 0), maxPriority, wanted)
  {
    hide From, Above;
    LaterLevels(queues, p);
    AllAbove(queues);
  }

  class MultiLevelQueue<T(==)> {
    var queues: seq<seq<QueueEntry<T>>>
    var bitmask: bv16
    var fastSize: nat
    var census: map<nat, nat>

    ghost function List(): seq<Entry<T>>
      reads this
    {
      From(queues, 0)
    }

    /** Levels, mask, census and size agree. */
    ghost predicate Valid()
      reads this
    {
      MaskAgrees(queues, bitmask) && CensusAgrees(List(), census) && fastSize == |List()|
    }

    constructor ()
      ensures Valid() && List() == []
    {
      queues, bitmask, fastSize, census := [[], [], [], [], [], []], 0, 0, map[];
      new;
      EmptyLevels(queues);
    }

    /** Returns false, changing nothing, when the key is queued already. */
    method Push(priority: int, key: nat, item: T) returns (ok: bool)
      requires Valid()
      modifies this
      ensures Valid()
      ensures ok <==> forall i :: 0 <= i < |old(List())| ==> old(List())[i].key != key
      ensures ok ==>
        List() == Inserted(old(List()), Entry(if 0 <= priority <= 5 then priority else 3, key, item))
      ensures !ok ==> List() == old(List())
    {
      hide Lane, Bit, Has, OnlyLevels, Inserted, Above, From, KeySet, CensusAgrees, MaskAgrees;
      CensusKeys(List(), census, key);
      LaneIs(priority);
      ok := key !in census;
      if ok {
        Link(Lane(priority), key, item);
      }
    }

    /** Links an item of a new key at the back of level p. */
    method Link(p: nat, key: nat, item: T)
      requires Valid() && p < LEVELS && key !in census
      modifies this
      ensures Valid()
      ensures List() == Inserted(old(List()), Entry(p, key, item))
    {
      hide Bit, Set, Unset, Has, OnlyLevels, Inserted, Above, From, KeySet, CensusAgrees, Tag;
      PushKeeps(queues, bitmask, census, p, QueueEntry(key, item));
      queues := queues[p := queues[p] + [QueueEntry(key, item)]];
      census := census[key := p];
      bitmask := Set(bitmask, p);
      fastSize := fastSize + 1;
    }

    /** Unlinks entry i of level p, the tail every removing operation shares. */
    method Unlink(p: nat, i: nat) returns (e: QueueEntry<T>)
      requires Valid() && p < LEVELS && i < |queues[p]|
      modifies this
      ensures Valid() && e == old(queues)[p][i]
      ensures |old(Above(queues, p))| + i < |old(List())|
      ensures List() == Without(old(List()), |old(Above(queues, p))| + i)
      ensures old(List())[|old(Above(queues, p))| + i] == Entry(p, e.key, e.item)
    {
      hide Bit, Set, Unset, Has, OnlyLevels, Above, From, KeySet, CensusAgrees;
      e := queues[p][i];
      RemoveDrops(queues, p, i);
      CensusAfterRemove(List(), |Above(queues, p)| + i, census);
      ClearBit(bitmask, p);
      queues := queues[p := queues[p][..i] + queues[p][i + 1..]];
      census := census - {e.key};
      fastSize := fastSize - 1;
      if queues[p] == [] {
        bitmask := Unset(bitmask, p);
      }
    }

    /** Takes the head of the ordered list. */
    method Pop() returns (r: Option<(T, nat)>)
      requires Valid()
      modifies this
      ensures Valid()
      ensures r.None? <==> old(List()) == []
      ensures r.None? ==> List() == []
      ensures r.Some? ==>
        && r.value == (old(List())[0].item, old(List())[0].priority)
        && List() == old(List())[1..]
    {
      hide Bit, Set, Unset, Has, OnlyLevels;
      SomeBit(bitmask);
      if bitmask == 0 {
        EmptyLevels(queues);
        return None;
      }
      var p := TrailingZeros(bitmask);
      FirstLevelIsHead(queues, p);
      ghost var list := List();
      var e := Unlink(p, 0);
      assert Without(list, 0) == list[1..];
      return Some((e.item, p));
    }

    /** The head of the ordered list, left in place. */
    method Peek() returns (r: Option<(T, nat)>)
      requires Valid()
      ensures r.None? <==> List() == []
      ensures r.Some? ==> r.value == (List()[0].item, List()[0].priority)
    {
      hide Bit, Set, Unset, Has, OnlyLevels;
      SomeBit(bitmask);
      if bitmask == 0 {
        EmptyLevels(queues);
        return None;
      }
      var p := TrailingZeros(bitmask);
      FirstLevelIsHead(queues, p);
      return Some((queues[p][0].item, p));
    }

    method HighestPriority() returns (p: int)
      requires Valid()
      ensures p == if List() == [] then -1 else List()[0].priority
    {
      hide Bit, Set, Unset, Has, OnlyLevels;
      SomeBit(bitmask);
      if bitmask == 0 {
        EmptyLevels(queues);
        return -1;
      }
      p := TrailingZeros(bitmask);
      FirstLevelIsHead(queues, p);
    }

    /** Where the census sends a key: the level and the index in it. */
    method Locate(key: nat) returns (p: nat, i: nat)
      requires Valid() && key in census
      ensures p < LEVELS && i < |queues[p]| && queues[p][i].key == key
    {
      p := census[key];
      KeyQueued(List(), key);
      ghost var at :| 0 <= at < |List()| && List()[at].key == key;
      ghost var p', i' := PlaceInLevel(queues, 0, at);
      i := 0;
      while queues[p][i].key != key
        invariant p == p' && i <= i' < |queues[p]|
        decreases i' - i
      {
        i := i + 1;
      }
    }

    method Get(key: nat) returns (r: Option<T>)
      requires Valid()
      ensures r.None? <==> forall i :: 0 <= i < |List()| ==> List()[i].key != key
      ensures r.Some? ==> exists i :: 0 <= i < |List()| && List()[i].key == key && List()[i].item == r.value
    {
      hide Bit, Set, Unset, Has, OnlyLevels, KeySet;
      KeyQueued(List(), key);
      if key !in census {
        return None;
      }
      var p, i := Locate(key);
      RemoveDrops(queues, p, i);
      assert List()[|Above(queues, p)| + i].key == key;
      return Some(queues[p][i].item);
    }

    /** Removes the entry with the key, wherever it is, and keeps the rest in order. */
    method RemoveByKey(key: nat) returns (r: Option<T>)
      requires Valid()
      modifies this
      ensures Valid()
      ensures r.None? <==> forall i :: 0 <= i < |old(List())| ==> old(List())[i].key != key
      ensures r.None? ==> List() == old(List())
      ensures r.Some? ==> exists i: nat :: TakenAt(old(List()), List(), i, r.value) && old(List())[i].key == key
    {
      hide Bit, Set, Unset, Has, OnlyLevels, KeySet;
      KeyQueued(List(), key);
      if key !in census {
        return None;
      }
      var p, i := Locate(key);
      var e := Unlink(p, i);
      assert TakenAt(old(List()), List(), old(|Above(queues, p)|) + i, e.item);
      return Some(e.item);
    }

    /** Takes the first entry of one level if it satisfies the predicate (Go's nil predicate is `_ => true`). */
    method PopIf(priority: int, wanted: T -> bool) returns (r: Option<T>)
      requires Valid()
      modifies this
      ensures Valid()
      ensures r.None? ==> List() == old(List())
      ensures r.None? ==> forall i: nat :: LevelHead(old(List()), i, priority) ==> !wanted(old(List())[i].item)
      ensures r.Some? ==> wanted(r.value) && exists i ::
        TakenAt(old(List()), List(), i, r.value) && LevelHead(old(List()), i, priority)
    {
      hide Bit, Set, Unset, Has, OnlyLevels, KeySet, From, Above, CensusAgrees, LevelHead;
      if priority < 0 || priority >= LEVELS {
        NoSuchLevel(queues, priority);
        return None;
      }
      HasMeans(bitmask, priority);
      if bitmask & Bit(priority) == 0 {
        LevelIsEmpty(queues, priority);
        return None;
      }
      ghost var at := |Above(queues, priority)|;
      HeadOfLevel(queues, priority);
      if !wanted(queues[priority][0].item) {
        return None;
      }
      var e := Unlink(priority, 0);
      assert TakenAt(old(List()), List(), at, e.item);
      return Some(e.item);
    }

    /** Takes the first match among the entries of at most the given priority number. */
    method PopAnyIf(maxPriority: int, wanted: T -> bool) returns (r: Option<T>)
      requires Valid()
      modifies this
      ensures Valid()
      ensures r.None? ==> List() == old(List()) && NoMatch(old(List()), maxPriority, wanted)
      ensures r.Some? ==> wanted(r.value)
      ensures r.Some? ==> exists i: nat :: (TakenAt(old(List()), List(), i, r.value)
        && old(List())[i].priority <= maxPriority
        && NoneWanted(old(List()), i, wanted))
    {
      hide Bit, Set, Unset, Has, OnlyLevels, KeySet, Above, From, CensusAgrees;
      var found := FindMatch(queues, bitmask, maxPriority, wanted);
      match found
      case None =>
        return None;
      case Some((p, i)) =>
        ghost var at := |Above(queues, p)| + i;
        var e := Unlink(p, i);
        assert TakenAt(old(List()), List(), at, e.item);
        return Some(e.item);
    }

    method Size() returns (size: nat, fast: nat)
      requires Valid()
      ensures size == fast == |List()|
    {
      assert |census.Keys| == |census|;
      size, fast := |census|, fastSize;
    }

    method Clear()
      modifies this
      ensures Valid() && List() == []
    {
      queues, census, bitmask, fastSize := [[], [], [], [], [], []], map[], 0, 0;
      EmptyLevels(queues);
    }
  }

  lemma KeyQueued<T>(list: seq<Entry<T>>, key: nat)
    ensures key in KeySet(list) <==> exists i :: 0 <= i < |list| && list[i].key == key
  {
    if i :| 0 <= i < |list| && list[i].key == key {
      assert list[i] in list;
    }
  }

  /** The items of level p follow those of the levels above it. */
  lemma LevelPassed<T>(queues: seq<seq<QueueEntry<T>>>, p: nat)
    requires p < |queues|
    ensures |Above(queues, p + 1)| == |Above(queues, p)| + |queues[p]| <= |From(queues, 0)|
    ensures forall i :: 0 <= i < |queues[p]| ==>
      From(queues, 0)[|Above(queues, p)| + i] == Entry(p, queues[p][i].key, queues[p][i].item)
    ensures forall k :: |Above(queues, p)| <= k < |Above(queues, p + 1)| ==>
      From(queues, 0)[k].item == queues[p][k - |Above(queues, p)|].item
  {
    hide From;
    LevelStretch(queues, p, queues[p]);
    var a, m, b := Above(queues, p), Tag(queues[p], p), From(queues, p + 1);
    assert From(queues, 0) == a + m + b;
    forall k | |a| <= k < |a| + |m| ensures (a + m + b)[k] == m[k - |a|] {
    }
  }

  lemma LevelIsEmpty<T>(queues: seq<seq<QueueEntry<T>>>, p: nat)
    requires p < |queues| && queues[p] == []
    ensures forall i: nat :: !LevelHead(From(queues, 0), i, p)
  {
    hide From, Above;
    LevelStretch(queues, p, []);
    LevelsOfAbove(queues, p);
    LevelsOfFrom(queues, p + 1);
  }

  lemma NoSuchLevel<T>(queues: seq<seq<QueueEntry<T>>>, p: int)
    requires p < 0 || p >= |queues|
    ensures forall i: nat :: !LevelHead(From(queues, 0), i, p)
  {
    hide From;
    LevelsOfFrom(queues, 0);
  }

  lemma HeadOfLevel<T>(queues: seq<seq<QueueEntry<T>>>, p: nat)
    requires p < |queues| && queues[p] != []
    ensures LevelHead(From(queues, 0), |Above(queues, p)|, p)
    ensures forall i: nat :: LevelHead(From(queues, 0), i, p) ==> i == |Above(queues, p)|
    ensures From(queues, 0)[|Above(queues, p)|].item == queues[p][0].item
  {
    hide From, Above;
    LevelStretch(queues, p, queues[p]);
    LevelsOfAbove(queues, p);
    RemoveDrops(queues, p, 0);
  }

  /** From level p on, no entry has a better priority than p. */
  lemma LaterLevels<T>(queues: seq<seq<QueueEntry<T>>>, p: nat)
    requires p <= |queues|
    ensures forall i :: |Above(queues, p)| <= i < |From(queues, 0)| ==> From(queues, 0)[i].priority >= p
  {
    SplitAtLevel(queues, p);
    LevelsOfFrom(queues, p);
  }

  lemma AllAbove<T>(queues: seq<seq<QueueEntry<T>>>)
    ensures From(queues, 0) == Above(queues, |queues|)
  {
    SplitAtLevel(queues, |queues|);
  }

  lemma HasMeans(mask: bv16, p: nat)
    requires p < LEVELS
    ensures Has(mask, p) <==> mask & Bit(p) != 0
  {
  }

  lemma {:induction false} EmptyBetween<T>(queues: seq<seq<QueueEntry<T>>>, lo: nat, hi: nat)
    requires lo <= hi <= |queues| && forall q :: lo <= q < hi ==> queues[q] == []
    ensures Above(queues, hi) == Above(queues, lo)
  {
    if lo < hi { EmptyBetween(queues, lo, hi - 1); }
  }
}
