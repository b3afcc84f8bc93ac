/** The sharded DNS cache: each shard's index and use order stand for one list from the least to the most recently
    used entry. Lookups, insertions, evictions and removals are methods on the linked fields, each proved to do to
    the fields what a function on that list does to the list; the bounds on size and the pending total are then
    facts about the list. */
module DnsCache {
  import opened Words
  import opened DnsMessage

  const SHARDS: nat := 32
  const SECOND: int := 1_000_000_000

  datatype Status = Pending | Ready

  datatype Entry =
    Entry(question: Question, status: Status, createdAt: int, lastUsedAt: int, lastDispatchAt: int, response: bytes)

  /** An entry of the list. */
  datatype Slot = Slot(key: bytes, entry: Entry)

  /** A shard: the index and the keys in the order of use. */
  datatype Shard = Shard(items: map<bytes, Entry>, order: seq<bytes>)

  datatype Lookup = Hit(response: bytes) | Waiting | Dispatch

  /** BuildKey */
  function Key(q: Question): bytes {
    Bytes16(q.qtype) + Bytes16(q.qclass) + q.name
  }

  /** Different questions never share a key. */
  lemma KeyIsInjective(a: Question, b: Question)
    requires Key(a) == Key(b)
    ensures a == b
  {
    assert Key(a)[0] == a.qtype / 256 && Key(a)[1] == a.qtype % 256;
    assert Key(a)[2] == a.qclass / 256 && Key(a)[3] == a.qclass % 256;
    assert Key(b)[0] == b.qtype / 256 && Key(b)[1] == b.qtype % 256;
    assert Key(b)[2] == b.qclass / 256 && Key(b)[3] == b.qclass % 256;
    assert Key(a)[4..] == a.name && Key(b)[4..] == b.name;
  }

  // ----- patching -----

  function Part(flags: uint16, weight: nat): nat
    requires weight > 0
  {
    if Bit(flags, weight) then weight else 0
  }

  /** The response's flags with RD and CD taken from the query. */
  function PatchedFlags(response: uint16, query: uint16): nat {
    response - Part(response, 0x100) - Part(response, 0x10) + Part(query, 0x100) + Part(query, 0x10)
  }

  /** Below, between and above the two copied bits nothing changes. */
  lemma PatchedFlagsAre(response: uint16, query: uint16)
    ensures var f := PatchedFlags(response, query);
      && 0 <= f < M16
      && f / 512 == response / 512 && f / 32 % 8 == response / 32 % 8 && f % 16 == response % 16
      && (f / 0x100 % 2 == 1 <==> Bit(query, 0x100)) && (f / 0x10 % 2 == 1 <==> Bit(query, 0x10))
  {
    hide Part, Bit;
    Decomposed(response);
    PartIs(query);
    var a, b, c := response / 512, response / 32 % 8, response % 16;
    var rd, cd := Part(query, 0x100) / 256, Part(query, 0x10) / 16;
    FlagParts(a, rd, b, cd, c);
  }

  lemma PartIs(flags: uint16)
    ensures Part(flags, 0x100) == if Bit(flags, 0x100) then 256 else 0
    ensures Part(flags, 0x10) == if Bit(flags, 0x10) then 16 else 0
  {
  }

  lemma Decomposed(flags: uint16)
    ensures flags / 512 < 128
    ensures flags - Part(flags, 0x100) - Part(flags, 0x10)
         == flags / 512 * 512 + flags / 32 % 8 * 32 + flags % 16
  {
    var nibbles, words := flags / 16, flags / 32;
    Halved(flags);
    assert nibbles / 2 == words && words / 8 / 2 == flags / 512 && words / 8 == flags / 256;
  }

  lemma Halved(flags: nat)
    ensures flags / 16 / 2 == flags / 32
    ensures flags / 32 / 8 == flags / 256
    ensures flags / 256 / 2 == flags / 512
  {
  }

  lemma FlagParts(a: nat, rd: nat, b: nat, cd: nat, c: nat)
    requires a < 128 && rd <= 1 && b < 8 && cd <= 1 && c < 16
    ensures var f := a * 512 + rd * 256 + b * 32 + cd * 16 + c;
      && 0 <= f < M16 && f / 512 == a && f / 32 % 8 == b && f % 16 == c
      && f / 0x100 % 2 == rd && f / 0x10 % 2 == cd
  {
    var f := a * 512 + rd * 256 + b * 32 + cd * 16 + c;
    assert f / 16 == a * 32 + rd * 16 + b * 2 + cd;
    assert f / 32 == a * 16 + rd * 8 + b;
    assert f / 256 == a * 2 + rd;
    assert f / 512 == a;
  }

  /** PatchResponseForQuery */
  function Patched(response: bytes, query: bytes): (r: bytes)
    ensures |r| == |response|
    ensures |query| >= 2 && |response| >= 2 ==> r[..2] == query[..2]
    ensures forall i :: 4 <= i < |r| ==> r[i] == response[i]
  {
    if |response| < 2 || |query| < 2 then response
    else if |query| < 4 || |response| < 4 then query[..2] + response[2..]
    else
      PatchedFlagsAre(Word(response, 2), Word(query, 2));
      query[..2] + Bytes16(PatchedFlags(Word(response, 2), Word(query, 2))) + response[4..]
  }

  /** What patching makes of the flags of a whole header: the query's RD and CD, and the response's other bits. */
  lemma PatchedOctets(response: bytes, query: bytes)
    requires |response| >= 4 && |query| >= 4
    ensures var f, was, asked := Word(Patched(response, query), 2), Word(response, 2), Word(query, 2);
      && f / 512 == was / 512 && f / 32 % 8 == was / 32 % 8 && f % 16 == was % 16
      && (Bit(f, 0x100) <==> Bit(asked, 0x100)) && (Bit(f, 0x10) <==> Bit(asked, 0x10))
    ensures Patched(response, query)[..2] == query[..2] && Patched(response, query)[4..] == response[4..]
  {
    hide PatchedFlags;
    var flags := PatchedFlags(Word(response, 2), Word(query, 2));
    PatchedFlagsAre(Word(response, 2), Word(query, 2));
    WordIsRead(query[..2], flags, response[4..]);
  }

  /** Patching twice is patching for the second query. */
  lemma PatchedAgain(response: bytes, first: bytes, second: bytes)
    requires |response| >= 4 && |first| >= 4 && |second| >= 4
    ensures Patched(Patched(response, first), second) == Patched(response, second)
  {
    hide PatchedFlags;
    var f := PatchedFlags(Word(response, 2), Word(first, 2));
    PatchedFlagsAre(Word(response, 2), Word(first, 2));
    WordIsRead(first[..2], f, response[4..]);
    assert Word(Patched(response, first), 2) == f;
    SameFlags(Word(response, 2), Word(first, 2), Word(second, 2));
    assert Patched(response, first)[4..] == response[4..];
  }

  lemma SameFlags(response: uint16, first: uint16, second: uint16)
    ensures 0 <= PatchedFlags(response, first) < M16
    ensures PatchedFlags(PatchedFlags(response, first), second) == PatchedFlags(response, second)
  {
    PatchedFlagsAre(response, first);
    PatchedFlagsAre(response, second);
    var f := PatchedFlags(response, first);
    assert f - Part(f, 0x100) - Part(f, 0x10) == response - Part(response, 0x100) - Part(response, 0x10);
  }

  // ----- the list -----

  predicate Expired(e: Entry, now: int, ttl: int) {
    e.status == Ready && now - e.lastUsedAt >= ttl
  }

  function Get(l: seq<Slot>, key: bytes): Option<Entry> {
    if l == [] then None
    else if l[|l| - 1].key == key then Some(l[|l| - 1].entry)
    else Get(l[..|l| - 1], key)
  }

  function RemoveKey(l: seq<Slot>, key: bytes): seq<Slot> {
    if l == [] then []
    else if l[|l| - 1].key == key then l[..|l| - 1]
    else RemoveKey(l[..|l| - 1], key) + [l[|l| - 1]]
  }

  /** Used last. */
  function Back(l: seq<Slot>, key: bytes, e: Entry): seq<Slot> {
    RemoveKey(l, key) + [Slot(key, e)]
  }

  /** The most recently used entries, as many as allowed. */
  function Trim(l: seq<Slot>, limit: nat): (r: seq<Slot>)
    ensures |r| <= limit && (|l| <= limit ==> r == l) && |r| == if |l| <= limit then |l| else limit
  {
    if |l| <= limit then l else l[|l| - limit..]
  }

  function FreshEntry(q: Question, now: int): Entry {
    Entry(q, Pending, now, now, now, [])
  }

  /** LookupOrCreatePending on the list. */
  function AfterLookup(l: seq<Slot>, key: bytes, q: Question, now: int, ttl: int, timeout: int, limit: nat): seq<Slot> {
    match Get(l, key)
    case Some(e) =>
      if Expired(e, now, ttl) then Trim(Back(l, key, FreshEntry(q, now)), limit)
      else if e.status == Pending && now - e.lastDispatchAt >= timeout then
        Back(l, key, e.(lastUsedAt := now, lastDispatchAt := now))
      else Back(l, key, e.(lastUsedAt := now))
    case None => Trim(Back(l, key, FreshEntry(q, now)), limit)
  }

  function LookupAnswer(l: seq<Slot>, key: bytes, now: int, ttl: int, timeout: int): Lookup {
    match Get(l, key)
    case Some(e) =>
      if Expired(e, now, ttl) then Dispatch
      else if e.status == Ready then Hit(e.response)
      else if now - e.lastDispatchAt >= timeout then Dispatch
      else Waiting
    case None => Dispatch
  }

  /** GetReady on the list. */
  function AfterGet(l: seq<Slot>, key: bytes, now: int, ttl: int): seq<Slot> {
    match Get(l, key)
    case Some(e) => if Expired(e, now, ttl) then RemoveKey(l, key) else Back(l, key, e.(lastUsedAt := now))
    case None => l
  }

  function GetAnswer(l: seq<Slot>, key: bytes, query: bytes, now: int, ttl: int): Option<bytes> {
    match Get(l, key)
    case Some(e) =>
      if !Expired(e, now, ttl) && e.status == Ready && e.response != [] then Some(Patched(e.response, query)) else None
    case None => None
  }

  function Zeroed(response: bytes): bytes {
    if |response| < 2 then response else [0, 0] + response[2..]
  }

  /** SetReady on the list. */
  function AfterSet(l: seq<Slot>, key: bytes, q: Question, response: bytes, now: int, limit: nat): seq<Slot> {
    match Get(l, key)
    case Some(e) => Back(l, key, e.(question := q, status := Ready, lastUsedAt := now, response := Zeroed(response)))
    case None => Trim(Back(l, key, Entry(q, Ready, now, now, 0, Zeroed(response))), limit)
  }

  function ReadyOnly(l: seq<Slot>): seq<Slot> {
    if l == [] then []
    else ReadyOnly(l[..|l| - 1]) + if l[|l| - 1].entry.status == Ready then [l[|l| - 1]] else []
  }

  function CountPending(l: seq<Slot>): nat {
    if l == [] then 0 else CountPending(l[..|l| - 1]) + if l[|l| - 1].entry.status == Pending then 1 else 0
  }

  /** What was just used survives any trimming that leaves room for one. */
  lemma LastSurvives(l: seq<Slot>, key: bytes, e: Entry, limit: nat)
    requires limit >= 1
    ensures Get(Trim(Back(l, key, e), limit), key) == Some(e)
  {
    var all := Back(l, key, e);
    var r := Trim(all, limit);
    assert r[|r| - 1] == all[|all| - 1];
  }

  /** Trimming drops from the least recently used end only. */
  lemma TrimDropsOldest(l: seq<Slot>, limit: nat, i: nat, j: nat)
    requires i <= j < |l| && |l| - i <= limit
    ensures var r := Trim(l, limit); j >= |l| - |r| && r[j - (|l| - |r|)] == l[j]
  {
  }

  // ----- a shard stands for a list -----

  predicate NoRepeat(order: seq<bytes>) {
    forall i, j :: 0 <= i < j < |order| ==> order[i] != order[j]
  }

  /** The index and the order hold the same keys, each once. */
  predicate Bijection(s: Shard) {
    NoRepeat(s.order) && (forall k :: k in s.order ==> k in s.items) && (forall k :: k in s.items ==> k in s.order)
  }

  const NO_ENTRY := Entry(Question([], 0, 0), Ready, 0, 0, 0, [])

  function List(s: Shard): (l: seq<Slot>)
    ensures |l| == |s.order|
    ensures forall i :: 0 <= i < |l| ==> l[i].key == s.order[i]
  {
    seq(|s.order|, i requires 0 <= i < |s.order| =>
      Slot(s.order[i], if s.order[i] in s.items then s.items[s.order[i]] else NO_ENTRY))
  }

  /** list.Remove */
  function Without(order: seq<bytes>, key: bytes): seq<bytes> {
    if order == [] then []
    else if order[|order| - 1] == key then order[..|order| - 1]
    else Without(order[..|order| - 1], key) + [order[|order| - 1]]
  }

  lemma {:induction false} WithoutIs(order: seq<bytes>, key: bytes)
    requires NoRepeat(order)
    ensures NoRepeat(Without(order, key))
    ensures forall k :: k in Without(order, key) <==> k in order && k != key
  {
    if order != [] {
      var n := |order| - 1;
      var init, last := order[..n], order[n];
      assert order == init + [last];
      WithoutIs(init, key);
      if last == key {
        assert forall i :: 0 <= i < n ==> init[i] == order[i];
        assert key !in init;
      } else {
        assert last !in init;
      }
    }
  }

  lemma {:induction false} ListWithout(s: Shard, items: map<bytes, Entry>, key: bytes)
    requires forall k :: k in s.order && k != key ==> k in items && k in s.items && items[k] == s.items[k]
    requires NoRepeat(s.order)
    ensures List(Shard(items, Without(s.order, key))) == RemoveKey(List(s), key)
    decreases |s.order|
  {
    var l := List(s);
    if s.order != [] {
      var n := |s.order| - 1;
      var init, last := s.order[..n], s.order[n];
      assert l[..n] == List(Shard(s.items, init));
      assert forall i :: 0 <= i < n ==> init[i] == s.order[i];
      if last == key {
        assert key !in init;
        assert List(Shard(items, init)) == l[..n] by {
          assert forall i :: 0 <= i < n ==> init[i] in s.order;
        }
      } else {
        ListWithout(Shard(s.items, init), items, key);
        assert last in s.order;
        ListAppend(items, Without(init, key), last);
      }
    }
  }

  lemma ListAppend(items: map<bytes, Entry>, order: seq<bytes>, key: bytes)
    requires key in items
    ensures List(Shard(items, order + [key])) == List(Shard(items, order)) + [Slot(key, items[key])]
  {
  }

  /** Writing an entry and moving it to the back. */
  lemma ShardBack(s: Shard, key: bytes, e: Entry)
    requires Bijection(s)
    ensures var r := Shard(s.items[key := e], Without(s.order, key) + [key]);
      Bijection(r) && List(r) == Back(List(s), key, e)
  {
    hide List, RemoveKey, Without;
    ListWithout(s, s.items[key := e], key);
    ListAppend(s.items[key := e], Without(s.order, key), key);
    BackIsBijection(s, key, e);
  }

  lemma BackIsBijection(s: Shard, key: bytes, e: Entry)
    requires Bijection(s)
    ensures Bijection(Shard(s.items[key := e], Without(s.order, key) + [key]))
  {
    hide Without;
    WithoutIs(s.order, key);
    var order := Without(s.order, key);
    assert forall i :: 0 <= i < |order| ==> order[i] in order;
  }

  lemma ShardRemove(s: Shard, key: bytes)
    requires Bijection(s)
    ensures var r := Shard(s.items - {key}, Without(s.order, key));
      Bijection(r) && List(r) == RemoveKey(List(s), key)
  {
    WithoutIs(s.order, key);
    ListWithout(s, s.items - {key}, key);
  }

  lemma {:induction false} GetIs(s: Shard, key: bytes)
    requires Bijection(s)
    ensures Get(List(s), key) == if key in s.items then Some(s.items[key]) else None
  {
    GetOf(s, s.order, key);
    assert Shard(s.items, s.order) == s;
  }

  lemma {:induction false} GetOf(s: Shard, order: seq<bytes>, key: bytes)
    requires forall k :: k in order ==> k in s.items
    ensures Get(List(Shard(s.items, order)), key) == if key in order then Some(s.items[key]) else None
  {
    if order != [] {
      var n := |order| - 1;
      var init, last := order[..n], order[n];
      assert order == init + [last];
      assert List(Shard(s.items, order))[..n] == List(Shard(s.items, init));
      GetOf(s, init, key);
    }
  }

  function At(s: Shard, key: bytes): Option<Entry> {
    if key in s.items then Some(s.items[key]) else None
  }

  lemma BackFinds(l: seq<Slot>, key: bytes, e: Entry)
    ensures Get(Back(l, key, e), key) == Some(e)
  {
    hide RemoveKey;
    LastStep(RemoveKey(l, key), Slot(key, e), key);
  }

  lemma RemoveFinds(s: Shard, key: bytes)
    requires Bijection(s)
    ensures Get(RemoveKey(List(s), key), key).None?
  {
    hide List, RemoveKey, Get, Without, Bijection;
    ShardRemove(s, key);
    GetIs(Shard(s.items - {key}, Without(s.order, key)), key);
  }

  // What the store's methods do, in the fields of the entry before and after.

  /** A ready entry used less than the lifetime ago is a hit, one used longer ago is replaced, and a pending one waits
      until its dispatch is too long ago. */
  predicate LooksUp(before: Option<Entry>, after: Option<Entry>, q: Question, now: int, ttl: int, timeout: int,
      r: Lookup)
  {
    match before
    case None => r == Dispatch && after == Some(Entry(q, Pending, now, now, now, []))
    case Some(e) =>
      && (e.status == Ready && now - e.lastUsedAt < ttl ==>
           r == Hit(e.response) && after == Some(e.(lastUsedAt := now)))
      && (e.status == Ready && now - e.lastUsedAt >= ttl ==>
           r == Dispatch && after == Some(Entry(q, Pending, now, now, now, [])))
      && (e.status == Pending && now - e.lastDispatchAt < timeout ==>
           r == Waiting && after == Some(e.(lastUsedAt := now)))
      && (e.status == Pending && now - e.lastDispatchAt >= timeout ==>
           r == Dispatch && after == Some(e.(lastUsedAt := now, lastDispatchAt := now)))
  }

  /** Within its lifetime a ready response is served and refreshed, after it the entry is gone; what is pending is
      never served and never removed. */
  predicate Fetches(before: Option<Entry>, after: Option<Entry>, query: bytes, now: int, ttl: int, r: Option<bytes>) {
    match before
    case None => r.None? && after.None?
    case Some(e) =>
      && (e.status == Ready && now - e.lastUsedAt < ttl ==>
           && r == (if e.response == [] then None else Some(Patched(e.response, query)))
           && after == Some(e.(lastUsedAt := now)))
      && (e.status == Ready && now - e.lastUsedAt >= ttl ==> r.None? && after.None?)
      && (e.status == Pending ==> r.None? && after == Some(e.(lastUsedAt := now)))
  }

  /** Ready, used now, without the identity, and otherwise the octets that were given. */
  predicate Stores(before: Option<Entry>, after: Option<Entry>, q: Question, response: bytes, now: int) {
    match after
    case None => false
    case Some(e) =>
      && e.status == Ready && e.question == q && e.lastUsedAt == now
      && |e.response| == |response| && (forall k :: 2 <= k < |response| ==> e.response[k] == response[k])
      && (|response| >= 2 ==> e.response[0] == e.response[1] == 0)
      && e.createdAt == if before.Some? then before.value.createdAt else now
  }

  lemma LookupIs(s: Shard, s': Shard, key: bytes, q: Question, now: int, ttl: int, timeout: int, limit: nat)
    requires Bijection(s) && Bijection(s') && limit >= 1
    requires List(s') == AfterLookup(List(s), key, q, now, ttl, timeout, limit)
    ensures LooksUp(At(s, key), At(s', key), q, now, ttl, timeout, LookupAnswer(List(s), key, now, ttl, timeout))
  {
    hide List, Get, Back, Trim, Bijection;
    GetIs(s, key);
    GetIs(s', key);
    LastSurvives(List(s), key, FreshEntry(q, now), limit);
    if At(s, key).Some? {
      var e := s.items[key];
      BackFinds(List(s), key, e.(lastUsedAt := now));
      BackFinds(List(s), key, e.(lastUsedAt := now, lastDispatchAt := now));
    }
  }

  lemma FetchIs(s: Shard, s': Shard, key: bytes, query: bytes, now: int, ttl: int)
    requires Bijection(s) && Bijection(s') && List(s') == AfterGet(List(s), key, now, ttl)
    ensures Fetches(At(s, key), At(s', key), query, now, ttl, GetAnswer(List(s), key, query, now, ttl))
  {
    hide List, Get, Back, RemoveKey, Bijection, Patched;
    GetIs(s, key);
    GetIs(s', key);
    RemoveFinds(s, key);
    if At(s, key).Some? { BackFinds(List(s), key, s.items[key].(lastUsedAt := now)); }
  }

  lemma StoreIs(s: Shard, s': Shard, key: bytes, q: Question, response: bytes, now: int, limit: nat)
    requires Bijection(s) && Bijection(s') && limit >= 1 && |response| >= 2
    requires List(s') == AfterSet(List(s), key, q, response, now, limit)
    ensures Stores(At(s, key), At(s', key), q, response, now)
  {
    hide List, Get, Back, Trim, Bijection;
    GetIs(s, key);
    GetIs(s', key);
    LastSurvives(List(s), key, Entry(q, Ready, now, now, 0, Zeroed(response)), limit);
    if At(s, key).Some? {
      BackFinds(List(s), key,
                s.items[key].(question := q, status := Ready, lastUsedAt := now, response := Zeroed(response)));
    }
  }

  function Dropped(s: Shard): Shard
    requires s.order != []
  {
    Shard(s.items - {s.order[0]}, s.order[1..])
  }

  lemma DropKeys(s: Shard)
    requires Bijection(s) && s.order != []
    ensures s.order[0] in s.items && s.order[0] !in s.order[1..]
    ensures forall k :: k in s.order[1..] <==> k in s.order && k != s.order[0]
  {
    var first, rest := s.order[0], s.order[1..];
    assert s.order == [first] + rest;
    assert forall i :: 0 <= i < |rest| ==> rest[i] == s.order[i + 1];
    assert first in s.order;
  }

  lemma ShardDropFirst(s: Shard)
    requires Bijection(s) && s.order != []
    ensures Bijection(Dropped(s)) && List(Dropped(s)) == List(s)[1..]
    ensures |Dropped(s).items| == |s.items| - 1
  {
    DropKeys(s);
    assert (s.items - {s.order[0]}).Keys == s.items.Keys - {s.order[0]};
  }

  lemma {:induction false} SizeIs(s: Shard)
    requires Bijection(s)
    ensures |s.items| == |s.order|
    decreases |s.order|
  {
    if s.order == [] {
      assert s.items.Keys == {};
    } else {
      ShardDropFirst(s);
      SizeIs(Dropped(s));
    }
  }

  // ----- counting what is pending -----

  lemma CountAppend(l: seq<Slot>, s: Slot)
    ensures CountPending(l + [s]) == CountPending(l) + if s.entry.status == Pending then 1 else 0
  {
    assert (l + [s])[..|l|] == l;
  }

  lemma LastStep(init: seq<Slot>, last: Slot, key: bytes)
    ensures Get(init + [last], key) == if last.key == key then Some(last.entry) else Get(init, key)
    ensures RemoveKey(init + [last], key) == if last.key == key then init else RemoveKey(init, key) + [last]
  {
    assert (init + [last])[..|init|] == init;
  }

  lemma {:induction false} CountRemove(l: seq<Slot>, key: bytes)
    ensures CountPending(RemoveKey(l, key))
         == CountPending(l) - (if Get(l, key).Some? && Get(l, key).value.status == Pending then 1 else 0)
    ensures Get(l, key).Some? && Get(l, key).value.status == Pending ==> CountPending(l) > 0
  {
    if l != [] {
      hide CountPending, RemoveKey, Get;
      var init, last := l[..|l| - 1], l[|l| - 1];
      assert l == init + [last];
      CountRemove(init, key);
      LastStep(init, last, key);
      CountAppend(init, last);
      if last.key != key { CountAppend(RemoveKey(init, key), last); }
    }
  }

  lemma CountBack(l: seq<Slot>, key: bytes, e: Entry)
    ensures CountPending(Back(l, key, e))
         == CountPending(RemoveKey(l, key)) + if e.status == Pending then 1 else 0
  {
    var r := RemoveKey(l, key);
    assert Back(l, key, e)[..|r|] == r;
  }

  function Total(shards: seq<Shard>): nat {
    if shards == [] then 0 else Total(shards[..|shards| - 1]) + CountPending(List(shards[|shards| - 1]))
  }

  lemma {:induction false} TotalUpdate(shards: seq<Shard>, i: nat, s: Shard)
    requires i < |shards|
    ensures Total(shards[i := s]) == Total(shards) - CountPending(List(shards[i])) + CountPending(List(s))
    ensures CountPending(List(shards[i])) <= Total(shards)
  {
    hide List, CountPending;
    var n := |shards| - 1;
    if i == n {
      assert shards[i := s][..n] == shards[..n];
    } else {
      assert shards[i := s][..n] == shards[..n][i := s];
      TotalUpdate(shards[..n], i, s);
    }
  }

  // ----- the store -----

  function Limit(maxRecords: nat): (n: nat)
    ensures n >= 1
  {
    if maxRecords / SHARDS < 1 then 1 else maxRecords / SHARDS
  }

  /** All shards together hold no more than the configured number of records, or one each. */
  lemma LimitIs(maxRecords: nat)
    ensures Limit(maxRecords) * SHARDS <= Max(maxRecords, SHARDS)
    ensures maxRecords >= SHARDS ==> maxRecords < (Limit(maxRecords) + 1) * SHARDS
  {
  }

  /** Every ready entry holds what was last stored under its key, without the query's identity. */
  predicate Honest(items: map<bytes, Entry>, stored: map<bytes, bytes>) {
    forall k :: k in items && items[k].status == Ready ==> k in stored && items[k].response == Zeroed(stored[k])
  }

  predicate AtHome(items: map<bytes, Entry>, hash: bytes -> nat, i: nat) {
    forall k :: k in items ==> hash(k) % SHARDS == i
  }

  predicate Sound(s: Shard, hash: bytes -> nat, i: nat, stored: map<bytes, bytes>) {
    Bijection(s) && AtHome(s.items, hash, i) && Honest(s.items, stored)
  }

  predicate AllSound(shards: seq<Shard>, hash: bytes -> nat, stored: map<bytes, bytes>) {
    |shards| == SHARDS && forall i :: 0 <= i < SHARDS ==> Sound(shards[i], hash, i, stored)
  }

  predicate AllSmall(shards: seq<Shard>, limit: nat) {
    forall i :: 0 <= i < |shards| ==> |shards[i].order| <= limit
  }

  /** A shard after an entry was written and moved to the back. */
  function Backed(s: Shard, key: bytes, e: Entry): Shard {
    Shard(s.items[key := e], Without(s.order, key) + [key])
  }

  function Removed(s: Shard, key: bytes): Shard {
    Shard(s.items - {key}, Without(s.order, key))
  }

  function PendingUnder(s: Shard, key: bytes): nat {
    if key in s.items && s.items[key].status == Pending then 1 else 0
  }

  lemma BackedIs(shards: seq<Shard>, i: nat, hash: bytes -> nat, stored: map<bytes, bytes>, key: bytes, e: Entry)
    requires AllSound(shards, hash, stored) && i < SHARDS && hash(key) % SHARDS == i
    requires e.status == Ready ==> key in stored && e.response == Zeroed(stored[key])
    ensures var next := shards[i := Backed(shards[i], key, e)];
      && AllSound(next, hash, stored)
      && List(next[i]) == Back(List(shards[i]), key, e)
      && Total(next) == Total(shards) - PendingUnder(shards[i], key) + (if e.status == Pending then 1 else 0)
      && PendingUnder(shards[i], key) <= Total(shards)
  {
    hide List, Back, Total, RemoveKey, CountPending, Get, Without;
    var s := shards[i];
    ShardBack(s, key, e);
    GetIs(s, key);
    CountRemove(List(s), key);
    CountBack(List(s), key, e);
    TotalUpdate(shards, i, Backed(s, key, e));
  }

  lemma RemovedIs(shards: seq<Shard>, i: nat, hash: bytes -> nat, stored: map<bytes, bytes>, key: bytes)
    requires AllSound(shards, hash, stored) && i < SHARDS
    ensures var next := shards[i := Removed(shards[i], key)];
      && AllSound(next, hash, stored)
      && List(next[i]) == RemoveKey(List(shards[i]), key)
      && Total(next) == Total(shards) - PendingUnder(shards[i], key)
      && PendingUnder(shards[i], key) <= Total(shards)
  {
    hide List, Total, RemoveKey, CountPending, Get, Without;
    var s := shards[i];
    ShardRemove(s, key);
    GetIs(s, key);
    CountRemove(List(s), key);
    TotalUpdate(shards, i, Removed(s, key));
  }

  lemma {:induction false} FirstWithout(order: seq<bytes>)
    requires NoRepeat(order) && order != []
    ensures Without(order, order[0]) == order[1..]
  {
    var n := |order| - 1;
    if n > 0 {
      FirstWithout(order[..n]);
      assert order[1..] == order[..n][1..] + [order[n]];
    } else {
      assert order[1..] == order[..0];
    }
  }

  lemma BijectionIs(s: Shard)
    requires Bijection(s)
    ensures NoRepeat(s.order)
  {
  }

  lemma FrontRemoved(s: Shard)
    requires Bijection(s) && s.order != []
    ensures Removed(s, s.order[0]).order == s.order[1..] && List(Removed(s, s.order[0])) == List(s)[1..]
    ensures s.order[0] in s.items
  {
    hide List, Without, Bijection;
    DropKeys(s);
    BijectionIs(s);
    FirstWithout(s.order);
    ShardDropFirst(s);
  }

  lemma TrimStep(l: seq<Slot>, limit: nat)
    requires |l| > limit
    ensures Trim(l[1..], limit) == Trim(l, limit)
  {
  }

  lemma InsertedIs(shards: seq<Shard>, i: nat, hash: bytes -> nat, stored: map<bytes, bytes>, key: bytes, e: Entry)
    requires AllSound(shards, hash, stored) && i < SHARDS && hash(key) % SHARDS == i && key !in shards[i].items
    requires e.status == Ready ==> key in stored && e.response == Zeroed(stored[key])
    ensures var next := shards[i := Shard(shards[i].items[key := e], shards[i].order + [key])];
      && |next| == SHARDS && AllSound(next, hash, stored)
      && List(next[i]) == Back(List(shards[i]), key, e)
      && Total(next) == Total(shards) + (if e.status == Pending then 1 else 0)
  {
    hide Bijection, AtHome, Honest, List, Back, Total, Backed;
    BackedIs(shards, i, hash, stored, key, e);
    NewIsBacked(shards[i], key, e);
  }

  class Store {
    const maxRecords: nat
    const cacheTTL: int
    const pendingTimeout: int
    const hash: bytes -> nat
    var shards: seq<Shard>
    var pendingTotal: nat
    var dirty: nat
    /** What was last stored under each key. */
    ghost var stored: map<bytes, bytes>

    ghost predicate Core()
      reads this
    {
      AllSound(shards, hash, stored) && pendingTotal == Total(shards)
    }

    ghost predicate Valid()
      reads this
    {
      Core() && AllSmall(shards, Limit(maxRecords))
    }

    constructor (maxRecords: int, cacheTTL: int, pendingTimeout: int, hash: bytes -> nat)
      ensures Valid() && forall i :: 0 <= i < SHARDS ==> List(shards[i]) == []
      ensures this.maxRecords == Max(maxRecords, 1) && this.hash == hash && pendingTotal == 0
      ensures this.cacheTTL == if cacheTTL > 0 then cacheTTL else 3600 * SECOND
      ensures this.pendingTimeout == if pendingTimeout > 0 then pendingTimeout else 30 * SECOND
    {
      this.maxRecords := if maxRecords < 1 then 1 else maxRecords;
      this.cacheTTL := if cacheTTL <= 0 then 3600 * SECOND else cacheTTL;
      this.pendingTimeout := if pendingTimeout <= 0 then 30 * SECOND else pendingTimeout;
      this.hash := hash;
      shards := seq(SHARDS, _ => Shard(map[], []));
      pendingTotal, dirty, stored := 0, 0, map[];
      new;
      EmptyTotal(SHARDS);
    }

    /** The entry is written and its element moved to the back of the order. */
    method Use(i: nat, key: bytes, e: Entry)
      requires Core() && i < SHARDS && hash(key) % SHARDS == i && key in shards[i].items
      requires e.status == shards[i].items[key].status && e.response == shards[i].items[key].response
      modifies `shards
      ensures Core() && shards == old(shards)[i := Backed(old(shards)[i], key, e)]
      ensures List(shards[i]) == Back(old(List(shards[i])), key, e)
    {
      hide Bijection, AtHome, List, Back, Total;
      BackedIs(shards, i, hash, stored, key, e);
      shards := shards[i := Backed(shards[i], key, e)];
    }

    /** removeElementLocked */
    method RemoveElement(i: nat, key: bytes)
      requires Core() && i < SHARDS && key in shards[i].items
      modifies `shards, `pendingTotal, `dirty
      ensures Core() && shards == old(shards)[i := Removed(old(shards)[i], key)]
      ensures List(shards[i]) == RemoveKey(old(List(shards[i])), key)
    {
      hide Bijection, AtHome, Honest, List, RemoveKey, Total, AllSound;
      ShardCount();
      RemovedIs(shards, i, hash, stored, key);
      if shards[i].items[key].status == Pending {
        if pendingTotal > 0 {
          pendingTotal := pendingTotal - 1;
        }
      }
      shards := shards[i := Removed(shards[i], key)];
      dirty := dirty + 1;
    }

    lemma ShardCount()
      requires Core()
      ensures |shards| == SHARDS
    {
    }

    lemma ShardIsBijection(i: nat)
      requires Core() && i < SHARDS
      ensures |shards| == SHARDS && Bijection(shards[i])
    {
    }

    /** evictIfNeededLocked: the least recently used go first. */
    method EvictIfNeeded(i: nat)
      requires Core() && i < SHARDS
      modifies `shards, `pendingTotal, `dirty
      ensures Core() && List(shards[i]) == Trim(old(List(shards[i])), Limit(maxRecords))
      ensures |shards| == |old(shards)| && forall j :: 0 <= j < |shards| && j != i ==> shards[j] == old(shards)[j]
    {
      hide List, Trim, Bijection, Removed, Limit, AllSound, Total;
      var limit := Limit(maxRecords);
      ShardIsBijection(i);
      ghost var l := List(shards[i]);
      SizeIs(shards[i]);
      while |shards[i].items| > limit
        invariant Core() && |shards| == SHARDS && Bijection(shards[i])
        invariant Trim(List(shards[i]), limit) == Trim(l, limit)
        invariant |shards[i].items| == |shards[i].order|
        invariant forall j :: 0 <= j < |shards| && j != i ==> shards[j] == old(shards)[j]
        decreases |shards[i].order|
      {
        var front := shards[i].order[0];
        FrontRemoved(shards[i]);
        ListSize(shards[i]);
        TrimStep(List(shards[i]), limit);
        RemoveElement(i, front);
        ShardIsBijection(i);
        SizeIs(shards[i]);
      }
      ListSize(shards[i]);
    }

    /** A new element at the back, and the index entry for it. */
    method Insert(i: nat, key: bytes, e: Entry)
      requires Core() && i < SHARDS && hash(key) % SHARDS == i && key !in shards[i].items
      requires e.status == Ready ==> key in stored && e.response == Zeroed(stored[key])
      modifies `shards, `pendingTotal, `dirty
      ensures Core() && List(shards[i]) == Back(old(List(shards[i])), key, e)
      ensures shards == old(shards)[i := Shard(old(shards)[i].items[key := e], old(shards)[i].order + [key])]
    {
      hide Bijection, AtHome, Honest, List, Back, Total, AllSound, Zeroed;
      ShardIsBijection(i);
      InsertedIs(shards, i, hash, stored, key, e);
      shards := shards[i := Shard(shards[i].items[key := e], shards[i].order + [key])];
      if e.status == Pending {
        pendingTotal := pendingTotal + 1;
      }
      dirty := dirty + 1;
    }

    /** touchEntryLocked */
    method Touch(e: Entry, now: int) returns (r: Entry)
      modifies `dirty
      ensures r == e.(lastUsedAt := now)
    {
      if e.lastUsedAt == 0 || now - e.lastUsedAt >= SECOND {
        dirty := dirty + 1;
      }
      r := e.(lastUsedAt := now);
    }

    ghost predicate Others(before: seq<Shard>, i: nat)
      reads this
    {
      |shards| == |before| && forall j :: 0 <= j < |shards| && j != i ==> shards[j] == before[j]
    }

    /** The branch of LookupOrCreatePending for an entry that is still good. */
    method Reuse(i: nat, key: bytes, now: int) returns (r: Lookup)
      requires Valid() && i < SHARDS && hash(key) % SHARDS == i && key in shards[i].items
      modifies `shards, `dirty
      ensures Valid() && Others(old(shards), i)
      ensures var e := old(shards)[i].items[key];
        if e.status == Ready then
          List(shards[i]) == Back(old(List(shards[i])), key, e.(lastUsedAt := now)) && r == Hit(e.response)
        else if now - e.lastDispatchAt >= pendingTimeout then
          List(shards[i]) == Back(old(List(shards[i])), key, e.(lastUsedAt := now, lastDispatchAt := now)) && r == Dispatch
        else List(shards[i]) == Back(old(List(shards[i])), key, e.(lastUsedAt := now)) && r == Waiting
    {
      hide Bijection, AtHome, List, Back, Total, AllSmall, AllSound;
      ShardIsBijection(i);
      ghost var before := shards;
      var e := shards[i].items[key];
      e := Touch(e, now);
      if e.status == Ready {
        Use(i, key, e);
        UseIsSmall(before, shards, i, key, e, Limit(maxRecords));
        return Hit(Patched(e.response, []));
      }
      if now - e.lastDispatchAt >= pendingTimeout {
        e := e.(lastDispatchAt := now);
        dirty := dirty + 1;
        Use(i, key, e);
        UseIsSmall(before, shards, i, key, e, Limit(maxRecords));
        return Dispatch;
      }
      Use(i, key, e);
      UseIsSmall(before, shards, i, key, e, Limit(maxRecords));
      r := Waiting;
    }

    /** A new element, and the eviction behind it. */
    method Create(i: nat, key: bytes, e: Entry)
      requires Valid() && i < SHARDS && hash(key) % SHARDS == i && key !in shards[i].items
      requires e.status == Ready ==> key in stored && e.response == Zeroed(stored[key])
      modifies `shards, `pendingTotal, `dirty
      ensures Valid() && Others(old(shards), i)
      ensures List(shards[i]) == Trim(Back(old(List(shards[i])), key, e), Limit(maxRecords))
    {
      hide Bijection, AtHome, Honest, List, Back, Total, AllSmall, AllSound;
      ShardCount();
      ghost var before := shards;
      Insert(i, key, e);
      EvictIfNeeded(i);
      TrimIsSmall(before, shards, i, Limit(maxRecords));
    }

    /** LookupOrCreatePending refines the list: a hit, a wait, or a dispatch with the entry made or renewed. */
    method LookupOrCreatePending(key: bytes, q: Question, now: int) returns (r: Option<Lookup>)
      requires Valid()
      modifies `shards, `pendingTotal, `dirty
      ensures Valid() && (r.None? <==> key == [])
      ensures key == [] ==> shards == old(shards)
      ensures key != [] ==>
        var i := hash(key) % SHARDS;
        var l := old(List(shards[i]));
        && Others(old(shards), i)
        && List(shards[i]) == AfterLookup(l, key, q, now, cacheTTL, pendingTimeout, Limit(maxRecords))
        && r == Some(LookupAnswer(l, key, now, cacheTTL, pendingTimeout))
        && LooksUp(At(old(shards)[i], key), At(shards[i], key), q, now, cacheTTL, pendingTimeout, r.value)
      ensures r.Some? && r.value.Hit? ==> key in stored && r.value.response == Zeroed(stored[key])
    {
      if key == [] {
        return None;
      }
      hide Bijection, AtHome, List, Back, Total, Trim, AllSmall, Get, RemoveKey, AllSound, Honest, FreshEntry, Others,
        Zeroed, Limit, At, LooksUp;
      var i := hash(key) % SHARDS;
      ShardIsBijection(i);
      GetIs(shards[i], key);
      ghost var before := shards[i];
      if key in shards[i].items {
        if !Expired(shards[i].items[key], now, cacheTTL) {
          if shards[i].items[key].status == Ready {
            ReadyIsHonest(i, key);
          }
          var found := Reuse(i, key, now);
          ShardIsBijection(i);
          LookupIs(before, shards[i], key, q, now, cacheTTL, pendingTimeout, Limit(maxRecords));
          return Some(found);
        }
        FreshIsPending(q, now);
        Renew(i, key, FreshEntry(q, now));
        ShardIsBijection(i);
        LookupIs(before, shards[i], key, q, now, cacheTTL, pendingTimeout, Limit(maxRecords));
        return Some(Dispatch);
      }
      FreshIsPending(q, now);
      Create(i, key, FreshEntry(q, now));
      ShardIsBijection(i);
      LookupIs(before, shards[i], key, q, now, cacheTTL, pendingTimeout, Limit(maxRecords));
      r := Some(Dispatch);
    }

    /** An expired entry goes, and a new one comes in at the back. */
    method Renew(i: nat, key: bytes, e: Entry)
      requires Valid() && i < SHARDS && hash(key) % SHARDS == i && key in shards[i].items && e.status == Pending
      modifies `shards, `pendingTotal, `dirty
      ensures Valid() && Others(old(shards), i)
      ensures List(shards[i]) == Trim(Back(old(List(shards[i])), key, e), Limit(maxRecords))
    {
      hide Bijection, AtHome, List, Back, Total, Trim, AllSmall, RemoveKey, AllSound, Honest;
      ShardIsBijection(i);
      ghost var before := shards;
      RemoveElement(i, key);
      RemoveIsSmall(before, shards, i, key, Limit(maxRecords));
      BackAgain(before[i], key, e);
      Create(i, key, e);
    }

    lemma FreshIsPending(q: Question, now: int)
      ensures FreshEntry(q, now).status == Pending
    {
    }

    lemma ReadyIsHonest(i: nat, key: bytes)
      requires Core() && i < SHARDS && key in shards[i].items && shards[i].items[key].status == Ready
      ensures key in stored && shards[i].items[key].response == Zeroed(stored[key])
    {
    }

    /** An entry goes, and every shard stays as small. */
    method Drop(i: nat, key: bytes)
      requires Valid() && i < SHARDS && key in shards[i].items
      modifies `shards, `pendingTotal, `dirty
      ensures Valid() && Others(old(shards), i)
      ensures List(shards[i]) == RemoveKey(old(List(shards[i])), key)
    {
      hide Bijection, AtHome, List, Total, AllSmall, RemoveKey, AllSound, Honest;
      ShardIsBijection(i);
      ghost var before := shards;
      RemoveElement(i, key);
      RemoveIsSmall(before, shards, i, key, Limit(maxRecords));
    }

    /** An entry is written and moved to the back, and every shard stays as small. */
    method Refresh(i: nat, key: bytes, e: Entry)
      requires Valid() && i < SHARDS && hash(key) % SHARDS == i && key in shards[i].items
      requires e.status == shards[i].items[key].status && e.response == shards[i].items[key].response
      modifies `shards
      ensures Valid() && Others(old(shards), i)
      ensures List(shards[i]) == Back(old(List(shards[i])), key, e)
    {
      hide Bijection, AtHome, List, Back, Total, AllSmall, AllSound, Honest;
      ShardIsBijection(i);
      ghost var before := shards;
      Use(i, key, e);
      UseIsSmall(before, shards, i, key, e, Limit(maxRecords));
    }

    /** GetReady: a hit is what was last stored under the key, patched for the query, and nothing else. */
    method GetReady(key: bytes, rawQuery: bytes, now: int) returns (r: Option<bytes>)
      requires Valid()
      modifies `shards, `pendingTotal, `dirty
      ensures Valid()
      ensures key == [] ==> r.None? && shards == old(shards)
      ensures key != [] ==>
        var i := hash(key) % SHARDS;
        var l := old(List(shards[i]));
        && Others(old(shards), i)
        && List(shards[i]) == AfterGet(l, key, now, cacheTTL)
        && r == GetAnswer(l, key, rawQuery, now, cacheTTL)
        && Fetches(At(old(shards)[i], key), At(shards[i], key), rawQuery, now, cacheTTL, r)
      ensures r.Some? ==> key in stored && r.value == Patched(Zeroed(stored[key]), rawQuery)
    {
      if key == [] {
        return None;
      }
      hide Bijection, AtHome, List, Back, Total, Trim, AllSmall, Get, RemoveKey, AllSound, Honest, Patched, Zeroed, At,
        Fetches;
      var i := hash(key) % SHARDS;
      ShardIsBijection(i);
      GetIs(shards[i], key);
      ghost var before := shards[i];
      if key !in shards[i].items {
        FetchIs(before, shards[i], key, rawQuery, now, cacheTTL);
        return None;
      }
      var e := shards[i].items[key];
      if Expired(e, now, cacheTTL) {
        Drop(i, key);
        ShardIsBijection(i);
        FetchIs(before, shards[i], key, rawQuery, now, cacheTTL);
        return None;
      }
      if e.status == Ready {
        ReadyIsHonest(i, key);
      }
      e := Touch(e, now);
      Refresh(i, key, e);
      ShardIsBijection(i);
      FetchIs(before, shards[i], key, rawQuery, now, cacheTTL);
      if e.status != Ready || e.response == [] {
        return None;
      }
      r := Some(Patched(e.response, rawQuery));
    }

    /** SetReady: stored without the query's identity; a pending entry stops being counted. */
    method SetReady(key: bytes, q: Question, rawResponse: bytes, now: int)
      requires Valid()
      modifies `shards, `pendingTotal, `dirty, `stored
      ensures Valid()
      ensures key == [] || |rawResponse| < 2 ==> shards == old(shards) && stored == old(stored)
      ensures key != [] && |rawResponse| >= 2 ==>
        var i := hash(key) % SHARDS;
        && Others(old(shards), i) && stored == old(stored)[key := rawResponse]
        && List(shards[i]) == AfterSet(old(List(shards[i])), key, q, rawResponse, now, Limit(maxRecords))
        && Stores(At(old(shards)[i], key), At(shards[i], key), q, rawResponse, now)
    {
      if key == [] || |rawResponse| < 2 {
        return;
      }
      hide Bijection, AtHome, List, Back, Total, Trim, AllSmall, Get, RemoveKey, AllSound, Honest, At, Stores;
      var i := hash(key) % SHARDS;
      ShardIsBijection(i);
      GetIs(shards[i], key);
      ghost var before := shards[i];
      var normalized := [0, 0] + rawResponse[2..];
      if key in shards[i].items {
        var e := shards[i].items[key].(question := q, status := Ready, lastUsedAt := now, response := normalized);
        Overwrite(i, key, e, rawResponse);
        ShardIsBijection(i);
        StoreIs(before, shards[i], key, q, rawResponse, now, Limit(maxRecords));
        return;
      }
      stored := stored[key := rawResponse];
      Create(i, key, Entry(q, Ready, now, now, 0, normalized));
      ShardIsBijection(i);
      StoreIs(before, shards[i], key, q, rawResponse, now, Limit(maxRecords));
    }

    /** The branch of SetReady for a key that is already there. */
    method Overwrite(i: nat, key: bytes, e: Entry, rawResponse: bytes)
      requires Valid() && i < SHARDS && hash(key) % SHARDS == i && key in shards[i].items
      requires e.status == Ready && e.response == Zeroed(rawResponse)
      modifies `shards, `pendingTotal, `dirty, `stored
      ensures Valid() && Others(old(shards), i) && stored == old(stored)[key := rawResponse]
      ensures List(shards[i]) == Back(old(List(shards[i])), key, e)
    {
      hide Bijection, AtHome, List, Back, Total, AllSmall, AllSound, Honest;
      ShardIsBijection(i);
      ghost var before := shards;
      StoreBacked(shards, i, hash, stored, key, e, rawResponse);
      if shards[i].items[key].status == Pending {
        if pendingTotal > 0 {
          pendingTotal := pendingTotal - 1;
        }
      }
      shards := shards[i := Backed(shards[i], key, e)];
      stored := stored[key := rawResponse];
      dirty := dirty + 1;
      UseIsSmall(before, shards, i, key, e, Limit(maxRecords));
    }

    /** The body of ClearPending's inner loop. */
    method ClearOne(i: nat, key: bytes, ghost l: seq<Slot>, ghost j: nat)
      requires Core() && i < SHARDS && j < |l| && l[j].key == key && |shards| == SHARDS
      requires List(shards[i]) == Scanned(l, j)
      modifies `shards, `pendingTotal, `dirty
      ensures Core() && Others(old(shards), i) && List(shards[i]) == Scanned(l, j + 1)
    {
      hide Bijection, List, RemoveKey, Total, AllSound, ReadyOnly, Scanned, Removed;
      ShardIsBijection(i);
      SlotOfList(shards[i], l, j);
      ScanStep(shards[i], l, j);
      if shards[i].items[key].status == Pending {
        RemoveElement(i, key);
      }
    }

    /** The inner loop of ClearPending, over the elements as they stood. */
    method ClearShard(i: nat)
      requires Core() && i < SHARDS
      modifies `shards, `pendingTotal, `dirty
      ensures Core() && Others(old(shards), i) && List(shards[i]) == ReadyOnly(old(List(shards[i])))
    {
      hide Bijection, List, RemoveKey, Total, AllSound, ReadyOnly, Scanned, Removed;
      ShardIsBijection(i);
      var keys := shards[i].order;
      ghost var l := List(shards[i]);
      ListSize(shards[i]);
      NoneScanned(l);
      for j := 0 to |keys|
        invariant Core() && |shards| == SHARDS && Others(old(shards), i) && |l| == |keys|
        invariant forall k :: 0 <= k < |l| ==> l[k].key == keys[k]
        invariant List(shards[i]) == Scanned(l, j)
      {
        ClearOne(i, keys[j], l, j);
      }
      AllScanned(l);
    }

    /** ClearPending: the ready entries stay as they are, and nothing is pending any more. */
    method ClearPending()
      requires Valid()
      modifies `shards, `pendingTotal, `dirty
      ensures Valid() && pendingTotal == 0
      ensures forall i :: 0 <= i < SHARDS ==> List(shards[i]) == ReadyOnly(old(List(shards[i])))
      ensures forall i, key :: 0 <= i < SHARDS ==> At(shards[i], key) == OnlyReady(At(old(shards)[i], key))
    {
      ShardCount();
      hide Bijection, List, Total, AllSound, ReadyOnly, Limit, ClearedTo, AllSmall;
      ghost var before := shards;
      for i := 0 to SHARDS
        invariant Core() && |shards| == SHARDS && AllSmall(shards, Limit(maxRecords))
        invariant ClearedTo(shards, before, i)
      {
        ghost var previous := shards;
        ClearShard(i);
        ClearedStep(previous, shards, before, i, Limit(maxRecords));
      }
      AllCleared(shards, before);
      forall i, key | 0 <= i < SHARDS ensures At(shards[i], key) == OnlyReady(At(before[i], key)) {
        ReadyOnlyIs(before[i], shards[i], key);
      }
    }

    /** HasPending */
    method HasPending() returns (r: bool)
      requires Core()
      ensures r <==> exists i, key :: 0 <= i < SHARDS && IsPending(At(shards[i], key))
    {
      hide At, Total;
      TotalIff(shards);
      r := pendingTotal > 0;
    }
  }

  function OnlyReady(e: Option<Entry>): Option<Entry> {
    if e.Some? && e.value.status == Ready then e else None
  }

  predicate IsPending(e: Option<Entry>) {
    e.Some? && e.value.status == Pending
  }

  predicate DistinctKeys(l: seq<Slot>) {
    forall i, j :: 0 <= i < j < |l| ==> l[i].key != l[j].key
  }

  lemma {:induction false} GetNone(l: seq<Slot>, key: bytes)
    requires forall i :: 0 <= i < |l| ==> l[i].key != key
    ensures Get(l, key).None?
  {
    if l != [] { GetNone(l[..|l| - 1], key); }
  }

  lemma {:induction false} GetReadyOnly(l: seq<Slot>, key: bytes)
    requires DistinctKeys(l)
    ensures Get(ReadyOnly(l), key) == OnlyReady(Get(l, key))
  {
    if l != [] {
      var init, last := l[..|l| - 1], l[|l| - 1];
      assert l == init + [last];
      GetReadyOnly(init, key);
      ReadyOnlyAppend(init, last);
      LastStep(init, last, key);
      LastStep(ReadyOnly(init), last, key);
      if last.key == key { GetNone(init, key); }
    }
  }

  lemma ReadyOnlyIs(s: Shard, s': Shard, key: bytes)
    requires Bijection(s) && Bijection(s') && List(s') == ReadyOnly(List(s))
    ensures At(s', key) == OnlyReady(At(s, key))
  {
    hide Get, ReadyOnly;
    GetIs(s, key);
    GetIs(s', key);
    GetReadyOnly(List(s), key);
  }

  lemma {:induction false} CountIff(l: seq<Slot>)
    ensures CountPending(l) > 0 <==> exists j :: 0 <= j < |l| && l[j].entry.status == Pending
  {
    if l != [] {
      var init, last := l[..|l| - 1], l[|l| - 1];
      assert l == init + [last];
      CountIff(init);
      CountAppend(init, last);
      assert forall j :: 0 <= j < |init| ==> init[j] == l[j];
    }
  }

  lemma ShardCountIff(s: Shard)
    requires Bijection(s)
    ensures CountPending(List(s)) > 0 <==> exists key :: IsPending(At(s, key))
  {
    var l := List(s);
    CountIff(l);
    if key :| IsPending(At(s, key)) {
      var j :| 0 <= j < |s.order| && s.order[j] == key;
      assert l[j].entry == s.items[key];
    }
    if j :| 0 <= j < |l| && l[j].entry.status == Pending {
      assert s.order[j] in s.order;
      assert IsPending(At(s, s.order[j]));
    }
  }

  lemma {:induction false} TotalIff(shards: seq<Shard>)
    requires forall i :: 0 <= i < |shards| ==> Bijection(shards[i])
    ensures Total(shards) > 0 <==> exists i, key :: 0 <= i < |shards| && IsPending(At(shards[i], key))
  {
    hide At, List, Bijection, CountPending, IsPending;
    if shards != [] {
      var n := |shards| - 1;
      TotalIff(shards[..n]);
      ShardCountIff(shards[n]);
      assert forall i :: 0 <= i < n ==> shards[..n][i] == shards[i];
    }
  }

  /** The first i shards hold their ready entries only, the others what they held before. */
  predicate ClearedTo(shards: seq<Shard>, before: seq<Shard>, i: nat) {
    && |shards| == |before| == SHARDS
    && (forall j :: 0 <= j < i && j < SHARDS ==> List(shards[j]) == ReadyOnly(List(before[j])))
    && (forall j :: i <= j < SHARDS ==> shards[j] == before[j])
  }

  lemma ClearedStep(previous: seq<Shard>, shards: seq<Shard>, before: seq<Shard>, i: nat, limit: nat)
    requires i < SHARDS && ClearedTo(previous, before, i) && AllSmall(previous, limit)
    requires |shards| == SHARDS && forall j :: 0 <= j < SHARDS && j != i ==> shards[j] == previous[j]
    requires List(shards[i]) == ReadyOnly(List(previous[i]))
    ensures ClearedTo(shards, before, i + 1) && AllSmall(shards, limit)
  {
    hide List, ReadyOnly, AllSmall;
    ReadyOnlyIsShorter(List(previous[i]));
    ListSize(previous[i]);
    SmallOne(previous, i, limit);
    TrimIsSmall(previous, shards, i, limit);
  }

  lemma SmallOne(shards: seq<Shard>, i: nat, limit: nat)
    requires AllSmall(shards, limit) && i < |shards|
    ensures |shards[i].order| <= limit
  {
  }

  lemma AllCleared(shards: seq<Shard>, before: seq<Shard>)
    requires ClearedTo(shards, before, SHARDS)
    ensures |shards| == |before| == SHARDS && Total(shards) == 0
    ensures forall j :: 0 <= j < SHARDS ==> List(shards[j]) == ReadyOnly(List(before[j]))
  {
    hide List, ReadyOnly, Total;
    NothingPending(shards, before);
  }

  /** The list once its first j entries were looked at. */
  function Scanned(l: seq<Slot>, j: nat): seq<Slot>
    requires j <= |l|
  {
    ReadyOnly(l[..j]) + l[j..]
  }

  lemma NoneScanned(l: seq<Slot>)
    ensures Scanned(l, 0) == l
  {
    assert l[..0] == [];
    assert [] + l == l;
  }

  lemma AllScanned(l: seq<Slot>)
    ensures Scanned(l, |l|) == ReadyOnly(l)
  {
    hide ReadyOnly;
    assert l[..|l|] == l && l[|l|..] == [];
    assert ReadyOnly(l) + [] == ReadyOnly(l);
  }

  /** The entry looked at next is the one its key leads to. */
  lemma SlotOfList(s: Shard, l: seq<Slot>, j: nat)
    requires Bijection(s) && j < |l| && List(s) == Scanned(l, j)
    ensures l[j].key in s.items && s.items[l[j].key] == l[j].entry
  {
    hide ReadyOnly;
    var k := |ReadyOnly(l[..j])|;
    assert List(s)[k] == l[j];
    assert s.order[k] in s.order;
  }

  lemma {:induction false} RemoveAt(l: seq<Slot>, k: nat)
    requires k < |l| && forall i :: k < i < |l| ==> l[i].key != l[k].key
    ensures RemoveKey(l, l[k].key) == l[..k] + l[k + 1..]
  {
    var n := |l| - 1;
    if k < n {
      RemoveAt(l[..n], k);
      assert l[..n][..k] == l[..k] && l[k + 1..] == l[..n][k + 1..] + [l[n]];
    } else {
      assert l[k + 1..] == [];
    }
  }

  lemma ScanStep(s: Shard, l: seq<Slot>, j: nat)
    requires Bijection(s) && j < |l| && List(s) == Scanned(l, j)
    ensures if l[j].entry.status == Pending then RemoveKey(List(s), l[j].key) == Scanned(l, j + 1)
            else List(s) == Scanned(l, j + 1)
  {
    hide RemoveKey, List;
    var done, rest := ReadyOnly(l[..j]), l[j + 1..];
    assert l[j..] == [l[j]] + rest;
    assert l[..j + 1][..j] == l[..j];
    if l[j].entry.status == Pending {
      var all := done + ([l[j]] + rest);
      assert all[|done|] == l[j];
      RemoveAt(all, |done|);
      assert all[..|done|] == done && all[|done| + 1..] == rest;
    } else {
      assert done + ([l[j]] + rest) == done + [l[j]] + rest;
    }
  }

  lemma {:induction false} ReadyOnlyIsShorter(l: seq<Slot>)
    ensures |ReadyOnly(l)| <= |l| && CountPending(ReadyOnly(l)) == 0
  {
    if l != [] {
      hide CountPending, ReadyOnly;
      var init, last := l[..|l| - 1], l[|l| - 1];
      assert l == init + [last];
      ReadyOnlyIsShorter(init);
      ReadyOnlyAppend(init, last);
      CountAppend(ReadyOnly(init), last);
    }
  }

  lemma ReadyOnlyAppend(init: seq<Slot>, last: Slot)
    ensures ReadyOnly(init + [last]) == ReadyOnly(init) + if last.entry.status == Ready then [last] else []
    ensures ReadyOnly(init) + [] == ReadyOnly(init)
  {
    assert (init + [last])[..|init|] == init;
  }

  lemma {:induction false} NothingPending(shards: seq<Shard>, before: seq<Shard>)
    requires |shards| == |before|
    requires forall j :: 0 <= j < |shards| ==> List(shards[j]) == ReadyOnly(List(before[j]))
    ensures Total(shards) == 0
  {
    hide List, ReadyOnly, CountPending;
    if shards != [] {
      var n := |shards| - 1;
      NothingPending(shards[..n], before[..n]);
      ReadyOnlyIsShorter(List(before[n]));
    }
  }

  lemma NewIsBacked(s: Shard, key: bytes, e: Entry)
    requires Bijection(s) && key !in s.items
    ensures Shard(s.items[key := e], s.order + [key]) == Backed(s, key, e)
  {
    WithoutAbsent(s.order, key);
  }

  lemma {:induction false} WithoutAbsent(order: seq<bytes>, key: bytes)
    requires key !in order
    ensures Without(order, key) == order
  {
    if order != [] {
      WithoutAbsent(order[..|order| - 1], key);
    }
  }

  lemma {:induction false} RemoveAbsent(l: seq<Slot>, key: bytes)
    requires Get(l, key).None?
    ensures RemoveKey(l, key) == l
  {
    if l != [] {
      RemoveAbsent(l[..|l| - 1], key);
    }
  }

  /** Taking an entry out first makes no difference to writing it. */
  lemma BackAgain(s: Shard, key: bytes, e: Entry)
    requires Bijection(s)
    ensures Back(RemoveKey(List(s), key), key, e) == Back(List(s), key, e)
  {
    hide List, RemoveKey, Get, Bijection;
    ShardRemove(s, key);
    GetIs(Removed(s, key), key);
    RemoveAbsent(RemoveKey(List(s), key), key);
  }

  lemma {:induction false} WithoutSize(order: seq<bytes>, key: bytes)
    requires NoRepeat(order)
    ensures |Without(order, key)| == |order| - if key in order then 1 else 0
  {
    if order != [] {
      var n := |order| - 1;
      assert order == order[..n] + [order[n]];
      WithoutSize(order[..n], key);
      if order[n] == key {
        assert forall i :: 0 <= i < n ==> order[..n][i] == order[i];
      }
    }
  }

  lemma UseIsSmall(before: seq<Shard>, after: seq<Shard>, i: nat, key: bytes, e: Entry, limit: nat)
    requires i < |before| && Bijection(before[i]) && key in before[i].items
    requires after == before[i := Backed(before[i], key, e)] && AllSmall(before, limit)
    ensures AllSmall(after, limit)
  {
    WithoutSize(before[i].order, key);
    assert key in before[i].order;
  }

  lemma RemoveIsSmall(before: seq<Shard>, after: seq<Shard>, i: nat, key: bytes, limit: nat)
    requires i < |before| && Bijection(before[i])
    requires after == before[i := Removed(before[i], key)] && AllSmall(before, limit)
    ensures AllSmall(after, limit)
  {
    WithoutSize(before[i].order, key);
  }

  lemma TrimIsSmall(before: seq<Shard>, after: seq<Shard>, i: nat, limit: nat)
    requires |before| == |after| && i < |after| && AllSmall(before, limit) && |List(after[i])| <= limit
    requires forall j :: 0 <= j < |after| && j != i ==> after[j] == before[j]
    ensures AllSmall(after, limit)
  {
    ListSize(after[i]);
  }

  lemma StoreHonest(items: map<bytes, Entry>, stored: map<bytes, bytes>, key: bytes, e: Entry, response: bytes)
    requires Honest(items, stored) && (e.status == Ready ==> e.response == Zeroed(response))
    ensures Honest(items[key := e], stored[key := response])
  {
  }

  lemma StoreElsewhere(items: map<bytes, Entry>, stored: map<bytes, bytes>, key: bytes, response: bytes)
    requires Honest(items, stored) && key !in items
    ensures Honest(items, stored[key := response])
  {
  }

  lemma StoreBacked(shards: seq<Shard>, i: nat, hash: bytes -> nat, stored: map<bytes, bytes>, key: bytes, e: Entry,
                    response: bytes)
    requires AllSound(shards, hash, stored) && i < SHARDS && hash(key) % SHARDS == i && key in shards[i].items
    requires e.status == Ready && e.response == Zeroed(response)
    ensures var next := shards[i := Backed(shards[i], key, e)];
      && AllSound(next, hash, stored[key := response])
      && List(next[i]) == Back(List(shards[i]), key, e)
      && Total(next) == Total(shards) - PendingUnder(shards[i], key) && PendingUnder(shards[i], key) <= Total(shards)
  {
    hide List, Back, Total, RemoveKey, CountPending, Get, Without, Bijection, Honest;
    var s := shards[i];
    var next := shards[i := Backed(s, key, e)];
    ShardBack(s, key, e);
    GetIs(s, key);
    CountRemove(List(s), key);
    CountBack(List(s), key, e);
    TotalUpdate(shards, i, Backed(s, key, e));
    StoreHonest(s.items, stored, key, e, response);
    forall j | 0 <= j < SHARDS
      ensures Sound(next[j], hash, j, stored[key := response])
    {
      if j != i {
        assert key !in shards[j].items;
        StoreElsewhere(shards[j].items, stored, key, response);
      }
    }
  }

  lemma ListSize(s: Shard)
    ensures |List(s)| == |s.order|
  {
  }

  lemma {:induction false} EmptyTotal(n: nat)
    ensures Total(seq(n, _ => Shard(map[], []))) == 0
  {
    var shards := seq(n, _ => Shard(map[], []));
    if n > 0 {
      assert shards[..n - 1] == seq(n - 1, _ => Shard(map[], []));
      EmptyTotal(n - 1);
      assert List(shards[n - 1]) == [];
    }
  }
}
