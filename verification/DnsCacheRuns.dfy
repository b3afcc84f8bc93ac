/** What one shard of the DNS cache keeps over a run of calls. */
module DnsCacheRuns {
  // Fewer calls than the shard has room for cannot push out what was just used, and time alone decides the rest.

  import opened Words
  import opened DnsMessage
  import opened DnsCache

  /** A call on a shard, at a time. */
  datatype Call =
    | LookUp(key: bytes, q: Question, now: int)
    | Fetch(key: bytes, query: bytes, now: int)
    | Put(key: bytes, q: Question, response: bytes, now: int)

  /** The shard's settings. */
  datatype Settings = Settings(ttl: int, timeout: int, limit: nat)

  function Do(l: seq<Slot>, call: Call, c: Settings): seq<Slot> {
    match call
    case LookUp(key, q, now) => AfterLookup(l, key, q, now, c.ttl, c.timeout, c.limit)
    case Fetch(key, _, now) => AfterGet(l, key, now, c.ttl)
    case Put(key, q, response, now) => AfterSet(l, key, q, response, now, c.limit)
  }

  function After(l: seq<Slot>, calls: seq<Call>, c: Settings): seq<Slot>
    decreases |calls|
  {
    if calls == [] then l else Do(After(l, calls[..|calls| - 1], c), calls[|calls| - 1], c)
  }

  // ----- the place of a key -----

  /** How many entries were used after the key was. */
  function Depth(l: seq<Slot>, key: bytes): nat {
    if l == [] || l[|l| - 1].key == key then 0 else 1 + Depth(l[..|l| - 1], key)
  }

  lemma DepthStep(init: seq<Slot>, last: Slot, key: bytes)
    ensures Depth(init + [last], key) == if last.key == key then 0 else 1 + Depth(init, key)
  {
    assert (init + [last])[..|init|] == init;
  }

  /** Taking another key out leaves this one where it is, or one place nearer the end. */
  lemma {:induction false} OtherRemoved(l: seq<Slot>, other: bytes, key: bytes)
    requires other != key
    ensures Get(RemoveKey(l, other), key) == Get(l, key) && Depth(RemoveKey(l, other), key) <= Depth(l, key)
  {
    if l != [] {
      hide RemoveKey, Get, Depth;
      var init, last := l[..|l| - 1], l[|l| - 1];
      assert l == init + [last];
      OtherRemoved(init, other, key);
      LastStep(init, last, other);
      LastStep(init, last, key);
      DepthStep(init, last, key);
      if last.key != other {
        LastStep(RemoveKey(init, other), last, key);
        DepthStep(RemoveKey(init, other), last, key);
      }
    }
  }

  lemma OtherUsed(l: seq<Slot>, other: bytes, e: Entry, key: bytes)
    requires other != key
    ensures Get(Back(l, other, e), key) == Get(l, key) && Depth(Back(l, other, e), key) <= Depth(l, key) + 1
  {
    hide RemoveKey, Get, Depth;
    OtherRemoved(l, other, key);
    LastStep(RemoveKey(l, other), Slot(other, e), key);
    DepthStep(RemoveKey(l, other), Slot(other, e), key);
  }

  /** Only what lies beyond the limit is trimmed away. */
  lemma {:induction false} TrimKeeps(l: seq<Slot>, limit: nat, key: bytes)
    requires Get(l, key).Some? && Depth(l, key) < limit
    ensures Get(Trim(l, limit), key) == Get(l, key) && Depth(Trim(l, limit), key) == Depth(l, key)
  {
    if |l| > limit && l[|l| - 1].key != key {
      var init := l[..|l| - 1];
      TrimKeeps(init, limit - 1, key);
      var r, t := Trim(l, limit), Trim(init, limit - 1);
      assert r == t + [l[|l| - 1]];
      LastStep(t, l[|l| - 1], key);
      DepthStep(t, l[|l| - 1], key);
    } else if |l| > limit {
      assert Trim(l, limit)[limit - 1] == l[|l| - 1];
    }
  }

  // ----- one call -----

  /** A call that uses another key moves this one at most one place. */
  lemma OtherCall(l: seq<Slot>, call: Call, c: Settings, key: bytes)
    requires call.key != key && Get(l, key).Some? && Depth(l, key) + 1 < c.limit
    ensures Get(Do(l, call, c), key) == Get(l, key) && Depth(Do(l, call, c), key) <= Depth(l, key) + 1
  {
    hide Get, Depth, RemoveKey, Trim, Back;
    forall e { OtherUsed(l, call.key, e, key); }
    forall e { TrimKeeps(Back(l, call.key, e), c.limit, key); }
    OtherRemoved(l, call.key, key);
  }

  lemma BackIsFirst(l: seq<Slot>, key: bytes, e: Entry)
    ensures Get(Back(l, key, e), key) == Some(e) && Depth(Back(l, key, e), key) == 0
  {
    hide RemoveKey, Get, Depth;
    LastStep(RemoveKey(l, key), Slot(key, e), key);
    DepthStep(RemoveKey(l, key), Slot(key, e), key);
  }

  /** A call on the key itself, other than storing anew, before its entry has expired: used again, and dispatched
      again when it was pending for too long. */
  lemma OwnCall(l: seq<Slot>, call: Call, c: Settings, key: bytes, e: Entry)
    requires call.key == key && !call.Put? && Get(l, key) == Some(e)
    requires e.status == Ready ==> call.now - e.lastUsedAt < c.ttl
    ensures Depth(Do(l, call, c), key) == 0
    ensures Get(Do(l, call, c), key) == Some(e.(lastUsedAt := call.now,
      lastDispatchAt := if e.status == Pending && call.LookUp? && call.now - e.lastDispatchAt >= c.timeout then call.now
                        else e.lastDispatchAt))
  {
    hide Get, Depth, RemoveKey, Trim, Back;
    BackIsFirst(l, key, e.(lastUsedAt := call.now));
    BackIsFirst(l, key, e.(lastUsedAt := call.now, lastDispatchAt := call.now));
  }

  // ----- runs -----

  /** The calls that use the key come from start on and before end, and none stores anything under it. */
  predicate Within(calls: seq<Call>, key: bytes, start: int, end: int) {
    forall k :: 0 <= k < |calls| && calls[k].key == key ==> start <= calls[k].now < end && !calls[k].Put?
  }

  /** The calls do not use the key at all. */
  predicate Elsewhere(calls: seq<Call>, key: bytes) {
    forall k :: 0 <= k < |calls| ==> calls[k].key != key
  }

  lemma PutIsFirst(l: seq<Slot>, key: bytes, q: Question, response: bytes, now: int, limit: nat)
    requires limit >= 1
    ensures var l1 := AfterSet(l, key, q, response, now, limit);
      && Get(l1, key).Some? && Depth(l1, key) == 0
      && var e := Get(l1, key).value; e.status == Ready && e.response == Zeroed(response) && e.lastUsedAt == now
  {
    hide Get, Depth, RemoveKey, Trim, Back, Zeroed;
    var made := Entry(q, Ready, now, now, 0, Zeroed(response));
    BackIsFirst(l, key, made);
    TrimKeeps(Back(l, key, made), limit, key);
    if Get(l, key).Some? {
      BackIsFirst(l, key, Get(l, key).value.(question := q, status := Ready, lastUsedAt := now,
                                             response := Zeroed(response)));
    }
  }

  lemma {:induction false} ReadyStays(l: seq<Slot>, calls: seq<Call>, c: Settings, key: bytes, start: int)
    requires Get(l, key).Some? && Depth(l, key) == 0 && Get(l, key).value.status == Ready
    requires Get(l, key).value.lastUsedAt >= start && |calls| < c.limit
    requires Within(calls, key, start, start + c.ttl)
    ensures var l' := After(l, calls, c);
      && Get(l', key).Some? && Depth(l', key) <= |calls|
      && var e := Get(l', key).value;
        e.status == Ready && e.response == Get(l, key).value.response && e.lastUsedAt >= start
        && (Elsewhere(calls, key) ==> e == Get(l, key).value)
    decreases |calls|
  {
    if calls != [] {
      hide Get, Depth, Do;
      var before, last := calls[..|calls| - 1], calls[|calls| - 1];
      ReadyStays(l, before, c, key, start);
      var m := After(l, before, c);
      if last.key == key {
        OwnCall(m, last, c, key, Get(m, key).value);
      } else {
        OtherCall(m, last, c, key);
      }
    }
  }

  lemma ZeroedPatched(response: bytes, query: bytes)
    requires |response| >= 2 && |query| >= 2
    ensures Patched(Zeroed(response), query) == Patched(response, query)
  {
    var z := Zeroed(response);
    if |response| >= 4 {
      assert Word(z, 2) == Word(response, 2) by { assert z[2] == response[2] && z[3] == response[3]; }
      assert z[4..] == response[4..];
    }
    assert z[2..] == response[2..];
  }

  /** What was stored is served, patched for the query, to every query within the lifetime, whatever other calls
      came between, as long as they are fewer than the shard has room for and none stores anew under the key. */
  lemma StoredIsServed(l: seq<Slot>, key: bytes, q: Question, response: bytes, start: int, calls: seq<Call>,
                       query: bytes, now: int, c: Settings)
    requires |response| >= 2 && |query| >= 2 && |calls| < c.limit
    requires Within(calls, key, start, start + c.ttl) && now < start + c.ttl
    ensures var l' := After(AfterSet(l, key, q, response, start, c.limit), calls, c);
      && GetAnswer(l', key, query, now, c.ttl) == Some(Patched(response, query))
      && LookupAnswer(l', key, now, c.ttl, c.timeout) == Hit([0, 0] + response[2..])
  {
    hide Get, Depth, AfterSet, After, Patched;
    PutIsFirst(l, key, q, response, start, c.limit);
    ReadyStays(AfterSet(l, key, q, response, start, c.limit), calls, c, key, start);
    ZeroedPatched(response, query);
  }

  /** What was not used for the whole lifetime is not served any more, and is dispatched again. */
  lemma UnusedExpires(l: seq<Slot>, key: bytes, q: Question, response: bytes, start: int, calls: seq<Call>,
                      query: bytes, now: int, c: Settings)
    requires |calls| < c.limit && Elsewhere(calls, key)
    requires now >= start + c.ttl
    ensures var l' := After(AfterSet(l, key, q, response, start, c.limit), calls, c);
      && GetAnswer(l', key, query, now, c.ttl).None?
      && LookupAnswer(l', key, now, c.ttl, c.timeout) == Dispatch
  {
    hide Get, Depth, AfterSet, After;
    PutIsFirst(l, key, q, response, start, c.limit);
    ReadyStays(AfterSet(l, key, q, response, start, c.limit), calls, c, key, start);
  }

  lemma {:induction false} PendingStays(l: seq<Slot>, calls: seq<Call>, c: Settings, key: bytes, start: int)
    requires Get(l, key).Some? && Depth(l, key) == 0 && Get(l, key).value.status == Pending && |calls| < c.limit
    requires Within(calls, key, start, Get(l, key).value.lastDispatchAt + c.timeout)
    ensures var l' := After(l, calls, c);
      && Get(l', key).Some? && Depth(l', key) <= |calls|
      && var e := Get(l', key).value; e.status == Pending && e.lastDispatchAt == Get(l, key).value.lastDispatchAt
    decreases |calls|
  {
    if calls != [] {
      hide Get, Depth, Do;
      var before, last := calls[..|calls| - 1], calls[|calls| - 1];
      PendingStays(l, before, c, key, start);
      var m := After(l, before, c);
      if last.key == key {
        OwnCall(m, last, c, key, Get(m, key).value);
      } else {
        OtherCall(m, last, c, key);
      }
    }
  }

  /** A key looked up for the first time is dispatched once: until the timeout every further lookup waits, nothing is
      served, and only after the timeout is it dispatched again. */
  lemma DispatchedOnce(l: seq<Slot>, key: bytes, q: Question, start: int, calls: seq<Call>, query: bytes, now: int,
                       c: Settings)
    requires Get(l, key).None? && |calls| < c.limit && Within(calls, key, start, start + c.timeout)
    ensures LookupAnswer(l, key, start, c.ttl, c.timeout) == Dispatch
    ensures var l' := After(AfterLookup(l, key, q, start, c.ttl, c.timeout, c.limit), calls, c);
      && LookupAnswer(l', key, now, c.ttl, c.timeout) == (if now < start + c.timeout then Waiting else Dispatch)
      && GetAnswer(l', key, query, now, c.ttl).None?
  {
    hide Get, Depth, After, Back, Trim;
    var made := FreshEntry(q, start);
    BackIsFirst(l, key, made);
    TrimKeeps(Back(l, key, made), c.limit, key);
    PendingStays(AfterLookup(l, key, q, start, c.ttl, c.timeout, c.limit), calls, c, key, start);
  }
}
