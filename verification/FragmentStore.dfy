/** Reassembly of fragmented payloads: fragments of many messages arrive in any order, any number of times. */
module FragmentStore {
  import opened Words

  const SECOND := 1_000_000_000

  /** A message under reassembly. A chunk that is None is Go's nil slice. */
  datatype Pending = Pending(createdAt: int, total: byte, chunks: seq<Option<bytes>>, count: byte)

  datatype State = State(items: map<nat, Pending>, completed: map<nat, int>, lastPurge: int)

  /** What Collect returns: the assembled payload, whether it is complete, whether it was complete before. */
  datatype Outcome = Outcome(payload: Option<bytes>, ready: bool, duplicate: bool)

  const WAITING := Outcome(None, false, false)
  const REPEATED := Outcome(None, false, true)

  function NoChunks(): seq<Option<bytes>> {
    seq(256, _ => None)
  }

  // ----- the specification -----

  function Purged(s: State, now: int, retention: int): State {
    if retention <= 0 then State(map[], map[], s.lastPurge)
    else State(map k | k in s.items && s.items[k].createdAt > now - retention :: s.items[k],
               map k | k in s.completed && now < s.completed[k] :: s.completed[k], s.lastPurge)
  }

  function MaybePurged(s: State, now: int, retention: int): State {
    if now - s.lastPurge >= SECOND then Purged(s, now, retention).(lastPurge := now) else s
  }

  /** `append(chunk[:0], payload...)`: an absent chunk stays absent when nothing is appended. */
  function Refilled(chunk: Option<bytes>, payload: bytes): Option<bytes> {
    if chunk.None? && payload == [] then None else Some(payload)
  }

  function WithFragment(p: Pending, id: byte, payload: bytes): Pending
    requires |p.chunks| == 256
  {
    p.(count := if p.chunks[id].None? then (p.count + 1) % 256 else p.count,
       chunks := p.chunks[id := Refilled(p.chunks[id], payload)])
  }

  function Assembled(chunks: seq<Option<bytes>>, n: nat): Option<bytes>
    requires n <= |chunks|
  {
    if n == 0 then Some([])
    else match Assembled(chunks, n - 1)
      case None => None
      case Some(front) => if chunks[n - 1].None? then None else Some(front + chunks[n - 1].value)
  }

  ghost predicate Shaped(s: State) {
    forall k :: k in s.items ==> |s.items[k].chunks| == 256
  }

  function Collected(s: State, key: nat, payload: bytes, id: byte, total: byte, now: int, retention: int):
    (State, Outcome)
    requires Shaped(s)
  {
    if total <= 1 then
      if retention <= 0 then (s, Outcome(Some(payload), true, false))
      else
        var s1 := MaybePurged(s, now, retention);
        if key in s1.completed && now < s1.completed[key] then (s1, REPEATED)
        else (State(s1.items - {key}, s1.completed[key := now + retention], s1.lastPurge), Outcome(Some(payload), true, false))
    else if id >= total then (s, WAITING)
    else
      var s1 := MaybePurged(s, now, retention);
      if key in s1.completed && now < s1.completed[key] then (s1, REPEATED)
      else
        var current := WithFragment(
          if key in s1.items && s1.items[key].total == total then s1.items[key] else Pending(now, total, NoChunks(), 0),
          id, payload);
        var all := Assembled(current.chunks, total);
        if current.count < total || all.None? then (s1.(items := s1.items[key := current]), WAITING)
        else
          (State(s1.items - {key},
                 if retention > 0 then s1.completed[key := now + retention] else s1.completed - {key}, s1.lastPurge),
           Outcome(all, true, false))
  }

  // ----- the store -----

  class Store {
    var items: map<nat, Pending>
    var completed: map<nat, int>
    var lastPurge: int

    function View(): State
      reads this
    {
      State(items, completed, lastPurge)
    }

    constructor ()
      ensures View() == State(map[], map[], 0)
    {
      items, completed, lastPurge := map[], map[], 0;
    }

    method Purge(now: int, retention: int)
      modifies this
      ensures View() == Purged(old(View()), now, retention)
      ensures retention <= 0 ==> items == map[] && completed == map[]
      ensures retention > 0 ==> forall k :: k in items <==> k in old(items) && now - old(items)[k].createdAt < retention
      ensures retention > 0 ==> forall k :: k in completed <==> k in old(completed) && old(completed)[k] > now
      ensures forall k :: k in items ==> items[k] == old(items)[k]
      ensures forall k :: k in completed ==> completed[k] == old(completed)[k]
      ensures lastPurge == old(lastPurge)
    {
      if retention <= 0 {
        items, completed := map[], map[];
        return;
      }
      var deadline := now - retention;
      var itemKeys := items.Keys;
      while itemKeys != {}
        invariant itemKeys <= items.Keys <= old(items).Keys
        invariant forall k :: k in items ==> items[k] == old(items)[k]
        invariant forall k :: k in old(items) && k !in itemKeys ==> (k in items <==> old(items)[k].createdAt > deadline)
        invariant completed == old(completed) && lastPurge == old(lastPurge)
      {
        var key :| key in itemKeys;
        itemKeys := itemKeys - {key};
        if items[key].createdAt <= deadline {
          items := items - {key};
        }
      }
      var completedKeys := completed.Keys;
      while completedKeys != {}
        invariant completedKeys <= completed.Keys <= old(completed).Keys
        invariant forall k :: k in completed ==> completed[k] == old(completed)[k]
        invariant forall k :: k in old(completed) && k !in completedKeys ==> (k in completed <==> now < old(completed)[k])
        invariant items == Purged(old(View()), now, retention).items && lastPurge == old(lastPurge)
      {
        var key :| key in completedKeys;
        completedKeys := completedKeys - {key};
        if !(now < completed[key]) {
          completed := completed - {key};
        }
      }
    }

    method Collect(key: nat, payload: bytes, id: byte, total: byte, now: int, retention: int) returns (r: Outcome)
      requires Shaped(View())
      modifies this
      ensures (View(), r) == Collected(old(View()), key, payload, id, total, now, retention)
    {
      if total <= 1 {
        if retention <= 0 {
          return Outcome(Some(payload), true, false);
        }
        PurgeWhenDue(now, retention);
        if key in completed && now < completed[key] {
          return REPEATED;
        }
        items := items - {key};
        completed := completed[key := now + retention];
        return Outcome(Some(payload), true, false);
      }
      if id >= total {
        return WAITING;
      }
      PurgeWhenDue(now, retention);
      if key in completed && now < completed[key] {
        return REPEATED;
      }
      if key !in items || items[key].total != total {
        items := items[key := Pending(now, total, NoChunks(), 0)];
      }
      ghost var purged := MaybePurged(old(View()), now, retention).items;
      items := items[key := WithFragment(items[key], id, payload)];
      assert items == purged[key := items[key]];
      if items[key].count < total {
        return WAITING;
      }
      var all := Join(items[key].chunks, total);
      if all.None? {
        return WAITING;
      }
      assert items - {key} == purged - {key};
      items := items - {key};
      if retention > 0 {
        completed := completed[key := now + retention];
      } else {
        completed := completed - {key};
      }
      return Outcome(all, true, false);
    }

    method PurgeWhenDue(now: int, retention: int)
      requires Shaped(View())
      modifies this
      ensures View() == MaybePurged(old(View()), now, retention) && Shaped(View())
    {
      if now - lastPurge >= SECOND {
        Purge(now, retention);
        lastPurge := now;
      }
    }

    method Join(chunks: seq<Option<bytes>>, n: nat) returns (all: Option<bytes>)
      requires n <= |chunks|
      ensures all == Assembled(chunks, n)
    {
      var joined: bytes := [];
      for i := 0 to n
        invariant Assembled(chunks, i) == Some(joined)
      {
        if chunks[i].None? {
          StaysAbsent(chunks, i + 1, n);
          return None;
        }
        joined := joined + chunks[i].value;
      }
      return Some(joined);
    }
  }

  lemma {:induction false} StaysAbsent(chunks: seq<Option<bytes>>, m: nat, n: nat)
    requires m <= n <= |chunks| && Assembled(chunks, m).None?
    ensures Assembled(chunks, n).None?
  {
    if m < n { StaysAbsent(chunks, m, n - 1); }
  }

  // ----- splitting -----

  /** fragmentPayload: the pieces of at most mtu bytes a payload is sent in. */
  method FragmentPayload(payload: bytes, mtu: nat) returns (fragments: seq<bytes>)
    requires mtu > 0
    ensures Flatten(fragments) == payload && fragments != []
    ensures forall i :: 0 <= i < |fragments| ==> |fragments[i]| <= mtu
    ensures |payload| > mtu ==> forall i :: 0 <= i < |fragments| ==> fragments[i] != []
    ensures |payload| > mtu ==> (|fragments| - 1) * mtu < |payload| <= |fragments| * mtu
    ensures |payload| <= mtu ==> fragments == [payload]
  {
    if |payload| <= mtu {
      assert Flatten([payload]) == payload + Flatten([]);
      return [payload];
    }
    fragments := [];
    var i := 0;
    while i < |payload|
      invariant 0 <= i <= |payload| && Flatten(fragments) == payload[..i]
      invariant i == Min(|fragments| * mtu, |payload|)
      invariant i > 0 ==> (|fragments| - 1) * mtu < |payload|
      invariant (|fragments| > 0) == (i > 0)
      invariant forall k :: 0 <= k < |fragments| ==> 0 < |fragments[k]| <= mtu
    {
      var end := i + mtu;
      if end > |payload| {
        end := |payload|;
      }
      FlattenConcat(fragments, [payload[i..end]]);
      assert Flatten([payload[i..end]]) == payload[i..end] + Flatten([]);
      assert payload[..i] + payload[i..end] == payload[..end];
      assert (|fragments| + 1) * mtu == |fragments| * mtu + mtu;
      fragments := fragments + [payload[i..end]];
      i := end;
    }
    assert payload[..i] == payload;
  }

  // ----- runs -----

  /** One call of Collect; all calls of a run share the retention. */
  datatype Event = Event(key: nat, payload: bytes, id: byte, total: byte, now: int)

  function Step(s: State, e: Event, retention: int): (State, Outcome)
    requires Shaped(s)
  {
    Collected(s, e.key, e.payload, e.id, e.total, e.now, retention)
  }

  lemma StepShaped(s: State, e: Event, retention: int)
    requires Shaped(s)
    ensures Shaped(Step(s, e, retention).0)
  {
  }

  /** A payload sent whole is returned as it is, at once, and once: again within the retention it is a duplicate, after
      the retention it is a new one. */
  lemma WholePayloadIsReturned(s: State, e: Event, retention: int)
    requires Shaped(s) && e.total <= 1
    ensures var r := Step(s, e, retention).1;
      if retention > 0 && e.key in s.completed && e.now < s.completed[e.key] then r == REPEATED
      else r.ready && !r.duplicate && r.payload == Some(e.payload)
    ensures retention <= 0 ==> Step(s, e, retention).0 == s
    ensures var s' := Step(s, e, retention).0; retention > 0 && Step(s, e, retention).1.ready ==>
      e.key in s'.completed && s'.completed[e.key] == e.now + retention && e.key !in s'.items
  {
  }

  lemma WholePayloadOnce(s: State, e: Event, again: Event, retention: int)
    requires Shaped(s) && e.total <= 1 && retention > 0 && Step(s, e, retention).1.ready
    requires again.key == e.key && again.total <= 1
    ensures var s' := Step(s, e, retention).0;
      && Shaped(s')
      && Step(s', again, retention).1
         == if again.now < e.now + retention then REPEATED else Outcome(Some(again.payload), true, false)
  {
    hide Step;
    StepShaped(s, e, retention);
    WholePayloadIsReturned(s, e, retention);
    WholePayloadIsReturned(Step(s, e, retention).0, again, retention);
  }

  /** Before a message is looked at, what is past its time is dropped, at most once a second. */
  lemma PurgesEverySecond(s: State, now: int, retention: int, key: nat)
    requires retention > 0
    ensures var s' := MaybePurged(s, now, retention);
      if now - s.lastPurge < 1_000_000_000 then s' == s
      else
        && s'.lastPurge == now
        && (key in s'.items <==> key in s.items && now - s.items[key].createdAt < retention)
        && (key in s'.completed <==> key in s.completed && now < s.completed[key])
        && (key in s'.items ==> s'.items[key] == s.items[key])
        && (key in s'.completed ==> s'.completed[key] == s.completed[key])
  {
  }

  /** A message put together is remembered for the retention, and not at all without one; its fragments are gone. */
  lemma CompletionIsRemembered(s: State, e: Event, retention: int)
    requires Shaped(s) && e.total > 1 && Step(s, e, retention).1.ready
    ensures var s' := Step(s, e, retention).0;
      && e.key !in s'.items
      && (if retention > 0 then e.key in s'.completed && s'.completed[e.key] == e.now + retention
          else e.key !in s'.completed)
  {
    hide Assembled, WithFragment;
  }

  /** The moment of the last purge moves only when a purge was due. */
  lemma PurgeMoment(s: State, e: Event, retention: int)
    requires Shaped(s)
    ensures Step(s, e, retention).0.lastPurge
         == if (e.total <= 1 && retention <= 0) || (e.total > 1 && e.id >= e.total) || e.now - s.lastPurge < 1_000_000_000
            then s.lastPurge else e.now
  {
    hide Assembled, WithFragment;
  }

  /** A fragment that cannot belong to its message changes nothing. */
  lemma StrayFragmentIsDropped(s: State, e: Event, retention: int)
    requires Shaped(s) && 1 < e.total <= e.id
    ensures Step(s, e, retention) == (s, WAITING)
  {
  }

  ghost function After(s: State, events: seq<Event>, retention: int): (s': State)
    requires Shaped(s)
    ensures Shaped(s')
    decreases |events|
  {
    if events == [] then s
    else
      var last := events[|events| - 1];
      StepShaped(After(s, events[..|events| - 1], retention), last, retention);
      Step(After(s, events[..|events| - 1], retention), last, retention).0
  }

  /** The events of the run that carry the key are the message's fragments; the others are arbitrary. */
  ghost predicate Carries(events: seq<Event>, key: nat, message: seq<bytes>) {
    && 2 <= |message| <= 255
    && forall e :: e in events && e.key == key ==>
      e.total == |message| && e.id < |message| && e.payload == message[e.id]
  }

  /** Every call happens within one retention time after `start`. */
  ghost predicate Within(events: seq<Event>, start: int, retention: int) {
    retention > 0 && forall e :: e in events ==> start <= e.now < start + retention
  }

  /** Nothing of the key is pending, and no completion of it is remembered. */
  ghost predicate Clear(s: State, key: nat, start: int) {
    key !in s.items && (key in s.completed ==> s.completed[key] <= start)
  }

  ghost function Ids(events: seq<Event>, key: nat): set<byte> {
    set e | e in events && e.key == key :: e.id
  }

  ghost predicate Holds(p: Pending, message: seq<bytes>, ids: set<byte>, start: int) {
    && |p.chunks| == 256 && p.createdAt >= start && p.total == |message|
    && p.count == |ids| && (forall i :: i in ids ==> i < |message|)
    && forall i: byte :: p.chunks[i] == if i in ids then Some(message[i]) else None
  }

  /** What the store knows of the message after the fragments with the given ids. */
  ghost predicate Progress(s: State, key: nat, message: seq<bytes>, ids: set<byte>, start: int, retention: int)
    requires |message| <= 255
  {
    && Shaped(s)
    && (forall i :: i in ids ==> i < |message|)
    && if ids == {} then Clear(s, key, start)
       else if |ids| < |message| then
         && key in s.items && Holds(s.items[key], message, ids, start)
         && (key in s.completed ==> s.completed[key] <= start)
       else key !in s.items && key in s.completed && s.completed[key] >= start + retention
  }

  lemma {:induction false} IdsFit(ids: set<byte>, n: nat)
    requires forall i :: i in ids ==> i < n
    ensures |ids| <= n && (|ids| == n ==> forall i: byte :: i < n ==> i in ids)
    decreases n
  {
    if n == 0 {
      assert ids == {};
    } else if n <= 256 && n - 1 in ids {
      var rest := ids - {n - 1};
      IdsFit(rest, n - 1);
      assert |ids| == |rest| + 1;
      if |ids| == n {
        forall i: byte | i < n ensures i in ids { if i < n - 1 { assert i in rest; } }
      }
    } else {
      IdsFit(ids, n - 1);
    }
  }

  lemma {:induction false} WholeMessage(chunks: seq<Option<bytes>>, message: seq<bytes>, n: nat)
    requires n <= |message| <= |chunks| && forall i :: 0 <= i < n ==> chunks[i] == Some(message[i])
    ensures Assembled(chunks, n) == Some(Flatten(message[..n]))
  {
    if n == 0 {
      assert message[..0] == [];
    } else {
      WholeMessage(chunks, message, n - 1);
      assert message[..n] == message[..n - 1] + [message[n - 1]];
      FlattenConcat(message[..n - 1], [message[n - 1]]);
      assert Flatten([message[n - 1]]) == message[n - 1] + Flatten([]) == message[n - 1];
    }
  }

  /** A purge inside the window drops nothing of the message that matters. */
  lemma PurgeKeepsProgress(s: State, key: nat, message: seq<bytes>, ids: set<byte>, start: int, retention: int,
      now: int)
    requires |message| <= 255 && Progress(s, key, message, ids, start, retention)
    requires retention > 0 && start <= now < start + retention
    ensures Progress(MaybePurged(s, now, retention), key, message, ids, start, retention)
  {
  }

  lemma OtherKeyKeepsProgress(s: State, e: Event, key: nat, message: seq<bytes>, ids: set<byte>, start: int,
      retention: int)
    requires |message| <= 255 && Progress(s, key, message, ids, start, retention)
    requires retention > 0 && start <= e.now < start + retention && e.key != key
    ensures Progress(Step(s, e, retention).0, key, message, ids, start, retention)
  {
    hide MaybePurged, Assembled, Holds;
    PurgeKeepsProgress(s, key, message, ids, start, retention, e.now);
    StepShaped(s, e, retention);
  }

  ghost predicate NoneEmpty(message: seq<bytes>) {
    forall i :: 0 <= i < |message| ==> message[i] != []
  }

  /** What the call that delivers one more fragment answers. */
  function Answer(message: seq<bytes>, before: set<byte>, id: byte): Outcome {
    if |before| == |message| then REPEATED
    else if |before + {id}| == |message| then Outcome(Some(Flatten(message)), true, false)
    else WAITING
  }

  lemma RefillHolds(p: Pending, message: seq<bytes>, ids: set<byte>, start: int, id: byte)
    requires Holds(p, message, ids, start) && id < |message| <= 255 && message[id] != []
    ensures Holds(WithFragment(p, id, message[id]), message, ids + {id}, start)
  {
    IdsFit(ids, |message|);
    if id in ids {
      assert ids + {id} == ids;
    } else {
      IdsFit(ids + {id}, |message|);
      assert |ids + {id}| == |ids| + 1;
    }
  }

  lemma FreshHolds(now: int, message: seq<bytes>, start: int)
    requires start <= now && |message| <= 255
    ensures Holds(Pending(now, |message|, NoChunks(), 0), message, {}, start)
  {
  }

  lemma HoldsAssembles(p: Pending, message: seq<bytes>, ids: set<byte>, start: int)
    requires Holds(p, message, ids, start) && |message| <= 255 && |ids| == |message|
    ensures Assembled(p.chunks, |message|) == Some(Flatten(message))
  {
    IdsFit(ids, |message|);
    WholeMessage(p.chunks, message, |message|);
    assert message[..|message|] == message;
  }

  lemma OwnFragment(s: State, e: Event, message: seq<bytes>, ids: set<byte>, start: int, retention: int)
    requires 2 <= |message| <= 255 && Progress(s, e.key, message, ids, start, retention) && NoneEmpty(message)
    requires retention > 0 && start <= e.now < start + retention
    requires e.total == |message| && e.id < |message| && e.payload == message[e.id]
    ensures Progress(Step(s, e, retention).0, e.key, message, ids + {e.id}, start, retention)
    ensures Step(s, e, retention).1 == Answer(message, ids, e.id)
  {
    hide MaybePurged, Assembled, Holds, WithFragment, NoChunks;
    PurgeKeepsProgress(s, e.key, message, ids, start, retention, e.now);
    StepShaped(s, e, retention);
    IdsFit(ids, |message|);
    IdsFit(ids + {e.id}, |message|);
    var s1 := MaybePurged(s, e.now, retention);
    if |ids| == |message| {
      assert ids + {e.id} == ids;
    } else {
      var base := if ids == {} then Pending(e.now, |message|, NoChunks(), 0) else s1.items[e.key];
      FreshHolds(e.now, message, start);
      RefillHolds(base, message, ids, start, e.id);
      var current := WithFragment(base, e.id, e.payload);
      assert current.count == |ids + {e.id}| && base.total == |message| by { HoldsCount(base, current, message, ids, e.id, start); }
      if |ids + {e.id}| == |message| {
        HoldsAssembles(current, message, ids + {e.id}, start);
      }
    }
  }

  lemma HoldsCount(base: Pending, current: Pending, message: seq<bytes>, ids: set<byte>, id: byte, start: int)
    requires Holds(base, message, ids, start) && Holds(current, message, ids + {id}, start)
    ensures current.count == |ids + {id}| && base.total == |message|
  {
  }

  lemma IdsGrow(events: seq<Event>, key: nat, k: nat)
    requires k < |events|
    ensures Ids(events[..k + 1], key) == Ids(events[..k], key) + (if events[k].key == key then {events[k].id} else {})
  {
    assert events[..k + 1] == events[..k] + [events[k]];
  }

  lemma AfterOneMore(s: State, events: seq<Event>, k: nat, retention: int)
    requires Shaped(s) && 0 < k <= |events|
    ensures Shaped(After(s, events[..k - 1], retention)) && Shaped(After(s, events[..k], retention))
    ensures After(s, events[..k], retention) == Step(After(s, events[..k - 1], retention), events[k - 1], retention).0
  {
    hide Step, Shaped;
    assert events[..k][..k - 1] == events[..k - 1] && events[..k][k - 1] == events[k - 1];
  }

  lemma OneOfThem(events: seq<Event>, key: nat, message: seq<bytes>, start: int, retention: int, k: nat)
    requires Carries(events, key, message) && Within(events, start, retention) && k < |events|
    ensures Carries([events[k]], key, message) && Within([events[k]], start, retention)
  {
    assert events[k] in events;
  }

  lemma ProgressStep(s: State, e: Event, key: nat, message: seq<bytes>, ids: set<byte>, start: int, retention: int)
    requires Carries([e], key, message) && Within([e], start, retention) && NoneEmpty(message)
    requires Shaped(s) && Progress(s, key, message, ids, start, retention)
    ensures Progress(Step(s, e, retention).0, key, message, ids + (if e.key == key then {e.id} else {}), start, retention)
  {
    hide Progress, Step, Shaped;
    assert e in [e];
    if e.key == key {
      OwnFragment(s, e, message, ids, start, retention);
    } else {
      OtherKeyKeepsProgress(s, e, key, message, ids, start, retention);
      assert ids + {} == ids;
    }
  }

  lemma NoneCarried(events: seq<Event>, key: nat, message: seq<bytes>)
    requires Carries(events, key, message)
    ensures Carries([], key, message)
  {
  }

  lemma NothingDelivered(s: State, key: nat, message: seq<bytes>, start: int, retention: int)
    requires Shaped(s) && Clear(s, key, start) && Carries([], key, message)
    ensures Progress(After(s, [], retention), key, message, Ids([], key), start, retention)
  {
  }

  lemma {:induction false} RunProgress(s: State, events: seq<Event>, key: nat, message: seq<bytes>, start: int,
                                       retention: int, k: nat)
    requires Shaped(s) && Clear(s, key, start) && k <= |events|
    requires Carries(events, key, message) && Within(events, start, retention) && NoneEmpty(message)
    ensures Progress(After(s, events[..k], retention), key, message, Ids(events[..k], key), start, retention)
  {
    hide Progress, Step, Ids, After, Shaped, Clear, NoneEmpty, Within, Carries;
    if k == 0 {
      assert Carries([], key, message) by { NoneCarried(events, key, message); }
      NothingDelivered(s, key, message, start, retention);
      assert events[..0] == [];
    } else {
      RunProgress(s, events, key, message, start, retention, k - 1);
      AfterOneMore(s, events, k, retention);
      OneOfThem(events, key, message, start, retention, k - 1);
      IdsGrow(events, key, k - 1);
      ProgressStep(After(s, events[..k - 1], retention), events[k - 1], key, message, Ids(events[..k - 1], key), start,
                   retention);
    }
  }

  /** The fragments of a message of 2 to 255 non-empty fragments, delivered in any order and any number of
      times, among anything else, within one retention time: the call that delivers the last missing one
      returns the whole payload, every later one says it was complete before, every earlier one waits. */
  lemma ReassemblyIsExactlyOnce(s: State, events: seq<Event>, key: nat, message: seq<bytes>, start: int, retention: int,
                                k: nat)
    requires Shaped(s) && Clear(s, key, start) && k < |events| && events[k].key == key
    requires Carries(events, key, message) && Within(events, start, retention) && NoneEmpty(message)
    ensures Step(After(s, events[..k], retention), events[k], retention).1
         == Answer(message, Ids(events[..k], key), events[k].id)
  {
    hide Progress, Step, Ids;
    RunProgress(s, events, key, message, start, retention, k);
    assert events[k] in events;
    OwnFragment(After(s, events[..k], retention), events[k], message, Ids(events[..k], key), start, retention);
  }

  /** The chunk of an empty fragment never fills, so such a message is never returned. */
  ghost predicate Blocked(s: State, key: nat, n: nat, hole: nat) {
    && Shaped(s) && hole < 256
    && (key in s.items && s.items[key].total == n ==> s.items[key].chunks[hole].None?)
  }

  lemma {:induction false} HoleBlocks(chunks: seq<Option<bytes>>, hole: nat, n: nat)
    requires hole < n <= |chunks| && chunks[hole].None?
    ensures Assembled(chunks, n).None?
  {
    if n - 1 > hole { HoleBlocks(chunks, hole, n - 1); }
  }

  lemma BlockedStep(s: State, e: Event, key: nat, message: seq<bytes>, hole: nat, retention: int)
    requires 2 <= |message| <= 255 && hole < |message| && message[hole] == []
    requires Blocked(s, key, |message|, hole)
    requires e.key == key ==> e.total == |message| && e.id < |message| && e.payload == message[e.id]
    ensures Blocked(Step(s, e, retention).0, key, |message|, hole)
    ensures e.key == key ==> !Step(s, e, retention).1.ready
  {
    hide Assembled;
    StepShaped(s, e, retention);
    if e.key == key {
      var s1 := MaybePurged(s, e.now, retention);
      var base := if key in s1.items && s1.items[key].total == |message| then s1.items[key]
                  else Pending(e.now, |message|, NoChunks(), 0);
      HoleBlocks(WithFragment(base, e.id, e.payload).chunks, hole, |message|);
    }
  }

  lemma {:induction false} EmptyFragmentBlocks(s: State, events: seq<Event>, key: nat, message: seq<bytes>, hole: nat,
                                               start: int, retention: int, k: nat)
    requires Shaped(s) && Clear(s, key, start) && k < |events| && events[k].key == key
    requires Carries(events, key, message) && hole < |message| && message[hole] == []
    ensures !Step(After(s, events[..k], retention), events[k], retention).1.ready
  {
    hide Step;
    BlockedRun(s, events, key, message, hole, start, retention, k);
    assert events[k] in events;
    BlockedStep(After(s, events[..k], retention), events[k], key, message, hole, retention);
  }

  lemma {:induction false} BlockedRun(s: State, events: seq<Event>, key: nat, message: seq<bytes>, hole: nat,
      start: int, retention: int, k: nat)
    requires Shaped(s) && Clear(s, key, start) && k <= |events|
    requires Carries(events, key, message) && hole < |message| && message[hole] == []
    ensures Blocked(After(s, events[..k], retention), key, |message|, hole)
  {
    if k == 0 {
      assert events[..0] == [];
    } else {
      hide Step;
      BlockedRun(s, events, key, message, hole, start, retention, k - 1);
      assert events[..k][..k - 1] == events[..k - 1] && events[..k][k - 1] == events[k - 1];
      assert events[k - 1] in events;
      BlockedStep(After(s, events[..k - 1], retention), events[k - 1], key, message, hole, retention);
    }
  }

  /** So a message whose fragments all arrive is returned exactly when none of them is empty. */
  lemma ReturnedIffNoneEmpty(s: State, events: seq<Event>, key: nat, message: seq<bytes>, start: int, retention: int,
      k: nat)
    requires Shaped(s) && Clear(s, key, start) && k < |events| && events[k].key == key
    requires Carries(events, key, message) && Within(events, start, retention)
    requires |Ids(events[..k], key)| < |message| == |Ids(events[..k + 1], key)|
    ensures Step(After(s, events[..k], retention), events[k], retention).1.ready <==> NoneEmpty(message)
  {
    hide Step, Ids, Progress;
    if NoneEmpty(message) {
      ReassemblyIsExactlyOnce(s, events, key, message, start, retention, k);
      IdsGrow(events, key, k);
    } else {
      var hole :| 0 <= hole < |message| && message[hole] == [];
      EmptyFragmentBlocks(s, events, key, message, hole, start, retention, k);
    }
  }
}
