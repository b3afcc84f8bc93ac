/** The per-stream transmit policy on top of the level queue: which packets may be queued together, which
    replace each other, and the count of packable control packets. The queue underneath keeps its own
    order; the policy decides what enters it. */
module TransmitPolicy {
  import opened Words
  import opened LevelQueue

  const PING := 0x07
  const DATA := 0x0F
  const DATA_NACK := 0x11
  const RESEND := 0x12

  datatype TxPacket = TxPacket(packetType: byte, sequenceNum: uint16, fragmentID: byte, payload: bytes)

  /** Terminal and result packets: identity is stream, type and sequence. */
  predicate SequenceOnly(t: byte) {
    t == 0x07 || t == 0x08 || 0x0B <= t <= 0x0E || 0x13 <= t <= 0x19 || 0x1C <= t <= 0x31 || t == 0xFF
  }

  /** Session control packets: identity is stream and type. */
  predicate TypeOnly(t: byte) {
    t == 0x36 || t == 0x37
  }

  /** The queue key of a packet: stream, type, sequence and fragment in disjoint bit fields. */
  function IdentityKey(streamID: uint16, t: byte, sn: uint16, fragment: byte): nat {
    var base := streamID * 0x100_0000_0000 + t * 0x1_0000_0000;
    if TypeOnly(t) then base
    else if SequenceOnly(t) then base + sn * 0x100
    else base + sn * 0x100 + fragment
  }

  /** Control packets without payload that can be packed into one block. */
  predicate Packable(t: byte, payloadLen: nat) {
    payloadLen == 0
    && (t == 0x0A || 0x0B <= t <= 0x0E || t == 0x10 || t == 0x11 || t == 0x15 || t == 0x17 || t == 0x19
        || t == 0x1B || 0x1C <= t <= 0x31 || t == 0x34 || t == 0x35)
  }

  /** The tables of packet types: terminal and result packets and their acknowledgments, ping, pong, packed blocks and
      error drops are told apart by their number, the two session packets by nothing. */
  lemma KeyedByNumber(t: byte)
    ensures SequenceOnly(t) <==> t in {
      0x07, 0x08, 0x0B, 0x0C, 0x0D, 0x0E, 0x13, 0x14, 0x15, 0x16, 0x17, 0x18, 0x19, 0x1C, 0x1D, 0x1E, 0x1F, 0x20,
      0x21, 0x22, 0x23, 0x24, 0x25, 0x26, 0x27, 0x28, 0x29, 0x2A, 0x2B, 0x2C, 0x2D, 0x2E, 0x2F, 0x30, 0x31, 0xFF}
    ensures TypeOnly(t) <==> t in {0x36, 0x37}
  {
  }

  /** The packets that can be packed together carry no payload. */
  lemma PackableTypes(t: byte, payloadLen: nat)
    ensures Packable(t, payloadLen) <==> payloadLen == 0 && t in {
      0x0A, 0x0B, 0x0C, 0x0D, 0x0E, 0x10, 0x11, 0x15, 0x17, 0x19, 0x1B, 0x1C, 0x1D, 0x1E, 0x1F, 0x20, 0x21, 0x22,
      0x23, 0x24, 0x25, 0x26, 0x27, 0x28, 0x29, 0x2A, 0x2B, 0x2C, 0x2D, 0x2E, 0x2F, 0x30, 0x31, 0x34, 0x35}
  {
  }

  /** Keys of DATA and RESEND packets determine type, sequence and fragment. */
  lemma DataKeysAreExact(streamID: uint16, t: byte, sn: uint16, f: byte, t': byte, sn': uint16, f': byte)
    requires t == DATA || t == RESEND
    ensures IdentityKey(streamID, t, sn, f) == IdentityKey(streamID, t', sn', f') <==> t == t' && sn == sn' && f == f'
  {
  }

  /** Two packets share a key exactly when they agree in stream and type, in the number unless the type alone is the
      identity, and in the fragment when the number alone is not. */
  lemma KeysAgreeIff(streamID: uint16, t: byte, sn: uint16, f: byte, streamID': uint16, t': byte, sn': uint16, f': byte)
    ensures IdentityKey(streamID, t, sn, f) == IdentityKey(streamID', t', sn', f') <==>
      && streamID == streamID' && t == t' && (TypeOnly(t) || sn == sn') && (TypeOnly(t) || SequenceOnly(t) || f == f')
  {
    var low := if TypeOnly(t) then 0 else sn * 0x100 + if SequenceOnly(t) then 0 else f;
    var low' := if TypeOnly(t') then 0 else sn' * 0x100 + if SequenceOnly(t') then 0 else f';
    assert IdentityKey(streamID, t, sn, f) == Fields(Fields(streamID, 0x100, t), 0x1_0000_0000, low);
    assert IdentityKey(streamID', t', sn', f') == Fields(Fields(streamID', 0x100, t'), 0x1_0000_0000, low');
    hide IdentityKey;
    FieldsApart(Fields(streamID, 0x100, t), Fields(streamID', 0x100, t'), 0x1_0000_0000, low, low');
    FieldsApart(streamID, streamID', 0x100, t, t');
  }

  /** A value with another below it. */
  function Fields(high: nat, size: nat, low: nat): nat {
    high * size + low
  }

  lemma FieldsApart(high: nat, high': nat, size: nat, low: nat, low': nat)
    requires low < size && low' < size
    ensures Fields(high, size, low) == Fields(high', size, low') <==> high == high' && low == low'
  {
    if high < high' {
      assert (high + 1) * size <= high' * size by { Multiples(high + 1, high', size); }
    } else if high' < high {
      assert (high' + 1) * size <= high * size by { Multiples(high' + 1, high, size); }
    }
  }

  lemma Multiples(a: nat, b: nat, size: nat)
    requires a <= b
    ensures a * size <= b * size
  {
  }

  /** So negative acknowledgments of different numbers, and results for different streams, are queued side by side. */
  lemma NacksAreApart(streamID: uint16, sn: uint16, f: byte, sn': uint16, f': byte)
    ensures IdentityKey(streamID, DATA_NACK, sn, f) == IdentityKey(streamID, DATA_NACK, sn', f') <==> sn == sn' && f == f'
  {
    KeysAgreeIff(streamID, DATA_NACK, sn, f, streamID, DATA_NACK, sn', f');
  }

  function KeyOf(streamID: uint16, p: TxPacket): nat {
    IdentityKey(streamID, p.packetType, p.sequenceNum, p.fragmentID)
  }

  function Controls(list: seq<Entry<TxPacket>>): nat {
    if list == [] then 0
    else (if Packable(list[0].item.packetType, |list[0].item.payload|) then 1 else 0) + Controls(list[1..])
  }

  function WithoutKey(list: seq<Entry<TxPacket>>, key: nat): seq<Entry<TxPacket>> {
    if list == [] then [] else (if list[0].key == key then [] else [list[0]]) + WithoutKey(list[1..], key)
  }

  ghost predicate Queued(list: seq<Entry<TxPacket>>, key: nat) {
    exists i :: 0 <= i < |list| && list[i].key == key
  }

  ghost predicate KeysHold(list: seq<Entry<TxPacket>>, streamID: uint16) {
    forall e :: e in list ==> e.key == KeyOf(streamID, e.item)
  }

  /** DATA and RESEND of the same sequence and fragment are never queued together. */
  ghost predicate NoTwins(list: seq<Entry<TxPacket>>) {
    forall e, f :: e in list && f in list && e.item.packetType == DATA && f.item.packetType == RESEND ==>
      e.item.sequenceNum != f.item.sequenceNum || e.item.fragmentID != f.item.fragmentID
  }

  ghost predicate PolicyHolds(list: seq<Entry<TxPacket>>, streamID: uint16, controlCount: nat) {
    && KeysHold(list, streamID) && NoTwins(list)
    && |KeySet(list)| == |list|
    && controlCount == Controls(list)
  }

  lemma {:induction false} ControlsConcat(a: seq<Entry<TxPacket>>, b: seq<Entry<TxPacket>>)
    ensures Controls(a + b) == Controls(a) + Controls(b)
  {
    if a == [] {
      assert a + b == b;
    } else {
      assert (a + b)[1..] == a[1..] + b;
      ControlsConcat(a[1..], b);
    }
  }

  lemma ControlsWithout(list: seq<Entry<TxPacket>>, i: nat)
    requires i < |list|
    ensures Controls(list) == Controls(Without(list, i)) + Controls([list[i]])
  {
    hide Controls;
    var a, e, b := list[..i], list[i], list[i + 1..];
    assert list == a + ([e] + b);
    ControlsConcat(a, [e] + b);
    ControlsConcat([e], b);
    ControlsConcat(a, b);
  }

  lemma {:induction false} InsertedMembers(list: seq<Entry<TxPacket>>, e: Entry<TxPacket>)
    ensures forall x :: x in Inserted(list, e) <==> x in list || x == e
    ensures Controls(Inserted(list, e)) == Controls(list) + Controls([e])
  {
    if list == [] || list[0].priority > e.priority {
      ControlsConcat([e], list);
    } else {
      InsertedMembers(list[1..], e);
      var rest := Inserted(list[1..], e);
      ControlsConcat([list[0]], rest);
      assert list == [list[0]] + list[1..];
    }
  }

  lemma {:induction false} AbsentKey(list: seq<Entry<TxPacket>>, key: nat)
    requires !Queued(list, key)
    ensures WithoutKey(list, key) == list
  {
    if list != [] {
      assert forall i :: 0 <= i < |list[1..]| ==> list[1..][i] == list[i + 1];
      AbsentKey(list[1..], key);
    }
  }

  lemma RestLacksKey(a: seq<Entry<TxPacket>>, e: Entry<TxPacket>, b: seq<Entry<TxPacket>>)
    requires |KeySet(a + [e] + b)| == |a + [e] + b|
    ensures !Queued(a + b, e.key) && |KeySet(a + b)| == |a + b|
  {
    KeySetWithOne(a, b, e);
    forall k | 0 <= k < |a + b| ensures (a + b)[k].key != e.key {
      assert (a + b)[k] in a + b;
    }
    KeySetIsSmall(a + b);
  }

  /** With distinct keys, dropping the entry found under a key is filtering the key out. */
  lemma TakenIsFiltered(list: seq<Entry<TxPacket>>, i: nat, key: nat)
    requires |KeySet(list)| == |list| && i < |list| && list[i].key == key
    ensures Without(list, i) == WithoutKey(list, key) && !Queued(Without(list, i), key)
    ensures |KeySet(Without(list, i))| == |Without(list, i)|
  {
    hide KeySet, Queued, WithoutKey;
    var a, e, b := list[..i], list[i], list[i + 1..];
    SplitAround(list, i);
    RestLacksKey(a, e, b);
    AbsentKey(a + b, key);
    FilterAround(a, e, b, key);
  }

  lemma SplitAround(list: seq<Entry<TxPacket>>, i: nat)
    requires i < |list|
    ensures list == list[..i] + [list[i]] + list[i + 1..]
  {
  }

  lemma FilterAround(a: seq<Entry<TxPacket>>, e: Entry<TxPacket>, b: seq<Entry<TxPacket>>, key: nat)
    requires e.key == key
    ensures WithoutKey(a + [e] + b, key) == WithoutKey(a + b, key)
  {
    FilterConcat(a + [e], b, key);
    FilterConcat(a, [e], key);
    FilterConcat(a, b, key);
    assert WithoutKey([e], key) == [];
  }

  lemma {:induction false} FilterConcat(a: seq<Entry<TxPacket>>, b: seq<Entry<TxPacket>>, key: nat)
    ensures WithoutKey(a + b, key) == WithoutKey(a, key) + WithoutKey(b, key)
  {
    if a == [] {
      assert a + b == b;
    } else {
      assert (a + b)[1..] == a[1..] + b;
      FilterConcat(a[1..], b, key);
    }
  }

  /** A packet is refused when it is a ping on a congested queue, when its own key is queued, or when it is a
      DATA packet whose RESEND is queued. */
  ghost predicate Refused(list: seq<Entry<TxPacket>>, streamID: uint16, p: TxPacket) {
    || (p.packetType == PING && |list| > 500)
    || Queued(list, KeyOf(streamID, p))
    || (p.packetType == DATA && Queued(list, IdentityKey(streamID, RESEND, p.sequenceNum, p.fragmentID)))
  }

  /** The list after a packet was admitted: a RESEND supersedes the queued DATA. */
  function Admitted(list: seq<Entry<TxPacket>>, streamID: uint16, priority: nat, p: TxPacket): seq<Entry<TxPacket>> {
    var inserted := Inserted(list, Entry(priority, KeyOf(streamID, p), p));
    if p.packetType == RESEND
    then WithoutKey(inserted, IdentityKey(streamID, DATA, p.sequenceNum, p.fragmentID))
    else inserted
  }

  lemma RemovalKeepsPolicy(list: seq<Entry<TxPacket>>, list': seq<Entry<TxPacket>>, i: nat, streamID: uint16, n: nat)
    requires PolicyHolds(list, streamID, n) && i < |list| && list' == Without(list, i)
    ensures Controls([list[i]]) <= n && PolicyHolds(list', streamID, n - Controls([list[i]]))
    ensures list' == WithoutKey(list, list[i].key)
  {
    hide Controls, KeySet;
    TakenIsFiltered(list, i, list[i].key);
    ControlsWithout(list, i);
  }

  lemma InsertionKeepsPolicy(list: seq<Entry<TxPacket>>, streamID: uint16, n: nat, priority: nat, p: TxPacket)
    requires PolicyHolds(list, streamID, n) && p.packetType != RESEND && !Refused(list, streamID, p)
    requires var list' := Inserted(list, Entry(priority, KeyOf(streamID, p), p)); |KeySet(list')| == |list'|
    ensures var e := Entry(priority, KeyOf(streamID, p), p);
      PolicyHolds(Inserted(list, e), streamID, n + Controls([e]))
  {
    var e := Entry(priority, KeyOf(streamID, p), p);
    hide Inserted, Controls, KeySet, IdentityKey;
    InsertedMembers(list, e);
    if p.packetType == DATA {
      forall f | f in list && f.item.packetType == RESEND
        ensures f.item.sequenceNum != p.sequenceNum || f.item.fragmentID != p.fragmentID
      {
        var i :| 0 <= i < |list| && list[i] == f;
        assert list[i].key != IdentityKey(streamID, RESEND, p.sequenceNum, p.fragmentID);
      }
    }
  }

  /** After a RESEND is in and the DATA of the same packet is out, no twins are left. */
  lemma ResendKeepsPolicy(list: seq<Entry<TxPacket>>, list': seq<Entry<TxPacket>>, streamID: uint16, n: nat,
      priority: nat, p: TxPacket)
    requires PolicyHolds(list, streamID, n) && p.packetType == RESEND
    requires var e := Entry(priority, KeyOf(streamID, p), p);
      && (forall x :: x in list' ==> x in list || x == e) && |KeySet(list')| == |list'|
      && !Queued(list', IdentityKey(streamID, DATA, p.sequenceNum, p.fragmentID))
    ensures PolicyHolds(list', streamID, Controls(list'))
  {
    hide Controls, KeySet, IdentityKey;
    var e := Entry(priority, KeyOf(streamID, p), p);
    forall d | d in list' && d.item.packetType == DATA
      ensures d.item.sequenceNum != p.sequenceNum || d.item.fragmentID != p.fragmentID
    {
      var i :| 0 <= i < |list'| && list'[i] == d;
      assert list'[i].key != IdentityKey(streamID, DATA, p.sequenceNum, p.fragmentID);
    }
  }

  class Stream {
    const streamID: uint16
    const txQueue: MultiLevelQueue<TxPacket>
    var controlCount: nat

    ghost predicate Valid()
      reads this, txQueue
    {
      txQueue.Valid() && PolicyHolds(txQueue.List(), streamID, controlCount)
    }

    constructor (id: uint16)
      ensures Valid() && fresh(txQueue) && streamID == id && txQueue.List() == []
    {
      streamID := id;
      txQueue := new MultiLevelQueue<TxPacket>();
      controlCount := 0;
    }

    /** Queues a packet unless it is refused; a RESEND replaces the DATA of the same packet. The priority is
        already normalized to the six levels. */
    method PushTXPacket(priority: nat, p: TxPacket) returns (ok: bool)
      requires Valid() && priority < LEVELS
      modifies this, txQueue
      ensures Valid()
      ensures ok <==> !Refused(old(txQueue.List()), streamID, p)
      ensures txQueue.List() == if ok then Admitted(old(txQueue.List()), streamID, priority, p) else old(txQueue.List())
    {
      hide Controls, KeySet, IdentityKey, WithoutKey, Inserted, PolicyHolds;
      var dataKey := IdentityKey(streamID, DATA, p.sequenceNum, p.fragmentID);
      var resendKey := IdentityKey(streamID, RESEND, p.sequenceNum, p.fragmentID);
      var key := KeyOf(streamID, p);
      var _, size := txQueue.Size();
      if p.packetType == PING && size > 500 {
        return false;
      }
      if p.packetType == DATA {
        var queuedData := txQueue.Get(dataKey);
        if queuedData.Some? {
          return false;
        }
        var queuedResend := txQueue.Get(resendKey);
        if queuedResend.Some? {
          return false;
        }
      }
      ok := txQueue.Push(priority, key, p);
      if !ok {
        return;
      }
      ghost var e, list, inserted := Entry(priority, key, p), old(txQueue.List()), txQueue.List();
      PushedKeys(txQueue);
      if p.packetType != RESEND {
        InsertionKeepsPolicy(list, streamID, controlCount, priority, p);
        OneControl(e);
        if Packable(p.packetType, |p.payload|) {
          controlCount := controlCount + 1;
        }
        return;
      }
      InsertedMembers(list, e);
      var stale := txQueue.RemoveByKey(dataKey);
      PushedKeys(txQueue);
      ResendSettles(list, txQueue.List(), streamID, controlCount, priority, p);
    }

    /** Takes the head of the queue and uncounts it. */
    method PopNextTXPacket() returns (r: Option<(TxPacket, nat)>)
      requires Valid()
      modifies this, txQueue
      ensures Valid()
      ensures r.None? <==> old(txQueue.List()) == []
      ensures r.None? ==> txQueue.List() == []
      ensures r.Some? ==>
        && r.value == (old(txQueue.List())[0].item, old(txQueue.List())[0].priority)
        && txQueue.List() == old(txQueue.List())[1..]
    {
      hide Controls, KeySet, IdentityKey, WithoutKey, PolicyHolds;
      ghost var list := txQueue.List();
      r := txQueue.Pop();
      match r
      case None => NothingQueued(streamID);
      case Some((p, _)) =>
        assert Without(list, 0) == list[1..];
        RemovalKeepsPolicy(list, txQueue.List(), 0, streamID, controlCount);
        OneControl(list[0]);
        if Packable(p.packetType, |p.payload|) {
          controlCount := controlCount - 1;
        }
    }

    /** Drops the packet under a key, if any, and uncounts it. */
    method RemoveQueued(key: nat) returns (removed: bool)
      requires Valid()
      modifies this, txQueue
      ensures Valid()
      ensures removed <==> Queued(old(txQueue.List()), key)
      ensures txQueue.List() == WithoutKey(old(txQueue.List()), key)
    {
      hide Controls, KeySet, IdentityKey, WithoutKey, PolicyHolds;
      ghost var list := txQueue.List();
      var r := txQueue.RemoveByKey(key);
      removed := r.Some?;
      if removed {
        TakenKeepsPolicy(list, txQueue.List(), streamID, controlCount, key, r.value);
        if Packable(r.value.packetType, |r.value.payload|) {
          controlCount := controlCount - 1;
        }
      } else {
        AbsentKey(list, key);
      }
    }

    /** An acknowledged chunk leaves the queue in both of its forms. */
    method RemoveQueuedData(sn: uint16) returns (removedAny: bool)
      requires Valid()
      modifies this, txQueue
      ensures Valid()
      ensures txQueue.List() == WithoutKey(WithoutKey(old(txQueue.List()), IdentityKey(streamID, DATA, sn, 0)),
                                           IdentityKey(streamID, RESEND, sn, 0))
      ensures forall e :: e in txQueue.List() && (e.item.packetType == DATA || e.item.packetType == RESEND) ==>
        e.item.sequenceNum != sn || e.item.fragmentID != 0
    {
      hide Controls, KeySet, IdentityKey, WithoutKey, PolicyHolds;
      var data := RemoveQueued(IdentityKey(streamID, DATA, sn, 0));
      ghost var between := txQueue.List();
      var resend := RemoveQueued(IdentityKey(streamID, RESEND, sn, 0));
      removedAny := data || resend;
      FilteredLacks(old(txQueue.List()), IdentityKey(streamID, DATA, sn, 0));
      FilteredLacks(between, IdentityKey(streamID, RESEND, sn, 0));
      KeysOf(txQueue.List(), streamID, controlCount);
    }

    method RemoveQueuedDataNack(sn: uint16) returns (removed: bool)
      requires Valid()
      modifies this, txQueue
      ensures Valid()
      ensures removed <==> Queued(old(txQueue.List()), IdentityKey(streamID, DATA_NACK, sn, 0))
      ensures txQueue.List() == WithoutKey(old(txQueue.List()), IdentityKey(streamID, DATA_NACK, sn, 0))
    {
      removed := RemoveQueued(IdentityKey(streamID, DATA_NACK, sn, 0));
    }
  }

  lemma TakenKeepsPolicy(list: seq<Entry<TxPacket>>, list': seq<Entry<TxPacket>>, streamID: uint16, n: nat, key: nat,
                         item: TxPacket)
    requires PolicyHolds(list, streamID, n)
    requires exists i: nat :: TakenAt(list, list', i, item) && list[i].key == key
    ensures var one := if Packable(item.packetType, |item.payload|) then 1 else 0;
      one <= n && PolicyHolds(list', streamID, n - one)
    ensures list' == WithoutKey(list, key) && Queued(list, key)
  {
    hide Controls, KeySet, WithoutKey, PolicyHolds;
    var i: nat :| TakenAt(list, list', i, item) && list[i].key == key;
    RemovalKeepsPolicy(list, list', i, streamID, n);
    OneControl(list[i]);
  }

  lemma NothingQueued(streamID: uint16)
    ensures forall n :: PolicyHolds([], streamID, n) <==> n == 0
  {
    assert KeySet<TxPacket>([]) == {};
  }

  lemma KeysOf(list: seq<Entry<TxPacket>>, streamID: uint16, n: nat)
    requires PolicyHolds(list, streamID, n)
    ensures forall e :: e in list ==> e.key == KeyOf(streamID, e.item)
  {
  }

  lemma {:induction false} FilteredLacks(list: seq<Entry<TxPacket>>, key: nat)
    ensures forall e :: e in WithoutKey(list, key) <==> e in list && e.key != key
  {
    if list != [] {
      FilteredLacks(list[1..], key);
      assert list == [list[0]] + list[1..];
    }
  }

  lemma PushedKeys(q: MultiLevelQueue<TxPacket>)
    requires q.Valid()
    ensures |KeySet(q.List())| == |q.List()|
  {
  }

  lemma OneControl(e: Entry<TxPacket>)
    ensures Controls([e]) == if Packable(e.item.packetType, |e.item.payload|) then 1 else 0
  {
    assert Controls([e]) == (if Packable(e.item.packetType, |e.item.payload|) then 1 else 0) + Controls([]);
  }

  /** The state after the removal that follows an admitted RESEND, whether or not a DATA was there. */
  lemma ResendSettles(list: seq<Entry<TxPacket>>, list': seq<Entry<TxPacket>>, streamID: uint16, n: nat, priority: nat,
                      p: TxPacket)
    requires PolicyHolds(list, streamID, n) && p.packetType == RESEND
    requires var inserted := Inserted(list, Entry(priority, KeyOf(streamID, p), p));
      var dataKey := IdentityKey(streamID, DATA, p.sequenceNum, p.fragmentID);
      && |KeySet(inserted)| == |inserted|
      && ((!Queued(inserted, dataKey) && list' == inserted)
          || (exists i: nat :: i < |inserted| && inserted[i].key == dataKey && list' == Without(inserted, i)))
    ensures list' == Admitted(list, streamID, priority, p)
    ensures PolicyHolds(list', streamID, n)
  {
    hide Inserted, KeySet, IdentityKey, WithoutKey;
    var e := Entry(priority, KeyOf(streamID, p), p);
    var inserted := Inserted(list, e);
    var dataKey := IdentityKey(streamID, DATA, p.sequenceNum, p.fragmentID);
    InsertedMembers(list, e);
    OneControl(e);
    if !Queued(inserted, dataKey) {
      AbsentKey(inserted, dataKey);
    } else {
      var i: nat :| i < |inserted| && inserted[i].key == dataKey && list' == Without(inserted, i);
      TakenIsFiltered(inserted, i, dataKey);
      ControlsWithout(inserted, i);
      OneControl(inserted[i]);
      DataKeysAreExact(streamID, DATA, p.sequenceNum, p.fragmentID, inserted[i].item.packetType,
                       inserted[i].item.sequenceNum, inserted[i].item.fragmentID);
      assert inserted[i] in inserted;
    }
    ResendKeepsPolicy(list, list', streamID, n, priority, p);
  }
}
