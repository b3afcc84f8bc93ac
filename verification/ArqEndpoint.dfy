/** The data plane of one ARQ endpoint, updated in place. */
module ArqEndpoint {
  // Each method is tied to the functions of ArqWindow that the protocol proof uses.

  import opened Words
  import opened ArqWindow
  import P = ArqProtocol

  class Endpoint {
    const cfg: Config
    var sndNxt: uint16
    var rcvNxt: uint16
    var sndBuf: map<uint16, bytes>
    var rcvBuf: map<uint16, bytes>
    var localWritePending: bool
    var localWriterBroken: bool
    var closeWriteSent: bool
    var closeWriteAcked: bool

    function Out(): Sender
      reads this
    {
      Sender(sndNxt, sndBuf)
    }

    function In(): Receiver
      reads this
    {
      Receiver(rcvNxt, rcvBuf)
    }

    constructor (windowSetting: int)
      ensures cfg == NewConfig(windowSetting)
      ensures Out() == Sender(0, map[]) && In() == Receiver(0, map[])
      ensures !localWritePending && !localWriterBroken && !closeWriteSent && !closeWriteAcked
    {
      cfg := NewConfig(windowSetting);
      sndNxt, rcvNxt, sndBuf, rcvBuf := 0, 0, map[], map[];
      localWritePending, localWriterBroken, closeWriteSent, closeWriteAcked := false, false, false, false;
    }

    /** The append of the io loop: returns the number under which the chunk is sent. */
    method AppendRead(raw: bytes) returns (sn: uint16)
      modifies this`sndNxt, this`sndBuf
      ensures sn == old(sndNxt)
      ensures sndNxt == (old(sndNxt) + 1) % 65536 && sndBuf == old(sndBuf)[old(sndNxt) := raw]
      ensures Out() == Append(old(Out()), raw)
    {
      sn := sndNxt;
      sndNxt := Add16(sndNxt, 1);
      sndBuf := sndBuf[sn := raw];
    }

    /** Inbound data: returns whether an acknowledgment for sn goes out. */
    method ProcessReceivedData(sn: uint16, data: bytes) returns (ack: bool)
      modifies this`rcvBuf
      ensures localWriterBroken || closeWriteSent || closeWriteAcked ==> !ack && In() == old(In())
      ensures rcvNxt == old(rcvNxt) && (sn in old(rcvBuf) ==> rcvBuf == old(rcvBuf))
      ensures sn !in old(rcvBuf) ==> rcvBuf == old(rcvBuf) || (ack && rcvBuf == old(rcvBuf)[sn := data])
      ensures !(localWriterBroken || closeWriteSent || closeWriteAcked) ==>
        && ack == Classify(old(In()), cfg.receiveWindow, sn).Acknowledged()
        && In() == Received(old(In()), cfg.receiveWindow, sn, data)
    {
      if localWriterBroken || closeWriteSent || closeWriteAcked {
        return false;
      }
      var diff := Sub16(sn, rcvNxt);
      if diff >= 32768 {
        return true;
      }
      if diff > cfg.receiveWindow {
        return false;
      }
      var exists_ := sn in rcvBuf;
      if !exists_ && |rcvBuf| >= cfg.receiveWindow && sn != rcvNxt {
        return false;
      }
      if !exists_ {
        rcvBuf := rcvBuf[sn := data];
      }
      return true;
    }

    /** The drain of the write loop. */
    method DrainContiguous() returns (toWrite: seq<bytes>)
      modifies this`rcvNxt, this`rcvBuf, this`localWritePending
      ensures In() == Drained(old(In())).0 && toWrite == Drained(old(In())).1
      ensures localWritePending == (toWrite != [])
    {
      toWrite := [];
      while rcvNxt in rcvBuf
        invariant Drained(old(In())).0 == Drained(In()).0
        invariant Drained(old(In())).1 == toWrite + Drained(In()).1
        decreases |rcvBuf|
      {
        ghost var before := In();
        toWrite := toWrite + [rcvBuf[rcvNxt]];
        rcvBuf := rcvBuf - {rcvNxt};
        assert |rcvBuf| == |before.rcvBuf| - 1 by { assert rcvBuf.Keys == before.rcvBuf.Keys - {rcvNxt}; }
        rcvNxt := Add16(rcvNxt, 1);
        assert Drained(before) == (Drained(In()).0, [before.rcvBuf[before.rcvNxt]] + Drained(In()).1);
      }
      localWritePending := toWrite != [];
    }

    /** The coalescing of several chunks into the one slice handed to the local writer. */
    method Coalesce(toWrite: seq<bytes>) returns (merged: bytes)
      ensures merged == Flatten(toWrite)
    {
      merged := [];
      for i := 0 to |toWrite|
        invariant merged == Flatten(toWrite[..i])
      {
        merged := merged + toWrite[i];
        assert toWrite[..i + 1] == toWrite[..i] + [toWrite[i]];
        FlattenConcat(toWrite[..i], [toWrite[i]]);
        assert Flatten([toWrite[i]]) == toWrite[i] + Flatten([]);
      }
      assert toWrite[..|toWrite|] == toWrite;
    }

    /** STREAM_DATA_ACK: frees the slot, and says whether the io loop may be woken. */
    method ReceiveAck(sn: uint16) returns (handled: bool, signalWindow: bool)
      modifies this`sndBuf
      ensures sn !in sndBuf && sndNxt == old(sndNxt)
      ensures forall other :: other != sn ==> (other in sndBuf <==> other in old(sndBuf))
      ensures forall other :: other in sndBuf ==> sndBuf[other] == old(sndBuf)[other]
      ensures Out() == Acked(old(Out()), sn)
      ensures handled == (sn in old(sndBuf))
      ensures signalWindow == (handled && |sndBuf| < cfg.limit)
    {
      handled, signalWindow := false, false;
      if sn in sndBuf {
        sndBuf := sndBuf - {sn};
        handled := true;
        signalWindow := |sndBuf| < cfg.limit;
      }
    }

    /** How many chunks the write loop could take now. The scan ends because the buffer, which
        WindowsStayBounded keeps below the whole number space, has a hole. */
    method ContiguousReady() returns (ready: nat)
      requires |rcvBuf| < M16
      ensures ready == |Drained(In()).1|
      ensures forall k: nat :: k < ready ==> Add16(rcvNxt, k) in rcvBuf
      ensures Add16(rcvNxt, ready) !in rcvBuf
    {
      ready := 0;
      var sn := rcvNxt;
      while sn in rcvBuf
        invariant sn == Add16(rcvNxt, ready)
        invariant ready <= |rcvBuf|
        invariant forall k: nat :: k < ready ==> Add16(rcvNxt, k) in rcvBuf
        decreases |rcvBuf| - ready
      {
        ready := ready + 1;
        sn := Add16(sn, 1);
        FirstSlotsFit(rcvNxt, ready, rcvBuf.Keys);
      }
      ReadyRunIsDrained(In(), ready);
    }
  }

  lemma FirstSlotsFit(from: uint16, n: nat, slots: set<uint16>)
    requires n <= M16
    requires forall k: nat :: k < n ==> Add16(from, k) in slots
    ensures n <= |slots|
  {
    forall i {:trigger Seq16(i)} | from <= i < from + n ensures Seq16(i) in slots {
      assert Seq16(i) == Add16(from, i - from);
    }
    P.DistinctSlots(from, from + n, slots);
  }

  lemma {:induction false} ReadyRunIsDrained(r: Receiver, n: nat)
    requires n < M16
    requires forall k: nat :: k < n ==> Add16(r.rcvNxt, k) in r.rcvBuf
    requires Add16(r.rcvNxt, n) !in r.rcvBuf
    ensures |Drained(r).1| == n
    decreases n
  {
    if n > 0 {
      assert Add16(r.rcvNxt, 0) == r.rcvNxt;
      var next := Receiver(Add16(r.rcvNxt, 1), r.rcvBuf - {r.rcvNxt});
      forall k: nat | k < n
        ensures Add16(next.rcvNxt, k) == Add16(r.rcvNxt, k + 1) && (k + 1 < n ==> Add16(next.rcvNxt, k) in next.rcvBuf)
      {
      }
      ReadyRunIsDrained(next, n - 1);
    }
  }
}
