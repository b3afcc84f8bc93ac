/** The graceful close: has a half-closed writer written everything? */
module ArqClose {
  // When the receiver half-closes its local writer after a CLOSE_READ, has it written everything the
  // sender read? Proved for every run, with the two interleavings of the lock-protected pieces that
  // break it and the exact conditions that exclude them.

  import opened Words
  import opened ArqWindow
  import opened ArqProtocol

  /** As long as nothing was aborted, every chunk read and not yet written is held by one end. */
  ghost predicate NothingLost(s: System) {
    && (forall i {:trigger Seq16(i)} :: |s.written| <= i < |s.input| ==>
      Seq16(i) in s.snd.sndBuf || Seq16(i) in s.rcv.rcvBuf)
    && (forall a :: a in s.acks ==> a.index < |s.input| && (a.index >= |s.written| ==> a.sn in s.rcv.rcvBuf))
  }

  /** A chunk was appended after the drain before CLOSE_READ had been found complete. */
  predicate LateRead(s: System) {
    (s.close.settled || s.close.closeReadSent) && s.close.settledAt < |s.input|
  }

  /** Once the drain was found complete at most one more chunk is read, and only that one can be outstanding. */
  ghost predicate ClosingHolds(s: System) {
    var c := s.close;
    && (c.closeReadReceived ==> c.closeReadSent)
    && (c.deferredClose || c.settled || c.closeReadSent ==> c.stopLocalRead)
    && (c.settled || c.closeReadSent ==>
      && c.settledAt <= |s.input| <= c.settledAt + (if c.reading then 0 else 1)
      && s.snd.sndBuf.Keys <= (if LateRead(s) then {Seq16(c.settledAt)} else {})
      && (forall i {:trigger Seq16(i)} :: |s.written| <= i < c.settledAt ==> Seq16(i) in s.rcv.rcvBuf))
  }

  ghost predicate CloseInv(s: System) {
    && Inv(s)
    && (forall i :: 0 <= i < |s.input| ==> s.input[i] != [])
    && (!s.close.aborted ==> !s.close.writerGone && NothingLost(s) && ClosingHolds(s))
  }

  lemma CloseReadStep(s: System, chunk: bytes)
    requires CloseInv(s) && Enabled(s, ReadChunk(chunk))
    ensures CloseInv(AfterRead(s, chunk))
  {
    hide Seq16, Add16, NewestBelow, ReceiverHolds, WireHolds, AcksHold, SpanBounded, Inv;
    ReadKeeps(s, chunk);
    assert s.snd.sndNxt == Seq16(|s.input|) by { SenderNumber(s); }
  }

  lemma SenderNumber(s: System)
    requires Inv(s)
    ensures s.snd.sndNxt == Seq16(|s.input|)
  {
    hide Seq16, ReceiverHolds, WireHolds, AcksHold, SpanBounded;
  }

  lemma CloseDataStep(s: System, p: DataPacket)
    requires CloseInv(s) && p in s.wire && DataYoung(s, p)
    ensures CloseInv(AfterData(s, p))
  {
    hide Inv, Seq16, Sub16, NewestBelow, AtOrAfter;
    DataKeeps(s, p);
    VerdictIsRight(s, p);
    assert p.index < |s.input| by { PacketIsOld(s, p); }
  }

  lemma PacketIsOld(s: System, p: DataPacket)
    requires Inv(s) && p in s.wire
    ensures p.index < |s.input|
  {
    hide SenderHolds, ReceiverHolds, AcksHold, SpanBounded, Seq16;
  }

  lemma CloseAckStep(s: System, a: AckPacket)
    requires CloseInv(s) && Enabled(s, DeliverAck(a))
    ensures CloseInv(Apply(s, DeliverAck(a)))
  {
    hide Seq16, NewestBelow, ReceiverHolds, WireHolds, SenderHolds, SpanBounded;
    AckKeeps(s, a);
    if !s.close.aborted {
      forall i {:trigger Seq16(i)} | |s.written| <= i < |s.input| && Seq16(i) == a.sn
        ensures Seq16(i) in s.rcv.rcvBuf
      {
        SameNumberSameIndex(i, a.index);
      }
    }
  }

  lemma CloseDrainStep(s: System)
    requires CloseInv(s)
    ensures CloseInv(AfterDrain(s))
  {
    hide Inv, Seq16, AtOrAfter, Drained;
    DrainKeeps(s);
    if !s.close.aborted {
      var s' := AfterDrain(s);
      forall i {:trigger Seq16(i)} | |s'.written| <= i < |s.input| && Seq16(i) in s.rcv.rcvBuf
        ensures Seq16(i) in s'.rcv.rcvBuf
      {
        DrainKeepsLater(s, i);
      }
      forall a | a in s.acks && a.index >= |s'.written| ensures a.sn in s'.rcv.rcvBuf {
        assert a.sn == Seq16(a.index) by { AckNumber(s, a); }
      }
    }
  }

  lemma AckNumber(s: System, a: AckPacket)
    requires Inv(s) && a in s.acks
    ensures a.sn == Seq16(a.index)
  {
    hide SenderHolds, ReceiverHolds, WireHolds, SpanBounded, Seq16;
  }

  lemma DrainKeepsLater(s: System, i: nat)
    requires Inv(s) && |AfterDrain(s).written| <= i < |s.input| && Seq16(i) in s.rcv.rcvBuf
    ensures Seq16(i) in AfterDrain(s).rcv.rcvBuf
  {
    hide Seq16, AtOrAfter, Drained, SenderHolds, WireHolds, AcksHold;
    DrainTakesRun(s.rcv, |s.written|, |s.written| + s.cfg.receiveWindow, s.input);
    AheadIsItself(|s.written|, i);
  }

  lemma OtherCloseStep(s: System, step: Step)
    requires CloseInv(s) && Enabled(s, step)
    requires !step.ReadChunk? && !step.DeliverData? && !step.DeliverAck? && !step.Drain?
    ensures CloseInv(Apply(s, step))
  {
    hide Inv, Seq16, Sub16;
    StepKeepsInv(s, step);
    if step.FinalAck? { assert |s.written| <= |s.input| by { ReceiverNumber(s); } }
  }

  lemma StepKeepsClose(s: System, step: Step)
    requires CloseInv(s) && Enabled(s, step)
    ensures CloseInv(Apply(s, step))
  {
    hide CloseInv, AfterRead, AfterData, AfterDrain;
    match step
    case ReadChunk(chunk) => CloseReadStep(s, chunk);
    case DeliverData(p) => CloseDataStep(s, p);
    case DeliverAck(a) => CloseAckStep(s, a);
    case Drain => CloseDrainStep(s);
    case _ => OtherCloseStep(s, step);
  }

  lemma {:induction false} RunKeepsClose(states: seq<System>, steps: seq<Step>, k: nat)
    requires Run(states, steps) && k < |states|
    ensures CloseInv(states[k])
  {
    if k == 0 {
      InitHolds(states[0]);
    } else {
      hide CloseInv, Enabled, Apply, Init;
      RunKeepsClose(states, steps, k - 1);
      assert Taken(states[k - 1], steps[k - 1], states[k]);
      StepKeepsClose(states[k - 1], steps[k - 1]);
    }
  }

  // ----- the theorems -----

  /** Without an abort, when CLOSE_READ is originated every chunk but one read late has been acknowledged, and
      what is not yet written sits in the receiver's buffer. */
  lemma CloseReadMeansAcknowledged(states: seq<System>, steps: seq<Step>, k: nat)
    requires Run(states, steps) && k < |steps| && steps[k] == EmitCloseRead && !states[k].close.aborted
    ensures var s := states[k];
      && s.snd.sndBuf.Keys <= (if LateRead(s) then {Seq16(s.close.settledAt)} else {})
      && (forall i {:trigger Seq16(i)} :: |s.written| <= i < |s.input| && i != s.close.settledAt ==>
        Seq16(i) in s.rcv.rcvBuf)
  {
    hide Inv, Seq16, NothingLost;
    RunKeepsClose(states, steps, k);
    assert Taken(states[k], steps[k], states[k + 1]);
  }

  /** At a half-close after a CLOSE_READ the receiver has written exactly every byte the sender read if and
      only if the number it waits for is neither in its buffer nor that of a chunk read late. */
  lemma HalfCloseIsCompleteIff(states: seq<System>, steps: seq<Step>, k: nat)
    requires Run(states, steps) && k < |steps| && steps[k] == HalfClose
    requires states[k].close.closeReadReceived && !states[k].close.aborted
    ensures var s := states[k];
      Flatten(s.written) == Flatten(s.input) <==>
      s.rcv.rcvNxt !in s.rcv.rcvBuf && !(LateRead(s) && s.rcv.rcvNxt == Seq16(s.close.settledAt))
  {
    hide CloseInv;
    RunKeepsClose(states, steps, k);
    CompleteIff(states[k]);
  }

  lemma CompleteIff(s: System)
    requires CloseInv(s) && s.close.closeReadReceived && !s.close.aborted
    ensures Flatten(s.written) == Flatten(s.input) <==>
      s.rcv.rcvNxt !in s.rcv.rcvBuf && !(LateRead(s) && s.rcv.rcvNxt == Seq16(s.close.settledAt))
  {
    hide Inv, Seq16, NothingLost;
    ReceiverNumber(s);
    if |s.written| == |s.input| {
      assert s.written == s.input;
      if s.rcv.rcvNxt in s.rcv.rcvBuf { NothingWaits(s); }
      if LateRead(s) && s.rcv.rcvNxt == Seq16(s.close.settledAt) {
        SameNumberSameIndex(|s.written|, s.close.settledAt);
      }
    } else {
      MissingBytes(s);
    }
  }

  lemma NothingWaits(s: System)
    requires Inv(s) && |s.written| == |s.input|
    ensures s.rcv.rcvNxt !in s.rcv.rcvBuf
  {
    hide Seq16, AtOrAfter, SenderHolds, WireHolds, AcksHold, SpanBounded;
    AtOrAfterSteps(|s.written|, s.rcv.rcvNxt);
  }

  /** Chunks are never empty, so a missing chunk is a missing byte. */
  lemma MissingBytes(s: System)
    requires CloseInv(s) && |s.written| < |s.input|
    ensures Flatten(s.written) != Flatten(s.input)
  {
    hide Inv, Seq16, NothingLost, ClosingHolds;
    ReceiverNumber(s);
    var rest := s.input[|s.written|..];
    assert s.input == s.written + rest;
    FlattenConcat(s.written, rest);
    assert rest[0] == s.input[|s.written|];
    assert |Flatten(rest)| >= |rest[0]| > 0;
  }

  /** When the empty drain and the half-close are not separated, only a chunk read late can be missing. */
  lemma UnseparatedHalfCloseIsComplete(states: seq<System>, steps: seq<Step>, k: nat)
    requires Run(states, steps) && 0 < k < |steps| && steps[k - 1] == Drain && steps[k] == HalfClose
    requires states[k].close.closeReadReceived && !states[k].close.aborted
    ensures var s := states[k];
      Flatten(s.written) == Flatten(s.input) <==> !(LateRead(s) && s.rcv.rcvNxt == Seq16(s.close.settledAt))
  {
    hide Inv, Seq16, AfterDrain;
    RunKeepsInv(states, steps, k - 1);
    assert Taken(states[k - 1], steps[k - 1], states[k]);
    DrainKeeps(states[k - 1]);
    HalfCloseIsCompleteIff(states, steps, k);
  }

  /** The final close after a completed handshake asks for an empty receive buffer when the local writer is intact:
      at such a moment the receiver has written every byte if and only if it does not wait for a chunk read late. */
  lemma FinalCloseIsCompleteIff(states: seq<System>, steps: seq<Step>, k: nat)
    requires Run(states, steps) && k < |states|
    requires states[k].close.closeReadReceived && !states[k].close.aborted && states[k].rcv.rcvBuf == map[]
    ensures var s := states[k];
      Flatten(s.written) == Flatten(s.input) <==> !(LateRead(s) && s.rcv.rcvNxt == Seq16(s.close.settledAt))
  {
    hide CloseInv;
    RunKeepsClose(states, steps, k);
    CompleteIff(states[k]);
  }

  ghost predicate QuietlySettled(s: System) {
    var c := s.close;
    && (c.deferredClose || c.settled || c.closeReadSent ==> c.stopLocalRead)
    && (c.settled || c.closeReadSent ==> !c.reading && c.settledAt == |s.input|)
  }

  lemma QuietStep(s: System, step: Step)
    requires QuietlySettled(s) && Enabled(s, step) && (step == Settle ==> !s.close.reading)
    ensures QuietlySettled(Apply(s, step))
  {
    hide Append, Acked, Received, Drained, Classify;
  }

  /** When no Read is in flight at any moment a drain is found complete, as when the io loop itself
      saw the end of its input, no chunk is ever appended late. */
  lemma {:induction false} QuietDrainHasNoLateRead(states: seq<System>, steps: seq<Step>, k: nat)
    requires Run(states, steps) && k < |states|
    requires forall j :: 0 <= j < k && steps[j] == Settle ==> !states[j].close.reading
    ensures !LateRead(states[k]) && QuietlySettled(states[k])
  {
    if k > 0 {
      hide Enabled, Apply, QuietlySettled;
      QuietDrainHasNoLateRead(states, steps, k - 1);
      assert Taken(states[k - 1], steps[k - 1], states[k]);
      QuietStep(states[k - 1], steps[k - 1]);
      assert !LateRead(states[k]) by { assert QuietlySettled(states[k]); NotLate(states[k]); }
    }
  }

  lemma NotLate(s: System)
    requires QuietlySettled(s)
    ensures !LateRead(s)
  {
  }

  // ----- which states can still lose a chunk read late -----

  /** A continuation from s whose last step is an unaborted half-close after a CLOSE_READ, with the next number
      not waiting in the receiver's buffer and yet not all bytes written. */
  ghost predicate Truncates(s: System, states: seq<System>, steps: seq<Step>) {
    && 0 < |steps| == |states| - 1 && states[0] == s
    && (forall k :: 0 <= k < |steps| ==> Taken(states[k], steps[k], states[k + 1]))
    && var last := states[|steps| - 1];
      && steps[|steps| - 1] == HalfClose && last.close.closeReadReceived && !last.close.aborted
      && last.rcv.rcvNxt !in last.rcv.rcvBuf && Flatten(last.written) != Flatten(last.input)
  }

  ghost predicate CanTruncate(s: System) {
    exists states, steps :: Truncates(s, states, steps)
  }

  /** A chunk was read late, and the receiver neither wrote it nor holds it. */
  predicate LateChunkMissing(s: System) {
    LateRead(s) && |s.written| <= s.close.settledAt && Seq16(s.close.settledAt) !in s.rcv.rcvBuf
  }

  /** From a state of any run in which the drain was found complete, some continuation half-closes without a
      chunk read late if and only if the io loop is inside Read or such a chunk is already missing. */
  lemma LateTruncationIff(states: seq<System>, steps: seq<Step>, k: nat)
    requires Run(states, steps) && k < |states| && !states[k].close.aborted
    requires states[k].close.settled || states[k].close.closeReadSent
    ensures CanTruncate(states[k]) <==> states[k].close.reading || LateChunkMissing(states[k])
    ensures !LateRead(states[k]) ==> (CanTruncate(states[k]) <==> states[k].close.reading)
  {
    hide CloseInv, CanTruncate;
    var s := states[k];
    RunKeepsClose(states, steps, k);
    if s.close.reading {
      ReadingTruncates(s);
    } else if LateChunkMissing(s) {
      MissingTruncates(s);
    } else {
      NothingMissing(s);
      HeldNeverTruncates(s);
    }
  }

  lemma Prepend(s: System, step: Step)
    requires Enabled(s, step) && CanTruncate(Apply(s, step))
    ensures CanTruncate(s)
  {
    hide Enabled, Apply, Flatten;
    var states, steps :| Truncates(Apply(s, step), states, steps);
    assert Taken(s, step, states[0]);
    assert Truncates(s, [s] + states, [step] + steps);
  }

  lemma ReadingTruncates(s: System)
    requires CloseInv(s) && !s.close.aborted && s.close.reading && (s.close.settled || s.close.closeReadSent)
    ensures CanTruncate(s)
  {
    hide Inv, Seq16, Sub16, NothingLost, CanTruncate;
    var s' := AfterRead(s, [7]);
    ReceiverNumber(s);
    NextIsNotHeld(s);
    assert CloseInv(s') by { CloseReadStep(s, [7]); }
    assert LateChunkMissing(s');
    MissingTruncates(s');
    Prepend(s, ReadChunk([7]));
  }

  lemma NextIsNotHeld(s: System)
    requires Inv(s)
    ensures Seq16(|s.input|) !in s.rcv.rcvBuf
  {
    hide Seq16, AtOrAfter, SenderHolds, WireHolds, AcksHold;
    ReceiverNumber(s);
    AheadIsItself(|s.written|, |s.input|);
  }

  lemma MissingTruncates(s: System)
    requires CloseInv(s) && !s.close.aborted && LateChunkMissing(s)
    ensures CanTruncate(s)
  {
    hide CloseInv, CanTruncate, Seq16;
    var sent := if s.close.settled then Apply(s, EmitCloseRead) else s;
    if s.close.settled { StepKeepsClose(s, EmitCloseRead); }
    var received := Apply(sent, DeliverCloseRead);
    StepKeepsClose(sent, DeliverCloseRead);
    DrainedTruncates(received);
    Prepend(sent, DeliverCloseRead);
    if s.close.settled { Prepend(s, EmitCloseRead); }
  }

  lemma DrainedTruncates(s: System)
    requires CloseInv(s) && !s.close.aborted && s.close.closeReadReceived && LateChunkMissing(s)
    ensures CanTruncate(s)
  {
    hide CloseInv, CanTruncate, Seq16, AfterDrain;
    var once := AfterDrain(s);
    var twice := AfterDrain(once);
    StepKeepsClose(s, Drain);
    DrainLeavesMissing(s);
    DrainLeavesMissing(once);
    StepKeepsClose(once, Drain);
    EmptyDrain(once);
    assert CanTruncate(twice) by { HalfCloseTruncates(twice); }
    Prepend(once, Drain);
    Prepend(s, Drain);
  }

  lemma HalfCloseTruncates(s: System)
    requires CloseInv(s) && !s.close.aborted && s.close.closeReadReceived && LateChunkMissing(s)
    requires s.close.drainCameUpEmpty && s.rcv.rcvNxt !in s.rcv.rcvBuf
    ensures CanTruncate(s)
  {
    hide CloseInv, Seq16;
    MissingBytes(s);
    assert Taken(s, HalfClose, Apply(s, HalfClose));
    assert Truncates(s, [s, Apply(s, HalfClose)], [HalfClose]);
  }

  lemma EmptyDrain(s: System)
    requires s.rcv.rcvNxt !in s.rcv.rcvBuf
    ensures AfterDrain(s) == s.(close := s.close.(drainCameUpEmpty := true))
  {
    assert s.written + [] == s.written;
  }

  lemma DrainLeavesMissing(s: System)
    requires CloseInv(s) && LateChunkMissing(s)
    ensures LateChunkMissing(AfterDrain(s))
    ensures AfterDrain(s).close == s.close.(drainCameUpEmpty := AfterDrain(s).written == s.written)
    ensures AfterDrain(s).rcv.rcvNxt !in AfterDrain(s).rcv.rcvBuf
  {
    hide Inv, Seq16, Drained, NothingLost, ClosingHolds;
    ReceiverNumber(s);
    DrainKeeps(s);
    DrainedWereHeld(s.rcv, |s.written|);
    assert AfterDrain(s).written == s.written <==> Drained(s.rcv).1 == [];
  }

  lemma {:induction false} DrainedWereHeld(rcv: Receiver, from: nat)
    requires rcv.rcvNxt == Seq16(from)
    ensures var (rcv', chunks) := Drained(rcv);
      && (forall sn :: sn in rcv'.rcvBuf ==> sn in rcv.rcvBuf)
      && (forall i {:trigger Seq16(i)} :: from <= i < from + |chunks| ==> Seq16(i) in rcv.rcvBuf)
    decreases rcv.rcvBuf.Keys
  {
    hide Seq16, Add16;
    if rcv.rcvNxt in rcv.rcvBuf {
      var next := Receiver(Add16(rcv.rcvNxt, 1), rcv.rcvBuf - {rcv.rcvNxt});
      assert next.rcvBuf.Keys == rcv.rcvBuf.Keys - {rcv.rcvNxt};
      NumberSteps(from);
      DrainedWereHeld(next, from + 1);
      var (last, rest) := Drained(next);
      assert Drained(rcv) == (last, [rcv.rcvBuf[rcv.rcvNxt]] + rest);
    }
  }

  /** Nothing is being read any more, and the receiver wrote or holds every chunk. */
  ghost predicate AllHeld(s: System) {
    s.close.aborted ||
    (!s.close.reading && s.close.stopLocalRead
     && forall i {:trigger Seq16(i)} :: |s.written| <= i < |s.input| ==> Seq16(i) in s.rcv.rcvBuf)
  }

  lemma NothingMissing(s: System)
    requires CloseInv(s) && !s.close.aborted && (s.close.settled || s.close.closeReadSent)
    requires !s.close.reading && !LateChunkMissing(s)
    ensures Inv(s) && AllHeld(s)
  {
    hide Inv, Seq16, NothingLost;
  }

  lemma AllHeldStep(s: System, step: Step)
    requires Inv(s) && AllHeld(s) && Enabled(s, step)
    ensures AllHeld(Apply(s, step))
  {
    hide Inv, Seq16, Classify, Drained, NewestBelow;
    if step.Drain? {
      forall i {:trigger Seq16(i)} | |AfterDrain(s).written| <= i < |s.input| && Seq16(i) in s.rcv.rcvBuf
        ensures Seq16(i) in AfterDrain(s).rcv.rcvBuf
      {
        DrainKeepsLater(s, i);
      }
    }
  }

  lemma {:induction false} AllHeldStays(states: seq<System>, steps: seq<Step>, k: nat)
    requires |states| == |steps| + 1 && k < |states|
    requires forall j :: 0 <= j < |steps| ==> Taken(states[j], steps[j], states[j + 1])
    requires Inv(states[0]) && AllHeld(states[0])
    ensures Inv(states[k]) && AllHeld(states[k])
  {
    if k > 0 {
      hide Inv, AllHeld, Taken;
      AllHeldStays(states, steps, k - 1);
      TakenKeepsHeld(states[k - 1], steps[k - 1], states[k]);
    }
  }

  lemma TakenKeepsHeld(s: System, step: Step, s': System)
    requires Inv(s) && AllHeld(s) && Taken(s, step, s')
    ensures Inv(s') && AllHeld(s')
  {
    hide Inv, AllHeld, Enabled, Apply;
    StepKeepsInv(s, step);
    AllHeldStep(s, step);
  }

  lemma HeldIsComplete(s: System)
    requires Inv(s) && AllHeld(s)
    ensures s.close.aborted || s.rcv.rcvNxt in s.rcv.rcvBuf || s.written == s.input
  {
    hide Seq16, SenderHolds, WireHolds, AcksHold, BufferHolds;
    ReceiverNumber(s);
    assert |s.written| < |s.input| && !s.close.aborted ==> Seq16(|s.written|) in s.rcv.rcvBuf;
  }

  lemma HeldNeverTruncates(s: System)
    requires Inv(s) && AllHeld(s)
    ensures !CanTruncate(s)
  {
    hide Inv, AllHeld, Taken;
    if CanTruncate(s) {
      var states, steps :| Truncates(s, states, steps);
      AllHeldStays(states, steps, |steps| - 1);
      HeldIsComplete(states[|steps| - 1]);
      assert false;
    }
  }

  // ----- the two interleavings that truncate -----

  const QUIET := Closing(false, false, false, false, false, false, false, false, false, 0, false)
  const IDLE := System(NewConfig(300), Sender(0, map[]), Receiver(0, map[]), {}, {}, [], [], QUIET)
  const FIRST := DataPacket(0, [7], 0)

  /** One chunk numbered and sent, nothing received. */
  function OneSent(close: Closing): System {
    System(NewConfig(300), Sender(1, map[0 := [7]]), Receiver(0, map[]), {FIRST}, {}, [[7]], [], close)
  }

  lemma FirstChunkIsSent(close: Closing)
    requires close.reading
    ensures Taken(IDLE.(close := close), ReadChunk([7]), OneSent(close.(reading := false)))
  {
    assert Append(IDLE.snd, [7]) == Sender(1, map[0 := [7]]);
    assert {} + {FIRST} == {FIRST};
  }

  lemma IdleDrainsEmpty(s: System)
    requires s.rcv == Receiver(0, map[])
    ensures Taken(s, Drain, s.(close := s.close.(drainCameUpEmpty := true)))
  {
    assert s.written + [] == s.written;
  }

  lemma OneByteWaits()
    ensures Flatten([[7]]) == [7]
  {
    assert Flatten([[7]]) == [7] + Flatten([]);
  }

  const SETTLED_1 := QUIET.(reading := true, stopLocalRead := true, settled := true)
  const CLOSED_1 := SETTLED_1.(settled := false, closeReadSent := true)
  const LATE_1 := CLOSED_1.(reading := false)

  /** A stream closed from outside while its io loop is inside Read: the chunk that Read returns is
      numbered and sent after the CLOSE_READ, and the peer may half-close without it. */
  lemma CloseDuringReadTruncates() returns (states: seq<System>, steps: seq<Step>)
    ensures Run(states, steps) && |steps| == 8 && steps[7] == HalfClose
    ensures states[7].close.closeReadReceived && !states[7].close.aborted
    ensures states[7].rcv.rcvNxt !in states[7].rcv.rcvBuf && LateRead(states[7])
    ensures Flatten(states[7].written) == [] && Flatten(states[7].input) == [7]
  {
    hide Taken, Enabled, Apply;
    steps := [Gate, StartDrain, Settle, EmitCloseRead, ReadChunk([7]), DeliverCloseRead, Drain, HalfClose];
    states := [IDLE, IDLE.(close := QUIET.(reading := true)),
               IDLE.(close := QUIET.(reading := true, stopLocalRead := true, deferredClose := true)),
               IDLE.(close := SETTLED_1), IDLE.(close := CLOSED_1), OneSent(LATE_1),
               OneSent(LATE_1.(closeReadReceived := true)),
               OneSent(LATE_1.(closeReadReceived := true, drainCameUpEmpty := true)),
               OneSent(LATE_1.(closeReadReceived := true, localWriteClosed := true))];
    GateOpens();
    IdleSettles();
    FirstChunkIsSent(CLOSED_1);
    OneSentCloses(LATE_1);
    OneByteWaits();
  }

  lemma IdleSettles()
    ensures var draining := IDLE.(close := QUIET.(reading := true, stopLocalRead := true, deferredClose := true));
      && Taken(IDLE.(close := QUIET.(reading := true)), StartDrain, draining)
      && Taken(draining, Settle, IDLE.(close := SETTLED_1))
      && Taken(IDLE.(close := SETTLED_1), EmitCloseRead, IDLE.(close := CLOSED_1))
  {
  }

  lemma OneSentCloses(c: Closing)
    requires c.closeReadSent && !c.closeReadReceived && !c.drainCameUpEmpty
    ensures Taken(OneSent(c), DeliverCloseRead, OneSent(c.(closeReadReceived := true)))
    ensures Taken(OneSent(c.(closeReadReceived := true)), Drain,
                  OneSent(c.(closeReadReceived := true, drainCameUpEmpty := true)))
    ensures Taken(OneSent(c.(closeReadReceived := true, drainCameUpEmpty := true)), HalfClose,
                  OneSent(c.(closeReadReceived := true, localWriteClosed := true)))
  {
    IdleDrainsEmpty(OneSent(c.(closeReadReceived := true)));
  }

  /** The chunk received but not written, and acknowledged on the wire. */
  function OneHeld(snd: Sender, close: Closing): System {
    System(NewConfig(300), snd, Receiver(0, map[0 := [7]]), {FIRST}, {AckPacket(0, 0)}, [[7]], [], close)
  }

  const EMPTY_2 := QUIET.(drainCameUpEmpty := true)
  const SETTLED_2 := EMPTY_2.(stopLocalRead := true, settled := true, settledAt := 1)
  const CLOSED_2 := SETTLED_2.(settled := false, closeReadSent := true)
  const SEEN_2 := CLOSED_2.(closeReadReceived := true)

  lemma FirstChunkIsHeld()
    ensures Taken(OneSent(EMPTY_2), DeliverData(FIRST), OneHeld(Sender(1, map[0 := [7]]), EMPTY_2))
    ensures Taken(OneHeld(Sender(1, map[0 := [7]]), EMPTY_2), DeliverAck(AckPacket(0, 0)),
                  OneHeld(Sender(1, map[]), EMPTY_2))
  {
    assert Received(Receiver(0, map[]), 600, 0, [7]) == Receiver(0, map[0 := [7]]);
    assert {} + {AckPacket(0, 0)} == {AckPacket(0, 0)};
    assert map[0 := [7]] - {0} == map[];
  }

  lemma HeldChunkCloses()
    ensures var s := (c: Closing) => OneHeld(Sender(1, map[]), c);
      && Taken(s(EMPTY_2), StartDrain, s(EMPTY_2.(stopLocalRead := true, deferredClose := true)))
      && Taken(s(EMPTY_2.(stopLocalRead := true, deferredClose := true)), Settle, s(SETTLED_2))
      && Taken(s(SETTLED_2), EmitCloseRead, s(CLOSED_2))
      && Taken(s(CLOSED_2), DeliverCloseRead, s(SEEN_2))
      && Taken(s(SEEN_2), HalfClose, s(SEEN_2.(drainCameUpEmpty := false, localWriteClosed := true)))
  {
  }

  /** The write loop finds nothing to drain, then the last chunk and the CLOSE_READ arrive before it
      looks at the close flag: it half-closes with that chunk still in the buffer. */
  lemma ArrivalBetweenDrainAndCheckTruncates() returns (states: seq<System>, steps: seq<Step>)
    ensures Run(states, steps) && |steps| == 10 && steps[9] == HalfClose
    ensures states[9].close.closeReadReceived && !states[9].close.aborted && !LateRead(states[9])
    ensures states[9].rcv.rcvNxt in states[9].rcv.rcvBuf
    ensures Flatten(states[9].written) == [] && Flatten(states[9].input) == [7]
  {
    hide Taken, Enabled, Apply;
    steps := [Gate, ReadChunk([7]), Drain, DeliverData(FIRST), DeliverAck(AckPacket(0, 0)), StartDrain, Settle,
              EmitCloseRead, DeliverCloseRead, HalfClose];
    var reading := QUIET.(reading := true);
    states := [IDLE, IDLE.(close := reading), OneSent(QUIET), OneSent(EMPTY_2),
               OneHeld(Sender(1, map[0 := [7]]), EMPTY_2), OneHeld(Sender(1, map[]), EMPTY_2),
               OneHeld(Sender(1, map[]), EMPTY_2.(stopLocalRead := true, deferredClose := true)),
               OneHeld(Sender(1, map[]), SETTLED_2), OneHeld(Sender(1, map[]), CLOSED_2),
               OneHeld(Sender(1, map[]), SEEN_2),
               OneHeld(Sender(1, map[]), SEEN_2.(drainCameUpEmpty := false, localWriteClosed := true))];
    GateOpens();
    FirstChunkIsSent(reading);
    IdleDrainsEmpty(OneSent(QUIET));
    FirstChunkIsHeld();
    HeldChunkCloses();
    OneByteWaits();
  }

  lemma GateOpens()
    ensures Taken(IDLE, Gate, IDLE.(close := QUIET.(reading := true)))
  {
  }
}
