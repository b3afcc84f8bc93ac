/** One direction of a stream over an unreliable network, as one state machine. */
module ArqProtocol {
  // A sending endpoint, a receiving endpoint and a network that loses, duplicates and reorders. Every
  // step is one lock-protected piece of the endpoint code. Packets and histories carry unbounded indices
  // that the code never sees.

  import opened Words
  import opened ArqWindow

  datatype DataPacket = DataPacket(sn: uint16, data: bytes, index: nat)
  datatype AckPacket = AckPacket(sn: uint16, index: nat)

  /** The close handshake, as far as the data it protects is concerned. */
  datatype Closing = Closing(
    // sending endpoint
    reading: bool,        // the io loop passed its gate and is inside Read
    stopLocalRead: bool,
    deferredClose: bool,  // a CLOSE_READ waits for the outbound buffer to drain
    settled: bool,        // the drain was found complete, the emit follows
    closeReadSent: bool,
    // receiving endpoint
    writerGone: bool,     // local writer broken or CLOSE_WRITE sent or acknowledged
    closeReadReceived: bool,
    drainCameUpEmpty: bool,
    localWriteClosed: bool,
    // histories, which the code does not have
    settledAt: nat,       // chunks read when the drain before CLOSE_READ was last found complete
    aborted: bool         // CLOSE_WRITE or RST touched either endpoint, or either one was finalized
  )

  datatype System = System(
    cfg: Config,
    snd: Sender,
    rcv: Receiver,
    // network: what was sent may arrive any number of times, in any order, or never
    wire: set<DataPacket>,
    acks: set<AckPacket>,
    // histories, which the code does not have
    input: seq<bytes>,    // chunks read by the sender, in order
    written: seq<bytes>,  // chunks taken by the receiver's write loop, in order
    close: Closing
  )

  datatype Step =
    | Gate | ReadNothing | ReadChunk(chunk: bytes) | Resend(sn: uint16)
    | DeliverData(packet: DataPacket) | DeliverAck(ack: AckPacket) | FinalAck
    | Drain | HalfClose
    | StartDrain | Settle | EmitCloseRead | DeliverCloseRead
    | AbortSender | AbortReceiver(writerGone: bool)

  predicate Init(s: System) {
    && Sized(s.cfg)
    && s.snd == Sender(0, map[]) && s.rcv == Receiver(0, map[])
    && s.wire == {} && s.acks == {} && s.input == [] && s.written == []
    && s.close == Closing(false, false, false, false, false, false, false, false, false, 0, false)
  }

  /** The bounded-age hypotheses, the only ones made on the network: a data packet is processed
      before the receiver is 65536 - window past it, and an acknowledgment before the sender
      has used more than one full cycle of numbers since. */
  predicate DataYoung(s: System, p: DataPacket) {
    |s.written| - p.index < M16 - s.cfg.receiveWindow
  }

  predicate AckYoung(s: System, a: AckPacket) {
    |s.input| - a.index <= M16
  }

  predicate Enabled(s: System, step: Step) {
    match step
    case Gate => !s.close.reading && !s.close.stopLocalRead && |s.snd.sndBuf| < s.cfg.limit
    case ReadNothing => s.close.reading
    case ReadChunk(chunk) => s.close.reading && chunk != []
    case Resend(sn) => sn in s.snd.sndBuf && NewestBelow(|s.input|, sn) >= 0
    case DeliverData(p) => p in s.wire && DataYoung(s, p)
    case DeliverAck(a) => a in s.acks && AckYoung(s, a)
    case FinalAck => s.rcv.rcvNxt > 0 && |s.rcv.rcvBuf| == 0 && |s.written| > 0
    case HalfClose => s.close.drainCameUpEmpty
    case Settle => s.close.deferredClose && s.snd.sndBuf == map[]
    case EmitCloseRead => s.close.settled
    case DeliverCloseRead => s.close.closeReadSent
    case _ => true
  }

  function AfterRead(s: System, chunk: bytes): System {
    s.(snd := Append(s.snd, chunk),
       wire := s.wire + {DataPacket(s.snd.sndNxt, chunk, |s.input|)},
       input := s.input + [chunk],
       close := s.close.(reading := false))
  }

  function AfterData(s: System, p: DataPacket): System {
    if s.close.writerGone then s
    else
      s.(rcv := Received(s.rcv, s.cfg.receiveWindow, p.sn, p.data),
         acks := if Classify(s.rcv, s.cfg.receiveWindow, p.sn).Acknowledged()
                 then s.acks + {AckPacket(p.sn, p.index)} else s.acks)
  }

  function AfterDrain(s: System): System {
    var (rcv, chunks) := Drained(s.rcv);
    s.(rcv := rcv, written := s.written + chunks, close := s.close.(drainCameUpEmpty := chunks == []))
  }

  function Apply(s: System, step: Step): System
    requires Enabled(s, step)
  {
    match step
    case Gate => s.(close := s.close.(reading := true))
    case ReadNothing => s.(close := s.close.(reading := false))
    case ReadChunk(chunk) => AfterRead(s, chunk)
    case Resend(sn) => s.(wire := s.wire + {DataPacket(sn, s.snd.sndBuf[sn], NewestBelow(|s.input|, sn))})
    case DeliverData(p) => AfterData(s, p)
    case DeliverAck(a) => s.(snd := Acked(s.snd, a.sn))
    case FinalAck => s.(acks := s.acks + {AckPacket(Sub16(s.rcv.rcvNxt, 1), |s.written| - 1)})
    case Drain => AfterDrain(s)
    case HalfClose =>  // the source also waits for an empty inbound queue, so it takes this step less often
      s.(close := s.close.(drainCameUpEmpty := false,
                           localWriteClosed := s.close.localWriteClosed || s.close.closeReadReceived))
    case StartDrain => s.(close := s.close.(stopLocalRead := true, deferredClose := true))
    case Settle => s.(close := s.close.(deferredClose := false, settled := true, settledAt := |s.input|))
    case EmitCloseRead => s.(close := s.close.(settled := false, closeReadSent := true))
    case DeliverCloseRead => s.(close := s.close.(closeReadReceived := true))
    case AbortSender =>  // also what a finalized stream does: its buffers are cleared
      s.(snd := s.snd.(sndBuf := map[]), close := s.close.(stopLocalRead := true, aborted := true))
    case AbortReceiver(gone) =>
      s.(rcv := s.rcv.(rcvBuf := map[]),
         close := s.close.(writerGone := s.close.writerGone || gone, aborted := true))
  }

  predicate Taken(s: System, step: Step, s': System) {
    Enabled(s, step) && s' == Apply(s, step)
  }

  /** states are the states of a run that starts initially and takes the given steps. */
  ghost predicate Run(states: seq<System>, steps: seq<Step>) {
    && |states| == |steps| + 1
    && Init(states[0])
    && forall k :: 0 <= k < |steps| ==> Taken(states[k], steps[k], states[k + 1])
  }

  // ----- the invariant -----

  ghost predicate SenderHolds(snd: Sender, input: seq<bytes>) {
    && snd.sndNxt == Seq16(|input|)
    && forall sn :: sn in snd.sndBuf ==>
      0 <= NewestBelow(|input|, sn) < |input| && snd.sndBuf[sn] == input[NewestBelow(|input|, sn)]
  }

  /** Every buffered chunk is the input chunk its number stands for, within the window. */
  ghost predicate BufferHolds(rcv: Receiver, from: nat, last: int, input: seq<bytes>) {
    && rcv.rcvNxt == Seq16(from)
    && forall sn :: sn in rcv.rcvBuf ==>
      && AtOrAfter(from, sn) < |input| && AtOrAfter(from, sn) <= last
      && rcv.rcvBuf[sn] == input[AtOrAfter(from, sn)]
  }

  ghost predicate ReceiverHolds(rcv: Receiver, written: seq<bytes>, input: seq<bytes>, window: nat) {
    && written <= input
    && |rcv.rcvBuf| <= window + (if rcv.rcvNxt in rcv.rcvBuf then 1 else 0)
    && BufferHolds(rcv, |written|, |written| + window, input)
  }

  ghost predicate WireHolds(wire: set<DataPacket>, input: seq<bytes>) {
    forall p :: p in wire ==> p.index < |input| && p.sn == Seq16(p.index) && p.data == input[p.index]
  }

  /** Only packets that were sent and lie within the window are acknowledged. */
  ghost predicate AcksHold(acks: set<AckPacket>, last: int, sent: nat) {
    forall a :: a in acks ==> a.sn == Seq16(a.index) && a.index <= last && a.index < sent
  }

  /** The sender never runs more than the window and the send limit ahead of the receiver. */
  ghost predicate SpanBounded(s: System) {
    var last := |s.written| + s.cfg.receiveWindow;
    && |s.input| <= last + s.cfg.limit + (if s.close.reading then 0 else 1)
    && (!s.close.stopLocalRead ==>
      forall i {:trigger Seq16(i)} :: last < i < |s.input| ==> Seq16(i) in s.snd.sndBuf)
  }

  ghost predicate Inv(s: System) {
    && Sized(s.cfg)
    && SenderHolds(s.snd, s.input)
    && ReceiverHolds(s.rcv, s.written, s.input, s.cfg.receiveWindow)
    && WireHolds(s.wire, s.input)
    && AcksHold(s.acks, |s.written| + s.cfg.receiveWindow, |s.input|)
    && SpanBounded(s)
  }

  // ----- one lemma for each kind of step -----

  /** Packets with consecutive indices, fewer than a cycle, occupy distinct buffer slots. */
  lemma {:induction false} DistinctSlots(lo: nat, hi: nat, slots: set<uint16>)
    requires lo <= hi <= lo + M16
    requires forall i {:trigger Seq16(i)} :: lo <= i < hi ==> Seq16(i) in slots
    ensures hi - lo <= |slots|
  {
    hide Seq16;
    if lo < hi {
      forall i {:trigger Seq16(i)} | lo <= i < hi - 1 ensures Seq16(i) in slots - {Seq16(hi - 1)} {
        if Seq16(i) == Seq16(hi - 1) { SameNumberSameIndex(i, hi - 1); }
      }
      DistinctSlots(lo, hi - 1, slots - {Seq16(hi - 1)});
    }
  }

  lemma GateKeeps(s: System)
    requires Inv(s) && Enabled(s, Gate)
    ensures Inv(Apply(s, Gate))
  {
    hide Seq16, SenderHolds, ReceiverHolds, WireHolds, AcksHold;
    var lo := |s.written| + s.cfg.receiveWindow + 1;
    if lo <= |s.input| {
      DistinctSlots(lo, |s.input|, s.snd.sndBuf.Keys);
    }
  }

  lemma AppendKeeps(snd: Sender, input: seq<bytes>, chunk: bytes)
    requires SenderHolds(snd, input)
    ensures SenderHolds(Append(snd, chunk), input + [chunk])
  {
    hide Seq16, Add16, NewestBelow;
    var input' := input + [chunk];
    NumberSteps(|input|);
    forall sn | sn in snd.sndBuf || sn == snd.sndNxt
      ensures NewestBelow(|input'|, sn) == if sn == snd.sndNxt then |input| else NewestBelow(|input|, sn)
    {
      NewestBelowSteps(|input|, sn);
    }
  }

  lemma ReadKeeps(s: System, chunk: bytes)
    requires Inv(s) && Enabled(s, ReadChunk(chunk))
    ensures Inv(AfterRead(s, chunk))
  {
    hide Seq16, Add16, AtOrAfter, NewestBelow;
    AppendKeeps(s.snd, s.input, chunk);
  }

  /** Under the age bound the receiver's verdict on a packet is the one its index deserves; only a packet
      more than half the number space behind is refused as outside the window instead of acknowledged. */
  lemma VerdictIsRight(s: System, p: DataPacket)
    requires Inv(s) && p in s.wire && DataYoung(s, p)
    ensures var v := Classify(s.rcv, s.cfg.receiveWindow, p.sn); var window := s.cfg.receiveWindow;
      var from := |s.written|; var current := from <= p.index <= from + window;
      && (v.Duplicate? <==> from - 32768 <= p.index < from)
      && (v.OutsideWindow? <==> p.index > from + window || p.index < from - 32768)
      && (v.AlreadyBuffered? <==> current && p.sn in s.rcv.rcvBuf)
      && (v.BufferFull? <==> current && p.sn !in s.rcv.rcvBuf && |s.rcv.rcvBuf| >= window && p.index != from)
      && (v.Buffered? <==> current && p.sn !in s.rcv.rcvBuf && (|s.rcv.rcvBuf| < window || p.index == from))
      && (current ==> AtOrAfter(from, p.sn) == p.index && (p.sn == s.rcv.rcvNxt <==> p.index == from))
  {
    hide Seq16, Sub16, NewestBelow, AtOrAfter, SenderHolds, AcksHold, BufferHolds;
    assert s.rcv.rcvNxt == Seq16(|s.written|) by { ReceiverNumber(s); }
    DistanceOfYoung(p.index, |s.written|, s.cfg.receiveWindow);
    if |s.written| <= p.index { AheadIsItself(|s.written|, p.index); }
  }

  lemma ReceiverNumber(s: System)
    requires Inv(s)
    ensures |s.written| <= |s.input| <= |s.written| + 22401
    ensures s.written == s.input[..|s.written|]
    ensures s.rcv.rcvNxt == Seq16(|s.written|)
  {
    hide Seq16, SenderHolds, WireHolds, AcksHold;
  }

  lemma DataKeeps(s: System, p: DataPacket)
    requires Inv(s) && p in s.wire && DataYoung(s, p)
    ensures Inv(AfterData(s, p))
  {
    hide Seq16, NewestBelow, AtOrAfter, Classify, SenderHolds;
    VerdictIsRight(s, p);
  }

  lemma AckKeeps(s: System, a: AckPacket)
    requires Inv(s) && Enabled(s, DeliverAck(a))
    ensures Inv(Apply(s, DeliverAck(a)))
  {
    hide Seq16, NewestBelow, ReceiverHolds, WireHolds;
    forall i {:trigger Seq16(i)} | |s.written| + s.cfg.receiveWindow < i < |s.input| && Seq16(i) == a.sn
      ensures false
    {
      SameNumberSameIndex(i, a.index);
    }
  }

  /** An acknowledgment frees exactly the slot it names, and what was held there is the chunk it acknowledges;
      every other chunk stays as it is, and nothing else of the system changes. */
  lemma AckFreesItsChunk(s: System, a: AckPacket, s': System)
    requires Inv(s) && Taken(s, DeliverAck(a), s')
    ensures s'.snd.sndBuf.Keys == s.snd.sndBuf.Keys - {a.sn}
    ensures forall sn :: sn in s'.snd.sndBuf ==> s'.snd.sndBuf[sn] == s.snd.sndBuf[sn]
    ensures s'.snd.sndNxt == s.snd.sndNxt && s' == s.(snd := s'.snd)
    ensures a.index < |s.input| && (a.sn in s.snd.sndBuf ==> s.snd.sndBuf[a.sn] == s.input[a.index])
  {
    hide Seq16, NewestBelow, ReceiverHolds, WireHolds, SpanBounded;
    NewestIsItself(|s.input|, a.index);
  }

  /** Arriving data goes to its slot exactly when the packet is in the window and there is room, and is
      acknowledged exactly when it is already taken, already held or now stored; nothing else changes. */
  lemma DataTakesItsSlot(s: System, p: DataPacket, s': System)
    requires Inv(s) && Taken(s, DeliverData(p), s') && !s.close.writerGone
    ensures var window := s.cfg.receiveWindow; var from := |s.written|;
      var held := p.sn in s.rcv.rcvBuf; var inWindow := from <= p.index <= from + window;
      var stored := inWindow && !held && (|s.rcv.rcvBuf| < window || p.index == from);
      && s'.rcv.rcvBuf == (if stored then s.rcv.rcvBuf[p.sn := s.input[p.index]] else s.rcv.rcvBuf)
      && s'.acks == (if stored || (inWindow && held) || from - 32768 <= p.index < from
                     then s.acks + {AckPacket(p.sn, p.index)} else s.acks)
      && s' == s.(rcv := s.rcv.(rcvBuf := s'.rcv.rcvBuf), acks := s'.acks)
  {
    hide Seq16, Sub16, NewestBelow, AtOrAfter, Classify, SenderHolds, ReceiverHolds, AcksHold, SpanBounded;
    VerdictIsRight(s, p);
  }

  /** The acknowledgment sent again when everything was taken names the last chunk written, and aborted ends hold
      nothing any more. */
  lemma LastAckAndAborts(s: System, step: Step, s': System)
    requires Inv(s) && Taken(s, step, s')
    ensures step.FinalAck? ==>
      && s.rcv.rcvBuf == map[] && s.written != [] && s'.rcv == s.rcv && s'.snd == s.snd
      && s'.acks == s.acks + {AckPacket(Seq16(|s.written| - 1), |s.written| - 1)}
    ensures step.AbortSender? ==> s'.snd == Sender(s.snd.sndNxt, map[]) && s'.close.stopLocalRead && s'.rcv == s.rcv
    ensures step.AbortReceiver? ==>
      && s'.rcv == Receiver(s.rcv.rcvNxt, map[]) && s'.snd == s.snd
      && (s'.close.writerGone <==> s.close.writerGone || step.writerGone)
    ensures step.ReadNothing? ==> s' == s.(close := s.close.(reading := false))
  {
    hide Seq16, SenderHolds, WireHolds, AcksHold, SpanBounded, BufferHolds;
    if step.FinalAck? {
      ReceiverNumber(s);
      NumberSteps(|s.written|);
    }
  }

  lemma BufferAdvances(rcv: Receiver, from: nat, last: int, input: seq<bytes>)
    requires BufferHolds(rcv, from, last, input) && rcv.rcvNxt in rcv.rcvBuf
    ensures from < |input| && rcv.rcvBuf[rcv.rcvNxt] == input[from]
    ensures AtOrAfter(from, rcv.rcvNxt) == from
    ensures forall sn :: sn in rcv.rcvBuf && sn != rcv.rcvNxt ==> AtOrAfter(from + 1, sn) == AtOrAfter(from, sn)
    ensures BufferHolds(Receiver(Add16(rcv.rcvNxt, 1), rcv.rcvBuf - {rcv.rcvNxt}), from + 1, last, input)
  {
    hide Seq16, Add16, AtOrAfter;
    NumberSteps(from);
    AtOrAfterSteps(from, rcv.rcvNxt);
    forall sn | sn in rcv.rcvBuf && sn != rcv.rcvNxt
      ensures AtOrAfter(from + 1, sn) == AtOrAfter(from, sn)
    {
      AtOrAfterSteps(from, sn);
    }
  }

  /** Draining moves a contiguous run and leaves a buffer that starts with a hole. */
  lemma {:induction false} DrainTakesRun(rcv: Receiver, from: nat, last: int, input: seq<bytes>)
    requires from <= |input| && BufferHolds(rcv, from, last, input)
    ensures var (rcv', chunks) := Drained(rcv); var to := from + |chunks|;
      && to <= |input| && chunks == input[from..to]
      && BufferHolds(rcv', to, last, input) && rcv'.rcvNxt !in rcv'.rcvBuf
      && |rcv'.rcvBuf| + |chunks| == |rcv.rcvBuf| && (rcv.rcvNxt in rcv.rcvBuf <==> chunks != [])
      && (forall sn :: sn in rcv.rcvBuf && AtOrAfter(from, sn) >= to ==> sn in rcv'.rcvBuf)
    decreases rcv.rcvBuf.Keys
  {
    hide Seq16, Add16, AtOrAfter, BufferHolds;
    if rcv.rcvNxt in rcv.rcvBuf {
      var next := Receiver(Add16(rcv.rcvNxt, 1), rcv.rcvBuf - {rcv.rcvNxt});
      assert next.rcvBuf.Keys == rcv.rcvBuf.Keys - {rcv.rcvNxt};
      assert |next.rcvBuf.Keys| == |rcv.rcvBuf.Keys| - 1;
      BufferAdvances(rcv, from, last, input);
      DrainTakesRun(next, from + 1, last, input);
      var (last', rest) := Drained(next);
      assert Drained(rcv) == (last', [input[from]] + rest);
    }
  }

  lemma DrainKeepsReceiver(s: System)
    requires Inv(s)
    ensures var s' := AfterDrain(s);
      && |s.written| <= |s'.written| && s'.snd == s.snd && s'.input == s.input && s'.wire == s.wire
      && s'.acks == s.acks && s'.cfg == s.cfg && s'.close == s.close.(drainCameUpEmpty := s'.written == s.written)
      && ReceiverHolds(s'.rcv, s'.written, s.input, s.cfg.receiveWindow) && s'.rcv.rcvNxt !in s'.rcv.rcvBuf
  {
    hide Seq16, AtOrAfter, Drained, SenderHolds, WireHolds, AcksHold, SpanBounded, BufferHolds;
    DrainTakesRun(s.rcv, |s.written|, |s.written| + s.cfg.receiveWindow, s.input);
    var s' := AfterDrain(s);
    assert s'.written == s.input[..|s'.written|];
    assert Drained(s.rcv).1 == [] <==> s'.written == s.written;
    BufferGrows(s'.rcv, |s'.written|, |s.written| + s.cfg.receiveWindow, |s'.written| + s.cfg.receiveWindow, s.input);
  }

  lemma BufferGrows(rcv: Receiver, from: nat, last: int, last': int, input: seq<bytes>)
    requires BufferHolds(rcv, from, last, input) && last <= last'
    ensures BufferHolds(rcv, from, last', input)
  {
    hide Seq16, AtOrAfter;
  }

  lemma DrainKeeps(s: System)
    requires Inv(s)
    ensures Inv(AfterDrain(s))
    ensures AfterDrain(s).rcv.rcvNxt !in AfterDrain(s).rcv.rcvBuf
  {
    hide Seq16, AfterDrain, SenderHolds, WireHolds, ReceiverHolds;
    DrainKeepsReceiver(s);
  }

  lemma ResendKeeps(s: System, sn: uint16)
    requires Inv(s) && Enabled(s, Resend(sn))
    ensures Inv(Apply(s, Resend(sn)))
  {
    hide Seq16, NewestBelow, ReceiverHolds, AcksHold;
    NewestBelowNumber(|s.input|, sn);
  }

  lemma FinalAckKeeps(s: System)
    requires Inv(s) && Enabled(s, FinalAck)
    ensures Inv(Apply(s, FinalAck))
  {
    hide Seq16, Sub16, SenderHolds, WireHolds, BufferHolds;
    ReceiverNumber(s);
    NumberSteps(|s.written|);
  }

  /** Steps of the close handshake touch no number and no buffer. */
  lemma OtherStepKeeps(s: System, step: Step)
    requires Inv(s) && Enabled(s, step)
    requires step.ReadNothing? || step.HalfClose? || step.StartDrain? || step.Settle? || step.EmitCloseRead?
      || step.DeliverCloseRead?
    ensures Inv(Apply(s, step))
  {
    hide Seq16, SenderHolds, ReceiverHolds, WireHolds, AcksHold;
  }

  lemma AbortKeeps(s: System, step: Step)
    requires Inv(s) && (step.AbortSender? || step.AbortReceiver?)
    ensures Inv(Apply(s, step))
  {
    hide Seq16, NewestBelow, AtOrAfter, WireHolds, AcksHold;
    if step.AbortSender? {} else {}
  }

  lemma StepKeepsInv(s: System, step: Step)
    requires Inv(s) && Enabled(s, step)
    ensures Inv(Apply(s, step))
  {
    hide Inv, AfterRead, AfterData, AfterDrain;
    match step
    case Gate => GateKeeps(s);
    case ReadChunk(chunk) => ReadKeeps(s, chunk);
    case DeliverData(p) => DataKeeps(s, p);
    case DeliverAck(a) => AckKeeps(s, a);
    case Drain => DrainKeeps(s);
    case Resend(sn) => ResendKeeps(s, sn);
    case FinalAck => FinalAckKeeps(s);
    case AbortSender => AbortKeeps(s, step);
    case AbortReceiver(_) => AbortKeeps(s, step);
    case _ => OtherStepKeeps(s, step);
  }

  lemma InitHolds(s: System)
    requires Init(s)
    ensures Inv(s)
  {
  }

  lemma {:induction false} RunKeepsInv(states: seq<System>, steps: seq<Step>, k: nat)
    requires Run(states, steps) && k < |states|
    ensures Inv(states[k])
  {
    if k == 0 {
      InitHolds(states[0]);
    } else {
      hide Inv, Enabled, Apply, Init;
      RunKeepsInv(states, steps, k - 1);
      assert Taken(states[k - 1], steps[k - 1], states[k]);
      StepKeepsInv(states[k - 1], steps[k - 1]);
    }
  }

  // ----- what every run guarantees -----

  lemma {:induction false} PrefixFlattens(a: seq<bytes>, b: seq<bytes>)
    requires a <= b
    ensures Flatten(a) <= Flatten(b)
  {
    assert b == a + b[|a|..];
    FlattenConcat(a, b[|a|..]);
  }

  /** Safety over every run: the bytes taken by the receiver's write loop are a prefix of the bytes
      the sender read, each once and in order, whatever the network and the close handshake do. */
  lemma DeliveredIsPrefix(states: seq<System>, steps: seq<Step>, k: nat)
    requires Run(states, steps) && k < |states|
    ensures states[k].written <= states[k].input
    ensures Flatten(states[k].written) <= Flatten(states[k].input)
  {
    hide Run, SenderHolds, WireHolds, AcksHold, SpanBounded, BufferHolds;
    RunKeepsInv(states, steps, k);
    PrefixFlattens(states[k].written, states[k].input);
  }

  /** The upper side of the window is not assumed: the sender is never more than 22401 ahead, every
      buffered number lies within the receive window, and the buffer holds at most window + 1. */
  lemma WindowsStayBounded(states: seq<System>, steps: seq<Step>, k: nat)
    requires Run(states, steps) && k < |states|
    ensures var s := states[k];
      && |s.written| <= |s.input| <= |s.written| + 22401
      && |s.rcv.rcvBuf| <= s.cfg.receiveWindow + 1
      && forall sn :: sn in s.rcv.rcvBuf ==> Sub16(sn, s.rcv.rcvNxt) <= s.cfg.receiveWindow
  {
    hide Run, Seq16, Sub16, AtOrAfter, SenderHolds, WireHolds, AcksHold;
    RunKeepsInv(states, steps, k);
    var s := states[k];
    forall sn | sn in s.rcv.rcvBuf ensures Sub16(sn, s.rcv.rcvNxt) <= s.cfg.receiveWindow {
      DistanceIsIndex(|s.written|, sn);
    }
  }

  /** The 16-bit comparison refines the indices: for every packet in the network at most 32768
      behind, `diff >= 32768` says exactly that the write loop already took it, and otherwise
      diff is the true distance. */
  lemma DuplicateTestIsExact(states: seq<System>, steps: seq<Step>, k: nat, p: DataPacket)
    requires Run(states, steps) && k < |states|
    requires p in states[k].wire && |states[k].written| - p.index <= 32768
    ensures var s := states[k]; var diff := Sub16(p.sn, s.rcv.rcvNxt);
      (diff >= 32768 <==> p.index < |s.written|) && (diff < 32768 ==> diff == p.index - |s.written|)
  {
    hide Run, Seq16, Sub16, AtOrAfter, NewestBelow;
    RunKeepsInv(states, steps, k);
    HalfRangeTestIsExact(p.index, |states[k].written|);
  }

  /** The age hypotheses are the weakest. At any age, an old data packet is taken for one of the current window
      exactly in the last stretch of each cycle, and the first of these starts where the hypothesis ends; an
      acknowledgment names a newer chunk exactly beyond its bound. */
  lemma AgeBoundsAreTight(s: System, p: DataPacket, a: AckPacket)
    requires Inv(s)
    requires p in s.wire && p.index < |s.written|
    requires a in s.acks
    ensures var v := Classify(s.rcv, s.cfg.receiveWindow, p.sn); var age := |s.written| - p.index;
      var current := v.Buffered? || v.AlreadyBuffered? || v.BufferFull?;
      && (current <==> (age - 1) % M16 >= M16 - s.cfg.receiveWindow - 1)
      && (current ==> !DataYoung(s, p))
      && (age <= M16 && !DataYoung(s, p) ==> current)
    ensures AckYoung(s, a) <==> NewestBelow(|s.input|, a.sn) == a.index
  {
    hide Seq16, Sub16, AtOrAfter, NewestBelow, SenderHolds, BufferHolds;
    assert s.rcv.rcvNxt == Seq16(|s.written|) by { ReceiverNumber(s); }
    StaleNumberAliasesExactly(p.index, |s.written|, s.cfg.receiveWindow);
    NewestIsItself(|s.input|, a.index);
  }
}
