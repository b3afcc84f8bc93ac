/** No state of the data plane is stuck. */
module ArqProgress {
  // As long as neither end was aborted, the network can still carry everything that was read: some
  // continuation writes it all and leaves nothing outstanding.

  import opened Words
  import opened ArqWindow
  import opened ArqProtocol
  import opened ArqClose

  /** The given steps lead from s to s'. */
  ghost predicate Leads(s: System, steps: seq<Step>, s': System)
    decreases |steps|
  {
    if steps == [] then s' == s
    else Enabled(s, steps[0]) && Leads(Apply(s, steps[0]), steps[1..], s')
  }

  ghost predicate CanReach(s: System, s': System) {
    exists steps :: Leads(s, steps, s')
  }

  lemma {:induction false} LeadsOn(a: System, steps: seq<Step>, b: System, more: seq<Step>, c: System)
    requires Leads(a, steps, b) && Leads(b, more, c)
    ensures Leads(a, steps + more, c)
    decreases |steps|
  {
    hide Enabled, Apply;
    if steps == [] {
      assert steps + more == more;
    } else {
      LeadsOn(Apply(a, steps[0]), steps[1..], b, more, c);
      assert (steps + more)[1..] == steps[1..] + more;
    }
  }

  lemma ReachOn(a: System, b: System, c: System)
    requires CanReach(a, b) && CanReach(b, c)
    ensures CanReach(a, c)
  {
    hide Leads;
    var steps :| Leads(a, steps, b);
    var more :| Leads(b, more, c);
    LeadsOn(a, steps, b, more, c);
  }

  lemma ReachByStep(s: System, step: Step)
    requires Enabled(s, step)
    ensures CanReach(s, Apply(s, step))
  {
    hide Enabled, Apply;
    assert Leads(Apply(s, step), [], Apply(s, step));
    assert [step][1..] == [];
    assert Leads(s, [step], Apply(s, step));
  }

  lemma ReachSelf(s: System)
    ensures CanReach(s, s)
  {
    assert Leads(s, [], s);
  }

  // ----- everything accepted is acknowledged -----

  ghost predicate WrittenAnswered(acks: set<AckPacket>, from: nat, to: nat) {
    forall i {:trigger Seq16(i)} :: from <= i < to ==> AckPacket(Seq16(i), i) in acks
  }

  ghost predicate BufferAnswered(acks: set<AckPacket>, rcv: Receiver, from: nat) {
    forall sn :: sn in rcv.rcvBuf ==> AckPacket(sn, AtOrAfter(from, sn)) in acks
  }

  ghost predicate AllAnswered(s: System) {
    WrittenAnswered(s.acks, 0, |s.written|) && BufferAnswered(s.acks, s.rcv, |s.written|)
  }

  /** The invariant of the proof. */
  ghost predicate Answered(s: System) {
    CloseInv(s) && AllAnswered(s)
  }

  lemma DataAnswers(s: System, p: DataPacket)
    requires CloseInv(s) && AllAnswered(s) && p in s.wire && DataYoung(s, p)
    ensures AllAnswered(AfterData(s, p))
  {
    hide Inv, Seq16, Sub16, NewestBelow, AtOrAfter, Classify, NothingLost, ClosingHolds;
    VerdictIsRight(s, p);
  }

  lemma {:induction false} DrainedAnswered(rcv: Receiver, from: nat, last: int, input: seq<bytes>, acks: set<AckPacket>)
    requires from <= |input| && BufferHolds(rcv, from, last, input) && BufferAnswered(acks, rcv, from)
    ensures var (rcv', chunks) := Drained(rcv); var to := from + |chunks|;
      WrittenAnswered(acks, from, to) && BufferAnswered(acks, rcv', to)
    decreases rcv.rcvBuf.Keys
  {
    hide Seq16, Add16, AtOrAfter, BufferHolds;
    if rcv.rcvNxt in rcv.rcvBuf {
      var next := Receiver(Add16(rcv.rcvNxt, 1), rcv.rcvBuf - {rcv.rcvNxt});
      assert next.rcvBuf.Keys == rcv.rcvBuf.Keys - {rcv.rcvNxt};
      assert rcv.rcvNxt == Seq16(from) by { NextNumber(rcv, from, last, input); }
      BufferAdvances(rcv, from, last, input);
      DrainedAnswered(next, from + 1, last, input, acks);
    }
  }

  lemma NextNumber(rcv: Receiver, from: nat, last: int, input: seq<bytes>)
    requires BufferHolds(rcv, from, last, input)
    ensures rcv.rcvNxt == Seq16(from)
  {
    hide Seq16, AtOrAfter;
  }

  lemma DrainAnswers(s: System)
    requires CloseInv(s) && AllAnswered(s)
    ensures AllAnswered(AfterDrain(s))
  {
    hide Seq16, AtOrAfter, Drained, BufferHolds, SenderHolds, WireHolds, AcksHold, SpanBounded, NothingLost,
      ClosingHolds;
    ReceiverNumber(s);
    DrainedAnswered(s.rcv, |s.written|, |s.written| + s.cfg.receiveWindow, s.input, s.acks);
  }

  lemma StepAnswers(s: System, step: Step)
    requires Answered(s) && Enabled(s, step)
    ensures Answered(Apply(s, step))
  {
    hide CloseInv, Seq16, AtOrAfter, AfterData, AfterDrain;
    StepKeepsClose(s, step);
    match step
    case DeliverData(p) => DataAnswers(s, p);
    case Drain => DrainAnswers(s);
    case _ =>
  }

  lemma {:induction false} RunAnswers(states: seq<System>, steps: seq<Step>, k: nat)
    requires Run(states, steps) && k < |states|
    ensures Answered(states[k])
  {
    if k == 0 {
      RunKeepsClose(states, steps, 0);
    } else {
      hide Answered, Enabled, Apply, Init;
      RunAnswers(states, steps, k - 1);
      assert Taken(states[k - 1], steps[k - 1], states[k]);
      StepAnswers(states[k - 1], steps[k - 1]);
    }
  }

  // ----- the continuation -----

  /** What stays as it is along the continuation. */
  predicate Goes(s: System, s': System) {
    && s'.cfg == s.cfg && s'.input == s.input && s'.snd.sndNxt == s.snd.sndNxt
    && s'.close == s.close.(drainCameUpEmpty := s'.close.drainCameUpEmpty)
    && s'.snd.sndBuf.Keys <= s.snd.sndBuf.Keys
  }

  /** The state after one more drain. */
  lemma DrainWrites(s: System) returns (s': System)
    requires Answered(s) && s.rcv.rcvNxt in s.rcv.rcvBuf
    ensures Answered(s') && CanReach(s, s') && Goes(s, s') && |s.written| < |s'.written|
  {
    hide CanReach, Answered, AfterDrain, Seq16, AtOrAfter, CloseInv;
    s' := Apply(s, Drain);
    ReachByStep(s, Drain);
    StepAnswers(s, Drain);
    assert CloseInv(s) by { AnsweredCloses(s); }
    DrainTakes(s);
  }

  lemma AnsweredCloses(s: System)
    requires Answered(s)
    ensures CloseInv(s) && Inv(s)
  {
    hide Inv;
  }

  lemma DrainTakes(s: System)
    requires CloseInv(s) && s.rcv.rcvNxt in s.rcv.rcvBuf
    ensures Goes(s, AfterDrain(s)) && |s.written| < |AfterDrain(s).written|
  {
    hide Seq16, AtOrAfter, Drained, BufferHolds, SenderHolds, WireHolds, AcksHold, SpanBounded, NothingLost,
      ClosingHolds;
    ReceiverNumber(s);
    DrainTakesRun(s.rcv, |s.written|, |s.written| + s.cfg.receiveWindow, s.input);
  }

  /** The sender still holds the chunk the receiver waits for, under its number. */
  lemma NextIsHeld(s: System)
    requires CloseInv(s) && !s.close.aborted && |s.written| < |s.input| && s.rcv.rcvNxt !in s.rcv.rcvBuf
    ensures s.rcv.rcvNxt == Seq16(|s.written|) && s.rcv.rcvNxt in s.snd.sndBuf
    ensures NewestBelow(|s.input|, s.rcv.rcvNxt) == |s.written|
    ensures !s.close.writerGone
  {
    hide Inv, Seq16, NewestBelow, ClosingHolds;
    ReceiverNumber(s);
    NewestIsItself(|s.input|, |s.written|);
  }

  /** A packet with the number the receiver waits for is stored when it arrives. */
  lemma NextIsStored(s: System, p: DataPacket)
    requires Inv(s) && p in s.wire && p.index == |s.written| && s.rcv.rcvNxt !in s.rcv.rcvBuf && !s.close.writerGone
    requires p.sn == s.rcv.rcvNxt
    ensures DataYoung(s, p)
    ensures var s' := AfterData(s, p);
      && s'.rcv.rcvNxt in s'.rcv.rcvBuf && s'.rcv.rcvNxt == s.rcv.rcvNxt
      && s'.written == s.written && s'.snd == s.snd && Goes(s, s')
  {
    hide Inv, Seq16, Sub16, NewestBelow, AtOrAfter, Classify;
    assert Sized(s.cfg) by { SizedHolds(s); }
    DataTakesItsSlot(s, p, AfterData(s, p));
  }

  lemma SizedHolds(s: System)
    requires Inv(s)
    ensures Sized(s.cfg)
  {
    hide SenderHolds, ReceiverHolds, WireHolds, AcksHold, SpanBounded;
  }

  /** The state after the chunk the receiver waits for was sent again and arrived. */
  lemma NextArrives(s: System) returns (s': System)
    requires Answered(s) && !s.close.aborted && |s.written| < |s.input| && s.rcv.rcvNxt !in s.rcv.rcvBuf
    ensures Answered(s') && CanReach(s, s') && Goes(s, s') && s'.written == s.written
    ensures s'.rcv.rcvNxt in s'.rcv.rcvBuf
  {
    hide CanReach, Answered, CloseInv, Inv, AfterData, Seq16, NewestBelow, DataYoung;
    AnsweredCloses(s);
    NextIsHeld(s);
    var sn := s.rcv.rcvNxt;
    var p := DataPacket(sn, s.snd.sndBuf[sn], |s.written|);
    var sent := Apply(s, Resend(sn));
    ReachByStep(s, Resend(sn));
    StepAnswers(s, Resend(sn));
    AnsweredCloses(sent);
    NextIsStored(sent, p);
    ReachByStep(sent, DeliverData(p));
    StepAnswers(sent, DeliverData(p));
    s' := Apply(sent, DeliverData(p));
    ReachOn(s, sent, s');
  }

  lemma OneMoreWritten(s: System) returns (s': System)
    requires Answered(s) && !s.close.aborted && |s.written| < |s.input|
    ensures Answered(s') && CanReach(s, s') && Goes(s, s') && |s.written| < |s'.written|
  {
    hide CanReach, Answered;
    var ready := s;
    ReachSelf(s);
    if s.rcv.rcvNxt !in s.rcv.rcvBuf { ready := NextArrives(s); }
    s' := DrainWrites(ready);
    ReachOn(s, ready, s');
  }

  lemma WrittenIsRead(s: System)
    requires Answered(s)
    ensures |s.written| <= |s.input| && (|s.written| == |s.input| ==> s.written == s.input)
  {
    hide CloseInv, Inv;
    AnsweredCloses(s);
    ReceiverNumber(s);
  }

  lemma GoesOn(a: System, b: System, c: System)
    requires CanReach(a, b) && Goes(a, b) && CanReach(b, c) && Goes(b, c)
    ensures CanReach(a, c) && Goes(a, c)
  {
    hide CanReach;
    ReachOn(a, b, c);
  }

  lemma StaysPut(s: System)
    ensures CanReach(s, s) && Goes(s, s)
  {
    ReachSelf(s);
  }

  lemma GoesKeeps(s: System, s': System)
    requires Goes(s, s')
    ensures s'.close.aborted == s.close.aborted && s'.input == s.input
  {
  }

  lemma {:induction false} AllWritten(s: System) returns (s': System)
    requires Answered(s) && !s.close.aborted
    ensures Answered(s') && CanReach(s, s') && Goes(s, s') && s'.written == s.input
    decreases |s.input| - |s.written|
  {
    hide CanReach, Answered, Goes;
    WrittenIsRead(s);
    if |s.written| == |s.input| {
      s' := s;
      StaysPut(s);
    } else {
      var next := OneMoreWritten(s);
      WrittenIsRead(next);
      assert !next.close.aborted && next.input == s.input by { GoesKeeps(s, next); }
      s' := AllWritten(next);
      GoesOn(s, next, s');
    }
  }

  /** The acknowledgment of an outstanding chunk that was written is in the network, and young enough. */
  lemma AckWaits(s: System, sn: uint16) returns (a: AckPacket)
    requires Answered(s) && s.written == s.input && sn in s.snd.sndBuf
    ensures a.sn == sn && a in s.acks && AckYoung(s, a)
  {
    hide Seq16, ReceiverHolds, WireHolds, AcksHold, SpanBounded, NothingLost, ClosingHolds, BufferAnswered;
    NewestBelowNumber(|s.input|, sn);
    a := AckPacket(sn, NewestBelow(|s.input|, sn));
  }

  lemma {:induction false} AllFreed(s: System) returns (s': System)
    requires Answered(s) && s.written == s.input
    ensures Answered(s') && CanReach(s, s') && Goes(s, s') && s'.written == s.written && s'.snd.sndBuf == map[]
    decreases s.snd.sndBuf.Keys
  {
    hide CanReach, Answered, AckYoung;
    if s.snd.sndBuf == map[] {
      ReachSelf(s);
      s' := s;
    } else {
      var sn :| sn in s.snd.sndBuf;
      var a := AckWaits(s, sn);
      var next := Apply(s, DeliverAck(a));
      ReachByStep(s, DeliverAck(a));
      StepAnswers(s, DeliverAck(a));
      assert next.snd.sndBuf.Keys == s.snd.sndBuf.Keys - {sn};
      s' := AllFreed(next);
      ReachOn(s, next, s');
    }
  }

  // ----- the theorem -----

  ghost predicate Completes(s: System, s': System) {
    && CanReach(s, s')
    && s'.input == s.input && s'.written == s.input && s'.snd == Sender(s.snd.sndNxt, map[])
  }

  /** From every state of every unaborted run the network, using only deliveries the age hypotheses admit, can
      bring everything read to the local writer and free the whole send window: no state is stuck, no chunk
      unreachable, no slot lost, whatever was dropped, repeated or reordered before. */
  lemma NothingIsStuck(states: seq<System>, steps: seq<Step>, k: nat)
    requires Run(states, steps) && k < |states| && !states[k].close.aborted
    ensures exists s' :: Completes(states[k], s')
  {
    hide Run, CanReach, Answered;
    var s := states[k];
    RunAnswers(states, steps, k);
    var written := AllWritten(s);
    var s' := AllFreed(written);
    ReachOn(s, written, s');
    assert Completes(s, s');
  }
}
