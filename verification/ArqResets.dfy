/** When an endpoint resets its stream. */
module ArqResets {
  // Which calls can put a packet off, and what has to happen in a run before a reset is sent.

  import opened Words
  import opened ArqTerminal
  import opened ArqOutcomes

  /** The call does not start to defer this kind. */
  predicate NoNewDeferral(t: T, t': T, kind: Kind) {
    t'.deferredPacket == Some(kind) ==> t.deferredPacket == Some(kind)
  }

  lemma SentUndefers(t: T, kind: Kind, now: int, c: Settings)
    ensures WithSent(t, kind, now, c).deferredPacket.None?
  {
  }

  lemma CloseNowDefersNothing(t: T, kind: Kind, now: int, c: Settings, k: Kind)
    requires Inv(t)
    ensures NoNewDeferral(t, CloseNow(t, kind, now, c), k)
  {
    hide Inv, CloseNow, WithSent;
    CloseNowIs(t, kind, now, c);
    SentUndefers(t, kind, now, c);
  }

  lemma SettleDefersNothing(t: T, now: int, c: Settings, k: Kind)
    requires Inv(t)
    ensures NoNewDeferral(t, SettleTerminalDrain(t, now, c), k)
  {
    hide Inv, SettleTerminalDrain, WithSent;
    SettleIs(t, now, c);
    if DrainOver(t, t.sndBuf == {}, now).Some? { SentUndefers(t, DrainOver(t, t.sndBuf == {}, now).value, now, c); }
  }

  lemma AfterDrainDefers(t: T, kind: Kind, now: int, c: Settings, k: Kind)
    requires Inv(t) && (kind.CloseRead? || kind.CloseWrite?) && k != CloseRead
    ensures NoNewDeferral(t, CloseAfterDrain(t, kind, now, c), k)
  {
    hide Inv, DeferTerminalPacket, Emit, WithSent;
    SentUndefers(t, kind, now, c);
    if kind.CloseRead? {
      DeferIs(t, CloseRead, now, c);
    } else {
      EmitIs(t, CloseWrite, now, c);
    }
  }

  lemma ResetDefers(t: T, now: int, c: Settings, k: Kind)
    requires Inv(t) && !k.Rst?
    ensures NoNewDeferral(t, CloseAfterDrain(t, Rst, now, c), k)
  {
    hide Inv, CloseAfterDrain, WithSent;
    SentUndefers(t, Rst, now, c);
    ResetAfterDrainIs(t, now, c);
  }

  lemma FinalizersDeferNothing(t: T, k: Kind)
    ensures NoNewDeferral(t, FinalizeClose(t), k)
    ensures NoNewDeferral(t, TryFinalizeRemoteEOF(t), k) && NoNewDeferral(t, TryFinalizePeerResetDrain(t), k)
  {
  }

  /** Calls that can put a kind other than CLOSE_READ off. */
  predicate DefersReset(call: Call) {
    (call.CloseStream? && call.kind.Rst? && call.afterDrain) || (call.ReadFailed? && call.afterDrain)
  }

  lemma CloseReadAckDefersNothing(t: T, now: int, c: Settings, k: Kind)
    requires Inv(t) && Acknowledges(t, Terminal(CloseRead))
    ensures NoNewDeferral(t, Do(t, ControlAck(Terminal(CloseRead)), now, c), k)
  {
    hide Inv, TryFinalizeRemoteEOF, Acknowledges, Do;
    AckIsTaken(t, CloseRead, now, c);
    FinalizersDeferNothing(ClearedWaiting(MarkCloseReadAcked(Untracked(t, Terminal(CloseRead), now), now), CloseRead), k);
  }

  lemma MaybeCloseReadDefers(e: T, now: int, c: Settings, k: Kind)
    requires Inv(e) && k != CloseRead
    ensures NoNewDeferral(e, MaybeCloseReadAfterWriterBreak(e, now, c), k)
  {
    hide Inv, CloseNow, CloseAfterDrain;
    CloseNowDefersNothing(e, CloseRead, now, c, k);
    AfterDrainDefers(e, CloseRead, now, c, k);
  }

  lemma CloseWriteAckDefersNothing(t: T, now: int, c: Settings, k: Kind)
    requires Inv(t) && Acknowledges(t, Terminal(CloseWrite)) && k != CloseRead
    ensures NoNewDeferral(t, Do(t, ControlAck(Terminal(CloseWrite)), now, c), k)
  {
    hide Inv, TryFinalizeRemoteEOF, MaybeCloseReadAfterWriterBreak, Acknowledges, Do, EventIs, Complete,
      ClosesWhenAcked;
    AckIsTaken(t, CloseWrite, now, c);
    var e := CloseWriteAckedIs(t, now, now + c.ackWait);
    MaybeCloseReadDefers(e, now, c, k);
    FinalizersDeferNothing(MaybeCloseReadAfterWriterBreak(e, now, c), k);
  }

  lemma OtherAckDefersNothing(t: T, item: Tracked, now: int, c: Settings, k: Kind)
    requires item.Terminal? && Acknowledges(t, item) ==> item.kind.Rst?
    ensures NoNewDeferral(t, Do(t, ControlAck(item), now, c), k)
  {
    hide FinalizeClose;
    var t2 := Untracked(t, item, now);
    FinalizersDeferNothing(t2, k);
    FinalizersDeferNothing(MarkRstAcked(t2), k);
  }

  lemma AckDefersNothing(t: T, item: Tracked, now: int, c: Settings, k: Kind)
    requires Inv(t) && k != CloseRead
    ensures NoNewDeferral(t, Do(t, ControlAck(item), now, c), k)
  {
    hide Inv, Acknowledges, Do, NoNewDeferral;
    if item.Terminal? && Acknowledges(t, item) && item.kind.CloseRead? {
      CloseReadAckDefersNothing(t, now, c, k);
    } else if item.Terminal? && Acknowledges(t, item) && item.kind.CloseWrite? {
      CloseWriteAckDefersNothing(t, now, c, k);
    } else {
      OtherAckDefersNothing(t, item, now, c, k);
    }
  }

  lemma WriterEndDefersNothing(d: T, k: Kind)
    ensures NoNewDeferral(d, TryFinalizeRemoteEOF(TryFinalizePeerResetDrain(d)), k)
  {
    hide TryFinalizeRemoteEOF, TryFinalizePeerResetDrain;
    FinalizersDeferNothing(d, k);
    FinalizersDeferNothing(TryFinalizePeerResetDrain(d), k);
  }

  lemma WriterDefersNothing(t: T, k: Kind)
    ensures NoNewDeferral(t, WriterIdle(t), k) && NoNewDeferral(t, WriterDone(t), k)
  {
    hide TryFinalizeRemoteEOF, TryFinalizePeerResetDrain, MaybeHalfClosed;
    HalfClosedAlike(t);
    WriterEndDefersNothing(MaybeHalfClosed(t), k);
    WriterEndDefersNothing(t.(localWritePending := false), k);
  }

  lemma WriterFailedDefersNothing(t: T, now: int, c: Settings, k: Kind)
    requires Inv(t)
    ensures NoNewDeferral(t, WriterFailed(t, now, c), k)
  {
    hide Inv, CloseNow;
    var f := t.(localWriterBroken := true, localWritePending := false, rcvBuf := {});
    EventHolds(t, f, 0);
    CloseNowDefersNothing(f, CloseWrite, now, c, k);
  }

  lemma ArrivalDefersNothing(t: T, now: int, c: Settings, k: Kind)
    requires Inv(t)
    ensures NoNewDeferral(t, DataArrived(t, now, c), k)
  {
    hide Inv, CloseNow, NeedsCloseWrite;
    CloseNowDefersNothing(t, CloseWrite, now, c, k);
  }

  lemma DataDefersNothing(t: T, sn: uint16, buffered: bool, now: int, c: Settings, k: Kind)
    requires Inv(t)
    ensures NoNewDeferral(t, DataProcessed(t, sn, buffered, now, c), k)
  {
    hide Inv, CloseNow, Dequeued, NeedsCloseWrite;
    var e := Dequeued(t);
    DequeuedAlike(t, sn, buffered, now);
    StoredSame(t, sn, buffered, now);
    EventHolds(t, e, 0);
    CloseNowDefersNothing(e, CloseWrite, now, c, k);
  }

  lemma DataAckDefersNothing(t: T, sn: uint16, now: int, c: Settings, k: Kind)
    requires Inv(t)
    ensures NoNewDeferral(t, DataAcked(t, sn, now, c), k)
  {
    hide Inv, TryFinalizeRemoteEOF, SettleTerminalDrain;
    var a := t.(lastActivity := now, sndBuf := t.sndBuf - {sn});
    EventHolds(t, a, 0);
    var a1 := if a.closeRead.received then TryFinalizeRemoteEOF(a) else a;
    FinalizersDeferNothing(a, k);
    assert Inv(a1) by { TryFinalizeGood(a); assert Good(a, TryFinalizeRemoteEOF(a)); }
    SettleDefersNothing(a1, now, c, k);
  }

  lemma PeerCloseReadDefersNothing(t: T, k: Kind)
    ensures NoNewDeferral(t, MarkCloseReadReceived(t), k) && NoNewDeferral(t, MarkRstReceived(t), k)
  {
    hide TryFinalizeRemoteEOF;
    FinalizersDeferNothing(t.(closeRead := t.closeRead.(received := true),
      state := if t.closeRead.sent then ClosingDown else HalfClosedRemote), k);
  }

  lemma PeerCloseWriteDefersNothing(t: T, now: int, c: Settings, k: Kind)
    requires Inv(t)
    ensures NoNewDeferral(t, MarkCloseWriteReceived(t, now, c), k)
  {
    hide Inv, TryFinalizeRemoteEOF, SettleTerminalDrain;
    var w := t.(closeWrite := t.closeWrite.(received := true), stopLocalRead := true, sndBuf := {});
    RaisedHolds(t, w);
    SettleDefersNothing(w, now, c, k);
    FinalizersDeferNothing(SettleTerminalDrain(w, now, c), k);
  }

  lemma ExpiryDefersNothing(t: T, item: Tracked, now: int, c: Settings, k: Kind)
    requires Inv(t)
    ensures NoNewDeferral(t, TrackedExpired(t, item, now, c), k)
  {
    hide Inv, FinalizeClose, CloseNow;
    var t1 := t.(controlSndBuf := t.controlSndBuf - {item});
    RaisedHolds(t, t1);
    FinalizersDeferNothing(t1, k);
    CloseNowDefersNothing(t1, Rst, now, c, k);
  }

  lemma TickDefersNothing(t: T, stalled: bool, now: int, c: Settings, k: Kind)
    requires Inv(t)
    ensures NoNewDeferral(t, RetransmitTick(t, stalled, now, c), k)
  {
    hide Inv, FinalizeClose, CloseNow, SettleTerminalDrain, TryFinalizePeerResetDrain, CloseWriteGraceElapsed;
    FinalizersDeferNothing(t, k);
    CloseNowDefersNothing(t, Rst, now, c, k);
    CloseNowDefersNothing(t, CloseWrite, now, c, k);
    SettleDefersNothing(t, now, c, k);
  }

  lemma ClosingDefers(t: T, call: Call, now: int, c: Settings, k: Kind)
    requires Inv(t) && k != CloseRead && (k.Rst? ==> !DefersReset(call))
    requires call.ReadEOF? || call.ReadFailed? || call.CloseStream? || call.Force?
    ensures NoNewDeferral(t, Do(t, call, now, c), k)
  {
    hide Inv, FinalizeClose, CloseNow, CloseAfterDrain;
    var e := NotedEOF(t, now);
    NotedSame(t, now);
    EventHolds(t, e, 0);
    assert e.deferredPacket == t.deferredPacket;
    match call {
      case ReadEOF => AfterDrainDefers(e, CloseRead, now, c, k);
      case ReadFailed(afterDrain) =>
        CloseNowDefersNothing(t, Rst, now, c, k);
        if !k.Rst? { ResetDefers(t, now, c, k); }
      case CloseStream(kind, afterDrain) =>
        CloseNowDefersNothing(t, kind, now, c, k);
        if !kind.Rst? { AfterDrainDefers(t, kind, now, c, k); } else if !k.Rst? { ResetDefers(t, now, c, k); }
      case Force => FinalizersDeferNothing(t.(isVirtual := false), k);
    }
  }

  /** A reset is put off only by a close with a reset, and a CLOSE_WRITE never. */
  lemma OnlyResetsArePutOff(t: T, call: Call, now: int, c: Settings, k: Kind)
    requires Inv(t) && k != CloseRead && (k.Rst? ==> !DefersReset(call))
    ensures Do(t, call, now, c).deferredPacket == Some(k) ==> t.deferredPacket == Some(k)
  {
    hide Inv, CloseAfterDrain, CloseNow, DataAcked, DataArrived, DataProcessed, WriterIdle, WriterDone,
      WriterFailed, MarkCloseReadReceived, MarkCloseWriteReceived, MarkRstReceived, ReceiveControlAck,
      TrackedExpired, RetransmitTick, SettleTerminalDrain, FinalizeClose;
    match call {
      case AckData(sn) => DataAckDefersNothing(t, sn, now, c, k);
      case ArriveData => ArrivalDefersNothing(t, now, c, k);
      case ProcessData(sn, buffered) => DataDefersNothing(t, sn, buffered, now, c, k);
      case IdleWriter => WriterDefersNothing(t, k);
      case DoneWriting => WriterDefersNothing(t, k);
      case FailWriting => WriterFailedDefersNothing(t, now, c, k);
      case PeerCloseRead => PeerCloseReadDefersNothing(t, k);
      case PeerCloseWrite => PeerCloseWriteDefersNothing(t, now, c, k);
      case PeerRst => PeerCloseReadDefersNothing(t, k);
      case ControlAck(item) => AckDefersNothing(t, item, now, c, k);
      case ControlExpired(item) => ExpiryDefersNothing(t, item, now, c, k);
      case DataExpired => CloseNowDefersNothing(t, Rst, now, c, k);
      case Tick(stalled) => TickDefersNothing(t, stalled, now, c, k);
      case Drained => SettleDefersNothing(t, now, c, k);
      case ReadAppend(_) =>
      case TakeRun(_) =>
      case Track(_) =>
      case _ => ClosingDefers(t, call, now, c, k);
    }
  }

  lemma NewDefersNothing(isClient: bool, isVirtual: bool, reliable: bool, start: int)
    ensures var t := New(isClient, isVirtual, reliable, start); !t.rst.sent && t.deferredPacket.None?
  {
  }

  /** Over every run: a CLOSE_WRITE never waits for a drain. */
  lemma {:induction false} CloseWriteIsNeverPutOff(isClient: bool, isVirtual: bool, reliable: bool, start: int,
                                                   calls: seq<(Call, int)>, c: Settings)
    ensures After(New(isClient, isVirtual, reliable, start), calls, c).deferredPacket != Some(CloseWrite)
    decreases |calls|
  {
    hide Inv, Do, New;
    var t0 := New(isClient, isVirtual, reliable, start);
    NewHolds(isClient, isVirtual, reliable, start);
    if calls == [] {
      NewDefersNothing(isClient, isVirtual, reliable, start);
    } else {
      var before, last := calls[..|calls| - 1], calls[|calls| - 1];
      CloseWriteIsNeverPutOff(isClient, isVirtual, reliable, start, before, c);
      RunIsGood(t0, before, c);
      OnlyResetsArePutOff(After(t0, before, c), last.0, last.1, c, CloseWrite);
    }
  }

  /** What can make an endpoint reset the stream: a close or a failed read that asks for it, a packet given up on,
      an overdue drain or acknowledgment, a stalled drain, inactivity. */
  predicate ResetCause(t: T, call: Call, now: int, c: Settings) {
    match call
    case CloseStream(kind, _) => kind.Rst?
    case ReadFailed(_) => true
    case ControlExpired(_) => true
    case DataExpired => true
    case Drained => DrainExpired(t, now)
    case AckData(_) => DrainExpired(t, now)
    case Tick(stalled) =>
      || DrainExpired(t, now) || (stalled && t.deferredPacket.Some?) || AckOverdue(t, now)
      || now > t.lastActivity + c.inactivity
    case _ => false
  }

  ghost predicate CauseFree(t: T, calls: seq<(Call, int)>, c: Settings) {
    forall k {:trigger calls[k]} :: 0 <= k < |calls| ==>
      !ResetCause(After(t, calls[..k], c), calls[k].0, calls[k].1, c)
  }

  lemma StepWithoutCause(t: T, call: Call, now: int, c: Settings)
    requires Inv(t) && !t.rst.sent && t.deferredPacket != Some(Rst) && !ResetCause(t, call, now, c)
    ensures var t' := Do(t, call, now, c); Inv(t') && !t'.rst.sent && t'.deferredPacket != Some(Rst)
  {
    hide Inv, Do;
    CallOutcome(t, call, now, c);
    OnlyResetsArePutOff(t, call, now, c, Rst);
    DoGood(t, call, now, c);
    assert Inv(Do(t, call, now, c)) by { assert Good(t, Do(t, call, now, c)); }
  }

  /** Over every run, a stream for which no such cause arises is never reset by this end: no reset is put off,
      marked sent or queued. */
  lemma {:induction false} NoResetWithoutCause(isClient: bool, isVirtual: bool, reliable: bool, start: int,
                                               calls: seq<(Call, int)>, c: Settings)
    requires CauseFree(New(isClient, isVirtual, reliable, start), calls, c)
    ensures var t := After(New(isClient, isVirtual, reliable, start), calls, c);
      !t.rst.sent && t.deferredPacket != Some(Rst) && Times(t.originated, Rst) == 0
    decreases |calls|
  {
    hide Inv, Do, ResetCause, Times, New;
    var t0 := New(isClient, isVirtual, reliable, start);
    NewHolds(isClient, isVirtual, reliable, start);
    if calls == [] {
      NewDefersNothing(isClient, isVirtual, reliable, start);
    } else {
      var before := calls[..|calls| - 1];
      assert CauseFree(t0, before, c) by { FewerCauseFree(t0, calls, c); }
      NoResetWithoutCause(isClient, isVirtual, reliable, start, before, c);
      RunIsGood(t0, before, c);
      StepWithoutCause(After(t0, before, c), calls[|calls| - 1].0, calls[|calls| - 1].1, c);
    }
    TerminalSafety(isClient, isVirtual, reliable, start, calls, c);
  }

  lemma FewerCauseFree(t: T, calls: seq<(Call, int)>, c: Settings)
    requires CauseFree(t, calls, c) && calls != []
    ensures CauseFree(t, calls[..|calls| - 1], c)
  {
    hide ResetCause, After;
    var before := calls[..|calls| - 1];
    forall k {:trigger before[k]} | 0 <= k < |before|
      ensures !ResetCause(After(t, before[..k], c), before[k].0, before[k].1, c)
    {
      assert before[..k] == calls[..k] && before[k] == calls[k];
    }
  }

  // ----- what ends a stream -----

  /** An open stream of a real endpoint that nothing resets. */
  predicate Running(t: T) {
    !t.closed && !t.isVirtual && !t.rst.sent && !t.rst.received && t.deferredPacket.None?
  }

  /** Giving up on a packet, and a close or a failed read that asks for a reset at once, send exactly a reset and
      drop what was outstanding. */
  lemma GivingUpResets(t: T, call: Call, now: int, c: Settings)
    requires Inv(t) && Running(t)
    requires match call
      case DataExpired => true
      case ControlExpired(item) => item in t.controlSndBuf && (item.Plain? || item == Terminal(CloseRead))
      case CloseStream(kind, afterDrain) => kind.Rst? && (afterDrain ==> t.sndBuf == {})
      case ReadFailed(afterDrain) => afterDrain ==> t.sndBuf == {}
      case _ => false
    ensures var t' := Do(t, call, now, c);
      && t'.originated == t.originated + [Rst] && t'.rst.sent && t'.sndBuf == {} && !t'.closed
      && t'.waitingAckFor == Some(Rst) && t'.ackWaitDeadline == Some(now + c.ackWait)
  {
    hide Inv, Do;
    CallOutcome(t, call, now, c);
  }

  /** The tick of a stream that is not draining: an overdue acknowledgment of a close resets the stream, one of a
      reset closes it; a stream idle for longer than the timeout is reset when nothing is in flight and spared
      otherwise; before these deadlines nothing is reset and nothing is closed. */
  lemma TimersAct(t: T, stalled: bool, now: int, c: Settings)
    requires Inv(t) && !t.closed && !t.isVirtual && t.deferredPacket.None? && !t.rst.received
    ensures var t' := Do(t, Tick(stalled), now, c);
      var overdue := t.waitingAckFor.Some? && t.ackWaitDeadline.Some? && now > t.ackWaitDeadline.value;
      var idle := now - t.lastActivity > c.inactivity;
      && (overdue && t.waitingAckFor == Some(Rst) ==> t'.closed && t'.originated == t.originated)
      && (overdue && !t.rst.sent ==> !t'.closed && t'.originated == t.originated + [Rst])
      && (!overdue ==> !t'.closed)
      && (!overdue && idle && (t.sndBuf != {} || (t.reliable && t.controlSndBuf != {})) ==> t'.rst.sent == t.rst.sent)
      && (!overdue && !idle ==> t'.rst.sent == t.rst.sent)
      && (!overdue && idle && t.sndBuf == {} && t.controlSndBuf == {} && !t.rst.sent && !t.closeRead.acked ==>
           t'.originated == t.originated + [Rst])
  {
    hide Inv, Do;
    CallOutcome(t, Tick(stalled), now, c);
    AckedIsSent(t, Rst);
  }

  /** A client whose CLOSE_READ is acknowledged closes the writing direction too once the grace is over and nothing
      inbound is left, when the peer said it is done or the local writer is gone. */
  lemma GraceCloses(t: T, stalled: bool, now: int, c: Settings)
    requires Inv(t) && Running(t) && t.isClient
    requires t.closeRead.acked && !t.closeWrite.sent && !t.closeWrite.received && t.waitingAckFor.None?
    requires t.rcvBuf == {} && t.pendingInbound == 0 && !t.localWritePending
    requires now - t.lastActivity <= c.inactivity
    ensures Do(t, Tick(stalled), now, c).originated == t.originated + [CloseWrite] <==>
      && (t.closeRead.received || t.localWriterBroken)
      && ((t.clientEOFAt.Some? && now - t.clientEOFAt.value >= c.grace)
          || (t.closeReadAckedAt.Some? && now - t.closeReadAckedAt.value >= c.grace))
  {
    hide Inv, Do;
    CallOutcome(t, Tick(stalled), now, c);
    AckedIsSent(t, CloseWrite);
  }

  /** A local writer that broke sends CLOSE_WRITE, at the failure or, when it could not yet, for data that still
      arrives; and once only. */
  lemma BrokenWriterCloses(t: T, call: Call, now: int, c: Settings)
    requires Inv(t) && Running(t)
    requires call.FailWriting? || (t.localWriterBroken && (call.ArriveData? || call.ProcessData?))
    ensures var t' := Do(t, call, now, c);
      && t'.originated == t.originated + (if t.closeWrite.sent then [] else [CloseWrite])
      && t'.localWriterBroken && t'.closeWrite.sent && !t'.closed
  {
    hide Inv, Do;
    CallOutcome(t, call, now, c);
  }

  /** The acknowledged CLOSE_WRITE of a client is followed by its CLOSE_READ, at once when nothing is outstanding. */
  lemma ClientClosesBothWays(t: T, now: int, c: Settings)
    requires Inv(t) && Running(t) && t.isClient && t.waitingAckFor == Some(CloseWrite)
    requires !t.closeRead.sent && !t.closeRead.received
    ensures var t' := Do(t, ControlAck(Terminal(CloseWrite)), now, c);
      && t'.originated == t.originated + (if t.sndBuf == {} then [CloseRead] else [])
      && t'.closeWrite.acked && t'.localWriterBroken && !t'.closed
  {
    hide Inv, Do;
    CallOutcome(t, ControlAck(Terminal(CloseWrite)), now, c);
    NotTracked(t, CloseRead);
    NotComplete(t.(closeWrite := t.closeWrite.(acked := true), localWriterBroken := true, waitingAckFor := None));
  }

  /** A reset of the peer drops what is outstanding and answers nothing. The stream closes when the write loop next
      finds nothing it could still write, and not before, unless its own end is closed already. */
  lemma PeerResetCloses(t: T, now: int, c: Settings)
    requires Inv(t) && !t.closed && !t.isVirtual
    ensures var r := Do(t, PeerRst, now, c);
      && r.rst.received && r.sndBuf == {} && r.originated == t.originated && !r.closed && Inv(r)
      && (t.rst.received && !t.closeRead.received && !t.closeRead.acked ==>
           (Do(t, IdleWriter, now, c).closed <==>
             t.rcvNxt !in t.rcvBuf && t.pendingInbound == 0 && !t.localWritePending))
  {
    hide Inv, Do;
    CallOutcome(t, PeerRst, now, c);
    CallOutcome(t, IdleWriter, now, c);
    DoGood(t, PeerRst, now, c);
    assert Good(t, Do(t, PeerRst, now, c));
  }

  /** When the peer's CLOSE_READ closes the stream, with the writer intact: our own is settled, everything inbound
      was written, and no CLOSE_WRITE is open. */
  lemma PeerCloseReadClosesIff(t: T, now: int, c: Settings)
    requires Inv(t) && !t.closed && !t.isVirtual && !t.localWriterBroken
    ensures Do(t, PeerCloseRead, now, c).closed <==>
      && t.rcvBuf == {} && t.pendingInbound == 0 && !t.localWritePending
      && t.closeRead.sent && (t.closeRead.acked || t.waitingAckFor != Some(CloseRead))
      && (t.closeWrite.sent ==> t.closeWrite.acked)
  {
    hide Inv, Do;
    CallOutcome(t, PeerCloseRead, now, c);
    AckedIsSent(t, CloseRead);
  }

  /** When the acknowledgment of our CLOSE_READ closes the stream, with the writer intact. */
  lemma CloseReadAckClosesIff(t: T, now: int, c: Settings)
    requires Inv(t) && !t.closed && !t.isVirtual && !t.localWriterBroken && t.waitingAckFor == Some(CloseRead)
    ensures Do(t, ControlAck(Terminal(CloseRead)), now, c).closed <==>
      && t.closeRead.received && t.rcvBuf == {} && t.pendingInbound == 0 && !t.localWritePending
      && (t.closeWrite.sent ==> t.closeWrite.acked)
  {
    hide Inv, Do;
    CallOutcome(t, ControlAck(Terminal(CloseRead)), now, c);
  }

  /** When the write loop closes the stream after a write, with the writer intact and no reset received. */
  lemma DoneWritingClosesIff(t: T, call: Call, now: int, c: Settings)
    requires Inv(t) && !t.closed && !t.isVirtual && !t.localWriterBroken && !t.rst.received
    requires call.DoneWriting? || (call.IdleWriter? && !t.localWritePending)
    ensures Do(t, call, now, c).closed <==>
      && t.closeRead.received && t.rcvBuf == {} && t.pendingInbound == 0
      && t.closeRead.sent && (t.closeRead.acked || t.waitingAckFor != Some(CloseRead))
      && (t.closeWrite.sent ==> t.closeWrite.acked)
  {
    hide Inv, Do;
    CallOutcome(t, call, now, c);
    AckedIsSent(t, CloseRead);
  }

  /** A stream that is closed, or virtual, queues nothing whatever is called. */
  lemma ClosedQueuesNothing(t: T, call: Call, now: int, c: Settings)
    requires Inv(t) && (t.closed || t.isVirtual)
    ensures Do(t, call, now, c).originated == t.originated
  {
    hide Inv, Do;
    CallOutcome(t, call, now, c);
  }

  // ----- the graceful close -----

  /** Our CLOSE_READ is out, nothing else happened, and the stream still waits for the peer. */
  ghost predicate HalfDone(t: T, received: bool, acked: bool) {
    && Inv(t) && !t.closed && !t.isVirtual && t.originated == [CloseRead] && !(received && acked)
    && t.closeRead.sent && t.closeRead.received == received && t.closeRead.acked == acked
    && !t.closeWrite.sent && !t.localWriterBroken
    && t.rcvBuf == {} && t.pendingInbound == 0 && !t.localWritePending
    && t.waitingAckFor == (if acked then None else Some(CloseRead))
  }

  lemma EndOfInput(isClient: bool, reliable: bool, start: int, now: int, c: Settings)
    ensures HalfDone(Do(New(isClient, false, reliable, start), ReadEOF, now, c), false, false)
  {
    hide Inv;
    var open := New(isClient, false, reliable, start);
    NewHolds(isClient, false, reliable, start);
    DoGood(open, ReadEOF, now, c);
    assert Good(open, Do(open, ReadEOF, now, c));
    CallOutcome(open, ReadEOF, now, c);
    EOFKeepsInbound(open, now, c);
  }

  predicate SameInbound(t: T, t': T) {
    && t'.rcvBuf == t.rcvBuf && t'.pendingInbound == t.pendingInbound && t'.localWritePending == t.localWritePending
    && t'.isVirtual == t.isVirtual && t'.clientEOFAt == t.clientEOFAt
  }

  lemma CloseReadKeepsInbound(e: T, now: int, c: Settings)
    requires Inv(e)
    ensures SameInbound(e, DeferTerminalPacket(e, CloseRead, now, c))
  {
    hide Inv, DeferTerminalPacket, WithSent, Deferring, SameInbound;
    DeferIs(e, CloseRead, now, c);
    SentKeepsInbound(e, now, c);
    DeferringKeepsInbound(e, now, c);
    EndingKeepsInbound(e, Deferring(e, CloseRead, now, c).state);
  }

  lemma SentKeepsInbound(e: T, now: int, c: Settings)
    ensures SameInbound(e, WithSent(e, CloseRead, now, c)) && SameInbound(e, e)
  {
  }

  lemma DeferringKeepsInbound(e: T, now: int, c: Settings)
    ensures SameInbound(e, Deferring(e, CloseRead, now, c))
  {
  }

  lemma EndingKeepsInbound(e: T, state: StreamState)
    ensures SameInbound(e, Undeferred(e).(state := state, stopLocalRead := true))
  {
  }

  /** The end of the input leaves the inbound side alone, and a client notes the moment of the first one. */
  lemma EOFKeepsInbound(t: T, now: int, c: Settings)
    requires Inv(t)
    ensures var t' := Do(t, ReadEOF, now, c);
      && t'.rcvBuf == t.rcvBuf && t'.pendingInbound == t.pendingInbound && t'.localWritePending == t.localWritePending
      && t'.isVirtual == t.isVirtual
      && t'.clientEOFAt == (if t.isClient && t.clientEOFAt.None? then Some(now) else t.clientEOFAt)
  {
    hide Inv, DeferTerminalPacket, NotedEOF;
    var e := NotedEOF(t, now);
    NotedSame(t, now);
    NotedInbound(t, now);
    EventHolds(t, e, 0);
    CloseReadKeepsInbound(e, now, c);
  }

  lemma NotedInbound(t: T, now: int)
    ensures var e := NotedEOF(t, now);
      && e.rcvBuf == t.rcvBuf && e.pendingInbound == t.pendingInbound && e.localWritePending == t.localWritePending
      && e.isVirtual == t.isVirtual
      && e.clientEOFAt == (if t.isClient && t.clientEOFAt.None? then Some(now) else t.clientEOFAt)
  {
    if t.isClient && t.clientEOFAt.None? {} else {}
  }

  lemma PeerSays(t: T, acked: bool, now: int, c: Settings)
    requires HalfDone(t, false, acked)
    ensures var t' := Do(t, PeerCloseRead, now, c);
      if acked then t'.closed && t'.originated == [CloseRead] else HalfDone(t', true, false)
  {
    hide Inv, FinalizeClose;
    DoGood(t, PeerCloseRead, now, c);
    assert Good(t, Do(t, PeerCloseRead, now, c));
    CallOutcome(t, PeerCloseRead, now, c);
  }

  lemma PeerAcknowledges(t: T, received: bool, now: int, c: Settings)
    requires HalfDone(t, received, false)
    ensures var t' := Do(t, ControlAck(Terminal(CloseRead)), now, c);
      if received then t'.closed && t'.originated == [CloseRead] else HalfDone(t', false, true)
  {
    hide Inv, FinalizeClose;
    DoGood(t, ControlAck(Terminal(CloseRead)), now, c);
    assert Good(t, Do(t, ControlAck(Terminal(CloseRead)), now, c));
    CallOutcome(t, ControlAck(Terminal(CloseRead)), now, c);
  }

  /** The graceful close from beginning to end: the input ends, and the peer acknowledges the CLOSE_READ and sends its
      own, in either order and at any times. The stream is closed exactly then, and one CLOSE_READ was sent. */
  lemma GracefulClose(isClient: bool, reliable: bool, start: int, at: int, ackAt: int, peerAt: int, c: Settings)
    ensures var ended := Do(New(isClient, false, reliable, start), ReadEOF, at, c);
      var acked, said := Do(ended, ControlAck(Terminal(CloseRead)), ackAt, c), Do(ended, PeerCloseRead, peerAt, c);
      var both, other := Do(acked, PeerCloseRead, peerAt, c), Do(said, ControlAck(Terminal(CloseRead)), ackAt, c);
      && !ended.closed && !acked.closed && !said.closed
      && both.closed && both.originated == [CloseRead] && other.closed && other.originated == [CloseRead]
  {
    hide Do, New;
    EndOfInput(isClient, reliable, start, at, c);
    var ended := Do(New(isClient, false, reliable, start), ReadEOF, at, c);
    PeerAcknowledges(ended, false, ackAt, c);
    PeerSays(ended, false, peerAt, c);
    PeerSays(Do(ended, ControlAck(Terminal(CloseRead)), ackAt, c), true, peerAt, c);
    PeerAcknowledges(Do(ended, PeerCloseRead, peerAt, c), true, ackAt, c);
  }
}
