/** What each whole call on the close and reset machine brings about. ArqTerminal composes a call from the methods of
    the source; here its outcome is read off the fields before the call: which packet it queues, which flags it raises,
    whether it closes the stream, what is awaited until when and what stays outstanding. First come the methods, then
    the calls, which CallOutcome joins, then what a drain delivers, and last the inbound side, the times and the end. */
module ArqOutcomes {
  import opened Words
  import opened ArqTerminal

  /** Nothing keeps the packet from going out. */
  predicate Unbarred(t: T, kind: Kind) {
    !t.closed && !t.isVirtual && !t.rst.sent && !t.rst.received && !Of(t, kind).sent
  }

  function Tracking(t: T, kind: Kind): set<Tracked> {
    if t.reliable then t.controlSndBuf + {Terminal(kind)} else t.controlSndBuf
  }

  /** The state after a terminal packet went out. */
  function WithSent(t: T, kind: Kind, now: int, c: Settings): T {
    var s := t.(stopLocalRead := true, deferredPacket := None, deferredDeadline := None,
      waitingAckFor := Some(kind), ackWaitDeadline := Some(now + c.ackWait),
      originated := t.originated + [kind]);
    match kind
    case CloseRead => s.(closeRead := t.closeRead.(sent := true),
      state := if t.closeRead.received then ClosingDown else HalfClosedLocal,
      controlSndBuf := Tracking(t, kind))
    case CloseWrite => s.(closeWrite := t.closeWrite.(sent := true), localWriterBroken := true,
      localWriteClosed := true, rcvBuf := {},
      state := if t.closeRead.received then ClosingDown else t.state,
      controlSndBuf := Tracking(t, kind))
    case Rst => s.(rst := t.rst.(sent := true), state := Reset, sndBuf := {}, rcvBuf := {},
      controlSndBuf := Tracking(t.(controlSndBuf := {}), kind))
  }

  /** A CLOSE_READ just sent is not acknowledged, so the handshake is never complete at once. */
  lemma MarkDoesNotClose(m: T)
    requires m.closeRead.sent && !m.closeRead.acked && m.waitingAckFor == Some(CloseRead)
    ensures TryFinalizeRemoteEOF(m) == m
  {
  }

  lemma NotTracked(t: T, kind: Kind)
    requires Inv(t) && !Of(t, kind).sent
    ensures Terminal(kind) !in t.controlSndBuf && t.waitingAckFor != Some(kind) && !Of(t, kind).acked
  {
    hide Times;
    assert KindHolds(t, kind);
  }

  /** The emit's first section, in one update. */
  function Guarded(t: T, kind: Kind, now: int, c: Settings): T {
    t.(stopLocalRead := true, deferredPacket := None, deferredDeadline := None,
       waitingAckFor := Some(kind), ackWaitDeadline := Some(now + c.ackWait),
       sndBuf := if kind.Rst? then {} else t.sndBuf, rcvBuf := if kind.Rst? then {} else t.rcvBuf,
       controlSndBuf := if kind.Rst? then {} else t.controlSndBuf)
  }

  lemma GuardIs(t: T, kind: Kind, now: int, c: Settings)
    requires Inv(t) && Unbarred(t, kind)
    ensures EmitGuard(t, kind, now, c) == (Guarded(t, kind, now, c), true)
  {
    hide Inv;
    NotTracked(t, kind);
    if kind.Rst? {} else {}
  }

  lemma SendIs(t: T, kind: Kind)
    requires Terminal(kind) !in t.controlSndBuf
    ensures SendTerminal(t, kind) == t.(originated := t.originated + [kind],
      controlSndBuf := if t.reliable then t.controlSndBuf + {Terminal(kind)} else t.controlSndBuf)
  {
    if t.reliable {} else {}
  }

  lemma FinishSends(t: T, kind: Kind, now: int, c: Settings)
    requires Inv(t) && Unbarred(t, kind)
    ensures EmitFinish(Guarded(t, kind, now, c), kind) == WithSent(t, kind, now, c)
  {
    hide Inv, TryFinalizeRemoteEOF, SendTerminal;
    NotTracked(t, kind);
    var m := Marked(Guarded(t, kind, now, c), kind);
    SendIs(m, kind);
    match kind
    case CloseRead => MarkDoesNotClose(m); if t.closeRead.received {} else {}
    case CloseWrite => if t.closeRead.received {} else {}
    case Rst =>
  }

  /** A packet that is not barred is queued, marked sent and waited for; it closes nothing. A barred one ends the
      drain phase, unless the stream is closed or virtual. */
  lemma EmitIs(t: T, kind: Kind, now: int, c: Settings)
    requires Inv(t)
    ensures Emit(t, kind, now, c) ==
      if Unbarred(t, kind) then WithSent(t, kind, now, c)
      else if t.closed || t.isVirtual then t else Undeferred(t).(stopLocalRead := true)
  {
    hide Inv, WithSent, EmitFinish, Guarded;
    if Unbarred(t, kind) {
      GuardIs(t, kind, now, c);
      FinishSends(t, kind, now, c);
    } else {
      GuardCondition(t, kind, now, c);
    }
  }

  // ----- closing, with and without a drain phase -----

  /** The packet that a close without a drain phase queues. A reset is not asked for twice. */
  function Asked(t: T, kind: Kind): Option<Kind> {
    if Unbarred(t, kind) && (kind.Rst? ==> t.deferredPacket != Some(Rst)) then Some(kind) else None
  }

  /** The state once a packet waits for the outbound buffer to drain. */
  function Deferring(t: T, kind: Kind, now: int, c: Settings): T {
    var deadline := now + c.drain;
    t.(state := if t.state.Reset? || t.state.Closed? then t.state else Draining, stopLocalRead := true,
       deferredPacket := Some(kind),
       deferredDeadline := if t.deferredDeadline.None? then Some(deadline)
                           else Some(Max(deadline, t.deferredDeadline.value)))
  }

  lemma UndeferredHolds(t: T)
    requires Inv(t)
    ensures Inv(Undeferred(t)) && Inv(Undeferred(t).(state := Reset))
  {
    hide Inv;
    SameFlagsGood(t, Undeferred(t));
    SameFlagsGood(t, Undeferred(t).(state := Reset));
    assert Good(t, Undeferred(t)) && Good(t, Undeferred(t).(state := Reset));
  }

  // Where the drain phase stands makes no difference to the state after a packet went out.

  lemma SentUndeferred(t: T, kind: Kind, now: int, c: Settings)
    ensures WithSent(Undeferred(t), kind, now, c) == WithSent(t, kind, now, c)
  {
    hide WithSent;
    match kind {
      case CloseRead => CloseReadUndeferred(t, now, c);
      case CloseWrite => CloseWriteUndeferred(t, now, c);
      case Rst => RstUndeferred(t, now, c);
    }
  }

  lemma CloseReadUndeferred(t: T, now: int, c: Settings)
    ensures WithSent(Undeferred(t), CloseRead, now, c) == WithSent(t, CloseRead, now, c)
  {
    if t.closeRead.received {} else {}
  }

  lemma CloseWriteUndeferred(t: T, now: int, c: Settings)
    ensures WithSent(Undeferred(t), CloseWrite, now, c) == WithSent(t, CloseWrite, now, c)
  {
    if t.closeRead.received {} else {}
  }

  lemma RstUndeferred(t: T, now: int, c: Settings)
    ensures WithSent(Undeferred(t), Rst, now, c) == WithSent(t, Rst, now, c)
  {
  }

  lemma SentResetting(t: T, now: int, c: Settings)
    ensures WithSent(Undeferred(t).(state := Reset), Rst, now, c) == WithSent(t, Rst, now, c)
  {
  }

  lemma SentDeferring(t: T, now: int, c: Settings)
    ensures WithSent(Deferring(t, CloseRead, now, c), CloseRead, now, c) == WithSent(t, CloseRead, now, c)
  {
    if t.closeRead.received {} else {}
  }

  lemma ResetNowIs(t: T, now: int, c: Settings)
    requires Inv(t)
    ensures CloseNow(t, Rst, now, c) == if Asked(t, Rst).Some? then WithSent(t, Rst, now, c) else t
  {
    hide Inv, Emit, WithSent;
    var u := Undeferred(t).(state := Reset);
    UndeferredHolds(t);
    SentResetting(t, now, c);
    if Unbarred(t, Rst) { NotTracked(t, Rst); }
    EmitIs(u, Rst, now, c);
  }

  lemma CloseNowIs(t: T, kind: Kind, now: int, c: Settings)
    requires Inv(t)
    ensures CloseNow(t, kind, now, c) ==
      if Asked(t, kind).Some? then WithSent(t, kind, now, c)
      else if kind.Rst? || t.closed || t.isVirtual then t else Undeferred(t).(stopLocalRead := true)
  {
    hide Inv, Emit, WithSent;
    if kind.Rst? {
      ResetNowIs(t, now, c);
    } else {
      EmitIs(t, kind, now, c);
    }
  }

  predicate DrainExpired(t: T, now: int) {
    t.deferredDeadline.Some? && now > t.deferredDeadline.value
  }

  /** The packet that is queued when the drain phase is looked at: the deferred one once nothing is
      outstanding, a reset once the deadline has passed. */
  function DrainOver(t: T, empty: bool, now: int): Option<Kind> {
    if t.deferredPacket.None? then None
    else if empty then (if Unbarred(t, t.deferredPacket.value) then t.deferredPacket else None)
    else if DrainExpired(t, now) && Unbarred(t, Rst) then Some(Rst)
    else None
  }

  lemma SettleIs(t: T, now: int, c: Settings)
    requires Inv(t)
    ensures var t' := SettleTerminalDrain(t, now, c); var over := DrainOver(t, t.sndBuf == {}, now);
      if over.Some? then t' == WithSent(t, over.value, now, c)
      else if t.closed || t.deferredPacket.None? || (t.sndBuf != {} && !DrainExpired(t, now)) then t' == t
      else t' == Undeferred(t) || t' == Undeferred(t).(stopLocalRead := true)
  {
    hide Inv, CloseNow, WithSent;
    UndeferredHolds(t);
    if t.deferredPacket.Some? {
      CloseNowIs(Undeferred(t), t.deferredPacket.value, now, c);
      SentUndeferred(t, t.deferredPacket.value, now, c);
    }
    ResetNowIs(Undeferred(t), now, c);
    SentUndeferred(t, Rst, now, c);
  }

  lemma DeferIs(t: T, kind: Kind, now: int, c: Settings)
    requires Inv(t) && kind.CloseRead?
    ensures var t' := DeferTerminalPacket(t, kind, now, c);
      if t.closed || t.isVirtual then t' == t
      else if t.sndBuf != {} then t' == Deferring(t, kind, now, c)
      else if Unbarred(t, kind) then t' == WithSent(t, kind, now, c)
      else t' == Undeferred(t).(state := Deferring(t, kind, now, c).state, stopLocalRead := true)
  {
    hide Inv, SettleTerminalDrain, WithSent;
    SentDeferring(t, now, c);
    var d := Deferring(t, kind, now, c);
    SameFlagsGood(t, d);
    assert Inv(d) by { assert Good(t, d); }
    SettleIs(d, now, c);
  }

  lemma ResetAfterDrainIs(t: T, now: int, c: Settings)
    requires Inv(t)
    ensures CloseAfterDrain(t, Rst, now, c) ==
      if Asked(t, Rst).None? then t
      else if t.sndBuf == {} then WithSent(t, Rst, now, c)
      else Deferring(Undeferred(t).(state := Reset), Rst, now, c)
  {
    hide Inv, Emit, SettleTerminalDrain, WithSent;
    UndeferredHolds(t);
    SentResetting(t, now, c);
    if Unbarred(t, Rst) { NotTracked(t, Rst); }
    EmitIs(Undeferred(t).(state := Reset), Rst, now, c);
  }

  // ----- what a call queues -----

  /** What is queued by a close that waits for the outbound buffer to drain. A CLOSE_WRITE does not wait. */
  function AskedOnceDrained(t: T, kind: Kind): Option<Kind> {
    if t.sndBuf == {} || kind.CloseWrite? then Asked(t, kind) else None
  }

  predicate PeerSaidAll(t: T) {
    && t.closeRead.received
    && (t.localWriterBroken || (t.rcvBuf == {} && t.pendingInbound == 0 && !t.localWritePending))
  }

  predicate OwnEndSettled(t: T) {
    && (t.closeRead.acked || (t.closeRead.sent && t.waitingAckFor != Some(CloseRead)))
    && (if t.localWriterBroken then t.closeWrite.acked || t.closeWrite.received
        else t.closeWrite.sent ==> t.closeWrite.acked)
  }

  /** A client that stopped writing has everything acknowledged and nothing left to do. */
  predicate ClientDone(t: T) {
    && t.isClient && t.localWriterBroken && t.closeRead.acked && t.closeWrite.acked
    && t.sndBuf == {} && t.rcvBuf == {} && t.pendingInbound == 0 && !t.localWritePending
    && t.waitingAckFor.None? && t.deferredPacket.None?
  }

  /** The close handshake is complete. */
  predicate Complete(t: T) {
    (PeerSaidAll(t) && OwnEndSettled(t)) || ClientDone(t)
  }

  predicate GraceOver(t: T, now: int, c: Settings) {
    && t.isClient && t.closeRead.acked && (t.closeRead.received || t.localWriterBroken)
    && !t.closeWrite.acked && !t.closeWrite.received
    && t.rcvBuf == {} && t.pendingInbound == 0 && !t.localWritePending
    && ((t.clientEOFAt.Some? && now >= t.clientEOFAt.value + c.grace)
        || (t.closeReadAckedAt.Some? && now >= t.closeReadAckedAt.value + c.grace))
  }

  predicate AckOverdue(t: T, now: int) {
    t.waitingAckFor.Some? && t.ackWaitDeadline.Some? && now > t.ackWaitDeadline.value
  }

  /** What the periodic tick queues: during a drain phase its packet, or a reset when the drain stalls; a reset for
      an overdue acknowledgment; a CLOSE_WRITE after the grace; a reset of an idle stream with nothing in flight. */
  function OwedByTick(t: T, stalled: bool, now: int, c: Settings): Option<Kind> {
    if t.deferredPacket.Some? then
      if t.sndBuf == {} || DrainExpired(t, now) then DrainOver(t, t.sndBuf == {}, now)
      else if stalled then Asked(t, Rst) else None
    else if AckOverdue(t, now) then Asked(t, Rst)
    else if GraceOver(t, now, c) && Unbarred(t, CloseWrite) then Some(CloseWrite)
    else if now > t.lastActivity + c.inactivity && t.sndBuf == {} && !(t.reliable && t.controlSndBuf != {})
      then Asked(t, Rst)
    else None
  }

  predicate Acknowledges(t: T, item: Tracked) {
    item in t.controlSndBuf || (item.Terminal? && t.waitingAckFor == Some(item.kind))
  }

  /** The terminal packet a call queues, if any. */
  function Owed(t: T, call: Call, now: int, c: Settings): Option<Kind> {
    match call
    case ReadEOF => AskedOnceDrained(t, CloseRead)
    case ReadFailed(afterDrain) => if afterDrain then AskedOnceDrained(t, Rst) else Asked(t, Rst)
    case CloseStream(kind, afterDrain) => if afterDrain then AskedOnceDrained(t, kind) else Asked(t, kind)
    case AckData(sn) =>
      if sn !in t.sndBuf || (t.closeRead.received && Complete(t.(sndBuf := t.sndBuf - {sn}))) then None
      else DrainOver(t, t.sndBuf == {sn}, now)
    case Drained => DrainOver(t, t.sndBuf == {}, now)
    case PeerCloseWrite => DrainOver(t, true, now)
    case Tick(stalled) => OwedByTick(t, stalled, now, c)
    case DataExpired => Asked(t, Rst)
    case ControlExpired(item) =>
      if item in t.controlSndBuf && item != Terminal(Rst) && !item.StreamResult? then Asked(t, Rst) else None
    case ControlAck(item) =>  // the broken writer's client stops sending as well
      if item == Terminal(CloseWrite) && Acknowledges(t, item) && t.isClient && !t.closeRead.received
        then AskedOnceDrained(t, CloseRead) else None
    case FailWriting => Asked(t, CloseWrite)
    case ArriveData => if t.localWriterBroken then Asked(t, CloseWrite) else None
    case ProcessData(_, _) => if t.localWriterBroken then Asked(t, CloseWrite) else None
    case _ => None
  }

  function Logged(log: seq<Kind>, kind: Option<Kind>): seq<Kind> {
    if kind.None? then log else log + [kind.value]
  }

  predicate EndsAre(ends: Ends, sent: bool, received: bool, acked: bool) {
    ends.sent == sent && ends.received == received && ends.acked == acked
  }

  /** The call completes the close handshake or what the peer's reset left to write, is the acknowledgment or the
      failure of the last packet of the stream, or shuts it down at once. */
  predicate Closes(t: T, call: Call, now: int, c: Settings) {
    match call
    case PeerCloseRead => Complete(t.(closeRead := t.closeRead.(received := true)))
    case PeerCloseWrite =>
      var w, owed := t.(closeWrite := t.closeWrite.(received := true), sndBuf := {}), DrainOver(t, true, now);
      Complete(if owed.Some? then WithSent(w, owed.value, now, c) else w.(deferredPacket := None))
    case AckData(sn) => sn in t.sndBuf && t.closeRead.received && Complete(t.(sndBuf := t.sndBuf - {sn}))
    case ControlAck(Terminal(kind)) => Acknowledges(t, Terminal(kind)) && ClosesWhenAcked(t, kind)
    case ControlAck(StreamResult(_)) => call.item in t.controlSndBuf
    case ControlExpired(item) => item in t.controlSndBuf && (item == Terminal(Rst) || item.StreamResult?)
    case IdleWriter => Complete(t) || PeerResetDrained(t)
    case DoneWriting => var d := t.(localWritePending := false); Complete(d) || PeerResetDrained(d)
    case Tick(_) =>
      && t.deferredPacket.None?
      && if AckOverdue(t, now) then t.waitingAckFor == Some(Rst) else PeerResetDrained(t)
    case Force => true
    case _ => false
  }

  function Awaiting(t: T, acked: Kind): Option<Kind> {
    if t.waitingAckFor == Some(acked) then None else t.waitingAckFor
  }

  function AwaitingUntil(t: T, acked: Kind): Option<int> {
    if t.waitingAckFor == Some(acked) then None else t.ackWaitDeadline
  }

  predicate ClosesWhenAcked(t: T, kind: Kind) {
    match kind
    case CloseRead => Complete(t.(closeRead := t.closeRead.(acked := true), waitingAckFor := Awaiting(t, kind)))
    case CloseWrite => Complete(t.(closeWrite := t.closeWrite.(acked := true), localWriterBroken := true,
                                   waitingAckFor := Awaiting(t, kind)))
    case Rst => true
  }

  predicate PeerResetDrained(t: T) {
    t.rst.received && t.rcvNxt !in t.rcvBuf && t.pendingInbound == 0 && !t.localWritePending
  }

  /** The call acknowledges the terminal packet of this kind. */
  predicate Acks(t: T, call: Call, kind: Kind) {
    call == ControlAck(Terminal(kind)) && Acknowledges(t, Terminal(kind))
  }

  /** The terminal flags after the call. */
  predicate FlagsFollow(t: T, call: Call, owed: Option<Kind>, t': T) {
    && EndsAre(t'.closeRead, t.closeRead.sent || owed == Some(CloseRead),
               t.closeRead.received || (call.PeerCloseRead? && !t.isVirtual),
               t.closeRead.acked || Acks(t, call, CloseRead))
    && EndsAre(t'.closeWrite, t.closeWrite.sent || owed == Some(CloseWrite),
               t.closeWrite.received || (call.PeerCloseWrite? && !t.isVirtual),
               t.closeWrite.acked || Acks(t, call, CloseWrite))
    && EndsAre(t'.rst, t.rst.sent || owed == Some(Rst), t.rst.received || (call.PeerRst? && !t.isVirtual),
               t.rst.acked || Acks(t, call, Rst))
    && t'.localWriterBroken == (t.localWriterBroken || call.FailWriting? || owed == Some(CloseWrite)
                                || Acks(t, call, CloseWrite))
  }

  predicate ShutNow(t: T, call: Call, now: int, c: Settings) {
    !t.closed && Closes(t, call, now, c) && (call.Force? || !t.isVirtual)
  }

  predicate AwaitedAcked(t: T, call: Call) {
    t.waitingAckFor.Some? && !t.waitingAckFor.value.Rst? && Acks(t, call, t.waitingAckFor.value)
  }

  /** What is awaited after the call and until when, and what is outstanding. */
  predicate BuffersFollow(t: T, call: Call, owed: Option<Kind>, shut: bool, t': T, at: int) {
    && (if shut then t'.waitingAckFor.None? && t'.ackWaitDeadline.None?
        else if owed.Some? then t'.waitingAckFor == owed && t'.ackWaitDeadline == Some(at)
        else if AwaitedAcked(t, call) then t'.waitingAckFor.None? && t'.ackWaitDeadline.None?
        else t'.waitingAckFor == t.waitingAckFor && t'.ackWaitDeadline == t.ackWaitDeadline)
    && (owed.Some? ==> t'.stopLocalRead)
    && (owed.Some? || shut ==> t'.deferredPacket.None? && t'.deferredDeadline.None?)
    && t'.sndBuf == (
      if shut || owed == Some(Rst) || Acks(t, call, Rst) then {} else
      match call
      case ReadAppend(sn) => t.sndBuf + {sn}
      case AckData(sn) => t.sndBuf - {sn}
      case PeerCloseWrite => if t.isVirtual then t.sndBuf else {}
      case PeerRst => if t.isVirtual then t.sndBuf else {}
      case _ => t.sndBuf)
  }

  ghost predicate Outcome(t: T, call: Call, now: int, c: Settings) {
    var t', owed, shut := Do(t, call, now, c), Owed(t, call, now, c), ShutNow(t, call, now, c);
    && t'.originated == Logged(t.originated, owed)
    && t'.closed == (t.closed || shut)
    && FlagsFollow(t, call, owed, t') && BuffersFollow(t, call, owed, shut, t', now + c.ackWait)
  }

  /** The packet went out, if there is one, and in the fields an outcome speaks of nothing else happened. */
  predicate Moves(t: T, t': T, sent: Option<Kind>, at: int) {
    && t'.originated == Logged(t.originated, sent)
    && t'.closed == t.closed && t'.isVirtual == t.isVirtual
    && EndsAre(t'.closeRead, t.closeRead.sent || sent == Some(CloseRead), t.closeRead.received, t.closeRead.acked)
    && EndsAre(t'.closeWrite, t.closeWrite.sent || sent == Some(CloseWrite), t.closeWrite.received, t.closeWrite.acked)
    && EndsAre(t'.rst, t.rst.sent || sent == Some(Rst), t.rst.received, t.rst.acked)
    && t'.localWriterBroken == (t.localWriterBroken || sent == Some(CloseWrite))
    && t'.waitingAckFor == (if sent.Some? then sent else t.waitingAckFor)
    && t'.ackWaitDeadline == (if sent.Some? then Some(at) else t.ackWaitDeadline)
    && t'.sndBuf == (if sent == Some(Rst) then {} else t.sndBuf)
    && (sent.Some? ==> t'.stopLocalRead && t'.deferredPacket.None? && t'.deferredDeadline.None?)
  }

  lemma SentMoves(t: T, kind: Kind, now: int, c: Settings)
    ensures Moves(t, WithSent(t, kind, now, c), Some(kind), now + c.ackWait)
  {
    hide WithSent, Moves;
    match kind {
      case CloseRead => CloseReadMoves(t, now, c);
      case CloseWrite => CloseWriteMoves(t, now, c);
      case Rst => RstMoves(t, now, c);
    }
  }

  lemma CloseReadMoves(t: T, now: int, c: Settings)
    ensures Moves(t, WithSent(t, CloseRead, now, c), Some(CloseRead), now + c.ackWait)
  {
  }

  lemma CloseWriteMoves(t: T, now: int, c: Settings)
    ensures Moves(t, WithSent(t, CloseWrite, now, c), Some(CloseWrite), now + c.ackWait)
  {
  }

  lemma RstMoves(t: T, now: int, c: Settings)
    ensures Moves(t, WithSent(t, Rst, now, c), Some(Rst), now + c.ackWait)
  {
  }

  lemma SameMoves(t: T, at: int)
    ensures Moves(t, t, None, at)
  {
  }

  lemma EndingMoves(t: T, state: StreamState, stop: bool, at: int)
    ensures Moves(t, Undeferred(t).(state := state, stopLocalRead := stop), None, at)
  {
  }

  /** A drain phase ended without a packet. */
  lemma UndeferredMoves(t: T, state: StreamState, at: int)
    ensures Moves(t, t, None, at) && Moves(t, Undeferred(t), None, at)
    ensures Moves(t, Undeferred(t).(stopLocalRead := true), None, at)
    ensures Moves(t, Undeferred(t).(state := state, stopLocalRead := true), None, at)
  {
    hide Moves;
    SameMoves(t, at);
    EndingMoves(t, t.state, t.stopLocalRead, at);
    EndingMoves(t, t.state, true, at);
    EndingMoves(t, state, true, at);
  }

  lemma DeferringMoves(t: T, kind: Kind, now: int, c: Settings)
    ensures Moves(t, Deferring(t, kind, now, c), None, now + c.ackWait)
  {
  }

  lemma ResetDeferringMoves(t: T, now: int, c: Settings)
    ensures Moves(t, Deferring(Undeferred(t).(state := Reset), Rst, now, c), None, now + c.ackWait)
  {
    hide Moves, Deferring;
    var u := Undeferred(t).(state := Reset);
    DeferringMoves(u, Rst, now, c);
    MovesAlike(t, u, Deferring(u, Rst, now, c), now + c.ackWait);
  }

  lemma MovesAlike(t: T, u: T, t': T, at: int)
    requires u == Undeferred(t).(state := Reset) && Moves(u, t', None, at)
    ensures Moves(t, t', None, at)
  {
  }

  lemma CloseNowMoves(t: T, kind: Kind, now: int, c: Settings)
    requires Inv(t)
    ensures Moves(t, CloseNow(t, kind, now, c), Asked(t, kind), now + c.ackWait)
  {
    hide Inv, CloseNow, WithSent, Moves;
    CloseNowIs(t, kind, now, c);
    SentMoves(t, kind, now, c);
    UndeferredMoves(t, Reset, now + c.ackWait);
  }

  lemma SettleMoves(t: T, now: int, c: Settings)
    requires Inv(t)
    ensures Moves(t, SettleTerminalDrain(t, now, c), DrainOver(t, t.sndBuf == {}, now), now + c.ackWait)
  {
    hide Inv, SettleTerminalDrain, WithSent, Moves;
    SettleIs(t, now, c);
    UndeferredMoves(t, Reset, now + c.ackWait);
    if DrainOver(t, t.sndBuf == {}, now).Some? { SentMoves(t, DrainOver(t, t.sndBuf == {}, now).value, now, c); }
  }

  lemma AfterDrainMoves(t: T, kind: Kind, now: int, c: Settings)
    requires Inv(t)
    ensures Moves(t, CloseAfterDrain(t, kind, now, c), AskedOnceDrained(t, kind), now + c.ackWait)
  {
    hide Inv, DeferTerminalPacket, Emit, WithSent, Moves, Deferring;
    SentMoves(t, kind, now, c);
    UndeferredMoves(t, Deferring(t, kind, now, c).state, now + c.ackWait);
    DeferringMoves(t, kind, now, c);
    ResetDeferringMoves(t, now, c);
    match kind {
      case CloseRead => DeferIs(t, CloseRead, now, c);
      case CloseWrite => EmitIs(t, CloseWrite, now, c);
      case Rst => ResetAfterDrainIs(t, now, c);
    }
  }

  // ----- one lemma for each kind of call -----

  /** Calls that only queue, defer or drop a packet. */
  predicate OnlyQueues(call: Call) {
    || call.ReadEOF? || call.ReadFailed? || call.CloseStream? || call.Drained? || call.DataExpired?
    || call.ArriveData? || call.ProcessData? || call.TakeRun? || call.Track?
  }

  lemma NoAck(t: T, call: Call, kind: Kind)
    requires !call.ControlAck?
    ensures !Acks(t, call, kind)
  {
  }

  lemma QueuesFlags(t: T, call: Call, owed: Option<Kind>, t': T, at: int)
    requires OnlyQueues(call) && Moves(t, t', owed, at)
    ensures FlagsFollow(t, call, owed, t')
  {
    hide Acks;
    NoAck(t, call, CloseRead);
    NoAck(t, call, CloseWrite);
    NoAck(t, call, Rst);
  }

  lemma QueuesBuffers(t: T, call: Call, owed: Option<Kind>, t': T, at: int)
    requires OnlyQueues(call) && Moves(t, t', owed, at)
    ensures BuffersFollow(t, call, owed, false, t', at)
  {
  }

  lemma QueuesOutcome(t: T, call: Call, now: int, c: Settings)
    requires OnlyQueues(call) && Moves(t, Do(t, call, now, c), Owed(t, call, now, c), now + c.ackWait)
    ensures Outcome(t, call, now, c)
  {
    hide Do, Owed, FlagsFollow, BuffersFollow;
    QueuesFlags(t, call, Owed(t, call, now, c), Do(t, call, now, c), now + c.ackWait);
    QueuesBuffers(t, call, Owed(t, call, now, c), Do(t, call, now, c), now + c.ackWait);
  }

  lemma MovesAfter(t: T, e: T, t': T, sent: Option<Kind>, at: int)
    requires Moves(t, e, None, at) && Moves(e, t', sent, at)
    ensures Moves(t, t', sent, at)
  {
  }

  predicate SameShown(t: T, e: T) {
    && e.localWriterBroken == t.localWriterBroken && e.sndBuf == t.sndBuf && e.isVirtual == t.isVirtual
    && e.ackWaitDeadline == t.ackWaitDeadline
  }

  /** An event that touches none of the fields the invariant and the outcome speak of. */
  lemma EventHolds(t: T, e: T, at: int)
    requires Inv(t) && SameFlags(t, e)
    ensures Inv(e)
    ensures SameShown(t, e) ==> Moves(t, e, None, at)
  {
    hide Inv;
    SameFlagsGood(t, e);
    assert Good(t, e);
  }

  lemma CloseStreamOutcome(t: T, kind: Kind, afterDrain: bool, now: int, c: Settings)
    requires Inv(t)
    ensures Outcome(t, CloseStream(kind, afterDrain), now, c)
    ensures kind.Rst? ==> Outcome(t, ReadFailed(afterDrain), now, c)
  {
    hide Inv, CloseNow, CloseAfterDrain, Asked, AskedOnceDrained, Moves, Outcome;
    AfterDrainMoves(t, kind, now, c);
    CloseNowMoves(t, kind, now, c);
    QueuesOutcome(t, CloseStream(kind, afterDrain), now, c);
    if kind.Rst? { QueuesOutcome(t, ReadFailed(afterDrain), now, c); }
  }

  lemma ReadEOFOutcome(t: T, now: int, c: Settings)
    requires Inv(t)
    ensures Outcome(t, ReadEOF, now, c)
  {
    hide Inv, CloseAfterDrain, Moves, Outcome;
    var e := NotedEOF(t, now);
    NotedSame(t, now);
    EventHolds(t, e, now + c.ackWait);
    AfterDrainMoves(e, CloseRead, now, c);
    MovesAfter(t, e, CloseAfterDrain(e, CloseRead, now, c), AskedOnceDrained(e, CloseRead), now + c.ackWait);
    QueuesOutcome(t, ReadEOF, now, c);
  }

  lemma DrainedOutcome(t: T, now: int, c: Settings)
    requires Inv(t)
    ensures Outcome(t, Drained, now, c) && Outcome(t, DataExpired, now, c)
  {
    hide Inv, CloseNow, SettleTerminalDrain, Moves, Outcome;
    SettleMoves(t, now, c);
    CloseNowMoves(t, Rst, now, c);
    QueuesOutcome(t, Drained, now, c);
    QueuesOutcome(t, DataExpired, now, c);
  }

  lemma ArriveDataOutcome(t: T, now: int, c: Settings)
    requires Inv(t)
    ensures Outcome(t, ArriveData, now, c)
  {
    hide Inv, CloseNow, Moves, Outcome;
    var e := t.(pendingInbound := t.pendingInbound + 1);
    SameMoves(t, now + c.ackWait);
    EventHolds(t, e, now + c.ackWait);
    CloseNowMoves(t, CloseWrite, now, c);
    if Unbarred(t, CloseWrite) { NotTracked(t, CloseWrite); }
    QueuesOutcome(t, ArriveData, now, c);
  }

  lemma ProcessDataOutcome(t: T, sn: uint16, buffered: bool, now: int, c: Settings)
    requires Inv(t)
    ensures Outcome(t, ProcessData(sn, buffered), now, c)
  {
    hide Inv, CloseNow, Dequeued, Stored, Moves, Outcome;
    var e := Dequeued(t);
    var stored := Stored(e, sn, buffered, now);
    StoredSame(t, sn, buffered, now);
    DequeuedAlike(t, sn, buffered, now);
    EventHolds(t, e, now + c.ackWait);
    EventHolds(t, stored, now + c.ackWait);
    CloseNowMoves(e, CloseWrite, now, c);
    MovesAfter(t, e, CloseNow(e, CloseWrite, now, c), Asked(e, CloseWrite), now + c.ackWait);
    if Of(t, CloseWrite).acked || Unbarred(t, CloseWrite) { AckedIsSent(t, CloseWrite); }
    QueuesOutcome(t, ProcessData(sn, buffered), now, c);
  }

  lemma AckedIsSent(t: T, kind: Kind)
    requires Inv(t)
    ensures Of(t, kind).acked || t.waitingAckFor == Some(kind) ==> Of(t, kind).sent
  {
    hide Times;
    assert KindHolds(t, kind);
  }

  lemma DequeuedAlike(t: T, sn: uint16, buffered: bool, now: int)
    ensures var e := Dequeued(t); var s := Stored(e, sn, buffered, now);
      && SameShown(t, e) && SameShown(t, s)
      && e.localWriterBroken == t.localWriterBroken && e.isVirtual == t.isVirtual && e.deferredPacket == t.deferredPacket
  {
  }

  lemma WriterTookOutcome(t: T, count: nat, now: int, c: Settings)
    requires Inv(t)
    ensures Outcome(t, TakeRun(count), now, c)
  {
    hide Inv, Moves, Outcome;
    EventHolds(t, WriterTook(t, count), now + c.ackWait);
    QueuesOutcome(t, TakeRun(count), now, c);
  }

  lemma TrackMoves(t: T, item: Tracked, now: int, c: Settings)
    ensures Moves(t, Do(t, Track(item), now, c), None, now + c.ackWait)
  {
    if item.Terminal? {} else {}
  }

  lemma TrackOutcome(t: T, item: Tracked, now: int, c: Settings)
    ensures Outcome(t, Track(item), now, c)
  {
    hide Moves, Outcome, Do;
    TrackMoves(t, item, now, c);
    QueuesOutcome(t, Track(item), now, c);
  }

  // ----- calls that may close the stream -----

  /** The final close, if it is taken, and otherwise nothing. */
  predicate Shuts(t: T, t': T, shut: bool) {
    if !shut then t' == t
    else
      && t'.originated == t.originated && t'.closed && t'.isVirtual == t.isVirtual
      && t'.closeRead == t.closeRead && t'.closeWrite == t.closeWrite && t'.rst == t.rst
      && t'.localWriterBroken == t.localWriterBroken && t'.waitingAckFor.None? && t'.ackWaitDeadline.None?
      && t'.deferredPacket.None? && t'.deferredDeadline.None? && t'.stopLocalRead == t.stopLocalRead && t'.sndBuf == {}
  }

  lemma FinalizeIs(t: T)
    ensures Shuts(t, FinalizeClose(t), !t.closed && !t.isVirtual)
  {
  }

  lemma SameShuts(t: T)
    ensures Shuts(t, t, false)
  {
  }

  lemma HandshakeIs(t: T)
    requires Inv(t)
    ensures HandshakeDone(t) || LocalDisconnectDone(t) <==> !t.closed && Complete(t)
  {
    hide Inv;
    AckedIsSent(t, CloseRead);
  }

  lemma RemoteEOFIs(t: T)
    requires Inv(t)
    ensures Shuts(t, TryFinalizeRemoteEOF(t), !t.closed && !t.isVirtual && Complete(t))
  {
    hide Inv, FinalizeClose, Shuts, Complete, HandshakeDone, LocalDisconnectDone;
    HandshakeIs(t);
    FinalizeIs(t);
    SameShuts(t);
  }

  lemma PeerResetIs(t: T)
    ensures Shuts(t, TryFinalizePeerResetDrain(t), !t.closed && !t.isVirtual && PeerResetDrained(t))
  {
    hide FinalizeClose, Shuts;
    FinalizeIs(t);
    SameShuts(t);
  }

  /** The fields the handshake depends on. */
  predicate SameHandshake(a: T, b: T) {
    && a.isClient == b.isClient && a.closeRead == b.closeRead && a.closeWrite == b.closeWrite
    && a.localWriterBroken == b.localWriterBroken && a.localWritePending == b.localWritePending
    && a.sndBuf == b.sndBuf && a.rcvBuf == b.rcvBuf && a.pendingInbound == b.pendingInbound
    && a.waitingAckFor == b.waitingAckFor && a.deferredPacket == b.deferredPacket
  }

  lemma CompleteAlike(a: T, b: T)
    requires SameHandshake(a, b)
    ensures Complete(a) <==> Complete(b)
  {
  }

  lemma RaisedHolds(t: T, r: T)
    requires Inv(t) && Raises(t, r)
    ensures Inv(r)
  {
    hide Inv;
    RaisesGood(t, r);
    assert Good(t, r);
  }

  /** What the call did before the final close is tried. */
  predicate EventIs(t: T, call: Call, owed: Option<Kind>, e: T, at: int) {
    && e.originated == Logged(t.originated, owed) && e.closed == t.closed
    && FlagsFollow(t, call, owed, e) && BuffersFollow(t, call, owed, false, e, at)
  }

  lemma FlagsThenShut(t: T, call: Call, owed: Option<Kind>, e: T, t': T, shut: bool)
    requires FlagsFollow(t, call, owed, e) && Shuts(e, t', shut)
    ensures FlagsFollow(t, call, owed, t')
  {
    hide Acks;
    if shut {} else {}
  }

  lemma EventThenShut(t: T, call: Call, owed: Option<Kind>, e: T, t': T, shut: bool, at: int)
    requires EventIs(t, call, owed, e, at) && Shuts(e, t', shut)
    ensures t'.originated == Logged(t.originated, owed) && t'.closed == (t.closed || shut)
    ensures FlagsFollow(t, call, owed, t') && BuffersFollow(t, call, owed, shut, t', at)
  {
    hide Acks, Logged, FlagsFollow;
    FlagsThenShut(t, call, owed, e, t', shut);
    if shut {} else {}
  }

  lemma ShutOutcome(t: T, call: Call, now: int, c: Settings, e: T)
    requires EventIs(t, call, Owed(t, call, now, c), e, now + c.ackWait)
    requires Shuts(e, Do(t, call, now, c), ShutNow(t, call, now, c))
    ensures Outcome(t, call, now, c)
  {
    hide Do, Owed, ShutNow, Shuts, EventIs, FlagsFollow, BuffersFollow;
    EventThenShut(t, call, Owed(t, call, now, c), e, Do(t, call, now, c), ShutNow(t, call, now, c), now + c.ackWait);
  }

  lemma FlagsThenMoves(t: T, call: Call, e: T, t': T, owed: Option<Kind>, at: int)
    requires FlagsFollow(t, call, None, e) && Moves(e, t', owed, at)
    ensures FlagsFollow(t, call, owed, t')
  {
    hide Acks, Logged;
  }

  lemma BuffersThenMoves(t: T, call: Call, e: T, t': T, owed: Option<Kind>, at: int)
    requires BuffersFollow(t, call, None, false, e, at) && Moves(e, t', owed, at)
    ensures BuffersFollow(t, call, owed, false, t', at)
  {
    hide Acks, EndsAre, Logged;
    if owed.Some? {} else {}
  }

  lemma EventThenMoves(t: T, call: Call, e: T, t': T, owed: Option<Kind>, at: int)
    requires EventIs(t, call, None, e, at) && Moves(e, t', owed, at)
    ensures EventIs(t, call, owed, t', at)
  {
    hide FlagsFollow, BuffersFollow, EndsAre;
    FlagsThenMoves(t, call, e, t', owed, at);
    BuffersThenMoves(t, call, e, t', owed, at);
  }

  lemma MovesOutcome(t: T, call: Call, now: int, c: Settings, e: T)
    requires EventIs(t, call, None, e, now + c.ackWait)
    requires Moves(e, Do(t, call, now, c), Owed(t, call, now, c), now + c.ackWait)
    requires !ShutNow(t, call, now, c)
    ensures Outcome(t, call, now, c)
  {
    hide Do, Owed, ShutNow, Shuts, EventIs, Moves;
    EventThenMoves(t, call, e, Do(t, call, now, c), Owed(t, call, now, c), now + c.ackWait);
    SameShuts(Do(t, call, now, c));
    ShutOutcome(t, call, now, c, Do(t, call, now, c));
  }

  lemma CloseReadReceivedIs(t: T, r: T, at: int)
    requires r == t.(closeRead := t.closeRead.(received := true), state := r.state) && !t.isVirtual
    ensures EventIs(t, PeerCloseRead, None, r, at)
    ensures Complete(r) == Complete(t.(closeRead := t.closeRead.(received := true)))
  {
    hide Complete;
    CompleteAlike(r, t.(closeRead := t.closeRead.(received := true)));
  }

  lemma PeerCloseReadOutcome(t: T, now: int, c: Settings)
    requires Inv(t)
    ensures Outcome(t, PeerCloseRead, now, c)
  {
    hide Inv, TryFinalizeRemoteEOF, Complete, Shuts, EventIs, Outcome;
    if t.isVirtual {
      NothingHappens(t, PeerCloseRead, now + c.ackWait);
      SameShuts(t);
      ShutOutcome(t, PeerCloseRead, now, c, t);
    } else {
      var r := t.(closeRead := t.closeRead.(received := true),
        state := if t.closeRead.sent then ClosingDown else HalfClosedRemote);
      RaisedHolds(t, r);
      RemoteEOFIs(r);
      CloseReadReceivedIs(t, r, now + c.ackWait);
      ShutOutcome(t, PeerCloseRead, now, c, r);
    }
  }

  lemma NothingHappens(t: T, call: Call, at: int)
    requires !call.ControlAck? && !call.FailWriting? && !call.ReadAppend? && !call.AckData?
    requires call.PeerCloseRead? || call.PeerCloseWrite? || call.PeerRst? ==> t.isVirtual
    ensures EventIs(t, call, None, t, at)
  {
    hide Acks;
    NoAck(t, call, CloseRead);
    NoAck(t, call, CloseWrite);
    NoAck(t, call, Rst);
  }

  lemma PeerRstOutcome(t: T, now: int, c: Settings)
    requires Inv(t)
    ensures Outcome(t, PeerRst, now, c)
  {
    hide Inv;
    if t.isVirtual {} else {}
  }

  lemma ReadAppendOutcome(t: T, sn: uint16, now: int, c: Settings)
    ensures Outcome(t, ReadAppend(sn), now, c)
  {
  }

  lemma ForceOutcome(t: T, now: int, c: Settings)
    ensures Outcome(t, Force, now, c)
  {
    hide FinalizeClose;
    FinalizeIs(t.(isVirtual := false));
  }

  lemma FailWritingOutcome(t: T, now: int, c: Settings)
    requires Inv(t)
    ensures Outcome(t, FailWriting, now, c)
  {
    hide Inv, CloseNow;
    var f := t.(localWriterBroken := true, localWritePending := false, rcvBuf := {});
    EventHolds(t, f, now + c.ackWait);
    CloseNowMoves(f, CloseWrite, now, c);
  }

  /** What the write loop tries at the end of a round. */
  lemma WriterEndIs(d: T)
    requires Inv(d)
    ensures Shuts(d, TryFinalizeRemoteEOF(TryFinalizePeerResetDrain(d)),
                  !d.closed && !d.isVirtual && (Complete(d) || PeerResetDrained(d)))
  {
    hide Inv, TryFinalizeRemoteEOF, TryFinalizePeerResetDrain, Complete, PeerResetDrained;
    PeerResetIs(d);
    TryFinalizeGood(d);
    var p := TryFinalizePeerResetDrain(d);
    assert Inv(p) by { assert Good(d, p); }
    RemoteEOFIs(p);
  }

  lemma HalfClosedAlike(t: T)
    ensures var i := MaybeHalfClosed(t);
      && SameHandshake(t, i) && i.rcvNxt == t.rcvNxt && i.rst == t.rst && i.isVirtual == t.isVirtual
  {
    if t.closeRead.received && t.pendingInbound == 0 {} else {}
  }

  lemma HalfClosedEvent(t: T, at: int)
    ensures EventIs(t, IdleWriter, None, MaybeHalfClosed(t), at)
  {
    hide Acks, EventIs;
    NothingHappens(t, IdleWriter, at);
    if t.closeRead.received && t.pendingInbound == 0 && !t.localWriteClosed && !t.closed {
      NothingAlike(t, at);
    }
  }

  lemma NothingAlike(t: T, at: int)
    requires EventIs(t, IdleWriter, None, t, at)
    ensures EventIs(t, IdleWriter, None, t.(localWriteClosed := true), at)
  {
    hide Acks;
  }

  lemma WrittenAlike(t: T, at: int)
    ensures EventIs(t, DoneWriting, None, t.(localWritePending := false), at)
  {
  }

  lemma IdleWriterOutcome(t: T, now: int, c: Settings)
    requires Inv(t)
    ensures Outcome(t, IdleWriter, now, c)
  {
    hide Inv, TryFinalizeRemoteEOF, TryFinalizePeerResetDrain, MaybeHalfClosed, Complete, Shuts, EventIs, Outcome;
    WriterSame(t);
    var i := MaybeHalfClosed(t);
    EventHolds(t, i, now + c.ackWait);
    HalfClosedAlike(t);
    HalfClosedEvent(t, now + c.ackWait);
    CompleteAlike(t, i);
    WriterEndIs(i);
    ShutOutcome(t, IdleWriter, now, c, i);
  }

  lemma DoneWritingOutcome(t: T, now: int, c: Settings)
    requires Inv(t)
    ensures Outcome(t, DoneWriting, now, c)
  {
    hide Inv, TryFinalizeRemoteEOF, TryFinalizePeerResetDrain, Complete, Shuts, EventIs, Outcome;
    var d := t.(localWritePending := false);
    WriterSame(t);
    EventHolds(t, d, now + c.ackWait);
    WriterEndIs(d);
    WrittenAlike(t, now + c.ackWait);
    ShutOutcome(t, DoneWriting, now, c, d);
  }

  lemma DataAckedEvent(t: T, sn: uint16, now: int, at: int)
    ensures EventIs(t, AckData(sn), None, t.(lastActivity := now, sndBuf := t.sndBuf - {sn}), at)
  {
  }

  lemma ClosedSettles(t: T, now: int, c: Settings)
    requires t.closed
    ensures SettleTerminalDrain(t, now, c) == t
  {
  }

  lemma AckDataOutcome(t: T, sn: uint16, now: int, c: Settings)
    requires Inv(t)
    ensures Outcome(t, AckData(sn), now, c)
  {
    hide Inv, SettleTerminalDrain, TryFinalizeRemoteEOF, Complete, EventIs, Moves, Outcome;
    var a := t.(lastActivity := now, sndBuf := t.sndBuf - {sn});
    DataAckedEvent(t, sn, now, now + c.ackWait);
    EventHolds(t, a, now + c.ackWait);
    SameMoves(a, now + c.ackWait);
    RemoteEOFIs(a);
    CompleteAlike(a, t.(sndBuf := t.sndBuf - {sn}));
    assert sn in t.sndBuf ==> (t.sndBuf - {sn} == {} <==> t.sndBuf == {sn});
    if ShutNow(t, AckData(sn), now, c) {
      ClosedSettles(TryFinalizeRemoteEOF(a), now, c);
      ShutOutcome(t, AckData(sn), now, c, a);
    } else {
      SettleMoves(a, now, c);
      MovesOutcome(t, AckData(sn), now, c, a);
    }
  }

  lemma CloseWriteReceivedEvent(t: T, at: int)
    requires !t.isVirtual
    ensures EventIs(t, PeerCloseWrite, None,
                    t.(closeWrite := t.closeWrite.(received := true), stopLocalRead := true, sndBuf := {}), at)
  {
    hide Acks;
    NoAck(t, PeerCloseWrite, CloseRead);
    NoAck(t, PeerCloseWrite, CloseWrite);
    NoAck(t, PeerCloseWrite, Rst);
  }

  lemma SentAlike(a: T, b: T, kind: Kind, now: int, c: Settings)
    requires SameHandshake(a, b)
    ensures SameHandshake(WithSent(a, kind, now, c), WithSent(b, kind, now, c))
  {
    match kind {
      case CloseRead =>
      case CloseWrite =>
      case Rst =>
    }
  }

  lemma UndeferredAlike(w: T, v: T, w1: T)
    requires SameHandshake(w, v)
    requires w1 == Undeferred(w).(stopLocalRead := w1.stopLocalRead) || (w1 == w && w.deferredPacket.None?)
    ensures Complete(w1) == Complete(v.(deferredPacket := None))
  {
    hide Complete;
    CompleteAlike(w1, v.(deferredPacket := None));
  }

  lemma SentCompletes(w: T, v: T, kind: Kind, now: int, c: Settings)
    requires SameHandshake(w, v)
    ensures Complete(WithSent(w, kind, now, c)) == Complete(WithSent(v, kind, now, c))
  {
    hide Complete, SameHandshake, WithSent;
    SentAlike(w, v, kind, now, c);
    CompleteAlike(WithSent(w, kind, now, c), WithSent(v, kind, now, c));
  }

  /** Whether the handshake is complete once the drain phase was looked at. */
  lemma CompleteOnceSettled(w: T, v: T, now: int, c: Settings)
    requires Inv(w) && !w.closed && w.sndBuf == {} && SameHandshake(w, v)
    ensures var owed := DrainOver(w, true, now);
      Complete(SettleTerminalDrain(w, now, c)) <==>
      Complete(if owed.Some? then WithSent(v, owed.value, now, c) else v.(deferredPacket := None))
  {
    hide Inv, SettleTerminalDrain, Complete, WithSent, SameHandshake;
    var w1, owed := SettleTerminalDrain(w, now, c), DrainOver(w, true, now);
    SettleIs(w, now, c);
    if owed.Some? {
      SentCompletes(w, v, owed.value, now, c);
    } else {
      hide DrainOver;
      UndeferredAlike(w, v, w1);
    }
  }

  lemma MovesKeep(t: T, t': T, sent: Option<Kind>, at: int)
    requires Moves(t, t', sent, at)
    ensures t'.closed == t.closed && t'.isVirtual == t.isVirtual
  {
  }

  lemma PeerCloseWriteOutcome(t: T, now: int, c: Settings)
    requires Inv(t)
    ensures Outcome(t, PeerCloseWrite, now, c)
  {
    hide Inv, SettleTerminalDrain, TryFinalizeRemoteEOF, Complete, WithSent, Shuts, EventIs, Moves, Outcome;
    if t.isVirtual {
      NothingHappens(t, PeerCloseWrite, now + c.ackWait);
      SameShuts(t);
      ShutOutcome(t, PeerCloseWrite, now, c, t);
    } else {
      var w := t.(closeWrite := t.closeWrite.(received := true), stopLocalRead := true, sndBuf := {});
      RaisedHolds(t, w);
      CloseWriteReceivedEvent(t, now + c.ackWait);
      SettleMoves(w, now, c);
      var w1 := SettleTerminalDrain(w, now, c);
      SettleGood(w, now, c);
      assert Inv(w1) by { assert Good(w, w1); }
      EventThenMoves(t, PeerCloseWrite, w, w1, DrainOver(t, true, now), now + c.ackWait);
      RemoteEOFIs(w1);
      MovesKeep(w, w1, DrainOver(t, true, now), now + c.ackWait);
      if !t.closed {
        CompleteOnceSettled(w, t.(closeWrite := t.closeWrite.(received := true), sndBuf := {}), now, c);
      }
      ShutOutcome(t, PeerCloseWrite, now, c, w1);
    }
  }

  lemma NotedEvent(t: T, call: Call, e: T, at: int)
    requires e == t.(lastActivity := e.lastActivity, controlSndBuf := e.controlSndBuf)
    requires call.ControlExpired? || call.Tick? || call.ControlAck?
    requires call.ControlAck? && call.item.Terminal? ==> !Acknowledges(t, call.item)
    ensures EventIs(t, call, None, e, at)
  {
    hide Acknowledges;
    assert forall kind :: !Acks(t, call, kind);
  }

  lemma CloseReadAckedEvent(t: T, e: T, now: int, at: int)
    requires Acknowledges(t, Terminal(CloseRead))
    requires e == t.(lastActivity := now, controlSndBuf := e.controlSndBuf,
      closeRead := t.closeRead.(acked := true), closeReadAckedAt := e.closeReadAckedAt, state := e.state,
      waitingAckFor := Awaiting(t, CloseRead), ackWaitDeadline := AwaitingUntil(t, CloseRead))
    ensures EventIs(t, ControlAck(Terminal(CloseRead)), None, e, at)
    ensures Complete(e) == ClosesWhenAcked(t, CloseRead)
  {
    hide Complete;
    CompleteAlike(e, t.(closeRead := t.closeRead.(acked := true), waitingAckFor := Awaiting(t, CloseRead)));
  }

  lemma CloseWriteAckedEvent(t: T, e: T, now: int, at: int)
    requires Acknowledges(t, Terminal(CloseWrite))
    requires e == t.(lastActivity := now, controlSndBuf := e.controlSndBuf,
      closeWrite := t.closeWrite.(acked := true), localWriterBroken := true, localWriteClosed := true,
      waitingAckFor := Awaiting(t, CloseWrite), ackWaitDeadline := AwaitingUntil(t, CloseWrite))
    ensures EventIs(t, ControlAck(Terminal(CloseWrite)), None, e, at)
    ensures Complete(e) == ClosesWhenAcked(t, CloseWrite)
  {
    hide Complete;
    CompleteAlike(e, t.(closeWrite := t.closeWrite.(acked := true), localWriterBroken := true,
                        waitingAckFor := Awaiting(t, CloseWrite)));
  }

  lemma RstAckedEvent(t: T, e: T, at: int)
    requires Acknowledges(t, Terminal(Rst))
    requires e == t.(lastActivity := e.lastActivity, controlSndBuf := {}, rst := t.rst.(acked := true), state := Reset,
      sndBuf := {}, rcvBuf := {})
    ensures EventIs(t, ControlAck(Terminal(Rst)), None, e, at)
  {
  }

  function Untracked(t: T, item: Tracked, now: int): T {
    t.(lastActivity := now, controlSndBuf := t.controlSndBuf - {item})
  }

  lemma AckIsTaken(t: T, kind: Kind, now: int, c: Settings)
    requires Acknowledges(t, Terminal(kind))
    ensures Do(t, ControlAck(Terminal(kind)), now, c) == TerminalAcked(Untracked(t, Terminal(kind), now), kind, now, c)
  {
    hide TerminalAcked, FinalizeClose;
    UntrackedIs(t, Terminal(kind), now);
  }

  lemma UntrackedIs(t: T, item: Tracked, now: int)
    ensures var t1 := t.(lastActivity := now);
      t1.(controlSndBuf := t1.controlSndBuf - {item}) == Untracked(t, item, now)
  {
  }

  lemma CloseReadAckedIs(t: T, now: int, at: int) returns (e: T)
    requires Inv(t) && Acknowledges(t, Terminal(CloseRead))
    ensures e == ClearedWaiting(MarkCloseReadAcked(Untracked(t, Terminal(CloseRead), now), now), CloseRead)
    ensures Inv(e) && EventIs(t, ControlAck(Terminal(CloseRead)), None, e, at)
    ensures Complete(e) == ClosesWhenAcked(t, CloseRead) && e.closed == t.closed && e.isVirtual == t.isVirtual
  {
    hide Inv, Complete, EventIs, Acknowledges, ClosesWhenAcked;
    AcknowledgedIsSent(t, CloseRead);
    var t2 := Untracked(t, Terminal(CloseRead), now);
    e := ClearedWaiting(MarkCloseReadAcked(t2, now), CloseRead);
    AckedHolds(t, t2, now);
    if t.waitingAckFor == Some(CloseRead) {} else {}
    CloseReadAckedEvent(t, e, now, at);
  }

  lemma CloseWriteAckedIs(t: T, now: int, at: int) returns (e: T)
    requires Inv(t) && Acknowledges(t, Terminal(CloseWrite))
    ensures e == ClearedWaiting(MarkCloseWriteAcked(Untracked(t, Terminal(CloseWrite), now)), CloseWrite)
    ensures Inv(e) && EventIs(t, ControlAck(Terminal(CloseWrite)), None, e, at) && e.localWriterBroken
    ensures Complete(e) == ClosesWhenAcked(t, CloseWrite) && e.closed == t.closed && e.isVirtual == t.isVirtual
    ensures e.isClient == t.isClient && e.closeRead == t.closeRead
    ensures AskedOnceDrained(e, CloseRead) == AskedOnceDrained(t, CloseRead)
  {
    hide Inv, Complete, EventIs, Acknowledges, ClosesWhenAcked;
    AcknowledgedIsSent(t, CloseWrite);
    var t2 := Untracked(t, Terminal(CloseWrite), now);
    e := ClearedWaiting(MarkCloseWriteAcked(t2), CloseWrite);
    AckedHolds(t, t2, now);
    CloseWriteAckedEvent(t, e, now, at);
  }

  lemma CloseReadAckOutcome(t: T, now: int, c: Settings)
    requires Inv(t) && Acknowledges(t, Terminal(CloseRead))
    ensures Outcome(t, ControlAck(Terminal(CloseRead)), now, c)
  {
    hide Inv, TryFinalizeRemoteEOF, Complete, Shuts, EventIs, Outcome, Acknowledges, ClosesWhenAcked, Do,
      ClearedWaiting, MarkCloseReadAcked;
    var e := CloseReadAckedIs(t, now, now + c.ackWait);
    RemoteEOFIs(e);
    AckIsTaken(t, CloseRead, now, c);
    ShutOutcome(t, ControlAck(Terminal(CloseRead)), now, c, e);
  }

  lemma AcknowledgedIsSent(t: T, kind: Kind)
    requires Inv(t) && Acknowledges(t, Terminal(kind))
    ensures Of(t, kind).sent
  {
    hide Times;
    assert KindHolds(t, kind);
  }

  lemma AckedHolds(t: T, t2: T, now: int)
    requires Inv(t) && t2 == t.(lastActivity := now, controlSndBuf := t2.controlSndBuf)
    requires t2.controlSndBuf <= t.controlSndBuf
    ensures Inv(t2)
    ensures t.closeRead.sent ==> Inv(ClearedWaiting(MarkCloseReadAcked(t2, now), CloseRead))
    ensures t.closeWrite.sent ==> Inv(ClearedWaiting(MarkCloseWriteAcked(t2), CloseWrite))
  {
    hide Inv, ClearedWaiting, MarkCloseReadAcked, MarkCloseWriteAcked, Evolves;
    RaisedHolds(t, t2);
    AckMarksGood(t2, now);
    if t.closeRead.sent { ClearedWaitingGood(MarkCloseReadAcked(t2, now), CloseRead); }
    if t.closeWrite.sent { ClearedWaitingGood(MarkCloseWriteAcked(t2), CloseWrite); }
  }

  lemma RstAckOutcome(t: T, now: int, c: Settings)
    requires Acknowledges(t, Terminal(Rst))
    ensures Outcome(t, ControlAck(Terminal(Rst)), now, c)
  {
    hide FinalizeClose, Shuts, EventIs, Outcome, Acknowledges, Do;
    var e := MarkRstAcked(Untracked(t, Terminal(Rst), now));
    RstAckedEvent(t, e, now + c.ackWait);
    FinalizeIs(e);
    AckIsTaken(t, Rst, now, c);
    ShutOutcome(t, ControlAck(Terminal(Rst)), now, c, e);
  }

  /** After a client's writer broke, the other direction is closed as well, at once or after a drain. */
  lemma MaybeCloseReadIs(e: T, now: int, c: Settings)
    requires Inv(e) && e.localWriterBroken
    ensures var m := MaybeCloseReadAfterWriterBreak(e, now, c);
      && Moves(e, m, if e.isClient && !e.closeRead.received then AskedOnceDrained(e, CloseRead) else None,
               now + c.ackWait)
      && Complete(m) == Complete(e)
  {
    hide Inv, CloseNow, CloseAfterDrain, Moves, Complete;
    SameMoves(e, now + c.ackWait);
    CloseNowMoves(e, CloseRead, now, c);
    AfterDrainMoves(e, CloseRead, now, c);
    if !e.closeRead.sent && !e.closed {
      assert !e.closeRead.acked by { NotTracked(e, CloseRead); }
      NotComplete(e);
      CloseReadKeepsOpen(e, now, c);
    }
  }

  lemma NotComplete(e: T)
    requires !e.closeRead.acked && (e.closeRead.sent ==> e.waitingAckFor == Some(CloseRead))
    ensures !Complete(e)
  {
  }

  lemma SentNotAcked(e: T, m: T, sent: Option<Kind>, at: int)
    requires Inv(e) && !e.closeRead.sent && Moves(e, m, sent, at) && (sent.Some? ==> sent == Some(CloseRead))
    ensures !m.closeRead.acked && (m.closeRead.sent ==> m.waitingAckFor == Some(CloseRead))
  {
    hide Inv;
    NotTracked(e, CloseRead);
  }

  lemma CloseReadKeepsOpen(e: T, now: int, c: Settings)
    requires Inv(e) && !e.closeRead.sent
    ensures !Complete(CloseNow(e, CloseRead, now, c)) && !Complete(CloseAfterDrain(e, CloseRead, now, c))
  {
    hide Inv, CloseNow, CloseAfterDrain, Complete, Moves;
    CloseNowMoves(e, CloseRead, now, c);
    AfterDrainMoves(e, CloseRead, now, c);
    SentNotAcked(e, CloseNow(e, CloseRead, now, c), Asked(e, CloseRead), now + c.ackWait);
    SentNotAcked(e, CloseAfterDrain(e, CloseRead, now, c), AskedOnceDrained(e, CloseRead), now + c.ackWait);
    NotComplete(CloseNow(e, CloseRead, now, c));
    NotComplete(CloseAfterDrain(e, CloseRead, now, c));
  }

  lemma CloseWriteAckOutcome(t: T, now: int, c: Settings)
    requires Inv(t) && Acknowledges(t, Terminal(CloseWrite))
    ensures Outcome(t, ControlAck(Terminal(CloseWrite)), now, c)
  {
    hide Inv, TryFinalizeRemoteEOF, MaybeCloseReadAfterWriterBreak, Complete, Shuts, EventIs, Outcome, Acknowledges,
      ClosesWhenAcked, Do, Moves, ClearedWaiting, MarkCloseWriteAcked, AskedOnceDrained;
    var call := ControlAck(Terminal(CloseWrite));
    var e := CloseWriteAckedIs(t, now, now + c.ackWait);
    MaybeCloseReadIs(e, now, c);
    MaybeCloseReadGood(e, now, c);
    var m := MaybeCloseReadAfterWriterBreak(e, now, c);
    assert Inv(m) by { assert Good(e, m); }
    EventThenMoves(t, call, e, m, Owed(t, call, now, c), now + c.ackWait);
    MovesKeep(e, m, Owed(t, call, now, c), now + c.ackWait);
    RemoteEOFIs(m);
    AckIsTaken(t, CloseWrite, now, c);
    ShutOutcome(t, call, now, c, m);
  }

  lemma OtherAckOutcome(t: T, item: Tracked, now: int, c: Settings)
    requires item.Terminal? ==> !Acknowledges(t, item)
    ensures Outcome(t, ControlAck(item), now, c)
  {
    hide FinalizeClose, Shuts, EventIs, Outcome;
    var t1 := t.(lastActivity := now);
    var t2 := Untracked(t, item, now);
    NotedEvent(t, ControlAck(item), t1, now + c.ackWait);
    NotedEvent(t, ControlAck(item), t2, now + c.ackWait);
    SameShuts(t1);
    SameShuts(t2);
    FinalizeIs(t2);
    ShutOutcome(t, ControlAck(item), now, c, if item in t.controlSndBuf then t2 else t1);
  }

  lemma ControlAckOutcome(t: T, item: Tracked, now: int, c: Settings)
    requires Inv(t)
    ensures Outcome(t, ControlAck(item), now, c)
  {
    hide Inv, Outcome, Acknowledges;
    if item.Terminal? && Acknowledges(t, item) {
      match item.kind {
        case CloseRead => CloseReadAckOutcome(t, now, c);
        case CloseWrite => CloseWriteAckOutcome(t, now, c);
        case Rst => RstAckOutcome(t, now, c);
      }
    } else {
      OtherAckOutcome(t, item, now, c);
    }
  }

  lemma ControlExpiredOutcome(t: T, item: Tracked, now: int, c: Settings)
    requires Inv(t)
    ensures Outcome(t, ControlExpired(item), now, c)
  {
    hide Inv, FinalizeClose, CloseNow, Moves, Shuts, EventIs, Outcome;
    var call := ControlExpired(item);
    var t1 := t.(controlSndBuf := t.controlSndBuf - {item});
    RaisedHolds(t, t1);
    NotedEvent(t, call, t, now + c.ackWait);
    NotedEvent(t, call, t1, now + c.ackWait);
    SameShuts(t);
    SameMoves(t, now + c.ackWait);
    FinalizeIs(t1);
    CloseNowMoves(t1, Rst, now, c);
    if item in t.controlSndBuf && (item == Terminal(Rst) || item.StreamResult?) {
      ShutOutcome(t, call, now, c, t1);
    } else {
      MovesOutcome(t, call, now, c, if item in t.controlSndBuf then t1 else t);
    }
  }

  lemma GraceIs(t: T, now: int, c: Settings)
    requires Inv(t)
    ensures CloseWriteGraceElapsed(t, now, c) && !t.isVirtual <==> GraceOver(t, now, c) && Unbarred(t, CloseWrite)
  {
    hide Times;
    assert KindHolds(t, CloseRead) && KindHolds(t, CloseWrite);
  }

  lemma NotShut(t: T, t': T)
    requires Shuts(t, t', false)
    ensures t' == t
  {
  }

  lemma TickOutcome(t: T, stalled: bool, now: int, c: Settings)
    requires Inv(t)
    ensures Outcome(t, Tick(stalled), now, c)
  {
    hide Inv, FinalizeClose, CloseNow, SettleTerminalDrain, TryFinalizePeerResetDrain, CloseWriteGraceElapsed,
      GraceOver, Moves, Shuts, EventIs, Outcome;
    var call := Tick(stalled);
    NotedEvent(t, call, t, now + c.ackWait);
    NotedEvent(t, call, t.(lastActivity := now), now + c.ackWait);
    SameMoves(t, now + c.ackWait);
    SameMoves(t.(lastActivity := now), now + c.ackWait);
    SettleMoves(t, now, c);
    CloseNowMoves(t, Rst, now, c);
    CloseNowMoves(t, CloseWrite, now, c);
    GraceIs(t, now, c);
    FinalizeIs(t);
    PeerResetIs(t);
    AckedIsSent(t, Rst);
    if t.closed || t.isVirtual { NotShut(t, FinalizeClose(t)); }
    if t.closed || t.isVirtual || !PeerResetDrained(t) { NotShut(t, TryFinalizePeerResetDrain(t)); }
    if ShutNow(t, call, now, c) {
      ShutOutcome(t, call, now, c, t);
    } else if t.deferredPacket.None? && !AckOverdue(t, now) && !t.rst.received
      && !CloseWriteGraceElapsed(t, now, c) && now - t.lastActivity > c.inactivity
      && (t.sndBuf != {} || (t.reliable && t.controlSndBuf != {})) && !t.closed {
      MovesOutcome(t, call, now, c, t.(lastActivity := now));
    } else {
      MovesOutcome(t, call, now, c, t);
    }
  }

  // ----- the theorems -----

  /** Every call queues exactly the packet it owes, closes the stream exactly when it completes it, raises exactly
      its own flags, and leaves awaited and outstanding what it should: all read off the fields before it. */
  lemma CallOutcome(t: T, call: Call, now: int, c: Settings)
    requires Inv(t)
    ensures var t', owed, shut := Do(t, call, now, c), Owed(t, call, now, c), ShutNow(t, call, now, c);
      && t'.originated == Logged(t.originated, owed) && t'.closed == (t.closed || shut)
      && FlagsFollow(t, call, owed, t') && BuffersFollow(t, call, owed, shut, t', now + c.ackWait)
  {
    hide Inv, Do, Owed, ShutNow, FlagsFollow, BuffersFollow, Logged;
    assert Outcome(t, call, now, c) by {
      hide Outcome;
      match call {
        case ReadAppend(sn) => ReadAppendOutcome(t, sn, now, c);
        case ReadEOF => ReadEOFOutcome(t, now, c);
        case ReadFailed(afterDrain) => CloseStreamOutcome(t, Rst, afterDrain, now, c);
        case AckData(sn) => AckDataOutcome(t, sn, now, c);
        case ArriveData => ArriveDataOutcome(t, now, c);
        case ProcessData(sn, buffered) => ProcessDataOutcome(t, sn, buffered, now, c);
        case IdleWriter => IdleWriterOutcome(t, now, c);
        case TakeRun(count) => WriterTookOutcome(t, count, now, c);
        case DoneWriting => DoneWritingOutcome(t, now, c);
        case FailWriting => FailWritingOutcome(t, now, c);
        case PeerCloseRead => PeerCloseReadOutcome(t, now, c);
        case PeerCloseWrite => PeerCloseWriteOutcome(t, now, c);
        case PeerRst => PeerRstOutcome(t, now, c);
        case Track(item) => TrackOutcome(t, item, now, c);
        case ControlAck(item) => ControlAckOutcome(t, item, now, c);
        case ControlExpired(item) => ControlExpiredOutcome(t, item, now, c);
        case DataExpired => DrainedOutcome(t, now, c);
        case Tick(stalled) => TickOutcome(t, stalled, now, c);
        case Drained => DrainedOutcome(t, now, c);
        case CloseStream(kind, afterDrain) => CloseStreamOutcome(t, kind, afterDrain, now, c);
        case Force => ForceOutcome(t, now, c);
      }
    }
  }

  /** The drain phase is open: a packet waits, and nothing keeps it from going out. */
  predicate DrainPhase(t: T, kind: Kind) {
    t.deferredPacket == Some(kind) && Unbarred(t, kind) && Unbarred(t, Rst)
  }

  /** Looking at a drain phase: the last acknowledgment, the check, the tick. */
  predicate LooksAtDrain(t: T, call: Call, left: set<uint16>) {
    match call
    case Drained => left == t.sndBuf
    case Tick(stalled) => left == t.sndBuf && !stalled
    case AckData(sn) => sn in t.sndBuf && left == t.sndBuf - {sn}
    case _ => false
  }

  /** A completed drain sends the packet that waited, and no reset. */
  lemma DrainDelivers(t: T, kind: Kind, call: Call, now: int, c: Settings)
    requires Inv(t) && DrainPhase(t, kind) && !kind.Rst?
    requires LooksAtDrain(t, call, {}) && (call.AckData? ==> kind.CloseRead?)
    ensures var t' := Do(t, call, now, c);
      && t'.originated == t.originated + [kind] && Of(t', kind).sent && !t'.rst.sent
      && t'.waitingAckFor == Some(kind) && t'.ackWaitDeadline == Some(now + c.ackWait)
      && t'.deferredPacket.None? && !t'.closed
  {
    hide Inv, Do;
    CallOutcome(t, call, now, c);
    NotTracked(t, kind);
    if call.AckData? { NotComplete(t.(sndBuf := t.sndBuf - {call.sn})); }
  }

  /** While something is outstanding and the deadline has not passed nothing is sent, and the packet goes on waiting. */
  lemma DrainHolds(t: T, kind: Kind, call: Call, left: set<uint16>, now: int, c: Settings)
    requires Inv(t) && DrainPhase(t, kind)
    requires LooksAtDrain(t, call, left) && left != {} && !DrainExpired(t, now)
    requires call.AckData? ==> kind.CloseRead?
    ensures var t' := Do(t, call, now, c);
      t'.originated == t.originated && t'.deferredPacket == Some(kind) && t'.sndBuf == left && !t'.closed
  {
    hide Inv;
    CallOutcome(t, call, now, c);
    NotTracked(t, kind);
    if call.AckData? {
      NotComplete(t.(sndBuf := t.sndBuf - {call.sn}));
      StillOpen(t, call.sn, now);
    }
  }

  lemma StillOpen(t: T, sn: uint16, now: int)
    requires Inv(t) && !t.closeRead.sent
    ensures var a := t.(lastActivity := now, sndBuf := t.sndBuf - {sn}); TryFinalizeRemoteEOF(a) == a
  {
    hide Inv;
    NotTracked(t, CloseRead);
  }

  /** After the deadline what goes out is a reset, and nothing else. */
  lemma DrainExpires(t: T, kind: Kind, call: Call, left: set<uint16>, now: int, c: Settings)
    requires Inv(t) && DrainPhase(t, kind)
    requires LooksAtDrain(t, call, left) && left != {} && DrainExpired(t, now)
    requires call.AckData? ==> kind.CloseRead?
    ensures var t' := Do(t, call, now, c);
      && t'.originated == t.originated + [Rst] && t'.rst.sent && Of(t', kind).sent == kind.Rst?
      && t'.waitingAckFor == Some(Rst) && t'.deferredPacket.None? && t'.sndBuf == {} && !t'.closed
  {
    hide Inv, Do;
    CallOutcome(t, call, now, c);
    NotTracked(t, kind);
    if call.AckData? { NotComplete(t.(sndBuf := t.sndBuf - {call.sn})); }
  }

  /** The end of the input with chunks outstanding starts a drain phase that lasts at least the drain timeout. */
  lemma DrainStarts(t: T, call: Call, now: int, c: Settings)
    requires Inv(t) && Unbarred(t, CloseRead) && t.sndBuf != {}
    requires call == ReadEOF || call == CloseStream(CloseRead, true)
    ensures var t' := Do(t, call, now, c);
      && DrainPhase(t', CloseRead) && t'.originated == t.originated && t'.sndBuf == t.sndBuf && t'.stopLocalRead
      && (forall later :: later <= now + c.drain ==> !DrainExpired(t', later))
      && (t.deferredDeadline.None? ==> forall later :: later > now + c.drain ==> DrainExpired(t', later))
  {
    hide Inv, DeferTerminalPacket, Deferring, WithSent, DrainExpired;
    var e := if call.ReadEOF? then NotedEOF(t, now) else t;
    NotedSame(t, now);
    EventHolds(t, e, 0);
    NotedAlike(t, now);
    DeferIs(e, CloseRead, now, c);
    DeferringWaits(e, now, c);
  }

  lemma NotedAlike(t: T, now: int)
    ensures var e := NotedEOF(t, now);
      && SameShown(t, e) && e.deferredDeadline == t.deferredDeadline && e.closed == t.closed && e.rst == t.rst
      && e.closeRead == t.closeRead
  {
    if t.isClient && t.clientEOFAt.None? {} else {}
  }

  lemma DeferringWaits(e: T, now: int, c: Settings)
    requires Unbarred(e, CloseRead)
    ensures var d := Deferring(e, CloseRead, now, c);
      && DrainPhase(d, CloseRead) && d.originated == e.originated && d.sndBuf == e.sndBuf && d.stopLocalRead
      && (forall later :: later <= now + c.drain ==> !DrainExpired(d, later))
      && (e.deferredDeadline.None? ==> forall later :: later > now + c.drain ==> DrainExpired(d, later))
  {
  }

  // ----- the inbound side, the times and the end -----

  /** A new stream is open, and nothing was sent, received, read or noted. */
  lemma NewIsIdle(isClient: bool, isVirtual: bool, reliable: bool, now: int)
    ensures var t := New(isClient, isVirtual, reliable, now);
      && t.state == Open && !t.closed && t.isClient == isClient && t.isVirtual == isVirtual && t.reliable == reliable
      && (forall kind :: !Of(t, kind).sent && !Of(t, kind).received && !Of(t, kind).acked)
      && !t.localWriteClosed && !t.localWriterBroken && !t.localWritePending && !t.stopLocalRead
      && t.deferredPacket.None? && t.waitingAckFor.None? && t.clientEOFAt.None? && t.closeReadAckedAt.None?
      && t.lastActivity == now && t.sndBuf == {} && t.rcvBuf == {} && t.rcvNxt == 0 && t.pendingInbound == 0
      && t.controlSndBuf == {} && t.originated == [] && t.callbacks == 0
  {
  }

  // Inbound data is queued when it arrives, taken off the queue and held when the packet is new, and taken by the write
  // loop from the next number on; none of it while the writer is broken.

  lemma DataIsQueued(t: T, now: int, c: Settings)
    requires !t.closed && !t.rst.sent && !t.rst.received && !t.localWriterBroken
    ensures Do(t, ArriveData, now, c) == t.(pendingInbound := t.pendingInbound + 1)
  {
  }

  lemma DataIsHeld(t: T, sn: uint16, buffered: bool, now: int, c: Settings)
    requires !t.localWriterBroken && !t.closeWrite.sent && !t.closeWrite.acked
    ensures var t' := Do(t, ProcessData(sn, buffered), now, c);
      && t'.pendingInbound == Max(t.pendingInbound - 1, 0) && t'.lastActivity == now
      && t'.rcvBuf == (if buffered then t.rcvBuf + {sn} else t.rcvBuf)
      && t'.originated == t.originated && t'.closed == t.closed
  {
    hide CloseNow, NeedsCloseWrite;
    if buffered {} else {}
  }

  /** What arrives at a closed or resetting stream changes nothing; what is processed once CLOSE_WRITE is sent or
      acknowledged is taken off the queue and not held. */
  lemma DataIsRefused(t: T, sn: uint16, buffered: bool, now: int, c: Settings)
    ensures t.closed || t.rst.sent || t.rst.received ==> Do(t, ArriveData, now, c) == t
    ensures (!t.localWriterBroken && t.closeWrite.acked) || t.closeWrite.sent ==>
      Do(t, ProcessData(sn, buffered), now, c) == t.(pendingInbound := Max(t.pendingInbound - 1, 0))
  {
    hide CloseNow;
  }

  lemma RunIsTaken(t: T, count: nat, now: int, c: Settings)
    ensures var t' := Do(t, TakeRun(count), now, c);
      && t'.rcvNxt == (t.rcvNxt + count) % 65536 && t'.localWritePending
      && (forall n :: n in t'.rcvBuf <==> n in t.rcvBuf && (n - t.rcvNxt) % 65536 >= count)
      && t'.pendingInbound == t.pendingInbound && t'.originated == t.originated && t'.closed == t.closed
  {
  }

  /** A reset of the peer: reading stops, what is outstanding and tracked is dropped, what arrived stays. */
  lemma PeerRstIs(t: T, now: int, c: Settings)
    requires !t.isVirtual
    ensures Do(t, PeerRst, now, c) ==
      t.(rst := t.rst.(received := true), stopLocalRead := true, sndBuf := {}, controlSndBuf := {}, state := Reset)
  {
  }

  /** The acknowledgment of CLOSE_READ is one of the two moments the grace is counted from. */
  lemma AckIsNoted(t: T, now: int, c: Settings)
    requires Acknowledges(t, Terminal(CloseRead))
    ensures var t' := Do(t, ControlAck(Terminal(CloseRead)), now, c);
      && t'.closeReadAckedAt == Some(now) && t'.lastActivity == now
      && (t'.closed == t.closed ==> t'.state == if t.closeRead.received then ClosingDown else t.state)
  {
    hide Acknowledges, TryFinalizeRemoteEOF, Do, ClearedWaiting, MarkCloseReadAcked;
    AckIsTaken(t, CloseRead, now, c);
    var e := ClearedWaiting(MarkCloseReadAcked(Untracked(t, Terminal(CloseRead), now), now), CloseRead);
    AckedMoments(t, now);
    ClosingKeepsMoments(e);
  }

  lemma AckedMoments(t: T, now: int)
    ensures var e := ClearedWaiting(MarkCloseReadAcked(Untracked(t, Terminal(CloseRead), now), now), CloseRead);
      && e.closeReadAckedAt == Some(now) && e.lastActivity == now && e.closed == t.closed
      && e.state == (if t.closeRead.received then ClosingDown else t.state)
  {
    if t.waitingAckFor == Some(CloseRead) {} else {}
  }

  lemma ClosingKeepsMoments(e: T)
    ensures var t' := TryFinalizeRemoteEOF(e);
      && t'.closeReadAckedAt == e.closeReadAckedAt && t'.lastActivity == e.lastActivity
      && (t'.closed == e.closed ==> t'.state == e.state)
  {
    hide HandshakeDone, LocalDisconnectDone;
  }

  /** How a stream ends, shown on the call that shuts it at once: the owner is told, nothing is held or awaited any more,
      and the state says whether it was reset, closed after a handshake had begun, or merely closed. */
  lemma ForceEnds(t: T, now: int, c: Settings)
    requires !t.closed
    ensures var t' := Do(t, Force, now, c);
      && t'.closed && t'.callbacks == t.callbacks + 1
      && t'.sndBuf == {} && t'.rcvBuf == {} && t'.controlSndBuf == {}
      && t'.waitingAckFor.None? && t'.ackWaitDeadline.None? && t'.deferredPacket.None? && t'.deferredDeadline.None?
      && t'.state == (
        if t.state.Reset? || t.rst.sent || t.rst.received then Reset
        else if t.closeRead.sent || t.closeRead.received || t.closeWrite.sent || t.closeWrite.received then TimeWait
        else ClosingDown)
  {
  }
}
