/** The close and reset machine of one ARQ endpoint. Each Go method becomes one function from state to state, its
    lock-protected pieces composed in program order; a run is any sequence of calls. */
module ArqTerminal {
  import opened Words

  datatype StreamState =
    Open | HalfClosedLocal | HalfClosedRemote | ClosingDown | Reset | Closed | Draining | TimeWait

  /** The three terminal packets an endpoint can originate. */
  datatype Kind = CloseRead | CloseWrite | Rst

  /** What the control send buffer tracks: terminal packets, other results whose acknowledgment ends
      the stream, and plain control packets. */
  datatype Tracked = Terminal(kind: Kind) | StreamResult(id: nat) | Plain(id: nat)

  datatype Ends = Ends(sent: bool, received: bool, acked: bool)

  datatype T = T(
    isClient: bool,
    isVirtual: bool,
    reliable: bool,
    state: StreamState,
    closed: bool,
    closeRead: Ends,
    closeWrite: Ends,
    rst: Ends,
    localWriteClosed: bool,
    localWriterBroken: bool,
    localWritePending: bool,
    stopLocalRead: bool,
    deferredPacket: Option<Kind>,   // Some exactly while deferredClose is set
    deferredDeadline: Option<int>,
    waitingAckFor: Option<Kind>,    // Some exactly while waitingAck is set
    ackWaitDeadline: Option<int>,
    clientEOFAt: Option<int>,
    closeReadAckedAt: Option<int>,
    lastActivity: int,
    sndBuf: set<uint16>,
    rcvNxt: uint16,
    rcvBuf: set<uint16>,
    pendingInbound: nat,
    controlSndBuf: set<Tracked>,
    // histories, which the code does not have
    originated: seq<Kind>,
    callbacks: nat
  )

  /** Settings: drain timeout, acknowledgment wait and inactivity timeout; grace is two seconds. */
  datatype Settings = Settings(drain: nat, ackWait: nat, inactivity: nat, grace: nat)

  function Of(t: T, kind: Kind): Ends {
    match kind
    case CloseRead => t.closeRead
    case CloseWrite => t.closeWrite
    case Rst => t.rst
  }

  function Undeferred(t: T): T {
    t.(deferredPacket := None, deferredDeadline := None)
  }

  function ClearedWaiting(t: T, kind: Kind): T {
    if t.waitingAckFor == Some(kind) then t.(waitingAckFor := None, ackWaitDeadline := None) else t
  }

  function ClearedQueues(t: T): T {
    t.(sndBuf := {}, rcvBuf := {}, controlSndBuf := {})
  }

  // ----- the final close path -----

  function FinalizeClose(t: T): T {
    if t.closed || t.isVirtual then t
    else
      var shut := Undeferred(t).(closed := true, waitingAckFor := None, ackWaitDeadline := None,
        state := if t.state.Reset? || t.rst.received || t.rst.sent then Reset
                 else if t.closeRead.sent || t.closeRead.received || t.closeWrite.sent || t.closeWrite.received
                 then TimeWait else ClosingDown);
      ClearedQueues(shut).(callbacks := t.callbacks + 1)
  }

  predicate LocalDisconnectDone(t: T) {
    && t.isClient && !t.closed && t.localWriterBroken && t.closeWrite.acked
    && t.closeRead.sent && t.closeRead.acked
    && t.sndBuf == {} && t.rcvBuf == {} && t.pendingInbound == 0 && !t.localWritePending
    && t.waitingAckFor.None? && t.deferredPacket.None?
  }

  predicate HandshakeDone(t: T) {
    && !t.closed
    && t.closeRead.received
    && ((t.rcvBuf == {} && t.pendingInbound == 0) || t.localWriterBroken)
    && (!t.localWritePending || t.localWriterBroken)
    && (t.closeRead.acked || (t.closeRead.sent && t.waitingAckFor != Some(CloseRead)))
    && ((!t.localWriterBroken && (!t.closeWrite.sent || t.closeWrite.acked))
        || (t.localWriterBroken && (t.closeWrite.acked || t.closeWrite.received)))
  }

  function TryFinalizeRemoteEOF(t: T): T {
    if HandshakeDone(t) || LocalDisconnectDone(t) then FinalizeClose(t) else t
  }

  function TryFinalizePeerResetDrain(t: T): T {
    if !t.rst.received || t.closed || t.rcvNxt in t.rcvBuf || t.localWritePending || t.pendingInbound > 0 then t
    else FinalizeClose(t)
  }

  // ----- marks -----

  /** The lock section of MarkCloseReadSent; the final close is tried after it. */
  function CloseReadMarked(t: T): T {
    t.(closeRead := t.closeRead.(sent := true),
       state := if t.closeRead.received then ClosingDown else HalfClosedLocal)
  }

  function MarkCloseReadReceived(t: T): T {
    if t.isVirtual then t
    else TryFinalizeRemoteEOF(t.(closeRead := t.closeRead.(received := true),
      state := if t.closeRead.sent then ClosingDown else HalfClosedRemote))
  }

  function MarkCloseReadAcked(t: T, now: int): T {
    t.(closeRead := t.closeRead.(acked := true), closeReadAckedAt := Some(now),
       state := if t.closeRead.received then ClosingDown else t.state)
  }

  function MarkCloseWriteSent(t: T): T {
    t.(closeWrite := t.closeWrite.(sent := true), localWriterBroken := true, localWriteClosed := true,
       rcvBuf := {}, state := if t.closeRead.received then ClosingDown else t.state)
  }

  function MarkCloseWriteAcked(t: T): T {
    t.(closeWrite := t.closeWrite.(acked := true), localWriterBroken := true, localWriteClosed := true)
  }

  function MarkRstSent(t: T): T {
    ClearedQueues(t.(rst := t.rst.(sent := true), state := Reset))
  }

  function MarkRstReceived(t: T): T {
    if t.isVirtual then t
    else t.(rst := t.rst.(received := true), stopLocalRead := true, sndBuf := {}, controlSndBuf := {}, state := Reset)
  }

  function MarkRstAcked(t: T): T {
    ClearedQueues(t.(rst := t.rst.(acked := true), state := Reset))
  }

  // ----- emit, drain, close -----

  /** The first lock section of the emit: the state after it, and whether the packet will go out. */
  function EmitGuard(t: T, kind: Kind, now: int, c: Settings): (T, bool) {
    if t.closed || t.isVirtual then (t, false)
    else
      var t1 := Undeferred(t).(stopLocalRead := true);
      if t.waitingAckFor == Some(kind) || t.rst.sent || t.rst.received || Of(t, kind).sent then (t1, false)
      else
        var t2 := if kind.Rst? then ClearedQueues(t1) else t1;
        (t2.(waitingAckFor := Some(kind), ackWaitDeadline := Some(now + c.ackWait)), true)
  }

  /** The second lock section of the emit: the packet is marked sent. */
  function Marked(t: T, kind: Kind): T {
    match kind
    case CloseRead => CloseReadMarked(t)
    case CloseWrite => MarkCloseWriteSent(t)
    case Rst => MarkRstSent(t)
  }

  /** The last lock section of the emit: the packet is queued and tracked, unless it is tracked already. */
  function SendTerminal(t: T, kind: Kind): T {
    if t.reliable && Terminal(kind) in t.controlSndBuf then t
    else t.(originated := t.originated + [kind],
            controlSndBuf := if t.reliable then t.controlSndBuf + {Terminal(kind)} else t.controlSndBuf)
  }

  /** The rest of the emit: mark the packet sent, try the final close, then queue it and track it. */
  function EmitFinish(t: T, kind: Kind): T {
    var marked := Marked(t, kind);
    SendTerminal(if kind.CloseRead? then TryFinalizeRemoteEOF(marked) else marked, kind)
  }

  function Emit(t: T, kind: Kind, now: int, c: Settings): T {
    var (guarded, goes) := EmitGuard(t, kind, now, c);
    if goes then EmitFinish(guarded, kind) else guarded
  }

  predicate AlreadyResetting(t: T) {
    t.rst.sent || t.rst.received || t.waitingAckFor == Some(Rst) || t.deferredPacket == Some(Rst)
  }

  /** Close without a drain phase. */
  function CloseNow(t: T, kind: Kind, now: int, c: Settings): T {
    if !kind.Rst? then Emit(t, kind, now, c)
    else if t.isVirtual || t.closed || AlreadyResetting(t) then t
    else Emit(Undeferred(t).(state := Reset), Rst, now, c)
  }

  function SettleTerminalDrain(t: T, now: int, c: Settings): T {
    if t.closed || t.deferredPacket.None? then t
    else if t.sndBuf == {} then CloseNow(Undeferred(t), t.deferredPacket.value, now, c)
    else if t.deferredDeadline.Some? && now > t.deferredDeadline.value then CloseNow(Undeferred(t), Rst, now, c)
    else t
  }

  function DeferTerminalPacket(t: T, kind: Kind, now: int, c: Settings): T {
    if t.closed || t.isVirtual then t
    else
      var deadline := now + c.drain;
      var t1 := t.(state := if t.state.Reset? || t.state.Closed? then t.state else Draining,
        stopLocalRead := true, deferredPacket := Some(kind),
        deferredDeadline := if t.deferredDeadline.None? || deadline > t.deferredDeadline.value
                            then Some(deadline) else t.deferredDeadline);
      if t1.sndBuf == {} then SettleTerminalDrain(t1, now, c) else t1
  }

  /** Close with a drain phase, for the kinds that have one. */
  function CloseAfterDrain(t: T, kind: Kind, now: int, c: Settings): T {
    if t.isVirtual then t
    else match kind
      case CloseRead => DeferTerminalPacket(t, CloseRead, now, c)
      case CloseWrite => Emit(t, CloseWrite, now, c)
      case Rst =>
        if t.closed || AlreadyResetting(t) then t
        else if t.sndBuf != {} then DeferTerminalPacket(Undeferred(t).(state := Reset), Rst, now, c)
        else Emit(Undeferred(t).(state := Reset), Rst, now, c)
  }

  function MarkCloseWriteReceived(t: T, now: int, c: Settings): T {
    if t.isVirtual then t
    else TryFinalizeRemoteEOF(SettleTerminalDrain(
      t.(closeWrite := t.closeWrite.(received := true), stopLocalRead := true, sndBuf := {}), now, c))
  }

  function MaybeCloseReadAfterWriterBreak(t: T, now: int, c: Settings): T {
    if !t.isClient || !t.localWriterBroken || t.closed || t.rst.sent || t.rst.received
       || t.closeRead.sent || t.closeRead.received then t
    else if t.sndBuf != {} || t.localWritePending then CloseAfterDrain(t, CloseRead, now, c)
    else CloseNow(t, CloseRead, now, c)
  }

  // ----- acknowledgments and timers -----

  function TerminalAcked(t: T, kind: Kind, now: int, c: Settings): T {
    match kind
    case CloseRead => TryFinalizeRemoteEOF(ClearedWaiting(MarkCloseReadAcked(t, now), CloseRead))
    case CloseWrite =>
      TryFinalizeRemoteEOF(MaybeCloseReadAfterWriterBreak(
        ClearedWaiting(MarkCloseWriteAcked(t), CloseWrite), now, c))
    case Rst => FinalizeClose(MarkRstAcked(t))
  }

  function ReceiveControlAck(t: T, acked: Tracked, now: int, c: Settings): T {
    var t1 := t.(lastActivity := now);
    var tracked := acked in t.controlSndBuf;
    if !tracked && !(acked.Terminal? && t.waitingAckFor == Some(acked.kind)) then t1
    else
      var t2 := t1.(controlSndBuf := t1.controlSndBuf - {acked});
      match acked
      case Terminal(kind) => TerminalAcked(t2, kind, now, c)
      case StreamResult(_) => FinalizeClose(t2)
      case Plain(_) => t2
  }

  function TrackedExpired(t: T, item: Tracked, now: int, c: Settings): T {
    if item !in t.controlSndBuf then t
    else
      var t1 := t.(controlSndBuf := t.controlSndBuf - {item});
      if item == Terminal(Rst) || item.StreamResult? then FinalizeClose(t1) else CloseNow(t1, Rst, now, c)
  }

  function CloseWriteGraceElapsed(t: T, now: int, c: Settings): bool {
    && t.isClient
    && ((t.clientEOFAt.Some? && now - t.clientEOFAt.value >= c.grace)
        || (t.closeReadAckedAt.Some? && now - t.closeReadAckedAt.value >= c.grace))
    && !t.closed && !t.rst.sent && !t.rst.received && t.closeRead.sent && t.closeRead.acked
    && !t.closeWrite.sent && !t.closeWrite.acked && !t.closeWrite.received
    && t.waitingAckFor != Some(CloseWrite)
    && t.rcvBuf == {} && t.pendingInbound == 0 && !t.localWritePending
    && (t.closeRead.received || t.localWriterBroken)
  }

  /** The terminal part of the retransmit tick; `stalled` is the early-abort test of the drain. */
  function RetransmitTick(t: T, stalled: bool, now: int, c: Settings): T {
    if t.closed then t
    else if t.deferredPacket.Some? then
      if t.sndBuf == {} || (t.deferredDeadline.Some? && now > t.deferredDeadline.value)
      then SettleTerminalDrain(t, now, c)
      else if stalled then CloseNow(t, Rst, now, c)
      else t
    else if t.waitingAckFor.Some? && t.ackWaitDeadline.Some? && now > t.ackWaitDeadline.value then
      if t.waitingAckFor.value.Rst? then FinalizeClose(t) else CloseNow(t, Rst, now, c)
    else if t.rst.received then TryFinalizePeerResetDrain(t)
    else if CloseWriteGraceElapsed(t, now, c) then CloseNow(t, CloseWrite, now, c)
    else if now - t.lastActivity > c.inactivity then
      if t.sndBuf != {} || (t.reliable && t.controlSndBuf != {}) then t.(lastActivity := now)
      else CloseNow(t, Rst, now, c)
    else t
  }

  // ----- the data plane, as far as the close machine sees it -----

  function DataAcked(t: T, sn: uint16, now: int, c: Settings): T {
    var t1 := t.(lastActivity := now, sndBuf := t.sndBuf - {sn});
    if sn !in t.sndBuf then t1
    else SettleTerminalDrain(if t1.closeRead.received then TryFinalizeRemoteEOF(t1) else t1, now, c)
  }

  predicate NeedsCloseWrite(t: T) {
    t.localWriterBroken && !t.closeWrite.sent && t.waitingAckFor != Some(CloseWrite)
      && !t.closed && !t.rst.received && !t.rst.sent
  }

  function DataArrived(t: T, now: int, c: Settings): T {
    if t.closed || t.rst.received || t.rst.sent then t
    else if t.localWriterBroken then (if NeedsCloseWrite(t) then CloseNow(t, CloseWrite, now, c) else t)
    else t.(pendingInbound := t.pendingInbound + 1)
  }

  function Dequeued(t: T): T {
    t.(pendingInbound := if t.pendingInbound > 0 then t.pendingInbound - 1 else 0)
  }

  function Stored(t: T, sn: uint16, buffered: bool, now: int): T {
    t.(lastActivity := now, rcvBuf := if buffered then t.rcvBuf + {sn} else t.rcvBuf)
  }

  function DataProcessed(t: T, sn: uint16, buffered: bool, now: int, c: Settings): T {
    var t1 := Dequeued(t);
    if t.localWriterBroken || t.closeWrite.sent || t.closeWrite.acked then
      if NeedsCloseWrite(t1) then CloseNow(t1, CloseWrite, now, c) else t1
    else Stored(t1, sn, buffered, now)
  }

  function HalfCloseLocalWriter(t: T): T {
    if t.localWriteClosed || t.closed then t else t.(localWriteClosed := true)
  }

  function MaybeHalfClosed(t: T): T {
    if t.closeRead.received && t.pendingInbound == 0 then HalfCloseLocalWriter(t) else t
  }

  /** The write loop after an empty drain. */
  function WriterIdle(t: T): T {
    TryFinalizeRemoteEOF(TryFinalizePeerResetDrain(MaybeHalfClosed(t)))
  }

  function WriterTook(t: T, count: nat): T {
    t.(rcvBuf := (set sn | sn in t.rcvBuf && Sub16(sn, t.rcvNxt) >= count),
       rcvNxt := Add16(t.rcvNxt, count), localWritePending := true)
  }

  function WriterDone(t: T): T {
    TryFinalizeRemoteEOF(TryFinalizePeerResetDrain(t.(localWritePending := false)))
  }

  function WriterFailed(t: T, now: int, c: Settings): T {
    CloseNow(t.(localWriterBroken := true, localWritePending := false, rcvBuf := {}), CloseWrite, now, c)
  }

  function NotedEOF(t: T, now: int): T {
    if t.isClient && t.clientEOFAt.None? then t.(clientEOFAt := Some(now)) else t
  }

  datatype Call =
    | ReadAppend(sn: uint16) | ReadEOF | ReadFailed(afterDrain: bool)
    | AckData(sn: uint16) | ArriveData | ProcessData(sn: uint16, buffered: bool)
    | IdleWriter | TakeRun(count: nat) | DoneWriting | FailWriting
    | PeerCloseRead | PeerCloseWrite | PeerRst
    | Track(item: Tracked) | ControlAck(item: Tracked) | ControlExpired(item: Tracked) | DataExpired
    | Tick(stalled: bool) | Drained
    | CloseStream(kind: Kind, afterDrain: bool) | Force

  /** One call from outside or from one of the endpoint's own loops. */
  function Do(t: T, call: Call, now: int, c: Settings): T {
    match call
    case ReadAppend(sn) => t.(lastActivity := now, sndBuf := t.sndBuf + {sn})
    case ReadEOF =>
      CloseAfterDrain(NotedEOF(t, now), CloseRead, now, c)
    case ReadFailed(afterDrain) => if afterDrain then CloseAfterDrain(t, Rst, now, c) else CloseNow(t, Rst, now, c)
    case AckData(sn) => DataAcked(t, sn, now, c)
    case ArriveData => DataArrived(t, now, c)
    case ProcessData(sn, buffered) => DataProcessed(t, sn, buffered, now, c)
    case IdleWriter => WriterIdle(t)
    case TakeRun(count) => WriterTook(t, count)
    case DoneWriting => WriterDone(t)
    case FailWriting => WriterFailed(t, now, c)
    case PeerCloseRead => MarkCloseReadReceived(t)
    case PeerCloseWrite => MarkCloseWriteReceived(t, now, c)
    case PeerRst => MarkRstReceived(t)
    case Track(item) => if item.Terminal? then t else t.(controlSndBuf := t.controlSndBuf + {item})
    case ControlAck(item) => ReceiveControlAck(t, item, now, c)
    case ControlExpired(item) => TrackedExpired(t, item, now, c)
    case DataExpired => CloseNow(t, Rst, now, c)
    case Tick(stalled) => RetransmitTick(t, stalled, now, c)
    case Drained => SettleTerminalDrain(t, now, c)
    case CloseStream(kind, afterDrain) =>
      if afterDrain then CloseAfterDrain(t, kind, now, c) else CloseNow(t, kind, now, c)
    case Force => FinalizeClose(t.(isVirtual := false))
  }

  function New(isClient: bool, isVirtual: bool, reliable: bool, now: int): T {
    T(isClient, isVirtual, reliable, Open, false,
      Ends(false, false, false), Ends(false, false, false), Ends(false, false, false),
      false, false, false, false, None, None, None, None, None, None, now, {}, 0, {}, 0, {}, [], 0)
  }

  /** The state after a timed sequence of calls. */
  function After(t: T, calls: seq<(Call, int)>, c: Settings): T
    decreases |calls|
  {
    if calls == [] then t
    else
      var last := calls[|calls| - 1];
      Do(After(t, calls[..|calls| - 1], c), last.0, last.1, c)
  }

  // ----- invariant and evolution -----

  function Times(log: seq<Kind>, kind: Kind): nat {
    if log == [] then 0 else Times(log[..|log| - 1], kind) + (if log[|log| - 1] == kind then 1 else 0)
  }

  ghost predicate KindHolds(t: T, kind: Kind) {
    && (Of(t, kind).acked ==> Of(t, kind).sent)
    && (t.waitingAckFor == Some(kind) ==> Of(t, kind).sent)
    && (Terminal(kind) in t.controlSndBuf ==> Of(t, kind).sent)
    && Times(t.originated, kind) == (if Of(t, kind).sent then 1 else 0)
  }

  ghost predicate Inv(t: T) {
    && KindHolds(t, CloseRead) && KindHolds(t, CloseWrite) && KindHolds(t, Rst)
    && t.callbacks == (if t.closed then 1 else 0)
  }

  predicate Kept(before: Ends, after: Ends) {
    (before.sent ==> after.sent) && (before.received ==> after.received) && (before.acked ==> after.acked)
  }

  predicate Resetting(t: T) {
    t.rst.sent || t.rst.received
  }

  /** Flags never revert, the log only grows, and once resetting it does not grow at all. */
  ghost predicate Evolves(t: T, t': T) {
    && Kept(t.closeRead, t'.closeRead) && Kept(t.closeWrite, t'.closeWrite) && Kept(t.rst, t'.rst)
    && (t.closed ==> t'.closed)
    && t.originated <= t'.originated
    && (Resetting(t) ==> t'.originated == t.originated)
  }

  ghost predicate Good(t: T, t': T) {
    Inv(t) ==> Inv(t') && Evolves(t, t')
  }

  lemma GoodChains(a: T, b: T, c: T)
    requires Good(a, b) && Good(b, c)
    ensures Good(a, c)
  {
    hide KindHolds;
  }

  lemma LogGrows(log: seq<Kind>, kind: Kind, other: Kind)
    ensures Times(log + [kind], other) == Times(log, other) + (if kind == other then 1 else 0)
  {
    assert (log + [kind])[..|log|] == log;
  }

  /** What a possible finalization does to the terminal flags: nothing, or shut the stream once. */
  predicate MayShut(t: T, t': T) {
    && t'.closeRead == t.closeRead && t'.closeWrite == t.closeWrite && t'.rst == t.rst
    && t'.originated == t.originated
    && ((t'.closed == t.closed && t'.callbacks == t.callbacks && t'.waitingAckFor == t.waitingAckFor
         && t'.controlSndBuf == t.controlSndBuf)
        || (!t.closed && t'.closed && t'.callbacks == t.callbacks + 1 && t'.waitingAckFor.None?
            && t'.controlSndBuf == {}))
  }

  lemma FinalizeShuts(t: T)
    ensures MayShut(t, FinalizeClose(t))
    ensures MayShut(t, TryFinalizeRemoteEOF(t)) && MayShut(t, TryFinalizePeerResetDrain(t))
  {
  }

  lemma ShutIsGood(t: T, t': T)
    requires MayShut(t, t')
    ensures Good(t, t')
  {
    hide Times;
  }

  /** What an emit that goes out does, in the fields the invariant speaks of. */
  ghost predicate Emitted(t: T, t': T, kind: Kind) {
    && Of(t', kind) == Of(t, kind).(sent := true)
    && (forall other :: other != kind ==> Of(t', other) == Of(t, other))
    && (t'.waitingAckFor == Some(kind) || t'.waitingAckFor.None?)
    && t'.controlSndBuf <= t.controlSndBuf + {Terminal(kind)}
    && (Terminal(kind) in t.controlSndBuf || t'.originated == t.originated + [kind])
    && ((t'.closed == t.closed && t'.callbacks == t.callbacks)
        || (!t.closed && t'.closed && t'.callbacks == t.callbacks + 1))
  }

  /** What the guard leaves alone when the packet goes out. */
  predicate Armed(t: T, g: T, kind: Kind) {
    && g.closeRead == t.closeRead && g.closeWrite == t.closeWrite && g.rst == t.rst
    && g.waitingAckFor == Some(kind) && g.controlSndBuf <= t.controlSndBuf
    && g.originated == t.originated && g.closed == t.closed && g.callbacks == t.callbacks
    && g.isVirtual == t.isVirtual && g.reliable == t.reliable
  }

  lemma RefusalEffect(t: T, kind: Kind, now: int, c: Settings)
    requires !EmitGuard(t, kind, now, c).1
    ensures var g := EmitGuard(t, kind, now, c).0;
      SameFlags(t, g) && g.isVirtual == t.isVirtual && g.reliable == t.reliable
  {
  }

  lemma GuardEffect(t: T, kind: Kind, now: int, c: Settings)
    requires EmitGuard(t, kind, now, c).1
    ensures Armed(t, EmitGuard(t, kind, now, c).0, kind)
  {
  }

  lemma GuardCondition(t: T, kind: Kind, now: int, c: Settings)
    ensures EmitGuard(t, kind, now, c).1 <==>
      !t.closed && !t.isVirtual && t.waitingAckFor != Some(kind) && !Resetting(t) && !Of(t, kind).sent
  {
  }

  /** What the mark does, in the fields the invariant speaks of. */
  predicate MarksOnly(t: T, t': T, kind: Kind) {
    && Of(t', kind) == Of(t, kind).(sent := true)
    && (forall other :: other != kind ==> Of(t', other) == Of(t, other))
    && t'.waitingAckFor == t.waitingAckFor && t'.controlSndBuf <= t.controlSndBuf
    && t'.originated == t.originated && t'.closed == t.closed && t'.callbacks == t.callbacks
    && t'.reliable == t.reliable && t'.isVirtual == t.isVirtual
  }

  lemma CloseReadMarkEffect(t: T)
    ensures MarksOnly(t, CloseReadMarked(t), CloseRead)
  {
    if t.closeRead.received {} else {}
  }

  lemma CloseWriteMarkEffect(t: T)
    ensures MarksOnly(t, MarkCloseWriteSent(t), CloseWrite)
  {
    if t.closeRead.received {} else {}
  }

  lemma RstMarkEffect(t: T)
    ensures MarksOnly(t, MarkRstSent(t), Rst)
  {
  }

  lemma MarkEffect(t: T, kind: Kind)
    ensures MarksOnly(t, Marked(t, kind), kind)
  {
    hide MarksOnly, CloseReadMarked, MarkCloseWriteSent, MarkRstSent;
    match kind
    case CloseRead => CloseReadMarkEffect(t);
    case CloseWrite => CloseWriteMarkEffect(t);
    case Rst => RstMarkEffect(t);
  }

  lemma SendEffect(t: T, kind: Kind)
    ensures var t' := SendTerminal(t, kind);
      && (forall k :: Of(t', k) == Of(t, k)) && t'.waitingAckFor == t.waitingAckFor
      && t.controlSndBuf <= t'.controlSndBuf <= t.controlSndBuf + {Terminal(kind)}
      && (if t.reliable && Terminal(kind) in t.controlSndBuf then t'.originated == t.originated
          else t'.originated == t.originated + [kind])
      && t'.closed == t.closed && t'.callbacks == t.callbacks
      && t'.reliable == t.reliable && t'.isVirtual == t.isVirtual
  {
    if t.reliable && Terminal(kind) in t.controlSndBuf {} else if t.reliable {} else {}
  }

  lemma FinishEmits(g: T, kind: Kind)
    requires g.waitingAckFor == Some(kind)
    ensures Emitted(g, EmitFinish(g, kind), kind)
  {
    hide Marked, SendTerminal, TryFinalizeRemoteEOF;
    var marked := Marked(g, kind);
    var tried := if kind.CloseRead? then TryFinalizeRemoteEOF(marked) else marked;
    MarkEffect(g, kind);
    FinalizeShuts(marked);
    assert MayShut(marked, tried);
    SendEffect(tried, kind);
  }

  lemma EmitEffect(t: T, kind: Kind, now: int, c: Settings)
    requires EmitGuard(t, kind, now, c).1
    ensures Emitted(t, Emit(t, kind, now, c), kind) && !Of(t, kind).sent && !Resetting(t)
  {
    hide EmitGuard, EmitFinish;
    GuardEffect(t, kind, now, c);
    GuardCondition(t, kind, now, c);
    FinishEmits(EmitGuard(t, kind, now, c).0, kind);
  }

  lemma EmittedKind(t: T, t': T, kind: Kind, other: Kind)
    requires KindHolds(t, kind) && KindHolds(t, other) && Emitted(t, t', kind) && !Of(t, kind).sent
    ensures KindHolds(t', other) && Kept(Of(t, other), Of(t', other))
    ensures t'.originated == t.originated + [kind]
  {
    hide Times;
    LogGrows(t.originated, kind, other);
  }

  lemma EmitGoes(t: T, kind: Kind, now: int, c: Settings)
    requires Inv(t) && EmitGuard(t, kind, now, c).1
    ensures Inv(Emit(t, kind, now, c)) && Evolves(t, Emit(t, kind, now, c))
    ensures Emit(t, kind, now, c).originated == t.originated + [kind]
  {
    hide KindHolds, Emit, EmitGuard;
    var t' := Emit(t, kind, now, c);
    EmitEffect(t, kind, now, c);
    assert KindHolds(t, kind);
    EmittedKind(t, t', kind, CloseRead);
    EmittedKind(t, t', kind, CloseWrite);
    EmittedKind(t, t', kind, Rst);
  }

  lemma EmitStays(t: T, kind: Kind, now: int, c: Settings)
    requires !EmitGuard(t, kind, now, c).1
    ensures Good(t, Emit(t, kind, now, c))
  {
    hide Times;
  }

  lemma EmitGood(t: T, kind: Kind, now: int, c: Settings)
    ensures Good(t, Emit(t, kind, now, c))
  {
    hide Emit, Inv, Evolves;
    if EmitGuard(t, kind, now, c).1 {
      if Inv(t) { EmitGoes(t, kind, now, c); }
    } else {
      EmitStays(t, kind, now, c);
    }
  }

  /** Only the named kinds of field differ, none that the invariant or the flags speak of. */
  predicate SameFlags(t: T, t': T) {
    && t'.closeRead == t.closeRead && t'.closeWrite == t.closeWrite && t'.rst == t.rst
    && t'.closed == t.closed && t'.callbacks == t.callbacks && t'.originated == t.originated
    && t'.waitingAckFor == t.waitingAckFor && t'.controlSndBuf == t.controlSndBuf
  }

  lemma SameFlagsGood(t: T, t': T)
    requires SameFlags(t, t')
    ensures Good(t, t')
  {
    hide Times;
  }

  lemma CloseNowGood(t: T, kind: Kind, now: int, c: Settings)
    ensures Good(t, CloseNow(t, kind, now, c))
  {
    hide Emit, Inv, Evolves;
    EmitGood(t, kind, now, c);
    var t1 := Undeferred(t).(state := Reset);
    EmitGood(t1, Rst, now, c);
    SameFlagsGood(t, t1);
    SameFlagsGood(t, t);
    GoodChains(t, t1, Emit(t1, Rst, now, c));
  }

  lemma SettleGood(t: T, now: int, c: Settings)
    ensures Good(t, SettleTerminalDrain(t, now, c))
  {
    hide CloseNow, Inv, Evolves;
    var t1 := Undeferred(t);
    SameFlagsGood(t, t);
    SameFlagsGood(t, t1);
    forall kind ensures Good(t, CloseNow(t1, kind, now, c)) {
      CloseNowGood(t1, kind, now, c);
      GoodChains(t, t1, CloseNow(t1, kind, now, c));
    }
  }

  lemma DeferGood(t: T, kind: Kind, now: int, c: Settings)
    ensures Good(t, DeferTerminalPacket(t, kind, now, c))
  {
    hide SettleTerminalDrain, Inv, Evolves;
    SameFlagsGood(t, t);
    if !t.closed && !t.isVirtual {
      var deadline := now + c.drain;
      var t1 := t.(state := if t.state.Reset? || t.state.Closed? then t.state else Draining,
        stopLocalRead := true, deferredPacket := Some(kind),
        deferredDeadline := if t.deferredDeadline.None? || deadline > t.deferredDeadline.value
                            then Some(deadline) else t.deferredDeadline);
      SameFlagsGood(t, t1);
      SettleGood(t1, now, c);
      GoodChains(t, t1, SettleTerminalDrain(t1, now, c));
    }
  }

  lemma CloseAfterDrainGood(t: T, kind: Kind, now: int, c: Settings)
    ensures Good(t, CloseAfterDrain(t, kind, now, c))
  {
    hide DeferTerminalPacket, Emit, Inv, Evolves;
    var t1 := Undeferred(t).(state := Reset);
    SameFlagsGood(t, t);
    SameFlagsGood(t, t1);
    DeferGood(t, kind, now, c);
    EmitGood(t, kind, now, c);
    DeferGood(t1, Rst, now, c);
    EmitGood(t1, Rst, now, c);
    GoodChains(t, t1, DeferTerminalPacket(t1, Rst, now, c));
    GoodChains(t, t1, Emit(t1, Rst, now, c));
  }

  lemma TryFinalizeGood(t: T)
    ensures Good(t, FinalizeClose(t)) && Good(t, TryFinalizeRemoteEOF(t)) && Good(t, TryFinalizePeerResetDrain(t))
  {
    hide FinalizeClose, TryFinalizeRemoteEOF, TryFinalizePeerResetDrain, Good;
    FinalizeShuts(t);
    ShutIsGood(t, FinalizeClose(t));
    ShutIsGood(t, TryFinalizeRemoteEOF(t));
    ShutIsGood(t, TryFinalizePeerResetDrain(t));
  }

  /** A received or acknowledged flag may be raised; an acknowledgment only for a packet sent. */
  predicate Raises(t: T, t': T) {
    && t'.closed == t.closed && t'.callbacks == t.callbacks && t'.originated == t.originated
    && (t'.waitingAckFor == t.waitingAckFor || t'.waitingAckFor.None?)
    && t'.controlSndBuf <= t.controlSndBuf
    && EndsRaise(t.closeRead, t'.closeRead) && EndsRaise(t.closeWrite, t'.closeWrite) && EndsRaise(t.rst, t'.rst)
  }

  predicate EndsRaise(a: Ends, b: Ends) {
    Kept(a, b) && b.sent == a.sent && (b.acked ==> a.acked || a.sent)
  }

  lemma RaisesGood(t: T, t': T)
    requires Raises(t, t')
    ensures Good(t, t')
  {
    hide Times;
  }

  lemma MaybeCloseReadGood(t: T, now: int, c: Settings)
    ensures Good(t, MaybeCloseReadAfterWriterBreak(t, now, c))
  {
    hide CloseNow, CloseAfterDrain, Inv, Evolves;
    SameFlagsGood(t, t);
    CloseNowGood(t, CloseRead, now, c);
    CloseAfterDrainGood(t, CloseRead, now, c);
  }

  lemma CloseReadAckRaises(t: T, now: int)
    requires t.closeRead.sent
    ensures Raises(t, MarkCloseReadAcked(t, now))
  {
  }

  lemma CloseWriteAckRaises(t: T)
    requires t.closeWrite.sent
    ensures Raises(t, MarkCloseWriteAcked(t))
  {
  }

  lemma RstAckRaises(t: T)
    requires t.rst.sent
    ensures Raises(t, MarkRstAcked(t))
  {
  }

  lemma ClearedWaitingRaises(t: T, kind: Kind)
    ensures Raises(t, ClearedWaiting(t, kind))
  {
    if t.waitingAckFor == Some(kind) {} else {}
  }

  lemma AckMarksGood(t: T, now: int)
    ensures t.closeRead.sent ==> Good(t, MarkCloseReadAcked(t, now))
    ensures t.closeWrite.sent ==> Good(t, MarkCloseWriteAcked(t))
    ensures t.rst.sent ==> Good(t, MarkRstAcked(t))
  {
    hide Good, Raises, MarkCloseReadAcked, MarkCloseWriteAcked, MarkRstAcked;
    if t.closeRead.sent { CloseReadAckRaises(t, now); RaisesGood(t, MarkCloseReadAcked(t, now)); }
    if t.closeWrite.sent { CloseWriteAckRaises(t); RaisesGood(t, MarkCloseWriteAcked(t)); }
    if t.rst.sent { RstAckRaises(t); RaisesGood(t, MarkRstAcked(t)); }
  }

  lemma ClearedWaitingGood(t: T, kind: Kind)
    ensures Good(t, ClearedWaiting(t, kind))
  {
    hide Good, Raises, ClearedWaiting;
    ClearedWaitingRaises(t, kind);
    RaisesGood(t, ClearedWaiting(t, kind));
  }

  lemma CloseReadAckedGood(t: T, now: int, c: Settings)
    requires t.closeRead.sent
    ensures Good(t, TerminalAcked(t, CloseRead, now, c))
  {
    hide TryFinalizeRemoteEOF, MarkCloseReadAcked, ClearedWaiting, Good;
    var t1 := MarkCloseReadAcked(t, now);
    var t2 := ClearedWaiting(t1, CloseRead);
    AckMarksGood(t, now);
    ClearedWaitingGood(t1, CloseRead);
    TryFinalizeGood(t2);
    GoodChains(t, t1, t2);
    GoodChains(t, t2, TryFinalizeRemoteEOF(t2));
  }

  lemma CloseWriteAckedGood(t: T, now: int, c: Settings)
    requires t.closeWrite.sent
    ensures Good(t, TerminalAcked(t, CloseWrite, now, c))
  {
    hide TryFinalizeRemoteEOF, MaybeCloseReadAfterWriterBreak, MarkCloseWriteAcked, ClearedWaiting, Good;
    var t1 := MarkCloseWriteAcked(t);
    var t2 := ClearedWaiting(t1, CloseWrite);
    var t3 := MaybeCloseReadAfterWriterBreak(t2, now, c);
    AckMarksGood(t, now);
    ClearedWaitingGood(t1, CloseWrite);
    MaybeCloseReadGood(t2, now, c);
    TryFinalizeGood(t3);
    GoodChains(t, t1, t2);
    GoodChains(t, t2, t3);
    GoodChains(t, t3, TryFinalizeRemoteEOF(t3));
  }

  lemma RstAckedGood(t: T, now: int, c: Settings)
    requires t.rst.sent
    ensures Good(t, TerminalAcked(t, Rst, now, c))
  {
    hide FinalizeClose, MarkRstAcked, Good;
    AckMarksGood(t, now);
    TryFinalizeGood(MarkRstAcked(t));
    GoodChains(t, MarkRstAcked(t), FinalizeClose(MarkRstAcked(t)));
  }

  lemma AckedGood(t: T, kind: Kind, now: int, c: Settings)
    requires Of(t, kind).sent
    ensures Good(t, TerminalAcked(t, kind, now, c))
  {
    hide TerminalAcked, Good;
    match kind
    case CloseRead => CloseReadAckedGood(t, now, c);
    case CloseWrite => CloseWriteAckedGood(t, now, c);
    case Rst => RstAckedGood(t, now, c);
  }

  lemma ControlAckGood(t: T, item: Tracked, now: int, c: Settings)
    ensures Good(t, ReceiveControlAck(t, item, now, c))
  {
    hide TerminalAcked, FinalizeClose, Evolves;
    var t1 := t.(lastActivity := now);
    var t2 := t1.(controlSndBuf := t1.controlSndBuf - {item});
    if Inv(t) {
      RaisesGood(t, t1);
      RaisesGood(t, t2);
      match item
      case Terminal(kind) =>
        if item in t.controlSndBuf || t.waitingAckFor == Some(kind) {
          assert KindHolds(t, kind);
          AckedGood(t2, kind, now, c);
          GoodChains(t, t2, TerminalAcked(t2, kind, now, c));
        }
      case StreamResult(_) =>
        TryFinalizeGood(t2);
        GoodChains(t, t2, FinalizeClose(t2));
      case Plain(_) =>
    }
  }

  lemma ExpiredGood(t: T, item: Tracked, now: int, c: Settings)
    ensures Good(t, TrackedExpired(t, item, now, c))
  {
    hide FinalizeClose, CloseNow, Good;
    var t1 := t.(controlSndBuf := t.controlSndBuf - {item});
    RaisesGood(t, t);
    RaisesGood(t, t1);
    TryFinalizeGood(t1);
    CloseNowGood(t1, Rst, now, c);
    GoodChains(t, t1, FinalizeClose(t1));
    GoodChains(t, t1, CloseNow(t1, Rst, now, c));
  }

  lemma TickGood(t: T, stalled: bool, now: int, c: Settings)
    ensures Good(t, RetransmitTick(t, stalled, now, c))
  {
    hide FinalizeClose, CloseNow, SettleTerminalDrain, TryFinalizePeerResetDrain, CloseWriteGraceElapsed, Good;
    SameFlagsGood(t, t);
    SameFlagsGood(t, t.(lastActivity := now));
    SettleGood(t, now, c);
    CloseNowGood(t, Rst, now, c);
    CloseNowGood(t, CloseWrite, now, c);
    TryFinalizeGood(t);
  }

  lemma PeerCloseReadGood(t: T)
    ensures Good(t, MarkCloseReadReceived(t))
  {
    hide TryFinalizeRemoteEOF, Good;
    var r := t.(closeRead := t.closeRead.(received := true),
      state := if t.closeRead.sent then ClosingDown else HalfClosedRemote);
    SameFlagsGood(t, t);
    RaisesGood(t, r);
    TryFinalizeGood(r);
    GoodChains(t, r, TryFinalizeRemoteEOF(r));
  }

  lemma PeerCloseWriteGood(t: T, now: int, c: Settings)
    ensures Good(t, MarkCloseWriteReceived(t, now, c))
  {
    hide TryFinalizeRemoteEOF, SettleTerminalDrain, Good;
    var w := t.(closeWrite := t.closeWrite.(received := true), stopLocalRead := true, sndBuf := {});
    var w1 := SettleTerminalDrain(w, now, c);
    SameFlagsGood(t, t);
    RaisesGood(t, w);
    SettleGood(w, now, c);
    TryFinalizeGood(w1);
    GoodChains(t, w, w1);
    GoodChains(t, w1, TryFinalizeRemoteEOF(w1));
  }

  lemma PeerRstGood(t: T)
    ensures Good(t, MarkRstReceived(t))
  {
    hide Good;
    RaisesGood(t, MarkRstReceived(t));
  }

  lemma DataAckedGood(t: T, sn: uint16, now: int, c: Settings)
    ensures Good(t, DataAcked(t, sn, now, c))
  {
    hide TryFinalizeRemoteEOF, SettleTerminalDrain, Good;
    var a := t.(lastActivity := now, sndBuf := t.sndBuf - {sn});
    var a1 := if a.closeRead.received then TryFinalizeRemoteEOF(a) else a;
    SameFlagsGood(t, a);
    SameFlagsGood(a, a);
    TryFinalizeGood(a);
    SettleGood(a1, now, c);
    GoodChains(t, a, a1);
    GoodChains(t, a1, SettleTerminalDrain(a1, now, c));
  }

  lemma DataArrivedGood(t: T, now: int, c: Settings)
    ensures Good(t, DataArrived(t, now, c))
  {
    hide CloseNow, NeedsCloseWrite, Good;
    SameFlagsGood(t, t);
    CloseNowGood(t, CloseWrite, now, c);
    SameFlagsGood(t, t.(pendingInbound := t.pendingInbound + 1));
  }

  lemma DataProcessedGood(t: T, sn: uint16, buffered: bool, now: int, c: Settings)
    ensures Good(t, DataProcessed(t, sn, buffered, now, c))
  {
    hide CloseNow, NeedsCloseWrite, SameFlags, Dequeued, Stored, Good;
    var p := Dequeued(t);
    StoredSame(t, sn, buffered, now);
    SameFlagsGood(t, p);
    CloseNowGood(p, CloseWrite, now, c);
    GoodChains(t, p, CloseNow(p, CloseWrite, now, c));
    SameFlagsGood(t, Stored(p, sn, buffered, now));
  }

  lemma StoredSame(t: T, sn: uint16, buffered: bool, now: int)
    ensures SameFlags(t, Dequeued(t)) && SameFlags(t, Stored(Dequeued(t), sn, buffered, now))
  {
  }

  lemma FinalizersGood(t: T)
    ensures Good(t, TryFinalizeRemoteEOF(TryFinalizePeerResetDrain(t)))
  {
    hide TryFinalizeRemoteEOF, TryFinalizePeerResetDrain, Good;
    TryFinalizeGood(t);
    TryFinalizeGood(TryFinalizePeerResetDrain(t));
    GoodChains(t, TryFinalizePeerResetDrain(t), TryFinalizeRemoteEOF(TryFinalizePeerResetDrain(t)));
  }

  lemma WriterSame(t: T)
    ensures SameFlags(t, MaybeHalfClosed(t)) && SameFlags(t, t.(localWritePending := false))
  {
    if t.closeRead.received && t.pendingInbound == 0 {} else {}
  }

  lemma WriterGood(t: T)
    ensures Good(t, WriterIdle(t)) && Good(t, WriterDone(t))
  {
    hide TryFinalizeRemoteEOF, TryFinalizePeerResetDrain, MaybeHalfClosed, SameFlags, Good;
    var i := MaybeHalfClosed(t);
    var d := t.(localWritePending := false);
    WriterSame(t);
    SameFlagsGood(t, i);
    SameFlagsGood(t, d);
    FinalizersGood(i);
    FinalizersGood(d);
    GoodChains(t, i, WriterIdle(t));
    GoodChains(t, d, WriterDone(t));
  }

  lemma WriterFailedGood(t: T, now: int, c: Settings)
    ensures Good(t, WriterFailed(t, now, c))
  {
    hide CloseNow, Good;
    var f := t.(localWriterBroken := true, localWritePending := false, rcvBuf := {});
    SameFlagsGood(t, f);
    CloseNowGood(f, CloseWrite, now, c);
    GoodChains(t, f, CloseNow(f, CloseWrite, now, c));
  }

  lemma NotedSame(t: T, now: int)
    ensures SameFlags(t, NotedEOF(t, now)) && SameFlags(t, t.(isVirtual := false))
  {
    if t.isClient && t.clientEOFAt.None? {} else {}
  }

  lemma EndsOfReadGood(t: T, now: int, c: Settings)
    ensures Good(t, Do(t, ReadEOF, now, c)) && Good(t, Do(t, Force, now, c))
  {
    hide CloseAfterDrain, FinalizeClose, NotedEOF, SameFlags, Good;
    var e := NotedEOF(t, now);
    NotedSame(t, now);
    SameFlagsGood(t, e);
    CloseAfterDrainGood(e, CloseRead, now, c);
    GoodChains(t, e, CloseAfterDrain(e, CloseRead, now, c));
    var v := t.(isVirtual := false);
    SameFlagsGood(t, v);
    TryFinalizeGood(v);
    GoodChains(t, v, FinalizeClose(v));
  }

  lemma BufferingGood(t: T, sn: uint16, count: nat, item: Tracked, now: int)
    requires !item.Terminal?
    ensures Good(t, t.(lastActivity := now, sndBuf := t.sndBuf + {sn})) && Good(t, WriterTook(t, count))
    ensures Good(t, t) && Good(t, t.(controlSndBuf := t.controlSndBuf + {item}))
  {
    hide Times;
  }

  /** Every call keeps the invariant and lets the machine only move forward. */
  lemma DoGood(t: T, call: Call, now: int, c: Settings)
    ensures Good(t, Do(t, call, now, c))
  {
    hide Good, CloseAfterDrain, CloseNow, DataAcked, DataArrived, DataProcessed, WriterIdle, WriterDone,
      WriterFailed, WriterTook, MarkCloseReadReceived, MarkCloseWriteReceived, MarkRstReceived, ReceiveControlAck,
      TrackedExpired, RetransmitTick, SettleTerminalDrain, FinalizeClose;
    match call
    case ReadAppend(sn) => BufferingGood(t, sn, 0, Plain(0), now);
    case ReadEOF => EndsOfReadGood(t, now, c);
    case ReadFailed(_) => CloseAfterDrainGood(t, Rst, now, c); CloseNowGood(t, Rst, now, c);
    case AckData(sn) => DataAckedGood(t, sn, now, c);
    case ArriveData => DataArrivedGood(t, now, c);
    case ProcessData(sn, buffered) => DataProcessedGood(t, sn, buffered, now, c);
    case IdleWriter => WriterGood(t);
    case TakeRun(count) => BufferingGood(t, 0, count, Plain(0), now);
    case DoneWriting => WriterGood(t);
    case FailWriting => WriterFailedGood(t, now, c);
    case PeerCloseRead => PeerCloseReadGood(t);
    case PeerCloseWrite => PeerCloseWriteGood(t, now, c);
    case PeerRst => PeerRstGood(t);
    case Track(item) => BufferingGood(t, 0, 0, if item.Terminal? then Plain(0) else item, now);
    case ControlAck(item) => ControlAckGood(t, item, now, c);
    case ControlExpired(item) => ExpiredGood(t, item, now, c);
    case DataExpired => CloseNowGood(t, Rst, now, c);
    case Tick(stalled) => TickGood(t, stalled, now, c);
    case Drained => SettleGood(t, now, c);
    case CloseStream(kind, _) => CloseAfterDrainGood(t, kind, now, c); CloseNowGood(t, kind, now, c);
    case Force => EndsOfReadGood(t, now, c);
  }

  // ----- what every run guarantees -----

  lemma {:induction false} RunIsGood(t: T, calls: seq<(Call, int)>, c: Settings)
    requires Inv(t)
    ensures Inv(After(t, calls, c)) && Evolves(t, After(t, calls, c))
    decreases |calls|
  {
    hide Inv, Evolves, Do;
    if calls == [] {
      SameFlagsGood(t, t);
    } else {
      var last, before := calls[|calls| - 1], After(t, calls[..|calls| - 1], c);
      RunIsGood(t, calls[..|calls| - 1], c);
      DoGood(before, last.0, last.1, c);
      GoodChains(t, before, Do(before, last.0, last.1, c));
    }
  }

  lemma NewHolds(isClient: bool, isVirtual: bool, reliable: bool, now: int)
    ensures Inv(New(isClient, isVirtual, reliable, now))
  {
  }

  /** Over all runs: acknowledged implies sent, each terminal packet is originated exactly when it is
      marked sent and at most once, and the owner's close callback fires at most once. */
  lemma TerminalSafety(isClient: bool, isVirtual: bool, reliable: bool, start: int, calls: seq<(Call, int)>,
      c: Settings)
    ensures var t := After(New(isClient, isVirtual, reliable, start), calls, c);
      && (forall kind :: Of(t, kind).acked ==> Of(t, kind).sent)
      && (forall kind :: Times(t.originated, kind) == if Of(t, kind).sent then 1 else 0)
      && t.callbacks == (if t.closed then 1 else 0)
  {
    hide After, New, Times;
    NewHolds(isClient, isVirtual, reliable, start);
    RunIsGood(New(isClient, isVirtual, reliable, start), calls, c);
    var t := After(New(isClient, isVirtual, reliable, start), calls, c);
    assert KindHolds(t, CloseRead) && KindHolds(t, CloseWrite) && KindHolds(t, Rst);
  }

  /** Over all runs, from any point on: no flag reverts, a closed stream stays closed, and once a reset
      was sent or received nothing is originated any more. */
  lemma FlagsNeverRevert(t: T, calls: seq<(Call, int)>, c: Settings, kind: Kind)
    requires Inv(t)
    ensures var t' := After(t, calls, c);
      && Kept(Of(t, kind), Of(t', kind)) && (t.closed ==> t'.closed)
      && t.originated <= t'.originated && (Resetting(t) ==> t'.originated == t.originated)
  {
    hide After, Inv;
    RunIsGood(t, calls, c);
  }

  // ----- between the lock sections of the emit -----

  /** The guard admits a packet exactly when the stream is open, nothing is resetting, the packet is not
      marked sent and is not the one being waited for. Only the mark, a later lock section, excludes it for
      good: a guard of another kind in between replaces the awaited kind and admits it again. */
  lemma SecondEmitAdmittedIff(t: T, kind: Kind, other: Kind, now: int, c: Settings)
    requires EmitGuard(t, kind, now, c).1
    ensures var once := EmitGuard(t, kind, now, c).0; var between := EmitGuard(once, other, now, c).0;
      EmitGuard(between, kind, now, c).1 <==> other != kind && !Of(t, other).sent
  {
    hide EmitGuard;
    var once := EmitGuard(t, kind, now, c).0;
    GuardCondition(t, kind, now, c);
    GuardCondition(once, other, now, c);
    GuardCondition(EmitGuard(once, other, now, c).0, kind, now, c);
    GuardEffect(t, kind, now, c);
    if EmitGuard(once, other, now, c).1 {
      GuardEffect(once, other, now, c);
    } else {
      RefusalEffect(once, other, now, c);
    }
  }
}
