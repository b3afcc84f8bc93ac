/** The close machine between its lock sections. */
module ArqSections {
  // The steps of ArqTerminal are whole calls. Here each lock section is a step of its own, and sections of
  // different calls interleave freely. What a goroutine has yet to do is a token of pending work.

  import opened Words
  import opened ArqTerminal

  datatype Token = ToMark(kind: Kind) | ToSend(kind: Kind) | ToAck(kind: Kind) | ToClear(kind: Kind)

  datatype Machine = Machine(
    t: T,
    work: multiset<Token>,
    admitted: multiset<Kind>  // history: the packets the guard let through
  )

  datatype Section =
    | Guard(kind: Kind, now: int, settings: Settings)  // first section of an emit
    | Accept(kind: Kind, now: int)                     // first section of an acknowledgment that is taken
    | Work(token: Token, now: int)                     // a later section of an emit or an acknowledgment
    | Other                                            // any other section

  function Start(isClient: bool, isVirtual: bool, reliable: bool, now: int): Machine {
    Machine(New(isClient, isVirtual, reliable, now), multiset{}, multiset{})
  }

  /** The guard lets the packet through, as GuardCondition shows. */
  predicate Admits(t: T, kind: Kind) {
    !t.closed && !t.isVirtual && t.waitingAckFor != Some(kind) && !Resetting(t) && !Of(t, kind).sent
  }

  /** An acknowledgment is taken for a tracked packet or for the awaited one, marked sent or not. */
  predicate Accepts(t: T, kind: Kind) {
    Terminal(kind) in t.controlSndBuf || t.waitingAckFor == Some(kind)
  }

  function Accepted(t: T, kind: Kind, now: int): T {
    t.(lastActivity := now, controlSndBuf := t.controlSndBuf - {Terminal(kind)})
  }

  function Acknowledged(t: T, kind: Kind, now: int): T {
    match kind
    case CloseRead => MarkCloseReadAcked(t, now)
    case CloseWrite => MarkCloseWriteAcked(t)
    case Rst => MarkRstAcked(t)
  }

  function Worked(t: T, token: Token, now: int): T {
    match token
    case ToMark(kind) => Marked(t, kind)
    case ToSend(kind) => SendTerminal(t, kind)
    case ToAck(kind) => Acknowledged(t, kind, now)
    case ToClear(kind) => ClearedWaiting(t, kind)
  }

  /** What is left to do after a section. An acknowledged reset is finalized instead of cleared. */
  function Next(token: Token): multiset<Token> {
    match token
    case ToMark(kind) => multiset{ToSend(kind)}
    case ToAck(kind) => if kind.Rst? then multiset{} else multiset{ToClear(kind)}
    case _ => multiset{}
  }

  predicate SameOrReceived(before: Ends, after: Ends) {
    after == before || after == before.(received := true)
  }

  /** What every other section leaves alone: it marks and acknowledges nothing, queues no terminal packet, and
      stops awaiting one only by shutting the stream, which it does at most once. */
  predicate Silent(t: T, t': T) {
    && SameOrReceived(t.closeRead, t'.closeRead) && SameOrReceived(t.closeWrite, t'.closeWrite)
    && SameOrReceived(t.rst, t'.rst)
    && (forall item :: item in t'.controlSndBuf && item !in t.controlSndBuf ==> !item.Terminal?)
    && t'.originated == t.originated && t'.reliable == t.reliable && (t'.isVirtual ==> t.isVirtual)
    && ((t'.closed == t.closed && t'.callbacks == t.callbacks && t'.waitingAckFor == t.waitingAckFor)
        || (!t.closed && t'.closed && t'.callbacks == t.callbacks + 1 && t'.waitingAckFor.None?))
  }

  predicate Taken(m: Machine, s: Section, m': Machine) {
    match s
    case Guard(kind, now, c) =>
      && m'.t == EmitGuard(m.t, kind, now, c).0
      && m'.work == (if Admits(m.t, kind) then m.work + multiset{ToMark(kind)} else m.work)
      && m'.admitted == (if Admits(m.t, kind) then m.admitted + multiset{kind} else m.admitted)
    case Accept(kind, now) =>
      Accepts(m.t, kind)
      && m' == m.(t := Accepted(m.t, kind, now), work := m.work + multiset{ToAck(kind)})
    case Work(token, now) =>
      token in m.work
      && m' == m.(t := Worked(m.t, token, now), work := m.work - multiset{token} + Next(token))
    case Other => Silent(m.t, m'.t) && m'.work == m.work && m'.admitted == m.admitted
  }

  ghost predicate Path(ms: seq<Machine>, steps: seq<Section>) {
    |ms| == |steps| + 1 && forall k :: 0 <= k < |steps| ==> Taken(ms[k], steps[k], ms[k + 1])
  }

  ghost predicate Run(ms: seq<Machine>, steps: seq<Section>) {
    && Path(ms, steps)
    && exists isClient, isVirtual, reliable, now :: ms[0] == Start(isClient, isVirtual, reliable, now)
  }

  // ----- the other sections of the code are silent, and whole calls are paths -----

  predicate QuietFlags(t: T, t': T) {
    SameFlags(t, t') && t'.reliable == t.reliable && (t'.isVirtual ==> t.isVirtual)
  }

  lemma FlagsAreSilent(t: T, t': T)
    requires QuietFlags(t, t')
    ensures Silent(t, t')
  {
  }

  lemma ShutIsSilent(t: T, t': T)
    requires MayShut(t, t') && t'.reliable == t.reliable && t'.isVirtual == t.isVirtual
    ensures Silent(t, t')
  {
  }

  lemma FinalizeKeepsSettings(t: T)
    ensures FinalizeClose(t).reliable == t.reliable && FinalizeClose(t).isVirtual == t.isVirtual
  {
    if t.closed || t.isVirtual {} else {}
  }

  lemma FinalizersAreSilent(t: T)
    ensures Silent(t, FinalizeClose(t)) && Silent(t, TryFinalizeRemoteEOF(t)) && Silent(t, TryFinalizePeerResetDrain(t))
  {
    hide MayShut, Silent, HandshakeDone, LocalDisconnectDone, FinalizeClose;
    FinalizeShuts(t);
    FinalizeKeepsSettings(t);
    ShutIsSilent(t, FinalizeClose(t));
    ShutIsSilent(t, TryFinalizeRemoteEOF(t));
    ShutIsSilent(t, TryFinalizePeerResetDrain(t));
  }

  lemma PeerCloseReadIsSilent(t: T)
    ensures Silent(t, t.(closeRead := t.closeRead.(received := true),
                         state := if t.closeRead.sent then ClosingDown else HalfClosedRemote))
  {
  }

  lemma PeerCloseWriteIsSilent(t: T)
    ensures Silent(t, t.(closeWrite := t.closeWrite.(received := true), stopLocalRead := true, sndBuf := {}))
  {
  }

  lemma PeerRstIsSilent(t: T)
    ensures Silent(t, MarkRstReceived(t))
  {
    if t.isVirtual {} else {}
  }

  /** The sections by which a close is deferred, settled or turned into a reset before the emit. */
  lemma UndeferringIsSilent(t: T)
    ensures Silent(t, Undeferred(t)) && Silent(t, Undeferred(t).(state := Reset)) && Silent(t, t.(isVirtual := false))
  {
  }

  lemma DeferringIsSilent(t: T, kind: Kind, deadline: Option<int>, state: StreamState)
    ensures Silent(t, t.(state := state, stopLocalRead := true, deferredPacket := Some(kind),
                         deferredDeadline := deadline))
  {
  }

  lemma WriterSectionsAreSilent(t: T, count: nat, now: int)
    ensures Silent(t, t.(localWriterBroken := true, localWritePending := false, rcvBuf := {}))
    ensures Silent(t, t.(localWritePending := false)) && Silent(t, WriterTook(t, count))
    ensures Silent(t, HalfCloseLocalWriter(t)) && Silent(t, NotedEOF(t, now))
  {
    hide Silent, QuietFlags, HalfCloseLocalWriter, NotedEOF, WriterTook;
    WriterFlags(t);
    TookFlags(t, count);
    EndFlags(t, now);
    FlagsAreSilent(t, t.(localWriterBroken := true, localWritePending := false, rcvBuf := {}));
    FlagsAreSilent(t, t.(localWritePending := false));
    FlagsAreSilent(t, WriterTook(t, count));
    FlagsAreSilent(t, HalfCloseLocalWriter(t));
    FlagsAreSilent(t, NotedEOF(t, now));
  }

  lemma WriterFlags(t: T)
    ensures QuietFlags(t, t.(localWriterBroken := true, localWritePending := false, rcvBuf := {}))
    ensures QuietFlags(t, t.(localWritePending := false))
  {
  }

  lemma TookFlags(t: T, count: nat)
    ensures QuietFlags(t, WriterTook(t, count))
  {
    hide Sub16, Add16;
  }

  lemma EndFlags(t: T, now: int)
    ensures QuietFlags(t, HalfCloseLocalWriter(t)) && QuietFlags(t, NotedEOF(t, now))
  {
    if t.localWriteClosed || t.closed {} else {}
    if t.isClient && t.clientEOFAt.None? {} else {}
  }

  /** The sections of the data plane. */
  lemma DataSectionsAreSilent(t: T, sn: uint16, buffered: bool, now: int)
    ensures Silent(t, t.(lastActivity := now, sndBuf := t.sndBuf + {sn}))
    ensures Silent(t, t.(lastActivity := now, sndBuf := t.sndBuf - {sn}))
    ensures Silent(t, t.(pendingInbound := t.pendingInbound + 1)) && Silent(t, Dequeued(t))
    ensures Silent(t, Stored(t, sn, buffered, now))
  {
    hide Silent, QuietFlags, Dequeued, Stored;
    SenderFlags(t, sn, now);
    InboundFlags(t);
    StoredFlags(t, sn, buffered, now);
    FlagsAreSilent(t, t.(lastActivity := now, sndBuf := t.sndBuf + {sn}));
    FlagsAreSilent(t, t.(lastActivity := now, sndBuf := t.sndBuf - {sn}));
    FlagsAreSilent(t, t.(pendingInbound := t.pendingInbound + 1));
    FlagsAreSilent(t, Dequeued(t));
    FlagsAreSilent(t, Stored(t, sn, buffered, now));
  }

  lemma SenderFlags(t: T, sn: uint16, now: int)
    ensures QuietFlags(t, t.(lastActivity := now, sndBuf := t.sndBuf + {sn}))
    ensures QuietFlags(t, t.(lastActivity := now, sndBuf := t.sndBuf - {sn}))
  {
  }

  lemma InboundFlags(t: T)
    ensures QuietFlags(t, t.(pendingInbound := t.pendingInbound + 1)) && QuietFlags(t, Dequeued(t))
  {
  }

  lemma StoredFlags(t: T, sn: uint16, buffered: bool, now: int)
    ensures QuietFlags(t, Stored(t, sn, buffered, now))
  {
    if buffered {} else {}
  }

  /** The sections of other control packets and of the retransmit tick. */
  lemma ControlSectionsAreSilent(t: T, item: Tracked, now: int)
    ensures Silent(t, t.(lastActivity := now)) && Silent(t, t.(controlSndBuf := t.controlSndBuf - {item}))
    ensures !item.Terminal? ==> Silent(t, t.(controlSndBuf := t.controlSndBuf + {item}))
  {
  }

  /** An emit that nothing interrupts is a path of its sections. */
  lemma EmitIsAPath(m: Machine, kind: Kind, now: int, c: Settings) returns (ms: seq<Machine>, steps: seq<Section>)
    ensures Path(ms, steps) && ms[0] == m && ms[|steps|].t == Emit(m.t, kind, now, c) && ms[|steps|].work == m.work
  {
    hide Taken, Marked, SendTerminal, TryFinalizeRemoteEOF, EmitGuard;
    GuardCondition(m.t, kind, now, c);
    var m1 := Guarded(m, kind, now, c);
    ms, steps := [m, m1], [Guard(kind, now, c)];
    GuardIsASection(m, kind, now, c);
    if Admits(m.t, kind) {
      var m2 := m1.(t := Marked(m1.t, kind), work := m.work + multiset{ToSend(kind)});
      var m3 := m2.(t := if kind.CloseRead? then TryFinalizeRemoteEOF(m2.t) else m2.t);
      var m4 := m3.(t := SendTerminal(m3.t, kind), work := m.work);
      FinishIsSections(m1, m.work, kind, now);
      ms, steps := ms + [m2, m3, m4], steps + [Work(ToMark(kind), now), Other, Work(ToSend(kind), now)];
    }
  }

  function Guarded(m: Machine, kind: Kind, now: int, c: Settings): Machine {
    Machine(EmitGuard(m.t, kind, now, c).0,
            if Admits(m.t, kind) then m.work + multiset{ToMark(kind)} else m.work,
            if Admits(m.t, kind) then m.admitted + multiset{kind} else m.admitted)
  }

  lemma GuardIsASection(m: Machine, kind: Kind, now: int, c: Settings)
    ensures Taken(m, Guard(kind, now, c), Guarded(m, kind, now, c))
  {
    hide EmitGuard, Admits;
  }

  lemma FinishIsSections(m: Machine, rest: multiset<Token>, kind: Kind, now: int)
    requires m.work == rest + multiset{ToMark(kind)}
    ensures var m2 := m.(t := Marked(m.t, kind), work := rest + multiset{ToSend(kind)});
      var m3 := m2.(t := if kind.CloseRead? then TryFinalizeRemoteEOF(m2.t) else m2.t);
      && Taken(m, Work(ToMark(kind), now), m2) && Taken(m2, Other, m3)
      && Taken(m3, Work(ToSend(kind), now), m3.(t := SendTerminal(m3.t, kind), work := rest))
  {
    hide Taken, Marked, SendTerminal, TryFinalizeRemoteEOF;
    var m2 := m.(t := Marked(m.t, kind), work := rest + multiset{ToSend(kind)});
    var m3 := m2.(t := if kind.CloseRead? then TryFinalizeRemoteEOF(m2.t) else m2.t);
    MarkIsASection(m, rest, kind, now);
    TryIsASection(m2, m3);
    SendIsTheLast(m3, rest, kind, now);
  }

  lemma MarkIsASection(m: Machine, rest: multiset<Token>, kind: Kind, now: int)
    requires m.work == rest + multiset{ToMark(kind)}
    ensures Taken(m, Work(ToMark(kind), now), m.(t := Marked(m.t, kind), work := rest + multiset{ToSend(kind)}))
  {
    hide Marked;
    assert rest + multiset{ToMark(kind)} - multiset{ToMark(kind)} == rest;
  }

  lemma TryIsASection(m: Machine, m': Machine)
    requires m' == m || m' == m.(t := TryFinalizeRemoteEOF(m.t))
    ensures Taken(m, Other, m')
  {
    hide Silent, TryFinalizeRemoteEOF, QuietFlags;
    FinalizersAreSilent(m.t);
    SameIsQuiet(m.t);
    FlagsAreSilent(m.t, m.t);
  }

  lemma SameIsQuiet(t: T)
    ensures QuietFlags(t, t)
  {
  }

  lemma SendIsTheLast(m: Machine, rest: multiset<Token>, kind: Kind, now: int)
    requires m.work == rest + multiset{ToSend(kind)}
    ensures Taken(m, Work(ToSend(kind), now), m.(t := SendTerminal(m.t, kind), work := rest))
  {
    hide SendTerminal;
    assert rest + multiset{ToSend(kind)} - multiset{ToSend(kind)} + multiset{} == rest;
  }

  // ----- the invariant -----

  /** What the invariant says of one kind of packet, in the numbers it depends on. */
  predicate Balanced(sent: bool, tracked: bool, awaited: bool, reliable: bool,
                     pending: nat, sending: nat, times: nat, admitted: nat) {
    && (!sent ==> sending == 0 && times == 0 && !tracked && pending == admitted)
    && (awaited ==> sent || pending > 0)
    && pending + sending + times <= admitted
    && (!reliable ==> pending + sending + times == admitted)
  }

  predicate KindHolds(m: Machine, kind: Kind) {
    Balanced(Of(m.t, kind).sent, Terminal(kind) in m.t.controlSndBuf, m.t.waitingAckFor == Some(kind), m.t.reliable,
             m.work[ToMark(kind)], m.work[ToSend(kind)], Times(m.t.originated, kind), m.admitted[kind])
  }

  predicate Holds(m: Machine) {
    && KindHolds(m, CloseRead) && KindHolds(m, CloseWrite) && KindHolds(m, Rst)
    && m.t.callbacks == (if m.t.closed then 1 else 0)
  }

  /** No section reverts a flag, reopens the stream or shortens the log. */
  predicate Forward(t: T, t': T) {
    && Kept(t.closeRead, t'.closeRead) && Kept(t.closeWrite, t'.closeWrite) && Kept(t.rst, t'.rst)
    && (t.closed ==> t'.closed) && t.originated <= t'.originated && t'.reliable == t.reliable
  }

  lemma GuardKeeps(m: Machine, kind: Kind, now: int, c: Settings, m': Machine)
    requires Holds(m) && Taken(m, Guard(kind, now, c), m')
    ensures Holds(m') && Forward(m.t, m'.t)
  {
    hide EmitGuard, Times, Holds, Forward;
    GuardCondition(m.t, kind, now, c);
    if Admits(m.t, kind) {
      GuardEffect(m.t, kind, now, c);
      AdmittedKeeps(m, kind, m');
    } else {
      RefusalEffect(m.t, kind, now, c);
      RefusedKeeps(m, m');
    }
  }

  lemma AdmittedKeeps(m: Machine, kind: Kind, m': Machine)
    requires Holds(m) && !Of(m.t, kind).sent && Armed(m.t, m'.t, kind)
    requires m'.work == m.work + multiset{ToMark(kind)} && m'.admitted == m.admitted + multiset{kind}
    ensures Holds(m') && Forward(m.t, m'.t)
  {
    hide Armed, Times, KindHolds;
    ForwardWhenArmed(m.t, m'.t, kind);
    AdmittedKeepsKind(m, kind, m', CloseRead);
    AdmittedKeepsKind(m, kind, m', CloseWrite);
    AdmittedKeepsKind(m, kind, m', Rst);
  }

  lemma ForwardWhenArmed(t: T, t': T, kind: Kind)
    requires Armed(t, t', kind)
    ensures Forward(t, t') && t'.closed == t.closed && t'.callbacks == t.callbacks
  {
  }

  lemma AdmittedKeepsKind(m: Machine, kind: Kind, m': Machine, k: Kind)
    requires KindHolds(m, k) && !Of(m.t, kind).sent && Armed(m.t, m'.t, kind)
    requires m'.work == m.work + multiset{ToMark(kind)} && m'.admitted == m.admitted + multiset{kind}
    ensures KindHolds(m', k)
  {
    hide Times;
  }

  lemma RefusedKeeps(m: Machine, m': Machine)
    requires Holds(m) && SameFlags(m.t, m'.t) && m'.t.reliable == m.t.reliable
    requires m'.work == m.work && m'.admitted == m.admitted
    ensures Holds(m') && Forward(m.t, m'.t)
  {
    hide Times, Balanced;
  }

  lemma AcceptKeeps(m: Machine, kind: Kind, now: int, m': Machine)
    requires Holds(m) && Taken(m, Accept(kind, now), m')
    ensures Holds(m') && Forward(m.t, m'.t)
  {
    hide Times;
  }

  lemma MarkKeeps(m: Machine, kind: Kind, now: int, m': Machine)
    requires Holds(m) && Taken(m, Work(ToMark(kind), now), m')
    ensures Holds(m') && Forward(m.t, m'.t)
  {
    hide Marked, MarksOnly, KindHolds;
    MarkEffect(m.t, kind);
    ForwardWhenMarked(m.t, m'.t, kind);
    MarkKeepsKind(m, kind, m', CloseRead);
    MarkKeepsKind(m, kind, m', CloseWrite);
    MarkKeepsKind(m, kind, m', Rst);
  }

  lemma ForwardWhenMarked(t: T, t': T, kind: Kind)
    requires MarksOnly(t, t', kind)
    ensures Forward(t, t') && t'.closed == t.closed && t'.callbacks == t.callbacks
  {
    assert Of(t, CloseRead) == t.closeRead && Of(t, CloseWrite) == t.closeWrite && Of(t, Rst) == t.rst;
    assert Of(t', CloseRead) == t'.closeRead && Of(t', CloseWrite) == t'.closeWrite && Of(t', Rst) == t'.rst;
  }

  lemma MarkKeepsKind(m: Machine, kind: Kind, m': Machine, k: Kind)
    requires KindHolds(m, k) && MarksOnly(m.t, m'.t, kind) && ToMark(kind) in m.work
    requires m'.work == m.work - multiset{ToMark(kind)} + multiset{ToSend(kind)} && m'.admitted == m.admitted
    ensures KindHolds(m', k)
  {
    hide Times, Of;
  }

  lemma SendKeeps(m: Machine, kind: Kind, now: int, m': Machine)
    requires Holds(m) && Taken(m, Work(ToSend(kind), now), m')
    ensures Holds(m') && Forward(m.t, m'.t)
  {
    hide SendTerminal, KindHolds;
    SendEffect(m.t, kind);
    assert Holds(m') by {
      SendKeepsKind(m, kind, m', CloseRead);
      SendKeepsKind(m, kind, m', CloseWrite);
      SendKeepsKind(m, kind, m', Rst);
    }
    assert Of(m.t, CloseRead) == m.t.closeRead && Of(m.t, CloseWrite) == m.t.closeWrite && Of(m.t, Rst) == m.t.rst;
    assert Of(m'.t, CloseRead) == m'.t.closeRead && Of(m'.t, CloseWrite) == m'.t.closeWrite;
    assert Of(m'.t, Rst) == m'.t.rst;
  }

  lemma SendKeepsKind(m: Machine, kind: Kind, m': Machine, k: Kind)
    requires KindHolds(m, k) && KindHolds(m, kind) && m'.t == SendTerminal(m.t, kind) && ToSend(kind) in m.work
    requires m'.work == m.work - multiset{ToSend(kind)} && m'.admitted == m.admitted
    ensures KindHolds(m', k)
  {
    hide Times, SendTerminal;
    SendEffect(m.t, kind);
    LogGrows(m.t.originated, kind, k);
  }

  /** What an acknowledgment does to the flags, in the fields the invariant speaks of. */
  predicate AcksOnly(t: T, t': T, kind: Kind) {
    && Of(t', kind) == Of(t, kind).(acked := true)
    && (forall other :: other != kind ==> Of(t', other) == Of(t, other))
    && t'.waitingAckFor == t.waitingAckFor && t'.controlSndBuf <= t.controlSndBuf
    && t'.originated == t.originated && t'.closed == t.closed && t'.callbacks == t.callbacks
    && t'.reliable == t.reliable
  }

  lemma CloseReadAckEffect(t: T, now: int)
    ensures AcksOnly(t, MarkCloseReadAcked(t, now), CloseRead)
  {
    if t.closeRead.received {} else {}
  }

  lemma CloseWriteAckEffect(t: T)
    ensures AcksOnly(t, MarkCloseWriteAcked(t), CloseWrite)
  {
  }

  lemma RstAckEffect(t: T)
    ensures AcksOnly(t, MarkRstAcked(t), Rst)
  {
  }

  lemma AcknowledgedEffect(t: T, kind: Kind, now: int)
    ensures AcksOnly(t, Acknowledged(t, kind, now), kind)
  {
    hide AcksOnly, MarkCloseReadAcked, MarkCloseWriteAcked, MarkRstAcked;
    match kind
    case CloseRead => CloseReadAckEffect(t, now);
    case CloseWrite => CloseWriteAckEffect(t);
    case Rst => RstAckEffect(t);
  }

  lemma AckKeeps(m: Machine, kind: Kind, now: int, m': Machine)
    requires Holds(m) && Taken(m, Work(ToAck(kind), now), m')
    ensures Holds(m') && Forward(m.t, m'.t)
  {
    hide Acknowledged, AcksOnly, KindHolds;
    AcknowledgedEffect(m.t, kind, now);
    ForwardWhenAcknowledged(m.t, m'.t, kind);
    AckKeepsKind(m, kind, m', CloseRead);
    AckKeepsKind(m, kind, m', CloseWrite);
    AckKeepsKind(m, kind, m', Rst);
  }

  lemma ForwardWhenAcknowledged(t: T, t': T, kind: Kind)
    requires AcksOnly(t, t', kind)
    ensures Forward(t, t') && t'.closed == t.closed && t'.callbacks == t.callbacks
  {
    assert Of(t, CloseRead) == t.closeRead && Of(t, CloseWrite) == t.closeWrite && Of(t, Rst) == t.rst;
    assert Of(t', CloseRead) == t'.closeRead && Of(t', CloseWrite) == t'.closeWrite && Of(t', Rst) == t'.rst;
  }

  lemma AckKeepsKind(m: Machine, kind: Kind, m': Machine, k: Kind)
    requires KindHolds(m, k) && AcksOnly(m.t, m'.t, kind)
    requires m'.work == m.work - multiset{ToAck(kind)} + Next(ToAck(kind)) && m'.admitted == m.admitted
    ensures KindHolds(m', k)
  {
    hide Times, Of;
  }

  lemma ClearKeeps(m: Machine, kind: Kind, now: int, m': Machine)
    requires Holds(m) && Taken(m, Work(ToClear(kind), now), m')
    ensures Holds(m') && Forward(m.t, m'.t)
  {
    hide KindHolds;
    ClearKeepsKind(m, kind, m', CloseRead);
    ClearKeepsKind(m, kind, m', CloseWrite);
    ClearKeepsKind(m, kind, m', Rst);
    if m.t.waitingAckFor == Some(kind) {} else {}
  }

  lemma ClearKeepsKind(m: Machine, kind: Kind, m': Machine, k: Kind)
    requires KindHolds(m, k) && m'.t == ClearedWaiting(m.t, kind)
    requires m'.work == m.work - multiset{ToClear(kind)} + Next(ToClear(kind)) && m'.admitted == m.admitted
    ensures KindHolds(m', k)
  {
    hide Times;
    if m.t.waitingAckFor == Some(kind) {} else {}
  }

  lemma OtherKeeps(m: Machine, m': Machine)
    requires Holds(m) && Taken(m, Other, m')
    ensures Holds(m') && Forward(m.t, m'.t)
  {
    hide Silent, KindHolds;
    ForwardWhenSilent(m.t, m'.t);
    OtherKeepsKind(m, m', CloseRead);
    OtherKeepsKind(m, m', CloseWrite);
    OtherKeepsKind(m, m', Rst);
  }

  lemma ForwardWhenSilent(t: T, t': T)
    requires Silent(t, t')
    ensures Forward(t, t')
    ensures t.callbacks == (if t.closed then 1 else 0) ==> t'.callbacks == (if t'.closed then 1 else 0)
  {
  }

  lemma OtherKeepsKind(m: Machine, m': Machine, kind: Kind)
    requires KindHolds(m, kind) && Silent(m.t, m'.t) && m'.work == m.work && m'.admitted == m.admitted
    ensures KindHolds(m', kind)
  {
    hide Times;
    match kind
    case CloseRead =>
    case CloseWrite =>
    case Rst =>
  }

  lemma StepKeeps(m: Machine, s: Section, m': Machine)
    requires Holds(m) && Taken(m, s, m')
    ensures Holds(m') && Forward(m.t, m'.t)
  {
    hide Holds, Forward, Taken;
    match s
    case Guard(kind, now, c) => GuardKeeps(m, kind, now, c, m');
    case Accept(kind, now) => AcceptKeeps(m, kind, now, m');
    case Work(ToMark(kind), now) => MarkKeeps(m, kind, now, m');
    case Work(ToSend(kind), now) => SendKeeps(m, kind, now, m');
    case Work(ToAck(kind), now) => AckKeeps(m, kind, now, m');
    case Work(ToClear(kind), now) => ClearKeeps(m, kind, now, m');
    case Other => OtherKeeps(m, m');
  }

  lemma {:induction false} PathKeeps(ms: seq<Machine>, steps: seq<Section>, j: nat, k: nat)
    requires Path(ms, steps) && j <= k < |ms| && Holds(ms[j])
    ensures Holds(ms[k]) && Forward(ms[j].t, ms[k].t)
    decreases k
  {
    hide Holds, Taken;
    if j < k {
      PathKeeps(ms, steps, j, k - 1);
      StepKeeps(ms[k - 1], steps[k - 1], ms[k]);
    }
  }

  lemma RunKeeps(ms: seq<Machine>, steps: seq<Section>, k: nat)
    requires Run(ms, steps) && k < |ms|
    ensures Holds(ms[k])
  {
    hide Taken;
    PathKeeps(ms, steps, 0, k);
  }

  lemma TakenAt(ms: seq<Machine>, steps: seq<Section>, k: nat)
    requires Run(ms, steps) && k < |steps|
    ensures |ms| == |steps| + 1 && Taken(ms[k], steps[k], ms[k + 1]) && Holds(ms[k]) && Holds(ms[k + 1])
  {
    hide Taken, Holds;
    RunKeeps(ms, steps, k);
    RunKeeps(ms, steps, k + 1);
  }

  lemma KindOf(m: Machine, kind: Kind)
    requires Holds(m)
    ensures KindHolds(m, kind)
  {
    hide KindHolds;
  }

  // ----- originated at most once, if and only if -----

  /** Among the first k sections a guard let the packet through while an earlier emit of it was not yet marked. */
  ghost predicate AdmittedWhilePending(ms: seq<Machine>, steps: seq<Section>, k: nat, kind: Kind)
    requires k <= |steps| < |ms|
  {
    exists j :: 0 <= j < k && AdmitsAgain(ms[j], steps[j], kind)
  }

  predicate AdmitsAgain(m: Machine, s: Section, kind: Kind) {
    s.Guard? && s.kind == kind && Admits(m.t, kind) && ToMark(kind) in m.work
  }

  lemma {:induction false} AdmissionsCount(ms: seq<Machine>, steps: seq<Section>, k: nat, kind: Kind)
    requires Run(ms, steps) && k < |ms|
    ensures AdmittedWhilePending(ms, steps, k, kind) <==> ms[k].admitted[kind] >= 2
  {
    if k > 0 {
      hide Run, KindHolds, Holds, EmitGuard;
      AdmissionsCount(ms, steps, k - 1, kind);
      RunKeeps(ms, steps, k - 1);
      AdmissionStep(ms[k - 1], steps[k - 1], ms[k], kind);
      assert AdmittedWhilePending(ms, steps, k, kind) <==>
        AdmittedWhilePending(ms, steps, k - 1, kind) || AdmitsAgain(ms[k - 1], steps[k - 1], kind);
    }
  }

  lemma AdmissionStep(m: Machine, s: Section, m': Machine, kind: Kind)
    requires Holds(m) && Taken(m, s, m')
    ensures m'.admitted[kind] >= 2 <==> m.admitted[kind] >= 2 || AdmitsAgain(m, s, kind)
  {
    hide EmitGuard, Times, Worked, Silent;
    assert KindHolds(m, kind);
  }

  /** Over every run of lock sections: each packet is originated at most once unless a guard let it through
      while it was pending; when nothing is tracked and nothing pending, if and only if. */
  lemma OriginatedOnceIff(ms: seq<Machine>, steps: seq<Section>, k: nat, kind: Kind)
    requires Run(ms, steps) && k < |ms|
    ensures !AdmittedWhilePending(ms, steps, k, kind) ==> Times(ms[k].t.originated, kind) <= 1
    ensures !ms[k].t.reliable && ToMark(kind) !in ms[k].work && ToSend(kind) !in ms[k].work ==>
      (Times(ms[k].t.originated, kind) <= 1 <==> !AdmittedWhilePending(ms, steps, k, kind))
  {
    hide Run, Times, AdmittedWhilePending;
    RunKeeps(ms, steps, k);
    AdmissionsCount(ms, steps, k, kind);
    assert KindHolds(ms[k], kind);
  }

  /** A continuation without another guard of the kind after which it was originated more than once. */
  ghost predicate Repeats(m: Machine, kind: Kind, ms: seq<Machine>, steps: seq<Section>) {
    && Path(ms, steps) && ms[0] == m
    && (forall k :: 0 <= k < |steps| ==> !(steps[k].Guard? && steps[k].kind == kind))
    && Times(ms[|steps|].t.originated, kind) >= 2
  }

  ghost predicate CanRepeat(m: Machine, kind: Kind) {
    exists ms, steps :: Repeats(m, kind, ms, steps)
  }

  /** Over every run, reliable or not: after a guard that lets the packet through, what is pending can originate
      it a second time if and only if an earlier emit of it was not yet marked. */
  lemma SecondOriginationIff(ms: seq<Machine>, steps: seq<Section>, k: nat, kind: Kind)
    requires Run(ms, steps) && k < |steps| && steps[k].Guard? && steps[k].kind == kind && Admits(ms[k].t, kind)
    ensures CanRepeat(ms[k + 1], kind) <==> ToMark(kind) in ms[k].work
  {
    hide Run, Holds, Times, EmitGuard, CanRepeat;
    TakenAt(ms, steps, k);
    var m, m' := ms[k], ms[k + 1];
    KindOf(m, kind);
    KindOf(m', kind);
    GuardCondition(m.t, kind, steps[k].now, steps[k].settings);
    GuardEffect(m.t, kind, steps[k].now, steps[k].settings);
    if ToMark(kind) in m.work {
      TwicePendingRepeats(m', kind);
    } else {
      OncePendingNeverRepeats(m', kind);
    }
  }

  lemma TwicePendingRepeats(m: Machine, kind: Kind)
    requires KindHolds(m, kind) && !Of(m.t, kind).sent && m.t.waitingAckFor == Some(kind) && m.work[ToMark(kind)] >= 2
    ensures CanRepeat(m, kind)
  {
    hide Taken, KindHolds;
    Untracked(m, kind);
    var m2, first := MarkAndSend(m, kind);
    var m3 := m2.(t := Accepted(m2.t, kind, 0), work := m2.work + multiset{ToAck(kind)});
    assert Taken(m2, Accept(kind, 0), m3) by { AcceptIsASection(m2, kind, 0); }
    var m5, second := MarkAndSend(m3, kind);
    LogGrows(m.t.originated, kind, kind);
    LogGrows(m3.t.originated, kind, kind);
    var ms := [m, first, m2, m3, second, m5];
    var steps := [Work(ToMark(kind), 0), Work(ToSend(kind), 0), Accept(kind, 0), Work(ToMark(kind), 0),
                  Work(ToSend(kind), 0)];
    assert Path(ms, steps);
    assert Repeats(m, kind, ms, steps);
  }

  lemma Untracked(m: Machine, kind: Kind)
    requires KindHolds(m, kind) && !Of(m.t, kind).sent
    ensures Terminal(kind) !in m.t.controlSndBuf
  {
    hide Times;
  }

  lemma AcceptIsASection(m: Machine, kind: Kind, now: int)
    requires Accepts(m.t, kind)
    ensures Taken(m, Accept(kind, now), m.(t := Accepted(m.t, kind, now), work := m.work + multiset{ToAck(kind)}))
  {
  }

  /** Two sections of a pending emit of a packet that is not tracked: they originate it. */
  lemma MarkAndSend(m: Machine, kind: Kind) returns (m2: Machine, m1: Machine)
    requires m.work[ToMark(kind)] > 0 && Terminal(kind) !in m.t.controlSndBuf
    ensures Taken(m, Work(ToMark(kind), 0), m1) && Taken(m1, Work(ToSend(kind), 0), m2)
    ensures m2.t.originated == m.t.originated + [kind] && m2.t.waitingAckFor == m.t.waitingAckFor
    ensures m2.work[ToMark(kind)] == m.work[ToMark(kind)] - 1
  {
    hide Marked, SendTerminal;
    MarkEffect(m.t, kind);
    m1 := m.(t := Marked(m.t, kind), work := m.work - multiset{ToMark(kind)} + multiset{ToSend(kind)});
    SendEffect(m1.t, kind);
    m2 := m1.(t := SendTerminal(m1.t, kind), work := m1.work - multiset{ToSend(kind)});
    assert m1.work - multiset{ToSend(kind)} + multiset{} == m2.work;
  }

  lemma OncePendingNeverRepeats(m: Machine, kind: Kind)
    requires Holds(m) && m.admitted[kind] <= 1
    ensures !CanRepeat(m, kind)
  {
    hide Holds, Taken, Times;
    if CanRepeat(m, kind) {
      var ms, steps :| Repeats(m, kind, ms, steps);
      PathKeeps(ms, steps, 0, |steps|);
      AdmissionsStay(ms, steps, |steps|, kind);
      assert KindHolds(ms[|steps|], kind) by { KindOf(ms[|steps|], kind); }
      assert false;
    }
  }

  lemma {:induction false} AdmissionsStay(ms: seq<Machine>, steps: seq<Section>, k: nat, kind: Kind)
    requires Path(ms, steps) && k < |ms|
    requires forall j :: 0 <= j < |steps| ==> !(steps[j].Guard? && steps[j].kind == kind)
    ensures ms[k].admitted[kind] == ms[0].admitted[kind]
  {
    if k > 0 {
      hide EmitGuard, Silent, Worked, Admits;
      AdmissionsStay(ms, steps, k - 1, kind);
      assert Taken(ms[k - 1], steps[k - 1], ms[k]);
    }
  }

  // ----- what lets a pending packet through again -----

  /** Another packet's guard takes the awaited place, or an acknowledgment of the packet itself clears it. */
  predicate Displaces(m: Machine, s: Section, kind: Kind) {
    (s.Guard? && s.kind != kind && Admits(m.t, s.kind)) || (s.Work? && s.token == ToClear(kind))
  }

  lemma AwaitedStep(m: Machine, s: Section, m': Machine, kind: Kind)
    requires Taken(m, s, m') && m.t.waitingAckFor == Some(kind) && !m.t.closed && !Displaces(m, s, kind)
    ensures m'.t.waitingAckFor == Some(kind) || m'.t.closed
  {
    hide EmitGuard, Marked, SendTerminal, Acknowledged;
    match s
    case Guard(other, now, c) => AwaitedGuard(m.t, other, now, c);
    case Accept(_, _) =>
    case Work(ToMark(other), _) => MarkEffect(m.t, other);
    case Work(ToSend(other), _) => SendEffect(m.t, other);
    case Work(ToAck(other), now) => AcknowledgedEffect(m.t, other, now);
    case Work(ToClear(other), _) =>
    case Other =>
  }

  lemma AwaitedGuard(t: T, other: Kind, now: int, c: Settings)
    ensures EmitGuard(t, other, now, c).0.waitingAckFor == if Admits(t, other) then Some(other) else t.waitingAckFor
  {
    hide EmitGuard;
    GuardCondition(t, other, now, c);
    if Admits(t, other) { GuardEffect(t, other, now, c); } else { RefusalEffect(t, other, now, c); }
  }

  lemma {:induction false} AwaitedStays(ms: seq<Machine>, steps: seq<Section>, i: nat, j: nat, kind: Kind)
    requires Path(ms, steps) && i < j < |ms| && Holds(ms[i])
    requires steps[i].Guard? && steps[i].kind == kind && Admits(ms[i].t, kind)
    requires forall l :: i < l < j ==> !Displaces(ms[l], steps[l], kind)
    ensures ms[j].t.waitingAckFor == Some(kind) || ms[j].t.closed
    decreases j
  {
    hide Holds, EmitGuard, Displaces, Admits, Worked, Silent;
    assert Taken(ms[j - 1], steps[j - 1], ms[j]);
    if j == i + 1 {
      AwaitedGuard(ms[i].t, kind, steps[i].now, steps[i].settings);
    } else {
      AwaitedStays(ms, steps, i, j - 1, kind);
      PathKeeps(ms, steps, i, j - 1);
      if ms[j - 1].t.closed {
        StepKeeps(ms[j - 1], steps[j - 1], ms[j]);
      } else {
        AwaitedStep(ms[j - 1], steps[j - 1], ms[j], kind);
      }
    }
  }

  /** Over every run: between two guards that let the same packet through, another packet's guard went through
      or an acknowledgment of the packet cleared the awaited place. */
  lemma ReadmittedOnlyAfter(ms: seq<Machine>, steps: seq<Section>, i: nat, j: nat, kind: Kind)
    requires Run(ms, steps) && i < j < |steps|
    requires steps[i].Guard? && steps[i].kind == kind && Admits(ms[i].t, kind)
    requires steps[j].Guard? && steps[j].kind == kind && Admits(ms[j].t, kind)
    ensures exists l :: i < l < j && Displaces(ms[l], steps[l], kind)
  {
    hide Holds, Taken, Displaces;
    RunKeeps(ms, steps, i);
    if forall l :: i < l < j ==> !Displaces(ms[l], steps[l], kind) {
      AwaitedStays(ms, steps, i, j, kind);
    }
  }

  // ----- acknowledged implies sent, if and only if -----

  predicate AcksUnsent(m: Machine, s: Section, kind: Kind) {
    s.Work? && s.token == ToAck(kind) && !Of(m.t, kind).sent
  }

  lemma MarkedEnds(t: T, other: Kind, kind: Kind)
    ensures Of(t, kind).sent ==> Of(Marked(t, other), kind).sent
    ensures Of(Marked(t, other), kind).acked == Of(t, kind).acked
  {
    hide Marked, Of;
    MarkEffect(t, other);
  }

  lemma AcknowledgedEnds(t: T, other: Kind, now: int, kind: Kind)
    ensures Of(Acknowledged(t, other, now), kind) == Of(t, kind).(acked := Of(t, kind).acked || other == kind)
  {
    hide Acknowledged, Of;
    AcknowledgedEffect(t, other, now);
  }

  lemma ClearedEnds(t: T, other: Kind, kind: Kind)
    ensures Of(ClearedWaiting(t, other), kind) == Of(t, kind)
  {
    if t.waitingAckFor == Some(other) {} else {}
  }

  lemma WorkedEnds(t: T, token: Token, now: int, kind: Kind)
    ensures Of(t, kind).sent ==> Of(Worked(t, token, now), kind).sent
    ensures Of(Worked(t, token, now), kind).acked == (Of(t, kind).acked || token == ToAck(kind))
    ensures !token.ToMark? ==> Of(Worked(t, token, now), kind).sent == Of(t, kind).sent
  {
    hide Marked, SendTerminal, Acknowledged, ClearedWaiting, Of;
    match token
    case ToMark(other) => MarkedEnds(t, other, kind);
    case ToSend(other) => SendEffect(t, other);
    case ToAck(other) => AcknowledgedEnds(t, other, now, kind);
    case ToClear(other) => ClearedEnds(t, other, kind);
  }

  lemma GuardEnds(t: T, other: Kind, now: int, c: Settings, kind: Kind)
    ensures Of(EmitGuard(t, other, now, c).0, kind) == Of(t, kind)
  {
    hide EmitGuard;
    if EmitGuard(t, other, now, c).1 { GuardEffect(t, other, now, c); } else { RefusalEffect(t, other, now, c); }
  }

  lemma AckStep(m: Machine, s: Section, m': Machine, kind: Kind)
    requires Taken(m, s, m')
    ensures Of(m.t, kind).sent ==> Of(m'.t, kind).sent
    ensures Of(m'.t, kind).acked == (Of(m.t, kind).acked || (s.Work? && s.token == ToAck(kind)))
    ensures AcksUnsent(m, s, kind) ==> !Of(m'.t, kind).sent
  {
    hide EmitGuard, Worked;
    match s
    case Guard(other, now, c) => GuardEnds(m.t, other, now, c, kind);
    case Accept(_, _) =>
    case Work(token, now) => WorkedEnds(m.t, token, now, kind);
    case Other =>
  }

  /** Over every run of lock sections: acknowledged implies sent at every point if and only if no acknowledgment
      is noted while the packet is not yet marked. */
  lemma {:induction false} AcknowledgedIsSentIff(ms: seq<Machine>, steps: seq<Section>, k: nat, kind: Kind)
    requires Run(ms, steps) && k < |ms|
    ensures (forall j :: 0 <= j <= k ==> Of(ms[j].t, kind).acked ==> Of(ms[j].t, kind).sent) <==>
      (forall j :: 0 <= j < k ==> !AcksUnsent(ms[j], steps[j], kind))
  {
    hide Taken, AcksUnsent;
    if k > 0 {
      AcknowledgedIsSentIff(ms, steps, k - 1, kind);
      AckStep(ms[k - 1], steps[k - 1], ms[k], kind);
      assert AcksUnsent(ms[k - 1], steps[k - 1], kind) <==>
        steps[k - 1].Work? && steps[k - 1].token == ToAck(kind) && !Of(ms[k - 1].t, kind).sent
      by { UnsentAck(ms[k - 1], steps[k - 1], kind); }
    }
  }

  lemma UnsentAck(m: Machine, s: Section, kind: Kind)
    ensures AcksUnsent(m, s, kind) <==> s.Work? && s.token == ToAck(kind) && !Of(m.t, kind).sent
  {
  }

  /** An acknowledgment is taken for a packet not yet marked only while its emit is pending and awaited; what
      follows can note it before the mark if and only if the packet was not marked when it was taken. */
  lemma EarlyAcknowledgmentIff(ms: seq<Machine>, steps: seq<Section>, k: nat, kind: Kind)
    requires Run(ms, steps) && k < |steps| && steps[k].Accept? && steps[k].kind == kind
    ensures !Of(ms[k].t, kind).sent ==> ms[k].t.waitingAckFor == Some(kind) && ToMark(kind) in ms[k].work
    ensures !Of(ms[k].t, kind).sent <==> CanNoteUnsent(ms[k + 1], kind)
  {
    hide Run, Holds, Times, CanNoteUnsent;
    TakenAt(ms, steps, k);
    KindOf(ms[k], kind);
    if !Of(ms[k].t, kind).sent {
      UnsentIsNoted(ms[k + 1], kind);
    } else {
      SentIsNeverUnsent(ms[k + 1], kind);
    }
  }

  ghost predicate CanNoteUnsent(m: Machine, kind: Kind) {
    exists ms, steps :: NotedUnsent(m, kind, ms, steps)
  }

  lemma UnsentIsNoted(m: Machine, kind: Kind)
    requires ToAck(kind) in m.work && !Of(m.t, kind).sent
    ensures CanNoteUnsent(m, kind)
  {
    hide Acknowledged;
    var noted := m.(t := Acknowledged(m.t, kind, 0), work := m.work - multiset{ToAck(kind)} + Next(ToAck(kind)));
    AcknowledgedEffect(m.t, kind, 0);
    assert NotedUnsent(m, kind, [m, noted], [Work(ToAck(kind), 0)]);
  }

  ghost predicate NotedUnsent(m: Machine, kind: Kind, ms: seq<Machine>, steps: seq<Section>) {
    Path(ms, steps) && ms[0] == m && Of(ms[|steps|].t, kind).acked && !Of(ms[|steps|].t, kind).sent
  }

  lemma SentIsNeverUnsent(m: Machine, kind: Kind)
    requires Holds(m) && Of(m.t, kind).sent
    ensures !CanNoteUnsent(m, kind)
  {
    hide Holds, Taken;
    forall ms, steps ensures !NotedUnsent(m, kind, ms, steps) {
      if Path(ms, steps) && ms[0] == m { PathKeeps(ms, steps, 0, |steps|); }
    }
  }

  // ----- nothing is originated after a reset, if and only if -----

  ghost predicate Originates(m: Machine, ms: seq<Machine>, steps: seq<Section>) {
    Path(ms, steps) && ms[0] == m && ms[|steps|].t.originated != m.t.originated
  }

  ghost predicate CanOriginate(m: Machine) {
    exists ms, steps :: Originates(m, ms, steps)
  }

  /** Over every run: once a reset was sent or received, some packet can still be originated if and only if an
      emit that a guard let through is still to be marked or sent. */
  lemma OriginatedAfterResetIff(ms: seq<Machine>, steps: seq<Section>, k: nat)
    requires Run(ms, steps) && k < |ms| && Resetting(ms[k].t)
    ensures CanOriginate(ms[k]) <==> exists kind :: ToMark(kind) in ms[k].work || ToSend(kind) in ms[k].work
  {
    hide CanOriginate, Run;
    var m := ms[k];
    if kind :| ToSend(kind) in m.work {
      SendOriginates(m, kind);
    } else if kind :| ToMark(kind) in m.work {
      MarkOriginates(m, kind);
    } else {
      assert NothingPending(m) by {
        forall token | token in m.work ensures token.ToAck? || token.ToClear? {
          assert token != ToMark(token.kind) && token != ToSend(token.kind);
        }
      }
      NothingPendingStays(m);
    }
  }

  lemma SendOriginates(m: Machine, kind: Kind)
    requires ToSend(kind) in m.work
    ensures CanOriginate(m)
  {
    hide Taken, SendTerminal;
    if m.t.reliable && Terminal(kind) in m.t.controlSndBuf {
      var taken := m.(t := Accepted(m.t, kind, 0), work := m.work + multiset{ToAck(kind)});
      AcceptIsASection(m, kind, 0);
      var sent := SendIsASection(taken, kind);
      assert Originates(m, [m, taken, sent], [Accept(kind, 0), Work(ToSend(kind), 0)]);
    } else {
      var sent := SendIsASection(m, kind);
      assert Originates(m, [m, sent], [Work(ToSend(kind), 0)]);
    }
  }

  lemma SendIsASection(m: Machine, kind: Kind) returns (sent: Machine)
    requires ToSend(kind) in m.work && !(m.t.reliable && Terminal(kind) in m.t.controlSndBuf)
    ensures Taken(m, Work(ToSend(kind), 0), sent) && sent.t.originated == m.t.originated + [kind]
  {
    hide SendTerminal;
    SendEffect(m.t, kind);
    sent := m.(t := SendTerminal(m.t, kind), work := m.work - multiset{ToSend(kind)} + Next(ToSend(kind)));
  }

  lemma MarkOriginates(m: Machine, kind: Kind)
    requires ToMark(kind) in m.work
    ensures CanOriginate(m)
  {
    hide Marked, SendTerminal, CanOriginate;
    MarkEffect(m.t, kind);
    var marked := m.(t := Marked(m.t, kind), work := m.work - multiset{ToMark(kind)} + Next(ToMark(kind)));
    assert Taken(m, Work(ToMark(kind), 0), marked);
    SendOriginates(marked, kind);
    OriginatesEarlier(m, Work(ToMark(kind), 0), marked);
  }

  lemma OriginatesEarlier(m: Machine, s: Section, m': Machine)
    requires Taken(m, s, m') && m'.t.originated == m.t.originated && CanOriginate(m')
    ensures CanOriginate(m)
  {
    hide Taken;
    var ms, steps :| Originates(m', ms, steps);
    assert Originates(m, [m] + ms, [s] + steps);
  }

  predicate NothingToSend(work: multiset<Token>) {
    forall token :: token in work ==> token.ToAck? || token.ToClear?
  }

  predicate NothingPending(m: Machine) {
    Resetting(m.t) && NothingToSend(m.work)
  }

  lemma TokenStep(work: multiset<Token>, token: Token)
    requires NothingToSend(work) && token in work
    ensures token.ToAck? || token.ToClear?
    ensures NothingToSend(work - multiset{token} + Next(token))
  {
  }

  /** What an acknowledgment's later section leaves alone. */
  lemma AckTokenEffect(t: T, token: Token, now: int)
    requires token.ToAck? || token.ToClear?
    ensures Worked(t, token, now).originated == t.originated && (Resetting(t) ==> Resetting(Worked(t, token, now)))
  {
    hide Acknowledged;
    match token
    case ToAck(kind) =>
      AcknowledgedEffect(t, kind, now);
      assert Of(t, Rst) == t.rst && Of(Worked(t, token, now), Rst) == Worked(t, token, now).rst;
    case ToClear(kind) => if t.waitingAckFor == Some(kind) {} else {}
  }

  lemma RefusedGuard(t: T, kind: Kind, now: int, c: Settings)
    requires Resetting(t)
    ensures EmitGuard(t, kind, now, c).0.originated == t.originated && Resetting(EmitGuard(t, kind, now, c).0)
  {
    hide EmitGuard;
    GuardCondition(t, kind, now, c);
    RefusalEffect(t, kind, now, c);
  }

  lemma SilentResets(t: T, t': T)
    requires Silent(t, t') && Resetting(t)
    ensures Resetting(t') && t'.originated == t.originated
  {
  }

  lemma PendingStep(m: Machine, s: Section, m': Machine)
    requires NothingPending(m) && Taken(m, s, m')
    ensures NothingPending(m') && m'.t.originated == m.t.originated
  {
    hide EmitGuard, Worked, Silent, Next;
    match s
    case Guard(other, now, c) => RefusedGuard(m.t, other, now, c);
    case Accept(other, now) => assert Accepted(m.t, other, now).rst == m.t.rst;
    case Work(token, now) => TokenStep(m.work, token); AckTokenEffect(m.t, token, now);
    case Other => SilentResets(m.t, m'.t);
  }

  lemma {:induction false} PendingPath(ms: seq<Machine>, steps: seq<Section>, k: nat)
    requires Path(ms, steps) && k < |ms| && NothingPending(ms[0])
    ensures NothingPending(ms[k]) && ms[k].t.originated == ms[0].t.originated
  {
    if k > 0 {
      hide Taken, NothingPending;
      PendingPath(ms, steps, k - 1);
      PendingStep(ms[k - 1], steps[k - 1], ms[k]);
    }
  }

  lemma NothingPendingStays(m: Machine)
    requires NothingPending(m)
    ensures !CanOriginate(m)
  {
    hide NothingPending, Taken;
    forall ms, steps ensures !Originates(m, ms, steps) {
      if Path(ms, steps) && ms[0] == m { PendingPath(ms, steps, |steps|); }
    }
  }

  // ----- what holds at every granularity -----

  /** Over every run of lock sections the close callback fires at most once, and no flag reverts. */
  lemma SectionSafety(ms: seq<Machine>, steps: seq<Section>, j: nat, k: nat)
    requires Run(ms, steps) && j <= k < |ms|
    ensures ms[k].t.callbacks == (if ms[k].t.closed then 1 else 0)
    ensures Forward(ms[j].t, ms[k].t)
  {
    hide Taken, Forward;
    RunKeeps(ms, steps, j);
    PathKeeps(ms, steps, j, k);
  }

  // ----- runs that fail -----

  lemma WorkIsASection(m: Machine, token: Token, now: int)
    requires token in m.work
    ensures Taken(m, Work(token, now), AfterWork(m, token, now))
  {
    hide Worked, Next;
  }

  function AfterWork(m: Machine, token: Token, now: int): Machine {
    m.(t := Worked(m.t, token, now), work := m.work - multiset{token} + Next(token))
  }

  function AfterAccept(m: Machine, kind: Kind, now: int): Machine {
    m.(t := Accepted(m.t, kind, now), work := m.work + multiset{ToAck(kind)})
  }

  /** A state of a client that tracks nothing, as far as the witnesses below look at it. */
  predicate Plainly(t: T, sent: bool, awaited: Option<Kind>, originated: seq<Kind>) {
    && !t.closed && !t.isVirtual && !t.reliable && !Resetting(t) && !t.closeWrite.sent
    && t.closeRead.sent == sent && t.waitingAckFor == awaited && t.originated == originated
  }

  lemma GuardAdmits(m: Machine, kind: Kind, now: int, c: Settings, originated: seq<Kind>)
    requires Plainly(m.t, false, m.t.waitingAckFor, originated) && m.t.waitingAckFor != Some(kind) && !kind.Rst?
    ensures Admits(m.t, kind) && Taken(m, Guard(kind, now, c), Guarded(m, kind, now, c))
    ensures var m' := Guarded(m, kind, now, c);
      && Plainly(m'.t, false, Some(kind), originated) && m'.work == m.work + multiset{ToMark(kind)}
      && m'.t.closeRead == m.t.closeRead && m'.t.rst == m.t.rst
  {
    hide EmitGuard;
    GuardCondition(m.t, kind, now, c);
    GuardEffect(m.t, kind, now, c);
    GuardIsASection(m, kind, now, c);
  }

  /** Marking and sending a pending packet that nothing tracks. */
  lemma FinishOriginates(m: Machine, kind: Kind, now: int)
    requires !m.t.reliable && ToMark(kind) in m.work
    ensures var m1 := AfterWork(m, ToMark(kind), now); var m2 := AfterWork(m1, ToSend(kind), now);
      && Taken(m, Work(ToMark(kind), now), m1) && Taken(m1, Work(ToSend(kind), now), m2)
      && m2.t.originated == m.t.originated + [kind] && !m2.t.reliable
      && (forall k :: m2.work[ToMark(k)] == m.work[ToMark(k)] - (if k == kind then 1 else 0))
  {
    hide Marked, SendTerminal;
    var m1 := AfterWork(m, ToMark(kind), now);
    MarkEffect(m.t, kind);
    SendEffect(m1.t, kind);
    WorkIsASection(m, ToMark(kind), now);
    WorkIsASection(m1, ToSend(kind), now);
  }

  lemma Started(now: int)
    ensures Plainly(Start(true, false, false, now).t, false, None, [])
  {
  }

  /** CLOSE_READ_ACK is taken between the guard and the mark of CLOSE_READ: the packet is acknowledged and not
      sent, its guard lets it through again, and it is originated twice. */
  lemma EarlyAckRepeats(now: int, c: Settings) returns (ms: seq<Machine>, steps: seq<Section>)
    ensures Run(ms, steps) && steps == [Guard(CloseRead, now, c), Accept(CloseRead, now), Work(ToAck(CloseRead), now),
      Work(ToClear(CloseRead), now), Guard(CloseRead, now, c), Work(ToMark(CloseRead), now), Work(ToSend(CloseRead), now),
      Work(ToMark(CloseRead), now), Work(ToSend(CloseRead), now)]
    ensures ms[3].t.closeRead.acked && !ms[3].t.closeRead.sent
    ensures Admits(ms[0].t, CloseRead) && Admits(ms[4].t, CloseRead)
    ensures ms[9].t.originated == [CloseRead, CloseRead]
  {
    hide Taken, Start, Guarded, AfterWork, AfterAccept, Plainly, Admits;
    var m0 := Start(true, false, false, now);
    Started(now);
    var m1 := Guarded(m0, CloseRead, now, c);
    assert m0.t.waitingAckFor == None && m0.work == multiset{} by { FreshMachine(now); }
    GuardAdmits(m0, CloseRead, now, c, []);
    var m2 := AfterAccept(m1, CloseRead, now);
    var m3 := AfterWork(m2, ToAck(CloseRead), now);
    var m4 := AfterWork(m3, ToClear(CloseRead), now);
    EarlyAck(m1, now);
    var m5 := Guarded(m4, CloseRead, now, c);
    GuardAdmits(m4, CloseRead, now, c, []);
    assert !m5.t.reliable && m5.t.originated == [] by { Untracking(m5.t, [], Some(CloseRead)); }
    var m6 := AfterWork(m5, ToMark(CloseRead), now);
    var m7 := AfterWork(m6, ToSend(CloseRead), now);
    FinishOriginates(m5, CloseRead, now);
    FinishOriginates(m7, CloseRead, now);
    var m8 := AfterWork(m7, ToMark(CloseRead), now);
    ms := [m0, m1, m2, m3, m4, m5, m6, m7, m8, AfterWork(m8, ToSend(CloseRead), now)];
    steps := [Guard(CloseRead, now, c), Accept(CloseRead, now), Work(ToAck(CloseRead), now),
              Work(ToClear(CloseRead), now), Guard(CloseRead, now, c), Work(ToMark(CloseRead), now),
              Work(ToSend(CloseRead), now), Work(ToMark(CloseRead), now), Work(ToSend(CloseRead), now)];
  }

  lemma FreshMachine(now: int)
    ensures var m := Start(true, false, false, now); m.t.waitingAckFor == None && m.work == multiset{}
  {
  }

  lemma Untracking(t: T, originated: seq<Kind>, awaited: Option<Kind>)
    requires Plainly(t, false, awaited, originated)
    ensures !t.reliable && t.originated == originated && t.waitingAckFor == awaited && !t.closeRead.sent && !t.isVirtual
  {
  }

  lemma EarlyAck(m: Machine, now: int)
    requires Plainly(m.t, false, Some(CloseRead), []) && m.work == multiset{ToMark(CloseRead)}
    ensures var m2 := AfterAccept(m, CloseRead, now); var m3 := AfterWork(m2, ToAck(CloseRead), now);
      var m4 := AfterWork(m3, ToClear(CloseRead), now);
      && Taken(m, Accept(CloseRead, now), m2) && Taken(m2, Work(ToAck(CloseRead), now), m3)
      && Taken(m3, Work(ToClear(CloseRead), now), m4)
      && m3.t.closeRead.acked && !m3.t.closeRead.sent
      && m4.t.waitingAckFor == None && Plainly(m4.t, false, None, []) && m4.work == multiset{ToMark(CloseRead)}
  {
    hide Taken, Acknowledged;
    var m2 := AfterAccept(m, CloseRead, now);
    AcceptIsASection(m, CloseRead, now);
    var m3 := AfterWork(m2, ToAck(CloseRead), now);
    WorkIsASection(m2, ToAck(CloseRead), now);
    AcknowledgedPlainly(m2.t, now);
    var m4 := AfterWork(m3, ToClear(CloseRead), now);
    WorkIsASection(m3, ToClear(CloseRead), now);
    assert m4.work == multiset{ToMark(CloseRead)};
  }

  lemma AcknowledgedPlainly(t: T, now: int)
    requires Plainly(t, false, Some(CloseRead), [])
    ensures var t' := Acknowledged(t, CloseRead, now);
      Plainly(t', false, Some(CloseRead), []) && t'.closeRead.acked && !t'.closeRead.sent
  {
  }

  /** Three emits interleaved between their lock sections: the guard of CLOSE_WRITE takes the awaited place, the
      guard of CLOSE_READ lets it through again, and CLOSE_READ is originated twice. */
  lemma InterleavedEmitsRepeat(now: int, c: Settings) returns (ms: seq<Machine>, steps: seq<Section>)
    ensures Run(ms, steps) && steps == [Guard(CloseRead, now, c), Guard(CloseWrite, now, c), Guard(CloseRead, now, c),
      Work(ToMark(CloseRead), now), Work(ToSend(CloseRead), now), Work(ToMark(CloseWrite), now),
      Work(ToSend(CloseWrite), now), Work(ToMark(CloseRead), now), Work(ToSend(CloseRead), now)]
    ensures Admits(ms[0].t, CloseRead) && Admits(ms[1].t, CloseWrite) && Admits(ms[2].t, CloseRead)
    ensures ms[9].t.originated == [CloseRead, CloseWrite, CloseRead]
  {
    hide Taken, Start, Guarded, AfterWork, Plainly, Admits;
    var m0 := Start(true, false, false, now);
    Started(now);
    FreshMachine(now);
    var m1 := Guarded(m0, CloseRead, now, c);
    GuardAdmits(m0, CloseRead, now, c, []);
    Untracking(m1.t, [], Some(CloseRead));
    var m2 := Guarded(m1, CloseWrite, now, c);
    GuardAdmits(m1, CloseWrite, now, c, []);
    Untracking(m2.t, [], Some(CloseWrite));
    var m3 := Guarded(m2, CloseRead, now, c);
    GuardAdmits(m2, CloseRead, now, c, []);
    Untracking(m3.t, [], Some(CloseRead));
    var m4 := AfterWork(m3, ToMark(CloseRead), now);
    var m5 := AfterWork(m4, ToSend(CloseRead), now);
    FinishOriginates(m3, CloseRead, now);
    var m6 := AfterWork(m5, ToMark(CloseWrite), now);
    var m7 := AfterWork(m6, ToSend(CloseWrite), now);
    FinishOriginates(m5, CloseWrite, now);
    var m8 := AfterWork(m7, ToMark(CloseRead), now);
    FinishOriginates(m7, CloseRead, now);
    ms := [m0, m1, m2, m3, m4, m5, m6, m7, m8, AfterWork(m8, ToSend(CloseRead), now)];
    steps := [Guard(CloseRead, now, c), Guard(CloseWrite, now, c), Guard(CloseRead, now, c),
              Work(ToMark(CloseRead), now), Work(ToSend(CloseRead), now), Work(ToMark(CloseWrite), now),
              Work(ToSend(CloseWrite), now), Work(ToMark(CloseRead), now), Work(ToSend(CloseRead), now)];
  }

  /** A peer's reset arrives between the guard and the mark of CLOSE_READ: CLOSE_READ is originated after it. */
  lemma EmitOutlivesReset(now: int, c: Settings) returns (ms: seq<Machine>, steps: seq<Section>)
    ensures Run(ms, steps)
    ensures steps == [Guard(CloseRead, now, c), Other, Work(ToMark(CloseRead), now), Work(ToSend(CloseRead), now)]
    ensures ms[2].t == MarkRstReceived(ms[1].t) && Resetting(ms[2].t) && ms[2].t.originated == []
    ensures ms[4].t.originated == [CloseRead]
  {
    hide Taken, Start, Guarded, AfterWork, Plainly, Admits, MarkRstReceived;
    var m0 := Start(true, false, false, now);
    Started(now);
    FreshMachine(now);
    var m1 := Guarded(m0, CloseRead, now, c);
    GuardAdmits(m0, CloseRead, now, c, []);
    Untracking(m1.t, [], Some(CloseRead));
    var m2 := m1.(t := MarkRstReceived(m1.t));
    ResetArrives(m1);
    var m3 := AfterWork(m2, ToMark(CloseRead), now);
    FinishOriginates(m2, CloseRead, now);
    ms := [m0, m1, m2, m3, AfterWork(m3, ToSend(CloseRead), now)];
    steps := [Guard(CloseRead, now, c), Other, Work(ToMark(CloseRead), now), Work(ToSend(CloseRead), now)];
  }

  lemma ResetArrives(m: Machine)
    requires !m.t.isVirtual
    ensures var m' := m.(t := MarkRstReceived(m.t));
      && Taken(m, Other, m') && Resetting(m'.t) && m'.t.originated == m.t.originated && m'.t.reliable == m.t.reliable
  {
    hide Silent;
    PeerRstIsSilent(m.t);
  }
}
