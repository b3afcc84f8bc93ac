/** Every whole call is a path of lock sections. */
module ArqCalls {
  // ArqTerminal takes a call as one step, ArqSections a lock section. Here every call of the first machine is
  // shown to be a path of the second, so that every run of whole calls is a run of sections that nothing
  // interrupts.

  import opened Words
  import opened ArqTerminal
  import opened ArqSections

  ghost predicate LeadsBy(m: Machine, t: T, ms: seq<Machine>, steps: seq<Section>) {
    Path(ms, steps) && ms[0] == m && ms[|steps|].t == t && ms[|steps|].work == m.work
  }

  /** Some path leads from m to the state t, and leaves the pending work as it was. */
  ghost predicate Leads(m: Machine, t: T) {
    exists ms, steps :: LeadsBy(m, t, ms, steps)
  }

  /** Whatever else is pending, some path leads from state a to state b. */
  ghost predicate Reaches(a: T, b: T) {
    forall work, admitted :: Leads(Machine(a, work, admitted), b)
  }

  lemma Joined(m: Machine, b: T, c: T)
    requires Leads(m, b) && Reaches(b, c)
    ensures Leads(m, c)
  {
    hide Taken, Leads;
    var ms, steps := SomePath(m, b);
    var m' := ms[|steps|];
    assert m' == Machine(b, m'.work, m'.admitted);
    var more, tail := SomePath(m', c);
    PathsJoin(ms, steps, more, tail);
    LeadsWith(m, c, ms[..|steps|] + more, steps + tail);
  }

  lemma SomePath(m: Machine, t: T) returns (ms: seq<Machine>, steps: seq<Section>)
    requires Leads(m, t)
    ensures LeadsBy(m, t, ms, steps)
  {
    hide LeadsBy;
    ms, steps :| LeadsBy(m, t, ms, steps);
  }

  lemma LeadsWith(m: Machine, t: T, ms: seq<Machine>, steps: seq<Section>)
    requires LeadsBy(m, t, ms, steps)
    ensures Leads(m, t)
  {
    hide LeadsBy;
  }

  lemma PathsJoin(ms: seq<Machine>, steps: seq<Section>, more: seq<Machine>, tail: seq<Section>)
    requires Path(ms, steps) && Path(more, tail) && ms[|steps|] == more[0]
    ensures Path(ms[..|steps|] + more, steps + tail)
  {
    hide Taken;
    var all, both := ms[..|steps|] + more, steps + tail;
    forall k | 0 <= k < |both|
      ensures Taken(all[k], both[k], all[k + 1])
    {
      if k < |steps| {
        assert Taken(ms[k], steps[k], ms[k + 1]);
        assert all[k] == ms[k] && all[k + 1] == ms[k + 1] && both[k] == steps[k];
      } else {
        var j := k - |steps|;
        assert Taken(more[j], tail[j], more[j + 1]);
        assert all[k] == more[j] && all[k + 1] == more[j + 1] && both[k] == tail[j];
      }
    }
  }

  lemma Chains(a: T, b: T, c: T)
    requires Reaches(a, b) && Reaches(b, c)
    ensures Reaches(a, c)
  {
    hide Leads;
    forall work, admitted ensures Leads(Machine(a, work, admitted), c) {
      Joined(Machine(a, work, admitted), b, c);
    }
  }

  lemma Stays(t: T)
    ensures Reaches(t, t)
  {
    hide Taken;
    forall work, admitted ensures Leads(Machine(t, work, admitted), t) {
      LeadsWith(Machine(t, work, admitted), t, [Machine(t, work, admitted)], []);
    }
  }

  lemma SilentReaches(a: T, b: T)
    requires Silent(a, b)
    ensures Reaches(a, b)
  {
    hide Silent;
    forall work, admitted ensures Leads(Machine(a, work, admitted), b) {
      LeadsWith(Machine(a, work, admitted), b, [Machine(a, work, admitted), Machine(b, work, admitted)], [Other]);
    }
  }

  lemma EmitReaches(t: T, kind: Kind, now: int, c: Settings)
    ensures Reaches(t, Emit(t, kind, now, c))
  {
    hide Taken, Emit, Leads;
    forall work, admitted ensures Leads(Machine(t, work, admitted), Emit(t, kind, now, c)) {
      var ms, steps := EmitIsAPath(Machine(t, work, admitted), kind, now, c);
      LeadsWith(Machine(t, work, admitted), Emit(t, kind, now, c), ms, steps);
    }
  }

  /** The state once an acknowledgment was taken, noted and, except for a reset, cleared. */
  function Noted(t: T, kind: Kind, now: int): T {
    var noted := Acknowledged(Accepted(t, kind, now), kind, now);
    if kind.Rst? then noted else ClearedWaiting(noted, kind)
  }

  lemma NotedReaches(t: T, kind: Kind, now: int)
    requires Accepts(t, kind)
    ensures Reaches(t, Noted(t, kind, now))
  {
    hide Leads, Noted;
    forall work, admitted ensures Leads(Machine(t, work, admitted), Noted(t, kind, now)) {
      NotedLeads(Machine(t, work, admitted), kind, now);
    }
  }

  lemma TakenBack(work: multiset<Token>, token: Token)
    ensures work + multiset{token} - multiset{token} == work && work + multiset{} == work
    ensures token in work + multiset{token}
  {
  }

  lemma AckWork(work: multiset<Token>, kind: Kind)
    ensures work + multiset{ToAck(kind)} - multiset{ToAck(kind)} + Next(ToAck(kind))
         == if kind.Rst? then work else work + multiset{ToClear(kind)}
    ensures work + multiset{ToClear(kind)} - multiset{ToClear(kind)} + Next(ToClear(kind)) == work
    ensures ToAck(kind) in work + multiset{ToAck(kind)} && ToClear(kind) in work + multiset{ToClear(kind)}
  {
    TakenBack(work, ToAck(kind));
    TakenBack(work, ToClear(kind));
    if kind.Rst? {} else {}
  }

  /** The sections of an acknowledgment that is taken, up to noting it. */
  lemma AckSections(m: Machine, kind: Kind, now: int)
    requires Accepts(m.t, kind)
    ensures var m1 := AfterAccept(m, kind, now); var m2 := AfterWork(m1, ToAck(kind), now);
      && Taken(m, Accept(kind, now), m1) && Taken(m1, Work(ToAck(kind), now), m2)
      && m2.t == Acknowledged(Accepted(m.t, kind, now), kind, now)
      && m2.work == if kind.Rst? then m.work else m.work + multiset{ToClear(kind)}
  {
    hide Taken, Next, Acknowledged, Accepted, Accepts;
    AckWork(m.work, kind);
    AcceptIsASection(m, kind, now);
    WorkIsASection(AfterAccept(m, kind, now), ToAck(kind), now);
  }

  lemma ClearSection(m: Machine, work: multiset<Token>, kind: Kind, now: int)
    requires m.work == work + multiset{ToClear(kind)}
    ensures var m' := AfterWork(m, ToClear(kind), now);
      Taken(m, Work(ToClear(kind), now), m') && m'.t == ClearedWaiting(m.t, kind) && m'.work == work
  {
    hide Taken, Next, ClearedWaiting;
    AckWork(work, kind);
    WorkIsASection(m, ToClear(kind), now);
  }

  lemma TwoSections(m: Machine, m1: Machine, m2: Machine, a: Section, b: Section)
    requires Taken(m, a, m1) && Taken(m1, b, m2) && m2.work == m.work
    ensures Leads(m, m2.t)
  {
    hide Taken, Leads;
    LeadsWith(m, m2.t, [m, m1, m2], [a, b]);
  }

  lemma ThreeSections(m: Machine, m1: Machine, m2: Machine, m3: Machine, a: Section, b: Section, c: Section)
    requires Taken(m, a, m1) && Taken(m1, b, m2) && Taken(m2, c, m3) && m3.work == m.work
    ensures Leads(m, m3.t)
  {
    hide Taken, Leads;
    LeadsWith(m, m3.t, [m, m1, m2, m3], [a, b, c]);
  }

  lemma NotedLeads(m: Machine, kind: Kind, now: int)
    requires Accepts(m.t, kind)
    ensures Leads(m, Noted(m.t, kind, now))
  {
    hide Taken, Leads, Acknowledged, ClearedWaiting, Accepted, Accepts, AfterAccept, AfterWork;
    AckSections(m, kind, now);
    var m1 := AfterAccept(m, kind, now);
    var m2 := AfterWork(m1, ToAck(kind), now);
    if kind.Rst? {
      TwoSections(m, m1, m2, Accept(kind, now), Work(ToAck(kind), now));
    } else {
      ClearSection(m2, m.work, kind, now);
      ThreeSections(m, m1, m2, AfterWork(m2, ToClear(kind), now), Accept(kind, now), Work(ToAck(kind), now),
                    Work(ToClear(kind), now));
    }
  }

  // ----- call by call -----

  lemma FinalizersReach(t: T)
    ensures Reaches(t, FinalizeClose(t)) && Reaches(t, TryFinalizeRemoteEOF(t)) && Reaches(t, TryFinalizePeerResetDrain(t))
  {
    hide Reaches, Silent, FinalizeClose, TryFinalizeRemoteEOF, TryFinalizePeerResetDrain;
    FinalizersAreSilent(t);
    SilentReaches(t, FinalizeClose(t));
    SilentReaches(t, TryFinalizeRemoteEOF(t));
    SilentReaches(t, TryFinalizePeerResetDrain(t));
  }

  lemma UndeferredReaches(t: T)
    ensures Reaches(t, Undeferred(t)) && Reaches(t, Undeferred(t).(state := Reset))
    ensures Reaches(t, t.(isVirtual := false)) && Reaches(t, t)
  {
    hide Reaches, Silent, Undeferred;
    UndeferringIsSilent(t);
    SilentReaches(t, Undeferred(t));
    SilentReaches(t, Undeferred(t).(state := Reset));
    SilentReaches(t, t.(isVirtual := false));
    Stays(t);
  }

  lemma CloseNowReaches(t: T, kind: Kind, now: int, c: Settings)
    ensures Reaches(t, CloseNow(t, kind, now, c))
  {
    hide Reaches, Emit, Undeferred, AlreadyResetting;
    var t1 := Undeferred(t).(state := Reset);
    UndeferredReaches(t);
    EmitReaches(t, kind, now, c);
    EmitReaches(t1, Rst, now, c);
    Chains(t, t1, Emit(t1, Rst, now, c));
  }

  lemma SettleReaches(t: T, now: int, c: Settings)
    ensures Reaches(t, SettleTerminalDrain(t, now, c))
  {
    hide Reaches, CloseNow, Undeferred;
    var t1 := Undeferred(t);
    UndeferredReaches(t);
    forall kind ensures Reaches(t, CloseNow(t1, kind, now, c)) {
      CloseNowReaches(t1, kind, now, c);
      Chains(t, t1, CloseNow(t1, kind, now, c));
    }
  }

  lemma DeferReaches(t: T, kind: Kind, now: int, c: Settings)
    ensures Reaches(t, DeferTerminalPacket(t, kind, now, c))
  {
    hide Reaches, SettleTerminalDrain, Silent;
    var deadline := now + c.drain;
    var state := if t.state.Reset? || t.state.Closed? then t.state else Draining;
    var later := if t.deferredDeadline.None? || deadline > t.deferredDeadline.value then Some(deadline)
                 else t.deferredDeadline;
    var t1 := t.(state := state, stopLocalRead := true, deferredPacket := Some(kind), deferredDeadline := later);
    Stays(t);
    DeferringIsSilent(t, kind, later, state);
    SilentReaches(t, t1);
    SettleReaches(t1, now, c);
    Chains(t, t1, SettleTerminalDrain(t1, now, c));
  }

  lemma CloseAfterDrainReaches(t: T, kind: Kind, now: int, c: Settings)
    ensures Reaches(t, CloseAfterDrain(t, kind, now, c))
  {
    hide Reaches, DeferTerminalPacket, Emit, Undeferred, AlreadyResetting;
    var t1 := Undeferred(t).(state := Reset);
    UndeferredReaches(t);
    DeferReaches(t, kind, now, c);
    EmitReaches(t, kind, now, c);
    DeferReaches(t1, Rst, now, c);
    EmitReaches(t1, Rst, now, c);
    Chains(t, t1, DeferTerminalPacket(t1, Rst, now, c));
    Chains(t, t1, Emit(t1, Rst, now, c));
  }

  lemma MaybeCloseReadReaches(t: T, now: int, c: Settings)
    ensures Reaches(t, MaybeCloseReadAfterWriterBreak(t, now, c))
  {
    hide Reaches, CloseNow, CloseAfterDrain;
    Stays(t);
    CloseNowReaches(t, CloseRead, now, c);
    CloseAfterDrainReaches(t, CloseRead, now, c);
  }

  /** What follows once an acknowledgment was noted. */
  lemma AckedReaches(t: T, kind: Kind, now: int, c: Settings)
    requires Accepts(t, kind)
    ensures Reaches(t, TerminalAcked(Accepted(t, kind, now), kind, now, c))
  {
    hide Reaches, Accepts, Accepted, TryFinalizeRemoteEOF, MaybeCloseReadAfterWriterBreak, FinalizeClose,
      ClearedWaiting,
      MarkCloseReadAcked, MarkCloseWriteAcked, MarkRstAcked;
    var noted := Noted(t, kind, now);
    NotedReaches(t, kind, now);
    match kind
    case CloseRead =>
      FinalizersReach(noted);
      Chains(t, noted, TryFinalizeRemoteEOF(noted));
    case CloseWrite =>
      var begun := MaybeCloseReadAfterWriterBreak(noted, now, c);
      MaybeCloseReadReaches(noted, now, c);
      FinalizersReach(begun);
      Chains(t, noted, begun);
      Chains(t, begun, TryFinalizeRemoteEOF(begun));
    case Rst =>
      FinalizersReach(noted);
      Chains(t, noted, FinalizeClose(noted));
  }

  lemma ControlAckReaches(t: T, item: Tracked, now: int, c: Settings)
    ensures Reaches(t, ReceiveControlAck(t, item, now, c))
  {
    hide Reaches, TerminalAcked, FinalizeClose, Silent;
    var t1 := t.(lastActivity := now);
    var t2 := t1.(controlSndBuf := t1.controlSndBuf - {item});
    ControlSectionsAreSilent(t, item, now);
    SilentReaches(t, t1);
    if item.Terminal? {
      if Accepts(t, item.kind) { AckedReaches(t, item.kind, now, c); }
    } else {
      ControlSectionsAreSilent(t1, item, now);
      SilentReaches(t1, t2);
      Chains(t, t1, t2);
      FinalizersReach(t2);
      Chains(t, t2, FinalizeClose(t2));
    }
  }

  lemma ExpiredReaches(t: T, item: Tracked, now: int, c: Settings)
    ensures Reaches(t, TrackedExpired(t, item, now, c))
  {
    hide Reaches, FinalizeClose, CloseNow, Silent;
    var t1 := t.(controlSndBuf := t.controlSndBuf - {item});
    Stays(t);
    ControlSectionsAreSilent(t, item, now);
    SilentReaches(t, t1);
    FinalizersReach(t1);
    CloseNowReaches(t1, Rst, now, c);
    Chains(t, t1, FinalizeClose(t1));
    Chains(t, t1, CloseNow(t1, Rst, now, c));
  }

  lemma TickReaches(t: T, stalled: bool, now: int, c: Settings)
    ensures Reaches(t, RetransmitTick(t, stalled, now, c))
  {
    hide Reaches, FinalizeClose, CloseNow, SettleTerminalDrain, TryFinalizePeerResetDrain, CloseWriteGraceElapsed,
      Silent;
    Stays(t);
    ControlSectionsAreSilent(t, Plain(0), now);
    SilentReaches(t, t.(lastActivity := now));
    SettleReaches(t, now, c);
    CloseNowReaches(t, Rst, now, c);
    CloseNowReaches(t, CloseWrite, now, c);
    FinalizersReach(t);
  }

  lemma PeerClosesReach(t: T, now: int, c: Settings)
    ensures Reaches(t, MarkCloseReadReceived(t)) && Reaches(t, MarkCloseWriteReceived(t, now, c))
    ensures Reaches(t, MarkRstReceived(t))
  {
    hide Reaches, TryFinalizeRemoteEOF, SettleTerminalDrain, MarkRstReceived, Silent;
    var r := t.(closeRead := t.closeRead.(received := true),
      state := if t.closeRead.sent then ClosingDown else HalfClosedRemote);
    var w := t.(closeWrite := t.closeWrite.(received := true), stopLocalRead := true, sndBuf := {});
    var w1 := SettleTerminalDrain(w, now, c);
    Stays(t);
    PeerCloseReadIsSilent(t);
    SilentReaches(t, r);
    FinalizersReach(r);
    Chains(t, r, TryFinalizeRemoteEOF(r));
    PeerCloseWriteIsSilent(t);
    SilentReaches(t, w);
    SettleReaches(w, now, c);
    FinalizersReach(w1);
    Chains(t, w, w1);
    Chains(t, w1, TryFinalizeRemoteEOF(w1));
    PeerRstIsSilent(t);
    SilentReaches(t, MarkRstReceived(t));
  }

  lemma DataAckedReaches(t: T, sn: uint16, now: int, c: Settings)
    ensures Reaches(t, DataAcked(t, sn, now, c))
  {
    hide Reaches, TryFinalizeRemoteEOF, SettleTerminalDrain, Silent;
    var a := t.(lastActivity := now, sndBuf := t.sndBuf - {sn});
    var a1 := if a.closeRead.received then TryFinalizeRemoteEOF(a) else a;
    DataSectionsAreSilent(t, sn, false, now);
    SilentReaches(t, a);
    Stays(a);
    FinalizersReach(a);
    SettleReaches(a1, now, c);
    Chains(t, a, a1);
    Chains(t, a1, SettleTerminalDrain(a1, now, c));
  }

  lemma DataInReaches(t: T, sn: uint16, buffered: bool, now: int, c: Settings)
    ensures Reaches(t, DataArrived(t, now, c)) && Reaches(t, DataProcessed(t, sn, buffered, now, c))
  {
    hide Reaches, CloseNow, NeedsCloseWrite, Dequeued, Stored, Silent;
    var p := Dequeued(t);
    Stays(t);
    DataSectionsAreSilent(t, sn, buffered, now);
    SilentReaches(t, t.(pendingInbound := t.pendingInbound + 1));
    SilentReaches(t, p);
    CloseNowReaches(t, CloseWrite, now, c);
    CloseNowReaches(p, CloseWrite, now, c);
    Chains(t, p, CloseNow(p, CloseWrite, now, c));
    DataSectionsAreSilent(p, sn, buffered, now);
    SilentReaches(p, Stored(p, sn, buffered, now));
    Chains(t, p, Stored(p, sn, buffered, now));
  }

  lemma FinalizedReaches(t: T)
    ensures Reaches(t, TryFinalizeRemoteEOF(TryFinalizePeerResetDrain(t)))
  {
    hide Reaches, TryFinalizeRemoteEOF, TryFinalizePeerResetDrain;
    var d := TryFinalizePeerResetDrain(t);
    FinalizersReach(t);
    FinalizersReach(d);
    Chains(t, d, TryFinalizeRemoteEOF(d));
  }

  lemma WriterReaches(t: T, count: nat, now: int, c: Settings)
    ensures Reaches(t, WriterIdle(t)) && Reaches(t, WriterDone(t)) && Reaches(t, WriterTook(t, count))
    ensures Reaches(t, WriterFailed(t, now, c))
  {
    hide Reaches, TryFinalizeRemoteEOF, TryFinalizePeerResetDrain, HalfCloseLocalWriter, WriterTook, CloseNow, Silent;
    var i, d := MaybeHalfClosed(t), t.(localWritePending := false);
    var f := t.(localWriterBroken := true, localWritePending := false, rcvBuf := {});
    WriterSectionsAreSilent(t, count, now);
    Stays(t);
    SilentReaches(t, HalfCloseLocalWriter(t));
    SilentReaches(t, d);
    SilentReaches(t, f);
    SilentReaches(t, WriterTook(t, count));
    FinalizedReaches(i);
    Chains(t, i, WriterIdle(t));
    FinalizedReaches(d);
    Chains(t, d, WriterDone(t));
    CloseNowReaches(f, CloseWrite, now, c);
    Chains(t, f, WriterFailed(t, now, c));
  }

  lemma EndsReach(t: T, now: int, c: Settings)
    ensures Reaches(t, CloseAfterDrain(NotedEOF(t, now), CloseRead, now, c))
    ensures Reaches(t, FinalizeClose(t.(isVirtual := false)))
  {
    hide Reaches, CloseAfterDrain, FinalizeClose, NotedEOF, Silent;
    var e, v := NotedEOF(t, now), t.(isVirtual := false);
    WriterSectionsAreSilent(t, 0, now);
    SilentReaches(t, e);
    CloseAfterDrainReaches(e, CloseRead, now, c);
    Chains(t, e, CloseAfterDrain(e, CloseRead, now, c));
    UndeferredReaches(t);
    FinalizersReach(v);
    Chains(t, v, FinalizeClose(v));
  }

  lemma BuffersReach(t: T, sn: uint16, item: Tracked, now: int)
    requires !item.Terminal?
    ensures Reaches(t, t.(lastActivity := now, sndBuf := t.sndBuf + {sn})) && Reaches(t, t)
    ensures Reaches(t, t.(controlSndBuf := t.controlSndBuf + {item}))
  {
    hide Reaches, Silent;
    DataSectionsAreSilent(t, sn, false, now);
    SilentReaches(t, t.(lastActivity := now, sndBuf := t.sndBuf + {sn}));
    ControlSectionsAreSilent(t, item, now);
    SilentReaches(t, t.(controlSndBuf := t.controlSndBuf + {item}));
    Stays(t);
  }

  /** Every call, acknowledgment calls included, is a path of lock sections, whatever else is pending. */
  lemma DoIsAPath(t: T, call: Call, now: int, c: Settings)
    ensures Reaches(t, Do(t, call, now, c))
  {
    hide Reaches, CloseAfterDrain, CloseNow, DataAcked, DataArrived, DataProcessed, WriterIdle, WriterDone, NotedEOF,
      WriterFailed, WriterTook, MarkCloseReadReceived, MarkCloseWriteReceived, MarkRstReceived, ReceiveControlAck,
      TrackedExpired, RetransmitTick, SettleTerminalDrain, FinalizeClose;
    match call
    case ReadAppend(sn) => BuffersReach(t, sn, Plain(0), now);
    case ReadEOF => EndsReach(t, now, c);
    case ReadFailed(_) => CloseAfterDrainReaches(t, Rst, now, c); CloseNowReaches(t, Rst, now, c);
    case AckData(sn) => DataAckedReaches(t, sn, now, c);
    case ArriveData => DataInReaches(t, 0, false, now, c);
    case ProcessData(sn, buffered) => DataInReaches(t, sn, buffered, now, c);
    case IdleWriter => WriterReaches(t, 0, now, c);
    case TakeRun(count) => WriterReaches(t, count, now, c);
    case DoneWriting => WriterReaches(t, 0, now, c);
    case FailWriting => WriterReaches(t, 0, now, c);
    case PeerCloseRead => PeerClosesReach(t, now, c);
    case PeerCloseWrite => PeerClosesReach(t, now, c);
    case PeerRst => PeerClosesReach(t, now, c);
    case Track(item) => BuffersReach(t, 0, if item.Terminal? then Plain(0) else item, now);
    case ControlAck(item) => ControlAckReaches(t, item, now, c);
    case ControlExpired(item) => ExpiredReaches(t, item, now, c);
    case DataExpired => CloseNowReaches(t, Rst, now, c);
    case Tick(stalled) => TickReaches(t, stalled, now, c);
    case Drained => SettleReaches(t, now, c);
    case CloseStream(kind, _) => CloseAfterDrainReaches(t, kind, now, c); CloseNowReaches(t, kind, now, c);
    case Force => EndsReach(t, now, c);
  }

  lemma {:induction false} CallsReach(t: T, calls: seq<(Call, int)>, c: Settings)
    ensures Reaches(t, After(t, calls, c))
    decreases |calls|
  {
    hide Reaches, Do;
    if calls == [] {
      Stays(t);
    } else {
      var last, before := calls[|calls| - 1], After(t, calls[..|calls| - 1], c);
      CallsReach(t, calls[..|calls| - 1], c);
      DoIsAPath(before, last.0, last.1, c);
      Chains(t, before, Do(before, last.0, last.1, c));
    }
  }

  /** Every run of whole calls is a run of lock sections that ends in the same state with nothing pending. */
  lemma WholeCallsAreARun(isClient: bool, isVirtual: bool, reliable: bool, start: int, calls: seq<(Call, int)>,
                          c: Settings)
    returns (ms: seq<Machine>, steps: seq<Section>)
    ensures Run(ms, steps) && ms[0] == Start(isClient, isVirtual, reliable, start)
    ensures ms[|steps|].t == After(New(isClient, isVirtual, reliable, start), calls, c)
    ensures ms[|steps|].work == multiset{}
  {
    hide Taken, After, New, Leads;
    var t := New(isClient, isVirtual, reliable, start);
    CallsReach(t, calls, c);
    var m := Machine(t, multiset{}, multiset{});
    assert Leads(m, After(t, calls, c));
    ms, steps := SomePath(m, After(t, calls, c));
    assert ms[0] == Start(isClient, isVirtual, reliable, start);
  }
}
