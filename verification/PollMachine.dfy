/** The driver between one hw_init and the next hw_reset, at the granularity of single loop
    turns, descriptor writes and register accesses: rtl8101_poll and rtl8101_interrupt are cut
    into micro-steps, and the NIC may act between any two of them. */
module PollMachine {
  import opened Common
  import opened Counters
  import opened NicWalk
  import R = RxRing
  import T = TxRing

  /** Bits of IntrStatus and IntrMask, by number. */
  const RX_OK: nat := 0
  const TX_OK: nat := 2
  const EN_MASK: set<nat> := {0, 2, 4, 8}
  const ALL_BITS: set<nat> := {0, 1, 2, 3, 4, 5, 6, 7, 8, 9, 10, 11, 12, 13, 14, 15}

  /** Where rtl8101_poll is. `work` is the number of frames handled so far. */
  datatype PollPc =
    | Idle
    | Draining(left: nat, work: nat, budget: nat)
    | Filling(turns: nat, work: nat, budget: nat)
    | Reaping(left: nat, work: nat, budget: nat)
    | Completing   // before napi_complete
    | Unmasking    // after it, before the mask is written

  /** Where rtl8101_interrupt is. */
  datatype IrqPc = Rest | Mine | Masked | ReadBack(st: set<nat>) | Acked

  /** `wait`: frames the NIC has written and the driver has not looked at; `stale`: how many of
      them are older than the last acknowledgement of IntrStatus; `total`: the receive statistics,
      and the frames gone up the stack, as they ought to be once all frames the NIC has written are
      handled. */
  datatype RxSide = RxSide(ring: R.Rx, nic: nat, wait: seq<R.Frame>, stale: nat, total: R.Up)

  /** `done`: the completed skbs not yet reaped. */
  datatype TxSide = TxSide(ring: T.Tx, nic: nat, done: nat)

  /** The NIC latches a status bit some time after it hands back the descriptor; until then
      `rxDue` or `txDue` is set. */
  datatype Ctl = Ctl(status: set<nat>, rxDue: bool, txDue: bool, mask: bool, sched: bool,
                     pc: PollPc, irq: IrqPc)

  datatype Sys = Sys(rx: RxSide, tx: TxSide, ctl: Ctl)

  datatype Step =
    // the NIC
    | NicReceive(frame: R.Frame) | NicSend | LatchRx | LatchTx | LatchOther(bits: set<nat>)
    // start_xmit
    | Xmit(skb: T.Skb, addr: nat)
    // rtl8101_interrupt: read status, mask, read status, write it back, schedule
    | IrqEnter | IrqMask | IrqRead | IrqAck | IrqSchedule
    // rtl8101_poll
    | PollEnter(budget: nat) | DrainTurn | DrainEnd
    | FillSkip | FillGrant(g: R.Grant) | FillEnd
    | ReapTurn | ReapEnd | NapiComplete | Unmask

  predicate WellFormed(s: Sys) {
    R.Wf(s.rx.ring) && s.rx.nic < N && T.Wf(s.tx.ring) && s.tx.nic < N
  }

  predicate AtOwned(s: Sys)
    requires WellFormed(s)
  {
    s.rx.ring.desc[Slot(s.rx.ring.cur, 0)].own
  }

  predicate TxAtOwned(s: Sys)
    requires WellFormed(s)
  {
    s.tx.ring.desc[Slot(s.tx.ring.dirty, 0)].own
  }

  function FillSlot(s: Sys): (i: nat)
    requires s.ctl.pc.Filling?
    ensures i < N
  {
    Slot(s.rx.ring.dirty, s.ctl.pc.turns)
  }

  /** When a step can happen. A fill turn needs a grant at an empty slot; `FillEnd` there is a
      failed allocation. start_xmit and the reap loop exclude each other by the driver's lock.
      The handler is entered only while interrupts are unmasked. */
  predicate Enabled(s: Sys, e: Step)
    requires WellFormed(s)
  {
    var c := s.ctl;
    match e
    case NicReceive(f) => s.rx.ring.desc[s.rx.nic].own
    case NicSend => s.tx.ring.desc[s.tx.nic].own
    case LatchRx => c.rxDue
    case LatchTx => c.txDue
    case LatchOther(bits) => true
    case Xmit(skb, addr) => !c.pc.Reaping? && T.Avail(s.tx.ring) >= 1 && skb.len > 0
    case IrqEnter => c.irq.Rest? && c.mask && c.status * EN_MASK != {} && c.status != ALL_BITS
    case IrqMask => c.irq.Mine?
    case IrqRead => c.irq.Masked?
    case IrqAck => c.irq.ReadBack?
    case IrqSchedule => c.irq.Acked?
    case PollEnter(budget) => c.pc.Idle? && c.sched
    case DrainTurn => c.pc.Draining? && c.pc.left > 0 && !AtOwned(s)
    case DrainEnd => c.pc.Draining? && (c.pc.left == 0 || AtOwned(s))
    case FillSkip => c.pc.Filling? && c.pc.turns < R.Gap(s.rx.ring) && s.rx.ring.skb[FillSlot(s)].Some?
    case FillGrant(g) => c.pc.Filling? && c.pc.turns < R.Gap(s.rx.ring) && s.rx.ring.skb[FillSlot(s)].None?
                         && R.FreshGrant(s.rx.ring, g)
    case FillEnd => c.pc.Filling? && (c.pc.turns == R.Gap(s.rx.ring) || s.rx.ring.skb[FillSlot(s)].None?)
    case ReapTurn => c.pc.Reaping? && c.pc.left > 0 && !TxAtOwned(s)
    case ReapEnd => c.pc.Reaping? && (c.pc.left == 0 || TxAtOwned(s))
    case NapiComplete => c.pc.Completing?
    case Unmask => c.pc.Unmasking?
  }

  function Received(x: RxSide, f: R.Frame): RxSide
    requires R.Wf(x.ring) && x.nic < N
  {
    x.(ring := R.NicWrite(x.ring, x.nic, f), nic := Advance(x.nic, x.ring.desc[x.nic].eor),
       wait := x.wait + [f], total := Counted(x.total, f))
  }

  function Drained(x: RxSide): RxSide
    requires R.Wf(x.ring)
  {
    x.(ring := R.DrainOne(x.ring), wait := if x.wait == [] then [] else x.wait[1..],
       stale := if x.stale == 0 then 0 else x.stale - 1)
  }

  function RxNext(s: Sys, e: Step): RxSide
    requires WellFormed(s) && Enabled(s, e)
  {
    var x := s.rx;
    match e
    case NicReceive(f) => Received(x, f)
    case IrqAck => x.(stale := |x.wait|)
    case DrainTurn => Drained(x)
    case FillGrant(g) => x.(ring := R.Refill(x.ring, FillSlot(s), g))
    case FillEnd => x.(ring := x.ring.(dirty := Add(x.ring.dirty, s.ctl.pc.turns)))
    case _ => x
  }

  function TxNext(s: Sys, e: Step): TxSide
    requires WellFormed(s) && Enabled(s, e)
  {
    var x := s.tx;
    match e
    case NicSend =>
      x.(ring := T.Complete(x.ring, x.nic), nic := Advance(x.nic, x.ring.desc[x.nic].eor), done := x.done + 1)
    case Xmit(skb, addr) => x.(ring := T.Post(x.ring, skb, addr))
    case ReapTurn => x.(ring := T.ReapOne(x.ring), done := if x.done == 0 then 0 else x.done - 1)
    case _ => x
  }

  function PcNext(s: Sys, e: Step): PollPc
    requires WellFormed(s) && Enabled(s, e)
  {
    var p := s.ctl.pc;
    match e
    case PollEnter(budget) =>
      var r := s.rx.ring;
      Draining(Min((N + r.dirty - r.cur) % U32, budget), 0, budget)
    case DrainTurn => Draining(p.left - 1, p.work + 1, p.budget)
    case DrainEnd => Filling(0, p.work, p.budget)
    case FillSkip => Filling(p.turns + 1, p.work, p.budget)
    case FillGrant(g) => Filling(p.turns + 1, p.work, p.budget)
    case FillEnd => Reaping(T.Count(s.tx.ring), p.work, p.budget)
    case ReapTurn => Reaping(p.left - 1, p.work, p.budget)
    case ReapEnd => if p.work < p.budget then Completing else Idle
    case NapiComplete => Unmasking
    case Unmask => Idle
    case _ => p
  }

  function CtlNext(s: Sys, e: Step): Ctl
    requires WellFormed(s) && Enabled(s, e)
  {
    var c := s.ctl.(pc := PcNext(s, e));
    match e
    case NicReceive(f) => if f.res then c else c.(rxDue := true)
    case NicSend => c.(txDue := true)
    case LatchRx => c.(status := c.status + {RX_OK}, rxDue := false)
    case LatchTx => c.(status := c.status + {TX_OK}, txDue := false)
    case LatchOther(bits) => c.(status := c.status + bits)
    case IrqEnter => c.(irq := Mine)
    case IrqMask => c.(mask := false, irq := Masked)
    case IrqRead => c.(irq := ReadBack(c.status))
    case IrqAck => c.(status := c.status - c.irq.st, irq := Acked)
    case IrqSchedule => c.(sched := true, irq := Rest)
    case NapiComplete => c.(sched := false)
    case Unmask => c.(mask := true)
    case _ => c
  }

  function Next(s: Sys, e: Step): Sys
    requires WellFormed(s) && Enabled(s, e)
  {
    Sys(RxNext(s, e), TxNext(s, e), CtlNext(s, e))
  }

  // ---- the invariant ----

  ghost predicate RxSound(x: RxSide) {
    && Aligned(x.ring, x.nic, x.wait)
    && R.Window(x.ring)
    && x.stale <= |x.wait|
    && x.total == Tally(x.ring.up, x.wait)
  }

  ghost predicate AnyGood(fs: seq<R.Frame>, from: nat) {
    exists k :: from <= k < |fs| && !fs[k].res
  }

  /** What the poll loop knows where it stands. In particular, once it has drained and means to
      complete, nothing acknowledged is left unseen. */
  ghost predicate PcSound(s: Sys)
    requires R.Wf(s.rx.ring)
  {
    var r, p, stale := s.rx.ring, s.ctl.pc, s.rx.stale;
    match p
    case Draining(left, work, budget) =>
      work + left <= budget && left <= N - R.Gap(r) && (stale <= left || work + left == budget)
    case Filling(turns, work, budget) =>
      && turns <= R.Gap(r) && work <= budget && (stale == 0 || work == budget)
      && (forall j :: 0 <= j < turns ==> r.skb[Slot(r.dirty, j)].Some?)
    case Reaping(left, work, budget) =>
      R.Settled(r) && left == T.Count(s.tx.ring) && work <= budget && (stale == 0 || work == budget)
    case Completing => R.Settled(r) && stale == 0
    case Unmasking => R.Settled(r) && stale == 0
    case Idle => R.Settled(r) && (!s.ctl.sched && s.ctl.irq.Rest? ==> stale == 0)
  }

  /** Nobody is about to look at the rings. */
  predicate Quiet(c: Ctl) {
    c.pc.Completing? || c.pc.Unmasking? || (c.pc.Idle? && !c.sched && c.irq.Rest?)
  }

  /** Unmasked means nobody is at work; masked means somebody is. */
  predicate CtlSound(c: Ctl) {
    && (c.mask ==> c.pc.Idle? && !c.sched && (c.irq.Rest? || c.irq.Mine?))
    && (!c.irq.Rest? ==> c.pc.Idle? && !c.sched)
    && (c.irq.Rest? && c.pc.Idle? && !c.sched ==> c.mask)
    && (!c.sched ==> c.pc.Idle? || c.pc.Unmasking?)
    && (c.pc.Unmasking? ==> !c.sched)
  }

  /** What is new since the last acknowledgement is latched. */
  ghost predicate RxLatched(x: RxSide, c: Ctl) {
    AnyGood(x.wait, x.stale) ==> RX_OK in c.status || c.rxDue
  }

  predicate TxLatched(x: TxSide, c: Ctl) {
    x.done > 0 && Quiet(c) ==> TX_OK in c.status || c.txDue
  }

  ghost predicate Sound(s: Sys) {
    && RxSound(s.rx)
    && TxAligned(s.tx.ring, s.tx.nic, s.tx.done)
    && PcSound(s)
    && CtlSound(s.ctl)
    && RxLatched(s.rx, s.ctl)
    && TxLatched(s.tx, s.ctl)
  }

  // ---- each step keeps it ----

  lemma RxReceive(x: RxSide, f: R.Frame)
    requires RxSound(x) && x.ring.desc[x.nic].own
    ensures RxSound(Received(x, f))
  {
    WriteAligned(x.ring, x.nic, x.wait, f);
    assert R.Window(R.NicWrite(x.ring, x.nic, f)) by { R.NicWriteKeeps(x.ring, x.nic, f); }
    TallySnoc(x.ring.up, x.wait, f);
  }

  lemma DrainDeliversNext(x: RxSide)
    requires RxSound(x) && x.ring.skb[Slot(x.ring.cur, 0)].Some? && !x.ring.desc[Slot(x.ring.cur, 0)].own
    ensures x.wait != []
    ensures x.total == Tally(R.DrainOne(x.ring).up, x.wait[1..])
  {
    DrainDelivers(x.ring, x.nic, x.wait);
    TallyCons(x.ring.up, x.wait);
  }

  lemma RxDrain(x: RxSide)
    requires RxSound(x) && R.Gap(x.ring) < N && !x.ring.desc[Slot(x.ring.cur, 0)].own
    ensures x.wait != [] && RxSound(Drained(x))
    ensures R.Gap(Drained(x).ring) == R.Gap(x.ring) + 1
  {
    R.DrainOneKeeps(x.ring);
    DrainDeliversNext(x);
    DrainAligned(x.ring, x.nic, x.wait);
  }

  lemma RxStep(s: Sys, e: Step)
    requires Sound(s) && Enabled(s, e)
    ensures RxSound(RxNext(s, e))
  {
    var x := s.rx;
    match e
    case NicReceive(f) => RxReceive(x, f);
    case DrainTurn => RxDrain(x);
    case FillGrant(g) => RefillAligned(x.ring, x.nic, x.wait, FillSlot(s), g);
    case FillEnd =>
      AdvanceDirtyAligned(x.ring, x.nic, x.wait, Add(x.ring.dirty, s.ctl.pc.turns));
      R.AdvanceKeepsWindow(x.ring, s.ctl.pc.turns);
    case _ =>
  }

  lemma TxStep(s: Sys, e: Step)
    requires Sound(s) && Enabled(s, e)
    ensures TxAligned(TxNext(s, e).ring, TxNext(s, e).nic, TxNext(s, e).done)
  {
    var x := s.tx;
    match e
    case NicSend => CompleteAligned(x.ring, x.nic, x.done);
    case Xmit(skb, addr) =>
      T.AvailIsRoom(x.ring);
      PostAligned(x.ring, x.nic, x.done, skb, addr);
    case ReapTurn => ReapAligned(x.ring, x.nic, x.done);
    case _ =>
  }

  lemma PollEnterPc(s: Sys, budget: nat)
    requires Sound(s) && Enabled(s, PollEnter(budget))
    ensures PcSound(Next(s, PollEnter(budget)))
  {
    WaitingIsInWindow(s.rx.ring, s.rx.nic, s.rx.wait);
    RoomIsRest(s.rx.ring.cur, s.rx.ring.dirty);
    assert Next(s, PollEnter(budget)).ctl.pc == Draining(Min(N - R.Gap(s.rx.ring), budget), 0, budget);
  }

  lemma DrainEndPc(s: Sys)
    requires Sound(s) && Enabled(s, DrainEnd)
    ensures PcSound(Next(s, DrainEnd))
  {
    WaitingSlot(s.rx.ring, s.rx.nic, s.rx.wait, 0);
  }

  lemma FillEndPc(s: Sys)
    requires Sound(s) && Enabled(s, FillEnd)
    ensures PcSound(Next(s, FillEnd))
  {
    var r, k := s.rx.ring, s.ctl.pc.turns;
    R.AdvanceKeepsWindow(r, k);
    AddMovesWindow(r.dirty, k, 0);
  }

  lemma DrainTurnPc(s: Sys)
    requires Sound(s) && Enabled(s, DrainTurn)
    ensures PcSound(Next(s, DrainTurn))
  {
    RxDrain(s.rx);
  }

  lemma ReapTurnPc(s: Sys)
    requires Sound(s) && Enabled(s, ReapTurn)
    ensures PcSound(Next(s, ReapTurn))
  {
    ReapAligned(s.tx.ring, s.tx.nic, s.tx.done);
  }

  lemma NicReceivePc(s: Sys, f: R.Frame)
    requires Sound(s) && Enabled(s, NicReceive(f))
    ensures PcSound(Next(s, NicReceive(f)))
  {
    R.NicWriteKeeps(s.rx.ring, s.rx.nic, f);
  }

  predicate PcOnly(e: Step) {
    e.FillSkip? || e.FillGrant? || e.ReapEnd? || e.NapiComplete? || e.Unmask?
  }

  lemma PcOnlyPc(s: Sys, e: Step)
    requires Sound(s) && Enabled(s, e) && PcOnly(e)
    ensures PcSound(Next(s, e))
  {
  }

  predicate Elsewhere(e: Step) {
    || e.NicSend? || e.LatchRx? || e.LatchTx? || e.LatchOther? || e.Xmit?
    || e.IrqEnter? || e.IrqMask? || e.IrqRead? || e.IrqAck? || e.IrqSchedule?
  }

  lemma OtherPc(s: Sys, e: Step)
    requires Sound(s) && Enabled(s, e) && Elsewhere(e)
    ensures PcSound(Next(s, e))
  {
  }

  lemma PcStep(s: Sys, e: Step)
    requires Sound(s) && Enabled(s, e)
    ensures PcSound(Next(s, e))
  {
    match e
    case NicReceive(f) => NicReceivePc(s, f);
    case PollEnter(budget) => PollEnterPc(s, budget);
    case DrainTurn => DrainTurnPc(s);
    case DrainEnd => DrainEndPc(s);
    case FillEnd => FillEndPc(s);
    case ReapTurn => ReapTurnPc(s);
    case _ => if PcOnly(e) { PcOnlyPc(s, e); } else { OtherPc(s, e); }
  }

  lemma CtlStep(s: Sys, e: Step)
    requires WellFormed(s) && CtlSound(s.ctl) && Enabled(s, e)
    ensures CtlSound(CtlNext(s, e))
  {
  }

  lemma ReceiveLatched(x: RxSide, f: R.Frame)
    requires R.Wf(x.ring) && x.nic < N && AnyGood(Received(x, f).wait, x.stale) && f.res
    ensures AnyGood(x.wait, x.stale)
  {
    var k :| x.stale <= k < |x.wait + [f]| && !(x.wait + [f])[k].res;
    assert !x.wait[k].res;
  }

  lemma DrainLatched(x: RxSide)
    requires R.Wf(x.ring) && x.wait != [] && AnyGood(Drained(x).wait, Drained(x).stale)
    ensures AnyGood(x.wait, x.stale)
  {
    var k :| Drained(x).stale <= k < |x.wait[1..]| && !x.wait[1..][k].res;
    assert !x.wait[k + 1].res;
  }

  lemma RxLatchedStep(s: Sys, e: Step)
    requires Sound(s) && Enabled(s, e)
    ensures RxLatched(RxNext(s, e), CtlNext(s, e))
  {
    match e
    case NicReceive(f) =>
      if AnyGood(Received(s.rx, f).wait, s.rx.stale) && f.res { ReceiveLatched(s.rx, f); }
    case DrainTurn =>
      assert s.rx.wait != [] by { RxDrain(s.rx); }
      if AnyGood(Drained(s.rx).wait, Drained(s.rx).stale) { DrainLatched(s.rx); }
    case _ =>
  }

  lemma TxLatchedStep(s: Sys, e: Step)
    requires Sound(s) && Enabled(s, e)
    ensures TxLatched(TxNext(s, e), CtlNext(s, e))
  {
    if e.ReapEnd? {
      assert T.Count(s.tx.ring) > 0 ==> (TxAtOwned(s) <==> s.tx.done == 0);
    }
  }

  lemma StepKeepsSound(s: Sys, e: Step)
    requires Sound(s) && Enabled(s, e)
    ensures Sound(Next(s, e))
  {
    RxStep(s, e);
    TxStep(s, e);
    PcStep(s, e);
    CtlStep(s, e);
    RxLatchedStep(s, e);
    TxLatchedStep(s, e);
  }

  // ---- whole runs ----

  /** The control state hw_init leaves: status cleared, interrupts unmasked, nobody at work. */
  const QUIET: Ctl := Ctl({}, false, false, true, false, Idle, Rest)

  /** Just after hw_init, with driver and NIC in step: every Rx slot posted and no skb in the Tx
      ring, the NIC at slot 0 of both rings, and both indexes selecting slot 0. Frames may have
      been delivered before. */
  ghost predicate Start(s: Sys) {
    && R.Valid(s.rx.ring) && T.Valid(s.tx.ring)
    && s.rx.ring.cur == s.rx.ring.dirty && s.rx.ring.cur % N == 0
    && (forall i :: 0 <= i < N ==> s.rx.ring.desc[i].own)
    && s.rx.total == s.rx.ring.up
    && T.Count(s.tx.ring) == 0 == s.tx.ring.dirty % N
    && s.rx.nic == 0 && s.rx.wait == [] && s.rx.stale == 0
    && s.tx.nic == 0 && s.tx.done == 0
    && s.ctl == QUIET
  }

  /** s, and the states after each of the steps es, in order. */
  ghost predicate Run(s: Sys, es: seq<Step>, q: Sys) {
    if es == [] then q == s
    else
      var n := |es| - 1;
      exists p :: Run(s, es[..n], p) && WellFormed(p) && Enabled(p, es[n]) && q == Next(p, es[n])
  }

  lemma {:induction false} RunsStaySound(s: Sys, es: seq<Step>, q: Sys)
    requires Sound(s) && Run(s, es, q)
    ensures Sound(q)
  {
    if es == [] {
    } else {
      var n := |es| - 1;
      var p :| Run(s, es[..n], p) && WellFormed(p) && Enabled(p, es[n]) && q == Next(p, es[n]);
      RunsStaySound(s, es[..n], p);
      StepKeepsSound(p, es[n]);
    }
  }

  lemma StartIsSound(s: Sys)
    requires Start(s)
    ensures Sound(s)
  {
    var r := s.rx.ring;
    forall k | 0 <= k < N && r.skb[Slot(r.cur, k)].Some? ensures r.desc[Slot(r.cur, k)].own {
    }
  }

  /** A successful open ends in such a state. */
  lemma OpenIsStart(r: R.Rx, t: T.Tx, gs: seq<R.Grant>)
    requires r.bus.dma == map[] && r.bus.faults == 0 && R.FreshGrants(R.Blank(r), gs)
    requires R.FillTurns(R.Blank(r), 0, N, gs, 0) == N
    ensures Start(Sys(RxSide(R.Fill(R.Blank(r), 0, N, gs), 0, [], 0, r.up),
                      TxSide(T.FreshRing(t), 0, 0), QUIET))
  {
    R.FillBlankMapped(r, gs);
    R.FillPostsAll(r, N, gs);
    assert T.Valid(T.FreshRing(t));
  }

  /** The frames the NIC writes in a run. */
  function FramesOf(es: seq<Step>): seq<R.Frame> {
    if es == [] then []
    else
      var n := |es| - 1;
      FramesOf(es[..n]) + if es[n].NicReceive? then [es[n].frame] else []
  }

  lemma {:induction false} TotalIsTally(s: Sys, es: seq<Step>, q: Sys)
    requires Run(s, es, q)
    ensures q.rx.total == Tally(s.rx.total, FramesOf(es))
  {
    if es == [] {
    } else {
      var n := |es| - 1;
      var p :| Run(s, es[..n], p) && WellFormed(p) && Enabled(p, es[n]) && q == Next(p, es[n]);
      TotalIsTally(s, es[..n], p);
      if es[n].NicReceive? {
        TallySnoc(s.rx.total, FramesOf(es[..n]), es[n].frame);
      } else {
        assert FramesOf(es) == FramesOf(es[..n]);
      }
    }
  }

  /** Receive order and statistics: in every reachable state, what the stack has been given since the
      start, followed by the good frames still waiting, are the frames the NIC has written without
      error: same contents, same order, nothing lost, repeated or stale, through bad frames, failed
      allocations and counter wrap-around; and the statistics, once those waiting are counted in,
      are those of all frames written. The waiting frames are really there, in the slots from cur
      on (Aligned). */
  lemma ReceiveFifo(s: Sys, es: seq<Step>, q: Sys)
    requires Start(s) && Run(s, es, q)
    ensures Tally(q.rx.ring.up, q.rx.wait) == Tally(s.rx.ring.up, FramesOf(es))
    ensures q.rx.ring.up.delivered + Good(q.rx.wait) == s.rx.ring.up.delivered + Good(FramesOf(es))
    ensures Aligned(q.rx.ring, q.rx.nic, q.rx.wait) && q.rx.ring.bus.faults == 0
  {
    StartIsSound(s);
    RunsStaySound(s, es, q);
    TotalIsTally(s, es, q);
    TallyMeans(q.rx.ring.up, q.rx.wait);
    TallyMeans(s.rx.ring.up, FramesOf(es));
  }

  /** Ring-end agreement: the NIC, which follows RingEnd only, stands at the slot the driver
      computes modulo N, on both rings. In the Rx ring only the last slot carries RingEnd; in
      the Tx ring a slot the NIC owns carries it exactly if it is the last, although reaping
      zeroes it. */
  lemma RingEndAgreement(s: Sys, es: seq<Step>, q: Sys)
    requires Start(s) && Run(s, es, q)
    ensures q.rx.nic == Slot(q.rx.ring.cur, |q.rx.wait|)
    ensures q.tx.nic == Slot(q.tx.ring.dirty, q.tx.done)
    ensures |q.rx.ring.desc| == N == |q.tx.ring.desc|
    ensures forall i :: 0 <= i < N ==> q.rx.ring.desc[i].eor == (i == N - 1)
    ensures forall i :: 0 <= i < N && q.tx.ring.desc[i].own ==> q.tx.ring.desc[i].eor == (i == N - 1)
  {
    StartIsSound(s);
    RunsStaySound(s, es, q);
    forall i | 0 <= i < N ensures q.rx.ring.desc[i].eor == (i == N - 1) {
      assert R.SlotOk(q.rx.ring, i);
    }
    forall i | 0 <= i < N && q.tx.ring.desc[i].own ensures q.tx.ring.desc[i].eor == (i == N - 1) {
      var t := q.tx.ring;
      T.OwnedIsInFlight(t, i);
      WalkIsBijection(t.dirty, i, 0);
      assert T.Holds(t, Slot(t.dirty, Offset(t.dirty, i)));
    }
  }

  /** The handler writes back the status it has read, so a bit that is latched between its read and its
      write survives if and only if it was not set when the status was read. */
  lemma LateBitSurvivesIff(s: Sys, b: nat)
    requires WellFormed(s) && Enabled(s, IrqRead)
    ensures var late := Next(Next(s, IrqRead), LatchOther({b}));
            Enabled(late, IrqAck) && (b in Next(late, IrqAck).ctl.status <==> b !in s.ctl.status)
  {
  }

  /** Someone will come for what the status bit announces: poll is scheduled or under way; or the
      handler is, and will schedule it; or the NIC has yet to latch the bit and will find
      interrupts unmasked; or the bit is latched, and the handler can be entered now or after the
      pending unmask. With every status bit set the handler takes the device for unplugged and
      does nothing. */
  predicate Coming(s: Sys, bit: nat, due: bool)
    requires WellFormed(s)
  {
    var c := s.ctl;
    || c.sched
    || !c.irq.Rest?
    || (due && (c.mask || Enabled(s, Unmask)))
    || (bit in c.status && (Enabled(s, IrqEnter) || Enabled(s, Unmask) || c.status == ALL_BITS))
  }

  lemma SoundIsAttended(q: Sys)
    requires Sound(q)
    ensures WellFormed(q)
    ensures AnyGood(q.rx.wait, 0) ==> Coming(q, RX_OK, q.ctl.rxDue)
    ensures q.tx.done > 0 ==> Coming(q, TX_OK, q.ctl.txDue)
  {
    var c := q.ctl;
    assert RX_OK in c.status ==> RX_OK in c.status * EN_MASK;
    assert TX_OK in c.status ==> TX_OK in c.status * EN_MASK;
  }

  /** No lost interrupt: a good frame waiting, or a completed skb not reaped, always has someone
      coming for it. */
  lemma NoLostInterrupt(s: Sys, es: seq<Step>, q: Sys)
    requires Start(s) && Run(s, es, q)
    ensures WellFormed(q)
    ensures Aligned(q.rx.ring, q.rx.nic, q.rx.wait) && TxAligned(q.tx.ring, q.tx.nic, q.tx.done)
    ensures AnyGood(q.rx.wait, 0) ==> Coming(q, RX_OK, q.ctl.rxDue)
    ensures q.tx.done > 0 ==> Coming(q, TX_OK, q.ctl.txDue)
  {
    StartIsSound(s);
    RunsStaySound(s, es, q);
    SoundIsAttended(q);
  }
}
