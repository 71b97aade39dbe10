/** The two models of the driver agree: an uninterrupted poll, or an uninterrupted interrupt handler,
    of the micro-step machine does to rings and flags what the one-step call of WholeDevice does. */
module PollRun {
  import opened Common
  import opened Counters
  import opened PollMachine
  import C = DeviceControl
  import R = RxRing
  import Restart
  import T = TxRing
  import W = WholeDevice

  /** The steps of a poll after it is entered. */
  predicate OfPoll(e: Step) {
    || e.DrainTurn? || e.DrainEnd? || e.FillSkip? || e.FillGrant? || e.FillEnd?
    || e.ReapTurn? || e.ReapEnd? || e.NapiComplete? || e.Unmask?
  }

  /** A set of states that poll, once entered, does not leave by steps of its own. */
  ghost predicate Closed(reach: Sys -> bool) {
    forall q, e {:trigger reach(q), Enabled(q, e)} ::
      reach(q) && WellFormed(q) && Enabled(q, e) && OfPoll(e) ==> reach(Next(q, e))
  }

  /** A state in such a set, with these rings and poll at pc; all else about control is as in c. */
  ghost predicate At(reach: Sys -> bool, c: Ctl, q: Sys, r: R.Rx, t: T.Tx, pc: PollPc) {
    reach(q) && WellFormed(q) && q.rx.ring == r && q.tx.ring == t && q.ctl == c.(pc := pc)
  }

  /** A step of poll with its effect spelled out. */
  lemma Go(reach: Sys -> bool, c: Ctl, q: Sys, e: Step, r: R.Rx, t: T.Tx, pc: PollPc) returns (q': Sys)
    requires Closed(reach) && At(reach, c, q, q.rx.ring, q.tx.ring, q.ctl.pc) && Enabled(q, e)
    requires OfPoll(e) && !e.NapiComplete? && !e.Unmask?
    requires R.Wf(r) && T.Wf(t) && RxNext(q, e).ring == r && TxNext(q, e).ring == t && PcNext(q, e) == pc
    ensures At(reach, c, q', r, t, pc)
  {
    q' := Next(q, e);
  }

  // ---- draining ----

  lemma DrainTurnGoes(reach: Sys -> bool, c: Ctl, q: Sys, r: R.Rx, k: nat, left: nat, budget: nat) returns (q': Sys)
    requires Closed(reach) && R.Wf(r) && k < N && left > 0 && !r.desc[Slot(r.cur, k)].own
    requires At(reach, c, q, R.DrainN(r, k), q.tx.ring, Draining(left, k, budget))
    ensures At(reach, c, q', R.DrainN(r, k + 1), q.tx.ring, Draining(left - 1, k + 1, budget))
  {
    R.DrainNReaches(r, k);
    assert !AtOwned(q);
    q' := Go(reach, c, q, DrainTurn, R.DrainOne(q.rx.ring), q.tx.ring, Draining(left - 1, k + 1, budget));
  }

  lemma DrainEnds(reach: Sys -> bool, c: Ctl, q: Sys, r: R.Rx, k: nat, left: nat, budget: nat) returns (q': Sys)
    requires Closed(reach) && R.Wf(r) && (left == 0 || (k < N && r.desc[Slot(r.cur, k)].own))
    requires At(reach, c, q, R.DrainN(r, k), q.tx.ring, Draining(left, k, budget))
    ensures At(reach, c, q', R.DrainN(r, k), q.tx.ring, Filling(0, k, budget))
  {
    if left > 0 {
      R.DrainNReaches(r, k);
      assert AtOwned(q);
    }
    q' := Go(reach, c, q, DrainEnd, q.rx.ring, q.tx.ring, Filling(0, k, budget));
  }

  lemma {:induction false} Drains(reach: Sys -> bool, c: Ctl, q: Sys, r: R.Rx, k: nat, left: nat, budget: nat)
    returns (q': Sys, n: nat)
    requires Closed(reach) && R.Wf(r) && k + left <= N
    requires At(reach, c, q, R.DrainN(r, k), q.tx.ring, Draining(left, k, budget))
    ensures n == k + R.DrainTurns(r, k, left)
    ensures At(reach, c, q', R.DrainN(r, n), q.tx.ring, Filling(0, n, budget))
    decreases left
  {
    if left == 0 || r.desc[Slot(r.cur, k)].own {
      n := k;
      q' := DrainEnds(reach, c, q, r, k, left, budget);
    } else {
      q' := DrainTurnGoes(reach, c, q, r, k, left, budget);
      q', n := Drains(reach, c, q', r, k + 1, left - 1, budget);
    }
  }

  // ---- refilling ----

  lemma FillTurnGoes(reach: Sys -> bool, c: Ctl, q: Sys, d: R.Rx, k: nat, work: nat, budget: nat, gs: seq<R.Grant>)
    returns (q': Sys)
    requires Closed(reach) && R.Mapped(d) && R.FreshGrants(d, gs)
    requires k < R.Gap(d) <= N && R.Used(d, d.dirty, k) <= |gs|
    requires d.skb[Slot(d.dirty, k)].Some? || R.Used(d, d.dirty, k) < |gs|
    requires At(reach, c, q, R.FillN(d, d.dirty, k, gs), q.tx.ring, Filling(k, work, budget))
    ensures R.Used(d, d.dirty, k + 1) <= |gs|
    ensures At(reach, c, q', R.FillN(d, d.dirty, k + 1, gs), q.tx.ring, Filling(k + 1, work, budget))
  {
    var i, u := Slot(d.dirty, k), R.Used(d, d.dirty, k);
    R.FillNFrame(d, d.dirty, k, gs, k);
    if d.skb[i].Some? {
      q' := Go(reach, c, q, FillSkip, q.rx.ring, q.tx.ring, Filling(k + 1, work, budget));
    } else {
      var p := R.FillNFills(d, d.dirty, k, gs);
      q' := Go(reach, c, q, FillGrant(gs[u]), R.Refill(p, i, gs[u]), q.tx.ring, Filling(k + 1, work, budget));
    }
  }

  lemma FillEnds(reach: Sys -> bool, c: Ctl, q: Sys, d: R.Rx, k: nat, work: nat, budget: nat, gs: seq<R.Grant>)
    returns (q': Sys)
    requires Closed(reach) && R.Wf(d) && k <= R.Gap(d) <= N && R.Used(d, d.dirty, k) <= |gs|
    requires k == R.Gap(d) || d.skb[Slot(d.dirty, k)].None?
    requires At(reach, c, q, R.FillN(d, d.dirty, k, gs), q.tx.ring, Filling(k, work, budget))
    ensures At(reach, c, q', R.FillN(d, d.dirty, k, gs).(dirty := Add(d.dirty, k)), q.tx.ring,
               Reaping(T.Count(q.tx.ring), work, budget))
  {
    if k < R.Gap(d) { R.FillNFrame(d, d.dirty, k, gs, k); }
    q' := Go(reach, c, q, FillEnd, q.rx.ring.(dirty := Add(d.dirty, k)), q.tx.ring,
             Reaping(T.Count(q.tx.ring), work, budget));
  }

  lemma {:induction false} Fills(
    reach: Sys -> bool, c: Ctl, q: Sys, d: R.Rx, k: nat, work: nat, budget: nat, gs: seq<R.Grant>)
    returns (q': Sys, n: nat)
    requires Closed(reach) && R.Mapped(d) && R.FreshGrants(d, gs)
    requires k <= R.Gap(d) <= N && R.Used(d, d.dirty, k) <= |gs|
    requires At(reach, c, q, R.FillN(d, d.dirty, k, gs), q.tx.ring, Filling(k, work, budget))
    ensures n == R.FillTurns(d, d.dirty, R.Gap(d), gs, k)
    ensures At(reach, c, q', R.FillN(d, d.dirty, n, gs).(dirty := Add(d.dirty, n)), q.tx.ring,
               Reaping(T.Count(q.tx.ring), work, budget))
    decreases R.Gap(d) - k
  {
    if k == R.Gap(d) || (d.skb[Slot(d.dirty, k)].None? && R.Used(d, d.dirty, k) == |gs|) {
      n := k;
      q' := FillEnds(reach, c, q, d, k, work, budget, gs);
    } else {
      q' := FillTurnGoes(reach, c, q, d, k, work, budget, gs);
      q', n := Fills(reach, c, q', d, k + 1, work, budget, gs);
    }
  }

  // ---- reaping ----

  lemma ReapTurnGoes(reach: Sys -> bool, c: Ctl, q: Sys, t: T.Tx, k: nat, left: nat, work: nat, budget: nat)
    returns (q': Sys)
    requires Closed(reach) && T.Wf(t) && k < N && left > 0 && !t.desc[Slot(t.dirty, k)].own
    requires At(reach, c, q, q.rx.ring, T.ReapN(t, k), Reaping(left, work, budget))
    ensures At(reach, c, q', q.rx.ring, T.ReapN(t, k + 1), Reaping(left - 1, work, budget))
  {
    T.ReapNFrame(t, k);
    AddMovesWindow(t.dirty, k, 0);
    assert !TxAtOwned(q);
    q' := Go(reach, c, q, ReapTurn, q.rx.ring, T.ReapOne(q.tx.ring), Reaping(left - 1, work, budget));
  }

  function AfterReap(work: nat, budget: nat): PollPc {
    if work < budget then Completing else Idle
  }

  lemma ReapEnds(reach: Sys -> bool, c: Ctl, q: Sys, t: T.Tx, k: nat, left: nat, work: nat, budget: nat)
    returns (q': Sys)
    requires Closed(reach) && T.Wf(t) && (left == 0 || (k < N && t.desc[Slot(t.dirty, k)].own))
    requires At(reach, c, q, q.rx.ring, T.ReapN(t, k), Reaping(left, work, budget))
    ensures At(reach, c, q', q.rx.ring, T.ReapN(t, k), AfterReap(work, budget))
  {
    if left > 0 {
      T.ReapNFrame(t, k);
      AddMovesWindow(t.dirty, k, 0);
      assert TxAtOwned(q);
    }
    q' := Go(reach, c, q, ReapEnd, q.rx.ring, q.tx.ring, AfterReap(work, budget));
  }

  lemma {:induction false} Reaps(reach: Sys -> bool, c: Ctl, q: Sys, t: T.Tx, k: nat, work: nat, budget: nat)
    returns (q': Sys, n: nat)
    requires Closed(reach) && T.Wf(t) && k <= T.Count(t) <= N
    requires At(reach, c, q, q.rx.ring, T.ReapN(t, k), Reaping(T.Count(t) - k, work, budget))
    ensures n == k + T.ReapTurns(t, k)
    ensures At(reach, c, q', q.rx.ring, T.ReapN(t, n), AfterReap(work, budget))
    decreases T.Count(t) - k
  {
    if k == T.Count(t) || t.desc[Slot(t.dirty, k)].own {
      n := k;
      q' := ReapEnds(reach, c, q, t, k, T.Count(t) - k, work, budget);
    } else {
      q' := ReapTurnGoes(reach, c, q, t, k, T.Count(t) - k, work, budget);
      q', n := Reaps(reach, c, q', t, k + 1, work, budget);
    }
  }

  // ---- the whole poll ----

  lemma Enters(reach: Sys -> bool, s: Sys, budget: Word32)
    requires WellFormed(s) && s.ctl.pc.Idle? && s.ctl.sched && reach(Next(s, PollEnter(budget)))
    ensures At(reach, s.ctl, Next(s, PollEnter(budget)), s.rx.ring, s.tx.ring,
               Draining(R.Budgeted(s.rx.ring, budget), 0, budget))
  {
  }

  lemma DrainedRing(r: R.Rx, budget: Word32, gs: seq<R.Grant>) returns (d: R.Rx)
    requires R.Valid(r) && R.FreshGrants(r, gs)
    ensures d == R.Drain(r, budget) && R.Mapped(d) && R.Gap(d) <= N && R.FreshGrants(d, gs)
  {
    var k := W.Work(r, budget);
    R.PassStops(r, budget);
    R.DrainTurnsStopsAtOwned(r, 0, R.Budgeted(r, budget));
    R.DrainNKeeps(r, k);
    R.FreshAfterDrain(r, k, gs);
    d := R.DrainN(r, k);
  }

  lemma PassDrains(reach: Sys -> bool, s: Sys, budget: Word32) returns (q: Sys)
    requires WellFormed(s) && R.Gap(s.rx.ring) <= N && s.ctl.pc.Idle? && s.ctl.sched
    requires Closed(reach) && reach(Next(s, PollEnter(budget)))
    ensures At(reach, s.ctl, q, R.Drain(s.rx.ring, budget), s.tx.ring,
               Filling(0, W.Work(s.rx.ring, budget), budget))
  {
    var r, n := s.rx.ring, 0;
    R.BudgetedIsWindow(r, budget);
    Enters(reach, s, budget);
    q, n := Drains(reach, s.ctl, Next(s, PollEnter(budget)), r, 0, R.Budgeted(r, budget), budget);
  }

  lemma PassFills(reach: Sys -> bool, s: Sys, q: Sys, budget: Word32, gs: seq<R.Grant>, work: nat) returns (q': Sys)
    requires Closed(reach) && R.Valid(s.rx.ring) && R.FreshGrants(s.rx.ring, gs)
    requires At(reach, s.ctl, q, R.Drain(s.rx.ring, budget), s.tx.ring, Filling(0, work, budget))
    ensures At(reach, s.ctl, q', R.Interrupt(s.rx.ring, budget, gs), s.tx.ring,
               Reaping(T.Count(s.tx.ring), work, budget))
  {
    var n: nat;
    var d := DrainedRing(s.rx.ring, budget, gs);
    q', n := Fills(reach, s.ctl, q, d, 0, work, budget, gs);
  }

  lemma PassReaps(reach: Sys -> bool, s: Sys, q: Sys, r: R.Rx, budget: Word32, work: nat) returns (q': Sys)
    requires Closed(reach) && WellFormed(s) && T.Count(s.tx.ring) <= N
    requires At(reach, s.ctl, q, r, s.tx.ring, Reaping(T.Count(s.tx.ring), work, budget))
    ensures At(reach, s.ctl, q', r, T.Reap(s.tx.ring), AfterReap(work, budget))
  {
    var n: nat;
    q', n := Reaps(reach, s.ctl, q, s.tx.ring, 0, work, budget);
  }

  lemma Completes(reach: Sys -> bool, s: Sys, q: Sys, r: R.Rx, t: T.Tx) returns (q': Sys)
    requires Closed(reach) && At(reach, s.ctl, q, r, t, Completing)
    ensures At(reach, s.ctl.(sched := false, mask := true), q', r, t, Idle)
  {
    q' := Next(q, NapiComplete);
    q' := Next(q', Unmask);
  }

  /** An uninterrupted poll: the pass of rtl8101_rx_interrupt, the reaping of rtl8101_tx_interrupt,
      then completion and unmasking exactly if work_done < budget. */
  lemma PollRuns(reach: Sys -> bool, s: Sys, budget: Word32, gs: seq<R.Grant>) returns (q: Sys)
    requires WellFormed(s) && s.ctl.pc.Idle? && s.ctl.sched && Closed(reach) && reach(Next(s, PollEnter(budget)))
    requires R.Valid(s.rx.ring) && R.FreshGrants(s.rx.ring, gs) && T.Count(s.tx.ring) <= N
    ensures var c := if W.Work(s.rx.ring, budget) < budget then s.ctl.(sched := false, mask := true) else s.ctl;
            At(reach, c, q, R.Interrupt(s.rx.ring, budget, gs), T.Reap(s.tx.ring), Idle)
  {
    var work, r := W.Work(s.rx.ring, budget), R.Interrupt(s.rx.ring, budget, gs);
    q := PassDrains(reach, s, budget);
    q := PassFills(reach, s, q, budget, gs, work);
    q := PassReaps(reach, s, q, r, budget, work);
    if work < budget {
      q := Completes(reach, s, q, r, T.Reap(s.tx.ring));
    }
  }

  // ---- agreement ----

  /** One poll from s to q, with nothing in between. */
  ghost predicate Uninterrupted(s: Sys, es: seq<Step>, q: Sys, budget: nat) {
    && Run(s, es, q) && es != [] && es[0] == PollEnter(budget)
    && forall i :: 0 < i < |es| ==> OfPoll(es[i])
  }

  ghost predicate Polled(s: Sys, budget: nat, q: Sys) {
    exists es :: Uninterrupted(s, es, q, budget)
  }

  lemma Longer(s: Sys, es: seq<Step>, q: Sys, budget: nat, e: Step)
    requires Uninterrupted(s, es, q, budget) && WellFormed(q) && Enabled(q, e) && OfPoll(e)
    ensures Uninterrupted(s, es + [e], Next(q, e), budget)
  {
    Restart.Snoc(s, es, q, e);
  }

  lemma PolledStep(s: Sys, budget: nat, q: Sys, e: Step)
    requires Polled(s, budget, q) && WellFormed(q) && Enabled(q, e) && OfPoll(e)
    ensures Polled(s, budget, Next(q, e))
  {
    var es :| Uninterrupted(s, es, q, budget);
    Longer(s, es, q, budget, e);
  }

  lemma PolledClosed(s: Sys, budget: nat)
    ensures Closed(q => Polled(s, budget, q))
  {
    forall q, e | Polled(s, budget, q) && WellFormed(q) && Enabled(q, e) && OfPoll(e)
      ensures Polled(s, budget, Next(q, e))
    {
      PolledStep(s, budget, q, e);
    }
  }

  lemma PolledFirst(s: Sys, budget: nat)
    requires WellFormed(s) && Enabled(s, PollEnter(budget))
    ensures Polled(s, budget, Next(s, PollEnter(budget)))
  {
    var es := [PollEnter(budget)];
    assert es[..0] == [] && Run(s, [], s);
    assert Uninterrupted(s, es, Next(s, PollEnter(budget)), budget);
  }

  lemma HighBits(b: nat)
    requires b >= 5
    ensures Bit(0x115, b) <==> b == 8
  {
    assert Bit(0x115, b) == Bit(0x8A, b - 1) == Bit(0x45, b - 2) == Bit(0x22, b - 3);
    assert Bit(0x22, b - 3) == Bit(0x11, b - 4) == Bit(8, b - 5);
    if b >= 9 {
      BitOfZero(b - 9);
      assert Bit(8, b - 5) == Bit(4, b - 6) == Bit(2, b - 7) == Bit(1, b - 8) == Bit(0, b - 9);
    } else if b == 8 {
      assert Bit(8, 3) == Bit(4, 2) == Bit(2, 1) == Bit(1, 0);
    } else if b == 7 {
      assert Bit(8, 2) == Bit(4, 1) == Bit(2, 0);
    } else if b == 6 {
      assert Bit(8, 1) == Bit(4, 0);
    }
  }

  /** The two models have the same interrupts enabled. */
  lemma MaskBits(b: nat)
    ensures b in EN_MASK <==> Bit(C.INTR_EN_MASK, b)
  {
    if b < 9 {
      assert Bit(0x115, 0) && !Bit(0x115, 1) && Bit(0x115, 2) && !Bit(0x115, 3) && Bit(0x115, 4);
      HighBits(5);
      HighBits(6);
      HighBits(7);
      HighBits(8);
    } else {
      HighBits(b);
    }
  }

  /** The same device in the two models. */
  ghost predicate Same(s: Sys, d: W.Dev) {
    && d.r == s.rx.ring && d.c.tx == s.tx.ring
    && d.c.napi == s.ctl.sched && (d.c.mask == C.INTR_EN_MASK <==> s.ctl.mask)
  }

  /** So one call of Driver.Rtl8101.Poll is an uninterrupted poll of the micro-step machine. */
  lemma PollAgrees(s: Sys, d: W.Dev, budget: Word32, gs: seq<R.Grant>) returns (q: Sys)
    requires WellFormed(s) && Same(s, d) && W.Inv(d) && W.Enabled(d, W.Poll(budget, gs)) && s.ctl.pc.Idle?
    ensures Polled(s, budget, q) && q.ctl.pc.Idle? && q.ctl.irq == s.ctl.irq && q.ctl.status == s.ctl.status
    ensures Same(q, W.Next(d, W.Poll(budget, gs)))
  {
    PolledClosed(s, budget);
    PolledFirst(s, budget);
    q := PollRuns(q => Polled(s, budget, q), s, budget, gs);
    W.PollIs(d, budget, gs, W.Next(d, W.Poll(budget, gs)));
  }

  lemma IrqIs(d: W.Dev)
    requires W.Wf(d)
    ensures W.Next(d, W.Irq) == d.(c := d.c.(mask := 0, napi := true))
  {
  }

  /** And one call of Driver.Rtl8101.Interrupt is the five steps of the handler. */
  lemma IrqAgrees(s: Sys, d: W.Dev)
    requires WellFormed(s) && W.Wf(d) && Same(s, d) && Enabled(s, IrqEnter)
    ensures var a := Next(s, IrqEnter);
            Enabled(a, IrqMask) &&
            var b := Next(a, IrqMask);
            Enabled(b, IrqRead) &&
            var c := Next(b, IrqRead);
            Enabled(c, IrqAck) &&
            var e := Next(c, IrqAck);
            Enabled(e, IrqSchedule) &&
            var q := Next(e, IrqSchedule);
            Same(q, W.Next(d, W.Irq)) && q.ctl.status == {}
  {
    IrqIs(d);
  }
}
