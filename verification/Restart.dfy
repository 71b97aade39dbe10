/** What rtl8101_hw_init does to the receive side when it restarts the NIC at slot 0 without
    touching cur_rx, as it does when the link comes up: exactly when the driver still receives
    every frame afterwards. */
module Restart {
  import opened Common
  import opened Counters
  import opened NicWalk
  import opened PollMachine
  import R = RxRing
  import T = TxRing

  /** The frames delivered are the first of those received, and if they are not all, someone is
      coming for the rest. */
  ghost predicate Attended(q: Sys) {
    && WellFormed(q)
    && q.rx.ring.up.delivered <= q.rx.total.delivered
    && (q.rx.ring.up.delivered != q.rx.total.delivered ==> Coming(q, RX_OK, q.ctl.rxDue))
  }

  ghost predicate AlwaysAttended(s: Sys) {
    forall es, q :: Run(s, es, q) ==> Attended(q)
  }

  /** Where the NIC stood before it was restarted: behind the frames that wait. */
  function LastPlace(s: Sys): nat {
    Slot(s.rx.ring.cur, |s.rx.wait|)
  }

  /** Just after hw_init, with poll not under way but perhaps scheduled: the Rx ring is as it was,
      with any frames waiting and any slots without a buffer; the NIC is at slot 0, the status is
      cleared, interrupts are unmasked. */
  ghost predicate Restarted(s: Sys) {
    && R.Valid(s.rx.ring) && Aligned(s.rx.ring, LastPlace(s), s.rx.wait)
    && s.rx.total == Tally(s.rx.ring.up, s.rx.wait)
    && s.rx.nic == 0 && s.rx.stale == 0
    && TxAligned(s.tx.ring, 0, 0) && T.Count(s.tx.ring) == 0
    && s.tx.nic == 0 && s.tx.done == 0
    && s.ctl == QUIET.(sched := s.ctl.sched)
  }

  // ---- when nothing good waits and the NIC was at slot 0 anyway ----

  lemma {:induction false} SomeGood(fs: seq<R.Frame>)
    ensures Good(fs) != [] <==> AnyGood(fs, 0)
  {
    if fs == [] {
    } else {
      var n := |fs| - 1;
      SomeGood(fs[..n]);
      if AnyGood(fs[..n], 0) {
        var k :| 0 <= k < n && !fs[..n][k].res;
        assert !fs[k].res;
      } else if AnyGood(fs, 0) {
        var k :| 0 <= k < |fs| && !fs[k].res;
        assert k < n ==> !fs[..n][k].res;
      } else {
        assert fs[n].res;
      }
    }
  }

  lemma SoundAttended(q: Sys)
    requires Sound(q)
    ensures Attended(q)
  {
    SoundIsAttended(q);
    SomeGood(q.rx.wait);
    TallyMeans(q.rx.ring.up, q.rx.wait);
  }

  lemma InStepAttended(s: Sys)
    requires Restarted(s) && !s.ctl.sched && !AnyGood(s.rx.wait, 0) && LastPlace(s) == 0
    ensures AlwaysAttended(s)
  {
    assert Sound(s);
    forall es, q | Run(s, es, q) ensures Attended(q) {
      RunsStaySound(s, es, q);
      SoundAttended(q);
    }
  }

  // ---- when a good frame waits ----

  /** hw_init clears the status bit that announced it. */
  lemma WaitingForgotten(s: Sys)
    requires Restarted(s) && !s.ctl.sched && AnyGood(s.rx.wait, 0)
    ensures !AlwaysAttended(s)
  {
    SomeGood(s.rx.wait);
    TallyMeans(s.rx.ring.up, s.rx.wait);
    assert s.rx.total.delivered != s.rx.ring.up.delivered;
    assert Run(s, [], s) && !Attended(s);
  }

  // ---- when the NIC was elsewhere: one frame is enough ----

  const FRAME: R.Frame := R.Frame([], false, false, false, false)

  lemma Snoc(s: Sys, es: seq<Step>, q: Sys, e: Step)
    requires Run(s, es, q) && WellFormed(q) && Enabled(q, e)
    ensures Run(s, es + [e], Next(q, e))
  {
    assert (es + [e])[..|es|] == es;
  }

  /** All Rx slots posted, and the NIC one or more slots away from cur_rx. */
  ghost predicate OutOfStep(s: Sys) {
    && WellFormed(s)
    && s.rx.ring.cur == s.rx.ring.dirty && s.rx.ring.cur % N != 0
    && (forall i :: 0 <= i < N ==> s.rx.ring.desc[i].own)
    && s.rx.total.delivered == s.rx.ring.up.delivered
    && s.rx.nic == 0 && T.Count(s.tx.ring) == 0
    && s.ctl == QUIET
  }

  /** After the NIC has written FRAME to slot 0, with control state c. */
  ghost predicate Missed(s: Sys, q: Sys, c: Ctl)
    requires WellFormed(s)
  {
    && WellFormed(q) && q.ctl == c && q.tx == s.tx
    && q.rx.ring == R.NicWrite(s.rx.ring, 0, FRAME)
    && q.rx.total.delivered == s.rx.total.delivered + [[]]
  }

  lemma Last(s: Sys, es: seq<Step>, q: Sys) returns (fs: seq<Step>, p: Sys, e: Step)
    requires Run(s, es, q) && es != []
    ensures es == fs + [e] && |fs| < |es|
    ensures Run(s, fs, p) && WellFormed(p) && Enabled(p, e) && q == Next(p, e)
  {
    var n := |es| - 1;
    fs, e := es[..n], es[n];
    p :| Run(s, fs, p) && WellFormed(p) && Enabled(p, e) && q == Next(p, e);
  }

  lemma Take(s: Sys, es: seq<Step>, q: Sys, e: Step) returns (es': seq<Step>, q': Sys)
    requires Run(s, es, q) && WellFormed(q) && Enabled(q, e)
    ensures es' == es + [e] && q' == Next(q, e) && Run(s, es', q')
  {
    Snoc(s, es, q, e);
    es', q' := es + [e], Next(q, e);
  }

  /** The NIC writes to slot 0 and latches RxOK; the handler runs and schedules poll. */
  lemma MissedReceive(s: Sys)
    requires OutOfStep(s)
    ensures Enabled(s, NicReceive(FRAME)) && Missed(s, Next(s, NicReceive(FRAME)), QUIET.(rxDue := true))
  {
  }

  /** A step of poll or handler that does not move the rings. */
  predicate FlagsOnly(e: Step) {
    || e.LatchRx? || e.IrqEnter? || e.IrqMask? || e.IrqRead? || e.IrqAck? || e.IrqSchedule?
    || e.PollEnter? || e.DrainEnd? || e.ReapEnd? || e.NapiComplete? || e.Unmask?
  }

  lemma MissedFlags(s: Sys, q: Sys, e: Step)
    requires WellFormed(s) && Missed(s, q, q.ctl) && FlagsOnly(e) && Enabled(q, e)
    ensures Missed(s, Next(q, e), CtlNext(q, e))
  {
  }

  lemma MissedFill(s: Sys, q: Sys)
    requires OutOfStep(s) && Missed(s, q, q.ctl) && q.ctl.pc == Filling(0, 0, 1)
    ensures Enabled(q, FillEnd)
    ensures Missed(s, Next(q, FillEnd), q.ctl.(pc := Reaping(0, 0, 1)))
  {
    assert R.Gap(q.rx.ring) == 0;
    assert Add(q.rx.ring.dirty, 0) == q.rx.ring.dirty;
  }

  lemma Flags(s: Sys, es: seq<Step>, q: Sys, e: Step, c: Ctl) returns (es': seq<Step>, q': Sys)
    requires WellFormed(s) && Run(s, es, q) && Missed(s, q, q.ctl)
    requires FlagsOnly(e) && Enabled(q, e) && c == CtlNext(q, e)
    ensures Run(s, es', q') && Missed(s, q', c)
  {
    MissedFlags(s, q, e);
    es', q' := Take(s, es, q, e);
  }

  lemma MissedLatch(s: Sys, es: seq<Step>, q: Sys) returns (es': seq<Step>, q': Sys)
    requires WellFormed(s) && Run(s, es, q) && Missed(s, q, QUIET.(rxDue := true))
    ensures Run(s, es', q') && Missed(s, q', QUIET.(status := {RX_OK}, irq := Masked, mask := false))
  {
    es', q' := Flags(s, es, q, LatchRx, QUIET.(status := {RX_OK}));
    assert RX_OK in q'.ctl.status * EN_MASK && 1 in ALL_BITS;
    es', q' := Flags(s, es', q', IrqEnter, QUIET.(status := {RX_OK}, irq := Mine));
    es', q' := Flags(s, es', q', IrqMask, QUIET.(status := {RX_OK}, irq := Masked, mask := false));
  }

  lemma MissedSchedule(s: Sys, es: seq<Step>, q: Sys) returns (es': seq<Step>, q': Sys)
    requires WellFormed(s) && Run(s, es, q) && Missed(s, q, QUIET.(status := {RX_OK}, irq := Masked, mask := false))
    ensures Run(s, es', q') && Missed(s, q', QUIET.(mask := false, sched := true))
  {
    es', q' := Flags(s, es, q, IrqRead, QUIET.(status := {RX_OK}, irq := ReadBack({RX_OK}), mask := false));
    es', q' := Flags(s, es', q', IrqAck, QUIET.(irq := Acked, mask := false));
    es', q' := Flags(s, es', q', IrqSchedule, QUIET.(mask := false, sched := true));
  }

  /** The drain loop stops at once, at a slot the NIC still owns. */
  lemma MissedDrain(s: Sys, es: seq<Step>, q: Sys) returns (es': seq<Step>, q': Sys)
    requires OutOfStep(s) && Run(s, es, q) && Missed(s, q, QUIET.(mask := false, sched := true))
    ensures Run(s, es', q') && Missed(s, q', QUIET.(mask := false, sched := true, pc := Filling(0, 0, 1)))
  {
    assert Slot(q.rx.ring.cur, 0) == s.rx.ring.cur % N;
    es', q' := Flags(s, es, q, PollEnter(1), CtlNext(q, PollEnter(1)));
    assert AtOwned(q');
    es', q' := Flags(s, es', q', DrainEnd, QUIET.(mask := false, sched := true, pc := Filling(0, 0, 1)));
  }

  /** The poll ends, and all is quiet. */
  lemma MissedEnd(s: Sys, es: seq<Step>, q: Sys) returns (es': seq<Step>, q': Sys)
    requires OutOfStep(s) && Run(s, es, q)
    requires Missed(s, q, QUIET.(mask := false, sched := true, pc := Reaping(0, 0, 1)))
    ensures Run(s, es', q') && Missed(s, q', QUIET)
  {
    es', q' := Flags(s, es, q, ReapEnd, QUIET.(mask := false, sched := true, pc := Completing));
    es', q' := Flags(s, es', q', NapiComplete, QUIET.(mask := false, pc := Unmasking));
    es', q' := Flags(s, es', q', Unmask, QUIET);
  }

  /** A run that ends with a frame received, undelivered, and nobody coming for it. */
  lemma OutOfStepLoses(s: Sys) returns (es: seq<Step>, q: Sys)
    requires OutOfStep(s)
    ensures Run(s, es, q) && Missed(s, q, QUIET) && !Attended(q)
  {
    MissedReceive(s);
    es, q := Take(s, [], s, NicReceive(FRAME));
    es, q := MissedLatch(s, es, q);
    es, q := MissedSchedule(s, es, q);
    es, q := MissedDrain(s, es, q);
    MissedFill(s, q);
    es, q := Take(s, es, q, FillEnd);
    es, q := MissedEnd(s, es, q);
  }

  // ---- from any restarted state to one with all slots posted ----

  /** No frame is received in these steps. */
  ghost predicate Calm(es: seq<Step>) {
    forall i :: 0 <= i < |es| ==> !es[i].NicReceive?
  }

  /** q is reached from p without receiving a frame. */
  ghost predicate Reached(p: Sys, es: seq<Step>, q: Sys) {
    Run(p, es, q) && Calm(es) && WellFormed(q)
  }

  lemma ReachedSound(p: Sys, es: seq<Step>, q: Sys)
    requires Sound(p) && Reached(p, es, q)
    ensures Sound(q)
  {
    RunsStaySound(p, es, q);
  }

  /** A calm step, with its effect spelled out. */
  lemma Calmly(p: Sys, es: seq<Step>, q: Sys, e: Step, x: RxSide, c: Ctl) returns (es': seq<Step>, q': Sys)
    requires Reached(p, es, q) && Enabled(q, e)
    requires !e.NicReceive? && x == RxNext(q, e) && R.Wf(x.ring) && x.nic < N
    requires c == CtlNext(q, e) && TxNext(q, e) == q.tx
    ensures Reached(p, es', q') && q' == Sys(x, q.tx, c)
  {
    es', q' := Take(p, es, q, e);
  }

  const BUSY: Ctl := QUIET.(mask := false, sched := true)

  /** The handler is entered for whatever reason ... */
  lemma ServeEnter(p: Sys) returns (es: seq<Step>, q: Sys)
    requires WellFormed(p) && p.ctl == QUIET
    ensures Reached(p, es, q) && q == p.(ctl := QUIET.(status := {RX_OK}, irq := Masked, mask := false))
  {
    es, q := Calmly(p, [], p, LatchOther({RX_OK}), p.rx, QUIET.(status := {RX_OK}));
    assert RX_OK in q.ctl.status * EN_MASK && 1 in ALL_BITS;
    es, q := Calmly(p, es, q, IrqEnter, p.rx, QUIET.(status := {RX_OK}, irq := Mine));
    es, q := Calmly(p, es, q, IrqMask, p.rx, QUIET.(status := {RX_OK}, irq := Masked, mask := false));
  }

  /** ... and schedules poll. */
  lemma ServeSchedule(p: Sys, es: seq<Step>, q: Sys) returns (es': seq<Step>, q': Sys)
    requires Reached(p, es, q) && q.ctl == QUIET.(status := {RX_OK}, irq := Masked, mask := false)
    ensures Reached(p, es', q') && q' == q.(rx := q.rx.(stale := |q.rx.wait|), ctl := BUSY)
  {
    es', q' := Calmly(p, es, q, IrqRead, q.rx, QUIET.(status := {RX_OK}, irq := ReadBack({RX_OK}), mask := false));
    es', q' := Calmly(p, es', q', IrqAck, q.rx.(stale := |q.rx.wait|), QUIET.(irq := Acked, mask := false));
    es', q' := Calmly(p, es', q', IrqSchedule, q'.rx, BUSY);
  }

  /** The steps of poll up to its decision to complete. */
  predicate PollStep(e: Step) {
    || e.PollEnter? || e.DrainTurn? || e.DrainEnd? || e.FillSkip? || e.FillGrant? || e.FillEnd? || e.ReapEnd?
  }

  ghost predicate PollOnly(es: seq<Step>) {
    forall i :: 0 <= i < |es| ==> PollStep(es[i])
  }

  /** q is reached from p by steps of poll alone. */
  ghost predicate Polled(p: Sys, es: seq<Step>, q: Sys) {
    Run(p, es, q) && PollOnly(es) && WellFormed(q)
  }

  lemma PolledSound(p: Sys, es: seq<Step>, q: Sys)
    requires Sound(p) && Polled(p, es, q)
    ensures Sound(q)
  {
    RunsStaySound(p, es, q);
  }

  /** A step of poll, with its effect spelled out. */
  lemma Polls(p: Sys, es: seq<Step>, q: Sys, e: Step, x: RxSide, c: Ctl) returns (es': seq<Step>, q': Sys)
    requires Polled(p, es, q) && Enabled(q, e)
    requires PollStep(e) && x == RxNext(q, e) && R.Wf(x.ring) && x.nic < N
    requires c == CtlNext(q, e) && TxNext(q, e) == q.tx
    ensures Polled(p, es', q') && q' == Sys(x, q.tx, c)
  {
    es', q' := Take(p, es, q, e);
  }

  lemma PollBegins(q: Sys) returns (left: nat)
    requires Sound(q) && q.ctl == BUSY
    ensures left <= N && Enabled(q, PollEnter(N + 1))
    ensures CtlNext(q, PollEnter(N + 1)) == BUSY.(pc := Draining(left, 0, N + 1))
  {
    RoomIsRest(q.rx.ring.cur, q.rx.ring.dirty);
    left := N - R.Gap(q.rx.ring);
  }

  lemma ServePoll(p: Sys, es: seq<Step>, q: Sys) returns (es': seq<Step>, q': Sys, left: nat)
    requires Sound(p) && Polled(p, es, q) && q.ctl == BUSY
    ensures Polled(p, es', q') && left <= N && q' == q.(ctl := BUSY.(pc := Draining(left, 0, N + 1)))
  {
    PolledSound(p, es, q);
    left := PollBegins(q);
    es', q' := Polls(p, es, q, PollEnter(N + 1), q.rx, BUSY.(pc := Draining(left, 0, N + 1)));
  }

  /** What stays while poll works: history, NIC and transmit side. */
  ghost predicate SameOutside(q: Sys, q': Sys) {
    q'.tx == q.tx && q'.rx.nic == q.rx.nic && q'.rx.total == q.rx.total
  }

  lemma SomethingWaits(q: Sys)
    requires Sound(q) && Enabled(q, DrainTurn)
    ensures q.rx.wait != []
  {
    RxDrain(q.rx);
  }

  lemma DrainTurnEffect(q: Sys, left: nat, work: nat)
    requires WellFormed(q) && left > 0 && !AtOwned(q) && q.ctl == BUSY.(pc := Draining(left, work, N + 1))
    ensures Enabled(q, DrainTurn) && RxNext(q, DrainTurn) == Drained(q.rx) && TxNext(q, DrainTurn) == q.tx
    ensures CtlNext(q, DrainTurn) == BUSY.(pc := Draining(left - 1, work + 1, N + 1))
  {
  }

  lemma TurnAtWaiting(p: Sys, es: seq<Step>, q: Sys)
    requires Sound(p) && Polled(p, es, q) && Enabled(q, DrainTurn)
    ensures q.rx.wait != []
  {
    PolledSound(p, es, q);
    SomethingWaits(q);
  }

  lemma ServeDrainTurn(p: Sys, es: seq<Step>, q: Sys, left: nat, work: nat) returns (es': seq<Step>, q': Sys)
    requires Sound(p) && Polled(p, es, q) && left > 0 && !AtOwned(q)
    requires q.ctl == BUSY.(pc := Draining(left, work, N + 1)) && q.rx.stale == |q.rx.wait|
    ensures Polled(p, es', q') && SameOutside(q, q')
    ensures q'.ctl == BUSY.(pc := Draining(left - 1, work + 1, N + 1)) && q'.rx.stale == |q'.rx.wait|
  {
    DrainTurnEffect(q, left, work);
    TurnAtWaiting(p, es, q);
    es', q' := Polls(p, es, q, DrainTurn, Drained(q.rx), BUSY.(pc := Draining(left - 1, work + 1, N + 1)));
  }

  lemma ServeDrainEnd(p: Sys, es: seq<Step>, q: Sys, left: nat, work: nat) returns (es': seq<Step>, q': Sys)
    requires Sound(p) && Polled(p, es, q) && (left == 0 || AtOwned(q))
    requires q.ctl == BUSY.(pc := Draining(left, work, N + 1)) && work <= N && q.rx.stale == |q.rx.wait|
    ensures Polled(p, es', q') && SameOutside(q, q')
    ensures q'.ctl == BUSY.(pc := Filling(0, work, N + 1)) && q'.rx.wait == []
  {
    es', q' := Polls(p, es, q, DrainEnd, q.rx, BUSY.(pc := Filling(0, work, N + 1)));
    assert PcSound(q') by { PolledSound(p, es', q'); }
  }

  /** The drain loop at a point where nothing acknowledged has been missed. */
  ghost predicate DrainAt(p: Sys, es: seq<Step>, q: Sys, left: nat, work: nat) {
    && Polled(p, es, q) && work + left <= N
    && q.ctl == BUSY.(pc := Draining(left, work, N + 1)) && q.rx.stale == |q.rx.wait|
  }

  ghost predicate DrainedAll(p: Sys, es: seq<Step>, q: Sys, work: nat) {
    && Polled(p, es, q) && work <= N
    && q.ctl == BUSY.(pc := Filling(0, work, N + 1)) && q.rx.wait == []
  }

  lemma ServeDrainOnce(p: Sys, es: seq<Step>, q: Sys, left: nat, work: nat)
    returns (es': seq<Step>, q': Sys, more: bool)
    requires Sound(p) && DrainAt(p, es, q, left, work)
    ensures SameOutside(q, q')
    ensures more ==> left > 0 && DrainAt(p, es', q', left - 1, work + 1)
    ensures !more ==> DrainedAll(p, es', q', work)
  {
    more := left > 0 && !AtOwned(q);
    if more {
      es', q' := ServeDrainTurn(p, es, q, left, work);
    } else {
      es', q' := ServeDrainEnd(p, es, q, left, work);
    }
  }

  /** With budget to spare the drain loop takes all that waits. */
  lemma {:induction false} ServeDrain(p: Sys, es: seq<Step>, q: Sys, left: nat, work: nat)
    returns (es': seq<Step>, q': Sys, done: nat)
    requires Sound(p) && DrainAt(p, es, q, left, work)
    ensures SameOutside(q, q') && DrainedAll(p, es', q', done)
    decreases left
  {
    var more: bool;
    es', q', more := ServeDrainOnce(p, es, q, left, work);
    done := work;
    if more {
      es', q', done := ServeDrain(p, es', q', left - 1, work + 1);
    }
  }

  lemma {:induction false} FreshNat(used: set<nat>) returns (n: nat)
    ensures forall m :: m in used ==> m < n
  {
    if used == {} {
      n := 0;
    } else {
      var x :| x in used;
      n := FreshNat(used - {x});
      assert forall m :: m in used ==> m == x || m in used - {x};
      if n <= x { n := x + 1; }
    }
  }

  lemma SomeGrant(r: R.Rx) returns (g: R.Grant)
    ensures R.FreshGrant(r, g)
  {
    var a := FreshNat(r.bus.dma.Keys);
    var used := set i | 0 <= i < |r.skb| && r.skb[i].Some? :: r.skb[i].value;
    var s := FreshNat(used);
    forall i | 0 <= i < |r.skb| ensures r.skb[i] != Some(s) {
      assert r.skb[i].Some? ==> r.skb[i].value in used;
    }
    g := R.Grant(s, a);
  }

  lemma ServeFillEnd(p: Sys, es: seq<Step>, q: Sys, work: nat) returns (es': seq<Step>, q': Sys)
    requires Polled(p, es, q) && q.ctl == BUSY.(pc := Filling(R.Gap(q.rx.ring), work, N + 1))
    requires T.Count(q.tx.ring) == 0
    ensures Polled(p, es', q') && SameOutside(q, q') && q'.rx.wait == q.rx.wait
    ensures q'.ctl == BUSY.(pc := Reaping(0, work, N + 1)) && q'.rx.ring.cur == q'.rx.ring.dirty
  {
    var r := q.rx.ring;
    AddSub(r.cur, r.dirty);
    es', q' := Polls(p, es, q, FillEnd, q.rx.(ring := r.(dirty := Add(r.dirty, R.Gap(r)))),
                      BUSY.(pc := Reaping(0, work, N + 1)));
  }

  /** A turn at a slot that has a buffer, or that gets one. */
  lemma ServeFillTurn(p: Sys, es: seq<Step>, q: Sys, turns: nat, work: nat) returns (es': seq<Step>, q': Sys)
    requires Polled(p, es, q) && q.ctl == BUSY.(pc := Filling(turns, work, N + 1)) && turns < R.Gap(q.rx.ring)
    ensures Polled(p, es', q') && SameOutside(q, q') && q'.rx.wait == q.rx.wait
    ensures q'.ctl == BUSY.(pc := Filling(turns + 1, work, N + 1)) && R.Gap(q'.rx.ring) == R.Gap(q.rx.ring)
  {
    var r := q.rx.ring;
    if r.skb[Slot(r.dirty, turns)].Some? {
      es', q' := Polls(p, es, q, FillSkip, q.rx, BUSY.(pc := Filling(turns + 1, work, N + 1)));
    } else {
      var g := SomeGrant(r);
      es', q' := Polls(p, es, q, FillGrant(g), q.rx.(ring := R.Refill(r, Slot(r.dirty, turns), g)),
                        BUSY.(pc := Filling(turns + 1, work, N + 1)));
    }
  }

  /** With memory to spare the fill loop leaves no slot without a buffer. */
  lemma {:induction false} ServeFill(p: Sys, es: seq<Step>, q: Sys, turns: nat, work: nat)
    returns (es': seq<Step>, q': Sys)
    requires Polled(p, es, q) && q.ctl == BUSY.(pc := Filling(turns, work, N + 1)) && turns <= R.Gap(q.rx.ring)
    requires T.Count(q.tx.ring) == 0
    ensures Polled(p, es', q') && SameOutside(q, q') && q'.rx.wait == q.rx.wait
    ensures q'.ctl == BUSY.(pc := Reaping(0, work, N + 1)) && q'.rx.ring.cur == q'.rx.ring.dirty
    decreases R.Gap(q.rx.ring) - turns
  {
    if turns == R.Gap(q.rx.ring) {
      es', q' := ServeFillEnd(p, es, q, work);
    } else {
      es', q' := ServeFillTurn(p, es, q, turns, work);
      es', q' := ServeFill(p, es', q', turns + 1, work);
    }
  }

  lemma ServeEnd(p: Sys, es: seq<Step>, q: Sys, work: nat) returns (es': seq<Step>, q': Sys)
    requires Polled(p, es, q) && q.ctl == BUSY.(pc := Reaping(0, work, N + 1)) && work <= N
    ensures Polled(p, es', q') && q' == q.(ctl := BUSY.(pc := Completing))
  {
    es', q' := Polls(p, es, q, ReapEnd, q.rx, BUSY.(pc := Completing));
  }

  /** All that waits has been drained and every slot filled, and poll means to complete. */
  ghost predicate AllServed(p: Sys, q: Sys, c: Ctl) {
    && Sound(q) && SameOutside(p, q) && q.ctl == c
    && q.rx.wait == [] && q.rx.ring.cur == q.rx.ring.dirty
  }

  lemma ServePolled(p: Sys) returns (es: seq<Step>, q: Sys)
    requires Sound(p) && p.ctl == BUSY && p.rx.stale == |p.rx.wait| && T.Count(p.tx.ring) == 0
    ensures Polled(p, es, q) && AllServed(p, q, BUSY.(pc := Completing))
  {
    var left, work: nat;
    es, q, left := ServePoll(p, [], p);
    es, q, work := ServeDrain(p, es, q, left, 0);
    es, q := ServeFill(p, es, q, 0, work);
    es, q := ServeEnd(p, es, q, work);
    PolledSound(p, es, q);
  }

  lemma {:induction false} Append(s: Sys, es: seq<Step>, p: Sys, fs: seq<Step>, q: Sys)
    requires Run(s, es, p) && Run(p, fs, q)
    ensures Run(s, es + fs, q)
    decreases |fs|
  {
    if fs == [] {
      assert es + fs == es;
    } else {
      var gs, m, e := Last(p, fs, q);
      Append(s, es, p, gs, m);
      Snoc(s, es + gs, m, e);
      assert es + gs + [e] == es + fs;
    }
  }

  lemma ServeUnmask(p: Sys, es: seq<Step>, q: Sys) returns (es': seq<Step>, q': Sys)
    requires Reached(p, es, q) && q.ctl == BUSY.(pc := Completing)
    ensures Reached(p, es', q') && q' == q.(ctl := QUIET)
  {
    es', q' := Calmly(p, es, q, NapiComplete, q.rx, QUIET.(mask := false, pc := Unmasking));
    es', q' := Calmly(p, es', q', Unmask, q.rx, QUIET);
  }

  lemma ServeBegin(p: Sys) returns (es: seq<Step>, q: Sys)
    requires Sound(p) && p.ctl == QUIET
    ensures Reached(p, es, q) && Sound(q) && q == p.(rx := p.rx.(stale := |p.rx.wait|), ctl := BUSY)
  {
    es, q := ServeEnter(p);
    es, q := ServeSchedule(p, es, q);
    ReachedSound(p, es, q);
  }

  lemma ReachedPolled(p: Sys, es: seq<Step>, m: Sys, fs: seq<Step>, q: Sys)
    requires Reached(p, es, m) && Polled(m, fs, q)
    ensures Reached(p, es + fs, q)
  {
    Append(p, es, m, fs, q);
  }

  lemma ServeFinish(p: Sys, es: seq<Step>, q: Sys) returns (es': seq<Step>, q': Sys)
    requires Sound(p) && Reached(p, es, q) && AllServed(p, q, BUSY.(pc := Completing))
    ensures Reached(p, es', q') && AllServed(p, q', QUIET)
  {
    es', q' := ServeUnmask(p, es, q);
    ReachedSound(p, es', q');
  }

  /** One round of service, during which the NIC receives nothing, ends with all slots posted. */
  lemma Serve(p: Sys) returns (es: seq<Step>, q: Sys)
    requires Sound(p) && p.ctl == QUIET && T.Count(p.tx.ring) == 0
    ensures Reached(p, es, q) && AllServed(p, q, QUIET)
  {
    var m, fs;
    es, m := ServeBegin(p);
    fs, q := ServePolled(m);
    ReachedPolled(p, es, m, fs, q);
    es, q := ServeFinish(p, es + fs, q);
  }

  // ---- the same steps with the NIC elsewhere ----

  function Moved(s: Sys, n: nat): Sys {
    s.(rx := s.rx.(nic := n))
  }

  lemma MovedStep(s: Sys, e: Step, n: nat)
    requires WellFormed(s) && n < N && Enabled(s, e) && !e.NicReceive?
    ensures WellFormed(Moved(s, n)) && Enabled(Moved(s, n), e) && Next(Moved(s, n), e) == Moved(Next(s, e), n)
  {
  }

  /** Where the NIC stands on the Rx ring matters to no step but its own. */
  lemma {:induction false} MovedRun(s: Sys, es: seq<Step>, q: Sys, n: nat)
    requires Run(s, es, q) && Calm(es) && n < N
    ensures Run(Moved(s, n), es, Moved(q, n))
    decreases |es|
  {
    if es == [] {
    } else {
      var fs, p, e := Last(s, es, q);
      MovedRun(s, fs, p, n);
      MovedStep(p, e, n);
      Snoc(Moved(s, n), fs, Moved(p, n), e);
    }
  }

  lemma AllPosted(q: Sys)
    requires Sound(q) && q.rx.wait == [] && q.rx.ring.cur == q.rx.ring.dirty
    ensures forall i :: 0 <= i < N ==> q.rx.ring.desc[i].own
    ensures q.rx.total.delivered == q.rx.ring.up.delivered
  {
    var r := q.rx.ring;
    forall i | 0 <= i < N ensures r.desc[i].own {
      WalkIsBijection(r.cur, i, 0);
      assert r.skb[Slot(r.dirty, Offset(r.cur, i))].Some?;
    }
  }

  lemma ServedIsOutOfStep(q: Sys)
    requires Sound(q) && q.ctl == QUIET && q.rx.wait == [] && q.rx.ring.cur == q.rx.ring.dirty
    requires q.rx.nic != 0 && T.Count(q.tx.ring) == 0
    ensures OutOfStep(Moved(q, 0))
  {
    AllPosted(q);
  }

  lemma ElsewhereLoses(s: Sys)
    requires Restarted(s) && !s.ctl.sched && !AnyGood(s.rx.wait, 0) && LastPlace(s) != 0
    ensures !AlwaysAttended(s)
  {
    var p := Moved(s, LastPlace(s));
    assert Sound(p);
    var es, m := Serve(p);
    MovedRun(p, es, m, 0);
    assert Moved(p, 0) == s;
    ServedIsOutOfStep(m);
    var fs, q := OutOfStepLoses(Moved(m, 0));
    Append(s, es, Moved(m, 0), fs, q);
  }

  // ---- when poll is scheduled ----

  /** The same ring and poll; the NIC, the age of the frames and the mask may differ. */
  ghost predicate Alike(q: Sys, q': Sys) {
    && q'.rx.ring == q.rx.ring && q'.rx.wait == q.rx.wait && q'.rx.total == q.rx.total
    && q'.rx.nic < N && q'.tx == q.tx && q'.ctl == q.ctl.(mask := q'.ctl.mask)
  }

  lemma AlikeStep(q: Sys, q': Sys, e: Step)
    requires Alike(q, q') && WellFormed(q) && Enabled(q, e) && PollStep(e)
    ensures WellFormed(q') && Enabled(q', e) && Alike(Next(q, e), Next(q', e))
    ensures Next(q', e).rx.nic == q'.rx.nic && Next(q', e).ctl.mask == q'.ctl.mask
  {
  }

  /** Poll does not look at NIC or mask. */
  lemma {:induction false} AlikeRun(p: Sys, p': Sys, es: seq<Step>, q: Sys) returns (q': Sys)
    requires Alike(p, p') && Run(p, es, q) && PollOnly(es)
    ensures Run(p', es, q') && Alike(q, q') && q'.rx.nic == p'.rx.nic && q'.ctl.mask == p'.ctl.mask
    decreases |es|
  {
    if es == [] {
      q' := p';
    } else {
      var fs, m, e := Last(p, es, q);
      var m' := AlikeRun(p, p', fs, m);
      assert PollStep(es[|fs|]);
      AlikeStep(m, m', e);
      Snoc(p', fs, m', e);
      q' := Next(m', e);
    }
  }

  /** Poll has done its work and is about to complete, with interrupts unmasked. */
  ghost predicate Exposed(m: Sys) {
    && WellFormed(m) && m.rx.nic == 0 && m.rx.ring.desc[0].own
    && m.rx.total.delivered == m.rx.ring.up.delivered
    && m.ctl == QUIET.(sched := true, pc := Completing)
  }

  lemma PolledExposed(s: Sys) returns (es: seq<Step>, m: Sys)
    requires Restarted(s) && s.ctl.sched
    ensures Run(s, es, m) && Exposed(m)
  {
    var p := s.(rx := s.rx.(nic := LastPlace(s), stale := |s.rx.wait|), ctl := BUSY);
    assert Sound(p);
    var q;
    es, q := ServePolled(p);
    AllPosted(q);
    m := AlikeRun(p, s, es, q);
  }

  lemma ExposedReceive(m: Sys)
    requires Exposed(m)
    ensures Enabled(m, NicReceive(FRAME))
    ensures Missed(m, Next(m, NicReceive(FRAME)), QUIET.(sched := true, pc := Completing, rxDue := true))
  {
  }

  /** The handler acknowledges the frame; its napi_schedule finds poll scheduled still. */
  lemma ExposedHandler(m: Sys, es: seq<Step>, q: Sys) returns (es': seq<Step>, q': Sys)
    requires WellFormed(m) && Run(m, es, q) && Missed(m, q, QUIET.(sched := true, pc := Completing, rxDue := true))
    ensures Run(m, es', q')
    ensures Missed(m, q', QUIET.(sched := true, pc := Completing, status := {RX_OK}, irq := Masked, mask := false))
  {
    var c := QUIET.(sched := true, pc := Completing);
    es', q' := Flags(m, es, q, LatchRx, c.(status := {RX_OK}));
    assert RX_OK in q'.ctl.status * EN_MASK && 1 in ALL_BITS;
    es', q' := Flags(m, es', q', IrqEnter, c.(status := {RX_OK}, irq := Mine));
    es', q' := Flags(m, es', q', IrqMask, c.(status := {RX_OK}, irq := Masked, mask := false));
  }

  lemma ExposedAck(m: Sys, es: seq<Step>, q: Sys) returns (es': seq<Step>, q': Sys)
    requires WellFormed(m) && Run(m, es, q)
    requires Missed(m, q, QUIET.(sched := true, pc := Completing, status := {RX_OK}, irq := Masked, mask := false))
    ensures Run(m, es', q') && Missed(m, q', BUSY.(pc := Completing))
  {
    var c := BUSY.(pc := Completing);
    es', q' := Flags(m, es, q, IrqRead, c.(status := {RX_OK}, irq := ReadBack({RX_OK})));
    es', q' := Flags(m, es', q', IrqAck, c.(irq := Acked));
    es', q' := Flags(m, es', q', IrqSchedule, c);
  }

  lemma ExposedEnd(m: Sys, es: seq<Step>, q: Sys) returns (es': seq<Step>, q': Sys)
    requires WellFormed(m) && Run(m, es, q) && Missed(m, q, BUSY.(pc := Completing))
    ensures Run(m, es', q') && Missed(m, q', QUIET)
  {
    es', q' := Flags(m, es, q, NapiComplete, QUIET.(mask := false, pc := Unmasking));
    es', q' := Flags(m, es', q', Unmask, QUIET);
  }

  lemma ExposedLoses(m: Sys) returns (es: seq<Step>, q: Sys)
    requires Exposed(m)
    ensures Run(m, es, q) && !Attended(q)
  {
    ExposedReceive(m);
    es, q := Take(m, [], m, NicReceive(FRAME));
    es, q := ExposedHandler(m, es, q);
    es, q := ExposedAck(m, es, q);
    es, q := ExposedEnd(m, es, q);
  }

  /** hw_init unmasks interrupts under a poll that is scheduled: a frame that comes between the drain
      loop and napi_complete is acknowledged and forgotten, wherever the NIC is. */
  lemma ScheduledLoses(s: Sys)
    requires Restarted(s) && s.ctl.sched
    ensures !AlwaysAttended(s)
  {
    var es, m := PolledExposed(s);
    var fs, q := ExposedLoses(m);
    Append(s, es, m, fs, q);
  }

  // ---- main result ----

  /** After hw_init, in every run whatever: every good frame is delivered in order or has someone
      coming for it, if and only if poll was not scheduled, no good frame was waiting, and the NIC
      stood at slot 0 already. The link-up path checks none of these. */
  lemma RestartAttendedIff(s: Sys)
    requires Restarted(s)
    ensures AlwaysAttended(s) <==> !s.ctl.sched && !AnyGood(s.rx.wait, 0) && LastPlace(s) == 0
  {
    if s.ctl.sched {
      ScheduledLoses(s);
    } else if AnyGood(s.rx.wait, 0) {
      WaitingForgotten(s);
    } else if LastPlace(s) != 0 {
      ElsewhereLoses(s);
    } else {
      InStepAttended(s);
    }
  }

  /** Such a link-up happens: from the state that open leaves, with the carrier still off, receive one
      bad frame, serve it, and restart the NIC. */
  lemma LinkUpLosesReachable(s: Sys, f: R.Frame) returns (es: seq<Step>, q: Sys)
    requires Start(s) && f.res
    ensures Run(s, es, q) && q.ctl == QUIET && q.rx.total.delivered == s.rx.total.delivered
    ensures Restarted(Moved(q, 0)) && !AlwaysAttended(Moved(q, 0))
  {
    StartIsSound(s);
    var fs, p := Take(s, [], s, NicReceive(f));
    StepKeepsSound(s, NicReceive(f));
    assert R.SlotOk(s.rx.ring, 0);
    assert p.rx.nic == 1 && p.ctl == QUIET && p.rx.total.delivered == s.rx.total.delivered;
    es, q := Serve(p);
    Append(s, fs, p, es, q);
    es := fs + es;
    RestartAttendedIff(Moved(q, 0));
  }

  /** In particular, with all slots posted: if and only if cur_rx selects slot 0. */
  lemma PostedRestartIff(s: Sys)
    requires Restarted(s) && s.rx.wait == []
    ensures AlwaysAttended(s) <==> !s.ctl.sched && s.rx.ring.cur % N == 0
  {
    RestartAttendedIff(s);
  }
}
