/** Link-down followed by link-up, with the NIC of NicWalk, which fills the ring in order: the driver
    can come to use a null buffer exactly when link-down finds a slot waiting for a buffer. */
module LinkDown {
  import opened Counters
  import opened NicWalk
  import opened PollMachine
  import opened Restart
  import R = RxRing
  import T = TxRing

  /** Just after the hw_init of link-up: the ring that link-down left, the NIC at slot 0. */
  ghost predicate LinkUp(s: Sys, r: R.Rx) {
    && s.rx.ring == R.ResetIndexes(r) && s.rx.nic == 0 && R.Wf(r)
    && TxAligned(s.tx.ring, 0, 0) && T.Count(s.tx.ring) == 0 && s.tx.nic == 0 && s.tx.done == 0
    && s.ctl == QUIET
  }

  ghost predicate CanFault(s: Sys) {
    exists es, q :: Run(s, es, q) && q.rx.ring.bus.faults > 0
  }

  // ---- a ring without a gap never faults, wherever the NIC is ----

  /** What poll knows of the ring without knowing where the NIC is. */
  ghost predicate PcFits(s: Sys)
    requires R.Wf(s.rx.ring)
  {
    var r := s.rx.ring;
    match s.ctl.pc
    case Draining(left, work, budget) => left <= N - R.Gap(r)
    case Filling(turns, work, budget) =>
      turns <= R.Gap(r) && forall j :: 0 <= j < turns ==> r.skb[Slot(r.dirty, j)].Some?
    case Reaping(left, work, budget) => left == T.Count(s.tx.ring)
    case _ => true
  }

  ghost predicate Unfaulted(s: Sys) {
    && R.Mapped(s.rx.ring) && R.Window(s.rx.ring) && s.rx.nic < N
    && TxAligned(s.tx.ring, s.tx.nic, s.tx.done)
    && PcFits(s)
  }

  lemma UnfaultedRx(s: Sys, e: Step)
    requires Unfaulted(s) && WellFormed(s) && Enabled(s, e)
    ensures R.Mapped(RxNext(s, e).ring) && R.Window(RxNext(s, e).ring) && RxNext(s, e).nic < N
  {
    var x := s.rx;
    match e
    case NicReceive(f) =>
      assert R.SlotOk(x.ring, x.nic);
      R.NicWriteKeeps(x.ring, x.nic, f);
    case DrainTurn => R.DrainOneKeeps(x.ring);
    case FillGrant(g) => R.RefillKeeps(x.ring, FillSlot(s), g);
    case FillEnd =>
      R.AdvanceKeepsWindow(x.ring, s.ctl.pc.turns);
      R.MappedIgnoresCounters(x.ring, x.ring.cur, Add(x.ring.dirty, s.ctl.pc.turns));
    case _ =>
  }

  lemma UnfaultedTx(s: Sys, e: Step)
    requires Unfaulted(s) && WellFormed(s) && Enabled(s, e)
    ensures TxAligned(TxNext(s, e).ring, TxNext(s, e).nic, TxNext(s, e).done)
    ensures e.ReapTurn? ==> T.Count(TxNext(s, e).ring) == T.Count(s.tx.ring) - 1
    ensures !e.ReapTurn? && !e.Xmit? ==> T.Count(TxNext(s, e).ring) == T.Count(s.tx.ring)
  {
    var x := s.tx;
    match e
    case NicSend => CompleteAligned(x.ring, x.nic, x.done);
    case Xmit(skb, addr) =>
      T.AvailIsRoom(x.ring);
      PostAligned(x.ring, x.nic, x.done, skb, addr);
    case ReapTurn => ReapAligned(x.ring, x.nic, x.done);
    case _ =>
  }

  /** Steps that leave poll where it is. */
  lemma FitsElsewhere(s: Sys, e: Step)
    requires Unfaulted(s) && WellFormed(s) && Enabled(s, e) && (Elsewhere(e) || e.NicReceive?)
    ensures PcFits(Next(s, e))
  {
    var q := Next(s, e);
    assert q.rx.ring.skb == s.rx.ring.skb && q.rx.ring.cur == s.rx.ring.cur && q.rx.ring.dirty == s.rx.ring.dirty;
    assert q.ctl.pc == s.ctl.pc;
    UnfaultedTx(s, e);
  }

  lemma FitsFill(s: Sys, e: Step)
    requires Unfaulted(s) && WellFormed(s) && Enabled(s, e) && (e.FillSkip? || e.FillGrant?)
    ensures PcFits(Next(s, e))
  {
    var q := Next(s, e);
    assert q.rx.ring.cur == s.rx.ring.cur && q.rx.ring.dirty == s.rx.ring.dirty;
    assert forall i :: 0 <= i < N && s.rx.ring.skb[i].Some? ==> q.rx.ring.skb[i].Some?;
    assert q.rx.ring.skb[FillSlot(s)].Some?;
  }

  lemma FitsPoll(s: Sys, e: Step)
    requires Unfaulted(s) && WellFormed(s) && Enabled(s, e)
    requires e.PollEnter? || e.DrainEnd? || e.FillEnd? || e.ReapEnd? || e.NapiComplete? || e.Unmask?
    ensures PcFits(Next(s, e))
  {
    RoomIsRest(s.rx.ring.cur, s.rx.ring.dirty);
  }

  lemma FitsTurn(s: Sys, e: Step)
    requires Unfaulted(s) && WellFormed(s) && Enabled(s, e) && (e.DrainTurn? || e.ReapTurn?)
    ensures PcFits(Next(s, e))
  {
    UnfaultedTx(s, e);
    if e.DrainTurn? { R.DrainOneKeeps(s.rx.ring); }
  }

  lemma UnfaultedPc(s: Sys, e: Step)
    requires Unfaulted(s) && WellFormed(s) && Enabled(s, e)
    ensures PcFits(Next(s, e))
  {
    if Elsewhere(e) || e.NicReceive? {
      FitsElsewhere(s, e);
    } else if e.FillSkip? || e.FillGrant? {
      FitsFill(s, e);
    } else if e.DrainTurn? || e.ReapTurn? {
      FitsTurn(s, e);
    } else {
      FitsPoll(s, e);
    }
  }

  lemma {:induction false} RunsStayUnfaulted(s: Sys, es: seq<Step>, q: Sys)
    requires Unfaulted(s) && Run(s, es, q)
    ensures Unfaulted(q)
    decreases |es|
  {
    if es == [] {
    } else {
      var fs, p, e := Last(s, es, q);
      RunsStayUnfaulted(s, fs, p);
      UnfaultedRx(p, e);
      UnfaultedTx(p, e);
      UnfaultedPc(p, e);
    }
  }

  lemma NoGapNoFault(s: Sys, r: R.Rx)
    requires R.Valid(r) && r.dirty == r.cur && LinkUp(s, r)
    ensures !CanFault(s)
  {
    R.ResetKeepsValidIff(r);
    forall es, q | Run(s, es, q) ensures q.rx.ring.bus.faults == 0 {
      RunsStayUnfaulted(s, es, q);
    }
  }

  // ---- a ring with a gap can fault ----

  const BAD: R.Frame := R.Frame([], false, true, false, false)

  /** A step that leaves the transmit side alone, with its effect spelled out. */
  lemma Spelled(p: Sys, es: seq<Step>, q: Sys, e: Step, x: RxSide, c: Ctl) returns (es': seq<Step>, q': Sys)
    requires Run(p, es, q) && WellFormed(q) && Enabled(q, e)
    requires x == RxNext(q, e) && R.Wf(x.ring) && x.nic < N && c == CtlNext(q, e) && TxNext(q, e) == q.tx
    ensures Run(p, es', q') && q' == Sys(x, q.tx, c) && WellFormed(q')
  {
    es', q' := Take(p, es, q, e);
  }

  /** Slot e has no buffer and is not the NIC's. */
  predicate Hole(r: R.Rx, e: nat)
    requires R.Wf(r) && e < N
  {
    r.skb[e].None? && !r.desc[e].own && !r.desc[e].res
  }

  predicate RingEnds(r: R.Rx)
    requires R.Wf(r)
  {
    forall i :: 0 <= i < N ==> r.desc[i].eor == (i == N - 1)
  }

  /** The driver has come to slot c on its way to the hole at e. The NIC is there too, or behind, and
      then it owns the slots between. */
  ghost predicate Walking(r: R.Rx, nic: nat, c: nat, e: nat) {
    && R.Wf(r) && c <= e < N && r.cur == c == r.dirty && nic <= c
    && (forall j :: nic <= j < c ==> r.desc[j].own)
    && Hole(r, e) && RingEnds(r)
  }

  /** As before, with slot c handed back by the NIC. */
  ghost predicate AtTurn(r: R.Rx, nic: nat, c: nat, e: nat) {
    && R.Wf(r) && c <= e < N && r.cur == c == r.dirty && nic <= c + 1 && nic < N
    && (forall j :: nic <= j < c ==> r.desc[j].own) && !r.desc[c].own
    && Hole(r, e) && RingEnds(r)
  }

  ghost predicate Waiting(p: Sys, es: seq<Step>, q: Sys) {
    Run(p, es, q) && WellFormed(q) && q.ctl == BUSY && T.Count(q.tx.ring) == 0
  }

  /** The NIC fills the slots from its own up to c. */
  lemma {:induction false} CatchUp(p: Sys, es: seq<Step>, q: Sys, c: nat, e: nat) returns (es': seq<Step>, q': Sys)
    requires Waiting(p, es, q) && Walking(q.rx.ring, q.rx.nic, c, e) && q.rx.ring.desc[c].own
    ensures Waiting(p, es', q') && AtTurn(q'.rx.ring, q'.rx.nic, c, e)
    decreases c - q.rx.nic
  {
    es', q' := Spelled(p, es, q, NicReceive(BAD), Received(q.rx, BAD), BUSY);
    if q.rx.nic < c {
      es', q' := CatchUp(p, es', q', c, e);
    }
  }

  /** One poll with a budget of one frame: enter, and drain slot c. */
  lemma DrainOneSlot(p: Sys, es: seq<Step>, q: Sys, c: nat, e: nat) returns (es': seq<Step>, q': Sys)
    requires Waiting(p, es, q) && AtTurn(q.rx.ring, q.rx.nic, c, e)
    ensures Run(p, es', q') && WellFormed(q') && q'.tx == q.tx
    ensures q'.rx == Drained(q.rx) && q'.ctl == BUSY.(pc := Draining(0, 1, 1))
  {
    assert Slot(q.rx.ring.cur, 0) == c;
    es', q' := Spelled(p, es, q, PollEnter(1), q.rx, BUSY.(pc := Draining(1, 0, 1)));
    es', q' := Spelled(p, es', q', DrainTurn, Drained(q.rx), BUSY.(pc := Draining(0, 1, 1)));
  }

  /** Draining the hole uses a null buffer; any other slot that is drained without harm is left with a
      buffer that is the NIC's again, or without one. */
  lemma DrainedSlot(r: R.Rx, nic: nat, c: nat, e: nat)
    requires AtTurn(r, nic, c, e)
    ensures var d := R.DrainOne(r);
            && (d.bus.faults > 0 || (c < e && (if d.skb[c].Some? then d.desc[c].own else true)))
            && d.cur == c + 1 && d.dirty == c
            && (forall j :: 0 <= j < N && j != c ==> d.desc[j] == r.desc[j] && d.skb[j] == r.skb[j])
            && d.desc[c].eor == r.desc[c].eor
  {
    assert Slot(r.cur, 0) == c;
  }

  /** The ring with slot c filled again. */
  ghost predicate Refilled(d: R.Rx, f: R.Rx, c: nat)
    requires R.Wf(d)
  {
    && R.Wf(f) && c < N && f.cur == d.cur && f.dirty == d.dirty && f.bus.faults == d.bus.faults
    && f.desc[c].own && f.desc[c].eor == d.desc[c].eor
    && (forall j :: 0 <= j < N && j != c ==> f.desc[j] == d.desc[j] && f.skb[j] == d.skb[j])
  }

  /** A turn of the fill loop at slot c. */
  lemma FillTurnEffect(q: Sys, c: nat) returns (e: Step, f: R.Rx)
    requires WellFormed(q) && q.ctl == BUSY.(pc := Filling(0, 1, 1))
    requires var d := q.rx.ring; c + 1 < N && d.cur == c + 1 && d.dirty == c && (d.skb[c].Some? ==> d.desc[c].own)
    ensures Enabled(q, e) && TxNext(q, e) == q.tx && CtlNext(q, e) == BUSY.(pc := Filling(1, 1, 1))
    ensures RxNext(q, e) == q.rx.(ring := f) && Refilled(q.rx.ring, f, c)
  {
    var d := q.rx.ring;
    assert Slot(d.dirty, 0) == c && R.Gap(d) == 1;
    if d.skb[c].Some? {
      e, f := FillSkip, d;
    } else {
      var g := SomeGrant(d);
      e, f := FillGrant(g), R.Refill(d, c, g);
    }
  }

  lemma RefillOneSlot(p: Sys, es: seq<Step>, q: Sys, c: nat) returns (es': seq<Step>, q': Sys, f: R.Rx)
    requires Run(p, es, q) && WellFormed(q) && q.ctl == BUSY.(pc := Draining(0, 1, 1))
    requires var d := q.rx.ring; c + 1 < N && d.cur == c + 1 && d.dirty == c && (d.skb[c].Some? ==> d.desc[c].own)
    ensures Run(p, es', q') && WellFormed(q') && q'.tx == q.tx && q'.ctl == BUSY.(pc := Filling(1, 1, 1))
    ensures Refilled(q.rx.ring, f, c) && q'.rx == q.rx.(ring := f)
  {
    var e: Step;
    es', q' := Spelled(p, es, q, DrainEnd, q.rx, BUSY.(pc := Filling(0, 1, 1)));
    e, f := FillTurnEffect(q', c);
    es', q' := Spelled(p, es', q', e, q.rx.(ring := f), BUSY.(pc := Filling(1, 1, 1)));
  }

  lemma FillEndEffect(q: Sys, c: nat)
    requires WellFormed(q) && T.Count(q.tx.ring) == 0
    requires q.ctl == BUSY.(pc := Filling(1, 1, 1)) && c + 1 < N && q.rx.ring.cur == c + 1 && q.rx.ring.dirty == c
    ensures Enabled(q, FillEnd) && TxNext(q, FillEnd) == q.tx
    ensures CtlNext(q, FillEnd) == BUSY.(pc := Reaping(0, 1, 1))
    ensures RxNext(q, FillEnd) == q.rx.(ring := q.rx.ring.(dirty := c + 1))
  {
    assert R.Gap(q.rx.ring) == 1 && Add(q.rx.ring.dirty, 1) == c + 1;
  }

  /** The poll comes to its end, and stays scheduled because it has used up its budget. */
  lemma EndPoll(p: Sys, es: seq<Step>, q: Sys, c: nat) returns (es': seq<Step>, q': Sys)
    requires Run(p, es, q) && WellFormed(q) && T.Count(q.tx.ring) == 0
    requires q.ctl == BUSY.(pc := Filling(1, 1, 1)) && c + 1 < N && q.rx.ring.cur == c + 1 && q.rx.ring.dirty == c
    ensures Waiting(p, es', q') && q'.rx == q.rx.(ring := q.rx.ring.(dirty := c + 1))
  {
    FillEndEffect(q, c);
    es', q' := Spelled(p, es, q, FillEnd, q.rx.(ring := q.rx.ring.(dirty := c + 1)), BUSY.(pc := Reaping(0, 1, 1)));
    es', q' := Spelled(p, es', q', ReapEnd, q'.rx, BUSY);
  }

  lemma WalkingOn(r: R.Rx, f: R.Rx, nic: nat, c: nat, e: nat)
    requires AtTurn(r, nic, c, e) && c < e && Refilled(R.DrainOne(r), f, c)
    ensures Walking(f.(dirty := c + 1), nic, c + 1, e)
  {
    DrainedSlot(r, nic, c, e);
  }

  /** One slot further, or a fault. */
  lemma OneSlot(p: Sys, es: seq<Step>, q: Sys, c: nat, e: nat) returns (es': seq<Step>, q': Sys)
    requires Waiting(p, es, q) && AtTurn(q.rx.ring, q.rx.nic, c, e)
    ensures Run(p, es', q')
    ensures q'.rx.ring.bus.faults > 0 || (c < e && Waiting(p, es', q') && Walking(q'.rx.ring, q'.rx.nic, c + 1, e))
  {
    DrainedSlot(q.rx.ring, q.rx.nic, c, e);
    es', q' := DrainOneSlot(p, es, q, c, e);
    if q'.rx.ring.bus.faults == 0 {
      var f: R.Rx;
      es', q', f := RefillOneSlot(p, es', q', c);
      WalkingOn(q.rx.ring, f, q.rx.nic, c, e);
      es', q' := EndPoll(p, es', q', c);
    }
  }

  lemma {:induction false} WalkToHole(p: Sys, es: seq<Step>, q: Sys, c: nat, e: nat) returns (es': seq<Step>, q': Sys)
    requires Waiting(p, es, q) && Walking(q.rx.ring, q.rx.nic, c, e)
    ensures Run(p, es', q') && q'.rx.ring.bus.faults > 0
    decreases e - c
  {
    es', q' := es, q;
    if q.rx.ring.desc[c].own {
      es', q' := CatchUp(p, es, q, c, e);
    }
    es', q' := OneSlot(p, es', q', c, e);
    if q'.rx.ring.bus.faults == 0 {
      es', q' := WalkToHole(p, es', q', c + 1, e);
    }
  }

  lemma FirstStepToHole(r: R.Rx, e: nat)
    requires R.Valid(r) && r.dirty != r.cur && e == Slot(r.dirty, 0)
    ensures Walking(R.ResetIndexes(r), 0, 0, e)
  {
    forall i | 0 <= i < N ensures r.desc[i].eor == (i == N - 1) { assert R.SlotOk(r, i); }
    assert R.SlotOk(r, e);
  }

  lemma Scheduled(s: Sys) returns (es: seq<Step>, q: Sys)
    requires WellFormed(s) && s.ctl == QUIET && T.Count(s.tx.ring) == 0
    ensures Waiting(s, es, q) && q.rx.ring == s.rx.ring && q.rx.nic == s.rx.nic
  {
    es, q := ServeEnter(s);
    es, q := ServeSchedule(s, es, q);
  }

  lemma GapFaults(s: Sys, r: R.Rx) returns (es: seq<Step>, q: Sys)
    requires R.Valid(r) && r.dirty != r.cur && LinkUp(s, r)
    ensures Run(s, es, q) && q.rx.ring.bus.faults > 0
  {
    var e := Slot(r.dirty, 0);
    FirstStepToHole(r, e);
    es, q := Scheduled(s);
    es, q := WalkToHole(s, es, q, 0, e);
  }

  /** Over every run after link-down and link-up, with the NIC in order from slot 0, reads and writes
      cut anywhere: the driver can use a null buffer or touch an address that is not mapped if and
      only if link-down found dirty_rx different from cur_rx. */
  lemma InOrderFaultsIff(s: Sys, r: R.Rx)
    requires R.Valid(r) && LinkUp(s, r)
    ensures CanFault(s) <==> r.dirty != r.cur
  {
    if r.dirty == r.cur {
      NoGapNoFault(s, r);
    } else {
      var es, q := GapFaults(s, r);
    }
  }
}
