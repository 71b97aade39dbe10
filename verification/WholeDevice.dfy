/** The whole RTL8101 device: DeviceControl (flags and transmit ring) and RxRing side by side, with
    one call per handler of the driver and one per NIC write. The methods of Driver.dfy perform
    these calls in place. */
module WholeDevice {
  import opened Counters
  import C = DeviceControl
  import P = PollMachine
  import R = RxRing
  import T = TxRing

  datatype Dev = Dev(c: C.Ctl, r: R.Rx)

  datatype Call =
    | Open(gs: seq<R.Grant>)
    | Close
    | Xmit(skb: T.Skb, addr: nat)
    | TxDone(slot: nat)
    | RxDone(slot: nat, frame: R.Frame)
    | Irq
    | Poll(budget: Word32, gs: seq<R.Grant>)
    | Link(up: bool)
    | ResetTask(gs: seq<R.Grant>)
    | Timeout

  predicate Wf(d: Dev) {
    T.Wf(d.c.tx) && R.Wf(d.r)
  }

  /** Whether open can fill the Rx ring. */
  predicate Fills(r: R.Rx, gs: seq<R.Grant>) {
    R.FillTurns(R.Blank(r), 0, N, gs, 0) == N
  }

  /** The frames one pass of rtl8101_rx_interrupt looks at. */
  function Work(r: R.Rx, budget: Word32): nat
    requires R.Wf(r)
  {
    R.DrainTurns(r, 0, R.Budgeted(r, budget))
  }

  /** The Rx pass of the reset task. */
  function FullPass(r: R.Rx, gs: seq<R.Grant>): (q: R.Rx)
    requires R.Wf(r)
    ensures R.Wf(q)
  {
    R.Interrupt(r, U32 - 1, gs)
  }

  function CtlEvent(d: Dev, e: Call): C.Event
    requires Wf(d) && !e.RxDone?
  {
    match e
    case Open(gs) => if Fills(d.r, gs) then C.Open else C.OpenFails
    case Close => C.Close
    case Xmit(skb, addr) => C.Xmit(skb, addr)
    case TxDone(i) => C.TxDone(i)
    case Irq => C.Irq
    case Poll(budget, gs) => C.Poll(Work(d.r, budget) < budget)
    case Link(up) => C.Link(up)
    case ResetTask(gs) => var q := FullPass(d.r, gs); C.ResetTask(q.dirty == q.cur)
    case Timeout => C.Timeout
  }

  /** What a call does to flags and transmit ring. */
  function CtlNext(d: Dev, e: Call): (c: C.Ctl)
    requires Wf(d)
    ensures T.Wf(c.tx)
  {
    match e
    case RxDone(i, f) => d.c
    case _ => C.Next(d.c, CtlEvent(d, e))
  }

  /** What it does to the receive ring. */
  function RxNext(d: Dev, e: Call): (q: R.Rx)
    requires Wf(d)
    ensures R.Wf(q)
  {
    match e
    case Open(gs) =>
      var q := R.Fill(R.Blank(d.r), 0, N, gs);
      if Fills(d.r, gs) then q else R.FreeN(q, N)
    case Close => if d.c.open then R.FreeN(d.r, N) else d.r
    case RxDone(i, f) => if i < N then R.NicWrite(d.r, i, f) else d.r
    case Poll(budget, gs) => R.Interrupt(d.r, budget, gs)
    case Link(up) => if d.c.carrier && !up then R.ResetIndexes(d.r) else d.r
    case ResetTask(gs) => if d.c.open then R.GuardedReset(FullPass(d.r, gs)) else d.r
    case _ => d.r
  }

  function Next(d: Dev, e: Call): (q: Dev)
    requires Wf(d)
    ensures Wf(q)
  {
    Dev(CtlNext(d, e), RxNext(d, e))
  }

  /** What kernel, NIC and allocator promise. */
  ghost predicate Enabled(d: Dev, e: Call)
    requires Wf(d)
  {
    && (!e.RxDone? ==> C.Enabled(d.c, CtlEvent(d, e)))
    && match e
       case Open(gs) => R.FreshGrants(R.Blank(d.r), gs)
       case RxDone(i, f) => d.c.open && i < N && d.r.desc[i].own
       case Poll(budget, gs) => R.FreshGrants(d.r, gs)
       case ResetTask(gs) => R.FreshGrants(d.r, gs)
       case _ => true
  }

  /** The two hypotheses of the code: tx_clear does not meet its overflow window with skbs in the
      ring, and link-down finds every Rx slot refilled. */
  predicate Safe(d: Dev, e: Call)
    requires Wf(d)
  {
    && (!e.RxDone? ==> C.ClearSafe(d.c, CtlEvent(d, e)))
    && (e.Link? && d.c.carrier && !e.up ==> d.r.dirty == d.r.cur)
  }

  // ---- the invariant ----

  ghost predicate RxSound(open: bool, r: R.Rx) {
    R.Booked(r.up) && if open then R.Valid(r) else r.bus.dma == map[] && r.bus.faults == 0
  }

  /** Flags and transmit ring are sound; while open the Rx ring is valid, and while closed nothing is
      mapped; nothing has gone wrong on the bus. */
  ghost predicate Inv(d: Dev) {
    Wf(d) && C.Sound(d.c) && RxSound(d.c.open, d.r)
  }

  ghost predicate Initial(d: Dev, maxFrags: nat) {
    Wf(d) && d.c == C.Initial(maxFrags) && d.r.bus == R.Bus(map[], map[], 0) && d.r.up == R.Up([], 0, 0, 0, 0, 0)
  }

  lemma OpenKeepsRx(d: Dev, gs: seq<R.Grant>)
    requires Wf(d) && RxSound(false, d.r) && R.FreshGrants(R.Blank(d.r), gs)
    ensures RxSound(Fills(d.r, gs), RxNext(d, Open(gs)))
  {
    R.FillBlankMapped(d.r, gs);
    R.FailedOpenBalances(d.r, gs);
    var q := R.Fill(R.Blank(d.r), 0, N, gs);
    R.FillNUp(R.Blank(d.r), 0, R.FillTurns(R.Blank(d.r), 0, N, gs, 0), gs);
    R.FreeNUp(q, N);
  }

  lemma ResetKeepsRx(r: R.Rx, gs: seq<R.Grant>)
    requires R.Valid(r) && R.FreshGrants(r, gs) && R.Booked(r.up)
    ensures R.Valid(R.GuardedReset(FullPass(r, gs))) && R.Booked(FullPass(r, gs).up)
  {
    R.InterruptBooked(r, U32 - 1, gs);
    R.InterruptKeepsValid(r, U32 - 1, gs);
    R.ResetKeepsValidIff(FullPass(r, gs));
  }

  predicate OpenAfter(d: Dev, e: Call)
    requires Wf(d)
  {
    match e
    case Open(gs) => Fills(d.r, gs) || d.c.open
    case Close => false
    case _ => d.c.open
  }

  lemma OpenAfterIs(d: Dev, e: Call)
    requires Wf(d)
    ensures CtlNext(d, e).open == OpenAfter(d, e)
  {
  }

  lemma RxKept(d: Dev, e: Call)
    requires Wf(d) && RxSound(d.c.open, d.r) && Enabled(d, e) && Safe(d, e) && (d.c.carrier ==> d.c.open)
    ensures RxSound(OpenAfter(d, e), RxNext(d, e))
  {
    match e
    case Open(gs) => OpenKeepsRx(d, gs);
    case Close =>
      R.ClearUnmapsAll(d.r);
      R.FreeNUp(d.r, N);
    case RxDone(i, f) => R.NicWriteKeepsValid(d.r, i, f);
    case Poll(budget, gs) =>
      R.InterruptKeepsValid(d.r, budget, gs);
      R.InterruptBooked(d.r, budget, gs);
    case Link(up) => if d.c.carrier && !up { R.ResetKeepsValidIff(d.r); }
    case ResetTask(gs) => if d.c.open { ResetKeepsRx(d.r, gs); }
    case _ =>
  }

  lemma StepKeepsInv(d: Dev, e: Call)
    requires Inv(d) && Enabled(d, e) && Safe(d, e)
    ensures Inv(Next(d, e))
  {
    if !e.RxDone? { C.StepKeepsSound(d.c, CtlEvent(d, e)); }
    OpenAfterIs(d, e);
    RxKept(d, e);
  }

  // What single calls amount to.

  lemma XmitIs(d: Dev, skb: T.Skb, addr: nat, c: C.Ctl)
    requires Wf(d) && c == C.StartXmit(d.c, skb, addr)
    ensures Dev(c, d.r) == Next(d, Xmit(skb, addr))
  {
  }

  lemma PollIs(d: Dev, budget: Word32, gs: seq<R.Grant>, q: Dev)
    requires Wf(d) && q.c == C.PollStep(d.c, Work(d.r, budget) < budget) && q.r == R.Interrupt(d.r, budget, gs)
    ensures q == Next(d, Poll(budget, gs))
  {
  }

  lemma LinkIs(d: Dev, up: bool, q: Dev)
    requires Wf(d) && q.c == C.CheckLink(d.c, up)
    requires q.r == if d.c.carrier && !up then R.ResetIndexes(d.r) else d.r
    ensures q == Next(d, Link(up))
  {
  }

  lemma ResetIs(d: Dev, gs: seq<R.Grant>, q: Dev)
    requires Wf(d) && q.c == C.Reset(d.c, FullPass(d.r, gs).dirty == FullPass(d.r, gs).cur)
    requires q.r == if d.c.open then R.GuardedReset(FullPass(d.r, gs)) else d.r
    ensures q == Next(d, ResetTask(gs))
  {
  }

  lemma OpenIs(d: Dev, gs: seq<R.Grant>, q: Dev)
    requires Wf(d) && q.r == RxNext(d, Open(gs))
    requires q.c == if Fills(d.r, gs) then C.Opened(d.c) else d.c.(tx := T.FreshRing(d.c.tx))
    ensures q == Next(d, Open(gs))
  {
  }

  /** q is what a call made of d, and keeps the invariant where it should. */
  ghost predicate Keeps(d: Dev, e: Call, q: Dev) {
    && Wf(d)
    && (Inv(d) && Enabled(d, e) && Safe(d, e) ==> Inv(q))
  }

  lemma NextKeeps(d: Dev, e: Call)
    requires Wf(d)
    ensures Keeps(d, e, Next(d, e))
  {
    if Inv(d) && Enabled(d, e) && Safe(d, e) { StepKeepsInv(d, e); }
  }

  // ---- whole runs ----

  ghost function After(d: Dev, es: seq<Call>): (q: Dev)
    requires Wf(d)
    ensures Wf(q)
  {
    if es == [] then d else Next(After(d, es[..|es| - 1]), es[|es| - 1])
  }

  ghost predicate Legal(d: Dev, es: seq<Call>)
    requires Wf(d)
  {
    es == [] ||
    var n := |es| - 1;
    Legal(d, es[..n]) && Enabled(After(d, es[..n]), es[n]) && Safe(After(d, es[..n]), es[n])
  }

  lemma {:induction false} RunsKeepInv(d: Dev, es: seq<Call>)
    requires Inv(d) && Legal(d, es)
    ensures Inv(After(d, es))
  {
    if es == [] {
    } else {
      var n := |es| - 1;
      RunsKeepInv(d, es[..n]);
      StepKeepsInv(After(d, es[..n]), es[n]);
    }
  }

  /** From registration on, over every sequence of handlers and NIC writes, opens that fail and
      reopens included: both rings and the flags are sound; no null buffer is used and nothing is
      unmapped or written that is not mapped; while closed nothing is mapped. */
  lemma DeviceStaysSound(d: Dev, maxFrags: nat, es: seq<Call>)
    requires Initial(d, maxFrags) && 0 < maxFrags < N && Legal(d, es)
    ensures var q := After(d, es);
            && C.Sound(q.c) && q.r.bus.faults == 0
            && (q.c.open ==> R.Valid(q.r)) && R.Booked(q.r.up)
            && (!q.c.open ==> q.r.bus.dma == map[])
  {
    C.InitialSound(maxFrags);
    RunsKeepInv(d, es);
  }

  /** A successful open leaves driver and NIC in step on both rings: from there on, until the next
      hw_reset, the results of PollMachine hold. */
  lemma OpenStartsInStep(d: Dev, maxFrags: nat, es: seq<Call>, gs: seq<R.Grant>)
    requires Initial(d, maxFrags) && 0 < maxFrags < N && Legal(d, es)
    requires var p := After(d, es); Enabled(p, Open(gs)) && Fills(p.r, gs)
    ensures var q := Next(After(d, es), Open(gs));
            P.Start(P.Sys(P.RxSide(q.r, 0, [], 0, q.r.up), P.TxSide(q.c.tx, 0, 0), P.QUIET))
  {
    DeviceStaysSound(d, maxFrags, es);
    var p := After(d, es);
    P.OpenIsStart(p.r, p.c.tx, gs);
    R.FillPostsAll(p.r, N, gs);
  }
}
