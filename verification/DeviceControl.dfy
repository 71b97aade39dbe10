/** The control state of the RTL8101 driver: the transmit ring together with the queue,
    carrier, interrupt-mask, NAPI and reset-task flags that the handlers of net_stk.c and
    mac.c share. Each handler is one step; the NIC may complete any slot it owns at any time.
    The theorems at the end hold in every state that any sequence of such steps can reach. */
module DeviceControl {
  import opened Counters
  import opened Descriptors
  import opened TxRing

  /** RxDescUnavail | TxOK | RxOK | SWInt. */
  const INTR_EN_MASK: nat := 0x0115

  /** `maxFrags` is MAX_SKB_FRAGS, fixed when the kernel is built. */
  datatype Ctl = Ctl(maxFrags: nat, open: bool, carrier: bool, stopped: bool,
                     mask: nat, napi: bool, task: bool, tx: Tx)

  datatype Event =
    | Open | OpenFails | Close   // open fails when the Rx ring cannot be filled
    | Xmit(skb: Skb, addr: nat)
    | TxDone(slot: nat)
    | Irq
    | Poll(finished: bool)       // finished: work_done < budget
    | Link(up: bool)             // the link timer, and what the PHY says
    | ResetTask(refilled: bool)  // refilled: dirty_rx == cur_rx after the Rx pass
    | Timeout

  // ---- the handlers ----

  /** rtl8101_hw_init as far as the flags go; the queue is stopped at its start and started
      at its end. */
  function HwInit(d: Ctl): Ctl {
    d.(mask := INTR_EN_MASK, stopped := false)
  }

  function StartXmit(d: Ctl, skb: Skb, addr: nat): Ctl
    requires Wf(d.tx)
  {
    if Avail(d.tx) < skb.frags || d.tx.desc[Slot(d.tx.cur, 0)].own then
      d.(stopped := true, tx := Refuse(d.tx))
    else
      var t := Post(d.tx, skb, addr);
      d.(tx := t, stopped := if Avail(t) < d.maxFrags then true else d.stopped)
  }

  function TxInterrupt(d: Ctl): Ctl
    requires Wf(d.tx)
  {
    var t := Reap(d.tx);
    var wake := t.dirty != d.tx.dirty && d.stopped && Avail(t) >= d.maxFrags;
    d.(tx := t, stopped := d.stopped && !wake)
  }

  function PollStep(d: Ctl, finished: bool): Ctl
    requires Wf(d.tx)
  {
    var r := TxInterrupt(d);
    if finished then r.(napi := false, mask := INTR_EN_MASK) else r
  }

  function CheckLink(d: Ctl, up: bool): Ctl
    requires Wf(d.tx)
  {
    if d.carrier == up then d
    else if up then HwInit(d).(carrier := true)
    else d.(carrier := false, stopped := true, mask := 0, tx := Clear(d.tx))
  }

  /** napi_disable waits for a scheduled poll, so none is left when it returns. */
  function Reset(d: Ctl, refilled: bool): Ctl
    requires Wf(d.tx)
  {
    if !d.open then d.(task := false)
    else
      var r := d.(napi := false, mask := 0, tx := Clear(d.tx));
      if refilled then HwInit(r).(task := false) else r.(task := true)
  }

  function Opened(d: Ctl): Ctl {
    HwInit(d).(open := true, napi := false, task := false, tx := FreshRing(d.tx))
  }

  function Closed(d: Ctl): Ctl
    requires Wf(d.tx)
  {
    d.(open := false, napi := false, stopped := true, carrier := false, mask := 0, tx := Clear(d.tx))
  }

  function Next(d: Ctl, e: Event): (r: Ctl)
    requires Wf(d.tx)
    ensures Wf(r.tx) && r.maxFrags == d.maxFrags
  {
    match e
    case Open => Opened(d)
    case OpenFails => d.(tx := FreshRing(d.tx))
    case Close => if d.open then Closed(d) else d
    case Xmit(skb, addr) => StartXmit(d, skb, addr)
    case TxDone(i) => if i < N then d.(tx := Complete(d.tx, i)) else d
    case Irq => d.(mask := 0, napi := true)
    case Poll(finished) => PollStep(d, finished)
    case Link(up) => CheckLink(d, up)
    case ResetTask(refilled) => Reset(d, refilled)
    case Timeout => d.(mask := 0, task := true)
  }

  /** What kernel and NIC promise. The reset task may run at any time: close does not cancel it. */
  predicate Enabled(d: Ctl, e: Event)
    requires Wf(d.tx)
  {
    match e
    case Open => !d.open
    case OpenFails => !d.open
    case Close => d.open
    case Xmit(skb, addr) => d.open && d.carrier && !d.stopped && skb.frags <= d.maxFrags && 0 < skb.len < 0x4000
    case TxDone(i) => i < N && d.tx.desc[i].own
    case Irq => d.open && d.mask == INTR_EN_MASK
    case Poll(finished) => d.open && d.napi
    case Link(up) => d.open
    case ResetTask(refilled) => true
    case Timeout => d.open
  }

  predicate Clears(d: Ctl, e: Event) {
    match e
    case Close => d.open
    case Link(up) => d.carrier && !up
    case ResetTask(refilled) => d.open
    case _ => false
  }

  /** The step does not run tx_clear while there is something to clear and its loop bound wraps. */
  predicate ClearSafe(d: Ctl, e: Event) {
    Clears(d, e) ==> d.tx.dirty + N < U32 || Count(d.tx) == 0
  }

  // ---- the invariant ----

  ghost predicate RingSound(d: Ctl) {
    && 0 < d.maxFrags < N
    && Valid(d.tx)
    && Balanced(d.tx)
    && Count(d.tx) <= N - d.maxFrags
    && d.tx.refused == 0
    && (!d.carrier ==> d.tx.cur == 0 == d.tx.dirty)
    && (d.carrier ==> d.open)
  }

  predicate FlagsSound(d: Ctl) {
    && (d.open && d.carrier && !d.stopped ==> Avail(d.tx) >= d.maxFrags)
    && (d.open && d.stopped ==> Avail(d.tx) < d.maxFrags || !d.carrier || d.task)
    && (d.open ==> d.mask == INTR_EN_MASK || d.napi || d.task || !d.carrier)
    && (!d.open ==> d.stopped && d.mask == 0 && !d.napi)
  }

  ghost predicate Sound(d: Ctl) {
    RingSound(d) && FlagsSound(d)
  }

  function Initial(maxFrags: nat): Ctl {
    Ctl(maxFrags, false, false, true, 0, false, false,
        FreshRing(Tx(0, 0, [], [], 0, 0, 0, [], [], 0)))
  }

  lemma FreshRingSound(t: Tx)
    requires t.accepted == Released(t.freed)
    requires Accounts(t, [])
    ensures Valid(FreshRing(t)) && Balanced(FreshRing(t)) && Count(FreshRing(t)) == 0
    ensures forall i :: 0 <= i < N ==> FreshRing(t).desc[i].eor == (i == N - 1)
  {
    assert Posts(Fifo(FreshRing(t))) == [];
  }

  lemma XmitKeepsSound(d: Ctl, skb: Skb, addr: nat)
    requires Sound(d) && Enabled(d, Xmit(skb, addr))
    ensures Sound(StartXmit(d, skb, addr))
    ensures StartXmit(d, skb, addr).tx == Post(d.tx, skb, addr)
  {
    AvailIsRoom(d.tx);
    var n := Count(d.tx);
    AddSub(d.tx.cur, d.tx.dirty);
    AddMovesWindow(d.tx.dirty, n, 0);
    assert Free(d.tx, Slot(d.tx.dirty, n));
    PostAppends(d.tx, skb, addr);
    PostBalances(d.tx, skb, addr);
    AvailIsRoom(Post(d.tx, skb, addr));
  }

  lemma TxInterruptFlags(d: Ctl, r: Ctl, k: nat)
    requires Wf(d.tx) && Count(d.tx) < N && FlagsSound(d) && d.open && r == TxInterrupt(d)
    requires k <= Count(d.tx)
    requires r.tx.cur == d.tx.cur && r.tx.dirty == Add(d.tx.dirty, k)
    ensures FlagsSound(r)
  {
    SubAfterAdd(d.tx.cur, d.tx.dirty, k);
    AvailIsRoom(d.tx);
    AvailIsRoom(r.tx);
  }

  lemma TxInterruptKeepsSound(d: Ctl)
    requires Sound(d) && d.open
    ensures Sound(TxInterrupt(d))
  {
    ReapRemovesDonePrefix(d.tx);
    TxInterruptFlags(d, TxInterrupt(d), DonePrefix(Fifo(d.tx)));
  }

  lemma {:induction false} ClearNFields(t: Tx, k: nat)
    requires Wf(t)
    ensures ClearN(t, k).refused == t.refused && ClearN(t, k).accepted == t.accepted
  {
    if k == 0 {
    } else {
      ClearNFields(t, k - 1);
    }
  }

  lemma ClearsKeepSound(d: Ctl, e: Event)
    requires Sound(d) && Enabled(d, e) && Clears(d, e) && ClearSafe(d, e)
    ensures Sound(Next(d, e))
  {
    ClearBalances(d.tx);
    ClearEmptiesIff(d.tx);
    AvailIsRoom(Clear(d.tx));
    ClearNFields(d.tx, ClearTurns(d.tx.dirty));
  }

  /** Opening finds the ring empty. */
  lemma RefreshKeepsSound(d: Ctl)
    requires Sound(d) && !d.open
    ensures Sound(Next(d, Open)) && Sound(Next(d, OpenFails))
  {
    assert Posts(Fifo(d.tx)) == [];
    FreshRingSound(d.tx);
    AvailIsRoom(FreshRing(d.tx));
  }

  lemma StepKeepsSound(d: Ctl, e: Event)
    requires Sound(d) && Enabled(d, e) && ClearSafe(d, e)
    ensures Sound(Next(d, e))
  {
    AvailIsRoom(d.tx);
    if Clears(d, e) {
      ClearsKeepSound(d, e);
    } else {
      match e
      case Open => RefreshKeepsSound(d);
      case OpenFails => RefreshKeepsSound(d);
      case Xmit(skb, addr) => XmitKeepsSound(d, skb, addr);
      case TxDone(i) =>
        CompleteMarksDone(d.tx, i);
        CompleteBalances(d.tx, i);
      case Poll(finished) => TxInterruptKeepsSound(d);
      case _ =>
    }
  }

  // ---- whole runs ----

  function After(d: Ctl, es: seq<Event>): (r: Ctl)
    requires Wf(d.tx)
    ensures Wf(r.tx) && r.maxFrags == d.maxFrags
  {
    if es == [] then d else Next(After(d, es[..|es| - 1]), es[|es| - 1])
  }

  /** A run in which every step is enabled where it happens and tx_clear is never run in its
      overflow window with skbs in the ring. */
  predicate Legal(d: Ctl, es: seq<Event>)
    requires Wf(d.tx)
  {
    es == [] ||
    var n := |es| - 1;
    Legal(d, es[..n]) && Enabled(After(d, es[..n]), es[n]) && ClearSafe(After(d, es[..n]), es[n])
  }

  lemma {:induction false} RunsStaySound(d: Ctl, es: seq<Event>)
    requires Sound(d) && Legal(d, es)
    ensures Sound(After(d, es))
  {
    if es == [] {
    } else {
      var n := |es| - 1;
      RunsStaySound(d, es[..n]);
      StepKeepsSound(After(d, es[..n]), es[n]);
    }
  }

  lemma InitialSound(maxFrags: nat)
    requires 0 < maxFrags < N
    ensures Sound(Initial(maxFrags))
  {
    FreshRingSound(Tx(0, 0, [], [], 0, 0, 0, [], [], 0));
  }

  /** Flow control: whenever the stack may transmit there is room, so start_xmit posts the skb
      in a free slot and neither of its NETDEV_TX_BUSY branches is ever taken; TX_BUFFS_AVAIL
      never underflows and at most N - MAX_SKB_FRAGS skbs are in flight. */
  lemma FlowControl(maxFrags: nat, es: seq<Event>, skb: Skb, addr: nat)
    requires 0 < maxFrags < N && Legal(Initial(maxFrags), es)
    ensures var d := After(Initial(maxFrags), es);
            && d.tx.refused == 0
            && Count(d.tx) <= N - maxFrags
            && Avail(d.tx) == N - 1 - Count(d.tx)
            && (d.open && d.carrier && !d.stopped ==> Avail(d.tx) >= maxFrags)
            && (Enabled(d, Xmit(skb, addr)) ==>
                  && StartXmit(d, skb, addr).tx == Post(d.tx, skb, addr)
                  && !d.tx.desc[Slot(d.tx.cur, 0)].own)
  {
    var d := After(Initial(maxFrags), es);
    InitialSound(maxFrags);
    RunsStaySound(Initial(maxFrags), es);
    AvailIsRoom(d.tx);
    if Enabled(d, Xmit(skb, addr)) {
      XmitKeepsSound(d, skb, addr);
      assert Post(d.tx, skb, addr).refused == Refuse(d.tx).refused - 1;
    }
  }

  /** No stuck queue: a stopped queue of an open device waits for slots to be reaped, for the
      link, or for the reset task, each of which restarts it. */
  lemma NoStuckQueue(maxFrags: nat, es: seq<Event>)
    requires 0 < maxFrags < N && Legal(Initial(maxFrags), es)
    ensures var d := After(Initial(maxFrags), es);
            d.open && d.stopped ==> Avail(d.tx) < maxFrags || !d.carrier || d.task
  {
    InitialSound(maxFrags);
    RunsStaySound(Initial(maxFrags), es);
  }

  /** ... and the reaping that it waits for does wake it: once all in flight is done, a poll
      leaves the queue awake unless the link or the reset task is what it waits for. */
  lemma ReapingWakes(d: Ctl, finished: bool)
    requires Sound(d) && d.open && d.carrier && !d.task
    requires DonePrefix(Fifo(d.tx)) == Count(d.tx)
    ensures !PollStep(d, finished).stopped
  {
    TxInterruptKeepsSound(d);
    ReapRemovesDonePrefix(d.tx);
    AvailIsRoom(TxInterrupt(d).tx);
  }

  /** Interrupts are never masked with nobody left to unmask them. */
  lemma ReenableAgent(maxFrags: nat, es: seq<Event>)
    requires 0 < maxFrags < N && Legal(Initial(maxFrags), es)
    ensures var d := After(Initial(maxFrags), es);
            d.open ==> d.mask == INTR_EN_MASK || d.napi || d.task || !d.carrier
  {
    InitialSound(maxFrags);
    RunsStaySound(Initial(maxFrags), es);
  }

  /** The skbs offered by the transmissions of a run, with the addresses they were mapped at. */
  function Offered(es: seq<Event>): seq<Posted> {
    if es == [] then []
    else
      var n := |es| - 1;
      Offered(es[..n]) + if es[n].Xmit? then [Posted(es[n].skb, es[n].addr)] else []
  }

  lemma {:induction false} ReapNAccepted(t: Tx, k: nat)
    requires Wf(t)
    ensures ReapN(t, k).accepted == t.accepted
  {
    if k == 0 {
    } else {
      ReapNAccepted(t, k - 1);
    }
  }

  lemma ClearKeepsAccepted(t: Tx)
    requires Wf(t)
    ensures Clear(t).accepted == t.accepted && Reap(t).accepted == t.accepted
  {
    ClearNFields(t, ClearTurns(t.dirty));
    ReapNAccepted(t, ReapTurns(t, 0));
  }

  lemma OthersAcceptNothing(d: Ctl, e: Event)
    requires Wf(d.tx) && !e.Xmit?
    ensures Next(d, e).tx.accepted == d.tx.accepted
  {
    ClearKeepsAccepted(d.tx);
  }

  lemma AcceptedStep(d: Ctl, e: Event)
    requires Sound(d) && Enabled(d, e)
    ensures e.Xmit? ==> Next(d, e).tx.accepted == d.tx.accepted + [Posted(e.skb, e.addr)]
    ensures !e.Xmit? ==> Next(d, e).tx.accepted == d.tx.accepted
  {
    if e.Xmit? {
      XmitKeepsSound(d, e.skb, e.addr);
    } else {
      OthersAcceptNothing(d, e);
    }
  }

  /** Everything offered is accepted, in order. */
  lemma {:induction false} AcceptedAreOffered(maxFrags: nat, es: seq<Event>)
    requires 0 < maxFrags < N && Legal(Initial(maxFrags), es)
    ensures After(Initial(maxFrags), es).tx.accepted == Offered(es)
  {
    if es == [] {
    } else {
      var n := |es| - 1;
      AcceptedAreOffered(maxFrags, es[..n]);
      InitialSound(maxFrags);
      RunsStaySound(Initial(maxFrags), es[..n]);
      AcceptedStep(After(Initial(maxFrags), es[..n]), es[n]);
      assert !es[n].Xmit? ==> Offered(es) == Offered(es[..n]);
    }
  }

  /** Conservation: the skbs offered over the whole run are, in order, those freed (each once, reaped
      or cleared, and unmapped then at the address it was mapped at) followed by those still in the
      ring; tx_packets and tx_bytes count the reaped ones, tx_dropped the cleared ones. */
  lemma TxConservation(maxFrags: nat, es: seq<Event>)
    requires 0 < maxFrags < N && Legal(Initial(maxFrags), es)
    ensures var t := After(Initial(maxFrags), es).tx;
            && Valid(t)
            && Offered(es) == Released(t.freed) + Posts(Fifo(t))
            && t.packets == |ReapedOf(t.freed)|
            && t.bytes == Bytes(ReapedOf(t.freed))
            && t.dropped == |ClearedOf(t.freed)|
  {
    InitialSound(maxFrags);
    RunsStaySound(Initial(maxFrags), es);
    AcceptedAreOffered(maxFrags, es);
  }

  /** Slot i, which the NIC owns, carries post number k. */
  predicate CarriesPost(t: Tx, i: nat, posts: seq<Posted>, k: nat)
    requires Wf(t) && i < N
  {
    k < |posts| && t.desc[i] == TxPosted(i == N - 1, posts[k].skb.len, posts[k].addr)
  }

  lemma OwnedIsEntry(t: Tx, i: nat, posts: seq<Posted>)
    requires Valid(t) && i < N && t.desc[i].own && posts == Released(t.freed) + Posts(Fifo(t))
    ensures CarriesPost(t, i, posts, |t.freed| + Offset(t.dirty, i))
  {
    OwnedIsInFlight(t, i);
    WalkIsBijection(t.dirty, i, 0);
    var k := Offset(t.dirty, i);
    assert Holds(t, Slot(t.dirty, k));
    assert posts[|t.freed| + k] == Posts(Fifo(t))[k];
  }

  /** What the NIC finds: in every run, a slot it owns carries the address and length of one of the
      skbs offered, the one its place in the ring stands for, whole and with RingEnd at the last
      slot only. */
  lemma OwnedCarriesOffered(maxFrags: nat, es: seq<Event>, t: Tx, i: nat)
    requires 0 < maxFrags < N && Legal(Initial(maxFrags), es)
    requires t == After(Initial(maxFrags), es).tx && i < N && t.desc[i].own
    ensures CarriesPost(t, i, Offered(es), |t.freed| + Offset(t.dirty, i))
  {
    TxConservation(maxFrags, es);
    OwnedIsEntry(t, i, Offered(es));
  }

  // ---- the ring refines a queue ----

  /** The same events on a plain queue of entries. */
  ghost function QueueNext(q: seq<Entry>, d: Ctl, e: Event): seq<Entry>
    requires |q| == Count(d.tx)
  {
    match e
    case Xmit(skb, addr) => q + [Entry(Posted(skb, addr), false)]
    case TxDone(i) =>
      var k := Offset(d.tx.dirty, i);
      if k < |q| then q[k := q[k].(done := true)] else q
    case Poll(finished) => q[DonePrefix(q)..]
    case _ => if Clears(d, e) then [] else q
  }

  /** Over every step the ring is the queue: slot (dirty + k) mod N holds its k-th oldest entry
      and all other slots are empty and not the NIC's (Valid), whatever the counters' values. */
  lemma RingRefinesQueue(d: Ctl, e: Event)
    requires Sound(d) && Enabled(d, e) && ClearSafe(d, e)
    ensures Valid(Next(d, e).tx)
    ensures Fifo(Next(d, e).tx) == QueueNext(Fifo(d.tx), d, e)
  {
    StepKeepsSound(d, e);
    match e
    case Xmit(skb, addr) =>
      XmitKeepsSound(d, skb, addr);
      PostAppends(d.tx, skb, addr);
    case TxDone(i) => CompleteMarksDone(d.tx, i);
    case Poll(finished) => ReapRemovesDonePrefix(d.tx);
    case _ =>
      if Clears(d, e) { ClearEmptiesIff(d.tx); }
  }

  /** Exactly when a clearing step leaves a ring that fits its counters. */
  lemma ClearingKeepsRingIff(d: Ctl, e: Event)
    requires Sound(d) && Enabled(d, e) && Clears(d, e)
    ensures Valid(Next(d, e).tx) <==> ClearSafe(d, e)
  {
    ClearEmptiesIff(d.tx);
  }

  /** What the overflow window does to a running device, at every counter value in it: the reset
      task frees nothing and resets the counters to slot 0, and the next transmission is refused
      if and only if the NIC still owns that slot. */
  lemma OverflowingClearRefuses(d: Ctl, skb: Skb, addr: nat)
    requires Sound(d) && d.open && d.tx.dirty + N >= U32 && skb.frags < N
    ensures var r := Next(d, ResetTask(true));
            && r.tx == d.tx.(cur := 0, dirty := 0)
            && (StartXmit(r, skb, addr).tx.refused == d.tx.refused + 1 <==> d.tx.desc[0].own)
            && (!d.tx.desc[0].own ==> StartXmit(r, skb, addr).tx == Post(r.tx, skb, addr))
  {
    ClearEmptiesIff(d.tx);
    AvailIsRoom(Next(d, ResetTask(true)).tx);
  }

  // ---- start_xmit cut in two ----

  /** Uncut, start_xmit is this submission at the slot of cur_tx. */
  lemma XmitIsSubmit(d: Ctl, skb: Skb, addr: nat)
    requires Wf(d.tx)
    ensures StartXmit(d, skb, addr).tx == SubmitAt(d.tx, Slot(d.tx.cur, 0), skb, addr)
  {
  }

  lemma ReapKeepsSlot(t: Tx)
    requires Valid(t)
    ensures Valid(Reap(t)) && Reap(t).cur == t.cur && Count(Reap(t)) <= Count(t)
  {
    ReapRemovesDonePrefix(t);
    SubAfterAdd(t.cur, t.dirty, DonePrefix(Fifo(t)));
  }

  /** The steps that may come in between without clearing the ring reap it, complete a slot, or leave
      it alone. */
  lemma UnclearedTx(d: Ctl, e: Event)
    requires Wf(d.tx) && d.open && Enabled(d, e) && !Clears(d, e) && !e.Xmit?
    ensures Next(d, e).tx == match e
                             case Poll(finished) => Reap(d.tx)
                             case TxDone(i) => Complete(d.tx, i)
                             case _ => d.tx
  {
  }

  lemma UnclearedKeepsSlot(d: Ctl, e: Event)
    requires Valid(d.tx) && d.open && Enabled(d, e) && !Clears(d, e) && !e.Xmit?
    ensures var t := Next(d, e).tx;
            t.cur == d.tx.cur && Valid(t) && Count(t) <= Count(d.tx)
  {
    UnclearedTx(d, e);
    if e.Poll? {
      ReapKeepsSlot(d.tx);
    } else if e.TxDone? {
      CompleteMarksDone(d.tx, e.slot);
    }
  }

  lemma ClearedRing(d: Ctl, e: Event)
    requires Sound(d) && Enabled(d, e) && Clears(d, e) && ClearSafe(d, e)
    ensures var t := Next(d, e).tx;
            t.cur == 0 == t.dirty && Valid(t) && Avail(t) == N - 1 && AllFree(t)
  {
    ClearEmptiesIff(d.tx);
    AvailIsRoom(Next(d, e).tx);
  }

  /** The race itself: start_xmit picks the slot of cur_tx, then any other step of handlers or NIC
      happens, then it takes the lock and goes on. The ring stays consistent if and only if that
      step was not one that clears the ring, or cur_tx selected slot 0 anyway. */
  lemma RacingXmitIff(d: Ctl, e: Event, skb: Skb, addr: nat)
    requires Sound(d) && Enabled(d, Xmit(skb, addr))
    requires Enabled(d, e) && ClearSafe(d, e) && !e.Xmit?
    ensures Valid(SubmitAt(Next(d, e).tx, Slot(d.tx.cur, 0), skb, addr)) <==> !Clears(d, e) || d.tx.cur % N == 0
  {
    var t := Next(d, e).tx;
    if Clears(d, e) {
      ClearedRing(d, e);
      assert Free(t, Slot(d.tx.cur, 0));
    } else {
      UnclearedKeepsSlot(d, e);
      AvailIsRoom(d.tx);
    }
    StaleSlotBreaksRingIff(t, Slot(d.tx.cur, 0), skb, addr);
  }

  // ---- restarting the NIC ----

  /** The steps that end with hw_init, which puts the NIC back to slot 0. */
  predicate Restarts(d: Ctl, e: Event) {
    match e
    case Open => true
    case Link(up) => up && !d.carrier
    case ResetTask(refilled) => d.open && refilled
    case _ => false
  }

  lemma ValidAndEmpty(t: Tx)
    requires Valid(t) && t.cur == 0 == t.dirty
    ensures AllFree(t) && Fifo(t) == []
  {
    forall i | 0 <= i < N ensures Free(t, i) {
      assert i == Slot(t.dirty, i);
    }
  }

  /** In every run, whenever the NIC is put back to slot 0 the transmit counters are at slot 0 too
      and no slot is in use: unlike the receive side, the transmit side restarts in step. */
  lemma TxRestartsInStep(maxFrags: nat, es: seq<Event>, e: Event)
    requires 0 < maxFrags < N && Legal(Initial(maxFrags), es)
    requires var d := After(Initial(maxFrags), es); Enabled(d, e) && ClearSafe(d, e) && Restarts(d, e)
    ensures var t := Next(After(Initial(maxFrags), es), e).tx;
            t.cur == 0 == t.dirty && Valid(t) && Fifo(t) == [] && AllFree(t)
  {
    var d := After(Initial(maxFrags), es);
    InitialSound(maxFrags);
    RunsStaySound(Initial(maxFrags), es);
    StepKeepsSound(d, e);
    ValidAndEmpty(Next(d, e).tx);
  }
}
