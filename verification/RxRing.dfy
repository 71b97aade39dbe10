/** The receive ring of net_stk.c: `cur_rx`, `dirty_rx`, `rx_skbuff[]`, `RxDescArray[]` and the
    DMA mappings behind the descriptors. As for the transmit ring, the operations are functions
    on ring values; class `RxBuffer` in RxRingBuffer.dfy performs them in place. */
module RxRing {
  import opened Common
  import opened Counters
  import opened Descriptors

  /** What the NIC puts into a slot: the bytes of a frame (without the four CRC bytes that the
      length in opts1 includes) and its error bits. */
  datatype Frame = Frame(bytes: seq<nat>, rwt: bool, res: bool, runt: bool, crc: bool)

  /** A live DMA mapping: the skb whose buffer it reaches, and the slot it was made for. */
  datatype Mapping = Mapping(skb: nat, slot: nat)

  /** One successful allocation: a fresh skb, and the bus address pci_map_single gave it. */
  datatype Grant = Grant(skb: nat, addr: nat)

  /** `dma` holds the live mappings, `mem` the contents of skb buffers. `faults` counts what must
      never happen: a null skb used, an address unmapped that is not mapped, a DMA write to an
      address that is not mapped. */
  datatype Bus = Bus(dma: map<nat, Mapping>, mem: map<nat, seq<nat>>, faults: nat)

  /** What has gone up the stack (`delivered`: the frames), and the device statistics. */
  datatype Up = Up(delivered: seq<seq<nat>>, packets: nat, bytes: int,
                   errors: nat, lengthErrors: nat, crcErrors: nat)

  datatype Rx = Rx(cur: Word32, dirty: Word32, desc: seq<Desc>, skb: seq<Option<nat>>, bus: Bus, up: Up)

  predicate Wf(r: Rx) {
    |r.desc| == N && |r.skb| == N
  }

  /** The slots processed but not yet refilled. */
  function Gap(r: Rx): Word32 {
    Sub(r.cur, r.dirty)
  }

  // ---- operations ----

  function Unmap(b: Bus, addr: nat): Bus {
    if addr in b.dma then b.(dma := b.dma - {addr}) else b.(faults := b.faults + 1)
  }

  /** The NIC fills slot i: it writes the buffer that the descriptor's address reaches, then
      hands the descriptor back, keeping RingEnd. */
  function NicWrite(r: Rx, i: nat, f: Frame): (q: Rx)
    requires Wf(r) && i < N
    ensures Wf(q)
  {
    var d := r.desc[i].(own := false, first := true, last := true,
                        rwt := f.rwt, res := f.res, runt := f.runt, crc := f.crc,
                        size := |f.bytes| + 4);
    var a, b := r.desc[i].addr, r.bus;
    r.(desc := r.desc[i := d],
       bus := if a in b.dma then b.(mem := b.mem[b.dma[a].skb := f.bytes]) else b.(faults := b.faults + 1))
  }

  /** The good-frame branch of rtl8101_rx_interrupt's loop, at slot e. It is a fault to use a null
      skb, or to hand up bytes that the NIC has not written. */
  function Deliver(r: Rx, e: nat): (q: Rx)
    requires Wf(r) && e < N
    ensures Wf(q) && q.cur == r.cur && q.dirty == r.dirty
  {
    var pktSize := r.desc[e].size - 4;
    if r.skb[e].None? || r.skb[e].value !in r.bus.mem || !(0 <= pktSize <= |r.bus.mem[r.skb[e].value]|) then
      r.(bus := r.bus.(faults := r.bus.faults + 1))
    else
      r.(skb := r.skb[e := None],
         bus := Unmap(r.bus, r.desc[e].addr),
         up := r.up.(delivered := r.up.delivered + [r.bus.mem[r.skb[e].value][..pktSize]],
                     packets := r.up.packets + 1,
                     bytes := r.up.bytes + pktSize))
  }

  /** The error branch: count, and give the same buffer back to the NIC. */
  function Recycle(r: Rx, e: nat): (q: Rx)
    requires Wf(r) && e < N
    ensures Wf(q) && q.cur == r.cur && q.dirty == r.dirty
  {
    var d := r.desc[e];
    r.(desc := r.desc[e := MarkToAsic(d)],
       up := r.up.(errors := r.up.errors + 1,
                   lengthErrors := r.up.lengthErrors + if d.rwt || d.runt then 1 else 0,
                   crcErrors := r.up.crcErrors + if d.crc then 1 else 0))
  }

  /** One turn of the loop past the DescOwn test. */
  function DrainOne(r: Rx): (q: Rx)
    requires Wf(r)
    ensures Wf(q) && q.cur == Add(r.cur, 1) && q.dirty == r.dirty
  {
    var e := Slot(r.cur, 0);
    (if r.desc[e].res then Recycle(r, e) else Deliver(r, e)).(cur := Add(r.cur, 1))
  }

  function DrainN(r: Rx, k: nat): (q: Rx)
    requires Wf(r)
    ensures Wf(q) && q.dirty == r.dirty
  {
    if k == 0 then r else DrainOne(DrainN(r, k - 1))
  }

  function DrainTurns(r: Rx, j: nat, left: nat): (n: nat)
    requires Wf(r)
    ensures n <= left
    decreases left
  {
    if left == 0 || r.desc[Slot(r.cur, j)].own then 0 else 1 + DrainTurns(r, j + 1, left - 1)
  }

  /** The loop stops at the first slot the NIC owns, or at the limit. */
  lemma {:induction false} DrainTurnsStopsAtOwned(r: Rx, j: nat, left: nat)
    requires Wf(r)
    ensures var n := DrainTurns(r, j, left);
            && (forall m :: j <= m < j + n ==> !r.desc[Slot(r.cur, m)].own)
            && (n < left ==> r.desc[Slot(r.cur, j + n)].own)
    decreases left
  {
    if left == 0 || r.desc[Slot(r.cur, j)].own {
    } else {
      DrainTurnsStopsAtOwned(r, j + 1, left - 1);
    }
  }

  lemma {:induction false} DrainTurnsIs(r: Rx, j: nat, left: nat, n: nat)
    requires Wf(r) && n <= left
    requires forall m :: j <= m < j + n ==> !r.desc[Slot(r.cur, m)].own
    requires n < left ==> r.desc[Slot(r.cur, j + n)].own
    ensures DrainTurns(r, j, left) == n
    decreases left
  {
    if n == 0 {
    } else {
      assert !r.desc[Slot(r.cur, j)].own;
      DrainTurnsIs(r, j + 1, left - 1, n - 1);
    }
  }

  /** rtl8101_alloc_rx_skb at slot i, once it has its skb and mapping. */
  function Refill(r: Rx, i: nat, g: Grant): (q: Rx)
    requires Wf(r) && i < N
    ensures Wf(q) && q.cur == r.cur && q.dirty == r.dirty
  {
    r.(skb := r.skb[i := Some(g.skb)],
       bus := r.bus.(dma := r.bus.dma[g.addr := Mapping(g.skb, i)]),
       desc := r.desc[i := MarkToAsic(r.desc[i].(addr := g.addr))])
  }

  /** The empty slots among the first k after `start`. */
  function Used(r: Rx, start: Word32, k: nat): (n: nat)
    requires Wf(r)
    ensures n <= k
  {
    if k == 0 then 0 else
      Used(r, start, k - 1) + if r.skb[Slot(start, k - 1)].None? then 1 else 0
  }

  /** k turns of rtl8101_rx_fill's loop from `start`, with the allocations `gs`. */
  function FillN(r: Rx, start: Word32, k: nat, gs: seq<Grant>): (q: Rx)
    requires Wf(r) && Used(r, start, k) <= |gs|
    ensures Wf(q) && q.cur == r.cur && q.dirty == r.dirty
  {
    if k == 0 then r else
      var q := FillN(r, start, k - 1, gs);
      var i := Slot(start, k - 1);
      if r.skb[i].Some? then q else Refill(q, i, gs[Used(r, start, k - 1)])
  }

  /** The loop ends after `count` turns, or at an empty slot when the allocations run out. */
  function FillTurns(r: Rx, start: Word32, count: nat, gs: seq<Grant>, j: nat): (n: nat)
    requires Wf(r) && j <= count && Used(r, start, j) <= |gs|
    ensures j <= n <= count && Used(r, start, n) <= |gs|
    ensures n < count ==> r.skb[Slot(start, n)].None? && Used(r, start, n) == |gs|
    decreases count - j
  {
    if j == count || (r.skb[Slot(start, j)].None? && Used(r, start, j) == |gs|) then j
    else FillTurns(r, start, count, gs, j + 1)
  }

  function Fill(r: Rx, start: Word32, count: nat, gs: seq<Grant>): Rx
    requires Wf(r)
  {
    FillN(r, start, FillTurns(r, start, count, gs, 0), gs)
  }

  /** The frames the loop of rtl8101_rx_interrupt may look at. */
  function Budgeted(r: Rx, budget: Word32): nat {
    Min((N + r.dirty - r.cur) % U32, budget)
  }

  function Drain(r: Rx, budget: Word32): (q: Rx)
    requires Wf(r)
    ensures Wf(q)
  {
    DrainN(r, DrainTurns(r, 0, Budgeted(r, budget)))
  }

  /** rtl8101_rx_interrupt: drain, then refill what has been drained. */
  function Interrupt(r: Rx, budget: Word32, gs: seq<Grant>): (q: Rx)
    requires Wf(r)
    ensures Wf(q)
  {
    var d := Drain(r, budget);
    Fill(d, d.dirty, Gap(d), gs).(dirty := Add(d.dirty, FillTurns(d, d.dirty, Gap(d), gs, 0)))
  }

  /** rtl8101_free_rx_skb. */
  function FreeSlot(r: Rx, i: nat): (q: Rx)
    requires Wf(r) && i < N
    ensures Wf(q)
  {
    if r.skb[i].None? then r else
      r.(skb := r.skb[i := None], bus := Unmap(r.bus, r.desc[i].addr),
         desc := r.desc[i := MakeUnusable(r.desc[i])])
  }

  function FreeN(r: Rx, k: nat): (q: Rx)
    requires Wf(r) && k <= N
    ensures Wf(q)
  {
    if k == 0 then r else FreeSlot(FreeN(r, k - 1), k - 1)
  }

  /** rtl8101_init_ring_indexes. */
  function ResetIndexes(r: Rx): Rx {
    r.(cur := 0, dirty := 0)
  }

  /** The reset task resets the indexes only if no slot is waiting for a buffer. */
  function GuardedReset(r: Rx): Rx {
    if r.dirty == r.cur then ResetIndexes(r) else r
  }

  // ---- ownership and mapping balance ----

  /** A slot with an skb has that skb mapped at its descriptor's address, and if the NIC has
      handed back a good frame its length is that of the buffer's contents; a slot without an
      skb is not the NIC's. Only the last slot carries RingEnd. */
  predicate SlotOk(r: Rx, i: nat)
    requires Wf(r) && i < N
  {
    var d := r.desc[i];
    && d.eor == (i == N - 1)
    && match r.skb[i]
       case None => !d.own && !d.res
       case Some(s) =>
         && d.addr in r.bus.dma && r.bus.dma[d.addr] == Mapping(s, i)
         && (!d.own && !d.res ==> s in r.bus.mem && d.size == |r.bus.mem[s]| + 4)
  }

  predicate MappingOk(r: Rx, a: nat)
    requires Wf(r) && a in r.bus.dma
  {
    var m := r.bus.dma[a];
    m.slot < N && r.skb[m.slot] == Some(m.skb) && r.desc[m.slot].addr == a
  }

  /** No skb sits in two slots. */
  ghost predicate Distinct(r: Rx)
    requires Wf(r)
  {
    forall i, j :: 0 <= i < j < N && r.skb[i].Some? ==> r.skb[i] != r.skb[j]
  }

  ghost predicate Mapped(r: Rx) {
    && Wf(r)
    && r.bus.faults == 0
    && Distinct(r)
    && (forall i :: 0 <= i < N ==> SlotOk(r, i))
    && (forall a :: a in r.bus.dma ==> MappingOk(r, a))
  }

  /** Window safety: the slots from cur up to dirty + N have buffers. */
  ghost predicate Window(r: Rx)
    requires Wf(r)
  {
    && Gap(r) <= N
    && (forall k :: Gap(r) <= k < N ==> r.skb[Slot(r.dirty, k)].Some?)
  }

  /** Between handlers, a ring that is not full starts its gap with an empty slot. */
  predicate Settled(r: Rx)
    requires Wf(r)
  {
    Gap(r) != 0 ==> r.skb[Slot(r.dirty, 0)].None?
  }

  ghost predicate Valid(r: Rx) {
    Mapped(r) && Window(r) && Settled(r)
  }

  /** The skbs and addresses the allocator hands out are not in use. */
  predicate FreshGrant(r: Rx, g: Grant) {
    g.addr !in r.bus.dma && Some(g.skb) !in r.skb
  }

  ghost predicate FreshGrants(r: Rx, gs: seq<Grant>) {
    && (forall n :: 0 <= n < |gs| ==> FreshGrant(r, gs[n]))
    && (forall m, n :: 0 <= m < n < |gs| ==> gs[m].skb != gs[n].skb && gs[m].addr != gs[n].addr)
  }

  lemma NicWriteKeeps(r: Rx, i: nat, f: Frame)
    requires Mapped(r) && i < N && r.desc[i].own
    ensures Mapped(NicWrite(r, i, f))
    ensures NicWrite(r, i, f).skb == r.skb
  {
    var q := NicWrite(r, i, f);
    assert SlotOk(r, i);
    forall j | 0 <= j < N ensures SlotOk(q, j) {
      assert SlotOk(r, j);
    }
  }

  lemma DeliverKeeps(r: Rx, e: nat)
    requires Mapped(r) && e < N && r.skb[e].Some? && !r.desc[e].own && !r.desc[e].res
    ensures Mapped(Deliver(r, e))
    ensures Deliver(r, e).up.delivered == r.up.delivered + [r.bus.mem[r.skb[e].value]]
  {
    var q := Deliver(r, e);
    assert SlotOk(r, e);
    assert r.bus.mem[r.skb[e].value][..r.desc[e].size - 4] == r.bus.mem[r.skb[e].value];
    forall j | 0 <= j < N ensures SlotOk(q, j) {
      assert SlotOk(r, j);
    }
    forall a | a in q.bus.dma ensures MappingOk(q, a) {
      assert MappingOk(r, a);
    }
  }

  // The statistics of what has gone up the stack.

  function Lengths(fs: seq<seq<nat>>): nat {
    if fs == [] then 0 else Lengths(fs[..|fs| - 1]) + |fs[|fs| - 1]|
  }

  /** rx_packets and rx_bytes count and sum up the frames delivered. */
  predicate Booked(u: Up) {
    u.packets == |u.delivered| && u.bytes == Lengths(u.delivered)
  }

  lemma DrainOneBooked(r: Rx)
    requires Wf(r) && Booked(r.up)
    ensures Booked(DrainOne(r).up)
  {
    var d, e := r.up.delivered, DrainOne(r).up.delivered;
    if e != d { assert e[..|d|] == d; }
  }

  lemma {:induction false} DrainNBooked(r: Rx, k: nat)
    requires Wf(r) && Booked(r.up)
    ensures Booked(DrainN(r, k).up)
  {
    if k == 0 {
    } else {
      DrainNBooked(r, k - 1);
      DrainOneBooked(DrainN(r, k - 1));
    }
  }

  lemma {:induction false} FillNUp(r: Rx, start: Word32, k: nat, gs: seq<Grant>)
    requires Wf(r) && Used(r, start, k) <= |gs|
    ensures FillN(r, start, k, gs).up == r.up
  {
    if k == 0 {
    } else {
      FillNUp(r, start, k - 1, gs);
    }
  }

  lemma {:induction false} FreeNUp(r: Rx, k: nat)
    requires Wf(r) && k <= N
    ensures FreeN(r, k).up == r.up
  {
    if k == 0 {
    } else {
      FreeNUp(r, k - 1);
    }
  }

  lemma InterruptBooked(r: Rx, budget: Word32, gs: seq<Grant>)
    requires Wf(r) && Booked(r.up)
    ensures Booked(Interrupt(r, budget, gs).up)
  {
    DrainNBooked(r, DrainTurns(r, 0, Budgeted(r, budget)));
    var d := Drain(r, budget);
    FillNUp(d, d.dirty, FillTurns(d, d.dirty, Gap(d), gs, 0), gs);
  }

  lemma RecycleKeeps(r: Rx, e: nat)
    requires Mapped(r) && e < N && r.skb[e].Some?
    ensures Mapped(Recycle(r, e))
  {
    var q := Recycle(r, e);
    forall j | 0 <= j < N ensures SlotOk(q, j) {
      assert SlotOk(r, j);
    }
    forall a | a in q.bus.dma ensures MappingOk(q, a) {
      assert MappingOk(r, a);
    }
  }

  lemma MappedIgnoresCounters(r: Rx, c: Word32, d: Word32)
    requires Mapped(r)
    ensures Mapped(r.(cur := c, dirty := d))
  {
    var q := r.(cur := c, dirty := d);
    forall i | 0 <= i < N ensures SlotOk(q, i) { assert SlotOk(r, i); }
    forall a | a in q.bus.dma ensures MappingOk(q, a) { assert MappingOk(r, a); }
  }

  /** One turn of the drain loop: it never meets a null buffer, and window and mappings stay. */
  lemma DrainOneKeeps(r: Rx)
    requires Mapped(r) && Window(r) && Gap(r) < N && !r.desc[Slot(r.cur, 0)].own
    ensures r.skb[Slot(r.cur, 0)].Some?
    ensures Mapped(DrainOne(r)) && Window(DrainOne(r))
    ensures Gap(DrainOne(r)) == Gap(r) + 1
  {
    var e := Slot(r.cur, 0);
    AddSub(r.cur, r.dirty);
    AddMovesWindow(r.dirty, Gap(r), 0);
    assert e == Slot(r.dirty, Gap(r));
    assert SlotOk(r, e);
    AddThenSub(r.cur, r.dirty, 1);
    if r.desc[e].res { RecycleKeeps(r, e); } else { DeliverKeeps(r, e); }
    var q := DrainOne(r);
    forall k | Gap(q) <= k < N ensures q.skb[Slot(q.dirty, k)].Some? {
      if Slot(r.dirty, k) == e { WalkIsInjective(r.dirty, k, Gap(r)); }
    }
    MappedIgnoresCounters(if r.desc[e].res then Recycle(r, e) else Deliver(r, e), q.cur, q.dirty);
  }

  lemma RefillKeeps(r: Rx, i: nat, g: Grant)
    requires Mapped(r) && i < N && r.skb[i].None? && FreshGrant(r, g)
    ensures Mapped(Refill(r, i, g))
  {
    var q := Refill(r, i, g);
    forall j | 0 <= j < N ensures SlotOk(q, j) {
      assert SlotOk(r, j);
      assert r.skb[j] in r.skb;
    }
    forall a | a in q.bus.dma ensures MappingOk(q, a) {
      if a != g.addr { assert MappingOk(r, a); }
    }
    forall j, k | 0 <= j < k < N && q.skb[j].Some? ensures q.skb[j] != q.skb[k] {
      assert r.skb[j] in r.skb && r.skb[k] in r.skb;
    }
  }

  lemma DrainOneFrame(p: Rx, c: Word32, k: nat)
    requires Wf(p) && k < N && Slot(p.cur, 0) == Slot(c, k)
    ensures forall j :: k < j < N ==> DrainOne(p).desc[Slot(c, j)] == p.desc[Slot(c, j)]
  {
    forall j | k < j < N ensures Slot(c, j) != Slot(c, k) {
      if Slot(c, j) == Slot(c, k) { WalkIsInjective(c, j, k); }
    }
  }

  /** Turns of the drain loop do not disturb the slots they have not reached. */
  lemma {:induction false} DrainNFrame(r: Rx, k: nat)
    requires Wf(r) && k <= N
    ensures DrainN(r, k).cur == Add(r.cur, k)
    ensures forall j :: k <= j < N ==> DrainN(r, k).desc[Slot(r.cur, j)] == r.desc[Slot(r.cur, j)]
  {
    if k == 0 {
    } else {
      DrainNFrame(r, k - 1);
      AddAdd(r.cur, k - 1, 1);
      AddMovesWindow(r.cur, k - 1, 0);
      DrainOneFrame(DrainN(r, k - 1), r.cur, k - 1);
    }
  }

  lemma DrainNReaches(r: Rx, k: nat)
    requires Wf(r) && k < N
    ensures var q := DrainN(r, k);
            q.cur % N == Slot(r.cur, k) && q.desc[q.cur % N] == r.desc[q.cur % N]
  {
    DrainNFrame(r, k);
    AddMovesWindow(r.cur, k, 0);
  }

  lemma {:induction false} DrainNKeeps(r: Rx, k: nat)
    requires Mapped(r) && Window(r) && k <= N - Gap(r)
    requires forall j :: 0 <= j < k ==> !r.desc[Slot(r.cur, j)].own
    ensures Mapped(DrainN(r, k)) && Window(DrainN(r, k))
    ensures Gap(DrainN(r, k)) == Gap(r) + k
  {
    if k == 0 {
    } else {
      var p := DrainN(r, k - 1);
      assert !p.desc[Slot(p.cur, 0)].own by { DrainNReaches(r, k - 1); }
      DrainNKeeps(r, k - 1);
      DrainOneKeeps(p);
    }
  }

  /** Turns of the fill loop do not disturb the slots they have not reached. */
  lemma {:induction false} FillNFrame(r: Rx, start: Word32, k: nat, gs: seq<Grant>, j: nat)
    requires Wf(r) && k <= j < N && Used(r, start, k) <= |gs|
    ensures FillN(r, start, k, gs).skb[Slot(start, j)] == r.skb[Slot(start, j)]
  {
    if k == 0 {
    } else {
      FillNFrame(r, start, k - 1, gs, j);
      if Slot(start, j) == Slot(start, k - 1) { WalkIsInjective(start, j, k - 1); }
    }
  }

  /** What k turns of the fill loop have made of ring r: the first k slots have buffers, the
      others are as before, and the allocations from number u on are still fresh. */
  ghost predicate Filled(r: Rx, q: Rx, start: Word32, k: nat, gs: seq<Grant>, u: nat)
    requires Wf(r)
  {
    && Mapped(q)
    && (forall j :: 0 <= j < k && j < N ==> q.skb[Slot(start, j)].Some?)
    && (forall j :: k <= j < N ==> q.skb[Slot(start, j)] == r.skb[Slot(start, j)])
    && (forall j :: 0 <= j < N && r.skb[j].Some? ==> q.skb[j] == r.skb[j] && q.desc[j] == r.desc[j])
    && (forall n :: u <= n < |gs| ==> FreshGrant(q, gs[n]))
  }

  lemma FillOneFills(r: Rx, p: Rx, q: Rx, start: Word32, k: nat, gs: seq<Grant>, u: nat)
    requires Wf(r) && Filled(r, p, start, k, gs, u) && FreshGrants(r, gs) && k < N
    requires r.skb[Slot(start, k)].None? ==> u < |gs| && q == Refill(p, Slot(start, k), gs[u])
    requires r.skb[Slot(start, k)].Some? ==> q == p
    ensures Filled(r, q, start, k + 1, gs, if r.skb[Slot(start, k)].None? then u + 1 else u)
  {
    var i := Slot(start, k);
    forall j | 0 <= j < N && j != k ensures Slot(start, j) != i {
      if Slot(start, j) == i { WalkIsInjective(start, j, k); }
    }
    if r.skb[i].None? { RefillKeeps(p, i, gs[u]); }
  }

  lemma {:induction false} FillNFills(r: Rx, start: Word32, k: nat, gs: seq<Grant>) returns (q: Rx)
    requires Mapped(r) && FreshGrants(r, gs) && k <= N && Used(r, start, k) <= |gs|
    ensures q == FillN(r, start, k, gs)
    ensures Filled(r, q, start, k, gs, Used(r, start, k))
  {
    if k == 0 {
      q := r;
    } else {
      var u, i := Used(r, start, k - 1), Slot(start, k - 1);
      var p := FillNFills(r, start, k - 1, gs);
      q := if r.skb[i].Some? then p else Refill(p, i, gs[u]);
      FillOneFills(r, p, q, start, k - 1, gs, u);
    }
  }

  /** Advancing dirty over slots that have buffers keeps the window. */
  lemma AdvanceKeepsWindow(r: Rx, n: nat)
    requires Wf(r) && Window(r) && n <= Gap(r)
    requires forall j :: 0 <= j < n ==> r.skb[Slot(r.dirty, j)].Some?
    ensures Window(r.(dirty := Add(r.dirty, n)))
    ensures Gap(r.(dirty := Add(r.dirty, n))) == Gap(r) - n
  {
    var q := r.(dirty := Add(r.dirty, n));
    SubAfterAdd(r.cur, r.dirty, n);
    forall k | Gap(q) <= k < N ensures q.skb[Slot(q.dirty, k)].Some? {
      AddMovesWindow(r.dirty, n, k);
      if n + k >= N {
        ModShift(r.dirty + (n + k - N), 1);
        assert Slot(r.dirty, n + k) == Slot(r.dirty, n + k - N);
      }
    }
  }

  lemma FillAdvances(d: Rx, gs: seq<Grant>)
    requires Mapped(d) && Window(d) && FreshGrants(d, gs)
    ensures var n := FillTurns(d, d.dirty, Gap(d), gs, 0);
            Valid(Fill(d, d.dirty, Gap(d), gs).(dirty := Add(d.dirty, n)))
  {
    var n := FillTurns(d, d.dirty, Gap(d), gs, 0);
    var f := FillNFills(d, d.dirty, n, gs);
    AdvanceKeepsWindow(f, n);
    MappedIgnoresCounters(f, f.cur, Add(d.dirty, n));
    if n < Gap(d) {
      AddMovesWindow(d.dirty, n, 0);
    }
  }

  lemma BudgetedIsWindow(r: Rx, budget: Word32)
    requires Gap(r) <= N
    ensures Budgeted(r, budget) == Min(N - Gap(r), budget)
  {
  }

  /** A pass keeps within its budget; and if it does not use it up, it has looked at all of the window
      or has stopped at a slot the NIC owns. */
  lemma PassStops(r: Rx, budget: Word32)
    requires Wf(r) && Gap(r) <= N
    ensures var n := DrainTurns(r, 0, Budgeted(r, budget));
            && n <= budget && n <= N - Gap(r)
            && (n < budget ==> n == N - Gap(r) || r.desc[Slot(r.cur, n)].own)
  {
    BudgetedIsWindow(r, budget);
    DrainTurnsStopsAtOwned(r, 0, Budgeted(r, budget));
  }

  lemma {:induction false} FreshAfterDrain(r: Rx, k: nat, gs: seq<Grant>)
    requires Wf(r) && FreshGrants(r, gs)
    ensures FreshGrants(DrainN(r, k), gs)
  {
    if k == 0 {
    } else {
      FreshAfterDrain(r, k - 1, gs);
      var p, q := DrainN(r, k - 1), DrainN(r, k);
      forall n | 0 <= n < |gs| ensures FreshGrant(q, gs[n]) {
        assert FreshGrant(p, gs[n]);
      }
    }
  }

  /** rtl8101_rx_interrupt keeps the ring valid for every budget, however many frames are bad
      and however many allocations fail; in particular it uses no null buffer and unmaps only
      what is mapped (no faults), and the fill loop ends. */
  lemma InterruptKeepsValid(r: Rx, budget: Word32, gs: seq<Grant>)
    requires Valid(r) && FreshGrants(r, gs)
    ensures Valid(Interrupt(r, budget, gs))
  {
    BudgetedIsWindow(r, budget);
    var k := DrainTurns(r, 0, Budgeted(r, budget));
    DrainTurnsStopsAtOwned(r, 0, Budgeted(r, budget));
    DrainNKeeps(r, k);
    FreshAfterDrain(r, k, gs);
    FillAdvances(DrainN(r, k), gs);
  }

  lemma NicWriteKeepsValid(r: Rx, i: nat, f: Frame)
    requires Valid(r) && i < N && r.desc[i].own
    ensures Valid(NicWrite(r, i, f))
  {
    NicWriteKeeps(r, i, f);
  }

  /** Resetting the indexes of a valid ring keeps it valid exactly when no slot is waiting for
      a buffer. The reset task tests this first; the link-down path does not. */
  lemma ResetKeepsValidIff(r: Rx)
    requires Valid(r)
    ensures Valid(ResetIndexes(r)) <==> r.dirty == r.cur
  {
    if r.dirty == r.cur {
      MappedIgnoresCounters(r, 0, 0);
      forall i | 0 <= i < N ensures ResetIndexes(r).skb[Slot(0, i)].Some? {
        WalkIsBijection(r.dirty, i, 0);
        assert r.skb[Slot(r.dirty, Offset(r.dirty, i))].Some?;
      }
    } else {
      var i := Slot(r.dirty, 0);
      assert r.skb[i].None? && Slot(0, i) == i;
    }
  }

  // ---- what an unguarded reset leads to ----

  lemma {:induction false} DrainNKeepsSkbs(r: Rx, k: nat)
    requires Wf(r) && k <= N
    ensures forall j :: k <= j < N ==> DrainN(r, k).skb[Slot(r.cur, j)] == r.skb[Slot(r.cur, j)]
  {
    if k == 0 {
    } else {
      DrainNKeepsSkbs(r, k - 1);
      DrainNReaches(r, k - 1);
      SlotsDiffer(r.cur, k - 1);
    }
  }

  lemma {:induction false} DrainNFaultsGrow(r: Rx, k: nat, n: nat)
    requires Wf(r) && k <= n
    ensures DrainN(r, n).bus.faults >= DrainN(r, k).bus.faults
    decreases n
  {
    if n == k {
    } else {
      DrainNFaultsGrow(r, k, n - 1);
    }
  }

  lemma {:induction false} FillNFaults(r: Rx, start: Word32, k: nat, gs: seq<Grant>)
    requires Wf(r) && Used(r, start, k) <= |gs|
    ensures FillN(r, start, k, gs).bus.faults == r.bus.faults
  {
    if k == 0 {
    } else {
      FillNFaults(r, start, k - 1, gs);
    }
  }

  lemma NullSlotFaults(q: Rx, e: nat)
    requires Wf(q) && q.cur == 0 && e < N && q.skb[e].None? && !q.desc[e].res
    ensures DrainN(q, e + 1).bus.faults > 0
  {
    assert Slot(q.cur, e) == e;
    DrainNReaches(q, e);
    DrainNKeepsSkbs(q, e);
    assert DrainN(q, e + 1) == DrainOne(DrainN(q, e));
  }

  /** The drain loop started at slot 0 uses the null buffer of slot e when all slots up to there
      have been handed back. */
  lemma InterruptFaults(q: Rx, e: nat, budget: Word32, gs: seq<Grant>)
    requires Wf(q) && q.cur == 0 == q.dirty && e < N && e < budget
    requires forall i :: 0 <= i <= e ==> !q.desc[i].own
    requires q.skb[e].None? && !q.desc[e].res
    ensures Interrupt(q, budget, gs).bus.faults > 0
  {
    var n := DrainTurns(q, 0, Budgeted(q, budget));
    assert n > e by {
      DrainTurnsStopsAtOwned(q, 0, Budgeted(q, budget));
      assert forall m :: 0 <= m < N ==> Slot(q.cur, m) == m;
    }
    NullSlotFaults(q, e);
    DrainNFaultsGrow(q, e + 1, n);
    var d := DrainN(q, n);
    FillNFaults(d, d.dirty, FillTurns(d, d.dirty, Gap(d), gs, 0), gs);
  }

  // ---- opening and closing ----

  /** rtl8101_init_buffers up to the fill. */
  function Blank(r: Rx): (q: Rx)
    ensures Wf(q)
  {
    r.(cur := 0, dirty := 0, skb := seq(N, i => None),
       desc := seq(N, i => if i == N - 1 then ZERO.(eor := true) else ZERO))
  }

  /** init_buffers, however many allocations succeed. */
  lemma FillBlankMapped(r: Rx, gs: seq<Grant>)
    requires r.bus.dma == map[] && r.bus.faults == 0 && FreshGrants(Blank(r), gs)
    ensures Mapped(Fill(Blank(r), 0, N, gs))
    ensures FillTurns(Blank(r), 0, N, gs, 0) == N ==> Valid(Fill(Blank(r), 0, N, gs))
  {
    var b := Blank(r);
    assert Mapped(b);
    var n := FillTurns(b, 0, N, gs, 0);
    var q := FillNFills(b, 0, n, gs);
  }

  lemma {:induction false} BlankUsesAll(r: Rx, k: nat)
    requires k <= N
    ensures Used(Blank(r), 0, k) == k
  {
    if k == 0 {
    } else {
      BlankUsesAll(r, k - 1);
    }
  }

  /** With N allocations it succeeds. */
  lemma FillFromBlank(r: Rx, gs: seq<Grant>)
    requires r.bus.dma == map[] && r.bus.faults == 0 && FreshGrants(Blank(r), gs) && |gs| == N
    ensures FillTurns(Blank(r), 0, N, gs, 0) == N
    ensures Valid(Fill(Blank(r), 0, N, gs))
  {
    BlankUsesAll(r, FillTurns(Blank(r), 0, N, gs, 0));
    FillBlankMapped(r, gs);
  }

  /** rtl8101_rx_clear unmaps everything that is still mapped, each mapping once. */
  lemma ClearUnmapsAll(r: Rx)
    requires Mapped(r)
    ensures FreeN(r, N).bus.dma == map[] && FreeN(r, N).bus.faults == 0
  {
    FreeNKeeps(r, N);
    var q := FreeN(r, N);
    forall a ensures a !in q.bus.dma {
    }
  }

  lemma {:induction false} FillPostsAll(r: Rx, k: nat, gs: seq<Grant>)
    requires k <= N && Used(Blank(r), 0, k) <= |gs|
    ensures var q := FillN(Blank(r), 0, k, gs);
            q.up == r.up && forall i :: 0 <= i < k ==> q.desc[i].own
  {
    if k == 0 {
    } else {
      FillPostsAll(r, k - 1, gs);
      assert Slot(0, k - 1) == k - 1;
    }
  }

  /** With fewer it takes back what it has mapped: no mapping is left over. */
  lemma FailedOpenBalances(r: Rx, gs: seq<Grant>)
    requires r.bus.dma == map[] && r.bus.faults == 0 && FreshGrants(Blank(r), gs)
    ensures FreeN(Fill(Blank(r), 0, N, gs), N).bus.dma == map[]
    ensures FreeN(Fill(Blank(r), 0, N, gs), N).bus.faults == 0
  {
    FillBlankMapped(r, gs);
    ClearUnmapsAll(Fill(Blank(r), 0, N, gs));
  }

  lemma FreeSlotKeeps(r: Rx, e: nat)
    requires Mapped(r) && e < N
    ensures Mapped(FreeSlot(r, e))
    ensures FreeSlot(r, e).skb == r.skb[e := None]
  {
    var q := FreeSlot(r, e);
    assert SlotOk(r, e);
    forall j | 0 <= j < N ensures SlotOk(q, j) {
      assert SlotOk(r, j);
    }
    forall a | a in q.bus.dma ensures MappingOk(q, a) {
      assert MappingOk(r, a);
    }
  }

  /** Freeing slots 0..k: exactly the mappings of those slots are gone. */
  lemma {:induction false} FreeNKeeps(r: Rx, k: nat)
    requires Mapped(r) && k <= N
    ensures var q := FreeN(r, k);
            && Mapped(q)
            && (forall i :: 0 <= i < k ==> q.skb[i].None?)
  {
    if k == 0 {
    } else {
      FreeNKeeps(r, k - 1);
      FreeSlotKeeps(FreeN(r, k - 1), k - 1);
    }
  }

  // ---- whole runs of the handlers that touch the ring ----

  /** The NIC may fill any slot it owns, in any order, at any time. `Reopen` is close followed
      by an open that succeeds. */
  datatype Event =
    | Dma(slot: nat, frame: Frame)
    | Service(budget: Word32, gs: seq<Grant>)
    | LinkDown
    | ResetPass(gs: seq<Grant>)
    | Reopen(gs: seq<Grant>)

  function Next(r: Rx, e: Event): (q: Rx)
    requires Wf(r)
    ensures Wf(q)
  {
    match e
    case Dma(i, f) => if i < N then NicWrite(r, i, f) else r
    case Service(budget, gs) => Interrupt(r, budget, gs)
    case LinkDown => ResetIndexes(r)
    case ResetPass(gs) => GuardedReset(Interrupt(r, U32 - 1, gs))
    case Reopen(gs) => Fill(Blank(FreeN(r, N)), 0, N, gs)
  }

  ghost predicate Enabled(r: Rx, e: Event)
    requires Wf(r)
  {
    match e
    case Dma(i, f) => i < N && r.desc[i].own
    case Service(budget, gs) => FreshGrants(r, gs)
    case LinkDown => r.dirty == r.cur
    case ResetPass(gs) => FreshGrants(r, gs)
    case Reopen(gs) => |gs| == N && FreshGrants(Blank(FreeN(r, N)), gs)
  }

  lemma StepKeepsValid(r: Rx, e: Event)
    requires Valid(r) && Enabled(r, e)
    ensures Valid(Next(r, e))
  {
    match e
    case Dma(i, f) => NicWriteKeepsValid(r, i, f);
    case Service(budget, gs) => InterruptKeepsValid(r, budget, gs);
    case LinkDown => ResetKeepsValidIff(r);
    case ResetPass(gs) =>
      InterruptKeepsValid(r, U32 - 1, gs);
      ResetKeepsValidIff(Interrupt(r, U32 - 1, gs));
    case Reopen(gs) =>
      ClearUnmapsAll(r);
      FillFromBlank(FreeN(r, N), gs);
  }

  ghost function After(r: Rx, es: seq<Event>): (q: Rx)
    requires Wf(r)
    ensures Wf(q)
  {
    if es == [] then r else Next(After(r, es[..|es| - 1]), es[|es| - 1])
  }

  ghost predicate Legal(r: Rx, es: seq<Event>)
    requires Wf(r)
  {
    es == [] || (Legal(r, es[..|es| - 1]) && Enabled(After(r, es[..|es| - 1]), es[|es| - 1]))
  }

  lemma {:induction false} RunsStayValid(r: Rx, es: seq<Event>)
    requires Valid(r) && Legal(r, es)
    ensures Valid(After(r, es))
  {
    if es == [] {
    } else {
      var n := |es| - 1;
      RunsStayValid(r, es[..n]);
      StepKeepsValid(After(r, es[..n]), es[n]);
    }
  }

  // ---- the link-down path, on whole runs ----

  lemma Snoc(r: Rx, es: seq<Event>, e: Event)
    requires Wf(r) && Legal(r, es) && Enabled(After(r, es), e)
    ensures Legal(r, es + [e]) && After(r, es + [e]) == Next(After(r, es), e)
  {
    assert (es + [e])[..|es|] == es;
  }

  /** Slots below i have been handed back, the others are as in q. */
  ghost predicate HandedBack(q: Rx, p: Rx, i: nat)
    requires Wf(q)
  {
    && Wf(p) && p.cur == q.cur && p.dirty == q.dirty && p.skb == q.skb
    && (forall j :: 0 <= j < i && j < N ==> !p.desc[j].own)
    && (forall j :: i <= j < N ==> p.desc[j] == q.desc[j])
  }

  /** The NIC fills the slots it owns among the first i. */
  lemma {:induction false} HandBack(q: Rx, f: Frame, i: nat) returns (es: seq<Event>)
    requires Wf(q) && i <= N
    ensures Legal(q, es) && HandedBack(q, After(q, es), i)
  {
    if i == 0 {
      es := [];
    } else {
      es := HandBack(q, f, i - 1);
      var p := After(q, es);
      if p.desc[i - 1].own {
        Snoc(q, es, Dma(i - 1, f));
        es := es + [Dma(i - 1, f)];
      }
    }
  }

  /** If link-down finds a slot without a buffer, the NIC need only fill slots it owns for the next
      poll to use a null buffer. */
  lemma UnguardedResetFaults(r: Rx, f: Frame) returns (es: seq<Event>)
    requires Valid(r) && r.dirty != r.cur
    ensures Legal(ResetIndexes(r), es) && After(ResetIndexes(r), es).bus.faults > 0
  {
    var q, e := ResetIndexes(r), Slot(r.dirty, 0);
    assert SlotOk(r, e);
    es := HandBack(q, f, e);
    var p := After(q, es);
    InterruptFaults(p, e, N, []);
    Snoc(q, es, Service(N, []));
    es := es + [Service(N, [])];
  }

  ghost predicate CanFault(r: Rx)
    requires Wf(r)
  {
    exists es :: Legal(r, es) && After(r, es).bus.faults > 0
  }

  /** The link-down path is safe, over all that can follow it, exactly when no slot is waiting for
      a buffer. */
  lemma LinkDownFaultsIff(r: Rx)
    requires Valid(r)
    ensures CanFault(ResetIndexes(r)) <==> r.dirty != r.cur
  {
    if r.dirty != r.cur {
      var es := UnguardedResetFaults(r, Frame([], false, false, false, false));
    } else {
      ResetKeepsValidIff(r);
      forall es | Legal(ResetIndexes(r), es) ensures After(ResetIndexes(r), es).bus.faults == 0 {
        RunsStayValid(ResetIndexes(r), es);
      }
    }
  }

  /** A good frame in slot 0, and a poll that cannot get a new buffer. */
  lemma ShortOfMemory(q: Rx, b: Rx, f: Frame)
    requires Valid(b) && b.cur == 0 == b.dirty && b.desc[0].own && !f.res && q == NicWrite(b, 0, f)
    ensures Interrupt(q, 1, []).cur == 1 && Interrupt(q, 1, []).dirty == 0
  {
    NicWriteKeeps(b, 0, f);
    DrainTurnsIs(q, 0, 1, 1);
    assert SlotOk(b, 0);
    var d := DrainN(q, 1);
    assert d == DrainOne(DrainN(q, 0)) && DrainN(q, 0) == q;
    assert d.skb[0].None? && Gap(d) == 1;
    assert FillTurns(d, 0, 1, [], 0) == 0;
  }

  /** Such a link-down can happen: just after open, one good frame and one failed allocation do. */
  lemma LinkDownFaultReachable(r: Rx, gs: seq<Grant>, f: Frame)
    requires r.bus.dma == map[] && r.bus.faults == 0 && FreshGrants(Blank(r), gs) && |gs| == N && !f.res
    ensures var b, es := Fill(Blank(r), 0, N, gs), [Dma(0, f)] + [Service(1, [])];
            && Legal(b, es) && Valid(After(b, es))
            && After(b, es).dirty != After(b, es).cur && CanFault(ResetIndexes(After(b, es)))
  {
    var b := Fill(Blank(r), 0, N, gs);
    FillFromBlank(r, gs);
    FillPostsAll(r, N, gs);
    assert b == FillN(Blank(r), 0, N, gs);
    Snoc(b, [], Dma(0, f));
    assert [] + [Dma(0, f)] == [Dma(0, f)];
    Snoc(b, [Dma(0, f)], Service(1, []));
    ShortOfMemory(NicWrite(b, 0, f), b, f);
    var es := [Dma(0, f)] + [Service(1, [])];
    RunsStayValid(b, es);
    LinkDownFaultsIff(After(b, es));
  }

  /** What a valid ring promises, slot by slot: the window from cur to dirty + N has buffers,
      DescOwn implies a live skb, an skb's mapping is the one its descriptor holds, and there
      are no other live mappings. */
  lemma ValidMeans(q: Rx)
    requires Valid(q)
    ensures q.bus.faults == 0 && Gap(q) <= N
    ensures forall k :: Gap(q) <= k < N ==> q.skb[Slot(q.dirty, k)].Some?
    ensures forall i :: 0 <= i < N && q.desc[i].own ==> q.skb[i].Some?
    ensures forall i :: 0 <= i < N && q.skb[i].Some? ==>
              q.desc[i].addr in q.bus.dma && q.bus.dma[q.desc[i].addr] == Mapping(q.skb[i].value, i)
    ensures forall a :: a in q.bus.dma ==> q.bus.dma[a].slot < N && q.skb[q.bus.dma[a].slot] == Some(q.bus.dma[a].skb)
  {
    forall i | 0 <= i < N && q.skb[i].Some?
      ensures q.desc[i].addr in q.bus.dma && q.bus.dma[q.desc[i].addr] == Mapping(q.skb[i].value, i)
    {
      assert SlotOk(q, i);
    }
    forall i | 0 <= i < N && q.desc[i].own ensures q.skb[i].Some? {
      assert SlotOk(q, i);
    }
    forall a | a in q.bus.dma ensures q.bus.dma[a].slot < N && q.skb[q.bus.dma[a].slot] == Some(q.bus.dma[a].skb) {
      assert MappingOk(q, a);
    }
  }

  /** Over every run from a successful open, as long as link-down finds no slot without a
      buffer: no null buffer is used and nothing unmapped that is not mapped (no faults), the
      ring is valid throughout, and closing it unmaps each live mapping exactly once. */
  lemma OwnershipAndBalance(r: Rx, gs: seq<Grant>, es: seq<Event>) returns (q: Rx)
    requires r.bus.dma == map[] && r.bus.faults == 0 && FreshGrants(Blank(r), gs) && |gs| == N
    requires Legal(Fill(Blank(r), 0, N, gs), es)
    ensures q == After(Fill(Blank(r), 0, N, gs), es)
    ensures Valid(q) && q.bus.faults == 0
    ensures FreeN(q, N).bus.dma == map[] && FreeN(q, N).bus.faults == 0
  {
    FillFromBlank(r, gs);
    RunsStayValid(Fill(Blank(r), 0, N, gs), es);
    q := After(Fill(Blank(r), 0, N, gs), es);
    ClearUnmapsAll(q);
  }
}
