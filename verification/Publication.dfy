/** Safe publication of descriptors. The driver hands a slot to the NIC by several stores; the
    NIC may look at the slot between any two of them. The order of the stores is what keeps it
    from seeing DescOwn together with the address or length of an earlier buffer. The two rings
    are written independently of each other: poll refills the Rx ring outside the lock under
    which start_xmit writes to the Tx ring. */
module Publication {
  import opened Common
  import opened Descriptors
  import R = RxRing
  import T = TxRing

  /** An skb as the NIC should see it: where its data is mapped, and the length to use. */
  datatype Buffer = Buffer(id: nat, addr: nat, len: nat)

  /** The driver's pointer to the skb of a slot, and the slot's descriptor. `res` is RxRES. */
  datatype Cell = Cell(skb: Option<Buffer>, addr: nat, len: nat, own: bool, res: bool)

  datatype Store =
    | PutSkb(skb: Option<Buffer>)
    | PutAddr(addr: nat)
    | PutOpts(len: nat, own: bool)

  function Apply(c: Cell, s: Store): Cell {
    match s
    case PutSkb(b) => c.(skb := b)
    case PutAddr(a) => c.(addr := a)
    case PutOpts(len, own) => c.(len := len, own := own, res := false)
  }

  /** start_xmit: skb pointer, address, opts1 without DescOwn, then opts1 with it. */
  function TxSubmit(b: Buffer): seq<Store> {
    [PutSkb(Some(b)), PutAddr(b.addr), PutOpts(b.len, false), PutOpts(b.len, true)]
  }

  /** rtl8101_alloc_rx_skb with rtl8101_map_to_asic. */
  function RxRefill(b: Buffer): seq<Store> {
    [PutSkb(Some(b)), PutAddr(b.addr), PutOpts(RX_BUF_SIZE, true)]
  }

  /** rtl8101_mark_to_asic on a bad frame: the slot keeps its buffer and address. */
  const RX_RECYCLE: seq<Store> := [PutOpts(RX_BUF_SIZE, true)]

  /** rtl8101_unmap_tx_skb and the end of the skb; on Rx, the unmap of a good frame. */
  const TX_REAP: seq<Store> := [PutOpts(0, false), PutAddr(0), PutSkb(None)]
  const RX_TAKE: seq<Store> := [PutSkb(None)]

  datatype Side = RxSide | TxSide

  /** Which sequences of stores the driver starts on a slot: the tests it makes first, and nothing
      else. Rx buffers are allocated with one size. */
  ghost predicate Starts(side: Side, c: Cell, p: seq<Store>) {
    match side
    case RxSide =>
      || (c.skb.None? && exists b: Buffer :: b.len == RX_BUF_SIZE && p == RxRefill(b))
      || (!c.own && c.res && p == RX_RECYCLE)
      || (!c.own && !c.res && p == RX_TAKE)
    case TxSide => !c.own && (p == TX_REAP || exists b: Buffer :: p == TxSubmit(b))
  }

  /** What the driver is in the middle of on one ring: the stores still to be made to one slot. */
  datatype Busy = Free | At(slot: nat, rest: seq<Store>)

  datatype Ring = Ring(cells: seq<Cell>, pc: Busy)

  /** `seen` logs every descriptor the NIC has acted on, and the skb it was meant for. */
  datatype Seen = Seen(skb: Option<Buffer>, addr: nat, len: nat)

  datatype Bus = Bus(rx: Ring, tx: Ring, seen: seq<Seen>)

  function RingOf(s: Bus, side: Side): Ring {
    if side.RxSide? then s.rx else s.tx
  }

  function WithRing(s: Bus, side: Side, g: Ring): Bus {
    if side.RxSide? then s.(rx := g) else s.(tx := g)
  }

  /** The NIC writes back a status and a length of its own. */
  datatype Step =
    | Begin(side: Side, slot: nat, program: seq<Store>)
    | DoStore(side: Side)
    | NicAct(side: Side, slot: nat, res: bool, len: nat)

  ghost predicate Enabled(s: Bus, e: Step) {
    var g := RingOf(s, e.side);
    match e
    case Begin(side, i, p) => g.pc.Free? && i < |g.cells| && Starts(side, g.cells[i], p)
    case DoStore(side) => g.pc.At? && g.pc.slot < |g.cells| && g.pc.rest != []
    case NicAct(side, i, res, len) => i < |g.cells| && g.cells[i].own
  }

  function Stored(g: Ring): Ring
    requires g.pc.At? && g.pc.slot < |g.cells| && g.pc.rest != []
  {
    Ring(g.cells[g.pc.slot := Apply(g.cells[g.pc.slot], g.pc.rest[0])],
         if |g.pc.rest| == 1 then Free else At(g.pc.slot, g.pc.rest[1..]))
  }

  function Next(s: Bus, e: Step): Bus {
    var g := RingOf(s, e.side);
    match e
    case Begin(side, i, p) => WithRing(s, side, g.(pc := At(i, p)))
    case DoStore(side) =>
      if g.pc.At? && g.pc.slot < |g.cells| && g.pc.rest != [] then WithRing(s, side, Stored(g)) else s
    case NicAct(side, i, res, len) =>
      if i < |g.cells| then
        var c := g.cells[i];
        WithRing(s, side, g.(cells := g.cells[i := c.(own := false, res := res, len := len)]))
          .(seen := s.seen + [Seen(c.skb, c.addr, c.len)])
      else s
  }

  // ---- the invariant ----

  /** If the NIC may use the slot, then with the address and length of the slot's own skb. */
  predicate Consistent(c: Cell) {
    c.own ==> c.skb.Some? && c.addr == c.skb.value.addr && c.len == c.skb.value.len
  }

  /** A slot nobody is writing. An Rx slot with a buffer still has that buffer's address, and a bad
      frame can only be in such a slot. */
  predicate CellSound(side: Side, c: Cell) {
    && Consistent(c)
    && (side.RxSide? ==>
          && (c.res ==> c.skb.Some?)
          && (c.skb.Some? ==> c.addr == c.skb.value.addr && c.skb.value.len == RX_BUF_SIZE))
  }

  /** However the remaining stores are cut, the NIC may not use the slot before the last of them,
      and then it is sound. */
  predicate SafeAhead(side: Side, c: Cell, rest: seq<Store>)
    decreases |rest|
  {
    if rest == [] then CellSound(side, c)
    else !c.own && SafeAhead(side, Apply(c, rest[0]), rest[1..])
  }

  lemma UnfoldOne(side: Side, c: Cell, p: seq<Store>)
    requires |p| == 1
    ensures SafeAhead(side, c, p) <==> !c.own && CellSound(side, Apply(c, p[0]))
  {
    assert p[1..] == [];
  }

  lemma UnfoldThree(side: Side, c: Cell, p: seq<Store>)
    requires |p| >= 3
    ensures SafeAhead(side, c, p) <==>
              var c1 := Apply(c, p[0]);
              var c2 := Apply(c1, p[1]);
              !c.own && !c1.own && !c2.own && SafeAhead(side, Apply(c2, p[2]), p[3..])
  {
    var c1 := Apply(c, p[0]);
    var c2 := Apply(c1, p[1]);
    assert p[1..][1..] == p[2..] && p[2..][1..] == p[3..];
    assert SafeAhead(side, c1, p[1..]) <==> !c1.own && SafeAhead(side, c2, p[2..]);
    assert SafeAhead(side, c2, p[2..]) <==> !c2.own && SafeAhead(side, Apply(c2, p[2]), p[3..]);
  }

  /** Every sequence of stores is safe on a sound slot, because of the order it makes them in. */
  lemma ProgramsAreSafe(side: Side, c: Cell, p: seq<Store>)
    requires CellSound(side, c) && Starts(side, c, p)
    ensures p != [] && SafeAhead(side, c, p)
  {
    if side.TxSide? && p != TX_REAP {
      var b :| p == TxSubmit(b);
      UnfoldThree(side, c, p);
      UnfoldOne(side, Apply(Apply(Apply(c, p[0]), p[1]), p[2]), p[3..]);
    } else if p == TX_REAP {
      UnfoldThree(side, c, p);
    } else if p == RX_RECYCLE || p == RX_TAKE {
      UnfoldOne(side, c, p);
    } else {
      var b: Buffer :| b.len == RX_BUF_SIZE && p == RxRefill(b);
      UnfoldThree(side, c, p);
    }
  }

  predicate Meant(e: Seen) {
    e.skb.Some? && e.addr == e.skb.value.addr && e.len == e.skb.value.len
  }

  ghost predicate RingSound(side: Side, g: Ring) {
    && (g.pc.At? ==> g.pc.slot < |g.cells| && g.pc.rest != [] && SafeAhead(side, g.cells[g.pc.slot], g.pc.rest))
    && (forall i :: 0 <= i < |g.cells| && !(g.pc.At? && g.pc.slot == i) ==> CellSound(side, g.cells[i]))
  }

  ghost predicate Sound(s: Bus) {
    && RingSound(RxSide, s.rx) && RingSound(TxSide, s.tx)
    && (forall k :: 0 <= k < |s.seen| ==> Meant(s.seen[k]))
  }

  lemma StoreKeeps(side: Side, g: Ring)
    requires RingSound(side, g) && g.pc.At?
    ensures RingSound(side, Stored(g))
  {
    var c := Apply(g.cells[g.pc.slot], g.pc.rest[0]);
    assert SafeAhead(side, c, g.pc.rest[1..]);
  }

  lemma StepKeepsSound(s: Bus, e: Step)
    requires Sound(s) && Enabled(s, e)
    ensures Sound(Next(s, e))
  {
    match e
    case Begin(side, i, p) => ProgramsAreSafe(side, RingOf(s, side).cells[i], p);
    case DoStore(side) => StoreKeeps(side, RingOf(s, side));
    case NicAct(side, i, res, len) =>
      var g := RingOf(s, side);
      assert g.pc.At? ==> !g.cells[g.pc.slot].own;
      assert CellSound(side, g.cells[i]);
  }

  // ---- whole runs ----

  /** Two rings just zeroed. */
  predicate Zeroed(s: Bus) {
    && s.rx.pc.Free? && s.tx.pc.Free? && s.seen == []
    && (forall i :: 0 <= i < |s.rx.cells| ==> s.rx.cells[i] == Cell(None, 0, 0, false, false))
    && (forall i :: 0 <= i < |s.tx.cells| ==> s.tx.cells[i] == Cell(None, 0, 0, false, false))
  }

  function After(s: Bus, es: seq<Step>): Bus {
    if es == [] then s else Next(After(s, es[..|es| - 1]), es[|es| - 1])
  }

  ghost predicate Legal(s: Bus, es: seq<Step>) {
    es == [] || (Legal(s, es[..|es| - 1]) && Enabled(After(s, es[..|es| - 1]), es[|es| - 1]))
  }

  lemma {:induction false} RunsStaySound(s: Bus, es: seq<Step>)
    requires Sound(s) && Legal(s, es)
    ensures Sound(After(s, es))
  {
    if es == [] {
    } else {
      var n := |es| - 1;
      RunsStaySound(s, es[..n]);
      StepKeepsSound(After(s, es[..n]), es[n]);
    }
  }

  /** Whatever the driver publishes, recycles and takes back, on both rings at once, and wherever the
      NIC cuts in: it never acts on a descriptor whose address or length is not that of the slot's
      own skb. */
  lemma PublicationIsSafe(s: Bus, es: seq<Step>, k: nat)
    requires Zeroed(s) && Legal(s, es) && k < |After(s, es).seen|
    ensures Meant(After(s, es).seen[k])
  {
    RunsStaySound(s, es);
  }

  /** The write barrier before the last store matters: were DescOwn to reach memory before the
      address, a slot last used for another buffer would be seen with that buffer's address. */
  lemma ReorderedStoresUnsafe(side: Side, c: Cell, b: Buffer)
    requires !c.own && c.addr != b.addr
    ensures !SafeAhead(side, c, [PutSkb(Some(b)), PutOpts(b.len, true), PutAddr(b.addr)])
    ensures !Consistent(Apply(Apply(c, PutSkb(Some(b))), PutOpts(b.len, true)))
  {
    UnfoldThree(side, c, [PutSkb(Some(b)), PutOpts(b.len, true), PutAddr(b.addr)]);
  }

  // ---- the ring models make the same stores ----

  /** The descriptor that the NIC finds in this cell. */
  predicate Shows(c: Cell, d: Desc) {
    c.addr == d.addr && c.len == d.size && c.own == d.own && c.res == d.res
  }

  /** Posting an skb on the transmit ring, whatever was in the slot. */
  lemma SubmitShows(t: T.Tx, e: nat, skb: T.Skb, addr: nat, c: Cell)
    requires T.Wf(t) && e < |t.desc|
    ensures var p := TxSubmit(Buffer(skb.id, addr, skb.len));
            Shows(Apply(Apply(Apply(Apply(c, p[0]), p[1]), p[2]), p[3]), T.PostAt(t, e, skb, addr).desc[e])
  {
  }

  /** Reaping a slot. */
  lemma ReapShows(t: T.Tx, c: Cell)
    requires T.Wf(t)
    ensures Shows(Apply(Apply(Apply(c, TX_REAP[0]), TX_REAP[1]), TX_REAP[2]), T.ReapOne(t).desc[t.dirty % |t.desc|])
  {
  }

  /** Refilling a slot of the receive ring. */
  lemma RefillShows(r: R.Rx, i: nat, g: R.Grant, c: Cell)
    requires R.Wf(r) && i < |r.desc|
    ensures var p := RxRefill(Buffer(g.skb, g.addr, RX_BUF_SIZE));
            Shows(Apply(Apply(Apply(c, p[0]), p[1]), p[2]), R.Refill(r, i, g).desc[i])
  {
  }

  /** Giving the buffer of a bad frame back, and taking a good one. */
  lemma DrainShows(r: R.Rx, e: nat, c: Cell)
    requires R.Wf(r) && e < |r.desc| && Shows(c, r.desc[e])
    ensures Shows(Apply(c, RX_RECYCLE[0]), R.Recycle(r, e).desc[e])
    ensures Shows(Apply(c, RX_TAKE[0]), R.Deliver(r, e).desc[e])
  {
  }
}
