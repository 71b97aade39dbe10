/** A NIC that walks the two rings in order, one slot at a time, finding its way back to slot 0
    by the RingEnd bit alone; and what it means for the driver's counters to agree with it. */
module NicWalk {
  import opened Common
  import opened Counters
  import R = RxRing
  import T = TxRing

  /** The NIC's next slot. */
  function Advance(i: nat, eor: bool): nat {
    if eor then 0 else i + 1
  }

  lemma AdvanceIsModN(c: int, k: nat, i: nat, eor: bool)
    requires i == Slot(c, k) && eor == (i == N - 1)
    ensures Advance(i, eor) == Slot(c, k + 1)
  {
  }

  // ---- receiving ----

  /** The payloads of the frames received without error. */
  function Payload(f: R.Frame): seq<seq<nat>> {
    if f.res then [] else [f.bytes]
  }

  function Good(fs: seq<R.Frame>): seq<seq<nat>> {
    if fs == [] then [] else Good(fs[..|fs| - 1]) + Payload(fs[|fs| - 1])
  }

  /** What handling one frame adds to the receive statistics. */
  function Counted(u: R.Up, f: R.Frame): R.Up {
    if f.res then
      u.(errors := u.errors + 1,
         lengthErrors := u.lengthErrors + Flag(f.rwt || f.runt),
         crcErrors := u.crcErrors + Flag(f.crc))
    else
      u.(delivered := u.delivered + [f.bytes], packets := u.packets + 1, bytes := u.bytes + |f.bytes|)
  }

  function Tally(u: R.Up, fs: seq<R.Frame>): R.Up {
    if fs == [] then u else Counted(Tally(u, fs[..|fs| - 1]), fs[|fs| - 1])
  }

  lemma TallySnoc(u: R.Up, fs: seq<R.Frame>, f: R.Frame)
    ensures Tally(u, fs + [f]) == Counted(Tally(u, fs), f)
  {
    assert (fs + [f])[..|fs|] == fs;
  }

  lemma {:induction false} TallyCons(u: R.Up, fs: seq<R.Frame>)
    requires fs != []
    ensures Tally(u, fs) == Tally(Counted(u, fs[0]), fs[1..])
  {
    var n := |fs| - 1;
    if n == 0 {
      assert fs[..0] == [] && fs[1..] == [];
    } else {
      TallyCons(u, fs[..n]);
      assert fs[1..][..n - 1] == fs[..n][1..];
    }
  }

  function Number(fs: seq<R.Frame>, which: R.Frame -> bool): nat {
    if fs == [] then 0 else Number(fs[..|fs| - 1], which) + Flag(which(fs[|fs| - 1]))
  }

  /** All of it: the good frames in order, their number and their bytes; the bad frames, those of
      them with a length error, and those with a bad checksum. */
  lemma {:induction false} TallyMeans(u: R.Up, fs: seq<R.Frame>)
    ensures var t := Tally(u, fs);
            && t.delivered == u.delivered + Good(fs)
            && t.packets == u.packets + |Good(fs)|
            && t.bytes == u.bytes + R.Lengths(Good(fs))
            && t.errors == u.errors + Number(fs, (f: R.Frame) => f.res)
            && t.lengthErrors == u.lengthErrors + Number(fs, (f: R.Frame) => f.res && (f.rwt || f.runt))
            && t.crcErrors == u.crcErrors + Number(fs, (f: R.Frame) => f.res && f.crc)
  {
    if fs == [] {
      assert u.delivered + [] == u.delivered;
    } else {
      var n := |fs| - 1;
      TallyMeans(u, fs[..n]);
      var g := Good(fs[..n]);
      if fs[n].res {
        assert Good(fs) == g;
      } else {
        assert Good(fs) == g + [fs[n].bytes] && (g + [fs[n].bytes])[..|g|] == g;
      }
    }
  }

  /** Slot i holds frame f, handed back by the NIC and not yet looked at by the driver. */
  predicate Carries(r: R.Rx, i: nat, f: R.Frame)
    requires R.Wf(r) && i < N
  {
    && !r.desc[i].own && r.skb[i].Some? && r.desc[i].res == f.res
    && r.desc[i].rwt == f.rwt && r.desc[i].runt == f.runt && r.desc[i].crc == f.crc
    && (!f.res ==> r.skb[i].value in r.bus.mem && r.bus.mem[r.skb[i].value] == f.bytes)
  }

  /** The frames written and not yet looked at sit in order from cur on, the NIC stands right
      after them, and every other slot is the NIC's exactly if it has a buffer. */
  ghost predicate Aligned(r: R.Rx, nic: nat, wait: seq<R.Frame>) {
    && R.Mapped(r)
    && |wait| <= N
    && nic == Slot(r.cur, |wait|)
    && (forall k :: 0 <= k < |wait| ==> Carries(r, Slot(r.cur, k), wait[k]))
    && (forall k :: |wait| <= k < N && r.skb[Slot(r.cur, k)].Some? ==> r.desc[Slot(r.cur, k)].own)
  }

  lemma WaitingSlot(r: R.Rx, nic: nat, wait: seq<R.Frame>, k: nat)
    requires Aligned(r, nic, wait)
    ensures k < |wait| ==> r.skb[Slot(r.cur, k)].Some? && !r.desc[Slot(r.cur, k)].own
  {
    if k < |wait| { assert Carries(r, Slot(r.cur, k), wait[k]); }
  }

  /** The NIC's write to one slot leaves the frame in another one alone: their buffers differ. */
  lemma OthersCarryOn(r: R.Rx, i: nat, j: nat, f: R.Frame, g: R.Frame)
    requires R.Mapped(r) && i < N && j < N && i != j && r.skb[i].Some? && Carries(r, j, g)
    ensures Carries(R.NicWrite(r, i, f), j, g)
  {
    assert R.SlotOk(r, i) && R.SlotOk(r, j);
  }

  lemma WriteAligned(r: R.Rx, nic: nat, wait: seq<R.Frame>, f: R.Frame)
    requires Aligned(r, nic, wait) && r.desc[nic].own
    ensures |wait| < N
    ensures Aligned(R.NicWrite(r, nic, f), Advance(nic, r.desc[nic].eor), wait + [f])
  {
    var q, n := R.NicWrite(r, nic, f), |wait|;
    assert R.SlotOk(r, nic);
    FarEndIsStart(r.cur, r.cur);
    WaitingSlot(r, nic, wait, 0);
    R.NicWriteKeeps(r, nic, f);
    AdvanceIsModN(r.cur, n, nic, r.desc[nic].eor);
    SlotsDiffer(r.cur, n);
    forall k | 0 <= k < n ensures Carries(q, Slot(q.cur, k), (wait + [f])[k]) {
      OthersCarryOn(r, nic, Slot(r.cur, k), f, wait[k]);
    }
  }

  /** A slot other than the one at cur is untouched by a turn of the drain loop. */
  lemma DrainOneElsewhere(r: R.Rx, j: nat)
    requires R.Wf(r) && j < N && j != Slot(r.cur, 0)
    ensures R.DrainOne(r).desc[j] == r.desc[j] && R.DrainOne(r).skb[j] == r.skb[j]
    ensures R.DrainOne(r).bus.mem == r.bus.mem
  {
  }

  lemma DrainOneHere(r: R.Rx, f: R.Frame)
    requires R.Mapped(r) && Carries(r, Slot(r.cur, 0), f)
    ensures var q, e := R.DrainOne(r), Slot(r.cur, 0);
            && (q.skb[e].Some? ==> q.desc[e].own)
            && q.up == Counted(r.up, f)
  {
    assert R.SlotOk(r, Slot(r.cur, 0));
    if !f.res { R.DeliverKeeps(r, Slot(r.cur, 0)); }
  }

  /** The driver's next slot carries the oldest waiting frame, if the NIC has handed it back;
      a turn of the drain loop delivers it, or drops it if it is bad. */
  lemma DrainDelivers(r: R.Rx, nic: nat, wait: seq<R.Frame>)
    requires Aligned(r, nic, wait) && r.skb[Slot(r.cur, 0)].Some? && !r.desc[Slot(r.cur, 0)].own
    ensures wait != [] && Carries(r, Slot(r.cur, 0), wait[0])
    ensures R.DrainOne(r).up == Counted(r.up, wait[0])
  {
    assert wait != [];
    assert Carries(r, Slot(r.cur, 0), wait[0]);
    DrainOneHere(r, wait[0]);
  }

  lemma ShiftAligned(r: R.Rx, q: R.Rx, nic: nat, wait: seq<R.Frame>)
    requires Aligned(r, nic, wait) && wait != [] && R.Mapped(q) && q.bus.mem == r.bus.mem && q.cur == Add(r.cur, 1)
    requires forall k :: 0 <= k < N ==> Slot(q.cur, k) == Slot(r.cur, k + 1)
    requires forall k :: 0 <= k < N - 1 ==>
      && q.desc[Slot(q.cur, k)] == r.desc[Slot(r.cur, k + 1)]
      && q.skb[Slot(q.cur, k)] == r.skb[Slot(r.cur, k + 1)]
    requires q.skb[Slot(q.cur, N - 1)].Some? ==> q.desc[Slot(q.cur, N - 1)].own
    ensures Aligned(q, nic, wait[1..])
  {
    AddMovesWindow(r.cur, 1, |wait| - 1);
    forall k | 0 <= k < |wait[1..]| ensures Carries(q, Slot(q.cur, k), wait[1..][k]) {
      assert Carries(r, Slot(r.cur, k + 1), wait[k + 1]);
    }
    forall k | |wait[1..]| <= k < N && q.skb[Slot(q.cur, k)].Some? ensures q.desc[Slot(q.cur, k)].own {
    }
  }

  lemma DrainAligned(r: R.Rx, nic: nat, wait: seq<R.Frame>)
    requires Aligned(r, nic, wait) && R.Window(r) && R.Gap(r) < N && !r.desc[Slot(r.cur, 0)].own
    ensures wait != [] && Aligned(R.DrainOne(r), nic, wait[1..])
  {
    var q, e := R.DrainOne(r), Slot(r.cur, 0);
    assert R.Mapped(q) && r.skb[e].Some? by { R.DrainOneKeeps(r); }
    DrainDelivers(r, nic, wait);
    DrainOneHere(r, wait[0]);
    AddMovesWalk(r.cur, 1);
    SlotsDiffer(r.cur, 0);
    FarEndIsStart(r.cur, r.cur);
    forall k | 0 <= k < N ensures k + 1 < N ==>
      && q.desc[Slot(q.cur, k)] == r.desc[Slot(r.cur, k + 1)]
      && q.skb[Slot(q.cur, k)] == r.skb[Slot(r.cur, k + 1)]
    {
      if k + 1 < N { DrainOneElsewhere(r, Slot(r.cur, k + 1)); }
    }
    assert q.bus.mem == r.bus.mem;
    ShiftAligned(r, q, nic, wait);
  }

  lemma RefillAligned(r: R.Rx, nic: nat, wait: seq<R.Frame>, i: nat, g: R.Grant)
    requires Aligned(r, nic, wait) && i < N && r.skb[i].None? && R.FreshGrant(r, g)
    ensures Aligned(R.Refill(r, i, g), nic, wait)
  {
    R.RefillKeeps(r, i, g);
    var q := R.Refill(r, i, g);
    forall k | 0 <= k < |wait| ensures Carries(q, Slot(q.cur, k), wait[k]) {
      assert Carries(r, Slot(r.cur, k), wait[k]);
    }
  }

  lemma AdvanceDirtyAligned(r: R.Rx, nic: nat, wait: seq<R.Frame>, d: Word32)
    requires Aligned(r, nic, wait)
    ensures Aligned(r.(dirty := d), nic, wait)
  {
    R.MappedIgnoresCounters(r, r.cur, d);
    var q := r.(dirty := d);
    forall k | 0 <= k < |wait| ensures Carries(q, Slot(q.cur, k), wait[k]) {
      assert Carries(r, Slot(r.cur, k), wait[k]);
    }
  }

  /** Between handlers all that waits lies inside the window, where the drain loop can see it. */
  lemma WaitingIsInWindow(r: R.Rx, nic: nat, wait: seq<R.Frame>)
    requires Aligned(r, nic, wait) && R.Window(r) && R.Settled(r)
    ensures |wait| <= N - R.Gap(r)
  {
    FarEndIsStart(r.cur, r.dirty);
    WaitingSlot(r, nic, wait, N - R.Gap(r));
  }

  // ---- transmitting ----

  /** The NIC has completed the first `done` of the queued skbs and stands at the next one. */
  ghost predicate TxAligned(t: T.Tx, nic: nat, done: nat) {
    && T.Valid(t)
    && done <= T.Count(t)
    && nic == Slot(t.dirty, done)
    && (forall k :: 0 <= k < T.Count(t) ==> (t.desc[Slot(t.dirty, k)].own <==> done <= k))
  }

  lemma PostAligned(t: T.Tx, nic: nat, done: nat, skb: T.Skb, addr: nat)
    requires TxAligned(t, nic, done) && T.Count(t) + 1 < N && skb.len > 0
    ensures TxAligned(T.Post(t, skb, addr), nic, done)
  {
    var q, n := T.Post(t, skb, addr), T.Count(t);
    T.PostAppends(t, skb, addr);
    AddSub(t.cur, t.dirty);
    AddMovesWindow(t.dirty, n, 0);
    SlotsDiffer(t.dirty, n);
  }

  lemma CompleteAligned(t: T.Tx, nic: nat, done: nat)
    requires TxAligned(t, nic, done) && t.desc[nic].own
    ensures done < T.Count(t)
    ensures TxAligned(T.Complete(t, nic), Advance(nic, t.desc[nic].eor), done + 1)
  {
    T.OwnedIsInFlight(t, nic);
    T.CompleteMarksDone(t, nic);
    WalkIsBijection(t.dirty, nic, done);
    assert T.Holds(t, Slot(t.dirty, done));
    SlotsDiffer(t.dirty, done);
    AdvanceIsModN(t.dirty, done, nic, t.desc[nic].eor);
  }

  lemma ReapAligned(t: T.Tx, nic: nat, done: nat)
    requires TxAligned(t, nic, done) && T.Count(t) > 0 && !t.desc[Slot(t.dirty, 0)].own
    ensures done > 0
    ensures TxAligned(T.ReapOne(t), nic, done - 1)
    ensures T.Count(T.ReapOne(t)) == T.Count(t) - 1
  {
    T.ReapOneRemovesHead(t);
    var q := T.ReapOne(t);
    SubAfterAdd(t.cur, t.dirty, 1);
    AddMovesWalk(t.dirty, 1);
    SlotsDiffer(t.dirty, 0);
    forall k | 0 <= k < T.Count(q) ensures q.desc[Slot(q.dirty, k)].own <==> done - 1 <= k {
      assert Slot(q.dirty, k) == Slot(t.dirty, k + 1);
    }
  }
}
