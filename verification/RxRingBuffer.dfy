/** The receive ring as the driver keeps it: counters and arrays updated in place. The bus
    mappings, the buffers' contents and the stack's input are part of the object as well. */
module RxRingBuffer {
  import opened Common
  import opened Counters
  import opened Descriptors
  import opened RxRing

  class RxBuffer {
    var cur: Word32
    var dirty: Word32
    const desc: array<Desc>
    const skb: array<Option<nat>>
    var dma: map<nat, Mapping>
    var mem: map<nat, seq<nat>>
    var delivered: seq<seq<nat>>
    var packets: nat
    var bytes: int
    var errors: nat
    var lengthErrors: nat
    var crcErrors: nat
    var faults: nat

    ghost predicate Shaped() {
      desc.Length == N && skb.Length == N
    }

    /** The ring value this object holds. */
    ghost function View(): (r: Rx)
      requires Shaped()
      reads this, desc, skb
      ensures Wf(r)
    {
      Rx(cur, dirty, desc[..], skb[..], Bus(dma, mem, faults),
         Up(delivered, packets, bytes, errors, lengthErrors, crcErrors))
    }

    constructor ()
      ensures Shaped() && fresh(desc) && fresh(skb)
      ensures View().bus == Bus(map[], map[], 0) && View().up == Up([], 0, 0, 0, 0, 0)
      ensures View().cur == View().dirty == 0 && forall i :: 0 <= i < N ==> View().skb[i].None?
    {
      cur, dirty, packets, bytes, errors, lengthErrors, crcErrors, faults := 0, 0, 0, 0, 0, 0, 0, 0;
      desc := new Desc[N](_ => ZERO);
      skb := new Option<nat>[N](_ => None);
      dma, mem, delivered := map[], map[], [];
    }

    /** pci_unmap_single. */
    method UnmapSingle(addr: nat)
      requires Shaped()
      modifies `dma, `faults
      ensures Bus(dma, mem, faults) == Unmap(Bus(old(dma), mem, old(faults)), addr)
    {
      if addr in dma {
        dma := dma - {addr};
      } else {
        faults := faults + 1;
      }
    }

    /** The two branches of rtl8101_rx_interrupt's loop body. */
    method RecycleEntry(entry: nat)
      requires Shaped() && entry < N
      modifies `errors, `lengthErrors, `crcErrors, desc
      ensures View() == Recycle(old(View()), entry)
    {
      var status := desc[entry];
      errors := errors + 1;
      if status.rwt || status.runt {
        lengthErrors := lengthErrors + 1;
      }
      if status.crc {
        crcErrors := crcErrors + 1;
      }
      desc[entry] := MarkToAsic(status);
    }

    method DeliverEntry(entry: nat)
      requires Shaped() && entry < N
      modifies `dma, `faults, `delivered, `packets, `bytes, skb
      ensures View() == Deliver(old(View()), entry)
    {
      var s := skb[entry];
      var pktSize := desc[entry].size - 4;
      if s.None? || s.value !in mem || !(0 <= pktSize <= |mem[s.value]|) {
        faults := faults + 1;  // a null pointer dereference, or bytes nobody wrote
      } else {
        UnmapSingle(desc[entry].addr);
        skb[entry] := None;
        delivered := delivered + [mem[s.value][..pktSize]];
        bytes := bytes + pktSize;
        packets := packets + 1;
      }
    }

    /** Past the DescOwn test, at counter value c. */
    method DrainEntry(c: Word32)
      requires Shaped()
      modifies `dma, `faults, `delivered, `packets, `bytes, `errors, `lengthErrors, `crcErrors, desc, skb
      ensures View().(cur := Add(c, 1)) == DrainOne(old(View()).(cur := c))
    {
      var entry := c % N;
      if desc[entry].res {
        RecycleEntry(entry);
      } else {
        DeliverEntry(entry);
      }
    }

    /** One turn of the loop, at counter value c, in a drain that began at ring r and has taken
        k turns. */
    method DrainTurn(c: Word32, ghost r: Rx, ghost k: nat, ghost left: nat) returns (stop: bool)
      requires Shaped() && Wf(r) && k < N && View().(cur := c) == DrainN(r, k)
      modifies `dma, `faults, `delivered, `packets, `bytes, `errors, `lengthErrors, `crcErrors, desc, skb
      ensures left > 0 ==> DrainTurns(r, k, left) == if stop then 0 else 1 + DrainTurns(r, k + 1, left - 1)
      ensures stop ==> View() == old(View())
      ensures !stop ==> View().(cur := Add(c, 1)) == DrainN(r, k + 1)
    {
      DrainNReaches(r, k);
      stop := desc[c % N].own;
      if !stop {
        DrainEntry(c);
      }
    }

    /** rtl8101_alloc_rx_skb, given that it gets an skb. */
    method AllocRxSkb(i: nat, g: Grant)
      requires Shaped() && i < N
      modifies `dma, desc, skb
      ensures View() == Refill(old(View()), i, g)
    {
      skb[i] := Some(g.skb);
      dma := dma[g.addr := Mapping(g.skb, i)];
      desc[i] := desc[i].(addr := g.addr);
      desc[i] := MarkToAsic(desc[i]);
    }

    /** One turn of rtl8101_rx_fill's loop, at counter value c, in a fill of `count` slots that began
        at ring r and has taken k turns. */
    method FillTurn(
      c: Word32, gs: seq<Grant>, used: nat, ghost r: Rx, ghost start: Word32, ghost count: nat, ghost k: nat)
      returns (stop: bool, used': nat)
      requires Shaped() && Wf(r) && k < count <= N && c == Add(start, k)
      requires used == Used(r, start, k) <= |gs| && View() == FillN(r, start, k, gs)
      modifies `dma, desc, skb
      ensures stop ==> View() == old(View()) && FillTurns(r, start, count, gs, k) == k
      ensures !stop ==> used' == Used(r, start, k + 1) <= |gs| && View() == FillN(r, start, k + 1, gs)
      ensures !stop ==> FillTurns(r, start, count, gs, k) == FillTurns(r, start, count, gs, k + 1)
    {
      var i := c % N;
      AddMovesWindow(start, k, 0);
      FillNFrame(r, start, k, gs, k);
      stop, used' := false, used;
      if skb[i].None? {
        if used == |gs| {
          return true, used;
        }
        AllocRxSkb(i, gs[used]);
        used' := used + 1;
      }
    }

    /** rtl8101_rx_fill; allocation succeeds |gs| times and then fails. */
    method RxFill(start: Word32, end: Word32, gs: seq<Grant>) returns (delta: Word32)
      requires Shaped() && Sub(end, start) <= N
      modifies `dma, desc, skb
      ensures View() == Fill(old(View()), start, Sub(end, start), gs)
      ensures delta == FillTurns(old(View()), start, Sub(end, start), gs, 0)
    {
      ghost var r, count := View(), Sub(end, start);
      ghost var k := 0;
      var c, used, stop := start, 0, false;
      while Sub(end, c) > 0
        invariant k <= count && c == Add(start, k) && Sub(end, c) == count - k
        invariant used == Used(r, start, k) <= |gs|
        invariant View() == FillN(r, start, k, gs)
        invariant FillTurns(r, start, count, gs, 0) == FillTurns(r, start, count, gs, k)
        decreases count - k
      {
        stop, used := FillTurn(c, gs, used, r, start, count, k);
        if stop {
          break;
        }
        SubAfterAdd(end, start, k + 1);
        AddAdd(start, k, 1);
        c := Add(c, 1);
        k := k + 1;
      }
      AddThenSub(start, start, k);
      delta := Sub(c, start);
    }

    /** The loop of rtl8101_rx_interrupt, which works on a copy c of cur_rx. */
    method DrainLoop(most: nat) returns (c: Word32, ghost k: nat)
      requires Shaped() && most <= N
      modifies `dma, `faults, `delivered, `packets, `bytes, `errors, `lengthErrors, `crcErrors, desc, skb
      ensures View().(cur := c) == DrainN(old(View()), k)
      ensures k == DrainTurns(old(View()), 0, most)
    {
      ghost var r := View();
      c, k := cur, 0;
      var left: nat := most;
      while left > 0
        invariant k + left == most
        invariant View().(cur := c) == DrainN(r, k)
        invariant DrainTurns(r, 0, most) == k + DrainTurns(r, k, left)
      {
        var stop := DrainTurn(c, r, k, left);
        if stop {
          break;
        }
        c := Add(c, 1);
        left := left - 1;
        k := k + 1;
      }
    }

    /** rtl8101_rx_interrupt. */
    method RxInterrupt(budget: Word32, gs: seq<Grant>) returns (count: Word32)
      requires Shaped() && Gap(View()) <= N
      modifies this, desc, skb
      ensures View() == Interrupt(old(View()), budget, gs)
      ensures count == DrainTurns(old(View()), 0, Budgeted(old(View()), budget))
    {
      BudgetedIsWindow(View(), budget);
      var c, k := DrainLoop(Min((N + dirty - cur) % U32, budget));
      DrainNFrame(old(View()), k);
      AddThenSub(cur, cur, k);
      AddThenSub(cur, dirty, k);
      count := Sub(c, cur);
      cur := c;
      var delta := RxFill(dirty, cur, gs);
      dirty := Add(dirty, delta);
    }

    /** rtl8101_free_rx_skb. */
    method FreeRxSkb(i: nat)
      requires Shaped() && i < N && skb[i].Some?
      modifies `dma, `faults, desc, skb
      ensures View() == FreeSlot(old(View()), i)
    {
      UnmapSingle(desc[i].addr);
      skb[i] := None;
      desc[i] := MakeUnusable(desc[i]);
    }

    /** rtl8101_rx_clear. */
    method RxClear()
      requires Shaped()
      modifies `dma, `faults, desc, skb
      ensures View() == FreeN(old(View()), N)
    {
      for i := 0 to N
        invariant View() == FreeN(old(View()), i)
      {
        if skb[i].Some? {
          FreeRxSkb(i);
        }
      }
    }

    /** The Rx part of rtl8101_init_buffers: zero the ring, fill it, and give up if that fails. */
    method InitBuffers(gs: seq<Grant>) returns (ok: bool)
      requires Shaped()
      modifies this, desc, skb
      ensures ok <==> FillTurns(Blank(old(View())), 0, N, gs, 0) == N
      ensures var q := Fill(Blank(old(View())), 0, N, gs); View() == if ok then q else FreeN(q, N)
    {
      cur, dirty := 0, 0;
      forall i | 0 <= i < N {
        skb[i] := None;
      }
      forall i | 0 <= i < N {
        desc[i] := if i == N - 1 then ZERO.(eor := true) else ZERO;
      }
      assert View() == Blank(old(View()));
      var delta := RxFill(0, N, gs);
      ok := delta == N;
      if !ok {
        RxClear();
      }
    }
  }
}
