/** The transmit ring as the driver keeps it: counters and arrays updated in place. */
module TxRingBuffer {
  import opened Common
  import opened Counters
  import opened Descriptors
  import opened TxRing

  class TxBuffer {
    var cur: Word32
    var dirty: Word32
    const info: array<Info>
    const desc: array<Desc>
    var packets: nat
    var bytes: nat
    var dropped: nat
    ghost var accepted: seq<Posted>
    ghost var freed: seq<Freed>
    ghost var refused: nat

    ghost predicate Shaped() {
      info.Length == N && desc.Length == N
    }

    /** The ring value this object holds. */
    ghost function View(): (t: Tx)
      requires Shaped()
      reads this, info, desc
      ensures Wf(t)
    {
      Tx(cur, dirty, info[..], desc[..], packets, bytes, dropped, accepted, freed, refused)
    }

    constructor ()
      ensures Shaped() && fresh(info) && fresh(desc)
      ensures View() == FreshRing(Tx(0, 0, [], [], 0, 0, 0, [], [], 0))
    {
      cur, dirty, packets, bytes, dropped := 0, 0, 0, 0, 0;
      info := new Info[N](_ => EMPTY);
      desc := new Desc[N](i => if i == N - 1 then ZERO.(eor := true) else ZERO);
      accepted, freed, refused := [], [], 0;
    }

    /** The Tx part of rtl8101_init_buffers. */
    method InitRing()
      requires Shaped()
      modifies `cur, `dirty, info, desc
      ensures View() == FreshRing(old(View()))
    {
      cur, dirty := 0, 0;
      forall i | 0 <= i < N {
        info[i] := EMPTY;
      }
      forall i | 0 <= i < N {
        desc[i] := if i == N - 1 then ZERO.(eor := true) else ZERO;
      }
    }

    /** rtl8101_unmap_tx_skb. */
    method UnmapTxSkb(e: nat)
      requires Shaped() && e < N
      modifies info, desc
      ensures info[..] == old(info[..])[e := old(info[e]).(len := 0)]
      ensures desc[..] == old(desc[..])[e := ZERO]
    {
      desc[e] := ZERO;
      info[e] := info[e].(len := 0);
    }

    /** The body of rtl8101_tx_clear's loop. */
    method ClearEntry(entry: nat)
      requires Shaped() && entry < N
      modifies `freed, `dropped, info, desc
      ensures View() == ClearSlot(old(View()), entry)
    {
      if info[entry].len != 0 {
        var skb := info[entry].skb;
        ghost var addr := desc[entry].addr;
        UnmapTxSkb(entry);
        if skb.Some? {
          info[entry] := info[entry].(skb := None);
          freed := freed + [Cleared(Posted(skb.value, addr))];
        }
        dropped := dropped + 1;
      }
    }

    /** rtl8101_tx_clear. The loop variable and its bound are unsigned ints. */
    method Clear()
      requires Shaped()
      modifies this, info, desc
      ensures View() == TxRing.Clear(old(View()))
    {
      var i := dirty;
      while i < Add(dirty, N)
        invariant dirty == old(dirty) <= i <= dirty + N
        invariant i != dirty ==> dirty + N < U32
        invariant View() == ClearN(old(View()), i - dirty)
      {
        ClearEntry(i % N);
        i := i + 1;
      }
      cur, dirty := 0, 0;
    }

    /** The body of rtl8101_tx_interrupt's loop, past the DescOwn test, at counter value d. */
    method ReapEntry(d: Word32)
      requires Shaped()
      modifies this, info, desc
      ensures View() == ReapOne(old(View()).(dirty := d)).(dirty := old(dirty))
    {
      var entry := d % N;
      var status := desc[entry];
      bytes := bytes + info[entry].len;
      packets := packets + 1;
      UnmapTxSkb(entry);
      if status.last {
        freed := freed + if info[entry].skb.Some? then [Reaped(Posted(info[entry].skb.value, status.addr))] else [];
        info[entry] := info[entry].(skb := None);
      }
    }

    /** One turn of the loop, at counter value d, in a reap that began at ring t and has taken
        k turns. */
    method ReapTurn(d: Word32, ghost t: Tx, ghost k: nat) returns (stop: bool)
      requires Shaped() && Wf(t) && k < N && dirty == t.dirty && d == Add(t.dirty, k)
      requires View().(dirty := d) == ReapN(t, k)
      modifies this, info, desc
      ensures dirty == old(dirty) && stop == t.desc[Slot(t.dirty, k)].own
      ensures stop ==> View() == old(View())
      ensures !stop ==> View().(dirty := Add(d, 1)) == ReapN(t, k + 1)
      ensures k < Count(t) ==> ReapTurns(t, k) == if stop then 0 else 1 + ReapTurns(t, k + 1)
    {
      ReapNReaches(t, k);
      AddMovesWindow(t.dirty, k, 0);
      stop := desc[d % N].own;
      if !stop {
        ReapEntry(d);
      }
    }

    /** The loop of rtl8101_tx_interrupt, which works on a copy of dirty_tx. */
    method Reap()
      requires Shaped() && Count(View()) <= N
      modifies this, info, desc
      ensures View() == TxRing.Reap(old(View()))
    {
      ghost var t := View();
      ghost var k := 0;
      var d, left := dirty, Sub(cur, dirty);
      while left > 0
        invariant dirty == t.dirty
        invariant k + left == Count(t) && d == Add(t.dirty, k)
        invariant View().(dirty := d) == ReapN(t, k)
        invariant ReapTurns(t, 0) == k + ReapTurns(t, k)
      {
        var stop := ReapTurn(d, t, k);
        if stop {
          break;
        }
        AddAdd(t.dirty, k, 1);
        d := Add(d, 1);
        left := left - 1;
        k := k + 1;
      }
      dirty := d;
    }

    /** The stores of rtl8101_start_xmit that hand an skb to the NIC. */
    method Post(skb: Skb, addr: nat)
      requires Shaped()
      modifies this, info, desc
      ensures View() == TxRing.Post(old(View()), skb, addr)
    {
      var entry := cur % N;
      info[entry] := info[entry].(skb := Some(skb));
      info[entry] := info[entry].(len := skb.len);
      desc[entry] := TxPosted((entry + 1) % N == 0, skb.len, addr).(own := false);
      desc[entry] := desc[entry].(own := true);
      cur := Add(cur, 1);
      accepted := accepted + [Posted(skb, addr)];
    }
  }
}
