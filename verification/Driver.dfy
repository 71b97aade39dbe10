/** The RTL8101 network driver: its handlers as methods that update the two rings and the flags in
    place. The contract of each handler equates the device it leaves with the call of WholeDevice
    it performs, and says that the device's invariant is kept. The constructor leaves the initial
    device, so the theorems about runs of WholeDevice, DeviceControl and RxRing are about
    sequences of calls of these methods, interleaved with writes of the NIC. */
module Driver {
  import opened Counters
  import C = DeviceControl
  import T = TxRing
  import R = RxRing
  import W = WholeDevice
  import opened TxRingBuffer
  import opened RxRingBuffer

  class Rtl8101 {
    const maxFrags: nat
    var open: bool
    var carrier: bool
    var stopped: bool
    var mask: nat
    var napi: bool
    var task: bool
    const tx: TxBuffer
    const rx: RxBuffer

    ghost predicate Shaped() {
      tx.Shaped() && rx.Shaped() && tx.desc != rx.desc
    }

    ghost function Control(): (d: C.Ctl)
      requires Shaped()
      reads this, tx, tx.info, tx.desc
      ensures T.Wf(d.tx)
    {
      C.Ctl(maxFrags, open, carrier, stopped, mask, napi, task, tx.View())
    }

    ghost function View(): (d: W.Dev)
      requires Shaped()
      reads this, tx, tx.info, tx.desc, rx, rx.desc, rx.skb
      ensures W.Wf(d)
    {
      W.Dev(Control(), rx.View())
    }

    /** net_register_dev leaves the carrier off and the interrupts masked. */
    constructor (maxFrags: nat)
      ensures Shaped() && fresh(tx) && fresh(rx) && fresh(tx.info) && fresh(tx.desc) && fresh(rx.desc) && fresh(rx.skb)
      ensures W.Initial(View(), maxFrags) && this.maxFrags == maxFrags
      ensures forall i :: 0 <= i < N ==> rx.skb[i].None?
    {
      this.maxFrags := maxFrags;
      open, carrier, stopped, mask, napi, task := false, false, true, 0, false, false;
      tx := new TxBuffer();
      rx := new RxBuffer();
    }

    /** rtl8101_hw_init, as far as the driver's own state goes. */
    method HwInit()
      requires Shaped()
      modifies `stopped, `mask
      ensures Control() == C.HwInit(old(Control()))
    {
      stopped := true;
      mask := 0;
      mask := C.INTR_EN_MASK;
      stopped := false;
    }

    method TxBuffsAvail() returns (n: Word32)
      requires Shaped()
      ensures n == T.Avail(tx.View())
      ensures T.Count(tx.View()) < N ==> n == N - 1 - T.Count(tx.View())
    {
      n := (tx.dirty + N - tx.cur - 1) % U32;
      if Sub(tx.cur, tx.dirty) < N {
        T.AvailIsRoom(tx.View());
      }
    }

    /** The accepting branch of rtl8101_start_xmit. */
    method Accept(skb: T.Skb, addr: nat)
      requires Shaped()
      modifies `stopped, tx, tx.info, tx.desc
      ensures tx.View() == T.Post(old(tx.View()), skb, addr)
      ensures stopped == (old(stopped) || T.Avail(tx.View()) < maxFrags)
    {
      tx.Post(skb, addr);
      var avail := TxBuffsAvail();
      if avail < maxFrags {
        stopped := true;
        avail := TxBuffsAvail();
        stopped := avail < maxFrags;
      }
    }

    /** rtl8101_start_xmit on the flags and the ring. */
    method Transmit(skb: T.Skb, addr: nat) returns (busy: bool)
      requires Shaped()
      modifies `stopped, tx, tx.info, tx.desc
      ensures Control() == C.StartXmit(old(Control()), skb, addr)
      ensures busy <==> tx.refused == old(tx.refused) + 1
    {
      var entry := tx.cur % N;
      var avail := TxBuffsAvail();
      busy := avail < skb.frags || tx.desc[entry].own;
      if busy {
        stopped := true;
        tx.dropped := tx.dropped + 1;
        tx.refused := tx.refused + 1;
      } else {
        Accept(skb, addr);
      }
    }

    /** rtl8101_start_xmit. */
    method StartXmit(skb: T.Skb, addr: nat) returns (busy: bool)
      requires Shaped()
      modifies `stopped, tx, tx.info, tx.desc
      ensures View() == W.Next(old(View()), W.Xmit(skb, addr))
      ensures W.Keeps(old(View()), W.Xmit(skb, addr), View())
      ensures busy <==> tx.refused == old(tx.refused) + 1
    {
      W.NextKeeps(View(), W.Xmit(skb, addr));
      busy := Transmit(skb, addr);
      W.XmitIs(old(View()), skb, addr, Control());
    }

    /** rtl8101_tx_interrupt. */
    method TxInterrupt()
      requires Shaped() && T.Count(tx.View()) <= N
      modifies `stopped, tx, tx.info, tx.desc
      ensures Control() == C.TxInterrupt(old(Control()))
    {
      var dirty := tx.dirty;
      tx.Reap();
      if tx.dirty != dirty {
        var avail := TxBuffsAvail();
        if stopped && avail >= maxFrags {
          stopped := false;
        }
      }
    }

    /** rtl8101_poll. */
    method Poll(budget: Word32, gs: seq<R.Grant>) returns (work: Word32)
      requires Shaped() && T.Count(tx.View()) <= N
      requires R.Gap(rx.View()) <= N
      modifies `stopped, `napi, `mask, tx, tx.info, tx.desc, rx, rx.desc, rx.skb
      ensures View() == W.Next(old(View()), W.Poll(budget, gs)) && work == W.Work(old(rx.View()), budget)
      ensures W.Keeps(old(View()), W.Poll(budget, gs), View())
    {
      W.NextKeeps(View(), W.Poll(budget, gs));
      work := rx.RxInterrupt(budget, gs);
      TxInterrupt();
      if work < budget {
        napi := false;
        mask := C.INTR_EN_MASK;
      }
      W.PollIs(old(View()), budget, gs, View());
    }

    /** rtl8101_interrupt, once it has found the interrupt to be its own. */
    method Interrupt()
      requires Shaped()
      modifies `mask, `napi
      ensures View() == W.Next(old(View()), W.Irq)
      ensures W.Keeps(old(View()), W.Irq, View())
    {
      W.NextKeeps(View(), W.Irq);
      mask := 0;
      napi := true;
    }

    /** The tests with which rtl8101_interrupt begins: a status of all ones means that the device is
        gone, and one without an enabled bit that the interrupt is another device's. */
    method HandleInterrupt(status: bv16) returns (handled: bool)
      requires Shaped()
      modifies `mask, `napi
      ensures handled <==> status != 0xFFFF && status & 0x0115 != 0 && open
      ensures View() == if handled then W.Next(old(View()), W.Irq) else old(View())
      ensures handled ==> W.Keeps(old(View()), W.Irq, View())
    {
      if status == 0xFFFF || status == 0 {
        return false;
      }
      if status & 0x0115 == 0 {
        return false;
      }
      if !open {
        return false;
      }
      Interrupt();
      handled := true;
    }

    method InitRingIndexes()
      requires Shaped()
      modifies tx`cur, tx`dirty, rx`cur, rx`dirty
      ensures tx.View() == old(tx.View()).(cur := 0, dirty := 0)
      ensures rx.View() == R.ResetIndexes(old(rx.View()))
    {
      tx.dirty, rx.dirty, tx.cur, rx.cur := 0, 0, 0, 0;
    }

    /** rtl8101_check_link_status. Link-down resets the Rx indexes without looking at them. */
    method CheckLinkStatus(up: bool)
      requires Shaped()
      modifies `carrier, `stopped, `mask, tx, tx.info, tx.desc, rx`cur, rx`dirty
      ensures View() == W.Next(old(View()), W.Link(up))
      ensures W.Keeps(old(View()), W.Link(up), View())
    {
      W.NextKeeps(View(), W.Link(up));
      if carrier != up {
        if up {
          HwInit();
          carrier := true;
        } else {
          carrier := false;
          stopped := true;
          mask := 0;
          tx.Clear();
          InitRingIndexes();
        }
      }
      W.LinkIs(old(View()), up, View());
    }

    /** The part of rtl8101_reset_task that works on the rings. */
    method ResetRings(gs: seq<R.Grant>) returns (refilled: bool)
      requires Shaped() && R.Gap(rx.View()) <= N
      modifies tx, tx.info, tx.desc, rx, rx.desc, rx.skb
      ensures var q := W.FullPass(old(rx.View()), gs);
              (refilled <==> q.dirty == q.cur) && rx.View() == R.GuardedReset(q)
      ensures tx.View() == T.Clear(old(tx.View()))
    {
      var _ := rx.RxInterrupt(U32 - 1, gs);
      tx.Clear();
      refilled := rx.dirty == rx.cur;
      if refilled {
        InitRingIndexes();
      }
    }

    /** rtl8101_reset_task. */
    method ResetTask(gs: seq<R.Grant>)
      requires Shaped()
      requires R.Gap(rx.View()) <= N
      modifies this, tx, tx.info, tx.desc, rx, rx.desc, rx.skb
      ensures View() == W.Next(old(View()), W.ResetTask(gs))
      ensures W.Keeps(old(View()), W.ResetTask(gs), View())
    {
      W.NextKeeps(View(), W.ResetTask(gs));
      task := false;
      if open {
        napi := false;
        mask := 0;
        var refilled := ResetRings(gs);
        if refilled {
          HwInit();
          stopped := false;
        } else {
          task := true;
        }
      }
      W.ResetIs(old(View()), gs, View());
    }

    /** rtl8101_tx_timeout. */
    method TxTimeout()
      requires Shaped()
      modifies `mask, `task
      ensures View() == W.Next(old(View()), W.Timeout)
      ensures W.Keeps(old(View()), W.Timeout, View())
    {
      W.NextKeeps(View(), W.Timeout);
      mask := 0;
      task := true;
    }

    /** rtl8101_init_buffers. */
    method InitBuffers(gs: seq<R.Grant>) returns (ok: bool)
      requires Shaped()
      modifies tx, tx.info, tx.desc, rx, rx.desc, rx.skb
      ensures ok <==> W.Fills(old(rx.View()), gs)
      ensures tx.View() == T.FreshRing(old(tx.View()))
      ensures rx.View() == W.RxNext(old(View()), W.Open(gs))
    {
      tx.InitRing();
      ok := rx.InitBuffers(gs);
    }

    /** What rtl8101_open does once it has the rings. */
    method BringUp()
      requires Shaped()
      modifies `task, `napi, `mask, `stopped, `open
      ensures Control() == C.HwInit(old(Control())).(open := true, napi := false, task := false)
    {
      task := false;
      napi := false;
      mask := 0;
      HwInit();
      open := true;
    }

    /** rtl8101_open, with an interrupt line that can be had. */
    method Open(gs: seq<R.Grant>) returns (ok: bool)
      requires Shaped()
      modifies this, tx, tx.info, tx.desc, rx, rx.desc, rx.skb
      ensures ok <==> W.Fills(old(rx.View()), gs)
      ensures View() == W.Next(old(View()), W.Open(gs))
      ensures W.Keeps(old(View()), W.Open(gs), View())
    {
      W.NextKeeps(View(), W.Open(gs));
      ok := InitBuffers(gs);
      if ok {
        BringUp();
      }
      W.OpenIs(old(View()), gs, View());
    }

    /** rtl8101_close. */
    method Close()
      requires Shaped()
      modifies this, tx, tx.info, tx.desc, rx, rx.desc, rx.skb
      ensures View() == W.Next(old(View()), W.Close)
      ensures W.Keeps(old(View()), W.Close, View())
    {
      W.NextKeeps(View(), W.Close);
      if open {
        napi := false;
        stopped := true;
        carrier := false;
        mask := 0;
        tx.Clear();
        rx.RxClear();
        open := false;
      }
    }
  }
}
