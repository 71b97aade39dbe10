/** The character device of expt_drv_with_dma.c with its calls as methods on the shared fields.
    A call that is not interrupted is a run of the steps of CharTransmit or CharReceive; the
    contracts say which. */
module CharDevice {
  import opened Common
  import T = CharTransmit
  import R = CharReceive

  datatype Reply = Count(n: nat) | EAgain | EBusy | EFault

  /** The increment and the check of one call of expt_write by w. */
  function Claimed(s: T.Sys, w: T.Tid): T.Sys {
    T.Next(T.Next(s, T.Inc(w)), T.Check(w))
  }

  /** The whole call. */
  function Written(s: T.Sys, w: T.Tid, data: T.Bytes, fault: bool): T.Sys {
    var q := Claimed(s, w);
    if s.c.busy != 0 then T.Next(q, T.BackOff(w))
    else if fault then T.Next(q, T.Fault(w, []))
    else T.Next(T.Next(q, T.Copy(w, data)), T.Publish(w))
  }

  lemma ClaimedSound(s: T.Sys, w: T.Tid) returns (q: T.Sys)
    requires T.Sound(s) && !T.Inside(s.c, w)
    ensures q == Claimed(s, w) && T.Sound(q)
  {
    q := T.Next(s, T.Inc(w));
    T.StepKeepsSound(s, T.Inc(w));
    T.StepKeepsSound(q, T.Check(w));
    q := T.Next(q, T.Check(w));
  }

  lemma ClaimedWhere(s: T.Sys, w: T.Tid)
    requires !T.Inside(s.c, w)
    ensures Claimed(s, w).d == s.d
    ensures s.c.busy == 0 ==> w in Claimed(s, w).c.claimed
    ensures s.c.busy != 0 ==> T.Next(Claimed(s, w), T.BackOff(w)) == s
  {
    assert s.c.tentative + {w} - {w} == s.c.tentative;
    assert s.c.backing + {w} - {w} == s.c.backing;
  }

  lemma PublishSound(q: T.Sys, w: T.Tid, data: T.Bytes)
    requires T.Sound(q) && w in q.c.claimed
    ensures var r := T.Next(T.Next(q, T.Copy(w, data)), T.Publish(w));
            T.Sound(r) && r.d.published == q.d.published + [T.Taken(data)]
  {
    T.StepKeepsSound(q, T.Copy(w, data));
    T.StepKeepsSound(T.Next(q, T.Copy(w, data)), T.Publish(w));
  }

  /** The steps an uninterrupted call takes. */
  function WriteSteps(s: T.Sys, w: T.Tid, data: T.Bytes, fault: bool): seq<T.Step> {
    [T.Inc(w)] + [T.Check(w)] +
    if s.c.busy != 0 then [T.BackOff(w)]
    else if fault then [T.Fault(w, [])]
    else [T.Copy(w, data)] + [T.Publish(w)]
  }

  lemma ClaimIsRun(s: T.Sys, w: T.Tid) returns (es: seq<T.Step>)
    requires !T.Inside(s.c, w)
    ensures es == [T.Inc(w)] + [T.Check(w)] && T.Legal(s, es) && T.After(s, es) == Claimed(s, w)
  {
    T.Snoc(s, [], T.Inc(w));
    assert [] + [T.Inc(w)] == [T.Inc(w)];
    T.Snoc(s, [T.Inc(w)], T.Check(w));
    es := [T.Inc(w)] + [T.Check(w)];
  }

  /** Those steps are enabled one after the other, and together they are the call. */
  lemma WriteIsLegal(s: T.Sys, w: T.Tid, data: T.Bytes, fault: bool)
    requires !T.Inside(s.c, w)
    ensures T.Legal(s, WriteSteps(s, w, data, fault))
    ensures T.After(s, WriteSteps(s, w, data, fault)) == Written(s, w, data, fault)
  {
    var es := ClaimIsRun(s, w);
    if s.c.busy != 0 {
      T.Snoc(s, es, T.BackOff(w));
    } else if fault {
      T.Snoc(s, es, T.Fault(w, []));
    } else {
      T.Snoc(s, es, T.Copy(w, data));
      T.Snoc(s, es + [T.Copy(w, data)], T.Publish(w));
      assert WriteSteps(s, w, data, fault) == es + [T.Copy(w, data)] + [T.Publish(w)];
    }
  }

  lemma WrittenEffect(s: T.Sys, w: T.Tid, data: T.Bytes, fault: bool)
    requires T.Sound(s) && !T.Inside(s.c, w)
    ensures T.Sound(Written(s, w, data, fault))
    ensures s.c.busy != 0 ==> Written(s, w, data, fault) == s
    ensures s.c.busy == 0 && fault ==>
              && Written(s, w, data, fault).d.published == s.d.published
              && Written(s, w, data, fault).c.orphans == s.c.orphans + 1
    ensures s.c.busy == 0 && !fault ==>
              Written(s, w, data, fault).d.published == s.d.published + [T.Taken(data)]
  {
    var q := ClaimedSound(s, w);
    ClaimedWhere(s, w);
    if s.c.busy == 0 {
      if fault {
        T.StepKeepsSound(q, T.Fault(w, []));
      } else {
        PublishSound(q, w, data);
      }
    }
  }

  /** So the call keeps the mutual exclusion; it publishes its data if the buffer was free and the
      copy succeeded, and if the buffer was not free it changes nothing. */
  lemma WriteIsRun(s: T.Sys, w: T.Tid, data: T.Bytes, fault: bool)
    requires T.Sound(s) && !T.Inside(s.c, w)
    ensures var es := WriteSteps(s, w, data, fault);
            T.Legal(s, es) && T.After(s, es) == Written(s, w, data, fault)
    ensures T.Sound(Written(s, w, data, fault))
    ensures s.c.busy != 0 ==> Written(s, w, data, fault) == s
    ensures s.c.busy == 0 && fault ==>
              && Written(s, w, data, fault).d.published == s.d.published
              && Written(s, w, data, fault).c.orphans == s.c.orphans + 1
    ensures s.c.busy == 0 && !fault ==>
              Written(s, w, data, fault).d.published == s.d.published + [T.Taken(data)]
  {
    WriteIsLegal(s, w, data, fault);
    WrittenEffect(s, w, data, fault);
  }

  /** The NIC sends the packet and the handler takes note. */
  const SENDING: seq<T.Step> := [T.NicSend] + [T.TxOkAck] + [T.TxOkDec]

  lemma SendingIsRun(s: T.Sys)
    requires T.Sound(s) && s.c.own
    ensures T.Legal(s, SENDING)
    ensures var q := T.After(s, SENDING);
            && q.d.published == s.d.published && q.d.sent == s.d.sent + [T.Transmitted(s.d)]
            && q.c == s.c.(own := false, busy := s.c.busy - 1)
  {
    T.Snoc(s, [], T.NicSend);
    assert [] + [T.NicSend] == [T.NicSend];
    T.Snoc(s, [T.NicSend], T.TxOkAck);
    T.Snoc(s, [T.NicSend] + [T.TxOkAck], T.TxOkDec);
  }

  /** A write to a free device, sent. */
  lemma WriteAndSend(s: T.Sys, w: T.Tid, data: T.Bytes) returns (es: seq<T.Step>, q: T.Sys)
    requires T.Sound(s) && !T.Inside(s.c, w) && s.c.busy == 0
    ensures T.Legal(s, es) && q == T.After(s, es) && T.Sound(q) && q.c.busy == 0 && !T.Inside(q.c, w)
    ensures q.d.published == s.d.published + [T.Taken(data)] && |q.d.sent| == |q.d.published|
  {
    var p := Written(s, w, data, false);
    WriteIsRun(s, w, data, false);
    assert p.c.own && p.c.busy == 1;
    SendingIsRun(p);
    es := WriteSteps(s, w, data, false) + SENDING;
    q := T.After(s, es);
    T.Append(s, WriteSteps(s, w, data, false), SENDING);
    T.RunsStaySound(s, es);
  }

  lemma WriteAndSendTwice(s: T.Sys, w: T.Tid, a: T.Bytes, b: T.Bytes) returns (es: seq<T.Step>)
    requires T.Sound(s) && !T.Inside(s.c, w) && s.c.busy == 0
    ensures T.Legal(s, es)
    ensures var d := T.After(s, es).d;
            d.published == s.d.published + [T.Taken(a)] + [T.Taken(b)] && |d.sent| == |d.published|
  {
    var es1, q1 := WriteAndSend(s, w, a);
    var es2, q2 := WriteAndSend(q1, w, b);
    T.Append(s, es1, es2);
    es := es1 + es2;
  }

  /** A run in which a packet is not sent as it was written: three bytes, then a full buffer. */
  lemma FullBufferSentLonger(s: T.Sys, w: T.Tid, a: T.Bytes, b: T.Bytes) returns (es: seq<T.Step>)
    requires T.Initial(s) && |a| == 3 && |b| == T.PKT_SIZE
    ensures T.Legal(s, es) && |T.After(s, es).d.sent| == 2
    ensures T.After(s, es).d.published == [a] + [b] && T.After(s, es).d.sent[1].len == 259
  {
    es := WriteAndSendTwice(s, w, a, b);
    assert T.Taken(a) == a && T.Taken(b) == b;
    T.OrOfTwo([a] + [b]);
    T.SentExactlyIff(s, es, 1);
  }

  // ---- when the device can still be used ----

  /** Some run publishes another packet. */
  ghost predicate CanPublish(s: T.Sys) {
    exists es :: T.Legal(s, es) && |T.After(s, es).d.published| > |s.d.published|
  }

  /** How far the calls and packets under way are from their end. */
  function Pending(c: T.Claims): nat {
    4 * |c.tentative| + 3 * |c.backing| + 3 * |c.claimed| + 2 * |c.copied|
    + 3 * Flag(c.own) + 2 * Flag(c.txOk) + Flag(c.acking)
  }

  lemma CheckLowers(c: T.Claims, w: T.Tid)
    requires T.ClaimsSound(c) && w in c.tentative
    ensures Pending(T.ClaimsNext(c, T.Check(w))) < Pending(c)
  {
    T.Leaves(c.tentative, w);
    if c.busy != 1 { T.Joins(c.backing, w); } else { T.Joins(c.claimed, w); }
  }

  lemma CopyLowers(c: T.Claims, w: T.Tid, data: T.Bytes)
    requires T.ClaimsSound(c) && w in c.claimed
    ensures Pending(T.ClaimsNext(c, T.Copy(w, data))) < Pending(c)
  {
    T.Leaves(c.claimed, w);
    T.Joins(c.copied, w);
  }

  /** While something is under way some step brings it closer to its end, or publishes. */
  lemma SomeStep(s: T.Sys) returns (e: T.Step)
    requires T.Sound(s) && s.c.orphans == 0 && s.c.busy != 0
    ensures T.Enabled(s.c, e) && T.Next(s, e).c.orphans == 0
    ensures e.Publish? || (T.Next(s, e).d.published == s.d.published && Pending(T.Next(s, e).c) < Pending(s.c))
  {
    if w :| w in s.c.copied {
      e := T.Publish(w);
    } else if w :| w in s.c.claimed {
      e := T.Copy(w, []);
      CopyLowers(s.c, w, []);
    } else if w :| w in s.c.backing {
      e := T.BackOff(w);
      T.Leaves(s.c.backing, w);
    } else if w :| w in s.c.tentative {
      e := T.Check(w);
      CheckLowers(s.c, w);
    } else {
      assert s.c.copied == {} && s.c.claimed == {} && s.c.backing == {} && s.c.tentative == {};
      e := if s.c.own then T.NicSend else if s.c.txOk then T.TxOkAck else T.TxOkDec;
    }
  }

  lemma NobodyInside(c: T.Claims, w: T.Tid)
    requires T.ClaimsSound(c) && c.busy == 0
    ensures !T.Inside(c, w)
  {
    assert |c.tentative| == |c.backing| == |c.claimed| == |c.copied| == 0;
  }

  /** Without an abandoned claim the device comes free, whatever is under way, and takes a packet. */
  lemma {:induction false} PublishesAgain(s: T.Sys) returns (es: seq<T.Step>)
    requires T.Sound(s) && s.c.orphans == 0
    ensures T.Legal(s, es) && |T.After(s, es).d.published| > |s.d.published|
    decreases Pending(s.c)
  {
    if s.c.busy == 0 {
      NobodyInside(s.c, 0);
      es := WriteSteps(s, 0, [], false);
      WriteIsRun(s, 0, [], false);
    } else {
      var e := SomeStep(s);
      T.Snoc(s, [], e);
      es := [] + [e];
      if !e.Publish? {
        T.StepKeepsSound(s, e);
        var fs := PublishesAgain(T.Next(s, e));
        T.Append(s, es, fs);
        es := es + fs;
      }
    }
  }

  /** From any sound state, with any calls under way: the device can publish another packet if and
      only if no write has returned -EFAULT after it got the buffer. */
  lemma UsableIff(s: T.Sys)
    requires T.Sound(s)
    ensures CanPublish(s) <==> s.c.orphans == 0
  {
    if s.c.orphans == 0 {
      var es := PublishesAgain(s);
    } else {
      forall es | T.Legal(s, es) ensures T.After(s, es).d.published == s.d.published {
        T.FaultBlocksForever(s, es);
      }
    }
  }

  /** One -EFAULT on a free device is enough. */
  lemma FaultEndsUse(s: T.Sys, w: T.Tid, data: T.Bytes)
    requires T.Sound(s) && !T.Inside(s.c, w) && s.c.busy == 0
    ensures CanPublish(s) && !CanPublish(Written(s, w, data, true))
  {
    assert s.c.orphans == 0;
    UsableIff(s);
    WriteIsRun(s, w, data, true);
    UsableIff(Written(s, w, data, true));
  }

  class ExptDevice {
    var pktTxBusy: int
    var txOwn: bool
    var txOk: bool
    const pktTx: array<nat>
    var pktRxAvail: int
    var rxPktSize: nat
    var rxOwn: bool
    var rxOk: bool
    var rxLen: nat
    const pktRx: array<nat>
    ghost var tx: T.Sys
    ghost var rx: R.Rx

    /** The fields are what the two machines say, with no call in progress on the Rx side. */
    ghost predicate Valid()
      reads this, pktTx, pktRx
    {
      && pktTx.Length == T.PKT_SIZE && pktRx.Length == R.PKT_SIZE && pktTx != pktRx
      && pktTxBusy == tx.c.busy && txOwn == tx.c.own && txOk == tx.c.txOk && pktTx[..] == tx.d.buf
      && !tx.c.acking
      && pktRxAvail == rx.avail && rxPktSize == rx.size && rxOwn == rx.own && rxOk == rx.rxOk
      && rxLen == rx.frameLen && pktRx[..] == rx.buf && rx.pc.Calm? && !rx.acking
    }

    /** setup_buffers. */
    constructor ()
      ensures Valid() && T.Initial(tx) && R.Initial(rx)
      ensures fresh(pktTx) && fresh(pktRx)
    {
      pktTxBusy, txOwn, txOk := 0, false, false;
      pktRxAvail, rxPktSize, rxOwn, rxOk, rxLen := 0, 0, true, false, 0;
      pktTx := new nat[T.PKT_SIZE](_ => 0);
      pktRx := new nat[R.PKT_SIZE](_ => 0);
      new;
      tx := T.Sys(T.Claims(0, {}, {}, {}, {}, 0, false, false, false), T.Data(pktTx[..], 0, map[], [], []));
      rx := R.Rx(true, 0, false, false, 0, 0, 0, R.Calm, pktRx[..], [], [], []);
    }

    method CopyFromUser(data: T.Bytes)
      requires |data| <= pktTx.Length
      modifies pktTx
      ensures pktTx[..] == T.Overlay(old(pktTx[..]), data)
    {
      for i := 0 to |data|
        invariant pktTx[..i] == data[..i]
        invariant pktTx[i..] == old(pktTx[i..])
      {
        pktTx[i] := data[i];
      }
      assert pktTx[..] == pktTx[..|data|] + pktTx[|data|..];
    }

    /** The claim at the start of expt_write. */
    method TryClaim(ghost w: T.Tid) returns (mine: bool)
      requires Valid() && !T.Inside(tx.c, w)
      modifies `pktTxBusy, `tx
      ensures Valid() && (mine <==> old(pktTxBusy) == 0)
      ensures tx == if mine then Claimed(old(tx), w) else T.Next(Claimed(old(tx), w), T.BackOff(w))
    {
      pktTxBusy := pktTxBusy + 1;
      tx := Claimed(tx, w);
      mine := pktTxBusy == 1;
      if !mine {
        pktTxBusy := pktTxBusy - 1;
        tx := T.Next(tx, T.BackOff(w));
      }
    }

    /** expt_write; `fault` says whether copy_from_user fails. */
    method Write(ghost w: T.Tid, data: T.Bytes, fault: bool) returns (r: Reply)
      requires Valid() && !T.Inside(tx.c, w)
      modifies `pktTxBusy, `txOwn, `tx, pktTx
      ensures Valid() && tx == Written(old(tx), w, data, fault)
      ensures r == if old(pktTxBusy) != 0 then EBusy else if fault then EFault else Count(|data|)
    {
      var mine := TryClaim(w);
      if !mine {
        return EBusy;
      }
      if fault {
        tx := T.Next(tx, T.Fault(w, []));
        return EFault;
      }
      CopyFromUser(T.Taken(data));
      tx := T.Next(tx, T.Copy(w, data));
      txOwn := true;
      tx := T.Next(tx, T.Publish(w));
      r := Count(|data|);
    }

    /** expt_read on a packet read to its end: the buffer goes back to the NIC. */
    method EndOfPacket() returns (off': nat)
      requires Valid() && R.Sound(rx) && rx.avail != 0 && rx.off >= rx.size
      modifies `pktRxAvail, `rxOwn, `rx
      ensures Valid() && R.Sound(rx) && off' == rx.off == 0 && rx.own && rx.avail == 0
      ensures rx.done == old(rx).done + [old(rx).got] && rx.got == []
    {
      R.StepKeepsSound(rx, R.ReadEnd);
      pktRxAvail := 0;
      rx := R.Next(rx, R.ReadEnd);
      R.StepKeepsSound(rx, R.Rewind);
      off' := 0;
      rx := R.Next(rx, R.Rewind);
      R.StepKeepsSound(rx, R.GiveBack);
      rxOwn := true;
      rx := R.Next(rx, R.GiveBack);
    }

    /** expt_read; the file offset is the reader's own. */
    method Read(off: nat, len: nat, fault: bool) returns (r: Reply, off': nat, bytes: R.Bytes)
      requires Valid() && R.Sound(rx) && off == rx.off
      modifies `pktRxAvail, `rxOwn, `rx
      ensures Valid() && R.Sound(rx) && off' == rx.off
      ensures old(rx).avail == 0 ==> r == EAgain && rx == old(rx) && bytes == []
      ensures old(rx).avail != 0 && off >= old(rx).size ==>
                && r == Count(0) && bytes == [] && rx.own && rx.avail == 0 && off' == 0
                && rx.done == old(rx).done + [old(rx).got] && rx.got == []
      ensures old(rx).avail != 0 && off < old(rx).size && fault ==> r == EFault && rx == old(rx) && bytes == []
      ensures old(rx).avail != 0 && off < old(rx).size && !fault ==>
                && r == Count(|bytes|) && rx == R.Next(old(rx), R.Read(len))
                && rx.got == old(rx).got + bytes && |bytes| == Min(len, old(rx).size - off)
    {
      bytes, off' := [], off;
      if pktRxAvail == 0 {
        return EAgain, off', bytes;
      }
      if off >= rxPktSize {
        off' := EndOfPacket();
        return Count(0), off', bytes;
      }
      var toRead := Min(len, rxPktSize - off);
      if fault {
        return EFault, off', bytes;
      }
      R.StepKeepsSound(rx, R.Read(len));
      bytes := pktRx[off..off + toRead];
      off' := off + toRead;
      rx := R.Next(rx, R.Read(len));
      r := Count(toRead);
    }

    /** expt_pci_intr_handler, the TX_OK and RX_OK branches. */
    method Interrupt()
      requires Valid()
      modifies `txOk, `pktTxBusy, `rxOk, `rxPktSize, `pktRxAvail, `tx, `rx
      ensures Valid() && !txOk && !rxOk
      ensures tx == if old(txOk) then T.Next(T.Next(old(tx), T.TxOkAck), T.TxOkDec) else old(tx)
      ensures rx == if old(rxOk) then R.Next(R.Next(old(rx), R.RxOkAck), R.RxOkRaise) else old(rx)
    {
      if txOk {
        txOk := false;
        tx := T.Next(tx, T.TxOkAck);
        pktTxBusy := pktTxBusy - 1;
        tx := T.Next(tx, T.TxOkDec);
      }
      if rxOk {
        rxOk := false;
        rx := R.Next(rx, R.RxOkAck);
        rxPktSize := rxLen;
        pktRxAvail := pktRxAvail + 1;
        rx := R.Next(rx, R.RxOkRaise);
      }
    }
  }
}
