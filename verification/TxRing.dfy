/** The transmit ring of net_stk.c: `cur_tx`, `dirty_tx`, `tx_skb[]` and `TxDescArray[]`.
    The operations are given here as functions on ring values; class `TxBuffer` in
    TxRingBuffer.dfy performs them in place. */
module TxRing {
  import opened Common
  import opened Counters
  import opened Descriptors

  datatype Skb = Skb(id: nat, len: nat, frags: nat)

  /** One element of tx_skb[]. */
  datatype Info = Info(skb: Option<Skb>, len: nat)

  const EMPTY: Info := Info(None, 0)

  /** An accepted skb, and the bus address its data was mapped at. */
  datatype Posted = Posted(skb: Skb, addr: nat)

  /** How an accepted skb left the ring, and the address that was unmapped then. */
  datatype Freed = Reaped(post: Posted) | Cleared(post: Posted)

  /** The ring, its share of the device statistics, and three history variables: the skbs
      accepted so far, those freed so far, and the number of NETDEV_TX_BUSY returns. */
  datatype Tx = Tx(cur: Word32, dirty: Word32, info: seq<Info>, desc: seq<Desc>,
                   packets: nat, bytes: nat, dropped: nat,
                   accepted: seq<Posted>, freed: seq<Freed>, refused: nat)

  predicate Wf(t: Tx) {
    |t.info| == N && |t.desc| == N
  }

  function Count(t: Tx): Word32 {
    Sub(t.cur, t.dirty)
  }

  /** TX_BUFFS_AVAIL, in wrapping arithmetic. */
  function Avail(t: Tx): Word32 {
    (t.dirty + N - t.cur - 1) % U32
  }

  lemma AvailIsRoom(t: Tx)
    requires Count(t) < N
    ensures Avail(t) == N - 1 - Count(t)
  {
  }

  // ---- operations ----

  /** What start_xmit does once it has decided on slot e. */
  function PostAt(t: Tx, e: nat, skb: Skb, addr: nat): (r: Tx)
    requires Wf(t) && e < N
    ensures Wf(r)
  {
    t.(cur := Add(t.cur, 1),
       info := t.info[e := Info(Some(skb), skb.len)],
       desc := t.desc[e := TxPosted(e == N - 1, skb.len, addr)],
       accepted := t.accepted + [Posted(skb, addr)])
  }

  function Post(t: Tx, skb: Skb, addr: nat): (r: Tx)
    requires Wf(t)
    ensures Wf(r)
  {
    PostAt(t, Slot(t.cur, 0), skb, addr)
  }

  function Refuse(t: Tx): Tx {
    t.(dropped := t.dropped + 1, refused := t.refused + 1)
  }

  /** start_xmit under the lock, with slot e picked before: its two tests, then the post. */
  function SubmitAt(t: Tx, e: nat, skb: Skb, addr: nat): (r: Tx)
    requires Wf(t) && e < N
    ensures Wf(r)
  {
    if Avail(t) < skb.frags || t.desc[e].own then Refuse(t) else PostAt(t, e, skb, addr)
  }

  /** The NIC finishes an owned slot: it clears DescOwn and keeps every other bit. */
  function Complete(t: Tx, i: nat): (r: Tx)
    requires Wf(t) && i < N
    ensures Wf(r)
  {
    t.(desc := t.desc[i := t.desc[i].(own := false)])
  }

  /** One turn of rtl8101_tx_interrupt's loop past the DescOwn test. */
  function ReapOne(t: Tx): (r: Tx)
    requires Wf(t)
    ensures Wf(r)
  {
    var e := Slot(t.dirty, 0);
    var frees := t.desc[e].last && t.info[e].skb.Some?;
    t.(dirty := Add(t.dirty, 1),
       bytes := t.bytes + t.info[e].len,
       packets := t.packets + 1,
       info := t.info[e := Info(if t.desc[e].last then None else t.info[e].skb, 0)],
       desc := t.desc[e := ZERO],
       freed := t.freed + if frees then [Reaped(Posted(t.info[e].skb.value, t.desc[e].addr))] else [])
  }

  function ReapN(t: Tx, k: nat): (r: Tx)
    requires Wf(t)
    ensures Wf(r)
  {
    if k == 0 then t else ReapOne(ReapN(t, k - 1))
  }

  /** The number of turns the loop takes from its j-th on: it stops at the first slot the NIC
      owns, or at cur. */
  function ReapTurns(t: Tx, j: nat): nat
    requires Wf(t)
    decreases Count(t) - j
  {
    if j >= Count(t) || t.desc[Slot(t.dirty, j)].own then 0 else 1 + ReapTurns(t, j + 1)
  }

  /** rtl8101_tx_interrupt, without the wake-up. */
  function Reap(t: Tx): (r: Tx)
    requires Wf(t)
    ensures Wf(r)
  {
    ReapN(t, ReapTurns(t, 0))
  }

  /** One turn of rtl8101_tx_clear's loop, at slot e. */
  function ClearSlot(t: Tx, e: nat): (r: Tx)
    requires Wf(t) && e < N
    ensures Wf(r) && r.dirty == t.dirty && r.cur == t.cur
  {
    if t.info[e].len == 0 then t else
      t.(info := t.info[e := EMPTY],
         desc := t.desc[e := ZERO],
         dropped := t.dropped + 1,
         freed := t.freed + if t.info[e].skb.Some? then [Cleared(Posted(t.info[e].skb.value, t.desc[e].addr))] else [])
  }

  function ClearN(t: Tx, k: nat): (r: Tx)
    requires Wf(t)
    ensures Wf(r) && r.dirty == t.dirty && r.cur == t.cur
  {
    if k == 0 then t else ClearSlot(ClearN(t, k - 1), Slot(t.dirty, k - 1))
  }

  /** How often the loop `for (i = dirty; i < dirty + N; i++)` turns on unsigned ints: the
      bound wraps to a small number once dirty is within N of 2^32. */
  function ClearTurns(dirty: Word32): nat {
    if dirty + N < U32 then N else 0
  }

  /** rtl8101_tx_clear. */
  function Clear(t: Tx): (r: Tx)
    requires Wf(t)
    ensures Wf(r)
  {
    ClearN(t, ClearTurns(t.dirty)).(cur := 0, dirty := 0)
  }

  /** The Tx part of rtl8101_init_buffers. */
  function FreshRing(t: Tx): (r: Tx)
    ensures Wf(r)
  {
    t.(cur := 0, dirty := 0,
       info := seq(N, i => EMPTY),
       desc := seq(N, i => if i == N - 1 then ZERO.(eor := true) else ZERO))
  }

  // ---- the queue the ring stands for ----

  /** One queued skb; done once the NIC has handed its slot back. */
  datatype Entry = Entry(post: Posted, done: bool)

  /** A slot of the window holds one skb, posted whole, with RingEnd exactly at the last slot. */
  predicate Holds(t: Tx, i: nat)
    requires Wf(t) && i < N
  {
    && t.info[i].skb.Some?
    && t.info[i].len == t.info[i].skb.value.len > 0
    && t.desc[i].(own := true) == TxPosted(i == N - 1, t.info[i].len, t.desc[i].addr)
  }

  predicate Free(t: Tx, i: nat)
    requires Wf(t) && i < N
  {
    t.info[i] == EMPTY && t.desc[i].(eor := false) == ZERO
  }

  /** The window [dirty, cur) holds skbs, all other slots are empty and not the NIC's. */
  ghost predicate Valid(t: Tx) {
    && Wf(t)
    && Count(t) < N
    && (forall k :: 0 <= k < Count(t) ==> Holds(t, Slot(t.dirty, k)))
    && (forall k :: Count(t) <= k < N ==> Free(t, Slot(t.dirty, k)))
  }

  /** The accepted skbs still in the ring, oldest first. */
  ghost function Fifo(t: Tx): (q: seq<Entry>)
    requires Valid(t)
    ensures |q| == Count(t)
  {
    seq(Count(t), k requires 0 <= k < Count(t) =>
      var i := Slot(t.dirty, k);
      Entry(Posted(t.info[i].skb.value, t.desc[i].addr), !t.desc[i].own))
  }

  ghost function DonePrefix(q: seq<Entry>): (n: nat)
    ensures n <= |q|
    ensures forall k :: 0 <= k < n ==> q[k].done
    ensures n < |q| ==> !q[n].done
  {
    if q == [] || !q[0].done then 0 else 1 + DonePrefix(q[1..])
  }

  lemma {:induction false} ReapTurnsIsDonePrefix(t: Tx, j: nat)
    requires Valid(t) && j <= Count(t)
    ensures ReapTurns(t, j) == DonePrefix(Fifo(t)[j..])
    decreases Count(t) - j
  {
    if j == Count(t) {
    } else {
      ReapTurnsIsDonePrefix(t, j + 1);
      assert Fifo(t)[j..][1..] == Fifo(t)[j + 1..];
    }
  }

  function Posts(q: seq<Entry>): seq<Posted> {
    seq(|q|, i requires 0 <= i < |q| => q[i].post)
  }

  // ---- the operations are queue operations ----

  lemma PostAppends(t: Tx, skb: Skb, addr: nat)
    requires Valid(t) && Count(t) + 1 < N && skb.len > 0
    ensures Valid(Post(t, skb, addr))
    ensures Fifo(Post(t, skb, addr)) == Fifo(t) + [Entry(Posted(skb, addr), false)]
  {
    var r := Post(t, skb, addr);
    var n := Count(t);
    AddThenSub(t.cur, t.dirty, 1);
    AddSub(t.cur, t.dirty);
    AddMovesWindow(t.dirty, n, 0);
    var e := Slot(t.dirty, n);
    assert Slot(t.cur, 0) == e;
    forall k | 0 <= k < N && k != n ensures Slot(t.dirty, k) != e {
      if Slot(t.dirty, k) == e { WalkIsInjective(t.dirty, k, n); }
    }
    assert Fifo(r) == Fifo(t) + [Entry(Posted(skb, addr), false)];
  }

  lemma PostAtKeepsIff(t: Tx, e: nat, skb: Skb, addr: nat)
    requires Valid(t) && e < N
    ensures Valid(PostAt(t, e, skb, addr)) <==> e == Slot(t.cur, 0) && Count(t) + 1 < N && skb.len > 0
  {
    var r, n := PostAt(t, e, skb, addr), Count(t);
    AddThenSub(t.cur, t.dirty, 1);
    AddSub(t.cur, t.dirty);
    AddMovesWindow(t.dirty, n, 0);
    if e == Slot(t.cur, 0) && n + 1 < N && skb.len > 0 {
      PostAppends(t, skb, addr);
    } else if n + 1 < N {
      assert Free(t, Slot(t.dirty, n));
      assert !Holds(r, Slot(r.dirty, n));
    }
  }

  /** start_xmit reads cur_tx before it takes the lock, so another handler may have moved it since.
      What it then does to a ring leaves it consistent if and only if it refuses the skb, or the
      slot is still that of cur_tx and there is room. */
  lemma StaleSlotBreaksRingIff(t: Tx, e: nat, skb: Skb, addr: nat)
    requires Valid(t) && e < N
    ensures Valid(SubmitAt(t, e, skb, addr)) <==>
            || Avail(t) < skb.frags || t.desc[e].own
            || (e == Slot(t.cur, 0) && Count(t) + 1 < N && skb.len > 0)
  {
    PostAtKeepsIff(t, e, skb, addr);
    RefuseKeepsValid(t);
  }

  lemma RefuseKeepsValid(t: Tx)
    requires Valid(t)
    ensures Valid(Refuse(t)) && Fifo(Refuse(t)) == Fifo(t)
  {
    var r := Refuse(t);
    forall k | 0 <= k < Count(r) ensures Holds(r, Slot(r.dirty, k)) { assert Holds(t, Slot(t.dirty, k)); }
    forall k | Count(r) <= k < N ensures Free(r, Slot(r.dirty, k)) { assert Free(t, Slot(t.dirty, k)); }
  }

  /** A slot the NIC owns is one of the queue's entries. */
  lemma OwnedIsInFlight(t: Tx, i: nat)
    requires Valid(t) && i < N && t.desc[i].own
    ensures Offset(t.dirty, i) < Count(t)
  {
    WalkIsBijection(t.dirty, i, 0);
    assert i == Slot(t.dirty, Offset(t.dirty, i));
  }

  lemma CompleteMarksDone(t: Tx, i: nat)
    requires Valid(t) && i < N && t.desc[i].own
    ensures Offset(t.dirty, i) < Count(t)
    ensures Valid(Complete(t, i))
    ensures var k := Offset(t.dirty, i);
            Fifo(Complete(t, i)) == Fifo(t)[k := Fifo(t)[k].(done := true)]
  {
    OwnedIsInFlight(t, i);
    var r := Complete(t, i);
    var n := Offset(t.dirty, i);
    WalkIsBijection(t.dirty, i, 0);
    forall k | 0 <= k < N && k != n ensures Slot(t.dirty, k) != i {
      WalkIsBijection(t.dirty, i, k);
    }
    assert Fifo(r) == Fifo(t)[n := Fifo(t)[n].(done := true)];
  }

  lemma ReapOneRemovesHead(t: Tx)
    requires Valid(t) && Count(t) > 0 && Fifo(t)[0].done
    ensures Valid(ReapOne(t)) && Fifo(ReapOne(t)) == Fifo(t)[1..]
    ensures var p := Fifo(t)[0].post;
            && ReapOne(t).freed == t.freed + [Reaped(p)]
            && ReapOne(t).bytes == t.bytes + p.skb.len
  {
    var r := ReapOne(t);
    SubAfterAdd(t.cur, t.dirty, 1);
    AddMovesWalk(t.dirty, 1);
    var e := Slot(t.dirty, 0);
    forall k | 0 < k < N ensures Slot(t.dirty, k) != e {
      if Slot(t.dirty, k) == e { WalkIsInjective(t.dirty, k, 0); }
    }
    assert Slot(t.dirty, N) == e;
    forall k | 0 <= k < Count(r) ensures Holds(r, Slot(r.dirty, k)) {
      assert Slot(r.dirty, k) == Slot(t.dirty, k + 1);
    }
    forall k | Count(r) <= k < N ensures Free(r, Slot(r.dirty, k)) {
      assert Slot(r.dirty, k) == Slot(t.dirty, k + 1);
    }
    assert Fifo(r) == Fifo(t)[1..];
  }

  /** k turns of the reap loop take the k oldest entries off the queue. */
  lemma {:induction false} ReapNRemovesPrefix(t: Tx, k: nat)
    requires Valid(t) && k <= DonePrefix(Fifo(t))
    ensures var r := ReapN(t, k);
            && Valid(r) && Fifo(r) == Fifo(t)[k..]
            && r.dirty == Add(t.dirty, k) && r.cur == t.cur
            && r.accepted == t.accepted && r.refused == t.refused
  {
    if k == 0 {
    } else {
      ReapNRemovesPrefix(t, k - 1);
      var p := ReapN(t, k - 1);
      assert Fifo(p)[0] == Fifo(t)[k - 1];
      ReapOneRemovesHead(p);
      assert Fifo(p)[1..] == Fifo(t)[k..];
      AddAdd(t.dirty, k - 1, 1);
    }
  }

  /** Turns of the reap loop do not disturb the slots they have not reached. */
  lemma {:induction false} ReapNFrame(t: Tx, k: nat)
    requires Wf(t) && k <= N
    ensures ReapN(t, k).dirty == Add(t.dirty, k)
    ensures forall j :: k <= j < N ==> ReapN(t, k).desc[Slot(t.dirty, j)] == t.desc[Slot(t.dirty, j)]
  {
    if k == 0 {
    } else {
      ReapNFrame(t, k - 1);
      AddAdd(t.dirty, k - 1, 1);
      AddMovesWindow(t.dirty, k - 1, 0);
      SlotsDiffer(t.dirty, k - 1);
    }
  }

  lemma ReapNReaches(t: Tx, k: nat)
    requires Wf(t) && k < N
    ensures ReapN(t, k).desc[Slot(t.dirty, k)] == t.desc[Slot(t.dirty, k)]
  {
    ReapNFrame(t, k);
  }

  lemma ClearSlotFrees(t: Tx, p: Tx, k: nat)
    requires Valid(t) && k < N && Wf(p)
    requires p.info[Slot(t.dirty, k)] == t.info[Slot(t.dirty, k)]
    requires p.desc[Slot(t.dirty, k)] == t.desc[Slot(t.dirty, k)]
    ensures Free(ClearSlot(p, Slot(t.dirty, k)), Slot(t.dirty, k))
  {
    if k < Count(t) {
      assert Holds(t, Slot(t.dirty, k));
    } else {
      assert Free(t, Slot(t.dirty, k));
    }
  }

  /** k turns of the clear loop empty the first k slots of the walk and leave the others. */
  lemma {:induction false} ClearNSlots(t: Tx, k: nat)
    requires Valid(t) && k <= N
    ensures var r := ClearN(t, k);
            && (forall j :: 0 <= j < k ==> Free(r, Slot(t.dirty, j)))
            && (forall j :: k <= j < N ==>
                  && r.info[Slot(t.dirty, j)] == t.info[Slot(t.dirty, j)]
                  && r.desc[Slot(t.dirty, j)] == t.desc[Slot(t.dirty, j)])
  {
    if k == 0 {
    } else {
      ClearNSlots(t, k - 1);
      SlotsDiffer(t.dirty, k - 1);
      ClearSlotFrees(t, ClearN(t, k - 1), k - 1);
    }
  }

  ghost predicate AllFree(t: Tx) {
    Wf(t) && forall i :: 0 <= i < N ==> Free(t, i)
  }

  /** tx_clear completeness. The walk visits every slot or none: when the bound does not wrap
      the ring ends up empty; when it does wrap nothing is touched, although the counters are
      reset all the same. So the ring is left empty, and consistent with its counters, exactly
      when the bound does not wrap or there was nothing to clear. */
  lemma ClearEmptiesIff(t: Tx)
    requires Valid(t)
    ensures AllFree(Clear(t)) <==> t.dirty + N < U32 || Count(t) == 0
    ensures Valid(Clear(t)) <==> t.dirty + N < U32 || Count(t) == 0
    ensures Valid(Clear(t)) ==> Fifo(Clear(t)) == []
    ensures t.dirty + N >= U32 ==> Clear(t) == t.(cur := 0, dirty := 0)
  {
    var r := Clear(t);
    ClearNSlots(t, ClearTurns(t.dirty));
    if t.dirty + N < U32 || Count(t) == 0 {
      forall i | 0 <= i < N ensures Free(r, i) {
        WalkIsBijection(t.dirty, i, 0);
        assert i == Slot(t.dirty, Offset(t.dirty, i));
      }
    } else {
      var e := Slot(t.dirty, 0);
      assert Holds(t, e) && !Free(r, e);
      assert Slot(r.dirty, e) == e;
    }
  }

  // ---- conservation ----

  function Released(f: seq<Freed>): seq<Posted> {
    seq(|f|, i requires 0 <= i < |f| => f[i].post)
  }

  function ReapedOf(f: seq<Freed>): seq<Posted> {
    if f == [] then [] else
      ReapedOf(f[..|f| - 1]) + if f[|f| - 1].Reaped? then [f[|f| - 1].post] else []
  }

  function ClearedOf(f: seq<Freed>): seq<Posted> {
    if f == [] then [] else
      ClearedOf(f[..|f| - 1]) + if f[|f| - 1].Cleared? then [f[|f| - 1].post] else []
  }

  function Bytes(q: seq<Posted>): nat {
    if q == [] then 0 else Bytes(q[..|q| - 1]) + q[|q| - 1].skb.len
  }

  /** Every accepted skb has been freed once, and its address unmapped then, or is among `rest`, in
      the order of acceptance,
      and the statistics count exactly that. */
  predicate Accounts(t: Tx, rest: seq<Posted>) {
    && t.accepted == Released(t.freed) + rest
    && t.packets == |ReapedOf(t.freed)|
    && t.bytes == Bytes(ReapedOf(t.freed))
    && t.dropped == |ClearedOf(t.freed)| + t.refused
  }

  /** The skbs not freed are those queued. */
  ghost predicate Balanced(t: Tx)
    requires Valid(t)
  {
    Accounts(t, Posts(Fifo(t)))
  }

  lemma FreedSnoc(f: seq<Freed>, x: Freed)
    ensures Released(f + [x]) == Released(f) + [x.post]
    ensures ReapedOf(f + [x]) == ReapedOf(f) + if x.Reaped? then [x.post] else []
    ensures ClearedOf(f + [x]) == ClearedOf(f) + if x.Cleared? then [x.post] else []
    ensures Bytes(ReapedOf(f + [x])) == Bytes(ReapedOf(f)) + if x.Reaped? then x.post.skb.len else 0
  {
    assert (f + [x])[..|f|] == f;
    if x.Reaped? {
      var g := ReapedOf(f) + [x.post];
      assert ReapedOf(f + [x]) == g && g[..|g| - 1] == ReapedOf(f);
    } else {
      assert ReapedOf(f + [x]) == ReapedOf(f);
    }
  }

  /** Freeing the first of the rest keeps the books. */
  lemma AccountsFree(t: Tx, r: Tx, rest: seq<Posted>, x: Freed)
    requires Accounts(t, rest) && rest != [] && x.post == rest[0]
    requires r.accepted == t.accepted && r.freed == t.freed + [x] && r.refused == t.refused
    requires x.Reaped? ==> r.packets == t.packets + 1 && r.bytes == t.bytes + x.post.skb.len && r.dropped == t.dropped
    requires x.Cleared? ==> r.packets == t.packets && r.bytes == t.bytes && r.dropped == t.dropped + 1
    ensures Accounts(r, rest[1..])
  {
    FreedSnoc(t.freed, x);
    assert Released(t.freed) + rest == Released(t.freed) + [rest[0]] + rest[1..];
  }

  /** A refusal counts as one packet dropped and takes nothing over. */
  lemma RefuseBalances(t: Tx)
    requires Valid(t) && Balanced(t)
    ensures Valid(Refuse(t)) && Balanced(Refuse(t)) && Refuse(t).accepted == t.accepted
  {
    RefuseKeepsValid(t);
  }

  lemma PostBalances(t: Tx, skb: Skb, addr: nat)
    requires Valid(t) && Balanced(t) && Count(t) + 1 < N && skb.len > 0
    ensures Valid(Post(t, skb, addr)) && Balanced(Post(t, skb, addr))
  {
    PostAppends(t, skb, addr);
    assert Posts(Fifo(t) + [Entry(Posted(skb, addr), false)]) == Posts(Fifo(t)) + [Posted(skb, addr)];
  }

  lemma CompleteBalances(t: Tx, i: nat)
    requires Valid(t) && Balanced(t) && i < N && t.desc[i].own
    ensures Valid(Complete(t, i)) && Balanced(Complete(t, i))
  {
    CompleteMarksDone(t, i);
    assert Posts(Fifo(Complete(t, i))) == Posts(Fifo(t));
  }

  lemma ReapOneBalances(t: Tx)
    requires Valid(t) && Balanced(t) && Count(t) > 0 && Fifo(t)[0].done
    ensures Valid(ReapOne(t)) && Balanced(ReapOne(t))
  {
    ReapOneRemovesHead(t);
    AccountsFree(t, ReapOne(t), Posts(Fifo(t)), Reaped(Fifo(t)[0].post));
    assert Posts(Fifo(t))[1..] == Posts(Fifo(t)[1..]);
  }

  lemma {:induction false} ReapNBalances(t: Tx, k: nat)
    requires Valid(t) && Balanced(t) && k <= DonePrefix(Fifo(t))
    ensures Valid(ReapN(t, k)) && Balanced(ReapN(t, k))
  {
    if k == 0 {
    } else {
      var p := ReapN(t, k - 1);
      assert Valid(p) && Count(p) > 0 && Fifo(p)[0].done by {
        ReapNRemovesPrefix(t, k - 1);
        assert Fifo(p)[0] == Fifo(t)[k - 1];
      }
      ReapNBalances(t, k - 1);
      ReapOneBalances(p);
    }
  }

  /** tx_interrupt removes exactly the completed prefix of the queue, and accounts for it. */
  lemma ReapRemovesDonePrefix(t: Tx)
    requires Valid(t)
    ensures Valid(Reap(t)) && Fifo(Reap(t)) == Fifo(t)[DonePrefix(Fifo(t))..]
    ensures Reap(t).cur == t.cur && Reap(t).dirty == Add(t.dirty, DonePrefix(Fifo(t)))
    ensures Reap(t).refused == t.refused && Reap(t).accepted == t.accepted
    ensures Balanced(t) ==> Balanced(Reap(t))
  {
    ReapTurnsIsDonePrefix(t, 0);
    assert Fifo(t)[0..] == Fifo(t);
    ReapNRemovesPrefix(t, DonePrefix(Fifo(t)));
    if Balanced(t) {
      ReapNBalances(t, DonePrefix(Fifo(t)));
    }
  }

  lemma ClearSlotBalances(t: Tx, p: Tx, k: nat, q: seq<Posted>)
    requires Valid(t) && q == Posts(Fifo(t)) && k < N && Wf(p)
    requires p.info[Slot(t.dirty, k)] == t.info[Slot(t.dirty, k)]
    requires p.desc[Slot(t.dirty, k)] == t.desc[Slot(t.dirty, k)]
    requires Accounts(p, q[Min(k, |q|)..])
    ensures Accounts(ClearSlot(p, Slot(t.dirty, k)), q[Min(k + 1, |q|)..])
  {
    var e := Slot(t.dirty, k);
    if k < Count(t) {
      assert Holds(t, e) && q[k] == Posted(t.info[e].skb.value, t.desc[e].addr);
      AccountsFree(p, ClearSlot(p, e), q[k..], Cleared(q[k]));
      assert q[k..][1..] == q[k + 1..];
    } else {
      assert Free(t, e);
    }
  }

  lemma ClearNAhead(t: Tx, k: nat)
    requires Valid(t) && k < N
    ensures ClearN(t, k).info[Slot(t.dirty, k)] == t.info[Slot(t.dirty, k)]
    ensures ClearN(t, k).desc[Slot(t.dirty, k)] == t.desc[Slot(t.dirty, k)]
  {
    ClearNSlots(t, k);
  }

  lemma ClearNext(t: Tx, o: Tx, k: nat, q: seq<Posted>) returns (p: Tx)
    requires Valid(t) && q == Posts(Fifo(t)) && k < N && o == ClearN(t, k) && Accounts(o, q[Min(k, |q|)..])
    ensures p == ClearN(t, k + 1) && Accounts(p, q[Min(k + 1, |q|)..])
  {
    ClearNAhead(t, k);
    ClearSlotBalances(t, o, k, q);
    p := ClearSlot(o, Slot(t.dirty, k));
  }

  lemma {:induction false} ClearNBalances(t: Tx, k: nat, q: seq<Posted>) returns (p: Tx)
    requires Valid(t) && q == Posts(Fifo(t)) && Accounts(t, q) && k <= N
    ensures p == ClearN(t, k) && Accounts(p, q[Min(k, |q|)..])
  {
    if k == 0 {
      assert q[0..] == q;
      p := t;
    } else {
      var o := ClearNBalances(t, k - 1, q);
      p := ClearNext(t, o, k - 1, q);
    }
  }

  lemma ClearBalances(t: Tx)
    requires Valid(t) && Balanced(t) && (t.dirty + N < U32 || Count(t) == 0)
    ensures Valid(Clear(t)) && Balanced(Clear(t))
  {
    ClearEmptiesIff(t);
    var p := ClearNBalances(t, ClearTurns(t.dirty), Posts(Fifo(t)));
    assert Posts(Fifo(Clear(t))) == [] == Posts(Fifo(t))[Count(t)..];
  }
}
