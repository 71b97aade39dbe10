/** Poll runs rtl8101_rx_interrupt outside the driver's lock, so link-down can reset the indexes in
    the middle of it. The pass works on copies of them and stores the copies back. What becomes of
    the ring depends on where the reset falls: this module says exactly when the ring survives. */
module CutPass {
  import opened Counters
  import opened RxRing

  /** The ring when the drain loop of a pass is done, before the counters are stored. */
  lemma DrainKeeps(r: Rx, budget: Word32, gs: seq<Grant>) returns (d: Rx)
    requires Valid(r) && FreshGrants(r, gs)
    ensures d == Drain(r, budget) && Mapped(d) && Window(d) && FreshGrants(d, gs)
  {
    BudgetedIsWindow(r, budget);
    var k := DrainTurns(r, 0, Budgeted(r, budget));
    DrainTurnsStopsAtOwned(r, 0, Budgeted(r, budget));
    DrainNKeeps(r, k);
    FreshAfterDrain(r, k, gs);
    d := DrainN(r, k);
  }

  // ---- the reset falls into the refill loop ----

  /** The loop has its bounds already; what it returns is added to a dirty_rx that is now 0. */
  function ResetInFill(r: Rx, budget: Word32, gs: seq<Grant>): Rx
    requires Wf(r)
  {
    var d := Drain(r, budget);
    Fill(d, d.dirty, Gap(d), gs).(cur := 0, dirty := FillTurns(d, d.dirty, Gap(d), gs, 0))
  }

  lemma NoGapNoHole(d: Rx)
    requires Wf(d) && Window(d) && Gap(d) == 0
    ensures forall i :: 0 <= i < N ==> d.skb[i].Some?
  {
    forall i | 0 <= i < N ensures d.skb[i].Some? {
      WalkIsBijection(d.dirty, i, 0);
      assert d.skb[Slot(d.dirty, Offset(d.dirty, i))].Some?;
    }
  }

  /** With cur_rx at 0, dirty_rx must be 0 too, and then there must be no hole. */
  lemma MisplacedIndexes(f: Rx, n: nat, i: nat)
    requires Wf(f) && n <= N && i < N && (n == 0 ==> f.skb[i].None?)
    ensures !Valid(f.(cur := 0, dirty := n))
  {
    var q := f.(cur := 0, dirty := n);
    if n == 0 {
      assert Slot(q.dirty, i) == i && Gap(q) == 0;
    } else {
      assert Gap(q) == U32 - n;
    }
  }

  /** The ring survives exactly when there was nothing to refill. */
  lemma ResetInFillKeepsIff(r: Rx, budget: Word32, gs: seq<Grant>)
    requires Valid(r) && FreshGrants(r, gs)
    ensures Valid(ResetInFill(r, budget, gs)) <==> Gap(Drain(r, budget)) == 0
  {
    var d := DrainKeeps(r, budget, gs);
    var n := FillTurns(d, d.dirty, Gap(d), gs, 0);
    var f := FillNFills(d, d.dirty, n, gs);
    if Gap(d) == 0 {
      NoGapNoHole(d);
      MappedIgnoresCounters(f, 0, n);
    } else {
      assert n == 0 ==> f.skb[Slot(d.dirty, 0)].None?;
      MisplacedIndexes(f, n, Slot(d.dirty, 0));
    }
  }

  // ---- the reset falls into the drain loop ----

  /** rtl8101_rx_fill for any number of turns: it may go round the ring more than once. */
  function FillLoop(q: Rx, c: nat, left: nat, gs: seq<Grant>): (p: (Rx, nat))
    requires Wf(q)
    ensures Wf(p.0) && p.0.cur == q.cur && p.0.dirty == q.dirty && p.1 <= left
    decreases left
  {
    var i := Slot(0, c);
    if left == 0 || (q.skb[i].None? && gs == []) then (q, 0)
    else
      var p := if q.skb[i].Some? then FillLoop(q, c + 1, left - 1, gs)
               else FillLoop(Refill(q, i, gs[0]), c + 1, left - 1, gs[1..]);
      (p.0, p.1 + 1)
  }

  /** What t turns of the loop from counter value c have made of ring q. */
  ghost predicate Looped(q: Rx, f: Rx, c: nat, t: nat)
    requires Wf(q)
  {
    && Mapped(f)
    && (forall i :: 0 <= i < N && q.skb[i].Some? ==> f.skb[i].Some?)
    && (forall j :: c <= j < c + t ==> f.skb[Slot(0, j)].Some?)
    && (forall i :: 0 <= i < N && f.skb[i].Some? && q.skb[i].None? ==> exists j :: c <= j < c + t && Slot(0, j) == i)
  }

  /** The slots without a buffer. */
  function Holes(q: Rx): set<nat>
    requires Wf(q)
  {
    set i | 0 <= i < N && q.skb[i].None?
  }

  lemma RefillClosesHole(q: Rx, i: nat, g: Grant)
    requires Wf(q) && i < N && q.skb[i].None?
    ensures |Holes(Refill(q, i, g))| == |Holes(q)| - 1
  {
    assert i in Holes(q);
    assert Holes(Refill(q, i, g)) == Holes(q) - {i};
  }

  lemma RefillFresh(q: Rx, i: nat, gs: seq<Grant>)
    requires Mapped(q) && FreshGrants(q, gs) && gs != [] && i < N && q.skb[i].None?
    ensures Mapped(Refill(q, i, gs[0])) && FreshGrants(Refill(q, i, gs[0]), gs[1..])
  {
    RefillKeeps(q, i, gs[0]);
    var p := Refill(q, i, gs[0]);
    forall n | 0 <= n < |gs[1..]| ensures FreshGrant(p, gs[1..][n]) {
      assert FreshGrant(q, gs[n + 1]);
    }
  }

  lemma LoopedMore(q: Rx, m: Rx, f: Rx, c: nat, t: nat)
    requires Wf(q) && Wf(m) && Looped(m, f, c + 1, t) && m.skb[Slot(0, c)].Some?
    requires forall i :: 0 <= i < N && i != Slot(0, c) ==> m.skb[i] == q.skb[i]
    ensures Looped(q, f, c, t + 1)
  {
    forall i | 0 <= i < N && f.skb[i].Some? && q.skb[i].None?
      ensures exists j :: c <= j < c + t + 1 && Slot(0, j) == i
    {
      if i == Slot(0, c) {
      } else {
        var j :| c + 1 <= j < c + 1 + t && Slot(0, j) == i;
      }
    }
  }

  /** Like Looped, for the end of the loop as well. */
  ghost predicate LoopDone(q: Rx, f: Rx, c: nat, t: nat, left: nat)
    requires Wf(q)
  {
    Looped(q, f, c, t) && t <= left && (t < left ==> f.skb[Slot(0, c + t)].None?)
  }

  lemma LoopDoneStart(q: Rx, c: nat, left: nat)
    requires Mapped(q) && (left > 0 ==> q.skb[Slot(0, c)].None?)
    ensures LoopDone(q, q, c, 0, left)
  {
  }

  lemma LoopDoneMore(q: Rx, m: Rx, f: Rx, c: nat, t: nat, left: nat)
    requires Wf(q) && Wf(m) && left > 0 && LoopDone(m, f, c + 1, t, left - 1) && m.skb[Slot(0, c)].Some?
    requires forall i :: 0 <= i < N && i != Slot(0, c) ==> m.skb[i] == q.skb[i]
    ensures LoopDone(q, f, c, t + 1, left)
  {
    LoopedMore(q, m, f, c, t);
    assert c + 1 + t == c + (t + 1);
  }

  /** One turn of the loop. */
  lemma LoopTurn(q: Rx, c: nat, left: nat, gs: seq<Grant>) returns (m: Rx, hs: seq<Grant>)
    requires Mapped(q) && FreshGrants(q, gs) && left > 0 && (q.skb[Slot(0, c)].Some? || gs != [])
    ensures Mapped(m) && FreshGrants(m, hs) && m.skb[Slot(0, c)].Some?
    ensures forall i :: 0 <= i < N && i != Slot(0, c) ==> m.skb[i] == q.skb[i]
    ensures var p := FillLoop(m, c + 1, left - 1, hs); FillLoop(q, c, left, gs) == (p.0, p.1 + 1)
  {
    var i := Slot(0, c);
    if q.skb[i].Some? {
      m, hs := q, gs;
    } else {
      m, hs := Refill(q, i, gs[0]), gs[1..];
      RefillFresh(q, i, gs);
    }
  }

  lemma {:induction false} FillLoopFills(q: Rx, c: nat, left: nat, gs: seq<Grant>) returns (f: Rx, t: nat)
    requires Mapped(q) && FreshGrants(q, gs)
    ensures FillLoop(q, c, left, gs) == (f, t) && LoopDone(q, f, c, t, left)
    decreases left
  {
    if left == 0 || (q.skb[Slot(0, c)].None? && gs == []) {
      f, t := q, 0;
      LoopDoneStart(q, c, left);
    } else {
      var m, hs := LoopTurn(q, c, left, gs);
      var n: nat;
      f, n := FillLoopFills(m, c + 1, left - 1, hs);
      t := n + 1;
      LoopDoneMore(q, m, f, c, n, left);
    }
  }

  /** With memory for every hole the loop takes all its turns. */
  lemma {:induction false} FillLoopEnds(q: Rx, c: nat, left: nat, gs: seq<Grant>)
    requires Wf(q) && |gs| >= |Holes(q)|
    ensures FillLoop(q, c, left, gs).1 == left
    decreases left
  {
    var i := Slot(0, c);
    assert q.skb[i].None? ==> i in Holes(q);
    if left == 0 {
    } else if q.skb[i].Some? {
      FillLoopEnds(q, c + 1, left - 1, gs);
    } else {
      RefillClosesHole(q, i, gs[0]);
      FillLoopEnds(Refill(q, i, gs[0]), c + 1, left - 1, gs[1..]);
    }
  }

  /** The copy of cur_rx is stored over the reset one, and the refill starts from the reset dirty_rx. */
  function ResetInDrain(r: Rx, budget: Word32, gs: seq<Grant>): Rx
    requires Wf(r)
  {
    var d := Drain(r, budget);
    var (f, t) := FillLoop(d.(dirty := 0), 0, d.cur, gs);
    f.(dirty := t)
  }

  lemma NotVisited(d: Rx, f: Rx, t: nat, i: nat)
    requires Wf(d) && Looped(d, f, 0, t) && t <= i < N && f.skb[i].Some?
    ensures d.skb[i].Some?
  {
    assert forall j :: 0 <= j < t ==> Slot(0, j) != i;
  }

  lemma WindowSlot(d: Rx, f: Rx, t: nat, k: nat)
    requires Wf(d) && Looped(d, f, 0, t) && t <= d.cur && d.cur - t <= k < N
    requires forall i :: d.cur <= i < N ==> d.skb[i].Some?
    ensures f.skb[Slot(t, k)].Some?
  {
    var m := t + k;
    if m < N {
      assert Slot(t, k) == m;
    } else {
      ModShift(m - N, 1);
      assert Slot(t, k) == Slot(0, m - N);
    }
  }

  /** The ring survives exactly when the refill comes within N slots of the stored cur_rx, and no
      slot at or beyond it was without a buffer. */
  lemma SurvivesIff(d: Rx, f: Rx, t: nat)
    requires Wf(d) && Looped(d, f, 0, t) && t <= d.cur == f.cur && (t < d.cur ==> f.skb[Slot(0, t)].None?)
    ensures Valid(f.(dirty := t)) <==> d.cur - t <= N && forall i :: d.cur <= i < N ==> d.skb[i].Some?
  {
    var q, c := f.(dirty := t), d.cur;
    MappedIgnoresCounters(f, c, t);
    assert Gap(q) == c - t;
    if Valid(q) {
      forall i | c <= i < N ensures d.skb[i].Some? {
        assert q.skb[Slot(q.dirty, i - t)].Some? && Slot(q.dirty, i - t) == i;
        NotVisited(d, f, t, i);
      }
    } else if c - t <= N && forall i :: c <= i < N ==> d.skb[i].Some? {
      forall k | Gap(q) <= k < N ensures q.skb[Slot(q.dirty, k)].Some? {
        WindowSlot(d, f, t, k);
      }
    }
  }

  /** The stored cur_rx is that of the interrupted pass: the reset is undone. The ring survives exactly
      when the refill comes within N slots of it and no slot at or beyond it lacks a buffer; with
      memory for every hole, exactly when no slot at or beyond it lacks one. */
  lemma ResetInDrainKeepsIff(r: Rx, budget: Word32, gs: seq<Grant>)
    requires Valid(r) && FreshGrants(r, gs)
    ensures var d, q := Drain(r, budget), ResetInDrain(r, budget, gs);
            && q.cur == d.cur
            && (Valid(q) <==> d.cur - q.dirty <= N && forall i :: d.cur <= i < N ==> d.skb[i].Some?)
            && (|gs| >= |Holes(d)| ==> q.dirty == q.cur)
  {
    var d := DrainKeeps(r, budget, gs);
    var e := d.(dirty := 0);
    MappedIgnoresCounters(d, d.cur, 0);
    var f, t := FillLoopFills(e, 0, d.cur, gs);
    SurvivesIff(e, f, t);
    assert Holes(e) == Holes(d);
    if |gs| >= |Holes(e)| { FillLoopEnds(e, 0, d.cur, gs); }
  }
}
