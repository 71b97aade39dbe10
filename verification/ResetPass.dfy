/** The receive pass of rtl8101_reset_task: with the NIC masked and about to be restarted, it takes
    every frame that waits, and if it can refill the ring, driver and NIC restart in step. */
module ResetPass {
  import opened Counters
  import opened NicWalk
  import opened PollMachine
  import R = RxRing
  import T = TxRing

  /** The drain loop takes exactly the frames that wait. */
  lemma DrainsWhatWaits(r: R.Rx, nic: nat, wait: seq<R.Frame>)
    requires R.Valid(r) && Aligned(r, nic, wait)
    ensures |wait| <= N - R.Gap(r)
    ensures R.DrainTurns(r, 0, R.Budgeted(r, U32 - 1)) == |wait|
  {
    WaitingIsInWindow(r, nic, wait);
    R.BudgetedIsWindow(r, U32 - 1);
    forall m | 0 <= m < |wait| ensures !r.desc[Slot(r.cur, m)].own {
      WaitingSlot(r, nic, wait, m);
    }
    if |wait| < N - R.Gap(r) {
      AddSub(r.cur, r.dirty);
      AddMovesWindow(r.dirty, R.Gap(r), |wait|);
      assert r.skb[Slot(r.dirty, R.Gap(r) + |wait|)].Some?;
    }
    R.DrainTurnsIs(r, 0, R.Budgeted(r, U32 - 1), |wait|);
  }

  lemma DrainTurnTakes(c: R.Rx, nic: nat, w: seq<R.Frame>) returns (d: R.Rx)
    requires Aligned(c, nic, w) && R.Window(c) && R.Gap(c) < N && w != []
    ensures d == R.DrainOne(c) && Aligned(d, nic, w[1..]) && R.Window(d) && R.Gap(d) == R.Gap(c) + 1
    ensures d.up == Counted(c.up, w[0])
  {
    WaitingSlot(c, nic, w, 0);
    R.DrainOneKeeps(c);
    DrainAligned(c, nic, w);
    DrainDelivers(c, nic, w);
    d := R.DrainOne(c);
  }

  lemma TallyOfPrefix(u: R.Up, wait: seq<R.Frame>, k: nat)
    requires 0 < k <= |wait|
    ensures Tally(u, wait[..k]) == Counted(Tally(u, wait[..k - 1]), wait[k - 1])
    ensures wait[k - 1..][1..] == wait[k..]
  {
    assert wait[..k] == wait[..k - 1] + [wait[k - 1]];
    TallySnoc(u, wait[..k - 1], wait[k - 1]);
  }

  lemma {:induction false} DrainNAligned(r: R.Rx, nic: nat, wait: seq<R.Frame>, k: nat) returns (d: R.Rx)
    requires R.Valid(r) && Aligned(r, nic, wait) && k <= |wait| <= N - R.Gap(r)
    ensures d == R.DrainN(r, k) && Aligned(d, nic, wait[k..]) && R.Window(d) && R.Gap(d) == R.Gap(r) + k
    ensures d.up == Tally(r.up, wait[..k])
  {
    if k == 0 {
      d := r;
      assert wait[0..] == wait && wait[..0] == [];
    } else {
      var c := DrainNAligned(r, nic, wait, k - 1);
      d := DrainTurnTakes(c, nic, wait[k - 1..]);
      TallyOfPrefix(r.up, wait, k);
    }
  }

  ghost predicate BuffersPosted(r: R.Rx)
    requires R.Wf(r)
  {
    forall i :: 0 <= i < N && r.skb[i].Some? ==> r.desc[i].own
  }

  lemma AlignedPosted(r: R.Rx, nic: nat)
    requires Aligned(r, nic, [])
    ensures BuffersPosted(r)
  {
    forall i | 0 <= i < N && r.skb[i].Some? ensures r.desc[i].own {
      WalkIsBijection(r.cur, i, 0);
      assert r.skb[Slot(r.cur, Offset(r.cur, i))].Some?;
    }
  }

  lemma {:induction false} FillNPosted(r: R.Rx, start: Word32, k: nat, gs: seq<R.Grant>)
    requires R.Wf(r) && BuffersPosted(r) && R.Used(r, start, k) <= |gs|
    ensures BuffersPosted(R.FillN(r, start, k, gs)) && R.FillN(r, start, k, gs).up == r.up
  {
    if k == 0 {
    } else {
      FillNPosted(r, start, k - 1, gs);
    }
  }

  /** What the pass leaves: every waiting good frame delivered, in order, and every buffer posted. */
  lemma PassDelivers(r: R.Rx, nic: nat, wait: seq<R.Frame>, gs: seq<R.Grant>) returns (q: R.Rx)
    requires R.Valid(r) && Aligned(r, nic, wait) && R.FreshGrants(r, gs)
    ensures q == R.Interrupt(r, U32 - 1, gs) && R.Valid(q) && BuffersPosted(q)
    ensures q.up == Tally(r.up, wait)
  {
    DrainsWhatWaits(r, nic, wait);
    var d := DrainNAligned(r, nic, wait, |wait|);
    assert wait[|wait|..] == [] && wait[..|wait|] == wait;
    AlignedPosted(d, nic);
    FillNPosted(d, d.dirty, R.FillTurns(d, d.dirty, R.Gap(d), gs, 0), gs);
    q := R.Interrupt(r, U32 - 1, gs);
    R.InterruptKeepsValid(r, U32 - 1, gs);
  }

  lemma FullRingStarts(q: R.Rx, t: T.Tx)
    requires R.Valid(q) && BuffersPosted(q) && q.dirty == q.cur
    requires T.Valid(t) && t.cur == 0 == t.dirty
    ensures Start(Sys(RxSide(R.ResetIndexes(q), 0, [], 0, q.up), TxSide(t, 0, 0), QUIET))
  {
    R.ResetKeepsValidIff(q);
    forall i | 0 <= i < N ensures q.desc[i].own {
      WalkIsBijection(q.dirty, i, 0);
      assert q.skb[Slot(q.dirty, Offset(q.dirty, i))].Some?;
    }
  }

  /** The reset task loses no frame and restarts in step: if its pass refills the ring, what hw_init
      leaves is a start state of PollMachine, in which every good frame that was waiting has been
      delivered and counted. */
  lemma ResetTaskStarts(r: R.Rx, nic: nat, wait: seq<R.Frame>, gs: seq<R.Grant>, t: T.Tx)
    requires R.Valid(r) && Aligned(r, nic, wait) && R.FreshGrants(r, gs)
    requires var q := R.Interrupt(r, U32 - 1, gs); q.dirty == q.cur
    requires T.Valid(t) && t.cur == 0 == t.dirty
    ensures var q := R.GuardedReset(R.Interrupt(r, U32 - 1, gs));
            Start(Sys(RxSide(q, 0, [], 0, Tally(r.up, wait)), TxSide(t, 0, 0), QUIET))
  {
    var q := PassDelivers(r, nic, wait, gs);
    FullRingStarts(q, t);
  }
}
