/** The flags of the device, each followed on its own through whole runs: which steps of handlers may
    change it, and to what. */
module DeviceFlags {
  import opened Counters
  import opened TxRing
  import opened DeviceControl

  /** The steps that mask interrupts and leave them masked: the handler, the timeout, and whatever
      resets the NIC without starting it again. */
  predicate Masks(d: Ctl, e: Event) {
    e.Irq? || e.Timeout? || (Clears(d, e) && !Restarts(d, e))
  }

  /** The steps that unmask them: hw_init, and a poll that completes. */
  predicate Unmasks(d: Ctl, e: Event) {
    Restarts(d, e) || (e.Poll? && e.finished)
  }

  lemma MaskChanges(d: Ctl, e: Event)
    requires Wf(d.tx) && Enabled(d, e)
    ensures Unmasks(d, e) ==> Next(d, e).mask == INTR_EN_MASK
    ensures Masks(d, e) ==> Next(d, e).mask == 0
    ensures !Unmasks(d, e) && !Masks(d, e) ==> Next(d, e).mask == d.mask
  {
  }

  /** The last step of a run that masked or unmasked did unmask. */
  predicate Unmasked(d: Ctl, es: seq<Event>)
    requires Wf(d.tx)
  {
    if es == [] then false
    else
      var n := |es| - 1;
      var p := After(d, es[..n]);
      Unmasks(p, es[n]) || (!Masks(p, es[n]) && Unmasked(d, es[..n]))
  }

  /** Interrupts are unmasked exactly if nothing has masked them since something unmasked them. */
  lemma {:induction false} MaskFollows(maxFrags: nat, es: seq<Event>)
    requires 0 < maxFrags < N && Legal(Initial(maxFrags), es)
    ensures After(Initial(maxFrags), es).mask == if Unmasked(Initial(maxFrags), es) then INTR_EN_MASK else 0
  {
    if es == [] {
    } else {
      var n := |es| - 1;
      MaskFollows(maxFrags, es[..n]);
      MaskChanges(After(Initial(maxFrags), es[..n]), es[n]);
    }
  }

  /** What the link timer reported last, since the device was opened. */
  predicate LinkSeen(es: seq<Event>) {
    if es == [] then false
    else
      var n := |es| - 1;
      match es[n]
      case Link(up) => up
      case Close => false
      case _ => LinkSeen(es[..n])
  }

  lemma CarrierChanges(d: Ctl, e: Event)
    requires Wf(d.tx) && Enabled(d, e)
    ensures Next(d, e).carrier == if e.Link? then e.up else !e.Close? && d.carrier
    ensures Next(d, e).open == (e.Open? || (!e.Close? && d.open))
  {
  }

  /** The carrier flag is what the link timer saw last. */
  lemma {:induction false} CarrierFollows(maxFrags: nat, es: seq<Event>)
    requires 0 < maxFrags < N && Legal(Initial(maxFrags), es)
    ensures After(Initial(maxFrags), es).carrier == LinkSeen(es)
  {
    if es == [] {
    } else {
      var n := |es| - 1;
      CarrierFollows(maxFrags, es[..n]);
      CarrierChanges(After(Initial(maxFrags), es[..n]), es[n]);
    }
  }

  predicate Running(es: seq<Event>) {
    if es == [] then false
    else
      var n := |es| - 1;
      es[n].Open? || (!es[n].Close? && Running(es[..n]))
  }

  /** A device is open from an open that succeeds to the next close. */
  lemma {:induction false} OpenFollows(maxFrags: nat, es: seq<Event>)
    requires 0 < maxFrags < N && Legal(Initial(maxFrags), es)
    ensures After(Initial(maxFrags), es).open == Running(es)
  {
    if es == [] {
    } else {
      var n := |es| - 1;
      OpenFollows(maxFrags, es[..n]);
      CarrierChanges(After(Initial(maxFrags), es[..n]), es[n]);
    }
  }

  /** A reset task is pending exactly after a timeout, or after a pass of its own that found slots
      without buffers, until it or an open comes next. */
  lemma TaskChanges(d: Ctl, e: Event)
    requires Wf(d.tx) && Enabled(d, e)
    ensures Next(d, e).task ==
            match e
            case Timeout => true
            case ResetTask(refilled) => d.open && !refilled
            case Open => false
            case _ => d.task
  {
  }

  /** Poll is scheduled by the handler alone, and no more once it has completed, or has been disabled by
      the reset task, open or close. */
  lemma NapiChanges(d: Ctl, e: Event)
    requires Wf(d.tx) && Enabled(d, e)
    ensures Next(d, e).napi ==
            match e
            case Irq => true
            case Poll(finished) => d.napi && !finished
            case ResetTask(refilled) => d.napi && !d.open
            case Open => false
            case Close => false
            case _ => d.napi
  {
  }

  /** In every run, a closed device has its queue stopped, interrupts masked, no poll scheduled, no
      carrier, and an empty ring. */
  lemma ClosedIsQuiet(maxFrags: nat, es: seq<Event>)
    requires 0 < maxFrags < N && Legal(Initial(maxFrags), es)
    ensures var d := After(Initial(maxFrags), es);
            !Running(es) ==> d.stopped && d.mask == 0 && !d.napi && !d.carrier && Count(d.tx) == 0
  {
    InitialSound(maxFrags);
    RunsStaySound(Initial(maxFrags), es);
    OpenFollows(maxFrags, es);
  }

  // ---- the queue after link-down and close ----

  predicate NoRestart(d: Ctl, es: seq<Event>)
    requires Wf(d.tx)
  {
    es == [] || (NoRestart(d, es[..|es| - 1]) && !Restarts(After(d, es[..|es| - 1]), es[|es| - 1]))
  }

  lemma StaysStopped(d: Ctl, e: Event)
    requires Sound(d) && d.stopped && !d.carrier && Enabled(d, e) && !Restarts(d, e)
    ensures Next(d, e).stopped && !Next(d, e).carrier
  {
    if e.Poll? { ReapRemovesDonePrefix(d.tx); }
  }

  /** Once link-down or close has stopped the queue, nothing but hw_init starts it again: neither poll,
      which may still be under way, nor anything else. */
  lemma {:induction false} StoppedUntilRestart(d: Ctl, e: Event, es: seq<Event>)
    requires Sound(d) && Enabled(d, e) && ClearSafe(d, e) && (e == Link(false) || e == Close) && Clears(d, e)
    requires Legal(Next(d, e), es) && NoRestart(Next(d, e), es)
    ensures After(Next(d, e), es).stopped && !After(Next(d, e), es).carrier
  {
    StepKeepsSound(d, e);
    if es == [] {
    } else {
      var n := |es| - 1;
      StoppedUntilRestart(d, e, es[..n]);
      RunsStaySound(Next(d, e), es[..n]);
      StaysStopped(After(Next(d, e), es[..n]), es[n]);
    }
  }
}
