/** The receive side of expt_drv_with_dma.c: one buffer passes from the NIC to the interrupt
    handler, to a reader who takes it in pieces, and back to the NIC. */
module CharReceive {
  import opened Common

  /** RX_PKT_SIZE. */
  const PKT_SIZE: nat := 256

  type Bytes = seq<nat>

  /** expt_read on a packet read to its end: the flag is cleared, the file offset rewound, and
      the descriptor given back, in this order. */
  datatype ReadPc = Calm | Zeroed | Rewound

  /** `own` is DescOwn of the one Rx descriptor and `frameLen` the length the NIC left in it;
      `rxOk` is the latched status bit, `acking` says that the handler has cleared it and not yet
      raised the flag; `avail` is pkt_rx_avail, `size` rx_pkt_size, `off` the file offset, `buf`
      pkt_rx. Histories: the frames the NIC wrote, the bytes the reader has got since the last
      read that returned 0, and the packets those reads completed. */
  datatype Rx = Rx(own: bool, frameLen: nat, rxOk: bool, acking: bool, avail: int, size: nat, off: nat,
                   pc: ReadPc, buf: Bytes, frames: seq<Bytes>, got: Bytes, done: seq<Bytes>)

  datatype Step =
    | NicFrame(frame: Bytes)
    | RxOkAck | RxOkRaise
    | Read(len: nat) | ReadEnd | Rewind | GiveBack

  predicate Enabled(r: Rx, e: Step) {
    match e
    case NicFrame(f) => r.own && |f| <= PKT_SIZE
    case RxOkAck => r.rxOk && !r.acking
    case RxOkRaise => r.acking
    case Read(len) => r.pc.Calm? && r.avail != 0 && r.off < r.size
    case ReadEnd => r.pc.Calm? && r.avail != 0 && r.off >= r.size
    case Rewind => r.pc.Zeroed?
    case GiveBack => r.pc.Rewound?
  }

  function Slice(s: Bytes, from: nat, n: nat): Bytes {
    if from + n <= |s| then s[from..from + n] else []
  }

  /** What one read call copies out. */
  function ToRead(r: Rx, len: nat): nat
    requires r.off <= r.size
  {
    Min(len, r.size - r.off)
  }

  function Next(r: Rx, e: Step): Rx
    requires Enabled(r, e)
  {
    match e
    case NicFrame(f) =>
      r.(own := false, frameLen := |f|, rxOk := true, frames := r.frames + [f],
         buf := if |f| <= |r.buf| then f + r.buf[|f|..] else f)
    case RxOkAck => r.(rxOk := false, acking := true)
    case RxOkRaise => r.(size := r.frameLen, avail := r.avail + 1, acking := false)
    case Read(len) =>
      var n := ToRead(r, len);
      r.(got := r.got + Slice(r.buf, r.off, n), off := r.off + n)
    case ReadEnd => r.(avail := 0, pc := Zeroed, done := r.done + [r.got], got := [])
    case Rewind => r.(off := 0, pc := Rewound)
    case GiveBack => r.(own := true, pc := Calm)
  }

  /** setup_buffers gives the descriptor to the NIC. */
  predicate Initial(r: Rx) {
    r == Rx(true, 0, false, false, 0, 0, 0, Calm, r.buf, [], [], []) && |r.buf| == PKT_SIZE
  }

  /** The buffer is in one place: with the NIC, on its way through the handler, with the reader,
      or on its way back. */
  predicate OnePlace(r: Rx) {
    && 0 <= r.avail
    && Flag(r.own) + Flag(r.rxOk) + Flag(r.acking) + r.avail + Flag(!r.pc.Calm?) == 1
  }

  predicate Pending(r: Rx) {
    r.rxOk || r.acking || r.avail == 1
  }

  /** f is the frame in the buffer, and the packets before it are completed. */
  predicate Holds(r: Rx, f: Bytes) {
    && r.frames == r.done + [f]
    && r.frameLen == |f| <= PKT_SIZE == |r.buf|
    && r.buf[..|f|] == f
  }

  predicate Sound(r: Rx) {
    && OnePlace(r)
    && |r.buf| == PKT_SIZE
    && (if Pending(r) then |r.frames| > 0 && Holds(r, r.frames[|r.frames| - 1]) else r.frames == r.done)
    && (r.avail == 1 ==> r.size == r.frameLen && r.off <= r.size && r.got == r.buf[..r.off])
    && (r.own || r.rxOk || r.acking || r.pc.Rewound? ==> r.off == 0)
    && (r.avail == 0 ==> r.got == [])
  }

  lemma StepKeepsSound(r: Rx, e: Step)
    requires Sound(r) && Enabled(r, e)
    ensures Sound(Next(r, e))
  {
    match e
    case NicFrame(f) =>
      assert Next(r, e).buf[..|f|] == f;
    case Read(len) =>
      var n := ToRead(r, len);
      assert r.buf[..r.off] + r.buf[r.off..r.off + n] == r.buf[..r.off + n];
    case ReadEnd =>
      assert r.buf[..r.off] == r.frames[|r.done|];
    case _ =>
  }

  ghost predicate Run(trace: seq<Rx>, es: seq<Step>) {
    && |trace| == |es| + 1
    && Initial(trace[0])
    && forall k :: 0 <= k < |es| ==> Enabled(trace[k], es[k]) && trace[k + 1] == Next(trace[k], es[k])
  }

  lemma {:induction false} RunsStaySound(trace: seq<Rx>, es: seq<Step>, k: nat)
    requires Run(trace, es) && k < |trace|
    ensures Sound(trace[k])
  {
    if k == 0 {
    } else {
      RunsStaySound(trace, es, k - 1);
      StepKeepsSound(trace[k - 1], es[k - 1]);
    }
  }

  /** Hand-off and reassembly, in every state of every run and for reads of any sizes: the flag
      is 0 or 1; while it is 1, or while the reader gives the buffer back, the NIC does not own
      the descriptor; what the reader has got of the current packet is its front; and the
      packets completed by a read that returned 0 are, whole and in order, the frames the NIC
      wrote. */
  lemma HandOff(trace: seq<Rx>, es: seq<Step>, k: nat)
    requires Run(trace, es) && k < |trace|
    ensures var r := trace[k];
            && 0 <= r.avail <= 1
            && (r.avail == 1 || !r.pc.Calm? ==> !r.own)
            && (r.avail == 1 ==> |r.done| < |r.frames| && r.got <= r.frames[|r.done|])
            && r.done <= r.frames && |r.frames| <= |r.done| + 1
  {
    RunsStaySound(trace, es, k);
    var r := trace[k];
    if r.avail == 1 {
      assert r.got == r.frames[|r.done|][..r.off];
    }
  }

  /** A read of positive size makes progress until the packet is complete. */
  lemma ReadProgress(r: Rx, len: nat)
    requires Sound(r) && Enabled(r, Read(len)) && len > 0
    ensures r.off < Next(r, Read(len)).off <= r.size
    ensures |Next(r, Read(len)).got| == Next(r, Read(len)).off
  {
    StepKeepsSound(r, Read(len));
  }
}
