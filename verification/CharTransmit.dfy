/** The transmit side of expt_drv_with_dma.c: any number of writers contend for one buffer with
    an atomic counter and no lock, and share it with the NIC. The steps are the atomic
    operations and stores of expt_write, of the NIC, and of the TX_OK branch of the interrupt
    handler, interleaved in any way. */
module CharTransmit {
  import opened Common

  /** TX_PKT_SIZE. */
  const PKT_SIZE: nat := 256

  type Tid = nat
  type Bytes = seq<nat>

  /** A writer is in the set that says where it is in expt_write: it has incremented the counter
      (`tentative`), read a value other than 1 and is about to decrement (`backing`), read 1
      (`claimed`), or copied its data (`copied`). `orphans` counts writes that returned -EFAULT
      and kept their claim. `busy` is pkt_tx_busy, `own` is DescOwn of the one Tx descriptor.
      `txOk` is the latched status bit; `acking` says that the handler has cleared it and not
      yet decremented the counter. */
  datatype Claims = Claims(busy: int, tentative: set<Tid>, backing: set<Tid>, claimed: set<Tid>, copied: set<Tid>,
                           orphans: nat, own: bool, txOk: bool, acking: bool)

  /** A packet the NIC sent: the length the descriptor told it, and the bytes of the buffer among
      those it sent. */
  datatype Sent = Sent(len: nat, front: Bytes)

  /** `buf` is pkt_tx and `len` the length bits of the descriptor; the rest is history: what each
      writer copied, what was published, and what the NIC sent. */
  datatype Data = Data(buf: Bytes, len: nat, wrote: map<Tid, Bytes>, published: seq<Bytes>, sent: seq<Sent>)

  datatype Sys = Sys(c: Claims, d: Data)

  datatype Step =
    | Inc(w: Tid) | Check(w: Tid) | BackOff(w: Tid)
    | Copy(w: Tid, data: Bytes) | Fault(w: Tid, partial: Bytes) | Publish(w: Tid)
    | NicSend | TxOkAck | TxOkDec

  predicate Inside(c: Claims, w: Tid) {
    w in c.tentative || w in c.backing || w in c.claimed || w in c.copied
  }

  predicate Enabled(c: Claims, e: Step) {
    match e
    case Inc(w) => !Inside(c, w)
    case Check(w) => w in c.tentative
    case BackOff(w) => w in c.backing
    case Copy(w, data) => w in c.claimed
    case Fault(w, partial) => w in c.claimed && |partial| <= PKT_SIZE
    case Publish(w) => w in c.copied
    case NicSend => c.own
    case TxOkAck => c.txOk && !c.acking
    case TxOkDec => c.acking
  }

  function ClaimsNext(c: Claims, e: Step): Claims {
    match e
    case Inc(w) => c.(busy := c.busy + 1, tentative := c.tentative + {w})
    case Check(w) =>
      if c.busy != 1 then c.(tentative := c.tentative - {w}, backing := c.backing + {w})
      else c.(tentative := c.tentative - {w}, claimed := c.claimed + {w})
    case BackOff(w) => c.(busy := c.busy - 1, backing := c.backing - {w})
    case Copy(w, data) => c.(claimed := c.claimed - {w}, copied := c.copied + {w})
    case Fault(w, partial) => c.(claimed := c.claimed - {w}, orphans := c.orphans + 1)
    case Publish(w) => c.(copied := c.copied - {w}, own := true)
    case NicSend => c.(own := false, txOk := true)
    case TxOkAck => c.(txOk := false, acking := true)
    case TxOkDec => c.(busy := c.busy - 1, acking := false)
  }

  /** copy_from_user takes at most TX_PKT_SIZE bytes and overwrites the front of the buffer. */
  function Taken(data: Bytes): Bytes {
    data[..Min(|data|, PKT_SIZE)]
  }

  /** At most 256 bytes of the data, from its start. */
  lemma TakenIsFront(data: Bytes)
    ensures Taken(data) <= data && |Taken(data)| == Min(|data|, PKT_SIZE)
    ensures |data| <= PKT_SIZE ==> Taken(data) == data
  {
  }

  function Overlay(buf: Bytes, data: Bytes): Bytes {
    if |data| <= |buf| then data + buf[|data|..] else data
  }

  /** What was in the buffer beyond the data stays there. */
  lemma OverlayAt(buf: Bytes, data: Bytes, i: nat)
    requires |data| <= |buf| && i < |buf|
    ensures |Overlay(buf, data)| == |buf| && Overlay(buf, data)[i] == if i < |data| then data[i] else buf[i]
  {
  }

  /** Bitwise or. */
  function Or(a: nat, b: nat): (r: nat)
    ensures r >= a && r >= b
  {
    if a == 0 && b == 0 then 0
    else 2 * Or(a / 2, b / 2) + if a % 2 == 1 || b % 2 == 1 then 1 else 0
  }

  /** A bit is set in it exactly if it is set in a or in b. */
  lemma {:induction false} OrBit(a: nat, b: nat, k: nat)
    ensures Bit(Or(a, b), k) <==> Bit(a, k) || Bit(b, k)
    decreases k
  {
    if a == 0 && b == 0 {
    } else if k == 0 {
    } else {
      OrBit(a / 2, b / 2, k - 1);
      assert Or(a, b) / 2 == Or(a / 2, b / 2);
    }
  }

  /** Or-ing changes nothing exactly if no bit is added. */
  lemma OrAddsNothingIff(a: nat, b: nat)
    ensures Or(a, b) == b <==> Within(a, b)
  {
    forall k: nat ensures Bit(Or(a, b), k) <==> Bit(a, k) || Bit(b, k) {
      OrBit(a, b, k);
    }
    if Within(a, b) { BitsDetermine(Or(a, b), b); }
  }

  /** All the lengths of these packets, or-ed. */
  function OrAll(ps: seq<Bytes>): nat {
    if ps == [] then 0 else Or(OrAll(ps[..|ps| - 1]), |ps[|ps| - 1]|)
  }

  /** The NIC sends as many bytes as the descriptor says, starting at the buffer's front. */
  function Transmitted(d: Data): Sent {
    Sent(d.len, d.buf[..Min(d.len, |d.buf|)])
  }

  function DataNext(d: Data, e: Step): Data {
    match e
    case Copy(w, data) =>
      d.(buf := Overlay(d.buf, Taken(data)), wrote := d.wrote[w := Taken(data)])
    case Fault(w, partial) => d.(buf := Overlay(d.buf, partial))
    case Publish(w) =>
      var data := if w in d.wrote then d.wrote[w] else [];
      d.(published := d.published + [data], len := Or(d.len, |data|))
    case NicSend => d.(sent := d.sent + [Transmitted(d)])
    case _ => d
  }

  function Next(s: Sys, e: Step): Sys {
    Sys(ClaimsNext(s.c, e), DataNext(s.d, e))
  }

  /** setup_buffers. */
  predicate Initial(s: Sys) {
    && s.c == Claims(0, {}, {}, {}, {}, 0, false, false, false)
    && s.d == Data(s.d.buf, 0, map[], [], []) && |s.d.buf| == PKT_SIZE
  }

  /** Who holds the buffer: a writer between its check and its publication, the NIC, a packet
      sent and not yet accounted for, or an abandoned claim. */
  function Holders(c: Claims): nat {
    |c.claimed| + |c.copied| + c.orphans + Flag(c.own) + Flag(c.txOk) + Flag(c.acking)
  }

  predicate ClaimsSound(c: Claims) {
    && c.busy == |c.tentative| + |c.backing| + Holders(c)
    && Holders(c) <= 1
    && c.tentative !! c.backing !! c.claimed !! c.copied
  }

  /** The k-th packet sent starts with the k-th published, and its length is or-ed from the lengths
      of that one and all before it. */
  predicate Carries(x: Sent, published: seq<Bytes>, k: nat)
    requires k < |published|
  {
    && published[k] <= x.front
    && x.len == OrAll(published[..k + 1])
    && |x.front| == Min(x.len, PKT_SIZE)
  }

  predicate DataSound(c: Claims, d: Data) {
    && |d.buf| == PKT_SIZE
    && (forall w :: w in c.copied ==> w in d.wrote && d.wrote[w] <= d.buf)
    && |d.published| == |d.sent| + Flag(c.own)
    && d.len == OrAll(d.published)
    && (forall k :: 0 <= k < |d.sent| ==> Carries(d.sent[k], d.published, k))
    && (c.own ==> d.published[|d.sent|] <= d.buf)
  }

  predicate Sound(s: Sys) {
    ClaimsSound(s.c) && DataSound(s.c, s.d)
  }

  lemma Leaves(s: set<Tid>, w: Tid)
    requires w in s
    ensures |s - {w}| == |s| - 1 && |s| >= 1
  {
  }

  lemma Joins(s: set<Tid>, w: Tid)
    requires w !in s
    ensures |s + {w}| == |s| + 1
  {
  }

  lemma CheckKeeps(c: Claims, w: Tid)
    requires ClaimsSound(c) && w in c.tentative
    ensures ClaimsSound(ClaimsNext(c, Check(w)))
  {
    Leaves(c.tentative, w);
    if c.busy != 1 { Joins(c.backing, w); } else { Joins(c.claimed, w); }
  }

  lemma HolderMoves(c: Claims, e: Step)
    requires ClaimsSound(c) && Enabled(c, e) && (e.Copy? || e.Fault? || e.Publish?)
    ensures ClaimsSound(ClaimsNext(c, e))
  {
    match e
    case Copy(w, data) => Leaves(c.claimed, w); Joins(c.copied, w);
    case Fault(w, partial) => Leaves(c.claimed, w);
    case Publish(w) => Leaves(c.copied, w);
  }

  lemma ClaimsKept(c: Claims, e: Step)
    requires ClaimsSound(c) && Enabled(c, e)
    ensures ClaimsSound(ClaimsNext(c, e))
  {
    match e
    case Inc(w) => Joins(c.tentative, w);
    case Check(w) => CheckKeeps(c, w);
    case BackOff(w) => Leaves(c.backing, w);
    case NicSend =>
    case TxOkAck =>
    case TxOkDec =>
    case _ => HolderMoves(c, e);
  }

  /** A writer that holds the buffer holds it alone. */
  lemma HolderIsAlone(c: Claims, w: Tid)
    requires ClaimsSound(c) && (w in c.claimed || w in c.copied)
    ensures !c.own && !c.txOk && !c.acking && c.orphans == 0
    ensures w in c.claimed ==> c.claimed == {w} && c.copied == {}
    ensures w in c.copied ==> c.claimed == {} && c.copied == {w}
  {
    if w in c.claimed { Leaves(c.claimed, w); } else { Leaves(c.copied, w); }
  }

  lemma CopyKept(s: Sys, w: Tid, data: Bytes)
    requires Sound(s) && w in s.c.claimed
    ensures DataSound(ClaimsNext(s.c, Copy(w, data)), DataNext(s.d, Copy(w, data)))
  {
    HolderIsAlone(s.c, w);
    var t := Taken(data);
    assert Overlay(s.d.buf, t)[..|t|] == t;
  }

  lemma PublishKept(s: Sys, w: Tid)
    requires Sound(s) && w in s.c.copied
    ensures DataSound(ClaimsNext(s.c, Publish(w)), DataNext(s.d, Publish(w)))
  {
    HolderIsAlone(s.c, w);
    var d, p := s.d, s.d.published + [s.d.wrote[w]];
    assert p[..|d.published|] == d.published;
    forall k | 0 <= k < |d.sent| ensures Carries(d.sent[k], p, k) {
      assert p[..k + 1] == d.published[..k + 1];
    }
  }

  lemma SendKept(s: Sys)
    requires Sound(s) && s.c.own
    ensures DataSound(ClaimsNext(s.c, NicSend), DataNext(s.d, NicSend))
  {
    var d, n := s.d, |s.d.sent|;
    assert d.published[..n + 1] == d.published;
    assert Carries(Transmitted(d), d.published, n);
  }

  lemma DataKept(s: Sys, e: Step)
    requires Sound(s) && Enabled(s.c, e)
    ensures DataSound(ClaimsNext(s.c, e), DataNext(s.d, e))
  {
    match e
    case Copy(w, data) => CopyKept(s, w, data);
    case Fault(w, partial) => HolderIsAlone(s.c, w);
    case Publish(w) => PublishKept(s, w);
    case NicSend => SendKept(s);
    case _ =>
  }

  lemma StepKeepsSound(s: Sys, e: Step)
    requires Sound(s) && Enabled(s.c, e)
    ensures Sound(Next(s, e))
  {
    ClaimsKept(s.c, e);
    DataKept(s, e);
  }

  function After(s: Sys, es: seq<Step>): Sys {
    if es == [] then s else Next(After(s, es[..|es| - 1]), es[|es| - 1])
  }

  predicate Legal(s: Sys, es: seq<Step>) {
    es == [] || (Legal(s, es[..|es| - 1]) && Enabled(After(s, es[..|es| - 1]).c, es[|es| - 1]))
  }

  lemma Snoc(s: Sys, es: seq<Step>, e: Step)
    requires Legal(s, es) && Enabled(After(s, es).c, e)
    ensures Legal(s, es + [e]) && After(s, es + [e]) == Next(After(s, es), e)
  {
    assert (es + [e])[..|es|] == es;
  }

  lemma Last(s: Sys, es: seq<Step>) returns (fs: seq<Step>, e: Step)
    requires Legal(s, es) && es != []
    ensures es == fs + [e] && Legal(s, fs) && Enabled(After(s, fs).c, e) && After(s, es) == Next(After(s, fs), e)
  {
    var n := |es| - 1;
    fs, e := es[..n], es[n];
  }

  lemma {:induction false} Append(s: Sys, es: seq<Step>, fs: seq<Step>)
    requires Legal(s, es) && Legal(After(s, es), fs)
    ensures Legal(s, es + fs) && After(s, es + fs) == After(After(s, es), fs)
    decreases |fs|
  {
    if fs == [] {
      assert es + fs == es;
    } else {
      var gs, e := Last(After(s, es), fs);
      Append(s, es, gs);
      Snoc(s, es + gs, e);
      assert es + fs == es + gs + [e];
    }
  }

  lemma {:induction false} RunsStaySound(s: Sys, es: seq<Step>)
    requires Sound(s) && Legal(s, es)
    ensures Sound(After(s, es))
  {
    if es == [] {
    } else {
      var n := |es| - 1;
      RunsStaySound(s, es[..n]);
      StepKeepsSound(After(s, es[..n]), es[n]);
    }
  }

  /** Mutual exclusion, for any number of writers and any interleaving: the counter is the
      writers trying plus the one holder, so at most one writer is between its check and its
      publication, and then the NIC is not using the buffer. What the NIC sends starts, packet by
      packet, with what the publishing writers copied in; it may go on, since expt_write only
      ever adds bits to the descriptor's length. */
  lemma MutualExclusion(s: Sys, es: seq<Step>)
    requires Initial(s) && Legal(s, es)
    ensures var c := After(s, es).c;
            && c.busy == |c.tentative| + |c.backing| + Holders(c)
            && Holders(c) <= 1
            && |c.claimed + c.copied| <= 1
            && (c.own ==> c.claimed == {} == c.copied)
    ensures var d := After(s, es).d;
            && |d.sent| <= |d.published| <= |d.sent| + 1
            && (forall k :: 0 <= k < |d.sent| ==> d.published[k] <= d.sent[k].front)
  {
    RunsStaySound(s, es);
    var c := After(s, es).c;
    assert |c.claimed + c.copied| == |c.claimed| + |c.copied|;
  }

  /** A bit is set in the or of all lengths exactly if it is set in one of them. */
  lemma {:induction false} OrAllBit(ps: seq<Bytes>, k: nat)
    ensures Bit(OrAll(ps), k) <==> exists j :: 0 <= j < |ps| && Bit(|ps[j]|, k)
  {
    if ps == [] {
      BitOfZero(k);
    } else {
      var n := |ps| - 1;
      OrAllBit(ps[..n], k);
      OrBit(OrAll(ps[..n]), |ps[n]|, k);
      if j :| 0 <= j < |ps[..n]| && Bit(|ps[..n][j]|, k) { assert Bit(|ps[j]|, k); }
      if j :| 0 <= j < |ps| && Bit(|ps[j]|, k) { assert j == n || Bit(|ps[..n][j]|, k); }
    }
  }

  /** None of these lengths has a bit that n lacks. */
  ghost predicate AllWithin(ps: seq<Bytes>, n: nat) {
    forall j :: 0 <= j < |ps| ==> Within(|ps[j]|, n)
  }

  lemma OrAllWithin(ps: seq<Bytes>, n: nat)
    ensures Within(OrAll(ps), n) <==> AllWithin(ps, n)
  {
    forall k: nat ensures Bit(OrAll(ps), k) <==> exists j :: 0 <= j < |ps| && Bit(|ps[j]|, k) {
      OrAllBit(ps, k);
    }
  }

  /** In every run, the length the NIC is told has the bits of the lengths of all packets so far, and
      a packet is sent as it was written, bytes and length, if and only if none of the packets before
      it has a length with a bit that its own length lacks. */
  lemma SentExactlyIff(s: Sys, es: seq<Step>, k: nat)
    requires Initial(s) && Legal(s, es) && k < |After(s, es).d.sent|
    ensures var d := After(s, es).d;
            && k < |d.published|
            && d.sent[k].len == Or(OrAll(d.published[..k]), |d.published[k]|)
            && (d.sent[k] == Sent(|d.published[k]|, d.published[k]) <==>
                  AllWithin(d.published[..k], |d.published[k]|))
  {
    RunsStaySound(s, es);
    var d := After(s, es).d;
    assert Carries(d.sent[k], d.published, k);
    assert d.published[..k + 1][..k] == d.published[..k];
    OrAddsNothingIff(OrAll(d.published[..k]), |d.published[k]|);
    OrAllWithin(d.published[..k], |d.published[k]|);
  }

  lemma OrExamples()
    ensures Or(1, 2) == 3 && Or(3, 256) == 259 && Or(0, 3) == 3
  {
    assert Or(0, 2) == 2 * Or(0, 1) && Or(0, 16) == 16 && Or(0, 64) == 4 * Or(0, 16);
    assert Or(3, 256) == 2 * Or(1, 128) + 1 && Or(1, 128) == 2 * Or(0, 64) + 1;
  }

  /** What the NIC is told after two packets, of three bytes and of a full buffer. */
  lemma OrOfTwo(ps: seq<Bytes>)
    requires |ps| == 2 && |ps[0]| == 3 && |ps[1]| == 256
    ensures Or(OrAll(ps[..1]), |ps[1]|) == 259
  {
    OrExamples();
    assert ps[..1][..0] == [];
    assert OrAll(ps[..1]) == Or(OrAll([]), 3);
  }

  lemma OrphanShutsOut(c: Claims)
    requires ClaimsSound(c) && c.orphans > 0
    ensures c.claimed == {} == c.copied && c.busy >= 1
  {
    assert |c.claimed| == 0 && |c.copied| == 0;
  }

  lemma OrphanStep(s: Sys, e: Step)
    requires ClaimsSound(s.c) && s.c.orphans > 0 && Enabled(s.c, e)
    ensures Next(s, e).c.orphans > 0 && Next(s, e).d.published == s.d.published
  {
    OrphanShutsOut(s.c);
  }

  /** An -EFAULT return keeps its claim: from then on the counter never comes back to zero, no
      writer ever gets the buffer and nothing more is published. */
  lemma {:induction false} FaultBlocksForever(s: Sys, es: seq<Step>)
    requires Sound(s) && s.c.orphans > 0 && Legal(s, es)
    ensures After(s, es).c.orphans > 0 && After(s, es).c.busy >= 1
    ensures After(s, es).c.claimed == {} == After(s, es).c.copied
    ensures After(s, es).d.published == s.d.published
  {
    if es == [] {
    } else {
      var n := |es| - 1;
      FaultBlocksForever(s, es[..n]);
      RunsStaySound(s, es[..n]);
      OrphanStep(After(s, es[..n]), es[n]);
    }
    RunsStaySound(s, es);
    OrphanShutsOut(After(s, es).c);
  }
}
