/** The DMA descriptor that driver and NIC share. `Desc` is its decoded form, which the ring
    models use; the second half of the module works on the raw 32-bit `opts1` word and shows
    that every word operation of the driver has the decoded effect the models give it. */
module Descriptors {

  datatype Desc = Desc(own: bool, eor: bool, first: bool, last: bool,
                       rwt: bool, res: bool, runt: bool, crc: bool,
                       size: nat, addr: nat)

  /** A descriptor after memset 0, and after rtl8101_unmap_tx_skb. */
  const ZERO: Desc := Desc(false, false, false, false, false, false, false, false, 0, 0)

  const RX_BUF_SIZE: nat := 0x05F3

  const POISON: nat := 0x0bad_badb_adba_dbad

  /** What start_xmit leaves in slot `entry`. */
  function TxPosted(atEnd: bool, len: nat, addr: nat): Desc {
    Desc(true, atEnd, true, true, false, false, false, false, len, addr)
  }

  /** rtl8101_mark_to_asic: everything but RingEnd and the address is overwritten. */
  function MarkToAsic(d: Desc): Desc {
    Desc(true, d.eor, false, false, false, false, false, false, RX_BUF_SIZE, d.addr)
  }

  /** rtl8101_make_unusable_by_asic. */
  function MakeUnusable(d: Desc): Desc {
    Desc(false, d.eor, false, false, false, false, false, false, d.size, POISON)
  }

  // ---- the raw opts1 word ----

  const DESC_OWN: bv32 := 0x8000_0000
  const RING_END: bv32 := 0x4000_0000
  const FIRST_FRAG: bv32 := 0x2000_0000
  const LAST_FRAG: bv32 := 0x1000_0000
  const RX_RWT: bv32 := 0x0040_0000
  const RX_RES: bv32 := 0x0020_0000
  const RX_RUNT: bv32 := 0x0010_0000
  const RX_CRC: bv32 := 0x0008_0000
  const SIZE_MASK: bv32 := 0x0000_3FFF

  function Decode(w: bv32, addr: nat): Desc {
    Desc(w & DESC_OWN != 0, w & RING_END != 0, w & FIRST_FRAG != 0, w & LAST_FRAG != 0,
         w & RX_RWT != 0, w & RX_RES != 0, w & RX_RUNT != 0, w & RX_CRC != 0,
         (w & SIZE_MASK) as nat, addr)
  }

  /** The word start_xmit stores last; the store before it is the same word without DescOwn. */
  function TxWord(len: bv32, atEnd: bool): bv32 {
    DESC_OWN | FIRST_FRAG | LAST_FRAG | len | (if atEnd then RING_END else 0)
  }

  function MarkWord(w: bv32): bv32 {
    DESC_OWN | (w & RING_END) | 0x05F3
  }

  function UnusableWord(w: bv32): bv32 {
    w & !(DESC_OWN | 0x3fff_c000)
  }

  predicate TxBits(w: bv32, len: bv32, atEnd: bool) {
    && w & DESC_OWN != 0 && (w & RING_END != 0) == atEnd && w & FIRST_FRAG != 0 && w & LAST_FRAG != 0
    && w & RX_RWT == 0 && w & RX_RES == 0 && w & RX_RUNT == 0 && w & RX_CRC == 0
    && w & SIZE_MASK == len
  }

  lemma TxWordBits(len: bv32, atEnd: bool)
    requires len & SIZE_MASK == len
    ensures TxBits(TxWord(len, atEnd), len, atEnd)
  {
  }

  /** The word of start_xmit decodes to TxPosted, and the word stored just before it to the
      same descriptor without DescOwn. */
  lemma TxWordDecodes(w: bv32, len: bv32, atEnd: bool, addr: nat)
    requires TxBits(w, len, atEnd)
    ensures Decode(w, addr) == TxPosted(atEnd, len as nat, addr)
    ensures Decode(w & !DESC_OWN, addr) == TxPosted(atEnd, len as nat, addr).(own := false)
  {
    assert (w & !DESC_OWN) & SIZE_MASK == w & SIZE_MASK;
  }

  lemma MarkWordDecodes(w: bv32, addr: nat)
    ensures Decode(MarkWord(w), addr) == MarkToAsic(Decode(w, addr))
  {
    assert MarkWord(w) & SIZE_MASK == 0x05F3;
  }

  lemma UnusableWordDecodes(w: bv32, addr: nat)
    ensures Decode(UnusableWord(w), POISON) == MakeUnusable(Decode(w, addr))
  {
    assert UnusableWord(w) & SIZE_MASK == w & SIZE_MASK;
  }
}
