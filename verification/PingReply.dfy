/** dummy_ping.c: an ICMP packet is turned into an echo reply in place. The MAC and IP addresses
    are exchanged, the ICMP checksum is rebuilt, and the IP header checksum is left alone. Offsets
    are from the start of the frame: `ip` is where ip_hdr points, `icmp` where icmp_hdr points. */
module PingReply {
  import opened Common
  import opened OnesComplement

  const ETH_ALEN := 6
  const IPPROTO_ICMP := 1
  const ICMP_ECHOREPLY := 0

  // ---- fields (section 3.1 of RFC 791) ----

  function HeaderBytes(s: seq<Byte>, ip: nat): nat
    requires ip < |s|
  {
    s[ip] % 16 * 4
  }

  function TotLen(s: seq<Byte>, ip: nat): nat
    requires ip + 4 <= |s|
  {
    var hi: int := s[ip + 2];
    hi * 256 + s[ip + 3]
  }

  /** Length of the ICMP message; negative in a header whose lengths disagree. */
  function IcmpLen(s: seq<Byte>, ip: nat): int
    requires ip + 4 <= |s|
  {
    TotLen(s, ip) - HeaderBytes(s, ip)
  }

  /** The frame holds everything the function touches: the MAC addresses before the IP header, its
      fixed part, the first word of the ICMP header behind that, and the bytes to be summed. */
  predicate Fits(s: seq<Byte>, ip: nat, icmp: nat) {
    && 2 * ETH_ALEN <= ip && ip + 20 <= icmp && icmp + 4 <= |s|
    && icmp + IcmpLen(s, ip) <= |s|
  }

  function Header(s: seq<Byte>, ip: nat): seq<Byte>
    requires ip < |s| && ip + HeaderBytes(s, ip) <= |s|
  {
    s[ip..ip + HeaderBytes(s, ip)]
  }

  function Message(s: seq<Byte>, ip: nat, icmp: nat): seq<Byte>
    requires Fits(s, ip, icmp)
  {
    if IcmpLen(s, ip) <= 0 then [] else s[icmp..icmp + IcmpLen(s, ip)]
  }

  // ---- what the reply is ----

  function Store(s: seq<Byte>, at: nat, bytes: seq<Byte>): (r: seq<Byte>)
    requires at + |bytes| <= |s|
    ensures |r| == |s|
    ensures forall k :: 0 <= k < |s| ==> r[k] == if at <= k < at + |bytes| then bytes[k - at] else s[k]
  {
    s[..at] + bytes + s[at + |bytes|..]
  }

  /** s with the n bytes at i and the n bytes at j exchanged. */
  function Exchange(s: seq<Byte>, i: nat, j: nat, n: nat): (r: seq<Byte>)
    requires i + n <= j && j + n <= |s|
    ensures |r| == |s|
  {
    seq(|s|, k requires 0 <= k < |s| =>
      if i <= k < i + n then s[k - i + j] else if j <= k < j + n then s[k - j + i] else s[k])
  }

  function Readdressed(s: seq<Byte>, ip: nat): (r: seq<Byte>)
    requires 2 * ETH_ALEN <= ip && ip + 20 <= |s|
    ensures |r| == |s|
  {
    Exchange(Exchange(s, 0, ETH_ALEN, ETH_ALEN), ip + 12, ip + 16, 4)
  }

  /** The message with type 0 and no checksum. */
  function Cleared(s: seq<Byte>, icmp: nat): (r: seq<Byte>)
    requires icmp + 4 <= |s|
    ensures |r| == |s|
  {
    s[icmp := ICMP_ECHOREPLY][icmp + 2 := 0][icmp + 3 := 0]
  }

  /** The checksum by the reference definition: the complement of the sum. */
  function Checksum(m: seq<Byte>): (r: Word16) {
    0xFFFF - Ones(Total(m), 0xFFFF)
  }

  /** The ICMP message turned into a reply; the length comes from the IP header. */
  function Rebuilt(s: seq<Byte>, ip: nat, icmp: nat): (r: seq<Byte>)
    requires Fits(s, ip, icmp)
    ensures |r| == |s|
  {
    var t := Cleared(s, icmp);
    var c := Checksum(Message(t, ip, icmp));
    t[icmp + 2 := c / 256][icmp + 3 := c % 256]
  }

  function Reply(s: seq<Byte>, ip: nat, icmp: nat): (r: seq<Byte>)
    requires Fits(s, ip, icmp)
    ensures |r| == |s|
  {
    Rebuilt(Readdressed(s, ip), ip, icmp)
  }

  // ---- main results ----

  lemma Total4(a: seq<Byte>, b: seq<Byte>, c: seq<Byte>, d: seq<Byte>)
    requires |a| % 2 == 0 && |b| % 2 == 0 && |c| % 2 == 0
    ensures Total(a + (b + (c + d))) == Total(a) + Total(b) + Total(c) + Total(d)
  {
    TotalConcat(a, b + (c + d));
    TotalConcat(b, c + d);
    TotalConcat(c, d);
  }

  lemma ExchangeParts(h: seq<Byte>)
    requires |h| >= 20
    ensures Exchange(h, 12, 16, 4) == h[..12] + (h[16..20] + (h[12..16] + h[20..]))
  {
  }

  /** Exchanging the two addresses permutes the words of the header, so its sum, and with it the
      validity of the checksum nobody recomputes, is what it was. */
  lemma AddressSwapKeepsTotal(h: seq<Byte>)
    requires |h| >= 20
    ensures Total(Exchange(h, 12, 16, 4)) == Total(h)
  {
    var front, s, d, rest := h[..12], h[12..16], h[16..20], h[20..];
    assert h == front + (s + (d + rest));
    ExchangeParts(h);
    Total4(front, s, d, rest);
    Total4(front, d, s, rest);
  }

  /** Where byte k of a readdressed frame comes from: MAC and IP addresses change places. */
  function Origin(ip: nat, k: nat): nat {
    if k < 6 then k + 6
    else if k < 12 then k - 6
    else if ip + 12 <= k < ip + 16 then k + 4
    else if ip + 16 <= k < ip + 20 then k - 4
    else k
  }

  lemma ReaddressedAt(s: seq<Byte>, ip: nat, k: nat)
    requires 2 * ETH_ALEN <= ip && ip + 20 <= |s| && k < |s|
    ensures Readdressed(s, ip)[k] == s[Origin(ip, k)]
  {
    var t := Exchange(s, 0, ETH_ALEN, ETH_ALEN);
    assert forall j :: 12 <= j < |s| ==> t[j] == s[j];
  }

  lemma RebuiltAt(s: seq<Byte>, ip: nat, icmp: nat, k: nat)
    requires Fits(s, ip, icmp) && k < |s| && k != icmp + 2 && k != icmp + 3
    ensures Rebuilt(s, ip, icmp)[k] == if k == icmp then 0 else s[k]
  {
  }

  /** Every byte of the reply but the checksum, from the request. */
  lemma ReplyAt(s: seq<Byte>, ip: nat, icmp: nat, k: nat)
    requires Fits(s, ip, icmp) && k < |s| && k != icmp + 2 && k != icmp + 3
    ensures Reply(s, ip, icmp)[k] == if k == icmp then 0 else s[Origin(ip, k)]
  {
    ReaddressedAt(s, ip, k);
    RebuiltAt(Readdressed(s, ip), ip, icmp, k);
  }

  /** Where byte k of the header comes from: the other address, or the same place. */
  function Source(k: nat): nat {
    if 12 <= k < 16 then k + 4 else if 16 <= k < 20 then k - 4 else k
  }

  lemma HeaderExchanged(h: seq<Byte>, g: seq<Byte>)
    requires 20 <= |h| == |g| && forall k :: 0 <= k < |h| ==> g[k] == h[Source(k)]
    ensures g == Exchange(h, 12, 16, 4)
  {
  }

  lemma ReaddressedHeader(s: seq<Byte>, ip: nat, n: nat)
    requires 2 * ETH_ALEN <= ip && 20 <= n && ip + n <= |s|
    ensures Readdressed(s, ip)[ip..ip + n] == Exchange(s[ip..ip + n], 12, 16, 4)
  {
    var q := Readdressed(s, ip);
    var h, g := s[ip..ip + n], q[ip..ip + n];
    forall k | 0 <= k < n ensures g[k] == h[Source(k)] {
      ReaddressedAt(s, ip, ip + k);
      assert Origin(ip, ip + k) == ip + Source(k);
    }
    HeaderExchanged(h, g);
  }

  lemma RebuiltFront(q: seq<Byte>, ip: nat, icmp: nat)
    requires Fits(q, ip, icmp)
    ensures Rebuilt(q, ip, icmp)[..icmp] == q[..icmp]
  {
  }

  lemma FrontSlice(r: seq<Byte>, q: seq<Byte>, m: nat, i: nat, n: nat)
    requires i + n <= m <= |r| == |q| && r[..m] == q[..m]
    ensures r[i..i + n] == q[i..i + n]
  {
    assert r[..m][i..i + n] == r[i..i + n] && q[..m][i..i + n] == q[i..i + n];
  }

  lemma ReaddressedFits(s: seq<Byte>, ip: nat, icmp: nat)
    requires Fits(s, ip, icmp)
    ensures Fits(Readdressed(s, ip), ip, icmp)
  {
    ReaddressedAt(s, ip, ip);
    ReaddressedAt(s, ip, ip + 2);
    ReaddressedAt(s, ip, ip + 3);
  }

  lemma HeaderIs(s: seq<Byte>, r: seq<Byte>, ip: nat, n: nat)
    requires 20 <= n && ip + n <= |s| == |r| && HeaderBytes(s, ip) == n
    requires r[ip..ip + n] == Exchange(s[ip..ip + n], 12, 16, 4)
    ensures HeaderBytes(r, ip) == n && Header(r, ip) == Exchange(Header(s, ip), 12, 16, 4)
  {
    assert r[ip] == r[ip..ip + n][0] == s[ip..ip + n][0] == s[ip];
  }

  /** The IP header of the reply is that of the request with the addresses exchanged. */
  lemma ReplyHeader(s: seq<Byte>, ip: nat, icmp: nat, n: nat)
    requires Fits(s, ip, icmp) && HeaderBytes(s, ip) == n && 20 <= n && ip + n <= icmp
    ensures var r := Reply(s, ip, icmp);
      HeaderBytes(r, ip) == n && Header(r, ip) == Exchange(Header(s, ip), 12, 16, 4)
  {
    var q := Readdressed(s, ip);
    ReaddressedHeader(s, ip, n);
    ReaddressedFits(s, ip, icmp);
    RebuiltFront(q, ip, icmp);
    FrontSlice(Rebuilt(q, ip, icmp), q, icmp, ip, n);
    HeaderIs(s, Rebuilt(q, ip, icmp), ip, n);
  }

  /** The header checksum is valid in the reply exactly when it was in the request, for a header
      with any number of options. */
  lemma HeaderChecksumKept(s: seq<Byte>, ip: nat, icmp: nat)
    requires Fits(s, ip, icmp) && HeaderBytes(s, ip) >= 20 && ip + HeaderBytes(s, ip) <= icmp
    ensures HeaderBytes(Reply(s, ip, icmp), ip) == HeaderBytes(s, ip)
    ensures Verifies(Header(Reply(s, ip, icmp), ip)) <==> Verifies(Header(s, ip))
  {
    ReplyHeader(s, ip, icmp, HeaderBytes(s, ip));
    AddressSwapKeepsTotal(Header(s, ip));
  }

  /** Filling in the checksum adds it to the sum. */
  lemma StampAdds(t: seq<Byte>, c: Word16)
    requires |t| >= 4 && t[2] == 0 && t[3] == 0
    ensures Total(t[2 := c / 256][3 := c % 256]) == Total(t) + c
  {
    var u := t[2 := c / 256][3 := c % 256];
    assert u == t[..2] + ([c / 256, c % 256] + ([] + t[4..]));
    assert t == t[..2] + ([0, 0] + ([] + t[4..]));
    Total4(t[..2], [c / 256, c % 256], [], t[4..]);
    Total4(t[..2], [0, 0], [], t[4..]);
    assert Total([c / 256, c % 256]) == c;
  }

  /** A message too short to hold its checksum gets a valid one only by chance: three bytes long
      with code 255. */
  lemma ShortStamp(t: seq<Byte>, n: nat)
    requires |t| >= 4 && n < 4 && t[0] == 0 && t[2] == 0 && t[3] == 0
    ensures var c := Checksum(t[..n]); Verifies(t[2 := c / 256][3 := c % 256][..n]) <==> n == 3 && t[1] == 255
  {
    var c := Checksum(t[..n]);
    var u := t[2 := c / 256][3 := c % 256][..n];
    if n >= 2 {
      assert Total(u) == t[1] + Total(u[2..]);
      assert Total(t[..n]) == t[1] + Total(t[..n][2..]);
    }
  }

  /** Whatever arrived, a message that holds its checksum leaves with a valid one. */
  lemma LongStamp(t: seq<Byte>, n: nat)
    requires 4 <= n <= |t| && t[2] == 0 && t[3] == 0
    ensures var c := Checksum(t[..n]); Verifies(t[2 := c / 256][3 := c % 256][..n])
  {
    var m := t[..n];
    var c := Checksum(m);
    assert t[2 := c / 256][3 := c % 256][..n] == m[2 := c / 256][3 := c % 256];
    StampAdds(m, c);
    ComplementCompletes(Total(m));
  }

  /** The ICMP message of the reply is the request's message, cleared and stamped. */
  lemma ReplyMessage(s: seq<Byte>, ip: nat, icmp: nat) returns (n: nat, t: seq<Byte>, c: Word16)
    requires Fits(s, ip, icmp)
    ensures n == (if IcmpLen(s, ip) <= 0 then 0 else IcmpLen(s, ip)) && icmp + n <= |s|
    ensures t == Cleared(s, icmp)[icmp..] && c == Checksum(t[..n])
    ensures IcmpLen(Reply(s, ip, icmp), ip) == IcmpLen(s, ip)
    ensures Message(Reply(s, ip, icmp), ip, icmp) == t[2 := c / 256][3 := c % 256][..n]
  {
    n := if IcmpLen(s, ip) <= 0 then 0 else IcmpLen(s, ip);
    t := Cleared(s, icmp)[icmp..];
    c := Checksum(t[..n]);
    var q := Readdressed(s, ip);
    assert Cleared(q, icmp)[icmp..] == t;
    RebuiltMessage(q, ip, icmp, n, t, c);
  }

  lemma RebuiltMessage(q: seq<Byte>, ip: nat, icmp: nat, n: nat, t: seq<Byte>, c: Word16)
    requires Fits(q, ip, icmp) && n == if IcmpLen(q, ip) <= 0 then 0 else IcmpLen(q, ip)
    requires t == Cleared(q, icmp)[icmp..] && c == Checksum(t[..n])
    ensures IcmpLen(Rebuilt(q, ip, icmp), ip) == IcmpLen(q, ip)
    ensures Message(Rebuilt(q, ip, icmp), ip, icmp) == t[2 := c / 256][3 := c % 256][..n]
  {
    assert Message(Cleared(q, icmp), ip, icmp) == t[..n];
    assert Rebuilt(q, ip, icmp)[icmp..] == t[2 := c / 256][3 := c % 256];
    assert Message(Rebuilt(q, ip, icmp), ip, icmp) == Rebuilt(q, ip, icmp)[icmp..][..n];
  }

  /** Ping reply checksum: the ICMP checksum of the reply is valid exactly when the message holds
      its checksum field, for every content and every length, odd ones too (and in one short case). */
  lemma ReplyVerifiesIff(s: seq<Byte>, ip: nat, icmp: nat)
    requires Fits(s, ip, icmp)
    ensures Fits(Reply(s, ip, icmp), ip, icmp)
    ensures Verifies(Message(Reply(s, ip, icmp), ip, icmp)) <==>
            IcmpLen(s, ip) >= 4 || (IcmpLen(s, ip) == 3 && s[icmp + 1] == 255)
  {
    var n, t, c := ReplyMessage(s, ip, icmp);
    if n < 4 { ShortStamp(t, n); } else { LongStamp(t, n); }
  }

  /** The 16-bit field at offset 2. */
  function Field(m: seq<Byte>): (r: Word16)
    requires |m| >= 4
  {
    var hi: int := m[2];
    hi * 256 + m[3]
  }

  lemma EchoTotal(m: seq<Byte>, t: seq<Byte>)
    requires |m| >= 4 && m[0] == 8 && t == m[0 := 0][2 := 0][3 := 0]
    ensures Total(m) == 0x800 + Total(t) + Field(m)
  {
    var c := Field(m);
    var u := t[2 := c / 256][3 := c % 256];
    StampAdds(t, c);
    assert u == m[0 := 0];
    assert m[0 := 0][2..] == m[2..];
  }

  lemma ComplementModulo(x: nat, f: nat, m: nat)
    requires x + f == 0xFFFF * m && m > 0
    ensures (0xFFFF - Ones(x, 0xFFFF)) % 0xFFFF == f % 0xFFFF
  {
    var k := if x == 0 then 0 else (x - 1) / 0xFFFF;
    assert x == Ones(x, 0xFFFF) + 0xFFFF * k;
    assert f == 0xFFFF - Ones(x, 0xFFFF) + 0xFFFF * (m - k - 1);
  }

  /** For a valid echo request (type 8) the rebuilt checksum is the old one plus the 8 * 256 that
      the type field lost: what an incremental update would give. */
  lemma EchoChecksumMoves(m: seq<Byte>)
    requires |m| >= 4 && m[0] == 8 && Verifies(m)
    ensures Checksum(m[0 := 0][2 := 0][3 := 0]) % 0xFFFF == (Field(m) + 0x800) % 0xFFFF
  {
    var t := m[0 := 0][2 := 0][3 := 0];
    EchoTotal(m, t);
    VerifiesMeans(m);
    ComplementModulo(Total(t), Field(m) + 0x800, Total(m) / 0xFFFF);
  }

  /** Exchanging the addresses again restores the frame. */
  lemma ReaddressedTwice(s: seq<Byte>, ip: nat)
    requires 2 * ETH_ALEN <= ip && ip + 20 <= |s|
    ensures Readdressed(Readdressed(s, ip), ip) == s
  {
    var r := Readdressed(s, ip);
    forall k | 0 <= k < |s| ensures Readdressed(r, ip)[k] == s[k] {
      ReaddressedAt(r, ip, k);
      ReaddressedAt(s, ip, Origin(ip, k));
      assert Origin(ip, Origin(ip, k)) == k;
    }
  }

  // ---- whole frames ----

  /** The parts of an Ethernet frame: what comes before the IP packet, the IP header, the ICMP message,
      and padding. */
  datatype Frame = Frame(e: seq<Byte>, h: seq<Byte>, m: seq<Byte>, pad: seq<Byte>)

  function Bytes(f: Frame): seq<Byte> {
    f.e + f.h + f.m + f.pad
  }

  /** At least the two MAC addresses, and an IPv4 header that gives its own length, in words, and the
      length of the packet. */
  predicate Assembled(f: Frame) {
    && 2 * ETH_ALEN <= |f.e| && 20 <= |f.h| <= 60 && |f.m| + |f.pad| >= 4
    && |f.h| % 4 == 0 && f.h[0] == 0x40 + |f.h| / 4
    && PacketLength(f.h) == |f.h| + |f.m|
  }

  function PacketLength(h: seq<Byte>): nat
    requires |h| >= 20
  {
    var hi: int := h[2];
    hi * 256 + h[3]
  }

  /** Parsing undoes assembling: the header and the message are found again, whatever they hold. */
  lemma PartsFound(f: Frame)
    requires Assembled(f)
    ensures var s, ip, icmp := Bytes(f), |f.e|, |f.e| + |f.h|;
            && Fits(s, ip, icmp) && HeaderBytes(s, ip) == |f.h| && IcmpLen(s, ip) == |f.m|
            && Header(s, ip) == f.h && Message(s, ip, icmp) == f.m
  {
    var s, ip := Bytes(f), |f.e|;
    assert s[ip] == f.h[0] && s[ip + 2] == f.h[2] && s[ip + 3] == f.h[3];
    assert s[ip..ip + |f.h|] == f.h;
    assert s[ip + |f.h|..ip + |f.h| + |f.m|] == f.m;
  }

  lemma ReplyHeaderPart(s: seq<Byte>, ip: nat, icmp: nat, h: seq<Byte>, r: seq<Byte>)
    requires Fits(s, ip, icmp) && HeaderBytes(s, ip) == |h| >= 20 && ip + |h| == icmp && Header(s, ip) == h
    requires r == Reply(s, ip, icmp)
    ensures r[ip..icmp] == Exchange(h, 12, 16, 4) && (Verifies(r[ip..icmp]) <==> Verifies(h))
  {
    ReplyHeader(s, ip, icmp, |h|);
    AddressSwapKeepsTotal(h);
  }

  /** The reply has a message of n bytes, in the same place, valid over all of it. */
  ghost predicate ValidReply(s: seq<Byte>, ip: nat, icmp: nat, n: nat) {
    && Fits(s, ip, icmp) && Fits(Reply(s, ip, icmp), ip, icmp)
    && IcmpLen(Reply(s, ip, icmp), ip) == n
    && Verifies(Message(Reply(s, ip, icmp), ip, icmp))
  }

  lemma LongReplyIsValid(s: seq<Byte>, ip: nat, icmp: nat, n: nat)
    requires Fits(s, ip, icmp) && IcmpLen(s, ip) == n >= 4
    ensures ValidReply(s, ip, icmp, n)
  {
    var m, t, c := ReplyMessage(s, ip, icmp);
    ReplyVerifiesIff(s, ip, icmp);
  }

  /** A frame put together from its parts gets such a reply, whatever its message holds. */
  lemma ReplyToFrame(f: Frame, ip: nat, icmp: nat, n: nat)
    requires Assembled(f) && n == |f.m| >= 4 && ip == |f.e| && icmp == |f.e| + |f.h|
    ensures ValidReply(Bytes(f), ip, icmp, n)
  {
    PartsFound(f);
    LongReplyIsValid(Bytes(f), ip, icmp, n);
  }

  /** Its header has the addresses exchanged, and is valid if it was. */
  lemma ReplyToFrameHeader(f: Frame, ip: nat, icmp: nat)
    requires Assembled(f) && ip == |f.e| && icmp == |f.e| + |f.h|
    ensures Fits(Bytes(f), ip, icmp)
    ensures var g := Reply(Bytes(f), ip, icmp)[ip..icmp];
            g == Exchange(f.h, 12, 16, 4) && (Verifies(g) <==> Verifies(f.h))
  {
    PartsFound(f);
    ReplyHeaderPart(Bytes(f), ip, icmp, f.h, Reply(Bytes(f), ip, icmp));
  }

  // ---- the function itself ----

  /** memcpy, memmove and word stores into the frame. */
  method Copy(a: array<Byte>, at: nat, bytes: seq<Byte>)
    requires at + |bytes| <= a.Length
    modifies a
    ensures a[..] == Store(old(a[..]), at, bytes)
  {
    for i := 0 to |bytes|
      invariant forall k :: 0 <= k < a.Length ==> a[k] == if at <= k < at + i then bytes[k - at] else old(a[k])
    {
      a[at + i] := bytes[i];
    }
  }

  lemma TwoStoresExchange(s: seq<Byte>, i: nat, j: nat, n: nat)
    requires i + n <= j && j + n <= |s|
    ensures Store(Store(s, i, s[j..j + n]), j, s[i..i + n]) == Exchange(s, i, j, n)
  {
  }

  method SwapFields(a: array<Byte>, i: nat, j: nat, n: nat)
    requires i + n <= j && j + n <= a.Length
    modifies a
    ensures a[..] == Exchange(old(a[..]), i, j, n)
  {
    ghost var s := a[..];
    var saved, other := a[i..i + n], a[j..j + n];
    assert saved == s[i..i + n] && other == s[j..j + n];
    Copy(a, i, other);
    Copy(a, j, saved);
    TwoStoresExchange(s, i, j, n);
  }

  method SwapAddresses(a: array<Byte>, ip: nat)
    requires 2 * ETH_ALEN <= ip && ip + 20 <= a.Length
    modifies a
    ensures a[..] == Readdressed(old(a[..]), ip)
  {
    SwapFields(a, 0, ETH_ALEN, ETH_ALEN);
    SwapFields(a, ip + 12, ip + 16, 4);
  }

  method RebuildIcmp(a: array<Byte>, ip: nat, icmp: nat)
    requires Fits(a[..], ip, icmp)
    modifies a
    ensures a[..] == Rebuilt(old(a[..]), ip, icmp)
  {
    a[icmp] := ICMP_ECHOREPLY;
    a[icmp + 2], a[icmp + 3] := 0, 0;
    ghost var t := Cleared(old(a[..]), icmp);
    assert a[..] == t;
    var hi: int, ihl: int := a[ip + 2], a[ip] % 16;
    var len := hi * 256 + a[ip + 3] - ihl * 4;
    var csum := CsumPartial(a, icmp, len, 0);
    ghost var m := Message(t, ip, icmp);
    assert len > 0 ==> a[icmp..icmp + len] == m;
    ChecksumIsComplement(Total(m));
    var check := CsumFold(csum);
    a[icmp + 2], a[icmp + 3] := check / 256, check % 256;
  }

  method MakeReply(a: array<Byte>, ip: nat, icmp: nat)
    requires Fits(a[..], ip, icmp)
    modifies a
    ensures a[..] == Reply(old(a[..]), ip, icmp)
  {
    ReaddressedFits(a[..], ip, icmp);
    SwapAddresses(a, ip);
    RebuildIcmp(a, ip, icmp);
  }

  datatype Outcome = EInval | Freed | PassedUp

  method EthRx(skb: array?<Byte>, ipHdr: Option<nat>, icmpHdr: Option<nat>) returns (o: Outcome)
    requires skb != null && ipHdr.Some? ==> ipHdr.value + 10 <= skb.Length
    requires skb != null && ipHdr.Some? && skb[ipHdr.value + 9] == 1 && icmpHdr.Some? ==>
               Fits(skb[..], ipHdr.value, icmpHdr.value)
    modifies if skb == null then {} else {skb}
    ensures o == EInval <==> skb == null
    ensures o == PassedUp <==> skb != null && ipHdr.Some? && old(skb[ipHdr.value + 9]) == 1 && icmpHdr.Some?
    ensures o == Freed ==> skb[..] == old(skb[..])
    ensures o == PassedUp ==> skb[..] == Reply(old(skb[..]), ipHdr.value, icmpHdr.value)
  {
    if skb == null { return EInval; }
    if ipHdr.None? || skb[ipHdr.value + 9] != IPPROTO_ICMP { return Freed; }
    if icmpHdr.None? { return Freed; }
    MakeReply(skb, ipHdr.value, icmpHdr.value);
    o := PassedUp;
  }
}
