/** UDP datagrams sent as IPv4 fragments no larger than the MTU, and their reassembly
    (sections 2.3 and 3.2 of RFC 791). */
module Fragmentation {

  const IPV4_HEADER_LEN: nat := 20
  const UDP_HEADER_LEN: nat := 8
  const MIN_IPV4_MTU: nat := 68
  const U16_MAX: nat := 65535

  type Byte = b: int | 0 <= b < 256
  type U16 = n: int | 0 <= n < 65536

  type Address = nat

  datatype Endpoint = Endpoint(addr: Address, port: U16)

  /** An emitted IPv4 packet. It names the two addresses; the ports are in the payload of the
      first fragment only. `fragOffset` is the 13-bit header field, in units of eight bytes. */
  datatype Packet = Packet(
    src: Address, dst: Address, ident: U16, moreFrags: bool, fragOffset: nat, totalLen: nat, payload: seq<Byte>)

  /** UDP header and data on their way between two addresses. */
  datatype Datagram = Datagram(src: Address, dst: Address, bytes: seq<Byte>)

  // The UDP header

  function BigEndian(n: U16): seq<Byte> {
    [n / 256, n % 256]
  }

  function UdpBytes(srcPort: U16, dstPort: U16, checksum: U16, data: seq<Byte>): (bytes: seq<Byte>)
    requires UDP_HEADER_LEN + |data| <= U16_MAX
    ensures |bytes| == UDP_HEADER_LEN + |data|
  {
    BigEndian(srcPort) + BigEndian(dstPort) + BigEndian(UDP_HEADER_LEN + |data|) + BigEndian(checksum) + data
  }

  /** The four fields of a UDP header, and the data after it. */
  datatype Udp = Udp(srcPort: int, dstPort: int, length: int, checksum: int, data: seq<Byte>)

  function FieldAt(bytes: seq<Byte>, i: nat): int
    requires i + 1 < |bytes|
  {
    bytes[i] as int * 256 + bytes[i + 1] as int
  }

  /** What the receiver reads back. */
  function DecodeUdp(bytes: seq<Byte>): (r: Udp)
    requires UDP_HEADER_LEN <= |bytes|
  {
    Udp(FieldAt(bytes, 0), FieldAt(bytes, 2), FieldAt(bytes, 4), FieldAt(bytes, 6), bytes[UDP_HEADER_LEN..])
  }

  lemma UdpRoundTrip(srcPort: U16, dstPort: U16, checksum: U16, data: seq<Byte>)
    requires UDP_HEADER_LEN + |data| <= U16_MAX
    ensures var bytes := UdpBytes(srcPort, dstPort, checksum, data);
      DecodeUdp(bytes) == Udp(srcPort, dstPort, |bytes|, checksum, data)
  {
  }

  function DatagramOf(src: Endpoint, dst: Endpoint, checksum: U16, data: seq<Byte>): Datagram
    requires UDP_HEADER_LEN + |data| <= U16_MAX
  {
    Datagram(src.addr, dst.addr, UdpBytes(src.port, dst.port, checksum, data))
  }

  // Sending

  function MaxChunk(mtu: nat): (c: nat)
    requires MIN_IPV4_MTU <= mtu
    ensures 0 < c <= mtu - IPV4_HEADER_LEN < c + 8 && c % 8 == 0
  {
    (mtu - IPV4_HEADER_LEN) / 8 * 8
  }

  function FragmentAt(d: Datagram, ident: U16, offset: nat, chunk: nat): Packet
    requires offset + chunk <= |d.bytes|
  {
    Packet(d.src, d.dst, ident, offset + chunk < |d.bytes|, offset / 8, IPV4_HEADER_LEN + chunk,
           d.bytes[offset..offset + chunk])
  }

  function Least(a: nat, b: nat): nat {
    if a < b then a else b
  }

  /** The fragments from `offset` on. */
  function Fragments(d: Datagram, ident: U16, maxChunk: nat, offset: nat): (fs: seq<Packet>)
    requires 0 < maxChunk && offset <= |d.bytes|
    decreases |d.bytes| - offset
  {
    if offset == |d.bytes| then []
    else
      var chunk := Least(|d.bytes| - offset, maxChunk);
      [FragmentAt(d, ident, offset, chunk)] + Fragments(d, ident, maxChunk, offset + chunk)
  }

  /** Every fragment emitted for a series of datagrams, the first under `ident`. */
  function Emitted(ds: seq<Datagram>, ident: U16, maxChunk: nat): (fs: seq<Packet>)
    requires 0 < maxChunk
  {
    if ds == [] then []
    else Fragments(ds[0], ident, maxChunk, 0) + Emitted(ds[1..], (ident + 1) % 65536, maxChunk)
  }

  lemma NextIdent(first: int, i: int)
    ensures ((first + 1) % 65536 + i) % 65536 == (first + (i + 1)) % 65536
  {
  }

  lemma {:induction false} EmittedAppend(ds: seq<Datagram>, d: Datagram, ident: U16, maxChunk: nat)
    requires 0 < maxChunk
    ensures Emitted(ds + [d], ident, maxChunk)
         == Emitted(ds, ident, maxChunk) + Fragments(d, (ident + |ds|) % 65536, maxChunk, 0)
  {
    hide Fragments;
    if ds == [] {
      assert ([d])[1..] == [];
      assert Emitted([d], ident, maxChunk) == Fragments(d, ident, maxChunk, 0) + [];
    } else {
      var next := (ident + 1) % 65536;
      EmittedAppend(ds[1..], d, next, maxChunk);
      assert (ds + [d])[1..] == ds[1..] + [d] && (ds + [d])[0] == ds[0];
      NextIdent(ident, |ds| - 1);
      var head, middle := Fragments(ds[0], ident, maxChunk, 0), Emitted(ds[1..], next, maxChunk);
      var last := Fragments(d, (next + |ds[1..]|) % 65536, maxChunk, 0);
      assert head + (middle + last) == (head + middle) + last;
    }
  }

  /** The sending side of the stack: the identification counter and the packets handed
      to the device. */
  class UdpSender {
    const mtu: nat
    var nextIdent: U16
    var output: seq<Packet>
    ghost var accepted: seq<Datagram>
    ghost const firstIdent: U16

    ghost predicate Valid()
      reads this
    {
      && MIN_IPV4_MTU <= mtu
      && nextIdent == (firstIdent + |accepted|) % 65536
      && output == Emitted(accepted, firstIdent, MaxChunk(mtu))
    }

    constructor (mtu: nat)
      requires MIN_IPV4_MTU <= mtu
      ensures Valid() && accepted == [] && this.mtu == mtu
    {
      this.mtu := mtu;
      nextIdent := 1;
      firstIdent := 1;
      output := [];
      accepted := [];
    }

    /** Emits one datagram; one above the IPv4 limit is dropped and uses no identifier. */
    method Send(src: Endpoint, dst: Endpoint, data: seq<Byte>, checksum: U16)
      requires Valid()
      modifies this
      ensures Valid()
      ensures accepted == if |data| <= 65507
                          then old(accepted) + [DatagramOf(src, dst, checksum, data)]
                          else old(accepted)
      ensures 65507 < |data| ==> output == old(output) && nextIdent == old(nextIdent)
    {
      hide Emitted, Fragments, MaxChunk;
      var udpLen := UDP_HEADER_LEN + |data|;
      if U16_MAX - IPV4_HEADER_LEN < udpLen {
        return;
      }
      var datagram := DatagramOf(src, dst, checksum, data);
      var ident := nextIdent;
      nextIdent := (nextIdent + 1) % 65536;
      EmitFragments(datagram, ident);
      EmittedAppend(accepted, datagram, firstIdent, MaxChunk(mtu));
      accepted := accepted + [datagram];
    }

    method EmitFragments(datagram: Datagram, ident: U16)
      requires MIN_IPV4_MTU <= mtu
      modifies this`output
      ensures output == old(output) + Fragments(datagram, ident, MaxChunk(mtu), 0)
    {
      var maxChunk := MaxChunk(mtu);
      var offset := 0;
      while offset < |datagram.bytes|
        invariant offset <= |datagram.bytes|
        invariant output + Fragments(datagram, ident, maxChunk, offset)
               == old(output) + Fragments(datagram, ident, maxChunk, 0)
      {
        var chunk := Least(|datagram.bytes| - offset, maxChunk);
        ghost var before := output;
        var fragment := FragmentAt(datagram, ident, offset, chunk);
        output := output + [fragment];
        offset := offset + chunk;
        assert output + Fragments(datagram, ident, maxChunk, offset)
            == before + ([fragment] + Fragments(datagram, ident, maxChunk, offset));
      }
    }
  }

  // Each fragment is a slice, and together they tile the datagram

  function Payloads(fs: seq<Packet>): (bytes: seq<Byte>) {
    if fs == [] then [] else fs[0].payload + Payloads(fs[1..])
  }

  /** `f` carries the bytes of `d` at its offset. */
  predicate IsSlice(f: Packet, d: Datagram, ident: U16) {
    var offset := 8 * f.fragOffset;
    && f.src == d.src && f.dst == d.dst && f.ident == ident
    && 0 < |f.payload|
    && offset + |f.payload| <= |d.bytes|
    && f.payload == d.bytes[offset..offset + |f.payload|]
    && (f.moreFrags <==> offset + |f.payload| < |d.bytes|)
  }

  lemma {:induction false} FirstFragment(d: Datagram, ident: U16, maxChunk: nat, offset: nat)
    requires 0 < maxChunk && maxChunk % 8 == 0 && offset < |d.bytes| && offset % 8 == 0
    ensures var chunk := Least(|d.bytes| - offset, maxChunk);
      var f := FragmentAt(d, ident, offset, chunk);
      && Fragments(d, ident, maxChunk, offset) == [f] + Fragments(d, ident, maxChunk, offset + chunk)
      && IsSlice(f, d, ident) && |f.payload| == chunk <= maxChunk && f.totalLen == IPV4_HEADER_LEN + chunk
      && (f.moreFrags <==> Fragments(d, ident, maxChunk, offset + chunk) != [])
      && (f.moreFrags ==> chunk % 8 == 0) && 8 * f.fragOffset == offset
      && ((offset + chunk) % 8 == 0 || offset + chunk == |d.bytes|)
  {
  }

  lemma {:induction false} FragmentsAreSlices(d: Datagram, ident: U16, maxChunk: nat, offset: nat, k: nat)
    requires 0 < maxChunk && maxChunk % 8 == 0 && offset <= |d.bytes|
    requires offset % 8 == 0 || offset == |d.bytes|
    requires k < |Fragments(d, ident, maxChunk, offset)|
    ensures var fs := Fragments(d, ident, maxChunk, offset);
      && IsSlice(fs[k], d, ident)
      && |fs[k].payload| <= maxChunk
      && fs[k].totalLen == IPV4_HEADER_LEN + |fs[k].payload|
      && (fs[k].moreFrags <==> k + 1 < |fs|)
      && (fs[k].moreFrags ==> |fs[k].payload| % 8 == 0)
      && 8 * fs[k].fragOffset == offset + |Payloads(fs[..k])|
    decreases k
  {
    hide IsSlice, FragmentAt;
    var fs := Fragments(d, ident, maxChunk, offset);
    FirstFragment(d, ident, maxChunk, offset);
    if k == 0 {
      assert fs[..0] == [];
    } else {
      var chunk := Least(|d.bytes| - offset, maxChunk);
      var rest := Fragments(d, ident, maxChunk, offset + chunk);
      FragmentsAreSlices(d, ident, maxChunk, offset + chunk, k - 1);
      assert fs[k] == rest[k - 1] && |fs| == 1 + |rest|;
      assert fs[..k][1..] == rest[..k - 1];
      assert fs[..k][0] == fs[0];
    }
  }

  lemma {:induction false} FragmentsTile(d: Datagram, ident: U16, maxChunk: nat, offset: nat)
    requires 0 < maxChunk && offset <= |d.bytes|
    ensures Payloads(Fragments(d, ident, maxChunk, offset)) == d.bytes[offset..]
    decreases |d.bytes| - offset
  {
    if offset < |d.bytes| {
      var chunk := Least(|d.bytes| - offset, maxChunk);
      FragmentsTile(d, ident, maxChunk, offset + chunk);
      var rest := Fragments(d, ident, maxChunk, offset + chunk);
      assert Fragments(d, ident, maxChunk, offset)[1..] == rest;
      assert d.bytes[offset..offset + chunk] + d.bytes[offset + chunk..] == d.bytes[offset..];
    }
  }

  /** For every MTU from 68 and every accepted datagram: the fragments fit the MTU, start
      where the previous one ends, carry a multiple of eight bytes except the last, which
      alone clears more-frags, and concatenate to the datagram. */
  lemma {:induction false} FragmentsAreWellFormed(d: Datagram, ident: U16, mtu: nat)
    requires MIN_IPV4_MTU <= mtu && |d.bytes| <= U16_MAX - IPV4_HEADER_LEN
    ensures var fs := Fragments(d, ident, MaxChunk(mtu), 0);
      && Payloads(fs) == d.bytes
      && forall k :: 0 <= k < |fs| ==>
           && fs[k].totalLen == IPV4_HEADER_LEN + |fs[k].payload| <= mtu
           && 8 * fs[k].fragOffset == |Payloads(fs[..k])|
           && fs[k].fragOffset < 8192 && fs[k].totalLen <= U16_MAX
           && (fs[k].moreFrags <==> k + 1 < |fs|)
           && (k + 1 < |fs| ==> |fs[k].payload| % 8 == 0)
  {
    var fs := Fragments(d, ident, MaxChunk(mtu), 0);
    FragmentsTile(d, ident, MaxChunk(mtu), 0);
    assert d.bytes[0..] == d.bytes;
    forall k | 0 <= k < |fs|
      ensures fs[k].totalLen == IPV4_HEADER_LEN + |fs[k].payload| <= mtu
      ensures 8 * fs[k].fragOffset == |Payloads(fs[..k])|
      ensures fs[k].fragOffset < 8192 && fs[k].totalLen <= U16_MAX
      ensures fs[k].moreFrags <==> k + 1 < |fs|
      ensures k + 1 < |fs| ==> |fs[k].payload| % 8 == 0
    {
      FragmentsAreSlices(d, ident, MaxChunk(mtu), 0, k);
    }
  }

  /** Every byte of the datagram is in some fragment, and so is the end. */
  lemma {:induction false} FragmentsCover(d: Datagram, ident: U16, maxChunk: nat, offset: nat, p: nat) returns (k: nat)
    requires 0 < maxChunk && maxChunk % 8 == 0 && offset % 8 == 0 && offset <= p < |d.bytes|
    ensures var fs := Fragments(d, ident, maxChunk, offset);
      k < |fs| && CarriesByte(fs[k], p)
    ensures p == |d.bytes| - 1 ==> !Fragments(d, ident, maxChunk, offset)[k].moreFrags
    decreases |d.bytes| - offset
  {
    var chunk := Least(|d.bytes| - offset, maxChunk);
    if p < offset + chunk {
      k := 0;
    } else {
      k := FragmentsCover(d, ident, maxChunk, offset + chunk, p);
      k := k + 1;
    }
  }

  // Reassembly

  /** A reassembly buffer: the bytes seen so far and, once the last fragment was seen,
      the length of the datagram. */
  datatype Buffer = Buffer(bytes: map<int, Byte>, total: int)

  /** Position `p` of the datagram is carried by `f`. */
  predicate CarriesByte(f: Packet, p: int) {
    8 * f.fragOffset <= p < 8 * f.fragOffset + |f.payload|
  }

  function AddFragment(b: Buffer, f: Packet): Buffer {
    var offset := 8 * f.fragOffset;
    Buffer(b.bytes + (map p | offset <= p < offset + |f.payload| && CarriesByte(f, p) :: f.payload[p - offset]),
           if f.moreFrags then b.total else offset + |f.payload|)
  }

  /** The receiver's buffer for `ident` between two addresses after `fs` arrived in this order. */
  function Collected(fs: seq<Packet>, src: Address, dst: Address, ident: U16): (b: Buffer) {
    if fs == [] then Buffer(map[], -1)
    else
      var f := fs[|fs| - 1];
      var b := Collected(fs[..|fs| - 1], src, dst, ident);
      if f.src == src && f.dst == dst && f.ident == ident then AddFragment(b, f) else b
  }

  predicate Complete(b: Buffer) {
    0 <= b.total && forall p :: 0 <= p < b.total ==> p in b.bytes
  }

  function Reassembled(b: Buffer): (bytes: seq<Byte>)
    requires Complete(b)
  {
    seq(b.total, p requires 0 <= p < b.total => b.bytes[p])
  }

  /** Whatever arrived of `d`, and only that, is in the buffer. */
  lemma {:induction false} CollectedIsPartOf(fs: seq<Packet>, d: Datagram, ident: U16)
    requires forall k :: 0 <= k < |fs| && fs[k].src == d.src && fs[k].dst == d.dst && fs[k].ident == ident
               ==> IsSlice(fs[k], d, ident)
    ensures var b := Collected(fs, d.src, d.dst, ident);
      && (forall p :: p in b.bytes ==> 0 <= p < |d.bytes| && b.bytes[p] == d.bytes[p])
      && (b.total == -1 || b.total == |d.bytes|)
  {
    if fs != [] {
      var n := |fs| - 1;
      CollectedIsPartOf(fs[..n], d, ident);
      var f, b := fs[n], Collected(fs[..n], d.src, d.dst, ident);
      if f.src == d.src && f.dst == d.dst && f.ident == ident {
        var offset := 8 * f.fragOffset;
        var b' := AddFragment(b, f);
        forall p | p in b'.bytes
          ensures 0 <= p < |d.bytes| && b'.bytes[p] == d.bytes[p]
        {
          if CarriesByte(f, p) {
            assert f.payload[p - offset] == d.bytes[offset..offset + |f.payload|][p - offset];
          } else {
            assert p in b.bytes && b'.bytes[p] == b.bytes[p];
          }
        }
      }
    }
  }

  lemma {:induction false} CollectedHolds(fs: seq<Packet>, d: Datagram, ident: U16, k: nat)
    requires k < |fs| && IsSlice(fs[k], d, ident)
    requires forall k :: 0 <= k < |fs| && fs[k].src == d.src && fs[k].dst == d.dst && fs[k].ident == ident
               ==> IsSlice(fs[k], d, ident)
    ensures var b := Collected(fs, d.src, d.dst, ident);
      && (forall p :: CarriesByte(fs[k], p) ==> p in b.bytes)
      && (!fs[k].moreFrags ==> b.total == |d.bytes|)
  {
    var n := |fs| - 1;
    if k < n {
      CollectedHolds(fs[..n], d, ident, k);
    }
  }

  /** The fragments of `d` in any order, repeated or mixed with packets of other
      datagrams, reassemble to exactly `d`. */
  lemma {:induction false} ReassemblesTo(arrived: seq<Packet>, d: Datagram, ident: U16, mtu: nat)
    requires MIN_IPV4_MTU <= mtu && 0 < |d.bytes|
    requires forall k :: 0 <= k < |arrived| && arrived[k].src == d.src && arrived[k].dst == d.dst && arrived[k].ident == ident
               ==> arrived[k] in Fragments(d, ident, MaxChunk(mtu), 0)
    requires forall f :: f in Fragments(d, ident, MaxChunk(mtu), 0) ==> f in arrived
    ensures var b := Collected(arrived, d.src, d.dst, ident); Complete(b) && Reassembled(b) == d.bytes
  {
    var fs, b := Fragments(d, ident, MaxChunk(mtu), 0), Collected(arrived, d.src, d.dst, ident);
    forall k | 0 <= k < |arrived| && arrived[k].src == d.src && arrived[k].dst == d.dst && arrived[k].ident == ident
      ensures IsSlice(arrived[k], d, ident)
    {
      var j :| 0 <= j < |fs| && fs[j] == arrived[k];
      FragmentsAreSlices(d, ident, MaxChunk(mtu), 0, j);
    }
    CollectedIsPartOf(arrived, d, ident);
    forall p | 0 <= p < |d.bytes|
      ensures p in b.bytes && b.total == |d.bytes|
    {
      Covered(arrived, d, ident, mtu, p);
      Covered(arrived, d, ident, mtu, |d.bytes| - 1);
    }
    assert 0 in b.bytes;
  }

  /** Some of the fragments of `d`, in any order, give exactly `d` or are seen not to be all. */
  lemma {:induction false} PartReassemblesTo(arrived: seq<Packet>, d: Datagram, ident: U16, mtu: nat)
    requires MIN_IPV4_MTU <= mtu
    requires forall k :: 0 <= k < |arrived| && arrived[k].src == d.src && arrived[k].dst == d.dst && arrived[k].ident == ident
               ==> arrived[k] in Fragments(d, ident, MaxChunk(mtu), 0)
    ensures var b := Collected(arrived, d.src, d.dst, ident); Complete(b) ==> Reassembled(b) == d.bytes
  {
    var fs := Fragments(d, ident, MaxChunk(mtu), 0);
    forall k | 0 <= k < |arrived| && arrived[k].src == d.src && arrived[k].dst == d.dst && arrived[k].ident == ident
      ensures IsSlice(arrived[k], d, ident)
    {
      var j :| 0 <= j < |fs| && fs[j] == arrived[k];
      FragmentsAreSlices(d, ident, MaxChunk(mtu), 0, j);
    }
    CollectedIsPartOf(arrived, d, ident);
  }

  lemma {:induction false} Covered(arrived: seq<Packet>, d: Datagram, ident: U16, mtu: nat, p: nat)
    requires MIN_IPV4_MTU <= mtu && p < |d.bytes|
    requires forall k :: 0 <= k < |arrived| && arrived[k].src == d.src && arrived[k].dst == d.dst && arrived[k].ident == ident
               ==> IsSlice(arrived[k], d, ident)
    requires forall f :: f in Fragments(d, ident, MaxChunk(mtu), 0) ==> f in arrived
    ensures var b := Collected(arrived, d.src, d.dst, ident);
      p in b.bytes && (p == |d.bytes| - 1 ==> b.total == |d.bytes|)
  {
    var fs := Fragments(d, ident, MaxChunk(mtu), 0);
    var j := FragmentsCover(d, ident, MaxChunk(mtu), 0, p);
    assert fs[j] in fs;
    var k :| 0 <= k < |arrived| && arrived[k] == fs[j];
    FragmentsAreSlices(d, ident, MaxChunk(mtu), 0, j);
    CollectedHolds(arrived, d, ident, k);
  }

  // A whole series of datagrams

  lemma {:induction false} EmittedContains(ds: seq<Datagram>, first: U16, maxChunk: nat, i: nat, f: Packet)
    requires 0 < maxChunk && i < |ds| && f in Fragments(ds[i], (first + i) % 65536, maxChunk, 0)
    ensures f in Emitted(ds, first, maxChunk)
  {
    if 0 < i {
      NextIdent(first, i - 1);
      EmittedContains(ds[1..], (first + 1) % 65536, maxChunk, i - 1, f);
    }
  }

  lemma {:induction false} EmittedOnly(ds: seq<Datagram>, first: U16, maxChunk: nat, f: Packet) returns (i: nat)
    requires 0 < maxChunk && f in Emitted(ds, first, maxChunk)
    ensures i < |ds| && f in Fragments(ds[i], (first + i) % 65536, maxChunk, 0)
  {
    if f in Fragments(ds[0], first, maxChunk, 0) {
      i := 0;
    } else {
      i := EmittedOnly(ds[1..], (first + 1) % 65536, maxChunk, f);
      NextIdent(first, i);
      i := i + 1;
    }
  }

  lemma {:induction false} FragmentIdent(d: Datagram, ident: U16, maxChunk: nat, f: Packet)
    requires 0 < maxChunk && maxChunk % 8 == 0 && f in Fragments(d, ident, maxChunk, 0)
    ensures f.ident == ident
  {
    var fs := Fragments(d, ident, maxChunk, 0);
    var k :| 0 <= k < |fs| && fs[k] == f;
    FragmentsAreSlices(d, ident, maxChunk, 0, k);
  }

  lemma IdentsAreDistinct(first: U16, i: nat, j: nat)
    requires i < 65536 && j < 65536 && (first + i) % 65536 == (first + j) % 65536
    ensures i == j
  {
  }

  /** Of what was emitted for a series of at most 65536 datagrams, only the fragments of the
      datagram itself share its addresses and identifier. */
  lemma {:induction false} OwnFragments(ds: seq<Datagram>, first: U16, mtu: nat, f: Packet, i: nat)
    requires MIN_IPV4_MTU <= mtu && |ds| <= 65536 && i < |ds|
    requires f in Emitted(ds, first, MaxChunk(mtu)) && f.ident == (first + i) % 65536
    ensures f in Fragments(ds[i], (first + i) % 65536, MaxChunk(mtu), 0)
  {
    var j := EmittedOnly(ds, first, MaxChunk(mtu), f);
    FragmentIdent(ds[j], (first + j) % 65536, MaxChunk(mtu), f);
    IdentsAreDistinct(first, i, j);
  }

  /** Up to 65536 successive datagrams: however their fragments are interleaved, reordered,
      repeated or lost, what completes a buffer is exactly the datagram that was sent, and when
      none is lost every buffer completes. */
  lemma {:induction false} SeriesReassembles(ds: seq<Datagram>, first: U16, mtu: nat, arrived: seq<Packet>, i: nat)
    requires MIN_IPV4_MTU <= mtu && |ds| <= 65536 && i < |ds|
    requires forall f :: f in arrived ==> f in Emitted(ds, first, MaxChunk(mtu))
    ensures var b := Collected(arrived, ds[i].src, ds[i].dst, (first + i) % 65536);
      && (Complete(b) ==> Reassembled(b) == ds[i].bytes)
      && (0 < |ds[i].bytes| && (forall f :: f in Emitted(ds, first, MaxChunk(mtu)) ==> f in arrived) ==> Complete(b))
  {
    var ident, maxChunk := (first + i) % 65536, MaxChunk(mtu);
    forall k | 0 <= k < |arrived| && arrived[k].src == ds[i].src && arrived[k].dst == ds[i].dst && arrived[k].ident == ident
      ensures arrived[k] in Fragments(ds[i], ident, maxChunk, 0)
    {
      assert arrived[k] in arrived;
      OwnFragments(ds, first, mtu, arrived[k], i);
    }
    PartReassemblesTo(arrived, ds[i], ident, mtu);
    if 0 < |ds[i].bytes| && (forall f :: f in Emitted(ds, first, MaxChunk(mtu)) ==> f in arrived) {
      forall f | f in Fragments(ds[i], ident, maxChunk, 0)
        ensures f in arrived
      {
        EmittedContains(ds, first, maxChunk, i, f);
      }
      ReassemblesTo(arrived, ds[i], ident, mtu);
    }
  }

  /** And so the receiver reads the ports, the data and the checksum that were handed to the
      sender out of the reassembled bytes, and a length that is theirs. */
  lemma {:induction false} SeriesDelivers(
    ds: seq<Datagram>, first: U16, mtu: nat, arrived: seq<Packet>, i: nat, src: Endpoint, dst: Endpoint, checksum: U16, data: seq<Byte>)
    requires MIN_IPV4_MTU <= mtu && |ds| <= 65536 && i < |ds|
    requires |data| <= 65507 && ds[i] == DatagramOf(src, dst, checksum, data)
    requires forall f :: f in arrived <==> f in Emitted(ds, first, MaxChunk(mtu))
    ensures var b := Collected(arrived, src.addr, dst.addr, (first + i) % 65536);
      Complete(b) && UDP_HEADER_LEN <= |Reassembled(b)| && DecodeUdp(Reassembled(b)) == Udp(src.port, dst.port, |Reassembled(b)|, checksum, data)
  {
    hide Complete, Reassembled, Collected, Emitted;
    SeriesReassembles(ds, first, mtu, arrived, i);
    UdpRoundTrip(src.port, dst.port, checksum, data);
  }
}
