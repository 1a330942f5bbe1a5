/** IPv4 packets: the header of section 3.1 of RFC 791 built field by field, and
    what the allow-list check reads of it. */
module Packets {
  import opened Bytes
  import opened Dotted

  datatype Proto = Tcp | Udp

  function Number(p: Proto): Byte {
    if p.Tcp? then 6 else 17
  }

  function Name(p: Proto): string {
    if p.Tcp? then "tcp" else "udp"
  }

  // What a packet is headed for.
  datatype Target = Target(dst: Ip4, proto: Proto, port: Uint16)

  // ---------------------------------------------------------------- reading

  function Version(pkt: Bytes): nat
    requires pkt != []
  {
    pkt[0] / 16
  }

  // Header length in bytes.
  function HeaderLen(pkt: Bytes): nat
    requires pkt != []
  {
    pkt[0] % 16 * 4
  }

  function FragmentOffset(pkt: Bytes): nat
    requires |pkt| >= 8
  {
    GetUint16(pkt[6..8]) % 0x2000
  }

  function Destination(pkt: Bytes): Ip4
    requires |pkt| >= 20
  {
    Ip4(pkt[16], pkt[17], pkt[18], pkt[19])
  }

  // The reads of allowPacket, up to the question whether the target is allowed.
  function TargetOf(pkt: Bytes): Option<Target> {
    if |pkt| < 20 || Version(pkt) != 4 then None
    else
      var ihl := HeaderLen(pkt);
      if ihl < 20 || |pkt| < ihl + 4 then None
      else if FragmentOffset(pkt) != 0 then None
      else if pkt[9] != 6 && pkt[9] != 17 then None
      else Some(Target(Destination(pkt), if pkt[9] == 6 then Tcp else Udp, GetUint16(pkt[ihl + 2..ihl + 4])))
  }

  // ---------------------------------------------------------------- building

  // The fields of a header; the header length follows from the options.
  datatype Header = Header(
    tos: Byte, totalLength: Bytes, id: Bytes, flags: nat, fragment: nat, ttl: Byte, proto: Byte,
    checksum: Bytes, src: Bytes, dst: Ip4, options: Bytes)
  {
    ghost predicate Legal() {
      && |totalLength| == 2 && |id| == 2 && |checksum| == 2 && |src| == 4
      && flags < 8 && fragment < 0x2000
      && |options| % 4 == 0 && |options| <= 40
    }
  }

  function Build(h: Header): (b: Bytes)
    requires h.Legal()
    ensures |b| == 20 + |h.options|
  {
    [0x40 + 5 + |h.options| / 4, h.tos] + h.totalLength + h.id + PutUint16(h.flags * 0x2000 + h.fragment) +
    [h.ttl, h.proto] + h.checksum + h.src + [h.dst.a, h.dst.b, h.dst.c, h.dst.d] + h.options
  }

  // A header followed by the ports its transport header starts with.
  function Packet(h: Header, source: Bytes, port: Uint16, rest: Bytes): Bytes
    requires h.Legal() && |source| == 2
  {
    Build(h) + source + PutUint16(port) + rest
  }

  lemma PacketReads(h: Header, source: Bytes, port: Uint16, rest: Bytes)
    requires h.Legal() && |source| == 2
    ensures
      var pkt, ihl := Packet(h, source, port, rest), 20 + |h.options|;
      && |pkt| >= ihl + 4
      && Version(pkt) == 4 && HeaderLen(pkt) == ihl
      && pkt[6..8] == PutUint16(h.flags * 0x2000 + h.fragment)
      && pkt[9] == h.proto && Destination(pkt) == h.dst
      && pkt[ihl + 2..ihl + 4] == PutUint16(port)
  {
    var pkt, ihl := Packet(h, source, port, rest), 20 + |h.options|;
    assert pkt[..ihl] == Build(h);
    assert pkt[ihl + 2..ihl + 4] == PutUint16(port);
    var first: int := 0x40 + 5 + |h.options| / 4;
    assert pkt[0] == first && first / 16 == 4 && first % 16 * 4 == ihl;
    assert pkt[6..8] == Build(h)[6..8] == PutUint16(h.flags * 0x2000 + h.fragment);
  }

  // Every header built for a target is read back as headed there, whatever its
  // options; a later fragment or another protocol is not read at all.
  lemma BuiltPacketIsRead(h: Header, source: Bytes, port: Uint16, rest: Bytes)
    requires h.Legal() && |source| == 2
    ensures
      TargetOf(Packet(h, source, port, rest)) ==
        if h.fragment != 0 || (h.proto != 6 && h.proto != 17) then None
        else Some(Target(h.dst, if h.proto == 6 then Tcp else Udp, port))
  {
    PacketReads(h, source, port, rest);
    var w := h.flags * 0x2000 + h.fragment;
    Uint16RoundTrip(w, PutUint16(w));
    Uint16RoundTrip(port, PutUint16(port));
    assert w % 0x2000 == h.fragment;
  }

  // The header a packet starts with.
  function HeaderOf(pkt: Bytes): Header
    requires |pkt| >= 20 && 20 <= HeaderLen(pkt) <= |pkt|
  {
    var w: int := GetUint16(pkt[6..8]);
    Header(pkt[1], pkt[2..4], pkt[4..6], w / 0x2000, w % 0x2000, pkt[8], pkt[9],
           pkt[10..12], pkt[12..16], Destination(pkt), pkt[20..HeaderLen(pkt)])
  }

  // Conversely, every packet that is read is a built one.
  lemma ReadPacketIsBuilt(pkt: Bytes)
    requires TargetOf(pkt).Some?
    ensures
      var ihl := HeaderLen(pkt);
      && |pkt| >= 24 && 20 <= ihl && ihl + 4 <= |pkt|
      && var h := HeaderOf(pkt);
         h.Legal() && h.fragment == 0 && h.proto == Number(TargetOf(pkt).value.proto) &&
         h.dst == TargetOf(pkt).value.dst &&
         pkt == Packet(h, pkt[ihl..ihl + 2], TargetOf(pkt).value.port, pkt[ihl + 4..])
  {
    var ihl, h := HeaderLen(pkt), HeaderOf(pkt);
    var w: int := GetUint16(pkt[6..8]);
    assert h.flags * 0x2000 + h.fragment == w;
    Uint16RoundTrip(0, pkt[6..8]);
    Uint16RoundTrip(0, pkt[ihl + 2..ihl + 4]);
    var first: int := pkt[0];
    assert first == 0x40 + 5 + |h.options| / 4;
    assert pkt[..ihl] == Build(h);
    assert pkt == pkt[..ihl] + pkt[ihl..ihl + 2] + pkt[ihl + 2..ihl + 4] + pkt[ihl + 4..];
  }

  // The specification: an unfragmented IPv4 header of any legal length, TCP or
  // UDP, for this address, with the port where the transport header has it.
  ghost predicate HeadedFor(pkt: Bytes, t: Target) {
    exists h: Header, source: Bytes, rest: Bytes ::
      && h.Legal() && |source| == 2 && pkt == Packet(h, source, t.port, rest)
      && h.fragment == 0 && h.proto == Number(t.proto) && h.dst == t.dst
  }

  // Reading the bytes one by one decides the specification, for every packet.
  lemma ReadingIsExact(pkt: Bytes, t: Target)
    ensures TargetOf(pkt) == Some(t) <==> HeadedFor(pkt, t)
  {
    hide TargetOf, HeadedFor;
    if TargetOf(pkt) == Some(t) { ReadIsHeaded(pkt, t); }
    if HeadedFor(pkt, t) { HeadedIsRead(pkt, t); }
  }

  lemma ReadIsHeaded(pkt: Bytes, t: Target)
    requires TargetOf(pkt) == Some(t)
    ensures HeadedFor(pkt, t)
  {
    ReadPacketIsBuilt(pkt);
    hide TargetOf, Packet, HeaderOf;
    var ihl := HeaderLen(pkt);
    assert pkt == Packet(HeaderOf(pkt), pkt[ihl..ihl + 2], t.port, pkt[ihl + 4..]);
  }

  lemma HeadedIsRead(pkt: Bytes, t: Target)
    requires HeadedFor(pkt, t)
    ensures TargetOf(pkt) == Some(t)
  {
    hide TargetOf, Packet;
    var h: Header, source: Bytes, rest: Bytes :|
      && h.Legal() && |source| == 2 && pkt == Packet(h, source, t.port, rest)
      && h.fragment == 0 && h.proto == Number(t.proto) && h.dst == t.dst;
    BuiltPacketIsRead(h, source, t.port, rest);
  }

  // Wherever it stops being read, a packet built for an address names it in bytes
  // 16 to 19, and its port is big-endian behind the header.
  lemma AddressBytes(h: Header, source: Bytes, port: Uint16, rest: Bytes)
    requires h.Legal() && |source| == 2
    ensures
      var pkt, ihl := Packet(h, source, port, rest), 20 + |h.options|;
      && |pkt| >= ihl + 4
      && Destination(pkt) == Ip4(pkt[16], pkt[17], pkt[18], pkt[19]) == h.dst
      && pkt[ihl + 2] as int * 256 + pkt[ihl + 3] == port
  {
    PacketReads(h, source, port, rest);
    var pkt, ihl := Packet(h, source, port, rest), 20 + |h.options|;
    BigEndian(port, 0, 0, 0, 0, 0);
    assert pkt[ihl + 2] == pkt[ihl + 2..ihl + 4][0] && pkt[ihl + 3] == pkt[ihl + 2..ihl + 4][1];
  }
}
