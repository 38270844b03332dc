/**
 * What the packet processors read from a raw IP packet: the validity gate
 * (length and version nibble) and the header fields of section 3.1 of
 * RFC 791 (IPv4) and section 3 of RFC 8200 (IPv6) that extract_ip_info
 * reports.
 */
module IpPacket {
  import opened Common
  import opened Bytes
  import opened Text

  const MIN_IP_HEADER_SIZE: nat := 20
  const MAX_PACKET_SIZE: nat := 1500
  const IPV6_HEADER_SIZE: nat := 40

  /** `(packet[0] >> 4) & 0x0F` */
  function Version(b: Byte): (v: nat)
    ensures v < 16 && b == v * 16 + b % 16
  {
    b / 16
  }

  /** validate_packet's three checks, without its counting. */
  predicate IsValidPacket(packet: seq<Byte>) {
    MIN_IP_HEADER_SIZE <= |packet| <= MAX_PACKET_SIZE &&
    (Version(packet[0]) == 4 || Version(packet[0]) == 6)
  }

  /** The header fields extract_ip_info returns; NoFields is the empty dict. */
  datatype IpInfo =
    | Ipv4Header(headerLength: nat, totalLength: nat, protocol: Byte, srcIp: string, dstIp: string)
    | Ipv6Header(payloadLength: nat, nextHeader: Byte, srcIp: string, dstIp: string)
    | NoFields

  /** `'.'.join(str(b) for b in bs)` */
  function Dotted(bs: seq<Byte>): (s: string)
    requires |bs| >= 1
  {
    Join(seq(|bs|, i requires 0 <= i < |bs| => NatToString(bs[i])), '.')
  }

  /** A dotted-decimal address splits back into its bytes, one decimal part each. */
  lemma DottedParses(bs: seq<Byte>)
    requires |bs| >= 1
    ensures |Split(Dotted(bs), '.')| == |bs|
    ensures forall i :: 0 <= i < |bs| ==> ParseInt(Split(Dotted(bs), '.')[i]) == Some(bs[i] as int)
  {
    var parts := seq(|bs|, i requires 0 <= i < |bs| => NatToString(bs[i]));
    forall i | 0 <= i < |parts|
      ensures '.' !in parts[i]
    {
      DigitsHaveNoDot(parts[i]);
    }
    SplitJoin(parts, '.');
    forall i | 0 <= i < |bs|
      ensures ParseInt(parts[i]) == Some(bs[i] as int)
    {
      ParseIntToString(bs[i]);
      assert IntToString(bs[i]) == NatToString(bs[i]);
    }
  }

  /** The eight 4-hex-digit groups of a 16-byte IPv6 address. */
  function HexGroups(bs: seq<Byte>): (groups: seq<string>)
    requires |bs| == 16
    ensures |groups| == 8
  {
    seq(8, k requires 0 <= k < 8 => Hex(bs[2 * k..2 * k + 2]))
  }

  /** `':'.join(bs.hex()[i:i+4] for i in range(0, 32, 4))` */
  function Ipv6Address(bs: seq<Byte>): string
    requires |bs| == 16
  {
    Join(HexGroups(bs), ':')
  }

  lemma {:induction false} HexHasNoColon(s: seq<Byte>)
    ensures ':' !in Hex(s)
  {
    if s != [] {
      HexHasNoColon(s[1..]);
      assert Hex(s) == HexByte(s[0]) + Hex(s[1..]);
    }
  }

  /** An IPv6 address splits back into eight groups, each the hex of two consecutive bytes. */
  lemma Ipv6AddressGroups(bs: seq<Byte>)
    requires |bs| == 16
    ensures |Split(Ipv6Address(bs), ':')| == 8
    ensures forall k :: 0 <= k < 8 ==>
      var group := Split(Ipv6Address(bs), ':')[k];
      |group| == 4 && group == Hex(bs[2 * k..2 * k + 2])
  {
    var groups := HexGroups(bs);
    forall k | 0 <= k < 8
      ensures ':' !in groups[k]
    {
      HexHasNoColon(bs[2 * k..2 * k + 2]);
    }
    SplitJoin(groups, ':');
  }

  /** _parse_ipv4 */
  function ParseIpv4(packet: seq<Byte>): (r: IpInfo)
    ensures r.NoFields? <==> |packet| < 20
    ensures r.Ipv4Header? || r.NoFields?
    ensures r.Ipv4Header? ==>
      r.headerLength % 4 == 0 && r.headerLength <= 60 && r.headerLength / 4 == packet[0] % 16 &&
      r.totalLength < 0x1_0000 && ToBigEndian(r.totalLength, 2) == packet[2..4] &&
      r.protocol == packet[9] &&
      r.srcIp == Dotted(packet[12..16]) && r.dstIp == Dotted(packet[16..20])
  {
    if |packet| < 20 then NoFields
    else
      var totalLength := FromBigEndian(packet[2..4]);
      Pow256Values();
      ToFromBigEndian(packet[2..4]);
      Ipv4Header((packet[0] % 16) * 4, totalLength, packet[9], Dotted(packet[12..16]), Dotted(packet[16..20]))
  }

  /** _parse_ipv6 */
  function ParseIpv6(packet: seq<Byte>): (r: IpInfo)
    ensures r.NoFields? <==> |packet| < IPV6_HEADER_SIZE
    ensures r.Ipv6Header? || r.NoFields?
    ensures r.Ipv6Header? ==>
      r.payloadLength < 0x1_0000 && ToBigEndian(r.payloadLength, 2) == packet[4..6] &&
      r.nextHeader == packet[6] &&
      r.srcIp == Ipv6Address(packet[8..24]) && r.dstIp == Ipv6Address(packet[24..40])
  {
    if |packet| < IPV6_HEADER_SIZE then NoFields
    else
      var payloadLength := FromBigEndian(packet[4..6]);
      Pow256Values();
      ToFromBigEndian(packet[4..6]);
      Ipv6Header(payloadLength, packet[6], Ipv6Address(packet[8..24]), Ipv6Address(packet[24..40]))
  }

  /**
   * extract_ip_info without its counting: nothing for an invalid packet,
   * otherwise the parser of its version. An IPv6 packet of 20 to 39 bytes
   * passes validation but yields the empty dict.
   */
  function IpInfoOf(packet: seq<Byte>): (r: Option<IpInfo>)
    ensures r.Some? <==> IsValidPacket(packet)
    ensures r.Some? && Version(packet[0]) == 4 ==> r.value.Ipv4Header?
    ensures r.Some? && Version(packet[0]) == 6 ==>
      (r.value.NoFields? <==> |packet| < IPV6_HEADER_SIZE) && !r.value.Ipv4Header?
  {
    if !IsValidPacket(packet) then None
    else if Version(packet[0]) == 4 then Some(ParseIpv4(packet))
    else Some(ParseIpv6(packet))
  }
}
