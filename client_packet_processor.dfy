/** The client's PacketProcessor: the validity gate with its three counters. */
module ClientPacketProcessor {
  import opened Common
  import opened Bytes
  import opened IpPacket

  datatype Statistics = Statistics(packetsProcessed: nat, bytesProcessed: nat, invalidPackets: nat)

  class PacketProcessor {
    var packetsProcessed: nat
    var bytesProcessed: nat
    var invalidPackets: nat

    constructor ()
      ensures packetsProcessed == 0 && bytesProcessed == 0 && invalidPackets == 0
    {
      packetsProcessed := 0;
      bytesProcessed := 0;
      invalidPackets := 0;
    }

    /** validate_packet: each rejection counts one invalid packet; acceptance counts nothing. */
    method ValidatePacket(packet: seq<Byte>) returns (valid: bool)
      modifies this
      ensures valid <==> IsValidPacket(packet)
      ensures invalidPackets == old(invalidPackets) + (if valid then 0 else 1)
      ensures packetsProcessed == old(packetsProcessed) && bytesProcessed == old(bytesProcessed)
    {
      if |packet| < MIN_IP_HEADER_SIZE {
        invalidPackets := invalidPackets + 1;
        return false;
      }
      if |packet| > MAX_PACKET_SIZE {
        invalidPackets := invalidPackets + 1;
        return false;
      }
      var version := Version(packet[0]);
      if version != 4 && version != 6 {
        invalidPackets := invalidPackets + 1;
        return false;
      }
      return true;
    }

    /**
     * The body shared by process_outbound and process_inbound: a valid
     * packet passes unchanged and is counted with its length; an invalid
     * one yields None and counts only as invalid.
     */
    method Process(packet: seq<Byte>) returns (r: Option<seq<Byte>>)
      modifies this
      ensures r.Some? <==> IsValidPacket(packet)
      ensures r.Some? ==> r.value == packet
      ensures r.Some? ==>
        packetsProcessed == old(packetsProcessed) + 1 &&
        bytesProcessed == old(bytesProcessed) + |packet| &&
        invalidPackets == old(invalidPackets)
      ensures r.None? ==>
        packetsProcessed == old(packetsProcessed) &&
        bytesProcessed == old(bytesProcessed) &&
        invalidPackets == old(invalidPackets) + 1
    {
      var valid := ValidatePacket(packet);
      if !valid {
        return None;
      }
      packetsProcessed := packetsProcessed + 1;
      bytesProcessed := bytesProcessed + |packet|;
      r := Some(packet);
    }

    /** process_outbound (TAP to tunnel) */
    method ProcessOutbound(packet: seq<Byte>) returns (r: Option<seq<Byte>>)
      modifies this
      ensures r == (if IsValidPacket(packet) then Some(packet) else None)
      ensures r.Some? ==>
        packetsProcessed == old(packetsProcessed) + 1 &&
        bytesProcessed == old(bytesProcessed) + |packet| &&
        invalidPackets == old(invalidPackets)
      ensures r.None? ==>
        packetsProcessed == old(packetsProcessed) &&
        bytesProcessed == old(bytesProcessed) &&
        invalidPackets == old(invalidPackets) + 1
    {
      r := Process(packet);
    }

    /** process_inbound (tunnel to TAP) */
    method ProcessInbound(packet: seq<Byte>) returns (r: Option<seq<Byte>>)
      modifies this
      ensures r == (if IsValidPacket(packet) then Some(packet) else None)
      ensures r.Some? ==>
        packetsProcessed == old(packetsProcessed) + 1 &&
        bytesProcessed == old(bytesProcessed) + |packet| &&
        invalidPackets == old(invalidPackets)
      ensures r.None? ==>
        packetsProcessed == old(packetsProcessed) &&
        bytesProcessed == old(bytesProcessed) &&
        invalidPackets == old(invalidPackets) + 1
    {
      r := Process(packet);
    }

    /** get_statistics */
    method GetStatistics() returns (s: Statistics)
      ensures s == Statistics(packetsProcessed, bytesProcessed, invalidPackets)
    {
      s := Statistics(packetsProcessed, bytesProcessed, invalidPackets);
    }
  }
}
