/**
 The shared packet buffer and everything that is built or checked in it in place:
 `eth_generate_header`, `ip_generate_header`, `TcpSendPacket`, `TcpVerifyChecksum`,
 `IcmpGeneratePacket`, `icmp_send_reply` and `IcmpSendUnreachable`.

 The Ethernet controller is replaced by an arbitrary supply of frames, one per poll (the empty frame
 when nothing has arrived), and by a log of the frames handed to it.
 */
module LinkLayer {
  import opened Util
  import opened Addresses
  import opened Checksum
  import opened Frame
  import opened TcpTypes

  /** The station: its addresses and NET_BUFFER_SIZE. */
  datatype Station = Station(mac: Mac, ip: Ip, bufferSize: nat)
  {
    /** Room for a SYN with its option and for an ICMP error; lengths stay positive as 16-bit `int`. */
    predicate Valid() { 70 <= bufferSize < 0x8000 }

    /** `TCP_MAX_SEGMENT_SIZE`. */
    function MaxSegmentSize(): u16 requires Valid() { bufferSize - ETH_HEADER_LEN - IP_HEADER_LEN - TCP_HEADER_LEN }

    /** The window announced in every segment. */
    function Window(): u16 requires Valid() { bufferSize - ETH_HEADER_LEN - IP_HEADER_LEN }

    /** `ip_packet_is_ip`. */
    predicate IsIp(p: seq<byte>) requires HasHeaders(p) { EthType(p) == ETH_TYPE_IP && p[30..34] == ip }

    predicate IsTcp(p: seq<byte>) requires HasHeaders(p) { IsIp(p) && Protocol(p) == PROTO_TCP }

    /** What the model assumes of a frame from the wire: the minimum Ethernet length, and for TCP lengths
        inside the frame and a well-formed option list. */
    predicate WellFormed(f: seq<byte>)
    {
      f == [] || (60 <= |f| < bufferSize && (IsTcp(f) ==> WellFormedTcp(f)))
    }
  }

  predicate WellFormedTcp(f: seq<byte>) { TcpSized(f) && HeaderOptionsOk(f) }

  function OptionBytes(s: Station, flags: byte): (r: seq<byte>)
    requires s.Valid()
    ensures |r| == if HasFlag(flags, SYN) then 4 else 0
  {
    if HasFlag(flags, SYN) then MssOption(s.MaxSegmentSize()) else []
  }

  /** `f` is, byte for byte, the segment `TcpSendPacket` means to send for connection `c`, and both its
      checksums come out right at the receiver. */
  ghost predicate IsSegment(f: seq<byte>, s: Station, c: TcpConnection, ident: u16, sequence: u32, flags: byte,
                            payload: seq<byte>)
  {
    s.Valid() && |f| == 54 + |OptionBytes(s, flags)| + |payload| < 0x8000
    && HasEthHeader(f, c.mac, s.mac, ETH_TYPE_IP)
    && HasIpHeader(f, |f| - 14, ident, PROTO_TCP, s.ip, c.ip)
    && HasTcpHeader(f, c.port, c.remotePort, sequence, c.expectedSequence,
                    if HasFlag(flags, SYN) then 0x60 else 0x50, flags, s.Window())
    && f[54..] == OptionBytes(s, flags) + payload
    && TcpAccepts(f)
  }

  /** The receiver takes the payload out of the segment as it went in. */
  lemma SegmentPayload(f: seq<byte>, s: Station, c: TcpConnection, ident: u16, sequence: u32, flags: byte,
                       payload: seq<byte>)
    requires IsSegment(f, s, c, ident, sequence, flags, payload)
    ensures TcpSized(f) && Payload(f) == payload && DataLength(f) == |payload|
    ensures Verifies(PseudoHeader(f) + Segment(f), 0)
  {
    PayloadLength(f);
    assert f[54..][|OptionBytes(s, flags)|..] == payload;
    TcpAcceptsIsStandard(f);
  }

  /** An ICMP destination-unreachable message to `c` that quotes the packet it answers. */
  ghost predicate IsUnreachable(f: seq<byte>, s: Station, c: TcpConnection, ident: u16, quote: seq<byte>)
  {
    |f| == 42 + |quote| && |f| >= 54 && |f| < 0x1_0000
    && HasEthHeader(f, c.mac, s.mac, ETH_TYPE_IP) && HasIpHeader(f, |f| - 14, ident, PROTO_ICMP, s.ip, c.ip)
    && f[34] == 3 && f[35] == 12 && Verifies(f[34..], 0) && f[42..] == quote
  }

  predicate IsArp(p: seq<byte>, ip: Ip, opcode: u16)
  {
    HasHeaders(p) && EthType(p) == ETH_TYPE_ARP && ShortAt(p, 20) == opcode && p[38..42] == ip
  }

  /** RFC 826: Ethernet/IPv4 addresses, sender first; all but the opcode. */
  predicate HasArpBody(p: seq<byte>, source: Mac, sourceIp: Ip, target: Mac, targetIp: Ip)
  {
    HasHeaders(p) && ShortAt(p, 14) == 1 && ShortAt(p, 16) == ETH_TYPE_IP && p[18] == 6 && p[19] == 4
    && p[22..28] == source && p[28..32] == sourceIp && p[32..38] == target && p[38..42] == targetIp
  }

  predicate IsArpPacket(p: seq<byte>, opcode: u16, linkTarget: Mac, source: Mac, sourceIp: Ip, target: Mac,
                        targetIp: Ip)
  {
    HasEthHeader(p, linkTarget, source, ETH_TYPE_ARP) && HasArpBody(p, source, sourceIp, target, targetIp)
    && ShortAt(p, 20) == opcode
  }

  /** Nothing outside `[from, to)` differs. */
  ghost predicate SameOutside(p: seq<byte>, q: seq<byte>, from: nat, to: nat)
    requires |p| == |q|
  {
    forall k | 0 <= k < |p| && !(from <= k < to) :: p[k] == q[k]
  }

  /** Storing `TcpChecksum` into the zeroed field of `z` gives a packet `TcpVerifyChecksum` accepts. */
  lemma StoredTcpChecksum(z: seq<byte>, n: nat, check: u16)
    requires TcpSized(z) && ETH_HEADER_LEN + TotalLength(z) as int == n
    requires ShortAt(z, 50) == 0 && check == Sum16(TcpRegion(z), TcpStart(z))
    ensures TcpAccepts(WithShort(z, 50, check)[..n])
  {
    var f := WithShort(z, 50, check)[..n];
    assert forall k | 0 <= k < n && k != 50 && k != 51 :: f[k] == z[k];
    assert ShortAt(f, 50) == check;
    assert z[50] == 0 && z[51] == 0;
    assert WithShort(TcpRegion(f), 24, 0) == z[26..n];
  }

  /** Storing the checksum of an IP header into its zeroed field. */
  lemma StoredIpChecksum(z: seq<byte>, total: u16, ident: u16, protocol: byte, source: Ip, target: Ip, check: u16)
    requires HasIpFields(z, total, ident, protocol, source, target) && ShortAt(z, 24) == 0
    requires check == Sum16(z[14..34], 0)
    ensures HasIpHeader(WithShort(z, 24, check), total, ident, protocol, source, target)
  {
    var h := z[14..34];
    SlicePatch(z, 14, 34, 24, ShortBytes(check));
    assert h[10] == 0 && h[11] == 0;
    assert WithShort(h, 10, 0) == h;
    StoredChecksumVerifies(h, 10, 0);
    IpFieldsKept(z, WithShort(z, 24, check), total, ident, protocol, source, target);
  }

  /** A segment is finished by storing its TCP checksum. */
  lemma SegmentBuilt(z: seq<byte>, n: nat, s: Station, c: TcpConnection, ident: u16, sequence: u32, flags: byte,
                     payload: seq<byte>, check: u16)
    requires s.Valid() && |z| < 0x8000 && n == 54 + |OptionBytes(s, flags)| + |payload| <= |z|
    requires HasEthHeader(z, c.mac, s.mac, ETH_TYPE_IP)
    requires HasIpHeader(z, n - 14, ident, PROTO_TCP, s.ip, c.ip)
    requires HasTcpHeader(z, c.port, c.remotePort, sequence, c.expectedSequence,
                          if HasFlag(flags, SYN) then 0x60 else 0x50, flags, s.Window())
    requires z[54..n] == OptionBytes(s, flags) + payload
    requires ShortAt(z, 50) == 0 && check == Sum16(TcpRegion(z), TcpStart(z))
    ensures IsSegment(WithShort(z, 50, check)[..n], s, c, ident, sequence, flags, payload)
  {
    var f := WithShort(z, 50, check)[..n];
    EthHeaderKept(z, f, c.mac, s.mac, ETH_TYPE_IP);
    IpHeaderKept(z, f, n - 14, ident, PROTO_TCP, s.ip, c.ip);
    TcpHeaderKept(z, f, c.port, c.remotePort, sequence, c.expectedSequence,
                  if HasFlag(flags, SYN) then 0x60 else 0x50, flags, s.Window());
    assert f[54..] == z[54..n];
    StoredTcpChecksum(z, n, check);
  }

  /** Zeroing the checksum field of a segment zeroes it in the region summed, and putting it back
      restores the segment. */
  lemma ZeroedField(p: seq<byte>, dataSum: u16)
    requires TcpSized(p) && dataSum == ShortAt(p, 50)
    ensures var z := WithShort(p, 50, 0);
            TcpSized(z) && TcpRegion(z) == WithShort(TcpRegion(p), 24, 0) && TcpStart(z) == TcpStart(p)
            && WithShort(z, 50, dataSum) == p
  {
    var z := WithShort(p, 50, 0);
    assert forall k | 0 <= k < |p| && k != 50 && k != 51 :: z[k] == p[k];
    assert ShortBytes(dataSum) == [p[50], p[51]];
    assert TcpRegion(z) == WithShort(TcpRegion(p), 24, 0);
  }

  class Link {
    const station: Station
    /** `buffer` of `src/network.c`. */
    const buffer: array<byte>
    /** The frame the controller has ready at each poll. */
    const supply: nat -> seq<byte>
    /** Polls made so far. */
    var now: nat
    /** `ip_identfier`. */
    var ipIdentifier: u16
    /** Every frame handed to the controller, in order. */
    ghost var sent: seq<seq<byte>>

    ghost predicate Valid()
    {
      station.Valid() && buffer.Length == station.bufferSize && forall t: nat :: station.WellFormed(supply(t))
    }

    constructor (station: Station, supply: nat -> seq<byte>)
      requires station.Valid() && forall t: nat :: station.WellFormed(supply(t))
      ensures Valid() && fresh(buffer) && this.station == station && this.supply == supply
      ensures now == 0 && ipIdentifier == 1 && sent == []
    {
      this.station, this.supply := station, supply;
      buffer := new byte[station.bufferSize](i => 0);
      now, ipIdentifier, sent := 0, 1, [];
    }

    /** `enc28j60_packet_receive`. */
    method PacketReceive() returns (length: u16)
      requires Valid()
      modifies this`now, buffer
      ensures now == old(now) + 1 && length == |supply(old(now))|
      ensures buffer[..length] == supply(old(now)) && buffer[length..] == old(buffer[length..])
    {
      var frame := supply(now);
      assert station.WellFormed(frame);
      now := now + 1;
      Put(buffer, 0, frame);
      length := |frame|;
    }

    /** `enc28j60_packet_send`. */
    method PacketSend(length: u16)
      requires length <= buffer.Length
      modifies this`sent
      ensures sent == old(sent) + [buffer[..length]]
    {
      sent := sent + [buffer[..length]];
    }

    /** `eth_generate_header`. */
    method EthGenerateHeader(kind: u16, target: Mac)
      requires Valid()
      modifies buffer
      ensures HasEthHeader(buffer[..], target, station.mac, kind)
      ensures SameOutside(buffer[..], old(buffer[..]), 0, 14)
    {
      Put(buffer, 0, target);
      Put(buffer, 6, station.mac);
      Put(buffer, 12, ShortBytes(kind));
    }

    /** The addresses of an IP header, and its checksum cleared. */
    method IpFillAddresses(target: Ip)
      requires Valid()
      modifies buffer
      ensures SourceIp(buffer[..]) == station.ip && buffer[..][30..34] == target && ShortAt(buffer[..], 24) == 0
      ensures SameOutside(buffer[..], old(buffer[..]), 24, 34)
    {
      Put(buffer, 30, target);
      Put(buffer, 26, station.ip);
      buffer[24], buffer[25] := 0, 0;
    }

    /** The fields `ip_generate_header` writes before it computes the checksum. */
    method IpFillHeader(total: u16, protocol: byte, target: Ip)
      requires Valid()
      modifies this`ipIdentifier, buffer
      ensures ipIdentifier == Wrap16(old(ipIdentifier) as int + 1)
      ensures HasIpFields(buffer[..], total, old(ipIdentifier), protocol, station.ip, target)
      ensures ShortAt(buffer[..], 24) == 0
      ensures SameOutside(buffer[..], old(buffer[..]), 14, 34)
    {
      buffer[14], buffer[15] := 0x45, 0;
      buffer[16], buffer[17] := High(total), Low(total);
      buffer[18], buffer[19] := High(ipIdentifier), Low(ipIdentifier);
      ipIdentifier := Wrap16(ipIdentifier as int + 1);
      buffer[20], buffer[21], buffer[22], buffer[23] := 0, 0, 128, protocol;
      IpFillAddresses(target);
    }

    /** Overwrite one word. */
    method PutShort(at: nat, v: u16)
      requires at + 2 <= buffer.Length
      modifies buffer
      ensures buffer[..] == WithShort(old(buffer[..]), at, v)
    {
      Put(buffer, at, ShortBytes(v));
      assert forall k | 0 <= k < buffer.Length :: buffer[k] == WithShort(old(buffer[..]), at, v)[k];
    }

    /** `ip_generate_header`. */
    method IpGenerateHeader(total: u16, protocol: byte, target: Ip)
      requires Valid()
      modifies this`ipIdentifier, buffer
      ensures ipIdentifier == Wrap16(old(ipIdentifier) as int + 1)
      ensures HasIpHeader(buffer[..], total, old(ipIdentifier), protocol, station.ip, target)
      ensures SameOutside(buffer[..], old(buffer[..]), 14, 34)
    {
      IpFillHeader(total, protocol, target);
      var check := SoftwareChecksum(buffer, 14, 20, 0);
      ghost var z := buffer[..];
      assert z[14..34] == buffer[14..34];
      StoredIpChecksum(z, total, old(ipIdentifier), protocol, station.ip, target, check);
      PutShort(24, check);
    }

    /** `TcpSetSequence`. */
    method TcpSetSequence(sequence: u32, ack: u32)
      requires Valid()
      modifies buffer
      ensures SequenceOf(buffer[..]) == sequence && AckOf(buffer[..]) == ack
      ensures SameOutside(buffer[..], old(buffer[..]), 38, 46)
    {
      Put(buffer, 38, LongBytes(sequence));
      Put(buffer, 42, LongBytes(ack));
    }

    /** `TcpSetPort`. */
    method TcpSetPort(target: u16, source: u16)
      requires Valid()
      modifies buffer
      ensures SourcePort(buffer[..]) == source && TargetPort(buffer[..]) == target
      ensures SameOutside(buffer[..], old(buffer[..]), 34, 38)
    {
      Put(buffer, 36, ShortBytes(target));
      Put(buffer, 34, ShortBytes(source));
    }

    /** The header fields `TcpSendPacket` writes after the IP header, the checksum still zero. */
    method TcpFillHeader(c: TcpConnection, sequence: u32, flags: byte)
      requires Valid()
      modifies buffer
      ensures SameOutside(buffer[..], old(buffer[..]), 34, 54)
      ensures HasTcpHeader(buffer[..], c.port, c.remotePort, sequence, c.expectedSequence, old(buffer[46]), flags,
                           station.Window())
      ensures ShortAt(buffer[..], 50) == 0
    {
      TcpSetSequence(sequence, c.expectedSequence);
      TcpSetPort(c.remotePort, c.port);
      buffer[47] := flags;
      buffer[48], buffer[49] := High(station.Window()), Low(station.Window());
      buffer[52], buffer[53] := 0, 0;
      buffer[50], buffer[51] := 0, 0;
    }

    /** `TcpChecksum`. */
    method TcpChecksum() returns (check: u16)
      requires Valid() && TcpSized(buffer[..])
      ensures check == Sum16(TcpRegion(buffer[..]), TcpStart(buffer[..]))
    {
      ghost var p := buffer[..];
      PayloadLength(p);
      var header, data := buffer[46] / 16 * 4, DataLength(buffer[..]);
      check := SoftwareChecksum(buffer, 26, header as int + data as int + 8,
          PROTO_TCP as int + header as int + data as int);
    }

    /** The end of `TcpSendPacket`: compute and store the checksum, then send `n` bytes. */
    method TcpFinishPacket(ghost c: TcpConnection, ghost ident: u16, ghost sequence: u32, ghost flags: byte,
                           n: nat, ghost payload: seq<byte>) returns (ghost frame: seq<byte>)
      requires Valid() && n == 54 + |OptionBytes(station, flags)| + |payload| <= buffer.Length
      requires HasEthHeader(buffer[..], c.mac, station.mac, ETH_TYPE_IP)
      requires HasIpHeader(buffer[..], n - 14, ident, PROTO_TCP, station.ip, c.ip)
      requires HasTcpHeader(buffer[..], c.port, c.remotePort, sequence, c.expectedSequence,
                            if HasFlag(flags, SYN) then 0x60 else 0x50, flags, station.Window())
      requires ShortAt(buffer[..], 50) == 0 && buffer[54..n] == OptionBytes(station, flags) + payload
      modifies this`sent, buffer
      ensures sent == old(sent) + [frame] && |frame| == n && frame == buffer[..n]
      ensures IsSegment(frame, station, c, ident, sequence, flags, payload)
      ensures buffer[54..] == old(buffer[54..])
    {
      ghost var z := buffer[..];
      assert z[54..n] == buffer[54..n];
      var check := TcpChecksum();
      SegmentBuilt(z, n, station, c, ident, sequence, flags, payload, check);
      PutShort(50, check);
      PacketSend(n);
      frame := buffer[..n];
      assert frame == buffer[..][..n];
      assert buffer[54..] == z[54..];
    }

    /** The data offset, and the option of a SYN: the payload moves behind it. */
    method TcpPutOptions(flags: byte)
      requires Valid()
      modifies buffer
      ensures buffer[46] == if HasFlag(flags, SYN) then 0x60 else 0x50
      ensures buffer[54..54 + |OptionBytes(station, flags)|] == OptionBytes(station, flags)
      ensures forall k | 0 <= k < buffer.Length && k != 46 && !(54 <= k < 54 + |OptionBytes(station, flags)|) ::
                buffer[k] == old(buffer[k])
    {
      if HasFlag(flags, SYN) {
        Put(buffer, 54, MssOption(station.MaxSegmentSize()));
        buffer[46] := 0x60;
      } else {
        buffer[46] := 0x50;
      }
    }

    /** `TcpSendPacket`: build a segment around the `dlength` payload bytes already in place and send it. */
    method TcpSendPacket(c: TcpConnection, sequence: u32, flags: byte, dlength: nat) returns (ghost frame: seq<byte>)
      requires Valid() && 54 + |OptionBytes(station, flags)| + dlength <= buffer.Length
      modifies this`ipIdentifier, this`sent, buffer
      ensures ipIdentifier == Wrap16(old(ipIdentifier) as int + 1) && sent == old(sent) + [frame]
      ensures |frame| <= buffer.Length && frame == buffer[..|frame|]
      ensures IsSegment(frame, station, c, old(ipIdentifier), sequence, flags,
                        old(buffer[54 + |OptionBytes(station, flags)|..54 + |OptionBytes(station, flags)| + dlength]))
      ensures !HasFlag(flags, SYN) ==> buffer[54..] == old(buffer[54..])
    {
      hide IsSegment;
      var length := dlength + if HasFlag(flags, SYN) then 4 else 0;
      ghost var ident, m, n := ipIdentifier, 54 + |OptionBytes(station, flags)|, 54 + length;
      ghost var payload := buffer[m..n];
      EthGenerateHeader(ETH_TYPE_IP, c.mac);
      ghost var g := buffer[..];
      assert forall k | m <= k < n :: g[k] == old(buffer[..])[k];
      assert g[m..n] == payload;
      TcpPutOptions(flags);
      ghost var a := buffer[..];
      if !HasFlag(flags, SYN) {
        assert forall k | 54 <= k < |a| :: a[k] == g[k] == old(buffer[..])[k];
        assert a[54..] == old(buffer[..])[54..] == old(buffer[54..]);
      }
      SliceSplit(a, 54, m, n);
      assert a[54..m] == buffer[54..m];
      assert forall k | m <= k < n :: a[k] == g[k];
      assert a[m..n] == payload;
      EthHeaderKept(a, a, c.mac, station.mac, ETH_TYPE_IP);
      TcpSendBuilt(c, ident, sequence, flags, length, payload);
      frame := buffer[..n];
      assert buffer[54..] == a[54..];
    }

    /** The rest of `TcpSendPacket`, once the link header, the options and the payload are in place. */
    method TcpSendBuilt(c: TcpConnection, ghost ident: u16, sequence: u32, flags: byte, length: nat,
                        ghost payload: seq<byte>)
      requires Valid() && 54 + length == 54 + |OptionBytes(station, flags)| + |payload| <= buffer.Length
      requires HasEthHeader(buffer[..], c.mac, station.mac, ETH_TYPE_IP) && ident == ipIdentifier
      requires buffer[46] == if HasFlag(flags, SYN) then 0x60 else 0x50
      requires buffer[..][54..54 + length] == OptionBytes(station, flags) + payload
      modifies this`ipIdentifier, this`sent, buffer
      ensures ipIdentifier == Wrap16(old(ipIdentifier) as int + 1) && sent == old(sent) + [buffer[..54 + length]]
      ensures IsSegment(buffer[..54 + length], station, c, ident, sequence, flags, payload)
      ensures buffer[54..] == old(buffer[54..])
    {
      ghost var n, a := 54 + length, buffer[..];
      IpGenerateHeader(IP_HEADER_LEN + TCP_HEADER_LEN + length, PROTO_TCP, c.ip);
      ghost var b := buffer[..];
      TcpFillHeader(c, sequence, flags);
      ghost var z := buffer[..];
      EthHeaderKept(a, z, c.mac, station.mac, ETH_TYPE_IP);
      IpHeaderKept(b, z, n - 14, ident, PROTO_TCP, station.ip, c.ip);
      assert z[54..n] == a[54..n];
      assert z[54..n] == buffer[54..n];
      assert buffer[54..] == old(buffer[54..]);
      ghost var frame := TcpFinishPacket(c, ident, sequence, flags,
          ETH_HEADER_LEN + IP_HEADER_LEN + TCP_HEADER_LEN + length, payload);
    }

    /** `TcpVerifyChecksum`: the field is zeroed, recomputed and put back. */
    method TcpVerifyChecksum() returns (ok: bool)
      requires Valid() && TcpSized(buffer[..])
      modifies buffer
      ensures buffer[..] == old(buffer[..])
      ensures ok <==> TcpAccepts(buffer[..])
    {
      ghost var p := buffer[..];
      var dataSum := ShortAt(buffer[..], 50);
      PutShort(50, 0);
      ZeroedField(p, dataSum);
      var sum := TcpChecksum();
      PutShort(50, dataSum);
      ok := dataSum == sum;
    }

    // ----- ARP ---------------------------------------------------------------------------------

    /** `ArpPacketIsArp`. */
    method ArpPacketIsArp(opcode: u16) returns (r: bool)
      requires Valid()
      ensures r <==> IsArp(buffer[..], station.ip, opcode)
    {
      r := ShortAt(buffer[..], 12) == ETH_TYPE_ARP && ShortAt(buffer[..], 20) == opcode && buffer[38..42] == station.ip;
    }

    /** `arp_generate_packet`: all but the opcode. */
    method ArpGeneratePacket(target: Mac, targetIp: Ip)
      requires Valid()
      modifies buffer
      ensures HasArpBody(buffer[..], station.mac, station.ip, target, targetIp)
      ensures forall k | 0 <= k < buffer.Length && !(14 <= k < 20 || 22 <= k < 42) :: buffer[k] == old(buffer[k])
    {
      buffer[14], buffer[15], buffer[16], buffer[17], buffer[18], buffer[19] := 0, 1, 8, 0, 6, 4;
      Put(buffer, 32, target);
      Put(buffer, 22, station.mac);
      Put(buffer, 38, targetIp);
      Put(buffer, 28, station.ip);
    }

    /** The common part of `arp_send_request` and `ArpSendReply`. */
    method ArpSendPacket(opcode: u16, linkTarget: Mac, target: Mac, targetIp: Ip) returns (ghost frame: seq<byte>)
      requires Valid()
      modifies this`sent, buffer
      ensures sent == old(sent) + [frame] && frame == buffer[..42]
      ensures IsArpPacket(buffer[..], opcode, linkTarget, station.mac, station.ip, target, targetIp)
    {
      EthGenerateHeader(ETH_TYPE_ARP, linkTarget);
      ghost var a := buffer[..];
      Put(buffer, 20, ShortBytes(opcode));
      ArpGeneratePacket(target, targetIp);
      EthHeaderKept(a, buffer[..], linkTarget, station.mac, ETH_TYPE_ARP);
      PacketSend(ETH_HEADER_LEN + 28);
      frame := buffer[..42];
    }

    // ----- ICMP --------------------------------------------------------------------------------

    /** `IcmpGeneratePacket`. */
    method IcmpGeneratePacket(kind: byte, code: byte, dataLength: byte)
      requires Valid() && 42 + dataLength as int <= buffer.Length
      modifies buffer
      ensures buffer[34] == kind && buffer[35] == code && SameOutside(buffer[..], old(buffer[..]), 34, 38)
      ensures Verifies(buffer[34..42 + dataLength as int], 0)
    {
      buffer[34], buffer[35] := kind, code;
      buffer[36], buffer[37] := 0, 0;
      ghost var n := 42 + dataLength as int;
      ghost var z := buffer[..];
      var check := SoftwareChecksum(buffer, 34, 8 + dataLength as int, 0);
      assert z[34..n] == buffer[34..n];
      PutShort(36, check);
      SlicePatch(z, 34, n, 36, ShortBytes(check));
      assert buffer[34..n] == buffer[..][34..n];
      assert WithShort(z[34..n], 2, 0) == z[34..n];
      StoredChecksumVerifies(z[34..n], 2, 0);
    }

    /** `icmp_send_reply`. The data length is a single byte, so only up to 255 data bytes are summed. */
    method IcmpSendReply(length: u16, target: Mac, targetIp: Ip) returns (handled: bool)
      requires Valid() && 60 <= length < buffer.Length
      modifies this`ipIdentifier, this`sent, buffer
      ensures handled <==> Protocol(old(buffer[..])) == PROTO_ICMP && old(buffer[34]) == 8
      ensures !handled ==> unchanged(this, buffer)
      ensures handled ==> sent == old(sent) + [buffer[..length]]
                          && HasEthHeader(buffer[..], target, station.mac, ETH_TYPE_IP)
                          && HasIpHeader(buffer[..], length as int - 14, old(ipIdentifier), PROTO_ICMP, station.ip,
                              targetIp)
                          && buffer[34] == 0 && buffer[35] == 0 && buffer[38..] == old(buffer[38..])
                          && (length - 42 <= 255 ==> Verifies(buffer[34..length], 0))
    {
      if buffer[23] != PROTO_ICMP || buffer[34] != 8 {
        return false;
      }
      IcmpAnswer(length, target, targetIp);
      PacketSend(length);
      handled := true;
    }

    /** An echo request becomes the reply to it. */
    method IcmpAnswer(length: u16, target: Mac, targetIp: Ip)
      requires Valid() && 60 <= length < buffer.Length
      modifies this`ipIdentifier, buffer
      ensures HasEthHeader(buffer[..], target, station.mac, ETH_TYPE_IP)
      ensures HasIpHeader(buffer[..], length as int - 14, old(ipIdentifier), PROTO_ICMP, station.ip, targetIp)
      ensures buffer[34] == 0 && buffer[35] == 0 && buffer[38..] == old(buffer[38..])
      ensures length - 42 <= 255 ==> Verifies(buffer[34..length], 0)
    {
      EthGenerateHeader(ETH_TYPE_IP, target);
      ghost var a := buffer[..];
      assert a[38..] == old(buffer[38..]);
      IpGenerateHeader(length as int - ETH_HEADER_LEN, PROTO_ICMP, targetIp);
      ghost var b := buffer[..];
      assert b[38..] == a[38..];
      IcmpGeneratePacket(0, 0, (length as int - 42) % 0x100);
      assert buffer[38..] == b[38..];
      EthHeaderKept(a, buffer[..], target, station.mac, ETH_TYPE_IP);
      IpHeaderKept(b, buffer[..], length as int - 14, old(ipIdentifier), PROTO_ICMP, station.ip, targetIp);
    }

    /** `IcmpSendUnreachable`: the start of the refused packet becomes the payload of the answer to it. */
    method IcmpSendUnreachable(target: Mac, targetIp: Ip, ipTotalLength: u16) returns (ghost frame: seq<byte>)
      requires Valid()
      modifies this`ipIdentifier, this`sent, buffer
      ensures sent == old(sent) + [frame] && |frame| == 42 + Min(ipTotalLength, 28)
      ensures HasIpHeader(buffer[..], |frame| - 14, old(ipIdentifier), PROTO_ICMP, station.ip, targetIp)
      ensures HasEthHeader(buffer[..], target, station.mac, ETH_TYPE_IP) && frame == buffer[..|frame|]
      ensures frame[34] == 3 && frame[35] == 12 && Verifies(frame[34..], 0)
      ensures frame[42..] == old(buffer[14..14 + Min(ipTotalLength, 28)])
    {
      var length := ipTotalLength;
      if length > 8 + IP_HEADER_LEN {
        length := 8 + IP_HEADER_LEN;
      }
      ghost var quote := buffer[14..14 + length as int];
      Put(buffer, 42, buffer[14..14 + length as int]);
      assert buffer[42..42 + length as int] == quote;
      IcmpGeneratePacket(3, 12, length);
      ghost var a := buffer[..];
      assert a[42..42 + length as int] == quote;
      EthGenerateHeader(ETH_TYPE_IP, target);
      ghost var b := buffer[..];
      IpGenerateHeader(IP_HEADER_LEN + 8 + length as int, PROTO_ICMP, targetIp);
      EthHeaderKept(b, buffer[..], target, station.mac, ETH_TYPE_IP);
      PacketSend(ETH_HEADER_LEN + IP_HEADER_LEN + 8 + length as int);
      frame := buffer[..42 + length as int];
      assert frame[34..] == a[34..42 + length as int];
      assert frame[42..] == a[42..42 + length as int];
    }
  }
}
