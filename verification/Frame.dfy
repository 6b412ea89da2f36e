/**
 Ethernet, IPv4, TCP and ICMP frames as byte strings: where the fields are, what a header is made of,
 and when the code accepts a TCP packet. Offsets are those of `src/ip.h`, `src/tcp.h`, `src/icmp.h`.
 */
module Frame {
  import opened Util
  import opened Addresses
  import opened Checksum

  const ETH_HEADER_LEN := 14
  const IP_HEADER_LEN := 20
  const TCP_HEADER_LEN := 20
  const ETH_TYPE_IP: u16 := 0x0800
  const ETH_TYPE_ARP: u16 := 0x0806
  const PROTO_ICMP: byte := 1
  const PROTO_TCP: byte := 6
  const FIN: byte := 1
  const SYN: byte := 2
  const ACK: byte := 0x10

  // ----- fields of a received frame ----------------------------------------------------------

  predicate HasHeaders(p: seq<byte>) { |p| >= 54 }

  function SourceMac(p: seq<byte>): Mac requires HasHeaders(p) { p[6..12] }
  function SourceIp(p: seq<byte>): Ip requires HasHeaders(p) { p[26..30] }
  function EthType(p: seq<byte>): u16 requires HasHeaders(p) { ShortAt(p, 12) }
  function Protocol(p: seq<byte>): byte requires HasHeaders(p) { p[23] }
  function TotalLength(p: seq<byte>): u16 requires HasHeaders(p) { ShortAt(p, 16) }
  function SourcePort(p: seq<byte>): u16 requires HasHeaders(p) { ShortAt(p, 34) }
  function TargetPort(p: seq<byte>): u16 requires HasHeaders(p) { ShortAt(p, 36) }
  function SequenceOf(p: seq<byte>): u32 requires HasHeaders(p) { LongAt(p, 38) }
  function AckOf(p: seq<byte>): u32 requires HasHeaders(p) { LongAt(p, 42) }
  function Flags(p: seq<byte>): byte requires HasHeaders(p) { p[47] }

  /** `TcpGetHeaderLength`: the data offset in bytes. */
  function HeaderLength(p: seq<byte>): byte requires HasHeaders(p) { p[46] / 16 * 4 }

  /** `TcpGetDataPosition`. */
  function DataPosition(p: seq<byte>): nat requires HasHeaders(p) { 34 + HeaderLength(p) as int }

  /** A 16-bit `int` of the AVR compiler. */
  function Signed16(x: int): int
  {
    var w := x % 0x1_0000;
    if w < 0x8000 then w else w - 0x1_0000
  }

  /** `TcpGetDataLength`, in 16-bit signed arithmetic. */
  function DataLength(p: seq<byte>): u16
    requires HasHeaders(p)
  {
    var d := Signed16(TotalLength(p) as int - IP_HEADER_LEN - HeaderLength(p) as int);
    if d <= 0 then 0 else d
  }

  predicate HasFlag(flags: byte, bit: byte)
    requires bit != 0
  {
    flags / bit % 2 == 1
  }

  /** `!((~flags) & expected)`: every bit of `expected` is set in `flags`. */
  predicate HasAllFlags(flags: byte, expected: byte)
  {
    (HasFlag(expected, 0x01) ==> HasFlag(flags, 0x01)) && (HasFlag(expected, 0x02) ==> HasFlag(flags, 0x02)) &&
    (HasFlag(expected, 0x04) ==> HasFlag(flags, 0x04)) && (HasFlag(expected, 0x08) ==> HasFlag(flags, 0x08)) &&
    (HasFlag(expected, 0x10) ==> HasFlag(flags, 0x10)) && (HasFlag(expected, 0x20) ==> HasFlag(flags, 0x20)) &&
    (HasFlag(expected, 0x40) ==> HasFlag(flags, 0x40)) && (HasFlag(expected, 0x80) ==> HasFlag(flags, 0x80))
  }

  /** The lengths a TCP frame announces are consistent and inside it. */
  predicate TcpSized(p: seq<byte>)
  {
    HasHeaders(p) && |p| < 0x8000 && HeaderLength(p) >= TCP_HEADER_LEN
    && IP_HEADER_LEN + HeaderLength(p) as int <= TotalLength(p) && ETH_HEADER_LEN + TotalLength(p) as int <= |p|
  }

  function Payload(p: seq<byte>): seq<byte>
    requires TcpSized(p)
  {
    p[DataPosition(p)..ETH_HEADER_LEN + TotalLength(p) as int]
  }

  lemma PayloadLength(p: seq<byte>)
    requires TcpSized(p)
    ensures |Payload(p)| == DataLength(p)
    ensures Payload(p) == p[DataPosition(p)..DataPosition(p) + DataLength(p) as int]
  {
  }

  // ----- TCP checksum ------------------------------------------------------------------------

  /** The bytes `TcpChecksum` sums: both IP addresses and the whole segment. */
  function TcpRegion(p: seq<byte>): seq<byte>
    requires TcpSized(p)
  {
    p[26..ETH_HEADER_LEN + TotalLength(p) as int]
  }

  /** Protocol number plus segment length, the start value `TcpChecksum` passes. */
  function TcpStart(p: seq<byte>): nat
    requires TcpSized(p)
  {
    PROTO_TCP as int + TotalLength(p) as int - IP_HEADER_LEN
  }

  /** `TcpVerifyChecksum`: recompute over a zeroed field and compare. */
  ghost predicate TcpAccepts(p: seq<byte>)
  {
    TcpSized(p) && ShortAt(p, 50) == Sum16(WithShort(TcpRegion(p), 24, 0), TcpStart(p))
  }

  /** RFC 793, section 3.1: the pseudo header and the segment it protects. */
  function PseudoHeader(p: seq<byte>): seq<byte>
    requires TcpSized(p)
  {
    p[26..34] + [0, PROTO_TCP] + ShortBytes(TotalLength(p) as int - IP_HEADER_LEN)
  }

  function Segment(p: seq<byte>): seq<byte>
    requires TcpSized(p)
  {
    p[34..ETH_HEADER_LEN + TotalLength(p) as int]
  }

  lemma PseudoHeaderSum(p: seq<byte>)
    requires TcpSized(p)
    ensures WordSum(PseudoHeader(p) + Segment(p)) == TcpStart(p) + WordSum(TcpRegion(p))
  {
    var len := ShortBytes(TotalLength(p) as int - IP_HEADER_LEN);
    var addresses, tail := p[26..34], [0, PROTO_TCP] + len;
    assert PseudoHeader(p) == addresses + tail;
    WordSumConcat(addresses + tail, Segment(p));
    WordSumConcat(addresses, tail);
    assert WordSum(tail) == TcpStart(p) by {
      assert ShortAt(tail, 0) == PROTO_TCP && tail[2..] == len;
      assert len[2..] == [];
      assert WordSum(len) == ShortAt(len, 0);
    }
    SliceSplit(p, 26, 34, ETH_HEADER_LEN + TotalLength(p) as int);
    WordSumConcat(addresses, Segment(p));
  }

  lemma SliceSplit(p: seq<byte>, a: nat, b: nat, c: nat)
    requires a <= b <= c <= |p|
    ensures p[a..c] == p[a..b] + p[b..c]
  {
  }

  /** The verification is exact: the standard's test, except that a stored 0xFFFF is refused. */
  lemma TcpAcceptsIsStandard(p: seq<byte>)
    requires TcpSized(p)
    ensures TcpAccepts(p) <==> Verifies(PseudoHeader(p) + Segment(p), 0) && ShortAt(p, 50) != 0xFFFF
  {
    PseudoHeaderSum(p);
    assert ShortAt(TcpRegion(p), 24) == ShortAt(p, 50);
    RecomputeVersusTest(TcpRegion(p), 24, TcpStart(p));
  }

  // ----- headers the code writes, every byte of them -----------------------------------------

  predicate HasEthHeader(p: seq<byte>, target: Mac, source: Mac, kind: u16)
  {
    HasHeaders(p) && p[..6] == target && SourceMac(p) == source && EthType(p) == kind
  }

  /** Version 4, no options, no fragmentation, time to live 128; all but the checksum. */
  predicate HasIpFields(p: seq<byte>, total: u16, ident: u16, protocol: byte, source: Ip, target: Ip)
  {
    HasHeaders(p) && p[14] == 0x45 && p[15] == 0 && TotalLength(p) == total && ShortAt(p, 18) == ident
    && p[20] == 0 && p[21] == 0 && p[22] == 128 && Protocol(p) == protocol
    && SourceIp(p) == source && p[30..34] == target
  }

  ghost predicate HasIpHeader(p: seq<byte>, total: u16, ident: u16, protocol: byte, source: Ip, target: Ip)
  {
    HasIpFields(p, total, ident, protocol, source, target) && Verifies(p[14..34], 0)
  }

  /** All of the TCP header but its checksum. */
  predicate HasTcpHeader(p: seq<byte>, source: u16, target: u16, sequence: u32, ack: u32, offset: byte, flags: byte,
                         window: u16)
  {
    HasHeaders(p) && SourcePort(p) == source && TargetPort(p) == target && SequenceOf(p) == sequence
    && AckOf(p) == ack && p[46] == offset && Flags(p) == flags && ShortAt(p, 48) == window && ShortAt(p, 52) == 0
  }

  /** `p` and `q` agree on the bytes from `a` up to `b`. */
  predicate Agree(p: seq<byte>, q: seq<byte>, a: nat, b: nat)
  {
    a <= b <= |p| && b <= |q| && forall k | a <= k < b :: p[k] == q[k]
  }

  lemma EthHeaderKept(p: seq<byte>, q: seq<byte>, target: Mac, source: Mac, kind: u16)
    requires HasEthHeader(p, target, source, kind) && HasHeaders(q) && Agree(p, q, 0, 14)
    ensures HasEthHeader(q, target, source, kind)
  {
    assert p[..6] == q[..6] && p[6..12] == q[6..12];
  }

  lemma IpFieldsKept(p: seq<byte>, q: seq<byte>, total: u16, ident: u16, protocol: byte, source: Ip, target: Ip)
    requires HasIpFields(p, total, ident, protocol, source, target)
    requires HasHeaders(q) && Agree(p, q, 14, 24) && Agree(p, q, 26, 34)
    ensures HasIpFields(q, total, ident, protocol, source, target)
  {
    assert p[26..30] == q[26..30] && p[30..34] == q[30..34];
  }

  lemma IpHeaderKept(p: seq<byte>, q: seq<byte>, total: u16, ident: u16, protocol: byte, source: Ip, target: Ip)
    requires HasIpHeader(p, total, ident, protocol, source, target) && HasHeaders(q) && Agree(p, q, 14, 34)
    ensures HasIpHeader(q, total, ident, protocol, source, target)
  {
    IpFieldsKept(p, q, total, ident, protocol, source, target);
    assert p[14..34] == q[14..34];
  }

  lemma TcpHeaderKept(p: seq<byte>, q: seq<byte>, source: u16, target: u16, sequence: u32, ack: u32, offset: byte,
                      flags: byte, window: u16)
    requires HasTcpHeader(p, source, target, sequence, ack, offset, flags, window)
    requires HasHeaders(q) && Agree(p, q, 34, 50) && Agree(p, q, 52, 54)
    ensures HasTcpHeader(q, source, target, sequence, ack, offset, flags, window)
  {
  }

  /** The maximum-segment-size option a SYN carries. */
  function MssOption(mss: u16): seq<byte> { [2, 4] + ShortBytes(mss) }

  // ----- TCP options -------------------------------------------------------------------------

  datatype TcpOption = TcpOption(kind: byte, at: nat)

  /** RFC 793, section 3.1: a list of options from `i` up to `end`, each inside the header. */
  predicate OptionsOk(p: seq<byte>, i: nat, end: nat)
    requires end <= |p|
    decreases end - i
  {
    i >= end || p[i] == 0 || (p[i] == 1 && OptionsOk(p, i + 1, end)) ||
    (p[i] >= 2 && i + 1 < end && p[i + 1] >= 2 && i + p[i + 1] as int <= end && (p[i] == 2 ==> p[i + 1] == 4)
     && OptionsOk(p, i + p[i + 1] as int, end))
  }

  /** The options of such a list, in order. */
  function Options(p: seq<byte>, i: nat, end: nat): seq<TcpOption>
    requires end <= |p| && OptionsOk(p, i, end)
    decreases end - i
  {
    if i >= end || p[i] == 0 then []
    else [TcpOption(p[i], i)] + Options(p, i + if p[i] == 1 then 1 else p[i + 1] as int, end)
  }

  /** Position of the first option of a kind, or 0. */
  function FirstOption(options: seq<TcpOption>, kind: byte): nat
  {
    if options == [] then 0 else if options[0].kind == kind then options[0].at else FirstOption(options[1..], kind)
  }

  lemma {:induction false} FirstOptionMeans(options: seq<TcpOption>, kind: byte)
    requires forall k | 0 <= k < |options| :: options[k].at > 0
    ensures FirstOption(options, kind) == 0 <==> forall k | 0 <= k < |options| :: options[k].kind != kind
    ensures FirstOption(options, kind) != 0 ==>
              exists k | 0 <= k < |options| :: options[k] == TcpOption(kind, FirstOption(options, kind))
                                               && forall j | 0 <= j < k :: options[j].kind != kind
  {
    if options != [] && options[0].kind != kind {
      var rest := options[1..];
      FirstOptionMeans(rest, kind);
      assert forall k | 0 < k < |options| :: options[k] == rest[k - 1];
      if FirstOption(rest, kind) != 0 {
        var k :| 0 <= k < |rest| && rest[k] == TcpOption(kind, FirstOption(rest, kind))
                 && forall j | 0 <= j < k :: rest[j].kind != kind;
        assert options[k + 1] == TcpOption(kind, FirstOption(options, kind));
      }
    }
  }

  predicate HeaderOptionsOk(p: seq<byte>)
    requires HasHeaders(p)
  {
    DataPosition(p) <= |p| && OptionsOk(p, 54, DataPosition(p))
  }

  function HeaderOptions(p: seq<byte>): seq<TcpOption>
    requires HasHeaders(p) && HeaderOptionsOk(p)
  {
    Options(p, 54, DataPosition(p))
  }

  /** A received frame at the start of a longer buffer reads the same. */
  ghost predicate Heads(f: seq<byte>, q: seq<byte>) { |f| <= |q| && q[..|f|] == f }

  lemma HeadReads(f: seq<byte>, q: seq<byte>)
    requires Heads(f, q) && HasHeaders(f)
    ensures SourceMac(q) == SourceMac(f) && SourceIp(q) == SourceIp(f) && EthType(q) == EthType(f) && q[..6] == f[..6]
    ensures Protocol(q) == Protocol(f) && TotalLength(q) == TotalLength(f) && SourcePort(q) == SourcePort(f)
    ensures TargetPort(q) == TargetPort(f) && SequenceOf(q) == SequenceOf(f) && AckOf(q) == AckOf(f)
    ensures Flags(q) == Flags(f) && HeaderLength(q) == HeaderLength(f) && DataLength(q) == DataLength(f)
    ensures q[30..34] == f[30..34]
  {
    assert forall k | 0 <= k < |f| :: q[k] == f[k];
    assert q[6..12] == f[6..12] && q[26..30] == f[26..30];
  }

  lemma HeadTcp(f: seq<byte>, q: seq<byte>)
    requires Heads(f, q) && |q| < 0x8000 && TcpSized(f)
    ensures TcpSized(q) && (TcpAccepts(q) <==> TcpAccepts(f))
    ensures HeaderOptionsOk(f) ==> HeaderOptionsOk(q) && HeaderOptions(q) == HeaderOptions(f)
    ensures q[54..54 + DataLength(f) as int] == f[54..54 + DataLength(f) as int]
  {
    HeadReads(f, q);
    assert forall k | 0 <= k < |f| :: q[k] == f[k];
    assert TcpRegion(q) == TcpRegion(f);
    if HeaderOptionsOk(f) {
      HeadOptions(f, q, 54, DataPosition(f));
    }
  }

  lemma {:induction false} HeadOptions(f: seq<byte>, q: seq<byte>, i: nat, end: nat)
    requires Heads(f, q) && end <= |f| && OptionsOk(f, i, end)
    ensures OptionsOk(q, i, end) && Options(q, i, end) == Options(f, i, end)
    decreases end - i
  {
    if i < end {
      assert q[i] == f[i];
      if f[i] == 1 {
        HeadOptions(f, q, i + 1, end);
      } else if f[i] != 0 {
        assert q[i + 1] == f[i + 1];
        HeadOptions(f, q, i + f[i + 1] as int, end);
      }
    }
  }

  /** `TcpGetOptionPosition`. */
  method TcpGetOptionPosition(buffer: array<byte>, kind: byte) returns (position: nat)
    requires HasHeaders(buffer[..]) && HeaderOptionsOk(buffer[..]) && kind != 0
    ensures position == FirstOption(HeaderOptions(buffer[..]), kind)
    ensures position != 0 && kind == 2 ==> position + 4 <= DataPosition(buffer[..])
  {
    ghost var p := buffer[..];
    var i, dataPos := 54, 34 + (buffer[46] / 16 * 4) as int;
    while i < dataPos
      invariant 54 <= i && OptionsOk(p, i, dataPos)
      invariant FirstOption(HeaderOptions(p), kind) == FirstOption(Options(p, i, dataPos), kind)
      decreases dataPos - i
    {
      if buffer[i] == 0 {
        break;
      }
      if buffer[i] == kind {
        return i;
      }
      if buffer[i] == 1 {
        i := i + 1;
        continue;
      }
      i := i + buffer[i + 1] as int;
    }
    position := 0;
  }
}
