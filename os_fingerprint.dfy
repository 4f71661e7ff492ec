/** The probe batteries of the OS fingerprint: fixed tables of packets
    whose windows, flags, options and payloads are chosen to make TCP/IP
    stacks answer differently. Packets are plain values here; the scapy
    layer objects and their defaults are not modelled. */
module OsFingerprint {
  import opened Wrappers
  import opened TcpOptions

  /** What the network helper `_create_tpc_ip_packet(target, port)` or
      `_create_udp_ip_packet(target, port)` returns. Its code is not part
      of this model, so only its arguments are recorded. */
  datatype BasePacket = TcpIpBase(dst: string, port: int) | UdpIpBase(dst: string, port: int)

  /** An explicit IP layer: destination, type of service when given, and
      whether the don't-fragment flag is set. */
  datatype IpLayer = IpLayer(dst: string, tos: Option<int>, df: bool)

  /** A TCP layer; `None` for a field the probe leaves at scapy's default. */
  datatype TcpLayer = TcpLayer(dport: Option<int>, flags: Option<string>, window: int, options: seq<TcpOption>)

  datatype IcmpLayer = IcmpLayer(icmpType: int, code: int, id: int, seqNo: int)

  datatype Probe =
    | TcpOnBase(base: BasePacket, tcp: TcpLayer)                 // PACKET / TCP(...)
    | TcpOverIp(ip: IpLayer, tcp: TcpLayer)                      // IP(...) / TCP(...)
    | IcmpEcho(ip: IpLayer, icmp: IcmpLayer, payload: seq<byte>) // IP(...) / ICMP(...) / Raw(...)
    | UdpOnBase(base: BasePacket, ipId: int, payload: seq<byte>) // base with id set, / Raw(...)

  /** The timestamp option every probe carries: TSval 0xFFFFFFFF, TSecr 0. */
  const ProbeTimestamp: TcpOption := Timestamp(0xFFFF_FFFF, 0)

  /** The port the SEQ probes and the UDP probe are sent to. */
  const ProbePort: int := 12345

  function Windows(ps: seq<Probe>): seq<int>
    requires forall i :: 0 <= i < |ps| ==> !ps[i].IcmpEcho? && !ps[i].UdpOnBase?
  {
    seq(|ps|, i requires 0 <= i < |ps| => ps[i].tcp.window)
  }

  /** The options of every TCP probe fit the 40 bytes a TCP header has room for. */
  predicate OptionsFitHeader(os: seq<TcpOption>)
  {
    AllEncodable(os) && |EncodeOptions(os)| <= 40
  }

  /** SEQ/OPS/WIN/T1: six SYNs on one base packet to port 12345, with
      windows 1, 63, 4, 4, 16, 512 and six different option lists, in the
      order given, each carrying the sentinel timestamp and each encodable. */
  function SequenceGenerationProbes(target: string): (ps: seq<Probe>)
    ensures |ps| == 6
    ensures forall i :: 0 <= i < 6 ==>
      ps[i].TcpOnBase? && ps[i].base == TcpIpBase(target, ProbePort)
      && ps[i].tcp.dport == None && ps[i].tcp.flags == None
      && ProbeTimestamp in ps[i].tcp.options && AllEncodable(ps[i].tcp.options)
    ensures Windows(ps) == [1, 63, 4, 4, 16, 512]
    ensures ps[0].tcp.options == [WScale(10), Nop, Mss(1460), ProbeTimestamp, SAckOK]
    ensures ps[1].tcp.options == [Mss(1400), WScale(0), SAckOK, ProbeTimestamp, Eol]
    ensures ps[2].tcp.options == [ProbeTimestamp, Nop, Nop, WScale(5), Nop, Mss(640)]
    ensures ps[3].tcp.options == [SAckOK, ProbeTimestamp, WScale(10), Eol]
    ensures ps[4].tcp.options == [Mss(536), SAckOK, ProbeTimestamp, WScale(10), Eol]
    ensures ps[5].tcp.options == [Mss(265), SAckOK, ProbeTimestamp]
  {
    var packet := TcpIpBase(target, ProbePort);
    [
      TcpOnBase(packet, TcpLayer(None, None, 1,   [WScale(10), Nop, Mss(1460), ProbeTimestamp, SAckOK])),
      TcpOnBase(packet, TcpLayer(None, None, 63,  [Mss(1400), WScale(0), SAckOK, ProbeTimestamp, Eol])),
      TcpOnBase(packet, TcpLayer(None, None, 4,   [ProbeTimestamp, Nop, Nop, WScale(5), Nop, Mss(640)])),
      TcpOnBase(packet, TcpLayer(None, None, 4,   [SAckOK, ProbeTimestamp, WScale(10), Eol])),
      TcpOnBase(packet, TcpLayer(None, None, 16,  [Mss(536), SAckOK, ProbeTimestamp, WScale(10), Eol])),
      TcpOnBase(packet, TcpLayer(None, None, 512, [Mss(265), SAckOK, ProbeTimestamp]))
    ]
  }

  /** Bytes taken by one option on the wire. */
  function OptionLength(o: TcpOption): nat
  {
    match o
    case Eol => 1
    case Nop => 1
    case Mss(_) => 4
    case WScale(_) => 3
    case SAckOK => 2
    case Timestamp(_, _) => 10
  }

  function EncodedLengthOf(os: seq<TcpOption>): nat
  {
    if os == [] then 0 else OptionLength(os[0]) + EncodedLengthOf(os[1..])
  }

  lemma {:induction false} EncodedLength(os: seq<TcpOption>)
    requires AllEncodable(os)
    ensures |EncodeOptions(os)| == EncodedLengthOf(os)
  {
    if os != [] {
      EncodedLength(os[1..]);
    }
  }

  /** IE: two ICMP echo requests that differ in code, id, sequence number,
      type of service, the don't-fragment flag and the zero-filled payload
      length. */
  function IcmpEchoProbes(target: string): (ps: seq<Probe>)
    ensures |ps| == 2
    ensures forall i :: 0 <= i < 2 ==>
      ps[i].IcmpEcho? && ps[i].ip.dst == target && ps[i].icmp.icmpType == 8
      && forall k :: 0 <= k < |ps[i].payload| ==> ps[i].payload[k] == 0
    ensures ps[0].icmp == IcmpLayer(8, 9, 12345, 295) && ps[1].icmp == IcmpLayer(8, 0, 12346, 296)
    ensures ps[0].ip.tos == Some(0) && ps[1].ip.tos == Some(4)
    ensures ps[0].ip.df && !ps[1].ip.df
    ensures |ps[0].payload| == 120 && |ps[1].payload| == 150
  {
    [
      IcmpEcho(IpLayer(target, Some(0), true), IcmpLayer(8, 9, 12345, 295), seq(120, _ => 0)),
      IcmpEcho(IpLayer(target, Some(4), false), IcmpLayer(8, 0, 12346, 296), seq(150, _ => 0))
    ]
  }

  /** The option list shared by T2-T7: a window scale followed by NOP,
      MSS 265, the sentinel timestamp and SACK-permitted. */
  function T2Options(shift: int): seq<TcpOption>
  {
    [WScale(shift)] + [Nop, Mss(265), ProbeTimestamp, SAckOK]
  }

  /** T2-T7: six TCP probes, the first three to the open port and the last
      three to the closed port. */
  function TcpProbes(target: string, openPort: int, closedPort: int): (ps: seq<Probe>)
    ensures |ps| == 6
    ensures forall i :: 0 <= i < 6 ==>
      ps[i].TcpOverIp? && ps[i].ip.dst == target && ps[i].ip.tos == None
      && ps[i].tcp.dport == Some(if i < 3 then openPort else closedPort)
      && ps[i].ip.df == (i % 2 == 0)
      && ps[i].tcp.options == T2Options(if i < 5 then 10 else 15)
    ensures Windows(ps) == [128, 256, 1024, 31337, 32768, 65535]
    ensures seq(6, i requires 0 <= i < 6 => ps[i].tcp.flags)
         == [Some(""), Some("SFUP"), Some("A"), Some("S"), Some("A"), Some("FPU")]
  {
    var common := T2Options(10);
    [
      TcpOverIp(IpLayer(target, None, true),  TcpLayer(Some(openPort),   Some(""),     128,   common)),
      TcpOverIp(IpLayer(target, None, false), TcpLayer(Some(openPort),   Some("SFUP"), 256,   common)),
      TcpOverIp(IpLayer(target, None, true),  TcpLayer(Some(openPort),   Some("A"),    1024,  common)),
      TcpOverIp(IpLayer(target, None, false), TcpLayer(Some(closedPort), Some("S"),    31337, common)),
      TcpOverIp(IpLayer(target, None, true),  TcpLayer(Some(closedPort), Some("A"),    32768, common)),
      TcpOverIp(IpLayer(target, None, false), TcpLayer(Some(closedPort), Some("FPU"),  65535, T2Options(15)))
    ]
  }

  /** Encoding one option in front of a list whose encoding is known. */
  lemma ConsBytes(o: TcpOption, os: seq<TcpOption>, head: seq<byte>, tail: seq<byte>)
    requires Encodable(o) && AllEncodable(os) && EncodeOption(o) == head && EncodeOptions(os) == tail
    ensures AllEncodable([o] + os) && EncodeOptions([o] + os) == head + tail
  {
    EncodeCons(o, os);
  }

  /** The wire form of the probes' Timestamps option. */
  const TsWire: seq<byte> := [8, 10, 0xFF, 0xFF, 0xFF, 0xFF, 0, 0, 0, 0]

  /** The wire form of the shared T2-T7 list with window scale 10, grouped
      option by option: 03 03 0A | 01 | 02 04 01 09 | 08 0A FF FF FF FF 00 00
      00 00 | 04 02. */
  lemma T2OptionBytes()
    ensures AllEncodable(T2Options(10))
    ensures EncodeOptions(T2Options(10))
         == [0x03, 0x03, 0x0A] + ([0x01] + ([0x02, 0x04, 0x01, 0x09]
          + ([0x08, 0x0A, 0xFF, 0xFF, 0xFF, 0xFF, 0x00, 0x00, 0x00, 0x00] + [0x04, 0x02])))
  {
    assert EncodeOption(ProbeTimestamp) == TsWire by {
      assert Be32(0xFFFF_FFFF) == [0xFF, 0xFF, 0xFF, 0xFF];
      assert Be32(0) == [0, 0, 0, 0];
    }
    var l0: seq<TcpOption> := [];
    var l1 := [SAckOK] + l0;
    var l2 := [ProbeTimestamp] + l1;
    var l3 := [Mss(265)] + l2;
    var l4 := [Nop] + l3;
    var l5 := [WScale(10)] + l4;
    ConsBytes(SAckOK, l0, [4, 2], []);
    var w: seq<byte> := [4, 2];
    assert w + [] == w;
    ConsBytes(ProbeTimestamp, l1, TsWire, [4, 2]);
    ConsBytes(Mss(265), l2, [2, 4, 1, 9], TsWire + [4, 2]);
    ConsBytes(Nop, l3, [1], [2, 4, 1, 9] + (TsWire + [4, 2]));
    ConsBytes(WScale(10), l4, [3, 3, 10], [1] + ([2, 4, 1, 9] + (TsWire + [4, 2])));
    assert l5 == T2Options(10);
  }

  /** Both T2-T7 option lists take 20 bytes, within the TCP header's 40. */
  lemma T2OptionsFit(shift: int)
    requires 0 <= shift < 0x100
    ensures OptionsFitHeader(T2Options(shift)) && |EncodeOptions(T2Options(shift))| == 20
  {
    var os := T2Options(shift);
    EncodedLength(os);
    assert EncodedLengthOf(os[4..]) == 2;
    assert EncodedLengthOf(os[3..]) == 12;
    assert EncodedLengthOf(os[2..]) == 16;
    assert EncodedLengthOf(os[1..]) == 17;
  }

  /** U1: one UDP datagram to port 12345 with IP id 0x1042 and 300 bytes of 'C'. */
  function UdpProbe(target: string): (p: Probe)
    ensures p.UdpOnBase? && p.base == UdpIpBase(target, ProbePort) && p.ipId == 0x1042
    ensures |p.payload| == 300 && forall k :: 0 <= k < 300 ==> p.payload[k] == 'C' as byte
  {
    UdpOnBase(UdpIpBase(target, ProbePort), 0x1042, seq(300, _ => 'C' as byte))
  }
}
