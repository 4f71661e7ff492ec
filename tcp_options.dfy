/** TCP options as the probes carry them, and their wire encoding:
    MSS, NOP and End-of-Option-List as in section 3.2 of RFC 9293, Window
    Scale as in section 2.2 of RFC 7323, Timestamps as in section 3.2 of
    RFC 7323 and SACK-Permitted as in section 2 of RFC 2018. */
module TcpOptions {
  import opened Wrappers

  newtype byte = x: int | 0 <= x < 256

  /** One entry of a scapy option list such as `('MSS', 1460)`. */
  datatype TcpOption =
    | Nop
    | Mss(mss: int)
    | WScale(shift: int)
    | Timestamp(tsval: int, tsecr: int)
    | SAckOK
    | Eol

  /** The option's values fit the fields of its wire format. */
  predicate Encodable(o: TcpOption)
  {
    match o
    case Mss(v) => 0 <= v < 0x1_0000
    case WScale(v) => 0 <= v < 0x100
    case Timestamp(a, b) => 0 <= a < 0x1_0000_0000 && 0 <= b < 0x1_0000_0000
    case _ => true
  }

  predicate AllEncodable(os: seq<TcpOption>)
  {
    forall i :: 0 <= i < |os| ==> Encodable(os[i])
  }

  /** Big-endian 16- and 32-bit fields. */
  function Be16(v: int): seq<byte>
    requires 0 <= v < 0x1_0000
  {
    [(v / 0x100) as byte, (v % 0x100) as byte]
  }

  function Be32(v: int): seq<byte>
    requires 0 <= v < 0x1_0000_0000
  {
    Be16(v / 0x1_0000) + Be16(v % 0x1_0000)
  }

  function ReadBe16(bs: seq<byte>): int
    requires |bs| >= 2
  {
    bs[0] as int * 0x100 + bs[1] as int
  }

  function ReadBe32(bs: seq<byte>): int
    requires |bs| >= 4
  {
    ReadBe16(bs) * 0x1_0000 + ReadBe16(bs[2..])
  }

  lemma Be16RoundTrip(v: int)
    requires 0 <= v < 0x1_0000
    ensures ReadBe16(Be16(v)) == v
  {
  }

  lemma Be32RoundTrip(v: int)
    requires 0 <= v < 0x1_0000_0000
    ensures ReadBe32(Be32(v)) == v
  {
    Be16RoundTrip(v / 0x1_0000);
    Be16RoundTrip(v % 0x1_0000);
    assert Be32(v)[2..] == Be16(v % 0x1_0000);
  }

  /** Kind byte, length byte (when the option has one) and value. */
  function EncodeOption(o: TcpOption): (bs: seq<byte>)
    requires Encodable(o)
    ensures |bs| >= 1 && (o.Nop? || o.Eol? ==> |bs| == 1)
    ensures |bs| > 1 ==> bs[1] as int == |bs|
  {
    match o
    case Eol => [0]
    case Nop => [1]
    case Mss(v) => [2, 4] + Be16(v)
    case WScale(v) => [3, 3, v as byte]
    case SAckOK => [4, 2]
    case Timestamp(a, b) => [8, 10] + Be32(a) + Be32(b)
  }

  /** The options one after another, in list order. */
  function EncodeOptions(os: seq<TcpOption>): seq<byte>
    requires AllEncodable(os)
  {
    if os == [] then [] else EncodeOption(os[0]) + EncodeOptions(os[1..])
  }

  lemma EncodeCons(o: TcpOption, os: seq<TcpOption>)
    requires Encodable(o) && AllEncodable(os)
    ensures AllEncodable([o] + os)
    ensures EncodeOptions([o] + os) == EncodeOption(o) + EncodeOptions(os)
  {
    assert ([o] + os)[1..] == os;
  }

  /** Reads one option off the front of `bs`, with the number of bytes it
      took; unknown kinds and wrong length bytes are rejected. */
  function DecodeOption(bs: seq<byte>): (r: Option<(TcpOption, nat)>)
    ensures r.Some? ==> 1 <= r.value.1 <= |bs|
  {
    if bs == [] then None
    else if bs[0] == 0 then Some((Eol, 1))
    else if bs[0] == 1 then Some((Nop, 1))
    else if |bs| < 2 then None
    else if bs[0] == 2 && bs[1] == 4 && |bs| >= 4 then Some((Mss(ReadBe16(bs[2..])), 4))
    else if bs[0] == 3 && bs[1] == 3 && |bs| >= 3 then Some((WScale(bs[2] as int), 3))
    else if bs[0] == 4 && bs[1] == 2 then Some((SAckOK, 2))
    else if bs[0] == 8 && bs[1] == 10 && |bs| >= 10 then Some((Timestamp(ReadBe32(bs[2..]), ReadBe32(bs[6..])), 10))
    else None
  }

  function DecodeOptions(bs: seq<byte>): Option<seq<TcpOption>>
    decreases |bs|
  {
    if bs == [] then Some([])
    else
      match DecodeOption(bs)
      case None => None
      case Some((o, n)) =>
        match DecodeOptions(bs[n..])
        case None => None
        case Some(rest) => Some([o] + rest)
  }

  lemma DecodeEncodedTimestamp(a: int, b: int, rest: seq<byte>)
    requires Encodable(Timestamp(a, b))
    ensures DecodeOption(EncodeOption(Timestamp(a, b)) + rest) == Some((Timestamp(a, b), 10))
  {
    var bs := EncodeOption(Timestamp(a, b)) + rest;
    Be32RoundTrip(a);
    Be32RoundTrip(b);
    assert bs[2..][..4] == Be32(a);
    assert bs[6..][..4] == Be32(b);
    assert ReadBe32(bs[2..]) == a;
    assert ReadBe32(bs[6..]) == b;
  }

  lemma DecodeEncodedOption(o: TcpOption, rest: seq<byte>)
    requires Encodable(o)
    ensures DecodeOption(EncodeOption(o) + rest) == Some((o, |EncodeOption(o)|))
  {
    match o
    case Mss(v) =>
      Be16RoundTrip(v);
      assert (EncodeOption(o) + rest)[2..][..2] == Be16(v);
    case Timestamp(a, b) =>
      DecodeEncodedTimestamp(a, b, rest);
    case _ =>
  }

  /** Decoding the encoding of any encodable option list gives it back:
      the encoding loses neither options nor their order. */
  lemma {:induction false} OptionsRoundTrip(os: seq<TcpOption>)
    requires AllEncodable(os)
    ensures DecodeOptions(EncodeOptions(os)) == Some(os)
  {
    if os != [] {
      var head, tail := EncodeOption(os[0]), EncodeOptions(os[1..]);
      DecodeEncodedOption(os[0], tail);
      assert (head + tail)[|head|..] == tail;
      OptionsRoundTrip(os[1..]);
      assert [os[0]] + os[1..] == os;
    }
  }
}
