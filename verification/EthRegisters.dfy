/** The register bank of the Ethernet core: parameters by identifier, the MAC address in two
    registers, and the identifiers that the two enumerations number differently.

    Registers 7 to 14 are destination slots when written and timers and counters when read; the
    read side is the separate bank `status`. */
module EthRegisters {
  import opened Common
  import opened Bytes
  import opened AddressRoundTrips

  const ETH_REGISTERS := 20

  /** ETH_PARAM_ID, in the order of its numbering. */
  datatype Param =
    Mac | LocalIp | DestIp | SyncIp | GatewayIp | MaskIp | DestPort | SyncPort | PacketLength | EthControl

  /** The parameters that hold an IP address, and those that hold a port. */
  type IpParam = p: Param | p in {LocalIp, DestIp, SyncIp, GatewayIp, MaskIp} witness LocalIp
  type PortParam = p: Param | p in {DestPort, SyncPort} witness DestPort

  function ParamCode(p: Param): nat {
    match p
    case Mac => 0 case LocalIp => 1 case DestIp => 2 case SyncIp => 3 case GatewayIp => 4
    case MaskIp => 5 case DestPort => 6 case SyncPort => 7 case PacketLength => 8 case EthControl => 9
  }

  /** The ETH_REG_ID of the same name, where there is one. */
  function RegCode(p: Param): Option<nat> {
    match p
    case Mac => Some(0) case LocalIp => Some(1) case DestIp => Some(2) case GatewayIp => Some(3)
    case MaskIp => Some(4) case DestPort => Some(5) case PacketLength => Some(6) case EthControl => Some(15)
    case SyncIp => None case SyncPort => None
  }

  /** The registers write_eth_param stores to. The destination goes to five slots. */
  predicate StoresTo(p: Param, k: nat) {
    match p
    case LocalIp => k == 2
    case GatewayIp => k == 3
    case MaskIp => k == 4
    case DestIp => k in {5, 7, 9, 11, 13}
    case DestPort => k in {6, 8, 10, 12, 14}
    case EthControl => k == 15
    case SyncIp => k == 16
    case SyncPort => k == 17
    case PacketLength => k == 18
    case Mac => false
  }

  function AfterWrite(eth: seq<bv32>, p: Param, data: bv32): (e: seq<bv32>)
    requires |eth| == ETH_REGISTERS
    ensures |e| == ETH_REGISTERS
  {
    seq(ETH_REGISTERS, k requires 0 <= k < ETH_REGISTERS => if StoresTo(p, k) then data else eth[k])
  }

  const NO_REGISTER: bv32 := 0xFFFF_FFFF

  /** read_eth_param: the register with a given ETH_REG_ID number. */
  function ReadCode(eth: seq<bv32>, status: seq<bv32>, code: nat): bv32
    requires |eth| == |status| == ETH_REGISTERS
  {
    if code == 1 then eth[2]
    else if code == 3 then eth[3]
    else if code == 4 then eth[4]
    else if code == 2 then eth[5]
    else if code == 5 then eth[6]
    else if 7 <= code <= 14 then status[code]
    else if code == 15 then eth[15]
    else NO_REGISTER
  }

  predicate HasReadRegister(p: Param) {
    p in {LocalIp, DestIp, GatewayIp, MaskIp, DestPort, EthControl}
  }

  /** Reading with the matching identifier returns what was written last. */
  lemma ReadAfterWrite(eth: seq<bv32>, status: seq<bv32>, p: Param, q: Param, data: bv32)
    requires |eth| == |status| == ETH_REGISTERS && HasReadRegister(p)
    ensures ReadCode(AfterWrite(eth, q, data), status, RegCode(p).value)
         == if p == q then data else ReadCode(eth, status, RegCode(p).value)
  {
    match p {
      case LocalIp => assert StoresTo(q, 2) <==> p == q;
      case DestIp => assert StoresTo(q, 5) <==> p == q;
      case GatewayIp => assert StoresTo(q, 3) <==> p == q;
      case MaskIp => assert StoresTo(q, 4) <==> p == q;
      case DestPort => assert StoresTo(q, 6) <==> p == q;
      case EthControl => assert StoresTo(q, 15) <==> p == q;
    }
  }

  datatype ParamWrite = ParamWrite(param: Param, data: bv32)

  /** The registers after a run of write_eth_param calls. */
  function AfterWrites(eth: seq<bv32>, writes: seq<ParamWrite>): (e: seq<bv32>)
    requires |eth| == ETH_REGISTERS
    ensures |e| == ETH_REGISTERS
  {
    if writes == [] then eth
    else
      var last := writes[|writes| - 1];
      AfterWrite(AfterWrites(eth, writes[..|writes| - 1]), last.param, last.data)
  }

  function LastWritten(writes: seq<ParamWrite>, p: Param): Option<bv32> {
    if writes == [] then None
    else
      var last := writes[|writes| - 1];
      if last.param == p then Some(last.data) else LastWritten(writes[..|writes| - 1], p)
  }

  /** After any run of them, reading with the matching identifier returns the last value written for it: the addresses,
      the port and the control word. */
  lemma {:induction false} ReadAfterWrites(eth: seq<bv32>, status: seq<bv32>, writes: seq<ParamWrite>, p: Param)
    requires |eth| == |status| == ETH_REGISTERS && HasReadRegister(p)
    ensures ReadCode(AfterWrites(eth, writes), status, RegCode(p).value)
            == LastWritten(writes, p).GetOr(ReadCode(eth, status, RegCode(p).value))
  {
    hide AfterWrite, ReadCode;
    if writes != [] {
      var before, last := writes[..|writes| - 1], writes[|writes| - 1];
      ReadAfterWrites(eth, status, before, p);
      ReadAfterWrite(AfterWrites(eth, before), status, p, last.param, last.data);
    }
  }

  /** The two numberings agree for three parameters only. */
  lemma NumberingsAgreeIff(p: Param)
    ensures RegCode(p) == Some(ParamCode(p)) <==> p in {Mac, LocalIp, DestIp}
  {
  }

  /** What the three commands that pass the parameter's number instead of the register's really
      read: "getgip" the mask, "getmask" the destination port, "getport" no register at all. So each
      is right exactly when the two registers happen to hold the same. */
  lemma WrongIdentifierReads(eth: seq<bv32>, status: seq<bv32>)
    requires |eth| == |status| == ETH_REGISTERS
    ensures ReadCode(eth, status, ParamCode(GatewayIp)) == ReadCode(eth, status, RegCode(GatewayIp).value)
            <==> eth[4] == eth[3]
    ensures ReadCode(eth, status, ParamCode(MaskIp)) == ReadCode(eth, status, RegCode(MaskIp).value)
            <==> eth[6] == eth[4]
    ensures ReadCode(eth, status, ParamCode(DestPort)) == ReadCode(eth, status, RegCode(DestPort).value)
            <==> eth[6] == NO_REGISTER
  {
  }

  // ---- the MAC address ---------------------------------------------------------------------------

  /** `a<<16 | b<<8 | c`. */
  function Pack3(a: bv8, b: bv8, c: bv8): bv32 {
    (a as bv32 << 16) | (b as bv32 << 8) | c as bv32
  }

  function AfterWriteMac(eth: seq<bv32>, mac: seq<bv8>): (e: seq<bv32>)
    requires |eth| == ETH_REGISTERS && |mac| == 6
    ensures |e| == ETH_REGISTERS
  {
    eth[0 := Pack3(mac[0], mac[1], mac[2])][1 := Pack3(mac[3], mac[4], mac[5])]
  }

  /** The six octets read_eth_mac takes out of the two registers. */
  function MacOctets(d0: bv32, d1: bv32): seq<bv8> {
    [ByteOf(d0, 2), ByteOf(d0, 1), ByteOf(d0, 0), ByteOf(d1, 2), ByteOf(d1, 1), ByteOf(d1, 0)]
  }

  function HexText(octets: seq<bv8>): string {
    if octets == [] then "" else HexText(octets[..|octets| - 1]) + HexByte(octets[|octets| - 1])
  }

  lemma {:induction false} HexTextLength(octets: seq<bv8>)
    ensures |HexText(octets)| == 2 * |octets|
  {
    if octets != [] {
      HexTextLength(octets[..|octets| - 1]);
    }
  }

  lemma HexTextPush(octets: seq<bv8>, b: bv8)
    ensures HexText(octets + [b]) == HexText(octets) + HexByte(b)
  {
    assert (octets + [b])[..|octets|] == octets;
  }

  lemma HexTextOfOne(a: bv8)
    ensures HexText([a]) == HexByte(a)
  {
    hide HexByte;
    HexTextPush([], a);
    assert [] + [a] == [a];
  }

  lemma HexTextOfSix(a: bv8, b: bv8, c: bv8, d: bv8, e: bv8, f: bv8)
    ensures HexText([a, b, c, d, e, f])
            == HexByte(a) + HexByte(b) + HexByte(c) + HexByte(d) + HexByte(e) + HexByte(f)
  {
    hide HexByte, HexText;
    HexTextOfOne(a);
    HexTextPush([a], b);
    HexTextPush([a, b], c);
    HexTextPush([a, b, c], d);
    HexTextPush([a, b, c, d], e);
    HexTextPush([a, b, c, d, e], f);
    assert [a] + [b] == [a, b] && [a, b] + [c] == [a, b, c];
    assert [a, b, c] + [d] == [a, b, c, d] && [a, b, c, d] + [e] == [a, b, c, d, e];
    assert [a, b, c, d, e] + [f] == [a, b, c, d, e, f];
  }

  /** Octet `k` stands at digits 2k and 2k + 1. */
  lemma {:induction false} HexTextAt(octets: seq<bv8>, k: nat)
    requires k < |octets|
    ensures |HexText(octets)| == 2 * |octets| && HexText(octets)[2 * k..2 * k + 2] == HexByte(octets[k])
  {
    hide HexByte;
    var last := |octets| - 1;
    HexTextLength(octets);
    HexTextLength(octets[..last]);
    if k < last {
      HexTextAt(octets[..last], k);
    }
  }

  /** The text read_eth_mac prints into the caller's buffer. */
  function MacText(d0: bv32, d1: bv32): string { HexText(MacOctets(d0, d1)) }

  /** The bits initiate_sync and set_sync_off clear in register 0. */
  function LowBitCleared(d: bv32): bv32 { d & 0xFFFF_FFFE }

  lemma BytesOfPack3(a: bv8, b: bv8, c: bv8)
    ensures ByteOf(Pack3(a, b, c), 2) == a && ByteOf(Pack3(a, b, c), 1) == b && ByteOf(Pack3(a, b, c), 0) == c
  {
  }

  /** The number read_eth_mac returns, computed in 32-bit arithmetic before it is widened. */
  function MacNumber(d0: bv32, d1: bv32): bv64 {
    (((d0 & 0x00FF_FFFF) << 24) | (d1 & 0x00FF_FFFF)) as bv64
  }

  /** The 48-bit address. */
  function Mac48(d0: bv32, d1: bv32): bv64 {
    ((d0 as bv64 & 0x00FF_FFFF) << 24) | (d1 as bv64 & 0x00FF_FFFF)
  }

  lemma MacNumberIsLowWord(d0: bv32, d1: bv32)
    ensures MacNumber(d0, d1) == Mac48(d0, d1) & 0xFFFF_FFFF
  {
  }

  /** The shift drops the two leading octets: the number returned is the address exactly when they
      are zero. (Its only caller uses the text.) */
  lemma MacNumberRightIff(d0: bv32, d1: bv32)
    ensures MacNumber(d0, d1) == Mac48(d0, d1) <==> ByteOf(d0, 2) == 0 && ByteOf(d0, 1) == 0
  {
  }
}
