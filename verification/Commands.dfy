/** The register-writing commands of the command loop, as steps on the register banks. */
module Commands {
  import opened AddressText
  import opened AddressRoundTrips
  import opened AudioControl
  import opened Bytes
  import opened EthRegisters

  /** Write banks of the Ethernet core, the audio-to-Ethernet core, the time-sync core and the
      Ethernet-to-audio core. */
  datatype Banks = Banks(eth: seq<bv32>, audio: seq<bv32>, sync: seq<bv32>, dac: seq<bv32>)

  predicate Sized(b: Banks) {
    |b.eth| == ETH_REGISTERS && |b.audio| == 9 && |b.sync| == 9 && |b.dac| == 33
  }

  datatype Command =
    | AudioHelper(op: Op)       // areset, strtest*, strpktc*, strsnd*: one helper on the audio control word
    | DReset | CReset | FReset | RxRSync
    | SetSyncEn | SetSyncOff | SetSyncRst | SetSyncDly(delay: bv32) | SetSyncOn | TgSync
    | StrSelect                 // strselarm, strseleth
    | StrStart | StrStop | StrRxOn | StrRxStop | StrNsp(speed: nat)
    | StrMac(text: string)
    | SetIp(ip: IpParam, text: string)      // strlip, strdip, strsip, strgip, strmask
    | SetPort(portOf: PortParam, port: bv32) // strport, strsport
    | Other                     // any command that leaves these banks alone

  /** The text argument stays inside the parser's arrays. */
  predicate Legible(c: Command) {
    match c
    case StrMac(t) => Readable(t, 6)
    case SetIp(_, t) => Readable(t, 4)
    case _ => true
  }

  function IpOf(text: string): bv32 { PackIp(Octets(text, 10, 4)) }

  // ---- the bits of ETH_CONTROL ----------------------------------------------------------------------

  predicate SyncOn(w: bv32) { w & 1 != 0 }

  predicate TxOn(w: bv32) { w & 2 != 0 }

  predicate RxOn(w: bv32) { w & 4 != 0 }

  /** Bits 3 to 31. */
  function UpperBits(w: bv32): bv32 { w & 0xFFFF_FFF8 }

  // ---- the helpers ----------------------------------------------------------------------------------

  function WithParam(b: Banks, p: Param, data: bv32): (c: Banks)
    requires Sized(b)
    ensures Sized(c)
    ensures c.audio == b.audio && c.sync == b.sync && c.dac == b.dac
    ensures forall k :: 0 <= k < ETH_REGISTERS ==> c.eth[k] == if StoresTo(p, k) then data else b.eth[k]
  {
    b.(eth := AfterWrite(b.eth, p, data))
  }

  function WithControl(b: Banks, w: bv32): (c: Banks)
    requires Sized(b)
    ensures Sized(c)
    ensures c.eth[15] == w && forall k :: 0 <= k < ETH_REGISTERS && k != 15 ==> c.eth[k] == b.eth[k]
    ensures c.audio == b.audio
  {
    WithParam(b, EthControl, w)
  }

  function WithAudio(b: Banks, op: Op): (c: Banks)
    requires Sized(b)
    ensures Sized(c)
    ensures c.eth == b.eth && c.audio[0] == Written(op, b.audio[0])
  {
    b.(audio := b.audio[0 := Written(op, b.audio[0])])
  }

  function AfterResetDacFifos(b: Banks): (c: Banks)
    requires Sized(b)
    ensures Sized(c)
    ensures c.eth == b.eth && c.audio == b.audio
  {
    b.(dac := b.dac[0 := And(b.dac[0], 0xFFFF_FFFC)])
  }

  function AfterSetSyncRst(b: Banks): (c: Banks)
    requires Sized(b)
    ensures Sized(c)
    ensures c.eth == b.eth && c.audio == b.audio
  {
    b.(sync := b.sync[0 := And(b.sync[0], 0xFFFF_FFFD)])
  }

  function WithSync(b: Banks, k: nat, v: bv32): (c: Banks)
    requires Sized(b) && k < 9
    ensures Sized(c)
    ensures c.eth == b.eth && c.audio == b.audio
  {
    b.(sync := b.sync[k := v])
  }

  function WithSyncRequest(b: Banks, v: bv32): (c: Banks)
    requires Sized(b)
    ensures Sized(c)
    ensures c.eth == b.eth && c.audio[0] == b.audio[0]
  {
    b.(audio := b.audio[6 := v])
  }

  /** set_sync_off: register 0 it clears a bit of is the Ethernet core's, that is, the MAC's. */
  function AfterSetSyncOff(b: Banks): (c: Banks)
    requires Sized(b)
    ensures Sized(c)
    ensures c.eth == b.eth[0 := LowBitCleared(b.eth[0])] && c.audio[0] == b.audio[0]
  {
    WithSyncRequest(b, 0).(eth := b.eth[0 := LowBitCleared(b.eth[0])])
  }

  /** initiate_sync sets the low bit of the same register and then clears it. */
  function AfterInitiateSync(b: Banks): (c: Banks)
    requires Sized(b)
    ensures Sized(c)
    ensures c.eth == b.eth[0 := LowBitCleared(Or(b.eth[0], 1))] && c.audio[0] == b.audio[0]
  {
    WithSync(b, 0, 0).(eth := b.eth[0 := LowBitCleared(Or(b.eth[0], 1))])
  }

  /** The commands that pulse the core reset bit: they read the word once, write it with the bit
      set, then with the bit cleared. */
  function AfterCoreReset(b: Banks): (c: Banks)
    requires Sized(b)
    ensures Sized(c)
  {
    WithControl(b, And(b.eth[15], 0xFFFF_FFFD))
  }

  function AfterDReset(b: Banks): (c: Banks)
    requires Sized(b)
    ensures Sized(c)
    ensures c.eth[15] == Or(And(b.eth[15], 0xFFFF_FFFE), 1)
    ensures c.audio == b.audio && forall k :: 0 <= k < ETH_REGISTERS && k != 15 ==> c.eth[k] == b.eth[k]
  {
    var off := WithControl(b, And(b.eth[15], 0xFFFF_FFFE));
    var synced := WithSync(AfterSetSyncRst(WithSync(off, 0, 0)), 0, 1);
    AfterResetDacFifos(WithControl(synced, Or(synced.eth[15], 1)))
  }

  function AfterStrNsp(b: Banks, speed: nat): (c: Banks)
    requires Sized(b)
    ensures Sized(c)
    ensures c.audio == b.audio && forall k :: 0 <= k < ETH_REGISTERS && k != 15 ==> c.eth[k] == b.eth[k]
  {
    match speed
    case 0 => WithControl(b, And(b.eth[15], 0xFFFF_FFF9))
    case 1 => WithControl(b, And(b.eth[15], 0xFFFF_FFFB))
    case 2 => WithControl(b, And(b.eth[15], 0xFFFF_FFFD))
    case _ => b
  }

  function Exec(c: Command, b: Banks): (d: Banks)
    requires Sized(b)
    ensures Sized(d)
  {
    match c
    case AudioHelper(op) => WithAudio(b, op)
    case DReset => AfterDReset(b)
    case CReset => AfterCoreReset(b)
    case FReset => AfterResetDacFifos(WithAudio(AfterCoreReset(b), ResetFifos))
    case RxRSync => AfterResetDacFifos(WithAudio(AfterCoreReset(b), ResetFifos))
    case SetSyncEn => var t := WithSync(b, 0, 1); WithControl(t, Or(b.eth[15], 1))
    case SetSyncOff => WithSync(b, 0, 0)
    case SetSyncRst => AfterSetSyncRst(b)
    case SetSyncDly(delay) => WithSync(b, 5, delay)
    case SetSyncOn => WithSyncRequest(AfterInitiateSync(b), 1)
    case TgSync => WithSyncRequest(AfterSetSyncOff(b), 1)
    case StrSelect => AfterResetDacFifos(b)
    case StrStart => WithAudio(WithControl(b, Or(b.eth[15], 2)), ResetFifos)
    case StrStop => WithControl(AfterSetSyncOff(b), And(b.eth[15], 0xFFFF_FFFD))
    case StrRxOn => WithControl(b, Or(b.eth[15], 4))
    case StrRxStop => WithControl(b, And(b.eth[15], 0xFFFF_FFFB))
    case StrNsp(speed) => AfterStrNsp(b, speed)
    case StrMac(t) => b.(eth := AfterWriteMac(b.eth, Octets(t, 16, 6)))
    case SetIp(p, t) => WithParam(b, p, IpOf(t))
    case SetPort(p, port) => WithParam(b, p, port)
    case Other => b
  }

  function Run(b: Banks, commands: seq<Command>): (d: Banks)
    requires Sized(b)
    ensures Sized(d)
  {
    if commands == [] then b
    else Exec(commands[|commands| - 1], Run(b, commands[..|commands| - 1]))
  }
}
