/** What every run of commands keeps. */
module CommandProofs {
  import opened Common
  import opened AddressText
  import opened AddressRoundTrips
  import opened AudioControl
  import opened Bytes
  import opened EthRegisters
  import opened Commands

  /** The latest effect of the commands on something, if any of them has one. */
  function Latest<T>(commands: seq<Command>, effect: Command -> Option<T>): Option<T> {
    if commands == [] then None
    else
      match effect(commands[|commands| - 1])
      case Some(v) => Some(v)
      case None => Latest(commands[..|commands| - 1], effect)
  }

  // ---- ETH_CONTROL -------------------------------------------------------------------------------

  /** What a command does to a bit. */
  datatype Switch = On | Off | Keep {
    predicate After(before: bool) {
      match this
      case On => true
      case Off => false
      case Keep => before
    }
  }

  /** The latest command that switches the bit decides; `Keep` if there is none. */
  function LatestSwitch(commands: seq<Command>, effect: Command -> Switch): Switch {
    if commands == [] then Keep
    else
      match effect(commands[|commands| - 1])
      case On => On
      case Off => Off
      case Keep => LatestSwitch(commands[..|commands| - 1], effect)
  }

  /** Which commands start and stop transmission. */
  function TxEffect(c: Command): Switch {
    match c
    case StrStart => On
    case StrStop => Off
    case CReset => Off
    case FReset => Off
    case RxRSync => Off
    case StrNsp(speed) => if speed == 0 || speed == 2 then Off else Keep
    case _ => Keep
  }

  function RxEffect(c: Command): Switch {
    match c
    case StrRxOn => On
    case StrRxStop => Off
    case StrNsp(speed) => if speed == 0 || speed == 1 then Off else Keep
    case _ => Keep
  }

  /** Nothing switches time sync off for good: "dreset" clears the bit and sets it again. */
  function SyncEffect(c: Command): Switch {
    match c
    case SetSyncEn => On
    case DReset => On
    case _ => Keep
  }

  predicate ControlIs(w: bv32, tx: bool, rx: bool, sync: bool, upper: bv32) {
    TxOn(w) == tx && RxOn(w) == rx && SyncOn(w) == sync && UpperBits(w) == upper
  }

  lemma SettingTx(w: bv32)
    ensures TxOn(Or(w, 2))
    ensures RxOn(Or(w, 2)) == RxOn(w)
    ensures SyncOn(Or(w, 2)) == SyncOn(w)
    ensures UpperBits(Or(w, 2)) == UpperBits(w)
  {
  }

  lemma ClearingTx(w: bv32)
    ensures !TxOn(And(w, 0xFFFF_FFFD))
    ensures RxOn(And(w, 0xFFFF_FFFD)) == RxOn(w)
    ensures SyncOn(And(w, 0xFFFF_FFFD)) == SyncOn(w)
    ensures UpperBits(And(w, 0xFFFF_FFFD)) == UpperBits(w)
  {
  }

  lemma SettingRx(w: bv32)
    ensures TxOn(Or(w, 4)) == TxOn(w)
    ensures RxOn(Or(w, 4))
    ensures SyncOn(Or(w, 4)) == SyncOn(w)
    ensures UpperBits(Or(w, 4)) == UpperBits(w)
  {
  }

  lemma ClearingRx(w: bv32)
    ensures TxOn(And(w, 0xFFFF_FFFB)) == TxOn(w)
    ensures !RxOn(And(w, 0xFFFF_FFFB))
    ensures SyncOn(And(w, 0xFFFF_FFFB)) == SyncOn(w)
    ensures UpperBits(And(w, 0xFFFF_FFFB)) == UpperBits(w)
  {
  }

  lemma ClearingTxAndRx(w: bv32)
    ensures !TxOn(And(w, 0xFFFF_FFF9))
    ensures !RxOn(And(w, 0xFFFF_FFF9))
    ensures SyncOn(And(w, 0xFFFF_FFF9)) == SyncOn(w)
    ensures UpperBits(And(w, 0xFFFF_FFF9)) == UpperBits(w)
  {
  }

  lemma SettingSync(w: bv32)
    ensures TxOn(Or(w, 1)) == TxOn(w)
    ensures RxOn(Or(w, 1)) == RxOn(w)
    ensures SyncOn(Or(w, 1))
    ensures UpperBits(Or(w, 1)) == UpperBits(w)
  {
  }

  lemma ClearingSync(w: bv32)
    ensures TxOn(And(w, 0xFFFF_FFFE)) == TxOn(w)
    ensures RxOn(And(w, 0xFFFF_FFFE)) == RxOn(w)
    ensures !SyncOn(And(w, 0xFFFF_FFFE))
    ensures UpperBits(And(w, 0xFFFF_FFFE)) == UpperBits(w)
  {
  }

  /** The edits of the control word the commands are made of. */
  datatype Edit = StartTx | StopTx | StartRx | StopRx | StopBoth | StartSync | RestartSync | NoEdit

  function EditOf(c: Command): Edit {
    match c
    case StrStart => StartTx
    case StrStop => StopTx
    case CReset => StopTx
    case FReset => StopTx
    case RxRSync => StopTx
    case StrRxOn => StartRx
    case StrRxStop => StopRx
    case StrNsp(speed) =>
      if speed == 0 then StopBoth else if speed == 1 then StopRx else if speed == 2 then StopTx else NoEdit
    case SetSyncEn => StartSync
    case DReset => RestartSync
    case _ => NoEdit
  }

  function Edited(e: Edit, w: bv32): bv32 {
    match e
    case StartTx => Or(w, 2)
    case StopTx => And(w, 0xFFFF_FFFD)
    case StartRx => Or(w, 4)
    case StopRx => And(w, 0xFFFF_FFFB)
    case StopBoth => And(w, 0xFFFF_FFF9)
    case StartSync => Or(w, 1)
    case RestartSync => Or(And(w, 0xFFFF_FFFE), 1)
    case NoEdit => w
  }

  predicate EditIs(e: Edit, w: bv32, tx: bool, rx: bool, sync: bool) {
    ControlIs(Edited(e, w), tx, rx, sync, UpperBits(w))
  }

  lemma EditBits(w: bv32)
    ensures EditIs(StartTx, w, true, RxOn(w), SyncOn(w)) && EditIs(StopTx, w, false, RxOn(w), SyncOn(w))
    ensures EditIs(StartRx, w, TxOn(w), true, SyncOn(w)) && EditIs(StopRx, w, TxOn(w), false, SyncOn(w))
    ensures EditIs(StopBoth, w, false, false, SyncOn(w)) && EditIs(NoEdit, w, TxOn(w), RxOn(w), SyncOn(w))
    ensures EditIs(StartSync, w, TxOn(w), RxOn(w), true) && EditIs(RestartSync, w, TxOn(w), RxOn(w), true)
  {
    hide Or, And, TxOn, RxOn, SyncOn, UpperBits;
    SettingTx(w);
    ClearingTx(w);
    SettingRx(w);
    ClearingRx(w);
    ClearingTxAndRx(w);
    SettingSync(w);
    ClearingSync(w);
    SettingSync(And(w, 0xFFFF_FFFE));
  }

  lemma ExecEditsControlWord(c: Command, b: Banks)
    requires Sized(b)
    ensures Exec(c, b).eth[15] == Edited(EditOf(c), b.eth[15])
  {
    hide Or, And, Octets, IpOf, Written, LowBitCleared, Pack3, AfterWrite;
    hide WithAudio, AfterResetDacFifos, AfterSetSyncRst, WithSync, WithSyncRequest, AfterSetSyncOff,
      AfterInitiateSync, WithControl, WithParam, AfterDReset, AfterStrNsp;
    if c.StrNsp? {
      NspEditsControlWord(b, c.speed);
    }
  }

  lemma NspEditsControlWord(b: Banks, speed: nat)
    requires Sized(b)
    ensures AfterStrNsp(b, speed).eth[15] == Edited(EditOf(StrNsp(speed)), b.eth[15])
  {
    hide Or, And, WithControl;
  }

  lemma ExecControl(c: Command, b: Banks)
    requires Sized(b)
    ensures var w := b.eth[15];
            ControlIs(Exec(c, b).eth[15], TxEffect(c).After(TxOn(w)), RxEffect(c).After(RxOn(w)),
                      SyncEffect(c).After(SyncOn(w)), UpperBits(w))
  {
    hide Exec, Edited, ControlIs, TxOn, RxOn, SyncOn, UpperBits;
    ExecEditsControlWord(c, b);
    EditBits(b.eth[15]);
  }

  /** ETH_CONTROL over whole runs: each bit is what the latest command with an effect on it said,
      and bits 3 to 31 never change. */
  lemma {:induction false} ControlFollowsLatest(b: Banks, commands: seq<Command>)
    requires Sized(b)
    ensures var w := b.eth[15];
            ControlIs(Run(b, commands).eth[15],
                      LatestSwitch(commands, TxEffect).After(TxOn(w)),
                      LatestSwitch(commands, RxEffect).After(RxOn(w)),
                      LatestSwitch(commands, SyncEffect).After(SyncOn(w)), UpperBits(w))
  {
    hide Exec, TxOn, RxOn, SyncOn, UpperBits, TxEffect, RxEffect, SyncEffect;
    if commands != [] {
      var before := commands[..|commands| - 1];
      ControlFollowsLatest(b, before);
      ExecControl(commands[|commands| - 1], Run(b, before));
    }
  }

  /** The same by the numbers of the bits: bit 0 is the sync, bit 1 the sending and bit 2 the receiving bit. */
  lemma ControlByNumber(b: Banks, commands: seq<Command>)
    requires Sized(b)
    ensures var before, after := b.eth[15], Run(b, commands).eth[15];
            && (after & 1 != 0) == LatestSwitch(commands, SyncEffect).After(before & 1 != 0)
            && (after & 2 != 0) == LatestSwitch(commands, TxEffect).After(before & 2 != 0)
            && (after & 4 != 0) == LatestSwitch(commands, RxEffect).After(before & 4 != 0)
            && after & 0xFFFF_FFF8 == before & 0xFFFF_FFF8
  {
    hide Run, LatestSwitch;
    ControlFollowsLatest(b, commands);
  }

  /** The sync bit is set from the first completed "setsyncen" or "dreset" on, for ever. */
  lemma {:induction false} SyncBitIsSticky(b: Banks, commands: seq<Command>)
    requires Sized(b)
    ensures SyncOn(Run(b, commands).eth[15])
            <==> SyncOn(b.eth[15]) || SetSyncEn in commands || DReset in commands
  {
    hide Exec, TxOn, RxOn, SyncOn, UpperBits;
    if commands != [] {
      var before, c := commands[..|commands| - 1], commands[|commands| - 1];
      SyncBitIsSticky(b, before);
      ExecControl(c, Run(b, before));
      assert commands == before + [c];
    }
  }

  // ---- addresses, ports and the destination slots ----------------------------------------------------

  /** What a command stores to a parameter. */
  function Stores(c: Command, p: Param): Option<bv32> {
    match c
    case SetIp(q, t) => if p == q then Some(IpOf(t)) else None
    case SetPort(q, port) => if p == q then Some(port) else None
    case _ => None
  }

  predicate IsSetting(p: Param) { p !in {Mac, EthControl} }

  lemma OneParamPerRegister(p: Param, q: Param, k: nat)
    requires StoresTo(p, k) && IsSetting(p)
    ensures (StoresTo(q, k) <==> p == q) && 2 <= k && k != 15
  {
  }

  lemma ExecSettings(c: Command, b: Banks, p: Param, k: nat)
    requires Sized(b) && k < ETH_REGISTERS && IsSetting(p) && StoresTo(p, k)
    ensures Exec(c, b).eth[k] == Stores(c, p).GetOr(b.eth[k])
  {
    hide Or, And, Octets, IpOf, Written, LowBitCleared, Pack3, AfterWrite;
    hide StoresTo, WithAudio, AfterResetDacFifos, AfterSetSyncRst, WithSync, WithSyncRequest, AfterSetSyncOff,
      AfterInitiateSync, WithControl, WithParam, AfterDReset, AfterStrNsp;
    OneParamPerRegister(p, p, k);
    if c.SetIp? {
      OneParamPerRegister(p, c.ip, k);
    } else if c.SetPort? {
      OneParamPerRegister(p, c.portOf, k);
    }
  }

  /** Every register of a parameter holds what the latest command storing to that parameter gave
      it; in particular the five destination slots always agree on address and port. */
  lemma {:induction false} SettingsFollowLatest(b: Banks, commands: seq<Command>, p: Param, k: nat)
    requires Sized(b) && k < ETH_REGISTERS && IsSetting(p) && StoresTo(p, k)
    ensures Run(b, commands).eth[k] == Latest(commands, c => Stores(c, p)).GetOr(b.eth[k])
  {
    hide Exec, Stores, StoresTo;
    if commands != [] {
      var before := commands[..|commands| - 1];
      SettingsFollowLatest(b, before, p, k);
      ExecSettings(commands[|commands| - 1], Run(b, before), p, k);
    }
  }

  lemma SlotRegisters(slot: nat)
    requires slot < 5
    ensures StoresTo(DestIp, 5 + 2 * slot) && StoresTo(DestPort, 6 + 2 * slot)
  {
  }

  lemma {:induction false} DestinationSlotsCoherent(b: Banks, commands: seq<Command>, slot: nat)
    requires Sized(b) && slot < 5
    ensures Latest(commands, c => Stores(c, DestIp)).Some? ==>
              Run(b, commands).eth[5 + 2 * slot] == Latest(commands, c => Stores(c, DestIp)).value
    ensures Latest(commands, c => Stores(c, DestPort)).Some? ==>
              Run(b, commands).eth[6 + 2 * slot] == Latest(commands, c => Stores(c, DestPort)).value
  {
    hide Run, Latest, Stores, StoresTo;
    SlotRegisters(slot);
    SettingsFollowLatest(b, commands, DestIp, 5 + 2 * slot);
    SettingsFollowLatest(b, commands, DestPort, 6 + 2 * slot);
  }

  /** From text to text: after any run in which "strlip" or "strdip" was last given a dotted quad,
      "getlip" or "getdip" prints that quad. */
  lemma {:induction false} AddressReadsBack(
    b: Banks, commands: seq<Command>, status: seq<bv32>, p: Param, fields: seq<string>)
    requires Sized(b) && |status| == ETH_REGISTERS && p in {LocalIp, DestIp} && DottedQuad(fields)
    requires Latest(commands, c => Stores(c, p)) == Some(IpOf(Join(fields)))
    ensures PrintIp(ReadCode(Run(b, commands).eth, status, ParamCode(p))) == Join(fields)
  {
    hide DottedQuad, Join, PrintIp, Octets, PackIp;
    SettingsFollowLatest(b, commands, LocalIp, 2);
    SettingsFollowLatest(b, commands, DestIp, 5);
    DottedQuadSurvivesParseAndPrint(fields);
  }

  /** Reading with the matching identifier, after any run: the latest value stored. */
  lemma ReadsLatest(b: Banks, commands: seq<Command>, status: seq<bv32>, p: Param)
    requires Sized(b) && |status| == ETH_REGISTERS && HasReadRegister(p) && IsSetting(p)
    ensures ReadCode(Run(b, commands).eth, status, RegCode(p).value)
            == Latest(commands, c => Stores(c, p)).GetOr(ReadCode(b.eth, status, RegCode(p).value))
  {
    hide Run, Latest, Stores, StoresTo;
    HomeRegisters();
    match p
    case LocalIp => SettingsFollowLatest(b, commands, p, 2);
    case GatewayIp => SettingsFollowLatest(b, commands, p, 3);
    case MaskIp => SettingsFollowLatest(b, commands, p, 4);
    case DestIp => SettingsFollowLatest(b, commands, p, 5);
    case DestPort => SettingsFollowLatest(b, commands, p, 6);
  }

  lemma HomeRegisters()
    ensures StoresTo(LocalIp, 2) && StoresTo(GatewayIp, 3) && StoresTo(MaskIp, 4)
    ensures StoresTo(DestIp, 5) && StoresTo(DestPort, 6) && StoresTo(SyncIp, 16) && StoresTo(SyncPort, 17)
  {
  }

  lemma ExecSparesRest(c: Command, b: Banks, k: nat)
    requires Sized(b) && 18 <= k < ETH_REGISTERS
    ensures Exec(c, b).eth[k] == b.eth[k]
  {
    hide Or, And, IpOf, Written, LowBitCleared, Pack3;
  }

  /** The registers with one address or port each, by their numbers: 2 the local address, 3 the gateway, 4 the mask, 16
      the address and 17 the port of the time synchronisation. No command reaches the two registers above. */
  lemma {:induction false} RegistersByNumber(b: Banks, commands: seq<Command>)
    requires Sized(b)
    ensures var e := Run(b, commands).eth;
            && e[2] == Latest(commands, c => Stores(c, LocalIp)).GetOr(b.eth[2])
            && e[3] == Latest(commands, c => Stores(c, GatewayIp)).GetOr(b.eth[3])
            && e[4] == Latest(commands, c => Stores(c, MaskIp)).GetOr(b.eth[4])
            && e[16] == Latest(commands, c => Stores(c, SyncIp)).GetOr(b.eth[16])
            && e[17] == Latest(commands, c => Stores(c, SyncPort)).GetOr(b.eth[17])
    ensures forall k :: 18 <= k < ETH_REGISTERS ==> Run(b, commands).eth[k] == b.eth[k]
  {
    hide Exec, Latest, Stores, StoresTo;
    HomeRegisters();
    SettingsFollowLatest(b, commands, LocalIp, 2);
    SettingsFollowLatest(b, commands, GatewayIp, 3);
    SettingsFollowLatest(b, commands, MaskIp, 4);
    SettingsFollowLatest(b, commands, SyncIp, 16);
    SettingsFollowLatest(b, commands, SyncPort, 17);
    if commands != [] {
      var before, c := commands[..|commands| - 1], commands[|commands| - 1];
      RegistersByNumber(b, before);
      forall k | 18 <= k < ETH_REGISTERS
        ensures Exec(c, Run(b, before)).eth[k] == Run(b, before).eth[k]
      {
        ExecSparesRest(c, Run(b, before), k);
      }
    }
  }

  /** What "getgip", "getmask" and "getport" read after any run: the latest mask, the latest destination port, and no
      register, whatever was stored to the gateway, the mask and the port. */
  lemma WrongIdentifierReadsLatest(b: Banks, commands: seq<Command>, status: seq<bv32>)
    requires Sized(b) && |status| == ETH_REGISTERS
    ensures ReadCode(Run(b, commands).eth, status, ParamCode(GatewayIp))
            == Latest(commands, c => Stores(c, MaskIp)).GetOr(b.eth[4])
    ensures ReadCode(Run(b, commands).eth, status, ParamCode(MaskIp))
            == Latest(commands, c => Stores(c, DestPort)).GetOr(b.eth[6])
    ensures ReadCode(Run(b, commands).eth, status, ParamCode(DestPort)) == NO_REGISTER
  {
    hide Run, Latest, Stores, StoresTo;
    HomeRegisters();
    SettingsFollowLatest(b, commands, MaskIp, 4);
    SettingsFollowLatest(b, commands, DestPort, 6);
  }

  // ---- the MAC address ---------------------------------------------------------------------------------

  /** Commands that synchronise: they write to register 0. */
  predicate TouchesMac(c: Command) { c in {SetSyncOn, TgSync, StrStop} }

  lemma ExecMac(c: Command, b: Banks)
    requires Sized(b) && !c.StrMac?
    ensures var e := Exec(c, b).eth;
            e[0] == (if TouchesMac(c) then LowBitCleared(b.eth[0]) else b.eth[0]) && e[1] == b.eth[1]
  {
    hide Or, And, Octets, IpOf, Written, LowBitCleared, Pack3, AfterWrite;
    hide WithAudio, AfterResetDacFifos, AfterSetSyncRst, WithSync, WithSyncRequest, AfterSetSyncOff,
      AfterInitiateSync, WithControl, WithParam, AfterDReset, AfterStrNsp;
    OrThenCleared(b.eth[0]);
  }

  lemma OrThenCleared(d: bv32)
    ensures LowBitCleared(Or(d, 1)) == LowBitCleared(d)
    ensures LowBitCleared(LowBitCleared(d)) == LowBitCleared(d)
  {
  }

  predicate NoStrMac(commands: seq<Command>) {
    forall k :: 0 <= k < |commands| ==> !commands[k].StrMac?
  }

  predicate AnySyncTraffic(commands: seq<Command>) {
    exists k :: 0 <= k < |commands| && TouchesMac(commands[k])
  }

  lemma {:induction false} MacRegisters(b: Banks, commands: seq<Command>)
    requires Sized(b) && NoStrMac(commands)
    ensures var e := Run(b, commands).eth;
            e[0] == (if AnySyncTraffic(commands) then LowBitCleared(b.eth[0]) else b.eth[0]) && e[1] == b.eth[1]
  {
    hide Exec, LowBitCleared, TouchesMac;
    if commands != [] {
      var before, c := commands[..|commands| - 1], commands[|commands| - 1];
      MacRegisters(b, before);
      ExecMac(c, Run(b, before));
      OrThenCleared(b.eth[0]);
      assert AnySyncTraffic(commands) <==> AnySyncTraffic(before) || TouchesMac(c) by {
        if AnySyncTraffic(before) {
          var k :| 0 <= k < |before| && TouchesMac(before[k]);
          assert TouchesMac(commands[k]);
        }
        if AnySyncTraffic(commands) {
          var k :| 0 <= k < |commands| && TouchesMac(commands[k]);
          assert k < |before| ==> TouchesMac(before[k]);
        }
        assert commands[|before|] == c;
      }
    }
  }

  function MadeEven(octet: bv8): bv8 { octet & 0xFE }

  /** The octets of the address as sync traffic leaves them. */
  function AsLeft(mac: seq<bv8>, traffic: bool): seq<bv8>
    requires |mac| == 6
  {
    if traffic then mac[2 := MadeEven(mac[2])] else mac
  }

  /** The MAC round trip: after "strmac" and any further commands without another "strmac",
      read_eth_mac prints the twelve hex digits of the six octets read, with the low bit of the
      third octet cleared once there has been sync traffic. */
  lemma MacReadsBack(b: Banks, text: string, commands: seq<Command>)
    requires Sized(b) && NoStrMac(commands)
    ensures var e := Run(Exec(StrMac(text), b), commands).eth;
            MacText(e[0], e[1]) == HexText(AsLeft(Octets(text, 16, 6), AnySyncTraffic(commands)))
  {
    hide Run, Exec, Octets, HexText, MacOctets, AsLeft, Pack3, LowBitCleared;
    StrMacRegisters(b, text);
    MacRegisters(Exec(StrMac(text), b), commands);
    OctetsAsLeft(Octets(text, 16, 6), AnySyncTraffic(commands));
  }

  lemma StrMacRegisters(b: Banks, text: string)
    requires Sized(b)
    ensures var e, mac := Exec(StrMac(text), b).eth, Octets(text, 16, 6);
            e[0] == Pack3(mac[0], mac[1], mac[2]) && e[1] == Pack3(mac[3], mac[4], mac[5])
  {
    hide Octets, Pack3;
  }

  lemma BytesOfClearedAddress(a: bv8, b: bv8, c: bv8)
    ensures LowBitCleared(Pack3(a, b, c)) == Pack3(a, b, MadeEven(c))
  {
  }

  lemma OctetsAsLeft(mac: seq<bv8>, traffic: bool)
    requires |mac| == 6
    ensures var d0, d1 := Pack3(mac[0], mac[1], mac[2]), Pack3(mac[3], mac[4], mac[5]);
            MacOctets(if traffic then LowBitCleared(d0) else d0, d1) == AsLeft(mac, traffic)
  {
    hide ByteOf, Pack3, LowBitCleared, MadeEven;
    BytesOfClearedAddress(mac[0], mac[1], mac[2]);
    BytesOfPack3(mac[0], mac[1], mac[2]);
    BytesOfPack3(mac[0], mac[1], MadeEven(mac[2]));
    BytesOfPack3(mac[3], mac[4], mac[5]);
  }

  lemma MacSurvivesIffEven(mac: seq<bv8>)
    requires |mac| == 6
    ensures AsLeft(mac, true) == mac <==> mac[2] & 1 == 0
  {
  }

  lemma HexByteTells(a: bv8, b: bv8)
    requires HexByte(a) == HexByte(b)
    ensures a == b
  {
    OctetOfHex(a);
    OctetOfHex(b);
  }

  /** Different octets print differently. */
  lemma HexTextTells(a: seq<bv8>, b: seq<bv8>)
    requires |a| == |b| && HexText(a) == HexText(b)
    ensures a == b
  {
    hide HexByte, HexText;
    forall k | 0 <= k < |a|
      ensures a[k] == b[k]
    {
      HexTextAt(a, k);
      HexTextAt(b, k);
      HexByteTells(a[k], b[k]);
    }
  }

  /** What "strmac" was given is what `read_eth_mac` prints after any further commands without another "strmac" if and
      only if none of them synchronised or the third octet is even. */
  lemma MacReadsBackIff(b: Banks, text: string, commands: seq<Command>)
    requires Sized(b) && NoStrMac(commands)
    ensures var e := Run(Exec(StrMac(text), b), commands).eth;
            MacText(e[0], e[1]) == HexText(Octets(text, 16, 6))
            <==> !AnySyncTraffic(commands) || Octets(text, 16, 6)[2] & 1 == 0
  {
    hide Run, Exec, Octets, HexText, MacText, AnySyncTraffic;
    var mac := Octets(text, 16, 6);
    MacReadsBack(b, text, commands);
    MacSurvivesIffEven(mac);
    if HexText(AsLeft(mac, AnySyncTraffic(commands))) == HexText(mac) {
      HexTextTells(AsLeft(mac, AnySyncTraffic(commands)), mac);
    }
  }

  // ---- the audio-to-Ethernet control word --------------------------------------------------------------

  /** The helper each command runs on the word, if any. */
  function AudioOp(c: Command): Option<Op> {
    match c
    case AudioHelper(op) => Some(op)
    case FReset => Some(ResetFifos)
    case RxRSync => Some(ResetFifos)
    case StrStart => Some(ResetFifos)
    case _ => None
  }

  function AudioOps(commands: seq<Command>): seq<Op> {
    if commands == [] then []
    else
      var before := AudioOps(commands[..|commands| - 1]);
      match AudioOp(commands[|commands| - 1])
      case Some(op) => before + [op]
      case None => before
  }

  lemma ExecAudio(c: Command, b: Banks)
    requires Sized(b)
    ensures Exec(c, b).audio[0] == match AudioOp(c) case Some(op) => Written(op, b.audio[0]) case None => b.audio[0]
  {
  }

  /** Command runs refine the record of independent fields: what any run of commands leaves in the
      audio-to-Ethernet control word is the run of record updates the commands stand for. */
  lemma {:induction false} AudioWordFollowsRecord(b: Banks, commands: seq<Command>)
    requires Sized(b)
    ensures Run(b, commands).audio[0] == RunWord(AudioOps(commands), b.audio[0])
    ensures BitFields(Run(b, commands).audio[0]) == RunRecord(AudioOps(commands), BitFields(b.audio[0]))
  {
    hide Exec, Written, BitFields, AudioOp;
    RunRefinesRecord(AudioOps(commands), b.audio[0]);
    if commands != [] {
      var before, c := commands[..|commands| - 1], commands[|commands| - 1];
      AudioWordFollowsRecord(b, before);
      ExecAudio(c, Run(b, before));
      if AudioOp(c).Some? {
        var ops := AudioOps(before);
        assert (ops + [AudioOp(c).value])[..|ops|] == ops;
      }
    }
  }
}
