/** The registers themselves and the helpers that read, mask and write them, in the order in which
    the program does; every helper is proved to leave what `Commands` specifies. */
module Board {
  import opened AddressText
  import opened AddressRoundTrips
  import opened AudioControl
  import opened Bytes
  import opened EthRegisters
  import opened Commands

  class Board {
    const eth: array<bv32>
    const audio: array<bv32>
    const sync: array<bv32>
    const dac: array<bv32>

    ghost predicate Valid()
      reads this
    {
      && eth.Length == ETH_REGISTERS && audio.Length == 9 && sync.Length == 9 && dac.Length == 33
      && eth != audio && eth != sync && eth != dac && audio != sync && audio != dac && sync != dac
    }

    ghost function Now(): (b: Banks)
      requires Valid()
      reads this, eth, audio, sync, dac
      ensures Sized(b)
    {
      Banks(eth[..], audio[..], sync[..], dac[..])
    }

    constructor ()
      ensures Valid() && fresh(eth) && fresh(audio) && fresh(sync) && fresh(dac)
    {
      eth := new bv32[ETH_REGISTERS](_ => 0);
      audio := new bv32[9](_ => 0);
      sync := new bv32[9](_ => 0);
      dac := new bv32[33](_ => 0);
    }

    method WriteEthParam(p: Param, data: bv32)
      requires Valid()
      modifies eth
      ensures eth[..] == AfterWrite(old(eth[..]), p, data)
    {
      match p
      case LocalIp => eth[2] := data;
      case GatewayIp => eth[3] := data;
      case MaskIp => eth[4] := data;
      case DestIp =>
        eth[5] := data;
        eth[7] := data;
        eth[9] := data;
        eth[11] := data;
        eth[13] := data;
      case DestPort =>
        eth[6] := data;
        eth[8] := data;
        eth[10] := data;
        eth[12] := data;
        eth[14] := data;
      case PacketLength => eth[18] := data;
      case EthControl => eth[15] := data;
      case SyncIp => eth[16] := data;
      case SyncPort => eth[17] := data;
      case Mac =>
    }

    method WriteControl(w: bv32)
      requires Valid()
      modifies eth
      ensures Now() == WithControl(old(Now()), w)
    {
      WriteEthParam(EthControl, w);
    }

    method WriteEthMac(mac: array<bv8>)
      requires Valid() && mac.Length == 6
      modifies eth
      ensures eth[..] == AfterWriteMac(old(eth[..]), mac[..])
    {
      eth[0] := Pack3(mac[0], mac[1], mac[2]);
      eth[1] := Pack3(mac[3], mac[4], mac[5]);
    }

    /** The text is what the caller's buffer receives: octet `k` of the address at digits 2k and 2k + 1. The number is
        what the function returns: the 48-bit address modulo 2^32. */
    method ReadEthMac() returns (text: string, number: bv64)
      requires Valid()
      ensures text == MacText(eth[0], eth[1]) && |text| == 12
      ensures forall k :: 0 <= k < 6 ==> text[2 * k..2 * k + 2] == HexByte(MacOctets(eth[0], eth[1])[k])
      ensures number == Mac48(eth[0], eth[1]) & 0xFFFF_FFFF
    {
      hide HexByte, HexText, ByteOf, Mac48, MacNumber;
      var d0, d1 := eth[0], eth[1];
      text := HexByte(ByteOf(d0, 2)) + HexByte(ByteOf(d0, 1)) + HexByte(ByteOf(d0, 0))
              + HexByte(ByteOf(d1, 2)) + HexByte(ByteOf(d1, 1)) + HexByte(ByteOf(d1, 0));
      number := MacNumber(d0, d1);
      HexTextOfSix(ByteOf(d0, 2), ByteOf(d0, 1), ByteOf(d0, 0), ByteOf(d1, 2), ByteOf(d1, 1), ByteOf(d1, 0));
      MacNumberIsLowWord(d0, d1);
      forall k | 0 <= k < 6
        ensures text[2 * k..2 * k + 2] == HexByte(MacOctets(eth[0], eth[1])[k])
      {
        HexTextAt(MacOctets(d0, d1), k);
      }
    }

    method StoreAudioControl(w: bv32)
      requires Valid()
      modifies audio
      ensures Now() == old(Now()).(audio := old(audio[..])[0 := w])
    {
      audio[0] := w;
    }

    /** The switch of set_test_mode puts the mode's number into its field, 0 for an unknown one, and keeps the rest. */
    method TestModeWord(d: bv32, mode: nat) returns (w: bv32)
      ensures BitFields(w) == BitFields(d).(mode := KnownMode(mode))
    {
      hide BitFields, KnownMode, Or, And;
      HelperIsRecordUpdate(TestMode(mode), d);
      OrNothing(And(d, 0xFFFF_F1FF));
      w := And(d, 0xFFFF_F1FF);
      if mode == 1 {
        w := Or(w, 0x0000_0200);
      } else if mode == 2 {
        w := Or(w, 0x0000_0400);
      } else if mode == 3 {
        w := Or(w, 0x0000_0600);
      } else if mode == 4 {
        w := Or(w, 0x0000_0800);
      }
    }

    /** The mask of each helper: it updates the helper's own field of the record and no other. */
    method HelperWord(op: Op, d: bv32) returns (w: bv32)
      ensures BitFields(w) == Updated(op, BitFields(d))
    {
      hide BitFields, KnownMode, Or, And;
      HelperIsRecordUpdate(op, d);
      match op
      case ResetFifos => w := And(d, 0xFFFF_FFFC);
      case TestOn => w := Or(d, 0x0000_0080);
      case TestOff => w := And(d, 0xFFFF_FF7F);
      case TestMode(mode) => w := TestModeWord(d, mode);
      case CountOn => w := Or(d, 0x0000_0040);
      case CountOff => w := And(d, 0xFFFF_FFBF);
      case SendOn => w := Or(d, 0x0000_0100);
      case SendOff => w := And(d, 0xFFFF_FEFF);
    }

    /** A helper on the audio-to-Ethernet control word updates one field of it and nothing else. reset_adc_fifos raises
        both reset bits before it clears them. */
    method RunHelper(op: Op)
      requires Valid()
      modifies audio
      ensures BitFields(audio[0]) == Updated(op, BitFields(old(audio[0])))
      ensures Now() == WithAudio(old(Now()), op)
    {
      hide BitFields, Updated, Or, Written;
      var d := audio[0];
      if op == ResetFifos {
        StoreAudioControl(Or(d, 0x0000_0003));
      }
      var w := HelperWord(op, d);
      HelperIsRecordUpdate(op, d);
      FieldsDetermine(w, Written(op, d));
      StoreAudioControl(w);
    }

    method ResetDacFifos()
      requires Valid()
      modifies dac
      ensures Now() == AfterResetDacFifos(old(Now()))
    {
      var d := dac[0];
      dac[0] := Or(d, 3);
      dac[0] := And(d, 0xFFFF_FFFC);
    }

    method SetSyncRst()
      requires Valid()
      modifies sync
      ensures Now() == AfterSetSyncRst(old(Now()))
    {
      var d := sync[0];
      sync[0] := Or(d, 2);
      sync[0] := And(d, 0xFFFF_FFFD);
    }

    /** time_sync_en, time_sync_off and set_sync_pkt_dly store to a register of the time-sync core. */
    method WriteSync(k: nat, v: bv32)
      requires Valid() && k < 9
      modifies sync
      ensures Now() == WithSync(old(Now()), k, v)
    {
      sync[k] := v;
    }

    method RequestSync(v: bv32)
      requires Valid()
      modifies audio
      ensures Now() == WithSyncRequest(old(Now()), v)
    {
      audio[6] := v;
    }

    method SetSyncOff()
      requires Valid()
      modifies audio, eth
      ensures Now() == AfterSetSyncOff(old(Now()))
    {
      RequestSync(0);
      var d := eth[0];
      eth[0] := LowBitCleared(d);
    }

    method InitiateSync()
      requires Valid()
      modifies sync, eth
      ensures Now() == AfterInitiateSync(old(Now()))
    {
      var d := eth[0];
      eth[0] := Or(d, 1);
      WriteSync(0, 1);
      d := eth[0];
      eth[0] := LowBitCleared(d);
      WriteSync(0, 0);
    }

    /** The body that "creset", "freset" and "rxrsync" begin with. */
    method ResetCore()
      requires Valid()
      modifies eth
      ensures Now() == AfterCoreReset(old(Now()))
    {
      var buf := eth[15];
      WriteControl(Or(buf, 2));
      WriteControl(And(buf, 0xFFFF_FFFD));
    }

    method DReset()
      requires Valid()
      modifies eth, sync, dac
      ensures Now() == AfterDReset(old(Now()))
    {
      WriteControl(And(eth[15], 0xFFFF_FFFE));
      WriteSync(0, 0);
      SetSyncRst();
      WriteSync(0, 1);
      WriteControl(Or(eth[15], 1));
      ResetDacFifos();
    }

    method StrNsp(speed: nat)
      requires Valid()
      modifies eth
      ensures Now() == AfterStrNsp(old(Now()), speed)
    {
      var buf := eth[15];
      if speed == 0 {
        WriteControl(And(buf, 0xFFFF_FFF9));
      } else if speed == 1 {
        WriteControl(And(buf, 0xFFFF_FFFB));
      } else if speed == 2 {
        WriteControl(And(buf, 0xFFFF_FFFD));
      }
    }

    method StrStop()
      requires Valid()
      modifies eth, audio
      ensures Now() == Exec(Command.StrStop, old(Now()))
    {
      var buf := eth[15];
      SetSyncOff();
      WriteControl(And(buf, 0xFFFF_FFFD));
    }

    method StrMac(text: string)
      requires Valid() && Readable(text, 6)
      modifies eth
      ensures Now() == Exec(Command.StrMac(text), old(Now()))
    {
      var mac := Extract(text, 16, 6);
      WriteEthMac(mac);
    }

    method SetIp(p: IpParam, text: string)
      requires Valid() && Readable(text, 4)
      modifies eth
      ensures Now() == Exec(Command.SetIp(p, text), old(Now()))
    {
      var ip := Extract(text, 10, 4);
      WriteEthParam(p, PackIp(ip[..]));
    }

    /** One pass of the command loop. */
    method Execute(c: Command)
      requires Valid() && Legible(c)
      modifies eth, audio, sync, dac
      ensures Now() == Exec(c, old(Now()))
    {
      match c
      case AudioHelper(op) => RunHelper(op);
      case DReset => DReset();
      case CReset => ResetCore();
      case FReset =>
        ResetCore();
        RunHelper(ResetFifos);
        ResetDacFifos();
      case RxRSync =>
        ResetCore();
        RunHelper(ResetFifos);
        ResetDacFifos();
      case SetSyncEn =>
        WriteSync(0, 1);
        WriteControl(Or(eth[15], 1));
      case SetSyncOff => WriteSync(0, 0);
      case SetSyncRst => SetSyncRst();
      case SetSyncDly(delay) => WriteSync(5, delay);
      case SetSyncOn =>
        InitiateSync();
        RequestSync(1);
      case TgSync =>
        SetSyncOff();
        RequestSync(1);
      case StrSelect => ResetDacFifos();
      case StrStart =>
        WriteControl(Or(eth[15], 2));
        RunHelper(ResetFifos);
      case StrStop => StrStop();
      case StrRxOn => WriteControl(Or(eth[15], 4));
      case StrRxStop => WriteControl(And(eth[15], 0xFFFF_FFFB));
      case StrNsp(speed) => StrNsp(speed);
      case StrMac(text) => StrMac(text);
      case SetIp(p, text) => SetIp(p, text);
      case SetPort(p, port) => WriteEthParam(p, port);
      case Other =>
    }

    /** The command loop on a script of commands. */
    method ExecuteAll(commands: seq<Command>)
      requires Valid() && forall k :: 0 <= k < |commands| ==> Legible(commands[k])
      modifies eth, audio, sync, dac
      ensures Now() == Run(old(Now()), commands)
    {
      for k := 0 to |commands|
        invariant Now() == Run(old(Now()), commands[..k])
      {
        assert commands[..k + 1][..k] == commands[..k];
        Execute(commands[k]);
      }
      assert commands[..|commands|] == commands;
    }
  }
}
