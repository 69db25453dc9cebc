/** The packet-time enforcer keeps its 64-bit limits in pairs of 32-bit registers. `unsigned long`
    is taken to be 64 bits wide. */
module PacketTimeLimits {
  import opened Bytes
  import opened Common

  datatype Limit = SpktToPkt | SpktToPktLocked | AccumPktToPkt | DiffPktToPkt

  /** The register that takes the low half; the high half goes to the next one. */
  function LowRegister(l: Limit): nat {
    match l
    case SpktToPkt => 3
    case AccumPktToPkt => 5
    case DiffPktToPkt => 16
    case SpktToPktLocked => 21
  }

  function Widened(low: bv32): bv64 { low as bv64 }

  function AfterSet(registers: seq<bv32>, l: Limit, data: bv64): (r: seq<bv32>)
    requires |registers| == 33
    ensures |r| == 33
  {
    registers[LowRegister(l) := LowWord(data)][LowRegister(l) + 1 := HighWord(data)]
  }

  function Reported(registers: seq<bv32>, l: Limit): bv64
    requires |registers| == 33
  {
    var low := registers[LowRegister(l)];
    if l == DiffPktToPkt then Widened(low) else Rejoined(registers[LowRegister(l) + 1], low)
  }

  datatype Setting = Setting(limit: Limit, data: bv64)

  function AfterAll(registers: seq<bv32>, settings: seq<Setting>): (r: seq<bv32>)
    requires |registers| == 33
    ensures |r| == 33
  {
    if settings == [] then registers
    else
      var s := settings[|settings| - 1];
      AfterSet(AfterAll(registers, settings[..|settings| - 1]), s.limit, s.data)
  }

  function Latest(settings: seq<Setting>, l: Limit): Option<bv64> {
    if settings == [] then None
    else
      var s := settings[|settings| - 1];
      if s.limit == l then Some(s.data) else Latest(settings[..|settings| - 1], l)
  }

  /** The low 32 bits of a value, as a value. */
  function Modulo32(data: bv64): bv64 { data & 0x0000_0000_FFFF_FFFF }

  lemma LowHalfIsModulo32(data: bv64)
    ensures Widened(LowWord(data)) == Modulo32(data)
  {
  }

  /** What a getter reports right after its own setter. */
  function Kept(l: Limit, data: bv64): bv64 {
    if l == DiffPktToPkt then Modulo32(data) else data
  }

  lemma ReportedAfterSet(registers: seq<bv32>, l: Limit, m: Limit, data: bv64)
    requires |registers| == 33
    ensures Reported(AfterSet(registers, m, data), l) == if l == m then Kept(l, data) else Reported(registers, l)
  {
    hide LowWord, HighWord, Rejoined, Widened, Modulo32;
    SplitRejoins(data);
    LowHalfIsModulo32(data);
  }

  /** However the setters interleave, each getter reports the last value given to its own limit,
      the difference limit only modulo 2^32. */
  lemma {:induction false} GettersReportLatest(registers: seq<bv32>, settings: seq<Setting>, l: Limit)
    requires |registers| == 33
    ensures Reported(AfterAll(registers, settings), l)
         == match Latest(settings, l) case None => Reported(registers, l) case Some(data) => Kept(l, data)
  {
    hide AfterSet, Reported, Kept;
    if settings != [] {
      var before, s := settings[..|settings| - 1], settings[|settings| - 1];
      GettersReportLatest(registers, before, l);
      ReportedAfterSet(AfterAll(registers, before), l, s.limit, s.data);
    }
  }

  /** Two registers hold the halves of the latest value given, and what they held before any. */
  predicate HoldsPair(now: seq<bv32>, before: seq<bv32>, k: nat, latest: Option<bv64>)
    requires |now| == |before| == 33 && k + 1 < 33
  {
    match latest
    case None => now[k] == before[k] && now[k + 1] == before[k + 1]
    case Some(data) => now[k] == LowWord(data) && now[k + 1] == HighWord(data)
  }

  /** A setter stores to its own pair and to nothing else. */
  lemma SetByNumber(registers: seq<bv32>, l: Limit, data: bv64, k: nat)
    requires |registers| == 33 && k < 33
    ensures var low := match l
                       case SpktToPkt => 3
                       case SpktToPktLocked => 21
                       case AccumPktToPkt => 5
                       case DiffPktToPkt => 16;
            AfterSet(registers, l, data)[k]
            == if k == low then LowWord(data) else if k == low + 1 then HighWord(data) else registers[k]
  {
  }

  /** The same, register by register: 3 and 4, 21 and 22, 5 and 6, 16 and 17 hold the low and the high half of the four
      limits, the difference limit's high half among them, and every other register keeps its value. */
  lemma {:induction false} RegistersByNumber(registers: seq<bv32>, settings: seq<Setting>)
    requires |registers| == 33
    ensures var now := AfterAll(registers, settings);
            && HoldsPair(now, registers, 3, Latest(settings, SpktToPkt))
            && HoldsPair(now, registers, 21, Latest(settings, SpktToPktLocked))
            && HoldsPair(now, registers, 5, Latest(settings, AccumPktToPkt))
            && HoldsPair(now, registers, 16, Latest(settings, DiffPktToPkt))
            && forall k :: 0 <= k < 33 && k !in {3, 4, 5, 6, 16, 17, 21, 22} ==> now[k] == registers[k]
  {
    hide LowWord, HighWord, AfterSet;
    if settings != [] {
      var before, s := settings[..|settings| - 1], settings[|settings| - 1];
      RegistersByNumber(registers, before);
      forall k | 0 <= k < 33
        ensures AfterSet(AfterAll(registers, before), s.limit, s.data)[k]
                == if k == LowRegister(s.limit) then LowWord(s.data)
                   else if k == LowRegister(s.limit) + 1 then HighWord(s.data)
                   else AfterAll(registers, before)[k]
      {
        SetByNumber(AfterAll(registers, before), s.limit, s.data, k);
      }
    }
  }

  /** The difference limit reads back as it was set exactly when it fits 32 bits. */
  lemma DiffLimitSurvivesIff32Bits(registers: seq<bv32>, data: bv64)
    requires |registers| == 33
    ensures Reported(AfterSet(registers, DiffPktToPkt, data), DiffPktToPkt) == data <==> data < 0x1_0000_0000
  {
  }

  /** The registers, with the history of settings that they are the outcome of. */
  class Enforcer {
    const registers: array<bv32>
    ghost const powerOn: seq<bv32>
    ghost var settings: seq<Setting>

    ghost predicate Valid()
      reads this, registers
    {
      registers.Length == |powerOn| == 33 && registers[..] == AfterAll(powerOn, settings)
    }

    constructor (found: seq<bv32>)
      requires |found| == 33
      ensures Valid() && powerOn == found && settings == [] && fresh(registers)
    {
      registers := new bv32[33](i requires 0 <= i < 33 => found[i]);
      powerOn := found;
      settings := [];
      new;
      assert registers[..] == found;
    }

    /** The four setters. */
    method Set(l: Limit, data: bv64)
      requires Valid()
      modifies this`settings, registers
      ensures Valid() && settings == old(settings) + [Setting(l, data)]
    {
      hide LowWord, HighWord;
      var k := LowRegister(l);
      registers[k] := LowWord(data);
      registers[k + 1] := HighWord(data);
      settings := settings + [Setting(l, data)];
      assert settings[..|settings| - 1] == old(settings);
    }

    /** The four getters: the last value given to the limit, of which the getter for the difference limit, reading both
        registers, returns the low one. */
    method Get(l: Limit) returns (data: bv64)
      requires Valid()
      ensures data == match Latest(settings, l) case None => Reported(powerOn, l) case Some(d) => Kept(l, d)
    {
      hide Rejoined, Widened, AfterAll, Latest, Kept;
      GettersReportLatest(powerOn, settings, l);
      var k := LowRegister(l);
      var d1, d2 := registers[k], registers[k + 1];
      data := if l == DiffPktToPkt then Widened(d1) else Rejoined(d2, d1);
    }
  }
}
