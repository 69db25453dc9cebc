/** The mixer half of the command interpreter as a transition on values: channel gains and the gains last requested
    of the volume controls, the settings array, the filter flags and enable registers, and the volume LEDs. */
module MixerDesk {
  import opened Common

  /** A 32-bit word; signed and unsigned variables of the program share its bit patterns. */
  type Word = w: nat | w < 0x1_0000_0000

  type CoefficientList = s: seq<Word> | |s| == 15 witness seq(15, _ => 0)

  function Product(a: Word, b: Word): Word { (a * b) % 0x1_0000_0000 }

  function Signed(w: Word): int { if w < 0x8000_0000 then w else w - 0x1_0000_0000 }

  datatype Channel = LoopLeft | LoopRight | NetLeft | NetRight

  datatype Path = Loopback | Network

  datatype Band = LowPass | BandPass | HighPass

  datatype Step =
    | Global(gain: Word)
    | Gain(channel: Channel, gain: Word)
    | Filter(path: Path, band: Band, on: bool)
    | Coefficients(path: Path, coefficients: CoefficientList)
    | Exit

  datatype Desk = Desk(
    global: Word,
    globalVol: int,
    gains: seq<Word>,
    requested: seq<Word>,
    setting: seq<int>,
    flags: seq<int>,
    filters: seq<seq<Word>>,
    leds: seq<bool>,
    running: bool)

  const CHANNELS: nat := 4
  const MENU_LENGTH: nat := 29
  const FILTER_REGISTERS: nat := 20

  predicate Sized(d: Desk) {
    && |d.gains| == CHANNELS && |d.requested| == CHANNELS && |d.setting| == MENU_LENGTH && |d.flags| == 6
    && |d.filters| == 2 && |d.filters[0]| == FILTER_REGISTERS && |d.filters[1]| == FILTER_REGISTERS
    && |d.leds| == 8
  }

  function Place(ch: Channel): (i: nat)
    ensures i < CHANNELS
  {
    match ch case LoopLeft => 0 case LoopRight => 1 case NetLeft => 2 case NetRight => 3
  }

  /** Where a channel's gain is shown: right before left. */
  function GainSetting(ch: Channel): (i: nat)
    ensures i < CHANNELS
  {
    match ch case LoopLeft => 1 case LoopRight => 0 case NetLeft => 3 case NetRight => 2
  }

  function Device(p: Path): (i: nat)
    ensures i < 2
  {
    if p.Loopback? then 0 else 1
  }

  function FlagPlace(p: Path, b: Band): (i: nat)
    ensures i < 6
  {
    3 * Device(p) + (match b case LowPass => 0 case BandPass => 1 case HighPass => 2)
  }

  function FilterSetting(p: Path, b: Band): (i: nat)
    ensures 4 <= i < 10
  {
    4 + FlagPlace(p, b)
  }

  function EnableRegister(b: Band): (i: nat)
    ensures 17 <= i < FILTER_REGISTERS
  {
    match b case HighPass => 17 case BandPass => 18 case LowPass => 19
  }

  /** LED i lights from global volume 16 - 2i. */
  function LedsFor(vol: int): (leds: seq<bool>)
    ensures |leds| == 8
  {
    seq(8, i requires 0 <= i < 8 => vol >= 16 - 2 * i)
  }

  lemma LedsListed(vol: int)
    ensures LedsFor(vol)
            == [vol >= 16, vol >= 14, vol >= 12, vol >= 10, vol >= 8, vol >= 6, vol >= 4, vol >= 2]
  {
  }

  function Scaled(gains: seq<Word>, factor: Word): (scaled: seq<Word>)
    ensures |scaled| == |gains|
  {
    seq(|gains|, i requires 0 <= i < |gains| => Product(gains[i], factor))
  }

  /** The type values 1, 2 and 4 are the three bands; 3 is both band and high pass; all others are refused. */
  function TypeOf(b: Band): int { match b case BandPass => 1 case HighPass => 2 case LowPass => 4 }

  predicate Accepted(filterType: int) { 0 < filterType < 5 }

  predicate Selects(filterType: int, b: Band)
    requires Accepted(filterType)
  {
    match b
    case HighPass => filterType == 2 || filterType == 3
    case BandPass => filterType == 1 || filterType == 3
    case LowPass => filterType == 4
  }

  function AfterFilterType(regs: seq<Word>, filterType: int, enable: Word): (after: seq<Word>)
    requires |regs| == FILTER_REGISTERS
    ensures |after| == FILTER_REGISTERS
  {
    if !Accepted(filterType) then regs
    else
      var high := if Selects(filterType, HighPass) then regs[17 := enable] else regs;
      var band := if Selects(filterType, BandPass) then high[18 := enable] else high;
      if Selects(filterType, LowPass) then band[19 := enable] else band
  }

  /** The coefficients in registers 0-14, the load strobe back at 0, register 16 left at 1. */
  function AfterCoefficients(regs: seq<Word>, coefficients: CoefficientList): (after: seq<Word>)
    requires |regs| == FILTER_REGISTERS
    ensures |after| == FILTER_REGISTERS
  {
    coefficients + [0, 1] + regs[17..]
  }

  function AsWord(on: bool): Word { if on then 1 else 0 }

  /** One step of the interpreter; after `exit` the program is gone. */
  function Exec(d: Desk, step: Step): (after: Desk)
    requires Sized(d)
    ensures Sized(after)
  {
    if !d.running then d
    else
      match step
      case Global(gain) =>
        d.(global := gain, globalVol := Signed(gain), requested := Scaled(d.gains, gain),
           leds := LedsFor(Signed(gain)))
      case Gain(ch, gain) =>
        d.(requested := d.requested[Place(ch) := Product(d.global, gain)],
           gains := d.gains[Place(ch) := gain],
           setting := d.setting[GainSetting(ch) := Signed(gain)])
      case Filter(p, b, on) =>
        d.(filters := d.filters[Device(p) := AfterFilterType(d.filters[Device(p)], TypeOf(b), AsWord(on))],
           flags := d.flags[FlagPlace(p, b) := AsWord(on)],
           setting := d.setting[FilterSetting(p, b) := AsWord(on)])
      case Coefficients(p, coefficients) =>
        d.(filters := d.filters[Device(p) := AfterCoefficients(d.filters[Device(p)], coefficients)])
      case Exit =>
        d.(globalVol := 0, requested := Scaled(d.gains, 0), leds := LedsFor(0), running := false)
  }

  function Run(d: Desk, steps: seq<Step>): (after: Desk)
    requires Sized(d)
    ensures Sized(after)
  {
    if steps == [] then d else Exec(Run(d, steps[..|steps| - 1]), steps[|steps| - 1])
  }

  /** The desk as initialisation leaves it: every channel was requested at gain 30 although the global gain is 4, the
      settings show 5, and neither the filter registers nor the LEDs have been written. */
  predicate Fresh(d: Desk) {
    && Sized(d) && d.running
    && d.global == 4 && d.globalVol == 4
    && (forall i :: 0 <= i < CHANNELS ==> d.gains[i] == 30 && d.requested[i] == 30 && d.setting[i] == 5)
    && (forall i :: 0 <= i < 6 ==> d.flags[i] == 0 && d.setting[4 + i] == 0)
  }

  // ---- what the latest commands say -------------------------------------------------------------------

  function LastGlobal(steps: seq<Step>): Option<Word> {
    if steps == [] then None
    else
      var last := steps[|steps| - 1];
      if last.Global? then Some(last.gain) else LastGlobal(steps[..|steps| - 1])
  }

  function LastGain(steps: seq<Step>, ch: Channel): Option<Word> {
    if steps == [] then None
    else
      var last := steps[|steps| - 1];
      if last.Gain? && last.channel == ch then Some(last.gain) else LastGain(steps[..|steps| - 1], ch)
  }

  function LastFilter(steps: seq<Step>, p: Path, b: Band): Option<bool> {
    if steps == [] then None
    else
      var last := steps[|steps| - 1];
      if last.Filter? && last.path == p && last.band == b then Some(last.on) else LastFilter(steps[..|steps| - 1], p, b)
  }
}
