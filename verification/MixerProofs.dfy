/** What every run of mixer commands keeps. */
module MixerProofs {
  import opened Common
  import opened MixerDesk

  /** The settings and the volume show a word as the signed number with the same 32 bits. */
  lemma SignedIsCongruent(w: Word)
    ensures -0x8000_0000 <= Signed(w) < 0x8000_0000 && (w - Signed(w)) % 0x1_0000_0000 == 0
  {
  }

  lemma ProductCommutes(a: Word, b: Word)
    ensures Product(a, b) == Product(b, a)
  {
  }

  // ---- gains -------------------------------------------------------------------------------------------

  /** The gains that the latest commands say, and the request they make of the volume control. */
  predicate GainsAre(d: Desk, steps: seq<Step>, ch: Channel)
    requires Sized(d)
  {
    && d.global == LastGlobal(steps).GetOr(4)
    && d.gains[Place(ch)] == LastGain(steps, ch).GetOr(30)
    && d.requested[Place(ch)]
       == (if LastGlobal(steps).Some? || LastGain(steps, ch).Some? then Product(d.global, d.gains[Place(ch)]) else 30)
    && d.setting[GainSetting(ch)] == (match LastGain(steps, ch) case Some(g) => Signed(g) case None => 5)
  }

  lemma ExecGains(d: Desk, steps: seq<Step>, step: Step, ch: Channel)
    requires Sized(d) && d.running && step != Exit && GainsAre(d, steps, ch)
    ensures Exec(d, step).running && GainsAre(Exec(d, step), steps + [step], ch)
  {
    hide Product, Signed, AfterFilterType, AfterCoefficients, LedsFor;
    assert (steps + [step])[..|steps|] == steps;
    match step
    case Global(gain) => ProductCommutes(d.gains[Place(ch)], gain);
    case Gain(_, _) =>
    case Filter(_, _, _) =>
    case Coefficients(_, _) =>
  }

  /** Every run without `exit`: global and channel gains are the latest commanded, and what was last requested of a
      channel is their product as soon as either has been commanded. */
  lemma {:induction false} GainsFollowLatest(d: Desk, steps: seq<Step>, ch: Channel)
    requires Fresh(d) && Exit !in steps
    ensures Run(d, steps).running && GainsAre(Run(d, steps), steps, ch)
  {
    if steps != [] {
      var k := |steps| - 1;
      GainsFollowLatest(d, steps[..k], ch);
      ExecGains(Run(d, steps[..k]), steps[..k], steps[k], ch);
      assert steps[..k] + [steps[k]] == steps;
    }
  }

  /** The request agrees with global gain times channel gain exactly when the global gain or that channel's gain has
      been commanded; initialisation alone leaves them apart. */
  lemma CoherentIffCommanded(d: Desk, steps: seq<Step>, ch: Channel)
    requires Fresh(d) && Exit !in steps
    ensures var now := Run(d, steps);
            now.requested[Place(ch)] == (now.global * now.gains[Place(ch)]) % 0x1_0000_0000
            <==> LastGlobal(steps).Some? || LastGain(steps, ch).Some?
  {
    GainsFollowLatest(d, steps, ch);
  }

  /** The settings array shows a channel's gain exactly when it has been commanded. */
  lemma ShownIffCommanded(d: Desk, steps: seq<Step>, ch: Channel)
    requires Fresh(d) && Exit !in steps
    ensures var now := Run(d, steps);
            now.setting[GainSetting(ch)] == Signed(now.gains[Place(ch)]) <==> LastGain(steps, ch).Some?
  {
    GainsFollowLatest(d, steps, ch);
  }

  /** By number: the settings array shows the loopback's right and left gain, then the network's. */
  lemma GainsByNumber(d: Desk, steps: seq<Step>)
    requires Fresh(d) && Exit !in steps
    ensures var setting := Run(d, steps).setting;
            && setting[0] == ShownBy(LastGain(steps, LoopRight)) && setting[1] == ShownBy(LastGain(steps, LoopLeft))
            && setting[2] == ShownBy(LastGain(steps, NetRight)) && setting[3] == ShownBy(LastGain(steps, NetLeft))
  {
    hide Run, LastGain, Signed, Product;
    GainsFollowLatest(d, steps, LoopLeft);
    GainsFollowLatest(d, steps, LoopRight);
    GainsFollowLatest(d, steps, NetLeft);
    GainsFollowLatest(d, steps, NetRight);
  }

  function ShownBy(latest: Option<Word>): int { match latest case Some(g) => Signed(g) case None => 5 }

  // ---- filters -----------------------------------------------------------------------------------------

  function Flag(d: Desk, p: Path, b: Band): int
    requires Sized(d)
  {
    d.flags[FlagPlace(p, b)]
  }

  function Enabled(d: Desk, p: Path, b: Band): Word
    requires Sized(d)
  {
    d.filters[Device(p)][EnableRegister(b)]
  }

  predicate FiltersAre(d: Desk, steps: seq<Step>, p: Path, b: Band, initially: Word)
    requires Sized(d)
  {
    && d.setting[FilterSetting(p, b)] == Flag(d, p, b)
    && (match LastFilter(steps, p, b)
        case Some(on) => Flag(d, p, b) == AsWord(on) && Enabled(d, p, b) == AsWord(on)
        case None => Flag(d, p, b) == 0 && Enabled(d, p, b) == initially)
  }

  lemma FlagPlacesDiffer(p: Path, b: Band, q: Path, c: Band)
    ensures FlagPlace(p, b) == FlagPlace(q, c) <==> p == q && b == c
  {
  }

  /** Setting one band's type writes that band's register and no other enable register. */
  lemma TypeWritesItsBand(regs: seq<Word>, b: Band, c: Band, enable: Word)
    requires |regs| == FILTER_REGISTERS
    ensures AfterFilterType(regs, TypeOf(b), enable)[EnableRegister(c)]
            == if b == c then enable else regs[EnableRegister(c)]
  {
  }

  /** Loading coefficients leaves every enable register alone. */
  lemma CoefficientsSpareEnables(regs: seq<Word>, coefficients: CoefficientList, b: Band)
    requires |regs| == FILTER_REGISTERS
    ensures AfterCoefficients(regs, coefficients)[EnableRegister(b)] == regs[EnableRegister(b)]
  {
  }

  lemma ExecFilters(d: Desk, steps: seq<Step>, step: Step, p: Path, b: Band, initially: Word)
    requires Sized(d) && d.running && step != Exit && FiltersAre(d, steps, p, b, initially)
    ensures Exec(d, step).running && FiltersAre(Exec(d, step), steps + [step], p, b, initially)
  {
    hide Product, Signed, AfterFilterType, AfterCoefficients, LedsFor, FlagPlace, EnableRegister;
    assert (steps + [step])[..|steps|] == steps;
    match step
    case Global(_) =>
    case Gain(_, _) =>
    case Filter(q, c, on) =>
      FlagPlacesDiffer(p, b, q, c);
      TypeWritesItsBand(d.filters[Device(q)], c, b, AsWord(on));
    case Coefficients(q, coefficients) =>
      CoefficientsSpareEnables(d.filters[Device(q)], coefficients, b);
  }

  /** Every run: a filter's flag, its setting and its enable register are the latest command's; loading coefficients
      disturbs none of them. */
  lemma {:induction false} FiltersFollowLatest(d: Desk, steps: seq<Step>, p: Path, b: Band)
    requires Fresh(d) && Exit !in steps
    ensures Run(d, steps).running && FiltersAre(Run(d, steps), steps, p, b, Enabled(d, p, b))
  {
    if steps != [] {
      var k := |steps| - 1;
      FiltersFollowLatest(d, steps[..k], p, b);
      ExecFilters(Run(d, steps[..k]), steps[..k], steps[k], p, b, Enabled(d, p, b));
      assert steps[..k] + [steps[k]] == steps;
    }
  }

  /** Flag and register agree unless the register powered up otherwise than 0 and was never commanded. */
  lemma FlagIsRegisterIff(d: Desk, steps: seq<Step>, p: Path, b: Band)
    requires Fresh(d) && Exit !in steps
    ensures var now := Run(d, steps);
            Flag(now, p, b) == Enabled(now, p, b) <==> LastFilter(steps, p, b).Some? || Enabled(d, p, b) == 0
  {
    FiltersFollowLatest(d, steps, p, b);
  }

  /** By number: 17 takes high pass, 18 band pass and 19 low pass of either device, and settings 4 to 9 show low, band
      and high pass of the loopback, then of the network path. */
  lemma FiltersByNumber(d: Desk, steps: seq<Step>)
    requires Fresh(d) && Exit !in steps
    ensures var loop, net := Run(d, steps).filters[0], Run(d, steps).filters[1];
            && loop[17] == EnabledBy(LastFilter(steps, Loopback, HighPass), d.filters[0][17])
            && loop[18] == EnabledBy(LastFilter(steps, Loopback, BandPass), d.filters[0][18])
            && loop[19] == EnabledBy(LastFilter(steps, Loopback, LowPass), d.filters[0][19])
            && net[17] == EnabledBy(LastFilter(steps, Network, HighPass), d.filters[1][17])
            && net[18] == EnabledBy(LastFilter(steps, Network, BandPass), d.filters[1][18])
            && net[19] == EnabledBy(LastFilter(steps, Network, LowPass), d.filters[1][19])
    ensures var setting := Run(d, steps).setting;
            && setting[4] == EnabledBy(LastFilter(steps, Loopback, LowPass), 0)
            && setting[5] == EnabledBy(LastFilter(steps, Loopback, BandPass), 0)
            && setting[6] == EnabledBy(LastFilter(steps, Loopback, HighPass), 0)
            && setting[7] == EnabledBy(LastFilter(steps, Network, LowPass), 0)
            && setting[8] == EnabledBy(LastFilter(steps, Network, BandPass), 0)
            && setting[9] == EnabledBy(LastFilter(steps, Network, HighPass), 0)
  {
    hide Run, LastFilter, Exec;
    FiltersFollowLatest(d, steps, Loopback, LowPass);
    FiltersFollowLatest(d, steps, Loopback, BandPass);
    FiltersFollowLatest(d, steps, Loopback, HighPass);
    FiltersFollowLatest(d, steps, Network, LowPass);
    FiltersFollowLatest(d, steps, Network, BandPass);
    FiltersFollowLatest(d, steps, Network, HighPass);
  }

  function EnabledBy(latest: Option<bool>, initially: Word): Word {
    match latest case Some(on) => AsWord(on) case None => initially
  }

  // ---- coefficients --------------------------------------------------------------------------------------

  function LastLoad(steps: seq<Step>, p: Path): Option<CoefficientList> {
    if steps == [] then None
    else
      var last := steps[|steps| - 1];
      if last.Coefficients? && last.path == p then Some(last.coefficients) else LastLoad(steps[..|steps| - 1], p)
  }

  /** Coefficient `i` in register `i`, the strobe down, register 16 up; or everything as it was. */
  predicate LoadIs(regs: seq<Word>, latest: Option<CoefficientList>, initially: seq<Word>)
    requires |regs| == |initially| == FILTER_REGISTERS
  {
    match latest
    case Some(list) => regs[15] == 0 && regs[16] == 1 && forall i :: 0 <= i < 15 ==> regs[i] == list[i]
    case None => forall i :: 0 <= i < 17 ==> regs[i] == initially[i]
  }

  lemma TypeSparesCoefficients(regs: seq<Word>, filterType: int, enable: Word, i: nat)
    requires |regs| == FILTER_REGISTERS && i < 17
    ensures AfterFilterType(regs, filterType, enable)[i] == regs[i]
  {
  }

  lemma LoadStands(regs: seq<Word>, list: CoefficientList)
    requires |regs| == FILTER_REGISTERS
    ensures LoadIs(AfterCoefficients(regs, list), Some(list), regs)
  {
  }

  lemma FilterSparesLoad(regs: seq<Word>, b: Band, enable: Word, latest: Option<CoefficientList>, initially: seq<Word>)
    requires |regs| == |initially| == FILTER_REGISTERS && LoadIs(regs, latest, initially)
    ensures LoadIs(AfterFilterType(regs, TypeOf(b), enable), latest, initially)
  {
    hide AfterFilterType;
    forall i: nat | i < 17
      ensures AfterFilterType(regs, TypeOf(b), enable)[i] == regs[i]
    {
      TypeSparesCoefficients(regs, TypeOf(b), enable, i);
    }
  }

  /** Over every run register `i` of a filter holds coefficient `i` of the latest load; switching filters on and off
      disturbs none of them. */
  lemma {:induction false} CoefficientsFollowLatest(d: Desk, steps: seq<Step>, p: Path)
    requires Sized(d) && d.running && Exit !in steps
    ensures Run(d, steps).running
    ensures LoadIs(Run(d, steps).filters[Device(p)], LastLoad(steps, p), d.filters[Device(p)])
  {
    hide AfterFilterType, AfterCoefficients, LoadIs, Scaled, Product, Signed, LedsFor;
    if steps == [] {
      NothingLoaded(d.filters[Device(p)]);
    } else {
      var k := |steps| - 1;
      CoefficientsFollowLatest(d, steps[..k], p);
      var now := Run(d, steps[..k]).filters[Device(p)];
      match steps[k]
      case Coefficients(q, list) => LoadOnce(now, list, d.filters[Device(p)]);
      case Filter(q, b, on) => FilterSparesLoad(now, b, AsWord(on), LastLoad(steps[..k], p), d.filters[Device(p)]);
      case _ =>
    }
  }

  lemma LoadOnce(regs: seq<Word>, list: CoefficientList, initially: seq<Word>)
    requires |regs| == |initially| == FILTER_REGISTERS
    ensures LoadIs(AfterCoefficients(regs, list), Some(list), initially)
  {
    LoadStands(regs, list);
  }

  lemma NothingLoaded(regs: seq<Word>)
    requires |regs| == FILTER_REGISTERS
    ensures LoadIs(regs, None, regs)
  {
  }

  // ---- LEDs --------------------------------------------------------------------------------------------

  function Height(vol: int): (h: nat)
    ensures h <= 8
  {
    if vol < 0 then 0 else if vol > 16 then 8 else vol / 2
  }

  predicate Thermometer(leds: seq<bool>, h: nat) {
    |leds| == 8 && h <= 8 && forall i :: 0 <= i < 8 ==> (leds[i] <==> i >= 8 - h)
  }

  lemma LedsAreThermometer(vol: int)
    ensures Thermometer(LedsFor(vol), Height(vol))
  {
  }

  /** The lit LEDs are the lowest min(8, max(0, globalVol / 2)) once the global gain has been set; until then they are
      as they were. */
  lemma {:induction false} LedsFollowGlobal(d: Desk, steps: seq<Step>)
    requires Fresh(d) && Exit !in steps
    ensures var now := Run(d, steps);
            && now.running
            && now.globalVol == (match LastGlobal(steps) case Some(g) => Signed(g) case None => 4)
            && (match LastGlobal(steps)
                case Some(_) => Thermometer(now.leds, Height(now.globalVol))
                case None => now.leds == d.leds)
  {
    hide LedsFor, Thermometer, Height, Signed, Product, AfterFilterType, AfterCoefficients;
    if steps != [] {
      var k := |steps| - 1;
      LedsFollowGlobal(d, steps[..k]);
      if steps[k].Global? {
        LedsAreThermometer(Signed(steps[k].gain));
      }
    }
  }

  /** So the LEDs show the global volume exactly when a global gain has been commanded or they happened to show 2. */
  lemma LedsShowGlobalIff(d: Desk, steps: seq<Step>)
    requires Fresh(d) && Exit !in steps
    ensures var now := Run(d, steps);
            Thermometer(now.leds, Height(now.globalVol)) <==> LastGlobal(steps).Some? || Thermometer(d.leds, 2)
  {
    hide Thermometer, Run, Signed;
    LedsFollowGlobal(d, steps);
  }

  // ---- exit --------------------------------------------------------------------------------------------

  /** Once `exit` has been given every channel stands requested at 0 and no LED is lit. */
  lemma {:induction false} ExitSilences(d: Desk, steps: seq<Step>)
    requires Sized(d) && d.running && Exit in steps
    ensures var now := Run(d, steps);
            && !now.running && now.globalVol == 0
            && (forall i :: 0 <= i < CHANNELS ==> now.requested[i] == 0)
            && (forall i :: 0 <= i < 8 ==> !now.leds[i])
  {
    var k := |steps| - 1;
    if Exit in steps[..k] {
      ExitSilences(d, steps[..k]);
    } else {
      StillRunning(d, steps[..k]);
    }
  }

  lemma {:induction false} StillRunning(d: Desk, steps: seq<Step>)
    requires Sized(d) && d.running && Exit !in steps
    ensures Run(d, steps).running
  {
    if steps != [] {
      StillRunning(d, steps[..|steps| - 1]);
    }
  }
}
