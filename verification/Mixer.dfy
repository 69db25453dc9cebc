/** The mixer's variables, its two filter devices and its LEDs, updated in place as the interpreter does; every command
    is proved to leave what `MixerDesk.Exec` specifies. */
module Mixer {
  import opened MixerDesk

  /** The band bits of an accepted filter type. */
  lemma TypeBits(filterType: int)
    requires Accepted(filterType)
    ensures (filterType as bv8) & 2 == 2 <==> Selects(filterType, HighPass)
    ensures (filterType as bv8) & 1 == 1 <==> Selects(filterType, BandPass)
    ensures (filterType as bv8) & 4 == 4 <==> Selects(filterType, LowPass)
  {
  }

  /** Writes the enable register of every band in the type; refuses, writing nothing, a type outside 1 to 4. */
  method SetFilterType(filter: array<Word>, filterType: int, enable: Word) returns (status: int)
    requires filter.Length == FILTER_REGISTERS
    modifies filter
    ensures filter[..] == AfterFilterType(old(filter[..]), filterType, enable)
    ensures status == if Accepted(filterType) then 0 else -1
  {
    if filterType >= 5 || filterType <= 0 {
      return -1;
    }
    TypeBits(filterType);
    if (filterType as bv8) & 2 == 2 {
      filter[17] := enable;
    }
    if (filterType as bv8) & 1 == 1 {
      filter[18] := enable;
    }
    if (filterType as bv8) & 4 == 4 {
      filter[19] := enable;
    }
    return 0;
  }

  /** Pulses the strobe and writes the fifteen coefficients in order. */
  method SetCoefficients(filter: array<Word>, coefficients: CoefficientList)
    requires filter.Length == FILTER_REGISTERS
    modifies filter
    ensures filter[..] == AfterCoefficients(old(filter[..]), coefficients)
  {
    filter[15] := 1;
    filter[15] := 0;
    filter[16] := 1;
    for i := 0 to 15
      invariant filter[..i] == coefficients[..i]
      invariant filter[15] == 0 && filter[16] == 1
      invariant filter[17..] == old(filter[17..])
    {
      filter[i] := coefficients[i];
    }
    filter[15] := 0;
    assert filter[..] == filter[..15] + [filter[15], filter[16]] + filter[17..];
    assert old(filter[..])[17..] == old(filter[17..]);
  }

  class Mixer {
    var global: Word
    var globalVol: int
    var gains: seq<Word>
    var flags: seq<int>
    var running: bool
    const setting: array<int>
    const loopFilter: array<Word>
    const netFilter: array<Word>
    const leds: array<bool>
    ghost var requested: seq<Word>

    ghost predicate Valid()
      reads this
    {
      && |gains| == CHANNELS && |requested| == CHANNELS && |flags| == 6
      && setting.Length == MENU_LENGTH && leds.Length == 8
      && loopFilter.Length == FILTER_REGISTERS && netFilter.Length == FILTER_REGISTERS
      && loopFilter != netFilter
    }

    ghost function Now(): (d: Desk)
      requires Valid()
      reads this, setting, loopFilter, netFilter, leds
      ensures Sized(d)
    {
      Desk(global, globalVol, gains, requested, setting[..], flags, [loopFilter[..], netFilter[..]], leds[..], running)
    }

    /** What the static initialisers and the end of `ui_init` leave; the LEDs and the enable registers keep whatever
        they held. */
    constructor (ledsWere: seq<bool>, loopWas: seq<Word>, netWas: seq<Word>)
      requires |ledsWere| == 8 && |loopWas| == FILTER_REGISTERS && |netWas| == FILTER_REGISTERS
      ensures Valid() && Fresh(Now())
      ensures fresh(setting) && fresh(loopFilter) && fresh(netFilter) && fresh(leds)
      ensures Now().leds == ledsWere && Now().filters == [loopWas, netWas]
    {
      global, globalVol, running := 4, 4, true;
      gains, requested := [30, 30, 30, 30], [30, 30, 30, 30];
      flags := [0, 0, 0, 0, 0, 0];
      setting := new int[MENU_LENGTH](i => if i < 4 then 5 else 0);
      loopFilter := new Word[FILTER_REGISTERS](i requires 0 <= i < FILTER_REGISTERS => loopWas[i]);
      netFilter := new Word[FILTER_REGISTERS](i requires 0 <= i < FILTER_REGISTERS => netWas[i]);
      leds := new bool[8](i requires 0 <= i < 8 => ledsWere[i]);
      new;
      assert loopFilter[..] == loopWas && netFilter[..] == netWas && leds[..] == ledsWere;
    }

    /** The volume control's own code is a stub; what is kept is the gain it was last asked for. */
    ghost method SetVolume(ch: Channel, gain: Word)
      requires Valid()
      modifies `requested
      ensures requested == old(requested)[Place(ch) := gain]
    {
      requested := requested[Place(ch) := gain];
    }

    method UpdateLeds()
      requires Valid()
      modifies leds
      ensures leds[..] == LedsFor(globalVol)
    {
      hide LedsFor;
      LedsListed(globalVol);
      leds[0] := globalVol >= 16;
      leds[1] := globalVol >= 14;
      leds[2] := globalVol >= 12;
      leds[3] := globalVol >= 10;
      leds[4] := globalVol >= 8;
      leds[5] := globalVol >= 6;
      leds[6] := globalVol >= 4;
      leds[7] := globalVol >= 2;
    }

    method SetAllVolumes(gain: Word)
      requires Valid()
      modifies `requested
      ensures requested == Scaled(gains, gain)
    {
      SetVolume(LoopLeft, Product(gains[0], gain));
      SetVolume(LoopRight, Product(gains[1], gain));
      SetVolume(NetLeft, Product(gains[2], gain));
      SetVolume(NetRight, Product(gains[3], gain));
    }

    method SetGlobal(gain: Word)
      requires Valid() && running
      modifies `global, `globalVol, `requested, leds
      ensures Valid() && Now() == Exec(old(Now()), Global(gain))
    {
      hide Product;
      global := gain;
      globalVol := Signed(gain);
      SetAllVolumes(gain);
      UpdateLeds();
    }

    method SetGain(ch: Channel, gain: Word)
      requires Valid() && running
      modifies `gains, `requested, setting
      ensures Valid() && Now() == Exec(old(Now()), Gain(ch, gain))
    {
      hide Product;
      SetVolume(ch, Product(global, gain));
      gains := gains[Place(ch) := gain];
      setting[GainSetting(ch)] := Signed(gain);
      assert setting[..] == old(setting[..])[GainSetting(ch) := Signed(gain)];
    }

    method SetFilter(p: Path, b: Band, on: bool)
      requires Valid() && running
      modifies `flags, setting, loopFilter, netFilter
      ensures Valid() && Now() == Exec(old(Now()), Filter(p, b, on))
    {
      hide AfterFilterType;
      var status := SetFilterType(if p.Loopback? then loopFilter else netFilter, TypeOf(b), AsWord(on));
      flags := flags[FlagPlace(p, b) := AsWord(on)];
      setting[FilterSetting(p, b)] := AsWord(on);
      assert setting[..] == old(setting[..])[FilterSetting(p, b) := AsWord(on)];
    }

    method LoadCoefficients(p: Path, coefficients: CoefficientList)
      requires Valid() && running
      modifies loopFilter, netFilter
      ensures Valid() && Now() == Exec(old(Now()), Coefficients(p, coefficients))
    {
      hide AfterCoefficients;
      SetCoefficients(if p.Loopback? then loopFilter else netFilter, coefficients);
    }

    method Quit()
      requires Valid() && running
      modifies `globalVol, `requested, `running, leds
      ensures Valid() && Now() == Exec(old(Now()), Exit)
    {
      hide Product;
      globalVol := 0;
      SetAllVolumes(0);
      UpdateLeds();
      running := false;
    }

    method Execute(step: Step)
      requires Valid()
      modifies this, setting, loopFilter, netFilter, leds
      ensures Valid() && Now() == Exec(old(Now()), step)
    {
      hide Scaled, Product, LedsFor, AfterFilterType, AfterCoefficients;
      if running {
        match step
        case Global(gain) => SetGlobal(gain);
        case Gain(ch, gain) => SetGain(ch, gain);
        case Filter(p, b, on) => SetFilter(p, b, on);
        case Coefficients(p, coefficients) => LoadCoefficients(p, coefficients);
        case Exit => Quit();
      }
    }

    /** The command loop. */
    method ExecuteAll(steps: seq<Step>)
      requires Valid()
      modifies this, setting, loopFilter, netFilter, leds
      ensures Valid() && Now() == Run(old(Now()), steps)
    {
      hide Exec;
      for i := 0 to |steps|
        invariant Valid() && Now() == Run(old(Now()), steps[..i])
      {
        Execute(steps[i]);
        assert steps[..i + 1][..i] == steps[..i];
      }
      assert steps[..|steps|] == steps;
    }
  }
}
