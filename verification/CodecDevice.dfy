/** The codec controller as the driver meets it: six registers, a transaction that starts when START rises and takes
    a finite number of bus cycles, and a codec behind it that keeps one value per register address. Everything the
    driver cannot know (how long a transaction takes, when the PLL locks, what a reset does, what lies above a short
    answer) is an arbitrary function of the environment. */
module CodecDevice {
  import opened Bytes
  import opened CodecWords

  const CTRL: nat := 0
  const BUSY: nat := 4
  const WRITE_LOW: nat := 8
  const WRITE_HIGH: nat := 12
  const READ_LOW: nat := 16
  const READ_HIGH: nat := 20

  const RESET: bv32 := 0x200_0000
  const PLL: RegisterAddress := 0x4002

  datatype Address = Address(bits: bv32)

  type Registers = map<Address, bv64>

  /** `latency(k)`: the extra cycles of the k-th transaction; `rest(k)`: the bits above its answer; `lockDelay`: how
      many reads of the PLL register still show it unlocked once it has been configured; `fresh`: a register never
      written; `reset`: what a reset pulse makes of the codec's registers. */
  datatype Environment = Environment(
    latency: nat -> nat,
    rest: nat -> bv64,
    lockDelay: nat,
    unwritten: bv32 -> bv64,
    reset: Registers -> Registers)

  datatype Codec = Codec(registers: Registers, unlockedReads: nat)

  datatype Chip = Chip(
    ctrl: bv32, writeLow: bv32, writeHigh: bv32, readLow: bv32, readHigh: bv32,
    remaining: nat,
    starts: nat,
    codec: Codec)

  function Held(env: Environment, registers: Registers, addr: bv32): bv64 {
    if Address(addr) in registers then registers[Address(addr)] else env.unwritten(addr)
  }

  /** What a read transaction sees: the kept value, with bit 1 of the PLL register standing for the lock. */
  function Shown(env: Environment, codec: Codec, addr: bv32): bv64 {
    var kept := Held(env, codec.registers, addr);
    if addr != PLL then kept else if codec.unlockedReads == 0 then kept | 2 else kept & 0xFFFF_FFFF_FFFF_FFFD
  }

  function AfterWriting(env: Environment, codec: Codec, addr: bv32, value: bv64): Codec {
    Codec(codec.registers[Address(addr) := value], if addr == PLL then env.lockDelay else codec.unlockedReads)
  }

  function AfterReading(codec: Codec, addr: bv32): Codec {
    if addr == PLL && codec.unlockedReads > 0 then codec.(unlockedReads := codec.unlockedReads - 1) else codec
  }

  /** The transaction described by the control and data registers as they stand when it completes. */
  function Completed(env: Environment, chip: Chip): (done: Chip)
    ensures done.remaining == 0
  {
    var addr, n := AddressField(chip.ctrl), LengthField(chip.ctrl);
    if ReadField(chip.ctrl) then
      var answer := Answer(Shown(env, chip.codec, addr), n, env.rest(chip.starts));
      chip.(readLow := LowWord(answer), readHigh := HighWord(answer), remaining := 0,
            codec := AfterReading(chip.codec, addr))
    else
      chip.(remaining := 0,
            codec := AfterWriting(env, chip.codec, addr, TopBytes(Rejoined(chip.writeHigh, chip.writeLow), n)))
  }

  function Left(chip: Chip, cycles: nat): Chip { chip.(remaining := cycles) }

  lemma LeftOver(chip: Chip, before: nat, now: nat)
    ensures Left(chip, chip.remaining) == chip && Left(Left(chip, before), now) == Left(chip, now)
    ensures Left(chip, now).remaining == now
  {
  }

  lemma CompletedForgetsRemaining(env: Environment, chip: Chip, left: nat)
    ensures Completed(env, Left(chip, left)) == Completed(env, chip)
  {
  }

  /** One bus cycle passes. */
  function Ticked(env: Environment, chip: Chip): Chip {
    if chip.remaining == 0 then chip
    else if chip.remaining == 1 then Completed(env, chip)
    else chip.(remaining := chip.remaining - 1)
  }

  /** A store to the control register: a rising START bit begins a transaction, RESET ends any and resets the codec. */
  function AfterControl(env: Environment, chip: Chip, w: bv32): Chip {
    if ResetField(w) then
      chip.(ctrl := w, remaining := 0, codec := chip.codec.(registers := env.reset(chip.codec.registers)))
    else if StartField(w) && !StartField(chip.ctrl) then
      chip.(ctrl := w, remaining := env.latency(chip.starts) + 1, starts := chip.starts + 1)
    else
      chip.(ctrl := w)
  }

  function AfterStore(env: Environment, chip: Chip, offset: nat, value: bv32): Chip {
    if offset == CTRL then AfterControl(env, chip, value)
    else if offset == WRITE_LOW then chip.(writeLow := value)
    else if offset == WRITE_HIGH then chip.(writeHigh := value)
    else chip
  }

  function Loaded(chip: Chip, offset: nat): bv32 {
    if offset == CTRL then chip.ctrl
    else if offset == BUSY then if chip.remaining > 0 then 1 else 0
    else if offset == WRITE_LOW then chip.writeLow
    else if offset == WRITE_HIGH then chip.writeHigh
    else if offset == READ_LOW then chip.readLow
    else if offset == READ_HIGH then chip.readHigh
    else 0
  }

  // ---- what a whole call does to an idle chip --------------------------------------------------------

  /** The control word, then the same word with START: a rising edge whatever the register held before. */
  function Begun(env: Environment, chip: Chip, w: bv32): Chip {
    AfterControl(env, AfterControl(env, chip, w), WithStart(w))
  }

  function WriteDone(env: Environment, chip: Chip, addr: bv32, data: bv64, n: Length): Chip {
    Chip(WithStart(ControlWord(addr, n, false)),
         LowWord(LeftJustified(data, n)), HighWord(LeftJustified(data, n)), chip.readLow, chip.readHigh,
         0, chip.starts + 1, AfterWriting(env, chip.codec, addr, Truncated(data, n)))
  }

  function ReadDone(env: Environment, chip: Chip, addr: bv32, n: Length): Chip {
    var answer := Answer(Shown(env, chip.codec, addr), n, env.rest(chip.starts + 1));
    Chip(WithStart(ControlWord(addr, n, true)), chip.writeLow, chip.writeHigh, LowWord(answer), HighWord(answer),
         0, chip.starts + 1, AfterReading(chip.codec, addr))
  }

  lemma StartBegins(env: Environment, chip: Chip, w: bv32)
    requires chip.remaining == 0 && !StartField(w) && !ResetField(w)
    ensures Begun(env, chip, w)
            == chip.(ctrl := WithStart(w), remaining := env.latency(chip.starts) + 1, starts := chip.starts + 1)
  {
  }

  /** A write transaction leaves the codec holding the data modulo 2^(8n) at that address and nothing else changed. */
  lemma WriteCompletes(env: Environment, chip: Chip, addr: RegisterAddress, data: bv64, n: Length)
    requires chip.remaining == 0
    ensures var loaded := chip.(writeLow := LowWord(LeftJustified(data, n)),
                                writeHigh := HighWord(LeftJustified(data, n)));
            Completed(env, Begun(env, loaded, ControlWord(addr, n, false))) == WriteDone(env, chip, addr, data, n)
  {
    hide AddressField, LengthField, ReadField, ControlWord, WithStart, LowWord, HighWord, Rejoined, TopBytes,
      LeftJustified, Truncated, Begun;
    var w := ControlWord(addr, n, false);
    ControlWordDecodes(addr, n, false);
    StartLeavesFields(w);
    PayloadKeepsData(data, n);
    var loaded := chip.(writeLow := LowWord(LeftJustified(data, n)), writeHigh := HighWord(LeftJustified(data, n)));
    StartBegins(env, loaded, w);
  }

  /** A read transaction fetches what the codec shows and changes no register of it. */
  lemma ReadCompletes(env: Environment, chip: Chip, addr: RegisterAddress, n: Length)
    requires chip.remaining == 0
    ensures Completed(env, Begun(env, chip, ControlWord(addr, n, true))) == ReadDone(env, chip, addr, n)
  {
    hide AddressField, LengthField, ReadField, ControlWord, WithStart, LowWord, HighWord, Answer, Shown, Begun;
    var w := ControlWord(addr, n, true);
    ControlWordDecodes(addr, n, true);
    StartLeavesFields(w);
    StartBegins(env, chip, w);
  }

  /** The words left by a read join up, under the mask, to what the codec showed. */
  lemma ReadAnswers(env: Environment, chip: Chip, addr: bv32, n: Length)
    ensures var done := ReadDone(env, chip, addr, n);
            && Truncated(Rejoined(done.readHigh, done.readLow), n) == Truncated(Shown(env, chip.codec, addr), n)
            && done.remaining == 0
            && done.ctrl == WithStart(ControlWord(addr, n, true))
            && done.codec == AfterReading(chip.codec, addr)
  {
    hide ControlWord, WithStart, Answer, Shown, LowWord, HighWord, Rejoined, Truncated, AfterReading;
    AnswerUnmasks(Shown(env, chip.codec, addr), n, env.rest(chip.starts + 1));
  }
}
