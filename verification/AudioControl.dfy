/** Register 0 of the audio-to-Ethernet core: one control word that several helpers read, mask and
    write back, and the record of independent fields it stands for. */
module AudioControl {
  import opened Bytes

  datatype Op =
    | ResetFifos          // reset_adc_fifos
    | TestOn | TestOff    // set_test_mode_on, set_test_mode_off
    | TestMode(mode: nat) // set_test_mode
    | CountOn | CountOff  // set_pcnt_mode_on, set_pcnt_mode_off
    | SendOn | SendOff    // set_stream_send_on, set_stream_send_off

  /** The mode field set_test_mode puts in place; an unknown mode counts as mode 0. */
  function ModeBits(mode: nat): bv32 {
    match mode
    case 1 => 0x0000_0200
    case 2 => 0x0000_0400
    case 3 => 0x0000_0600
    case 4 => 0x0000_0800
    case _ => 0
  }

  /** What the helper leaves in the register, given what it read there. */
  function Written(op: Op, d: bv32): bv32 {
    match op
    case ResetFifos => And(d, 0xFFFF_FFFC)
    case TestOn => Or(d, 0x0000_0080)
    case TestOff => And(d, 0xFFFF_FF7F)
    case TestMode(mode) => Or(And(d, 0xFFFF_F1FF), ModeBits(mode))
    case CountOn => Or(d, 0x0000_0040)
    case CountOff => And(d, 0xFFFF_FFBF)
    case SendOn => Or(d, 0x0000_0100)
    case SendOff => And(d, 0xFFFF_FEFF)
  }

  datatype Control = Control(resets: bv32, count: bool, test: bool, send: bool, mode: bv32, others: bv32)

  /** Bits 0-1, 6, 7, 8, 9-11, and the rest (bits 2-5 and 12-31). */
  function BitFields(d: bv32): Control {
    Control(d & 3, d & 0x40 != 0, d & 0x80 != 0, d & 0x100 != 0, (d >> 9) & 7, d & 0xFFFF_F03C)
  }

  function Compose(c: Control): bv32 {
    c.resets | (if c.count then 0x40 else 0) | (if c.test then 0x80 else 0)
    | (if c.send then 0x100 else 0) | (c.mode << 9) | c.others
  }

  /** The fields determine the word. */
  lemma FieldsAreAll(d: bv32)
    ensures Compose(BitFields(d)) == d
  {
  }

  lemma FieldsDetermine(a: bv32, b: bv32)
    requires BitFields(a) == BitFields(b)
    ensures a == b
  {
    hide BitFields, Compose;
    FieldsAreAll(a);
    FieldsAreAll(b);
  }

  function KnownMode(mode: nat): bv32 {
    match mode
    case 1 => 1
    case 2 => 2
    case 3 => 3
    case 4 => 4
    case _ => 0
  }

  lemma KnownModeIsItsNumber(mode: nat)
    ensures KnownMode(mode) as nat == if mode <= 4 then mode else 0
  {
  }

  lemma KnownModeIsSmall(mode: nat)
    ensures KnownMode(mode) <= 4
  {
  }

  /** The plain record update each helper is meant to be. */
  function Updated(op: Op, c: Control): Control {
    match op
    case ResetFifos => c.(resets := 0)
    case TestOn => c.(test := true)
    case TestOff => c.(test := false)
    case TestMode(mode) => c.(mode := KnownMode(mode))
    case CountOn => c.(count := true)
    case CountOff => c.(count := false)
    case SendOn => c.(send := true)
    case SendOff => c.(send := false)
  }

  lemma ResetFifosIsRecordUpdate(d: bv32)
    ensures BitFields(Written(ResetFifos, d)) == Updated(ResetFifos, BitFields(d))
  {
  }

  lemma TestOnIsRecordUpdate(d: bv32)
    ensures BitFields(Written(TestOn, d)) == Updated(TestOn, BitFields(d))
  {
  }

  lemma TestOffIsRecordUpdate(d: bv32)
    ensures BitFields(Written(TestOff, d)) == Updated(TestOff, BitFields(d))
  {
  }

  lemma CountOnIsRecordUpdate(d: bv32)
    ensures BitFields(Written(CountOn, d)) == Updated(CountOn, BitFields(d))
  {
  }

  lemma CountOffIsRecordUpdate(d: bv32)
    ensures BitFields(Written(CountOff, d)) == Updated(CountOff, BitFields(d))
  {
  }

  lemma SendOnIsRecordUpdate(d: bv32)
    ensures BitFields(Written(SendOn, d)) == Updated(SendOn, BitFields(d))
  {
  }

  lemma SendOffIsRecordUpdate(d: bv32)
    ensures BitFields(Written(SendOff, d)) == Updated(SendOff, BitFields(d))
  {
  }

  lemma TestModeIsRecordUpdate(mode: nat, d: bv32)
    ensures BitFields(Written(TestMode(mode), d)) == Updated(TestMode(mode), BitFields(d))
  {
  }

  lemma HelperIsRecordUpdate(op: Op, d: bv32)
    ensures BitFields(Written(op, d)) == Updated(op, BitFields(d))
  {
    hide BitFields, Written, Updated;
    match op
    case ResetFifos => ResetFifosIsRecordUpdate(d);
    case TestOn => TestOnIsRecordUpdate(d);
    case TestOff => TestOffIsRecordUpdate(d);
    case CountOn => CountOnIsRecordUpdate(d);
    case CountOff => CountOffIsRecordUpdate(d);
    case SendOn => SendOnIsRecordUpdate(d);
    case SendOff => SendOffIsRecordUpdate(d);
    case TestMode(mode) => TestModeIsRecordUpdate(mode, d);
  }

  function RunWord(ops: seq<Op>, d: bv32): bv32 {
    if ops == [] then d else Written(ops[|ops| - 1], RunWord(ops[..|ops| - 1], d))
  }

  function RunRecord(ops: seq<Op>, c: Control): Control {
    if ops == [] then c else Updated(ops[|ops| - 1], RunRecord(ops[..|ops| - 1], c))
  }

  /** Refinement: any run of helpers on the word is the same run of record updates. */
  lemma {:induction false} RunRefinesRecord(ops: seq<Op>, d: bv32)
    ensures BitFields(RunWord(ops, d)) == RunRecord(ops, BitFields(d))
  {
    hide BitFields, Written, Updated;
    if ops != [] {
      var before := ops[..|ops| - 1];
      RunRefinesRecord(before, d);
      HelperIsRecordUpdate(ops[|ops| - 1], RunWord(before, d));
    }
  }

  /** What the latest of two opposite helpers made of a bit. */
  predicate LatestBit(ops: seq<Op>, on: Op, off: Op, before: bool) {
    if ops == [] then before
    else if ops[|ops| - 1] == on then true
    else if ops[|ops| - 1] == off then false
    else LatestBit(ops[..|ops| - 1], on, off, before)
  }

  /** The latest mode set, an unknown one being mode 0. */
  function LatestMode(ops: seq<Op>, before: bv32): bv32 {
    if ops == [] then before
    else
      match ops[|ops| - 1]
      case TestMode(mode) => KnownMode(mode)
      case _ => LatestMode(ops[..|ops| - 1], before)
  }

  lemma UpdatedFields(op: Op, c: Control)
    ensures var u := Updated(op, c);
            && u.count == (op == CountOn || (op != CountOff && c.count))
            && u.test == (op == TestOn || (op != TestOff && c.test))
            && u.send == (op == SendOn || (op != SendOff && c.send))
            && u.mode == (if op.TestMode? then KnownMode(op.mode) else c.mode)
            && u.resets == (if op == ResetFifos then 0 else c.resets)
            && u.others == c.others
  {
    hide KnownMode;
    match op
    case ResetFifos =>
    case TestOn =>
    case TestOff =>
    case CountOn =>
    case CountOff =>
    case SendOn =>
    case SendOff =>
    case TestMode(mode) =>
  }

  lemma {:induction false} RecordFollowsLatest(ops: seq<Op>, c: Control)
    ensures var r := RunRecord(ops, c);
            && r.count == LatestBit(ops, CountOn, CountOff, c.count)
            && r.test == LatestBit(ops, TestOn, TestOff, c.test)
            && r.send == LatestBit(ops, SendOn, SendOff, c.send)
            && r.mode == LatestMode(ops, c.mode)
            && r.resets == (if ResetFifos in ops then 0 else c.resets)
            && r.others == c.others
  {
    hide Updated, KnownMode;
    if ops != [] {
      var before, op := ops[..|ops| - 1], ops[|ops| - 1];
      RecordFollowsLatest(before, c);
      assert ops == before + [op];
      UpdatedFields(op, RunRecord(before, c));
    }
  }

  lemma FieldBits(d: bv32)
    ensures BitFields(d).count == (d & 0x40 != 0) && BitFields(d).test == (d & 0x80 != 0)
    ensures BitFields(d).send == (d & 0x100 != 0) && BitFields(d).mode == (d >> 9) & 7
    ensures BitFields(d).resets == d & 3 && BitFields(d).others == d & 0xFFFF_F03C
  {
  }

  /** After every run, by the numbers of the bits: bit 6 is what the latest packet-count helper said, bit 7 the latest
      test helper, bit 8 the latest send helper, bits 9 to 11 the number of the latest test mode; bits 0 and 1 are clear
      once the FIFOs have been reset and the rest never changes. */
  lemma BitsByNumber(ops: seq<Op>, d: bv32)
    ensures var w := RunWord(ops, d);
            && (w & 0x40 != 0) == LatestBit(ops, CountOn, CountOff, d & 0x40 != 0)
            && (w & 0x80 != 0) == LatestBit(ops, TestOn, TestOff, d & 0x80 != 0)
            && (w & 0x100 != 0) == LatestBit(ops, SendOn, SendOff, d & 0x100 != 0)
            && (w >> 9) & 7 == LatestMode(ops, (d >> 9) & 7)
            && w & 3 == (if ResetFifos in ops then 0 else d & 3)
            && w & 0xFFFF_F03C == d & 0xFFFF_F03C
  {
    hide *;
    RunRefinesRecord(ops, d);
    RecordFollowsLatest(ops, BitFields(d));
    FieldBits(d);
    FieldBits(RunWord(ops, d));
  }

  predicate Sound(c: Control) { c.mode <= 4 }

  predicate SomeTestMode(ops: seq<Op>) {
    exists k :: 0 <= k < |ops| && ops[k].TestMode?
  }

  lemma UpdateSound(op: Op, c: Control)
    ensures var u := Updated(op, c);
            && (Sound(u) <==> Sound(c) || op.TestMode?) && u.others == c.others
            && (u.resets == 0 <==> op == ResetFifos || c.resets == 0)
  {
    hide KnownMode;
    if op.TestMode? {
      KnownModeIsSmall(op.mode);
    }
  }

  lemma SomeTestModePush(ops: seq<Op>, op: Op)
    ensures SomeTestMode(ops + [op]) <==> SomeTestMode(ops) || op.TestMode?
  {
    if SomeTestMode(ops) {
      var k :| 0 <= k < |ops| && ops[k].TestMode?;
      assert (ops + [op])[k].TestMode?;
    }
    assert (ops + [op])[|ops|] == op;
  }

  /** After every run, from any word whatever: the mode is within 0..4 if and only if it was before or a mode has been
      set, the reset bits are clear if and only if they were before or the FIFOs have been reset, and the bits that
      belong to no field keep their value. */
  lemma {:induction false} RunKeepsWordSound(ops: seq<Op>, d: bv32)
    ensures var c := BitFields(RunWord(ops, d));
            && (Sound(c) <==> Sound(BitFields(d)) || SomeTestMode(ops))
            && (c.resets == 0 <==> BitFields(d).resets == 0 || ResetFifos in ops)
            && c.others == BitFields(d).others
  {
    hide BitFields, Written, Updated, Sound, SomeTestMode;
    if ops == [] {
      NoTestMode();
    } else {
      var before, op := ops[..|ops| - 1], ops[|ops| - 1];
      RunKeepsWordSound(before, d);
      HelperIsRecordUpdate(op, RunWord(before, d));
      UpdateSound(op, BitFields(RunWord(before, d)));
      assert ops == before + [op];
      SomeTestModePush(before, op);
    }
  }

  lemma NoTestMode()
    ensures !SomeTestMode([])
  {
  }
}
