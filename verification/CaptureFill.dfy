/** The capture side of the audio pipeline: the retry loops of read_stream and the loop of
    axi_to_net_mq_writer that fills one packet, with both of its "FIFO empty" branches.

    A C macro keeps the arithmetic of its text: FIFO_SIZE/8 is 512/8, so a packet holds 64 words. */
module CaptureFill {
  import opened Common

  const FIFO_SIZE := 512
  const AXI_PKT_SIZE := FIFO_SIZE / 8

  // ---- read_stream ---------------------------------------------------------------------------

  datatype Channel = Left | Right

  /** What a data register shows when its FIFO has nothing to give. */
  const EMPTY_MARK: bv32 := 0xFF00_0000

  /** The two loop conditions differ: the left one is `>`, the right one is `==`. */
  predicate Retries(ch: Channel, word: bv32) {
    match ch
    case Left => word > EMPTY_MARK
    case Right => word == EMPTY_MARK
  }

  /** `port` is what successive reads of the channel's data register return. The caller of
      read_stream waits for as long as the loop retries, so some read must end it. */
  method ReadStream(ch: Channel, port: seq<bv32>) returns (word: bv32, count: nat)
    requires exists k :: 0 <= k < |port| && !Retries(ch, port[k])
    ensures 1 <= count <= |port|
    ensures word == port[count - 1] && !Retries(ch, word)
    ensures forall k :: 0 <= k < count - 1 ==> Retries(ch, port[k])
    ensures ch == Left ==> word <= 0xFF00_0000 && forall k :: 0 <= k < count - 1 ==> port[k] > 0xFF00_0000
    ensures ch == Right ==> word != 0xFF00_0000 && forall k :: 0 <= k < count - 1 ==> port[k] == 0xFF00_0000
  {
    word, count := port[0], 1;
    while Retries(ch, word)
      invariant 1 <= count <= |port|
      invariant word == port[count - 1]
      invariant forall k :: 0 <= k < count - 1 ==> Retries(ch, port[k])
      decreases |port| - count
    {
      word, count := port[count], count + 1;
    }
  }

  /** Number of reads read_stream makes before it accepts a word. */
  function ReadsNeeded(ch: Channel, port: seq<bv32>): (n: nat)
    requires exists k :: 0 <= k < |port| && !Retries(ch, port[k])
    ensures 1 <= n <= |port| && !Retries(ch, port[n - 1])
    ensures forall k :: 0 <= k < n - 1 ==> Retries(ch, port[k])
  {
    if !Retries(ch, port[0]) then 1
    else
      var k :| 0 <= k < |port| && !Retries(ch, port[k]);
      assert port[1..][k - 1] == port[k];
      var n := 1 + ReadsNeeded(ch, port[1..]);
      assert forall j :: 1 <= j < n - 1 ==> port[j] == port[1..][j - 1];
      n
  }

  /** What a channel reads from its port. */
  predicate Delivers(ch: Channel, port: seq<bv32>, word: bv32) {
    && (exists k :: 0 <= k < |port| && !Retries(ch, port[k]))
    && port[ReadsNeeded(ch, port) - 1] == word
  }

  /** The words a channel can deliver: on the left those up to the empty mark, the mark included, on the right all but
      the mark. */
  lemma DeliverableIff(ch: Channel, word: bv32)
    ensures (exists port :: Delivers(ch, port, word))
            <==> match ch case Left => word <= 0xFF00_0000 case Right => word != 0xFF00_0000
  {
    if !Retries(ch, word) {
      assert [word][0] == word;
      assert Delivers(ch, [word], word);
    }
  }

  /** On the same register contents the two channels return the same word exactly when the first
      word read lies below the empty mark: the left loop takes the mark itself for a sample, and
      it throws away every word above it. */
  lemma ChannelsAgreeIffFirstBelowMark(port: seq<bv32>)
    requires exists k :: 0 <= k < |port| && !Retries(Left, port[k])
    requires exists k :: 0 <= k < |port| && !Retries(Right, port[k])
    ensures port[ReadsNeeded(Left, port) - 1] == port[ReadsNeeded(Right, port) - 1]
            <==> port[0] < EMPTY_MARK
  {
  }

  // ---- the fill loop -------------------------------------------------------------------------

  /** What one pass through the loop body sees: the two status bits and the two samples that
      read_stream would return. */
  datatype Reading<T> = Reading(leftEmpty: bool, left: T, rightEmpty: bool, right: T)

  /** `buffer` and `i`. */
  datatype Filling<T> = Filling(slots: seq<T>, i: nat)

  predicate NoEmptyReport<T>(readings: seq<Reading<T>>) {
    forall k :: 0 <= k < |readings| ==> !readings[k].leftEmpty && !readings[k].rightEmpty
  }

  /** The store `buffer[i]` that follows `i++` lies past the end of the buffer. */
  predicate Overruns<T>(f: Filling<T>, r: Reading<T>) {
    !r.rightEmpty && f.i + 1 >= |f.slots|
  }

  /** One pass through the loop body, ending with the `i++` of the for statement. An empty left
      FIFO leaves the slot as it was; an empty right FIFO also skips the first `i++`. */
  function FillStep<T>(f: Filling<T>, r: Reading<T>): (g: Filling<T>)
    requires f.i < |f.slots| && !Overruns(f, r)
    ensures |g.slots| == |f.slots| && f.i < g.i <= |g.slots|
  {
    var slots := if r.leftEmpty then f.slots else f.slots[f.i := r.left];
    if r.rightEmpty then Filling(slots, f.i + 1)
    else Filling(slots[f.i + 1 := r.right], f.i + 2)
  }

  datatype Outcome<T> =
    | Filled(slots: seq<T>, used: nat)   // the loop ended after `used` passes
    | Overrun(used: nat)                 // pass number `used` stores past the end
    | Short                              // the readings given do not end the loop

  /** The whole loop, from a given `i` on. */
  function FillLoop<T>(f: Filling<T>, readings: seq<Reading<T>>): (o: Outcome<T>)
    ensures !o.Short? ==> o.used <= |readings|
    decreases |readings|
  {
    if f.i >= |f.slots| then Filled(f.slots, 0)
    else if readings == [] then Short
    else if Overruns(f, readings[0]) then Overrun(1)
    else
      match FillLoop(FillStep(f, readings[0]), readings[1..])
      case Filled(slots, used) => Filled(slots, used + 1)
      case Overrun(used) => Overrun(used + 1)
      case Short => Short
  }

  lemma {:induction false} FillLoopUnfold<T>(f: Filling<T>, readings: seq<Reading<T>>, k: nat, g: Filling<T>)
    requires k < |readings| && g.i < |g.slots|
    requires !Overruns(g, readings[k])
    requires FillLoop(f, readings) == AfterSkipping(k, FillLoop(g, readings[k..]))
    ensures FillLoop(f, readings) == AfterSkipping(k + 1, FillLoop(FillStep(g, readings[k]), readings[k + 1..]))
  {
  }

  function AfterSkipping<T>(k: nat, o: Outcome<T>): Outcome<T> {
    match o
    case Filled(slots, used) => Filled(slots, used + k)
    case Overrun(used) => Overrun(used + k)
    case Short => Short
  }

  /** The loop of axi_to_net_mq_writer over its own array. Sixty-four readings always end it,
      since every pass advances `i`. */
  method FillPacket<T>(buffer: array<T>, readings: seq<Reading<T>>) returns (overrun: bool, used: nat)
    requires |readings| >= buffer.Length
    modifies buffer
    ensures FillLoop(Filling(old(buffer[..]), 0), readings)
            == if overrun then Overrun(used) else Filled(buffer[..], used)
  {
    var i := 0;
    used, overrun := 0, false;
    ghost var start := Filling(buffer[..], 0);
    assert readings[0..] == readings;
    while i < buffer.Length
      invariant i <= buffer.Length && used <= i
      invariant FillLoop(start, readings) == AfterSkipping(used, FillLoop(Filling(buffer[..], i), readings[used..]))
    {
      var r := readings[used];
      ghost var before := Filling(buffer[..], i);
      if !r.leftEmpty {
        buffer[i] := r.left;
      }
      if !r.rightEmpty {
        i := i + 1;
        if i >= buffer.Length {
          return true, used + 1;
        }
        buffer[i] := r.right;
      }
      i := i + 1;
      FillLoopUnfold(start, readings, used, before);
      used := used + 1;
      assert Filling(buffer[..], i) == FillStep(before, r);
    }
  }

  // ---- when the loop stays inside the buffer ---------------------------------------------------

  function RightEmpties<T>(readings: seq<Reading<T>>): nat {
    if readings == [] then 0
    else (if readings[0].rightEmpty then 1 else 0) + RightEmpties(readings[1..])
  }

  lemma {:induction false} RightEmptiesBounded<T>(readings: seq<Reading<T>>)
    ensures RightEmpties(readings) <= |readings|
  {
    if readings != [] {
      RightEmptiesBounded(readings[1..]);
    }
  }

  /** Pass `p` meets the last slot with a right sample to store: before it, every pass advanced by two, less one for
      each right-empty report. */
  predicate OverrunsAt<T>(size: nat, i: nat, readings: seq<Reading<T>>, p: nat) {
    p < |readings| && !readings[p].rightEmpty && i + 2 * p - RightEmpties(readings[..p]) == size - 1
  }

  /** Told from the readings alone: the loop stores past the end if and only if some pass that has a right sample comes
      when twice the passes before it, less their right-empty reports, leave just one slot. */
  lemma {:induction false} OverrunIffLastSlotMetByRight<T>(f: Filling<T>, readings: seq<Reading<T>>)
    requires f.i <= |f.slots|
    ensures FillLoop(f, readings).Overrun? <==> exists p: nat :: OverrunsAt(|f.slots|, f.i, readings, p)
    decreases |readings|
  {
    var n := |f.slots|;
    if f.i >= n || readings == [] {
      forall p: nat | OverrunsAt(n, f.i, readings, p)
        ensures false
      {
        RightEmptiesBounded(readings[..p]);
      }
    } else {
      var head, rest := readings[0], readings[1..];
      if Overruns(f, head) {
        assert readings[..0] == [];
        assert OverrunsAt(n, f.i, readings, 0);
      } else {
        var next := FillStep(f, head);
        OverrunIffLastSlotMetByRight(next, rest);
        forall p: nat | p < |rest|
          ensures OverrunsAt(n, next.i, rest, p) == OverrunsAt(n, f.i, readings, p + 1)
        {
          assert readings[..p + 1][1..] == rest[..p];
        }
        if next.i < n && FillLoop(next, rest).Overrun? {
          var p: nat :| OverrunsAt(n, next.i, rest, p);
          assert OverrunsAt(n, f.i, readings, p + 1);
        }
        if exists p: nat :: OverrunsAt(n, f.i, readings, p) {
          var p: nat :| OverrunsAt(n, f.i, readings, p);
          assert readings[..0] == [];
          assert p > 0 && OverrunsAt(n, next.i, rest, p - 1);
        }
      }
    }
  }

  /** Over the passes the loop makes, that is a matter of parity. */
  lemma {:induction false} OverrunIffOddRightEmpties<T>(f: Filling<T>, readings: seq<Reading<T>>)
    requires f.i <= |f.slots|
    requires !FillLoop(f, readings).Short?
    ensures var o := FillLoop(f, readings);
            o.Overrun? <==> (|f.slots| - f.i + RightEmpties(readings[..o.used])) % 2 == 1
    decreases |readings|
  {
    var o := FillLoop(f, readings);
    if f.i < |f.slots| {
      var head := readings[0];
      if Overruns(f, head) {
        assert readings[..1] == [head];
        assert RightEmpties(readings[..1]) == RightEmpties(readings[..1][1..]) == 0;
      } else {
        var next := FillStep(f, head);
        OverrunIffOddRightEmpties(next, readings[1..]);
        assert readings[..o.used][1..] == readings[1..][..o.used - 1];
      }
    }
  }

  /** One right-empty report in the first pass of a packet and none after it. */
  function FirstRightMissing<T>(passes: nat, l: T, r: T): (readings: seq<Reading<T>>)
    ensures |readings| == passes
  {
    seq(passes, k => Reading(false, l, k == 0, r))
  }

  lemma {:induction false} FirstRightMissingCounts<T>(passes: nat, l: T, r: T, p: nat)
    requires 1 <= p <= passes
    ensures RightEmpties(FirstRightMissing(passes, l, r)[..p]) == 1
  {
    var first := FirstRightMissing(passes, l, r)[..p];
    NoneMissing(first[1..]);
  }

  lemma {:induction false} NoneMissing<T>(readings: seq<Reading<T>>)
    requires forall k :: 0 <= k < |readings| ==> !readings[k].rightEmpty
    ensures RightEmpties(readings) == 0
  {
    if readings != [] {
      NoneMissing(readings[1..]);
    }
  }

  /** It happens: a packet whose first right sample is missing is stored past its end in pass 33. */
  lemma OneMissingRightOverruns<T>(slots: seq<T>, l: T, r: T)
    requires |slots| == AXI_PKT_SIZE
    ensures FillLoop(Filling(slots, 0), FirstRightMissing(33, l, r)) == Overrun(33)
  {
    var f, readings := Filling(slots, 0), FirstRightMissing(33, l, r);
    FirstRightMissingCounts(33, l, r, 32);
    assert OverrunsAt(|slots|, 0, readings, 32);
    OverrunIffLastSlotMetByRight(f, readings);
    UsedWhenOverrun(f, readings);
    var used := FillLoop(f, readings).used;
    if used > 1 {
      FirstRightMissingCounts(33, l, r, used - 1);
    }
  }

  /** The pass that stores past the end is the one that meets the last slot. */
  lemma {:induction false} UsedWhenOverrun<T>(f: Filling<T>, readings: seq<Reading<T>>)
    requires f.i <= |f.slots| && FillLoop(f, readings).Overrun?
    ensures FillLoop(f, readings).used > 0
    ensures OverrunsAt(|f.slots|, f.i, readings, FillLoop(f, readings).used - 1)
    decreases |readings|
  {
    var used := FillLoop(f, readings).used;
    assert readings[..0] == [];
    if !Overruns(f, readings[0]) {
      UsedWhenOverrun(FillStep(f, readings[0]), readings[1..]);
      assert readings[..used - 1][1..] == readings[1..][..used - 2];
    }
  }

  // ---- which sample ends up in which slot -----------------------------------------------------

  /** Where the content of a slot comes from: what the slot held before the loop began, or the
      left or right sample of a given pass. */
  datatype Tag = Kept(slot: nat) | FromLeft(pass: nat) | FromRight(pass: nat)

  /** The readings with every sample replaced by its own name. */
  function Tagged<T>(readings: seq<Reading<T>>): (t: seq<Reading<Tag>>)
    ensures |t| == |readings|
  {
    seq(|readings|, k requires 0 <= k < |readings| =>
      Reading(readings[k].leftEmpty, FromLeft(k), readings[k].rightEmpty, FromRight(k)))
  }

  function Untouched(size: nat): (f: Filling<Tag>)
    ensures |f.slots| == size
  {
    Filling(seq(size, j requires 0 <= j < size => Kept(j)), 0)
  }

  /** Even slots hold this packet's left samples in order, odd slots its right samples. */
  predicate Alternates(slots: seq<Tag>) {
    forall j :: 0 <= j < |slots| ==>
      slots[j] == if j % 2 == 0 then FromLeft(j / 2) else FromRight(j / 2)
  }

  /** Without empty reports the loop interleaves the samples from slot `i` on. */
  lemma {:induction false} PlainFill<T>(f: Filling<T>, readings: seq<Reading<T>>, passes: nat)
    requires f.i + 2 * passes == |f.slots| && passes <= |readings|
    requires NoEmptyReport(readings[..passes])
    ensures var o := FillLoop(f, readings);
            && o.Filled? && o.used == passes && |o.slots| == |f.slots|
            && (forall j :: 0 <= j < f.i ==> o.slots[j] == f.slots[j])
            && (forall j :: 0 <= j < passes ==> o.slots[f.i + 2 * j] == readings[j].left)
            && (forall j :: 0 <= j < passes ==> o.slots[f.i + 2 * j + 1] == readings[j].right)
    decreases passes
  {
    if passes > 0 {
      var head, rest := readings[0], readings[1..];
      assert readings[..passes][0] == head;
      assert rest[..passes - 1] == readings[..passes][1..];
      var next := FillStep(f, head);
      PlainFill(next, rest, passes - 1);
      var o := FillLoop(f, readings);
      forall j | 0 <= j < passes
        ensures o.slots[f.i + 2 * j] == readings[j].left && o.slots[f.i + 2 * j + 1] == readings[j].right
      {
        if j > 0 {
          assert readings[j] == rest[j - 1];
          assert f.i + 2 * j == next.i + 2 * (j - 1);
        }
      }
    }
  }

  predicate NamedFrom(readings: seq<Reading<Tag>>, from: nat) {
    forall k :: 0 <= k < |readings| ==>
      readings[k].left == FromLeft(from + k) && readings[k].right == FromRight(from + k)
  }

  predicate OlderThan(t: Tag, from: nat) {
    t.Kept? || t.pass < from
  }

  predicate Reported(readings: seq<Reading<Tag>>, from: nat, t: Tag)
    requires !OlderThan(t, from)
  {
    && t.pass - from < |readings|
    && (t.FromLeft? ==> !readings[t.pass - from].leftEmpty)
    && (t.FromRight? ==> !readings[t.pass - from].rightEmpty)
  }

  /** A sample of some pass can only be in the packet when that pass did not report it missing. */
  lemma {:induction false} OnlyReportedSamples(f: Filling<Tag>, readings: seq<Reading<Tag>>, from: nat)
    requires NamedFrom(readings, from)
    requires forall j :: 0 <= j < |f.slots| ==> OlderThan(f.slots[j], from)
    requires FillLoop(f, readings).Filled?
    ensures |FillLoop(f, readings).slots| == |f.slots|
    ensures forall j :: 0 <= j < |f.slots| ==>
              var t := FillLoop(f, readings).slots[j];
              if OlderThan(t, from) then t == f.slots[j] else Reported(readings, from, t)
    decreases |readings|
  {
    if f.i < |f.slots| {
      var next := FillStep(f, readings[0]);
      assert forall k :: 0 <= k < |readings| - 1 ==> readings[1..][k] == readings[k + 1];
      OnlyReportedSamples(next, readings[1..], from + 1);
    }
  }

  lemma NoEmptyReportAlternates<T>(size: nat, readings: seq<Reading<T>>)
    requires size % 2 == 0 && size <= |readings|
    requires NoEmptyReport(readings[..size / 2])
    ensures var o := FillLoop(Untouched(size), Tagged(readings));
            o.Filled? && |o.slots| == size && Alternates(o.slots)
  {
    var f, named := Untouched(size), Tagged(readings);
    forall k | 0 <= k < size / 2
      ensures !named[..size / 2][k].leftEmpty && !named[..size / 2][k].rightEmpty
    {
      assert named[k].leftEmpty == readings[..size / 2][k].leftEmpty;
      assert named[k].rightEmpty == readings[..size / 2][k].rightEmpty;
    }
    PlainFill(f, named, size / 2);
    var slots := FillLoop(f, named).slots;
    forall j | 0 <= j < size
      ensures slots[j] == if j % 2 == 0 then FromLeft(j / 2) else FromRight(j / 2)
    {
      assert j == 2 * (j / 2) + j % 2;
      assert slots[0 + 2 * (j / 2)] == named[j / 2].left;
      assert slots[0 + 2 * (j / 2) + 1] == named[j / 2].right;
    }
  }

  lemma AlternatingMeansNoEmptyReport<T>(size: nat, readings: seq<Reading<T>>)
    requires size % 2 == 0 && size <= |readings|
    requires FillLoop(Untouched(size), Tagged(readings)).Filled?
    requires Alternates(FillLoop(Untouched(size), Tagged(readings)).slots)
    ensures NoEmptyReport(readings[..size / 2])
  {
    var f, named := Untouched(size), Tagged(readings);
    OnlyReportedSamples(f, named, 0);
    var slots := FillLoop(f, named).slots;
    forall k | 0 <= k < size / 2
      ensures !readings[..size / 2][k].leftEmpty && !readings[..size / 2][k].rightEmpty
    {
      assert slots[2 * k] == FromLeft(k) && Reported(named, 0, slots[2 * k]);
      assert slots[2 * k + 1] == FromRight(k) && Reported(named, 0, slots[2 * k + 1]);
    }
  }

  /** The packet built is the fresh alternating one exactly when neither FIFO was reported empty
      during the passes such a packet takes. */
  lemma AlternatesIffNoEmptyReport<T>(size: nat, readings: seq<Reading<T>>)
    requires size % 2 == 0 && size <= |readings|
    ensures var o := FillLoop(Untouched(size), Tagged(readings));
            o.Filled? && |o.slots| == size && Alternates(o.slots)
            <==> NoEmptyReport(readings[..size / 2])
  {
    var o := FillLoop(Untouched(size), Tagged(readings));
    if NoEmptyReport(readings[..size / 2]) {
      NoEmptyReportAlternates(size, readings);
    } else if o.Filled? && Alternates(o.slots) {
      AlternatingMeansNoEmptyReport(size, readings);
    }
  }

  lemma {:induction false} FilledSlotsStay<T>(f: Filling<T>, readings: seq<Reading<T>>)
    requires f.i <= |f.slots| && FillLoop(f, readings).Filled?
    ensures |FillLoop(f, readings).slots| == |f.slots|
    ensures forall j :: 0 <= j < f.i ==> FillLoop(f, readings).slots[j] == f.slots[j]
    decreases |readings|
  {
    if f.i < |f.slots| {
      FilledSlotsStay(FillStep(f, readings[0]), readings[1..]);
    }
  }

  /** Slots from `i` on still hold what they held before the packet. */
  predicate UntouchedFrom(slots: seq<Tag>, i: nat) {
    forall j :: i <= j < |slots| ==> slots[j] == Kept(j)
  }

  /** What pass number `pass` left in the packet: its left sample at slot `at`, or the old content if there was none,
      and its right sample, if there was one, in the slot after. */
  predicate PassStands<T>(slots: seq<Tag>, at: int, r: Reading<T>, pass: nat) {
    && 0 <= at < |slots|
    && slots[at] == (if r.leftEmpty then Kept(at) else FromLeft(pass))
    && (!r.rightEmpty ==> at + 1 < |slots| && slots[at + 1] == FromRight(pass))
  }

  lemma PassPlace<T>(i: nat, readings: seq<Reading<T>>, p: nat)
    requires p < |readings|
    ensures var rest := readings[1..];
            (if readings[0].rightEmpty then i + 1 else i + 2) + 2 * p - RightEmpties(rest[..p])
            == i + 2 * (p + 1) - RightEmpties(readings[..p + 1])
  {
    assert readings[..p + 1][1..] == readings[1..][..p];
  }

  lemma PassStandsAtOnce(f: Filling<Tag>, r: Reading<Tag>, pass: nat)
    requires f.i < |f.slots| && UntouchedFrom(f.slots, f.i) && !Overruns(f, r)
    requires r.left == FromLeft(pass) && r.right == FromRight(pass)
    ensures var g := FillStep(f, r);
            UntouchedFrom(g.slots, g.i) && PassStands(g.slots, f.i, r, pass)
  {
  }

  lemma PassStandsOn(g: Filling<Tag>, slots: seq<Tag>, f: Filling<Tag>, r: Reading<Tag>, pass: nat)
    requires f.i < |f.slots| && !Overruns(f, r) && g.i == FillStep(f, r).i && PassStands(g.slots, f.i, r, pass)
    requires g.i <= |g.slots| == |slots| && forall j :: 0 <= j < g.i ==> slots[j] == g.slots[j]
    ensures PassStands(slots, f.i, r, pass)
  {
  }

  predicate PassesStandFrom(slots: seq<Tag>, i: nat, readings: seq<Reading<Tag>>, from: nat, used: nat)
    requires used <= |readings|
  {
    forall p :: 0 <= p < used ==> PassStands(slots, i + 2 * p - RightEmpties(readings[..p]), readings[p], from + p)
  }

  lemma OnePassMore(slots: seq<Tag>, f: Filling<Tag>, readings: seq<Reading<Tag>>, from: nat, used: nat)
    requires f.i < |f.slots| && 0 < used <= |readings| && !Overruns(f, readings[0])
    requires PassStands(slots, f.i, readings[0], from)
    requires PassesStandFrom(slots, FillStep(f, readings[0]).i, readings[1..], from + 1, used - 1)
    ensures PassesStandFrom(slots, f.i, readings, from, used)
  {
    hide PassStands;
    var rest, next := readings[1..], FillStep(f, readings[0]);
    assert readings[..0] == [];
    forall p | 0 <= p < used
      ensures PassStands(slots, f.i + 2 * p - RightEmpties(readings[..p]), readings[p], from + p)
    {
      if p > 0 {
        PassPlace(f.i, readings, p - 1);
        assert PassStands(slots, next.i + 2 * (p - 1) - RightEmpties(rest[..p - 1]), rest[p - 1], from + 1 + (p - 1));
      }
    }
  }

  /** From any point of the loop on, nothing that a pass stores is overwritten later. */
  lemma {:induction false} PassesStand(f: Filling<Tag>, readings: seq<Reading<Tag>>, from: nat)
    requires f.i <= |f.slots| && UntouchedFrom(f.slots, f.i) && NamedFrom(readings, from)
    requires FillLoop(f, readings).Filled?
    ensures var o := FillLoop(f, readings);
            && f.i + 2 * o.used - RightEmpties(readings[..o.used]) == |f.slots| == |o.slots|
            && PassesStandFrom(o.slots, f.i, readings, from, o.used)
    decreases |readings|
  {
    hide PassStands, PassesStandFrom, UntouchedFrom;
    var o := FillLoop(f, readings);
    if f.i < |f.slots| {
      var rest, next := readings[1..], FillStep(f, readings[0]);
      assert forall k :: 0 <= k < |rest| ==> rest[k] == readings[k + 1];
      PassStandsAtOnce(f, readings[0], from);
      PassesStand(next, rest, from + 1);
      FilledSlotsStay(next, rest);
      PassPlace(f.i, readings, o.used - 1);
      PassStandsOn(next, o.slots, f, readings[0], from);
      OnePassMore(o.slots, f, readings, from, o.used);
    } else {
      NoPassStands(o.slots, f.i, readings, from);
    }
  }

  lemma NoPassStands(slots: seq<Tag>, i: nat, readings: seq<Reading<Tag>>, from: nat)
    ensures PassesStandFrom(slots, i, readings, from, 0) && RightEmpties(readings[..0]) == 0
  {
  }

  lemma SameStand<T>(slots: seq<Tag>, at: int, readings: seq<Reading<T>>, p: nat)
    requires p < |readings|
    ensures PassStands(slots, at, Tagged(readings)[p], p) == PassStands(slots, at, readings[p], p)
  {
  }

  /** The finished packet, told from the readings alone: pass `p` stands at slot 2p less the right-empty reports before
      it, and the passes made exactly fill the packet. */
  lemma EveryPassStands<T>(size: nat, readings: seq<Reading<T>>)
    requires FillLoop(Untouched(size), Tagged(readings)).Filled?
    ensures var o := FillLoop(Untouched(size), Tagged(readings));
            && 2 * o.used - RightEmpties(readings[..o.used]) == size == |o.slots|
            && forall p :: 0 <= p < o.used ==>
                 PassStands(o.slots, 2 * p - RightEmpties(readings[..p]), readings[p], p)
  {
    var named := Tagged(readings);
    PassesStand(Untouched(size), named, 0);
    hide FillLoop, PassStands;
    var o := FillLoop(Untouched(size), named);
    SameReports(readings, o.used);
    forall p | 0 <= p < o.used
      ensures PassStands(o.slots, 2 * p - RightEmpties(readings[..p]), readings[p], p)
    {
      SameReports(readings, p);
      assert PassStands(o.slots, 0 + 2 * p - RightEmpties(named[..p]), named[p], 0 + p);
      SameStand(o.slots, 2 * p - RightEmpties(named[..p]), readings, p);
    }
  }

  /** No left sample in a right slot and no right sample in a left one. */
  predicate OwnChannel(slots: seq<Tag>) {
    forall j :: 0 <= j < |slots| ==>
      (slots[j].FromLeft? ==> j % 2 == 0) && (slots[j].FromRight? ==> j % 2 == 1)
  }

  /** Pass `p` comes at an odd index, still inside the packet, with a sample to store. */
  predicate CrossesAt<T>(size: nat, i: nat, readings: seq<Reading<T>>, p: nat) {
    && p < |readings|
    && i + 2 * p - RightEmpties(readings[..p]) < size
    && (i + 2 * p - RightEmpties(readings[..p])) % 2 == 1
    && (!readings[p].leftEmpty || !readings[p].rightEmpty)
  }

  predicate NamedByChannel(readings: seq<Reading<Tag>>) {
    forall k :: 0 <= k < |readings| ==> readings[k].left.FromLeft? && readings[k].right.FromRight?
  }

  /** Slots from `i` on are not filled yet. */
  predicate KeptFrom(slots: seq<Tag>, i: nat) {
    forall j :: i <= j < |slots| ==> slots[j].Kept?
  }

  lemma StepKeepsChannelIff(f: Filling<Tag>, r: Reading<Tag>)
    requires f.i < |f.slots| && |f.slots| % 2 == 0 && KeptFrom(f.slots, f.i) && !Overruns(f, r)
    requires r.left.FromLeft? && r.right.FromRight?
    ensures KeptFrom(FillStep(f, r).slots, FillStep(f, r).i)
    ensures OwnChannel(FillStep(f, r).slots)
            <==> OwnChannel(f.slots) && !(f.i % 2 == 1 && (!r.leftEmpty || !r.rightEmpty))
  {
    var g := FillStep(f, r);
    assert !r.leftEmpty ==> g.slots[f.i] == r.left;
    assert !r.rightEmpty ==> g.slots[f.i + 1] == r.right;
    assert forall j :: 0 <= j < f.i ==> g.slots[j] == f.slots[j];
  }

  /** A slot filled stays, so a sample once on the wrong channel stays there. */
  lemma {:induction false} KeepsChannelIff(f: Filling<Tag>, readings: seq<Reading<Tag>>)
    requires f.i <= |f.slots| && |f.slots| % 2 == 0 && KeptFrom(f.slots, f.i)
    requires NamedByChannel(readings) && |f.slots| - f.i <= |readings|
    ensures var o := FillLoop(f, readings);
            o.Filled? && OwnChannel(o.slots)
            <==> OwnChannel(f.slots) && forall p: nat :: !CrossesAt(|f.slots|, f.i, readings, p)
    decreases |readings|
  {
    var n := |f.slots|;
    if f.i == n {
      forall p: nat | CrossesAt(n, f.i, readings, p)
        ensures false
      {
        RightEmptiesBounded(readings[..p]);
      }
    } else {
      var head, rest := readings[0], readings[1..];
      assert readings[..0] == [];
      if Overruns(f, head) {
        assert CrossesAt(n, f.i, readings, 0);
      } else {
        var next := FillStep(f, head);
        StepKeepsChannelIff(f, head);
        KeepsChannelIff(next, rest);
        CrossesLater(f, readings);
        assert CrossesAt(n, f.i, readings, 0) <==> f.i % 2 == 1 && (!head.leftEmpty || !head.rightEmpty);
      }
    }
  }

  lemma CrossesLater(f: Filling<Tag>, readings: seq<Reading<Tag>>)
    requires f.i < |f.slots| && readings != [] && !Overruns(f, readings[0])
    ensures var n, next := |f.slots|, FillStep(f, readings[0]);
            (forall p: nat :: !CrossesAt(n, f.i, readings, p))
            <==> !CrossesAt(n, f.i, readings, 0) && forall p: nat :: !CrossesAt(n, next.i, readings[1..], p)
  {
    var n, next, rest := |f.slots|, FillStep(f, readings[0]), readings[1..];
    forall p: nat | p < |rest|
      ensures CrossesAt(n, next.i, rest, p) == CrossesAt(n, f.i, readings, p + 1)
    {
      assert readings[..p + 1][1..] == rest[..p];
    }
    if !CrossesAt(n, f.i, readings, 0) && forall p: nat :: !CrossesAt(n, next.i, rest, p) {
      forall p: nat
        ensures !CrossesAt(n, f.i, readings, p)
      {
        if 0 < p < |readings| {
          assert !CrossesAt(n, next.i, rest, p - 1);
        }
      }
    }
    if forall p: nat :: !CrossesAt(n, f.i, readings, p) {
      forall p: nat
        ensures !CrossesAt(n, next.i, rest, p)
      {
        if p < |rest| {
          assert !CrossesAt(n, f.i, readings, p + 1);
        }
      }
    }
  }

  lemma {:induction false} SameReports<T>(readings: seq<Reading<T>>, p: nat)
    requires p <= |readings|
    ensures RightEmpties(Tagged(readings)[..p]) == RightEmpties(readings[..p])
    decreases p
  {
    if p > 0 {
      RightEmptiesPush(readings[..p - 1], readings[p - 1]);
      RightEmptiesPush(Tagged(readings)[..p - 1], Tagged(readings)[p - 1]);
      assert readings[..p] == readings[..p - 1] + [readings[p - 1]];
      assert Tagged(readings)[..p] == Tagged(readings)[..p - 1] + [Tagged(readings)[p - 1]];
      SameReports(readings, p - 1);
    }
  }

  lemma {:induction false} RightEmptiesPush<T>(readings: seq<Reading<T>>, r: Reading<T>)
    ensures RightEmpties(readings + [r]) == RightEmpties(readings) + if r.rightEmpty then 1 else 0
  {
    if readings == [] {
      assert [] + [r] == [r] && [r][1..] == [];
    } else {
      assert (readings + [r])[1..] == readings[1..] + [r];
      RightEmptiesPush(readings[1..], r);
    }
  }

  /** Told from the readings alone: a packet is built in which no sample changes channel if and only if no pass with a
      sample to store comes at an odd index, that is, after an odd number of right-empty reports, inside the packet.
      Left-empty reports do no harm. */
  lemma SamplesKeepChannelIff<T>(size: nat, readings: seq<Reading<T>>)
    requires size % 2 == 0 && size <= |readings|
    ensures var o := FillLoop(Untouched(size), Tagged(readings));
            o.Filled? && OwnChannel(o.slots) <==> forall p: nat :: !CrossesAt(size, 0, readings, p)
  {
    hide FillLoop;
    var f, named := Untouched(size), Tagged(readings);
    KeepsChannelIff(f, named);
    forall p: nat
      ensures CrossesAt(size, 0, named, p) == CrossesAt(size, 0, readings, p)
    {
      if p < |readings| {
        SameReports(readings, p);
      }
    }
  }

  /** How a sample changes channel: when the first pass finds the right FIFO empty, the left sample of the second pass
      goes to slot 1, which is played on the right. */
  lemma MissingRightCrosses<T>(size: nat, readings: seq<Reading<T>>)
    requires size >= 2 && |readings| >= 2
    requires readings[0].rightEmpty && !readings[1].leftEmpty
    requires FillLoop(Untouched(size), Tagged(readings)).Filled?
    ensures var o := FillLoop(Untouched(size), Tagged(readings));
            |o.slots| == size && o.slots[1] == FromLeft(1)
  {
    var f, named := Untouched(size), Tagged(readings);
    var g := FillStep(f, named[0]);
    var rest := named[1..];
    assert rest[0] == named[1];
    var h := FillStep(g, rest[0]);
    FilledSlotsStay(h, rest[1..]);
    assert h.slots[1] == FromLeft(1);
  }

  /** The sample a tag stands for. */
  function Meaning<T>(f: Filling<T>, readings: seq<Reading<T>>, t: Tag): Option<T> {
    match t
    case Kept(slot) => if slot < |f.slots| then Some(f.slots[slot]) else None
    case FromLeft(pass) => if pass < |readings| then Some(readings[pass].left) else None
    case FromRight(pass) => if pass < |readings| then Some(readings[pass].right) else None
  }

  ghost predicate Explains<T>(f0: Filling<T>, all: seq<Reading<T>>, names: seq<Tag>, values: seq<T>) {
    && |names| == |values|
    && forall j :: 0 <= j < |names| ==> Meaning(f0, all, names[j]) == Some(values[j])
  }

  /** Running the loop on names and running it on samples give the same packet: the tags say
      truly where each sample of the real packet comes from. */
  lemma {:induction false} TagsAreTruthful<T>(
    f0: Filling<T>, all: seq<Reading<T>>, passed: nat, f: Filling<T>, named: Filling<Tag>)
    requires passed <= |all| && f.i == named.i
    requires Explains(f0, all, named.slots, f.slots)
    ensures var o, t := FillLoop(f, all[passed..]), FillLoop(named, Tagged(all)[passed..]);
            && o.Filled? == t.Filled? && o.Overrun? == t.Overrun?
            && (!o.Short? ==> o.used == t.used)
            && (o.Filled? ==> Explains(f0, all, t.slots, o.slots))
    decreases |all| - passed
  {
    if f.i < |f.slots| && passed < |all| {
      var r, rn := all[passed], Tagged(all)[passed];
      assert all[passed..][1..] == all[passed + 1..];
      assert Tagged(all)[passed..][1..] == Tagged(all)[passed + 1..];
      if !Overruns(f, r) {
        TagsAreTruthful(f0, all, passed + 1, FillStep(f, r), FillStep(named, rn));
      }
    }
  }
}
