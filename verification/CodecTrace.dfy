/** What the driver does on the bus, call by call, and a monitor that watches the bus alone. */
module CodecTrace {
  import opened Bytes
  import opened Common
  import opened CodecWords
  import opened CodecDevice

  /** A bus access; a store also records whether the device was busy when it arrived. */
  datatype Event = Stored(offset: nat, value: bv32, whileBusy: bool) | Fetched(offset: nat, value: bv32)

  datatype Call =
    | WriteCall(addr: RegisterAddress, data: bv64, length: Length)
    | ReadCall(addr: RegisterAddress, length: Length, result: bv64)
    | ResetCall

  /** What the device answered: how often a poll found it busy, and the two words fetched after a read. */
  datatype Reply = Reply(polls: nat, low: bv32, high: bv32)

  /** `polls` reads that find the device busy, then one that does not. */
  function Polling(polls: nat): seq<Event> { BusyPolls(polls) + [Fetched(BUSY, 0)] }

  function BusyPolls(polls: nat): seq<Event> { seq(polls, _ => Fetched(BUSY, 1)) }

  lemma BusyPollsGrow(polls: nat)
    ensures BusyPolls(polls + 1) == BusyPolls(polls) + [Fetched(BUSY, 1)]
  {
  }

  lemma PollingEnds(polls: nat)
    ensures BusyPolls(0) == []
    ensures Polling(polls) == BusyPolls(polls) + [Fetched(BUSY, 0)]
  {
  }

  function StartEvents(w: bv32): seq<Event> { [Stored(CTRL, w, false), Stored(CTRL, WithStart(w), false)] }

  function DataEvents(payload: bv64): seq<Event> {
    [Stored(WRITE_LOW, LowWord(payload), false), Stored(WRITE_HIGH, HighWord(payload), false)]
  }

  function CallEvents(call: Call, reply: Reply): seq<Event> {
    match call
    case WriteCall(addr, data, n) =>
      DataEvents(LeftJustified(data, n)) + StartEvents(ControlWord(addr, n, false)) + Polling(reply.polls)
    case ReadCall(addr, n, _) =>
      StartEvents(ControlWord(addr, n, true)) + Polling(reply.polls)
        + [Fetched(READ_LOW, reply.low), Fetched(READ_HIGH, reply.high)]
    case ResetCall => [Stored(CTRL, RESET, false), Stored(CTRL, 0, false)]
  }

  lemma WriteAssembles(before: seq<Event>, addr: RegisterAddress, data: bv64, n: Length, reply: Reply)
    ensures var payload := LeftJustified(data, n);
            before + [Stored(WRITE_LOW, LowWord(payload), false)] + [Stored(WRITE_HIGH, HighWord(payload), false)]
              + StartEvents(ControlWord(addr, n, false)) + Polling(reply.polls)
            == before + CallEvents(WriteCall(addr, data, n), reply)
  {
  }

  lemma ReadAssembles(before: seq<Event>, addr: RegisterAddress, n: Length, result: bv64, reply: Reply)
    ensures before + StartEvents(ControlWord(addr, n, true)) + Polling(reply.polls)
              + [Fetched(READ_LOW, reply.low)] + [Fetched(READ_HIGH, reply.high)]
            == before + CallEvents(ReadCall(addr, n, result), reply)
  {
  }

  function BusEvents(calls: seq<Call>, replies: seq<Reply>): seq<Event>
    requires |calls| == |replies|
  {
    if calls == [] then []
    else
      var k := |calls| - 1;
      BusEvents(calls[..k], replies[..k]) + CallEvents(calls[k], replies[k])
  }

  lemma BusEventsPush(calls: seq<Call>, replies: seq<Reply>, call: Call, reply: Reply)
    requires |calls| == |replies|
    ensures BusEvents(calls + [call], replies + [reply]) == BusEvents(calls, replies) + CallEvents(call, reply)
  {
  }

  // ---- the monitor -----------------------------------------------------------------------------------

  predicate IsStart(e: Event) { e.Stored? && e.offset == CTRL && StartField(e.value) }

  predicate IsReset(e: Event) { e.Stored? && e.offset == CTRL && ResetField(e.value) }

  /** The last access did not raise RESET. */
  predicate Settled(trace: seq<Event>) { trace != [] ==> !IsReset(trace[|trace| - 1]) }

  /** A START has been stored and no poll has yet found the device idle. */
  predicate Awaiting(trace: seq<Event>) {
    trace != [] &&
    var last := trace[|trace| - 1];
    if IsStart(last) then true
    else if last == Fetched(BUSY, 0) then false
    else Awaiting(trace[..|trace| - 1])
  }

  /** START is stored right after the same word without it, and a writing START right after its two data words. */
  predicate WellLed(before: seq<Event>, w: bv32) {
    && |before| >= 1
    && var word := before[|before| - 1];
    && word == Stored(CTRL, word.value, false) && !StartField(word.value) && w == WithStart(word.value)
    && (!ReadField(w) ==>
          && |before| >= 3
          && before[|before| - 3].Stored? && before[|before| - 3].offset == WRITE_LOW
          && before[|before| - 2].Stored? && before[|before| - 2].offset == WRITE_HIGH)
  }

  /** One access is safe after the accesses before it: nothing is stored while a transaction is in progress, either
      as the driver sees it or as the device does, every START is led as it should be, and a RESET is taken back at
      once. */
  predicate SafeNext(before: seq<Event>, e: Event) {
    && (!Settled(before) ==> e == Stored(CTRL, 0, false))
    && (e.Stored? ==> !Awaiting(before) && !e.whileBusy)
    && (IsStart(e) ==> WellLed(before, e.value))
  }

  ghost predicate Safe(trace: seq<Event>) {
    forall i :: 0 <= i < |trace| ==> SafeNext(trace[..i], trace[i])
  }

  /** Everything so far was safe, nothing is awaited and RESET has been taken back. */
  ghost predicate AtRest(trace: seq<Event>) { Safe(trace) && !Awaiting(trace) && Settled(trace) }

  lemma SafePush(trace: seq<Event>, e: Event)
    requires Safe(trace) && SafeNext(trace, e)
    ensures Safe(trace + [e])
  {
    hide SafeNext;
    forall i | 0 <= i < |trace + [e]|
      ensures SafeNext((trace + [e])[..i], (trace + [e])[i])
    {
      if i < |trace| {
        assert (trace + [e])[..i] == trace[..i];
      } else {
        assert (trace + [e])[..i] == trace;
      }
    }
  }

  lemma AwaitingPush(trace: seq<Event>, e: Event)
    ensures Awaiting(trace + [e]) == (IsStart(e) || (e != Fetched(BUSY, 0) && Awaiting(trace)))
  {
  }

  lemma SafeFetch(trace: seq<Event>, offset: nat, value: bv32)
    requires Safe(trace) && Settled(trace)
    ensures Safe(trace + [Fetched(offset, value)]) && Settled(trace + [Fetched(offset, value)])
    ensures Awaiting(trace + [Fetched(offset, value)])
            == (Awaiting(trace) && !(offset == BUSY && value == 0))
  {
    SafePush(trace, Fetched(offset, value));
    AwaitingPush(trace, Fetched(offset, value));
  }

  lemma {:induction false} SafePolls(trace: seq<Event>, polls: nat)
    requires Safe(trace) && Settled(trace)
    ensures AtRest(trace + Polling(polls))
    decreases polls
  {
    if polls == 0 {
      assert Polling(0) == [Fetched(BUSY, 0)];
      SafeFetch(trace, BUSY, 0);
    } else {
      SafeFetch(trace, BUSY, 1);
      SafePolls(trace + [Fetched(BUSY, 1)], polls - 1);
      assert Polling(polls) == [Fetched(BUSY, 1)] + Polling(polls - 1);
      assert trace + Polling(polls) == trace + [Fetched(BUSY, 1)] + Polling(polls - 1);
    }
  }

  /** A store that carries neither START nor RESET is safe whenever the bus is at rest. */
  lemma SafeStore(trace: seq<Event>, offset: nat, value: bv32)
    requires AtRest(trace)
    requires offset == CTRL ==> !StartField(value) && !ResetField(value)
    ensures AtRest(trace + [Stored(offset, value, false)])
  {
    SafePush(trace, Stored(offset, value, false));
    AwaitingPush(trace, Stored(offset, value, false));
  }

  lemma SafeStart(trace: seq<Event>, w: bv32, polls: nat)
    requires AtRest(trace) && !StartField(w) && !ResetField(w)
    requires !ReadField(w) ==>
               && |trace| >= 2
               && trace[|trace| - 2].Stored? && trace[|trace| - 2].offset == WRITE_LOW
               && trace[|trace| - 1].Stored? && trace[|trace| - 1].offset == WRITE_HIGH
    ensures AtRest(trace + StartEvents(w) + Polling(polls))
  {
    StartLeavesFields(w);
    SafeStore(trace, CTRL, w);
    var before := trace + [Stored(CTRL, w, false)];
    SafePush(before, Stored(CTRL, WithStart(w), false));
    assert before + [Stored(CTRL, WithStart(w), false)] == trace + StartEvents(w);
    SafePolls(trace + StartEvents(w), polls);
  }

  lemma SafeCall(trace: seq<Event>, call: Call, reply: Reply)
    requires AtRest(trace)
    ensures AtRest(trace + CallEvents(call, reply))
  {
    hide Safe, Awaiting, Settled, Polling, ControlWord, StartField, ReadField, ResetField, LowWord, HighWord,
      LeftJustified;
    match call
    case WriteCall(addr, data, n) =>
      var low, high := LowWord(LeftJustified(data, n)), HighWord(LeftJustified(data, n));
      ControlWordDecodes(addr, n, false);
      SafeStore(trace, WRITE_LOW, low);
      SafeStore(trace + [Stored(WRITE_LOW, low, false)], WRITE_HIGH, high);
      var ready := trace + [Stored(WRITE_LOW, low, false)] + [Stored(WRITE_HIGH, high, false)];
      SafeStart(ready, ControlWord(addr, n, false), reply.polls);
      assert trace + CallEvents(call, reply)
          == ready + StartEvents(ControlWord(addr, n, false)) + Polling(reply.polls);
    case ReadCall(addr, n, _) =>
      var low, high := reply.low, reply.high;
      ControlWordDecodes(addr, n, true);
      SafeStart(trace, ControlWord(addr, n, true), reply.polls);
      var done := trace + StartEvents(ControlWord(addr, n, true)) + Polling(reply.polls);
      SafeFetch(done, READ_LOW, low);
      SafeFetch(done + [Fetched(READ_LOW, low)], READ_HIGH, high);
      assert trace + CallEvents(call, reply) == done + [Fetched(READ_LOW, low)] + [Fetched(READ_HIGH, high)];
    case ResetCall =>
      SafeResets(trace, reply);
  }

  lemma SafeResets(trace: seq<Event>, reply: Reply)
    requires AtRest(trace)
    ensures AtRest(trace + CallEvents(ResetCall, reply))
  {
    var pulse := Stored(CTRL, RESET, false);
    SafePush(trace, pulse);
    AwaitingPush(trace, pulse);
    SafePush(trace + [pulse], Stored(CTRL, 0, false));
    AwaitingPush(trace + [pulse], Stored(CTRL, 0, false));
    assert trace + CallEvents(ResetCall, reply) == trace + [pulse] + [Stored(CTRL, 0, false)];
  }

  /** Whatever the calls and however long each transaction takes, the bus is driven safely. */
  lemma {:induction false} DrivenSafely(calls: seq<Call>, replies: seq<Reply>)
    requires |calls| == |replies|
    ensures AtRest(BusEvents(calls, replies))
  {
    if calls != [] {
      var k := |calls| - 1;
      DrivenSafely(calls[..k], replies[..k]);
      SafeCall(BusEvents(calls[..k], replies[..k]), calls[k], replies[k]);
    }
  }

  // ---- what the codec holds ----------------------------------------------------------------------------

  function After(env: Environment, codec: Codec, call: Call): Codec {
    match call
    case WriteCall(addr, data, n) => AfterWriting(env, codec, addr, Truncated(data, n))
    case ReadCall(addr, _, _) => AfterReading(codec, addr)
    case ResetCall => codec.(registers := env.reset(codec.registers))
  }

  function AfterCalls(env: Environment, codec: Codec, calls: seq<Call>): Codec {
    if calls == [] then codec
    else After(env, AfterCalls(env, codec, calls[..|calls| - 1]), calls[|calls| - 1])
  }

  lemma AfterCallsPush(env: Environment, codec: Codec, calls: seq<Call>, call: Call)
    ensures AfterCalls(env, codec, calls + [call]) == After(env, AfterCalls(env, codec, calls), call)
  {
  }

  /** The value last written to an address since the last reset, modulo 2^(8n). */
  function LastWrite(calls: seq<Call>, addr: bv32): Option<bv64> {
    if calls == [] then None
    else
      match calls[|calls| - 1]
      case ResetCall => None
      case WriteCall(a, data, n) =>
        if a == addr then Some(Truncated(data, n)) else LastWrite(calls[..|calls| - 1], addr)
      case ReadCall(_, _, _) => LastWrite(calls[..|calls| - 1], addr)
  }

  lemma {:induction false} CodecHoldsLastWrite(env: Environment, codec: Codec, calls: seq<Call>, addr: bv32)
    requires LastWrite(calls, addr).Some?
    ensures Held(env, AfterCalls(env, codec, calls).registers, addr) == LastWrite(calls, addr).value
  {
    hide Truncated, Shown;
    var k := |calls| - 1;
    if calls[k].ReadCall? || (calls[k].WriteCall? && calls[k].addr != addr) {
      CodecHoldsLastWrite(env, codec, calls[..k], addr);
    }
  }

  lemma CodecShowsLastWrite(env: Environment, codec: Codec, calls: seq<Call>, addr: bv32)
    requires addr != PLL && LastWrite(calls, addr).Some?
    ensures Shown(env, AfterCalls(env, codec, calls), addr) == LastWrite(calls, addr).value
  {
  }

  /** Every read in a history returned the value last written there since the last reset, modulo 2^(8n). The PLL
      register is the device's own, since one of its bits reports the lock. */
  ghost predicate ReadsAreFaithful(calls: seq<Call>) {
    forall i :: 0 <= i < |calls| && calls[i].ReadCall? && calls[i].addr != PLL ==>
      var latest := LastWrite(calls[..i], calls[i].addr);
      latest.Some? ==> calls[i].result == Truncated(latest.value, calls[i].length)
  }

  lemma FaithfulPush(calls: seq<Call>, call: Call)
    requires ReadsAreFaithful(calls)
    requires call.ReadCall? && call.addr != PLL ==>
               (LastWrite(calls, call.addr).Some? ==>
                  call.result == Truncated(LastWrite(calls, call.addr).value, call.length))
    ensures ReadsAreFaithful(calls + [call])
  {
    hide LastWrite, Truncated;
    var longer := calls + [call];
    assert longer[..|calls|] == calls;
    forall i | 0 <= i < |calls|
      ensures longer[..i] == calls[..i]
    {
    }
  }
}
