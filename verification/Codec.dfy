/** The codec driver: every bus access, every polling loop, and the start-up sequence that waits for the PLL. */
module Codec {
  import opened Bytes
  import opened CodecWords
  import opened CodecDevice
  import opened CodecTrace
  import opened CodecStartup

  class Driver {
    const env: Environment
    ghost const powerOn: Codec
    var chip: Chip
    ghost var trace: seq<Event>
    ghost var calls: seq<Call>
    ghost var replies: seq<Reply>

    /** Between calls: the device is idle and out of reset once a call was made, the bus carried exactly the accesses of
        the calls made, the codec holds what those calls make it hold, and every read was answered with the last
        write. */
    ghost predicate Valid()
      reads this
    {
      && chip.remaining == 0
      && (calls != [] ==> !ResetField(chip.ctrl))
      && |calls| == |replies|
      && trace == BusEvents(calls, replies)
      && chip.codec == AfterCalls(env, powerOn, calls)
      && ReadsAreFaithful(calls)
    }

    /** Whatever calls were made, all accesses were safe, nothing is awaited and no RESET is left raised. */
    lemma TraceIsSafe()
      requires Valid()
      ensures Safe(trace) && !Awaiting(trace) && Settled(trace)
    {
      DrivenSafely(calls, replies);
    }

    constructor (env: Environment, chip: Chip)
      requires chip.remaining == 0
      ensures Valid() && this.env == env && this.chip == chip && calls == []
    {
      this.env := env;
      this.chip := chip;
      powerOn := chip.codec;
      trace, calls, replies := [], [], [];
    }

    method StoreWord(offset: nat, value: bv32)
      modifies `chip, `trace
      ensures chip == AfterStore(env, Ticked(env, old(chip)), offset, value)
      ensures trace == old(trace) + [Stored(offset, value, Ticked(env, old(chip)).remaining > 0)]
      ensures old(chip.remaining) == 0 ==>
                && chip == AfterStore(env, old(chip), offset, value)
                && trace == old(trace) + [Stored(offset, value, false)]
    {
      hide AfterStore;
      chip := Ticked(env, chip);
      trace := trace + [Stored(offset, value, chip.remaining > 0)];
      chip := AfterStore(env, chip, offset, value);
    }

    method FetchWord(offset: nat) returns (value: bv32)
      modifies `chip, `trace
      ensures chip == Ticked(env, old(chip))
      ensures value == Loaded(chip, offset)
      ensures trace == old(trace) + [Fetched(offset, value)]
      ensures old(chip.remaining) == 0 ==> chip == old(chip)
    {
      chip := Ticked(env, chip);
      value := Loaded(chip, offset);
      trace := trace + [Fetched(offset, value)];
    }

    /** One look at the busy register: one cycle nearer to the end of the transaction. */
    method Poll() returns (busy: bv32)
      requires chip.remaining > 0
      modifies `chip, `trace
      ensures busy != 0 <==> old(chip.remaining) > 1
      ensures chip == if busy != 0 then Left(old(chip), old(chip.remaining) - 1) else Completed(env, old(chip))
      ensures trace == old(trace) + [Fetched(BUSY, if busy != 0 then 1 else 0)]
    {
      hide Completed;
      busy := FetchWord(BUSY);
    }

    /** The polling loop ends: the device is idle again and the transaction has completed. */
    method WaitWhileBusy() returns (ghost polls: nat)
      requires chip.remaining > 0
      modifies `chip, `trace
      ensures chip == Completed(env, old(chip))
      ensures trace == old(trace) + Polling(polls)
      ensures polls == old(chip.remaining) - 1
    {
      hide *;
      ghost var started, before := chip, trace;
      ghost var cycles := started.remaining;
      polls := 0;
      PollingEnds(0);
      LeftOver(started, 0, cycles - 1);
      CompletedForgetsRemaining(env, started, 1);
      var busy := Poll();
      while busy != 0
        invariant busy != 0 <==> polls < cycles - 1
        invariant chip == if busy != 0 then Left(started, cycles - polls - 1) else Completed(env, started)
        invariant trace == before + BusyPolls(polls) + [Fetched(BUSY, if busy != 0 then 1 else 0)]
        invariant polls < cycles
        decreases cycles - polls
      {
        LeftOver(started, cycles - polls - 1, cycles - polls - 2);
        LeftOver(started, 0, cycles - polls - 1);
        CompletedForgetsRemaining(env, started, cycles - polls - 1);
        BusyPollsGrow(polls);
        polls := polls + 1;
        busy := Poll();
      }
      PollingEnds(polls);
    }

    /** The control word and then the same word with START: a transaction has begun. */
    method Start(w: bv32)
      requires chip.remaining == 0 && !StartField(w) && !ResetField(w)
      modifies `chip, `trace
      ensures chip == Begun(env, old(chip), w) && chip.remaining == env.latency(old(chip.starts)) + 1
      ensures trace == old(trace) + StartEvents(w)
    {
      hide StartField, ResetField, WithStart;
      StartBegins(env, chip, w);
      StoreWord(CTRL, w);
      StoreWord(CTRL, WithStart(w));
    }

    /** The call's accesses and effect are added to the record. */
    ghost method Record(call: Call, reply: Reply)
      requires |calls| == |replies| && ReadsAreFaithful(calls)
      requires chip.remaining == 0 && !ResetField(chip.ctrl)
      requires trace == BusEvents(calls, replies) + CallEvents(call, reply)
      requires chip.codec == After(env, AfterCalls(env, powerOn, calls), call)
      requires call.ReadCall? ==>
                 call.result == Truncated(Shown(env, AfterCalls(env, powerOn, calls), call.addr), call.length)
      modifies `calls, `replies
      ensures Valid()
      ensures calls == old(calls) + [call]
      ensures replies == old(replies) + [reply]
    {
      hide BusEvents, CallEvents, AfterCalls, After, LastWrite, Truncated, Shown;
      if call.ReadCall? && call.addr != PLL && LastWrite(calls, call.addr).Some? {
        CodecShowsLastWrite(env, powerOn, calls, call.addr);
      }
      BusEventsPush(calls, replies, call, reply);
      AfterCallsPush(env, powerOn, calls, call);
      FaithfulPush(calls, call);
      hide ReadsAreFaithful;
      calls := calls + [call];
      replies := replies + [reply];
    }

    method WriteAdau(addr: RegisterAddress, data: bv64, n: Length)
      requires Valid()
      modifies this
      ensures Valid()
      ensures calls == old(calls) + [WriteCall(addr, data, n)]
      ensures chip == WriteDone(env, old(chip), addr, data, n)
    {
      hide AddressField, LengthField, ReadField, StartField, ResetField, ControlWord, LowWord, HighWord, LeftJustified,
        Truncated, Completed, Begun, BusEvents, CallEvents, Polling, StartEvents, AfterCalls, ReadsAreFaithful,
        AfterWriting, Ticked;
      ghost var before := trace;
      var payload := LeftJustified(data, n);
      var w := ControlWord(addr, n, false);
      ControlWordDecodes(addr, n, false);
      StartLeavesFields(w);
      WriteCompletes(env, chip, addr, data, n);
      StoreWord(WRITE_LOW, LowWord(payload));
      StoreWord(WRITE_HIGH, HighWord(payload));
      Start(w);
      ghost var polls := WaitWhileBusy();
      WriteAssembles(before, addr, data, n, Reply(polls, 0, 0));
      Record(WriteCall(addr, data, n), Reply(polls, 0, 0));
    }

    /** The answer is what the codec shows, modulo 2^(8n); by `Valid`, the last value written there since a reset. */
    method ReadAdau(addr: RegisterAddress, n: Length) returns (result: bv64)
      requires Valid() && n < 8
      modifies this
      ensures Valid()
      ensures calls == old(calls) + [ReadCall(addr, n, result)]
      ensures chip == ReadDone(env, old(chip), addr, n)
      ensures result == Truncated(Shown(env, old(chip.codec), addr), n)
    {
      hide AddressField, LengthField, ReadField, StartField, ResetField, ControlWord, LowWord, HighWord, Rejoined, Held,
        Answer, Truncated, Completed, Begun, BusEvents, CallEvents, Polling, StartEvents, AfterCalls, ReadsAreFaithful,
        AfterReading, LastWrite, Shown, Ticked, ReadDone;
      ghost var before := trace;
      var w := ControlWord(addr, n, true);
      ControlWordDecodes(addr, n, true);
      StartLeavesFields(w);
      ReadCompletes(env, chip, addr, n);
      ReadAnswers(env, chip, addr, n);
      Start(w);
      ghost var polls := WaitWhileBusy();
      var low := FetchWord(READ_LOW);
      var high := FetchWord(READ_HIGH);
      result := Truncated(Rejoined(high, low), n);
      ReadAssembles(before, addr, n, result, Reply(polls, low, high));
      Record(ReadCall(addr, n, result), Reply(polls, low, high));
    }

    method ResetAdau()
      requires Valid()
      modifies this
      ensures Valid()
      ensures |calls| == |old(calls)| + 4 && calls[..|old(calls)| + 1] == old(calls) + [ResetCall]
      ensures forall i :: |old(calls)| < i < |calls| ==>
                calls[i].ReadCall? && calls[i].addr == 0 && calls[i].length == 1
    {
      hide *;
      PulseReset();
      var dummy := ReadAdau(0, 1);
      dummy := ReadAdau(0, 1);
      dummy := ReadAdau(0, 1);
    }

    method PulseReset()
      requires Valid()
      modifies this
      ensures Valid()
      ensures calls == old(calls) + [ResetCall] && chip.ctrl == 0
    {
      ghost var before := trace;
      StoreWord(CTRL, RESET);
      StoreWord(CTRL, 0);
      assert trace == before + CallEvents(ResetCall, Reply(0, 0, 0));
      hide CallEvents, BusEvents, AfterCalls, ReadsAreFaithful;
      Record(ResetCall, Reply(0, 0, 0));
    }

    /** One look at the PLL register. */
    method PollPll(ghost left: nat) returns (result: bv64)
      requires Valid() && Configured(env, chip.codec, left)
      modifies this
      ensures Valid()
      ensures left == 0 ==> result == 0x007d_000c_2303 && calls == old(calls) + [Locked()]
      ensures left > 0 ==>
                && result == 0x007d_000c_2301 && calls == old(calls) + [Unlocked()]
                && Configured(env, chip.codec, left - 1)
    {
      hide Configured, Truncated, Shown, AfterReading, AfterCalls, BusEvents, ReadsAreFaithful;
      ReadsConfigured(env, chip.codec, left);
      ReadAnswers(env, chip, PLL, 6);
      hide ReadDone;
      result := ReadAdau(PLL, 6);
    }

    method WaitForLock()
      requires Valid() && Configured(env, chip.codec, env.lockDelay)
      modifies this
      ensures Valid()
      ensures calls == old(calls) + Waiting(env.lockDelay) + [Locked()]
    {
      hide *;
      ghost var k, before := 0, calls;
      assert Waiting(0) == [] by { NothingWaits(); }
      var r := PollPll(env.lockDelay);
      while r & 2 == 0
        invariant Valid()
        invariant r == 0x007d_000c_2301 || r == 0x007d_000c_2303
        invariant r == 0x007d_000c_2301 ==>
                    && k < env.lockDelay && Configured(env, chip.codec, env.lockDelay - k - 1)
                    && calls == before + Waiting(k) + [Unlocked()]
        invariant r == 0x007d_000c_2303 ==> k == env.lockDelay && calls == before + Waiting(k) + [Locked()]
        decreases env.lockDelay - k
      {
        WaitingGrows(k);
        k := k + 1;
        r := PollPll(env.lockDelay - k);
      }
    }

    /** The start-up sequence, with as many looks at the PLL as it takes to lock. */
    method InitAdau()
      requires Valid()
      modifies this
      ensures Valid()
      ensures calls == old(calls) + Startup(env.lockDelay)
    {
      hide *;
      ghost var before := calls;
      WriteAdau(CLOCK, 0x0e, 1);
      Configure();
      WaitForLock();
      WriteAdau(CLOCK, 0x0f, 1);
      WriteSettings();
      StartupAssembles(before, env.lockDelay);
    }

    method Configure()
      requires Valid()
      modifies this
      ensures Valid()
      ensures calls == old(calls) + [WriteCall(PLL, 0x007d_000c_2301, 6)]
      ensures Configured(env, chip.codec, env.lockDelay)
    {
      hide Configured, Truncated, AfterWriting, LowWord, HighWord, LeftJustified, ControlWord;
      ConfiguresIt(env, chip.codec);
      hide AfterCalls, BusEvents, ReadsAreFaithful;
      WriteAdau(PLL, 0x007d_000c_2301, 6);
    }

    method WriteSettings()
      requires Valid()
      modifies this
      ensures Valid()
      ensures calls == old(calls) + Written(SETTINGS)
    {
      hide *;
      ghost var before := calls;
      NothingWaits();
      for i := 0 to |SETTINGS|
        invariant Valid()
        invariant calls == before + Written(SETTINGS[..i])
      {
        WrittenPush(SETTINGS[..i + 1]);
        assert SETTINGS[..i + 1][..i] == SETTINGS[..i];
        WriteAdau(SETTINGS[i].0, SETTINGS[i].1 as bv64, 1);
      }
      assert SETTINGS[..|SETTINGS|] == SETTINGS;
    }
  }
}
