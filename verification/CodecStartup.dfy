/** The codec's start-up: the clock source, the PLL, the wait for its lock, the core clock, and then the settings. */
module CodecStartup {
  import opened Common
  import opened CodecWords
  import opened CodecDevice
  import opened CodecTrace

  const CLOCK: RegisterAddress := 0x4000

  /** One-byte settings in the order they are written once the core clock runs. */
  const SETTINGS: seq<(RegisterAddress, bv8)> := [
    (0x4015, 0x01), (0x400a, 0x0f), (0x400b, 0x07), (0x400c, 0x0f), (0x400d, 0x07), (0x4010, 0x05), (0x401c, 0x21),
    (0x401e, 0x21), (0x4020, 0x05), (0x4021, 0x11), (0x4023, 0xe7), (0x4024, 0xe7), (0x4025, 0xe7), (0x4026, 0xe7),
    (0x4017, 0x06), (0x40f8, 0x06), (0x40eb, 0x07), (0x4019, 0x03), (0x4029, 0x03), (0x402a, 0x03), (0x402b, 0x00),
    (0x402c, 0x00), (0x40f2, 0x01), (0x40f3, 0x01), (0x40f9, 0x7f), (0x40fa, 0x03)]

  function Setup(): seq<Call> {
    [WriteCall(CLOCK, 0x0e, 1), WriteCall(PLL, 0x007d_000c_2301, 6)]
  }

  /** What the configured PLL register reads until it locks, and once it has. */
  function Unlocked(): Call { ReadCall(PLL, 6, 0x007d_000c_2301) }

  function Locked(): Call { ReadCall(PLL, 6, 0x007d_000c_2303) }

  function Waiting(k: nat): seq<Call> { seq(k, _ => Unlocked()) }

  function WriteOf(setting: (RegisterAddress, bv8)): Call { WriteCall(setting.0, setting.1 as bv64, 1) }

  function Written(settings: seq<(RegisterAddress, bv8)>): seq<Call> {
    seq(|settings|, i requires 0 <= i < |settings| => WriteOf(settings[i]))
  }

  /** The whole start-up when the PLL shows itself unlocked `k` times. */
  function Startup(k: nat): seq<Call> {
    Setup() + Waiting(k) + [Locked()] + [WriteCall(CLOCK, 0x0f, 1)] + Written(SETTINGS)
  }

  lemma WaitingGrows(k: nat)
    ensures Waiting(k + 1) == Waiting(k) + [Unlocked()]
  {
  }

  /** What a read of the configured PLL register returns, and what is left to wait for. */
  predicate Configured(env: Environment, codec: Codec, left: nat) {
    Held(env, codec.registers, PLL) == 0x007d_000c_2301 && codec.unlockedReads == left
  }

  lemma ConfiguresIt(env: Environment, codec: Codec)
    ensures Configured(env, AfterWriting(env, codec, PLL, Truncated(0x007d_000c_2301, 6)), env.lockDelay)
  {
  }

  lemma ReadsConfigured(env: Environment, codec: Codec, left: nat)
    requires Configured(env, codec, left)
    ensures Truncated(Shown(env, codec, PLL), 6) == if left == 0 then 0x007d_000c_2303 else 0x007d_000c_2301
    ensures Configured(env, AfterReading(codec, PLL), if left == 0 then 0 else left - 1)
  {
  }

  /** A call that turns the core clock on. */
  predicate EnablesClock(call: Call) { call.WriteCall? && call.addr == CLOCK && call.data & 1 != 0 }

  predicate ReadsLocked(call: Call) { call.ReadCall? && call.addr == PLL && call.result & 2 != 0 }

  predicate ConfiguresPll(call: Call) { call.WriteCall? && call.addr == PLL }

  /** The core clock is turned on only after the PLL, as last configured, was read as locked. */
  ghost predicate Gated(calls: seq<Call>) {
    forall i :: 0 <= i < |calls| && EnablesClock(calls[i]) ==>
      exists j :: 0 <= j < i && ReadsLocked(calls[j]) && forall m :: j < m < i ==> !ConfiguresPll(calls[m])
  }

  /** Only the call after the locked read enables the clock, and only that read sees the lock. */
  lemma StartupAt(k: nat, i: nat)
    requires i < |Startup(k)|
    ensures EnablesClock(Startup(k)[i]) ==> i == k + 3
    ensures ReadsLocked(Startup(k)[i]) <==> i == k + 2
    ensures ConfiguresPll(Startup(k)[i]) ==> i == 1
  {
    if k + 4 <= i {
      SettingsAreNotTheClock(i - k - 4);
    } else if i == k + 2 {
      assert Startup(k)[i] == Locked();
    } else if 2 <= i < k + 2 {
      assert Startup(k)[i] == Unlocked();
    }
  }

  /** However long the lock takes, the core clock waits for it. */
  lemma StartupIsGated(k: nat)
    ensures Gated(Startup(k))
    ensures forall i :: 0 <= i < |Startup(k)| ==> (ReadsLocked(Startup(k)[i]) <==> i == k + 2)
  {
    assert |Startup(k)| == k + 4 + |SETTINGS|;
    hide EnablesClock, ReadsLocked, ConfiguresPll, Startup;
    forall i | 0 <= i < |Startup(k)|
      ensures EnablesClock(Startup(k)[i]) ==> i == k + 3
      ensures ReadsLocked(Startup(k)[i]) <==> i == k + 2
      ensures ConfiguresPll(Startup(k)[i]) ==> i == 1
    {
      StartupAt(k, i);
    }
    assert ReadsLocked(Startup(k)[k + 2]);
  }

  lemma SettingsAreNotTheClock(i: nat)
    requires i < |SETTINGS|
    ensures SETTINGS[i].0 != CLOCK && SETTINGS[i].0 != PLL
  {
  }

  predicate Distinct(settings: seq<(RegisterAddress, bv8)>) {
    forall i, j :: 0 <= i < j < |settings| ==> settings[i].0 != settings[j].0
  }

  lemma NothingWaits()
    ensures Waiting(0) == [] && Written([]) == []
  {
  }

  lemma StartupAssembles(before: seq<Call>, k: nat)
    ensures before + [WriteCall(CLOCK, 0x0e, 1)] + [WriteCall(PLL, 0x007d_000c_2301, 6)] + (Waiting(k) + [Locked()])
              + [WriteCall(CLOCK, 0x0f, 1)] + Written(SETTINGS)
            == before + Startup(k)
  {
  }

  lemma WrittenPush(settings: seq<(RegisterAddress, bv8)>)
    requires settings != []
    ensures var k := |settings| - 1;
            Written(settings) == Written(settings[..k]) + [WriteCall(settings[k].0, settings[k].1 as bv64, 1)]
  {
  }

  lemma {:induction false} WrittenSpares(before: seq<Call>, settings: seq<(RegisterAddress, bv8)>, addr: bv32)
    requires forall i :: 0 <= i < |settings| ==> settings[i].0 != addr
    ensures LastWrite(before + Written(settings), addr) == LastWrite(before, addr)
  {
    if settings == [] {
      assert before + Written(settings) == before;
    } else {
      hide Truncated, Written;
      var k := |settings| - 1;
      WrittenPush(settings);
      WrittenSpares(before, settings[..k], addr);
      assert (before + Written(settings))[..|before + Written(settings)| - 1] == before + Written(settings[..k]);
    }
  }

  lemma {:induction false} WrittenHolds(before: seq<Call>, settings: seq<(RegisterAddress, bv8)>, i: nat)
    requires i < |settings| && Distinct(settings)
    ensures LastWrite(before + Written(settings), settings[i].0) == Some(Truncated(settings[i].1 as bv64, 1))
  {
    hide Truncated, Written;
    var k := |settings| - 1;
    WrittenPush(settings);
    assert (before + Written(settings))[..|before + Written(settings)| - 1] == before + Written(settings[..k]);
    if i < k {
      WrittenHolds(before, settings[..k], i);
    }
  }

  lemma EarlySettingsDiffer(i: nat, j: nat)
    requires i < j < |SETTINGS| && i < 5
    ensures SETTINGS[i].0 != SETTINGS[j].0
  {
  }

  lemma LateSettingsDiffer(i: nat, j: nat)
    requires 5 <= i < j < |SETTINGS|
    ensures SETTINGS[i].0 != SETTINGS[j].0
  {
  }

  lemma SettingsAreDistinct()
    ensures Distinct(SETTINGS)
  {
    forall i, j | 0 <= i < j < |SETTINGS|
      ensures SETTINGS[i].0 != SETTINGS[j].0
    {
      if i < 5 {
        EarlySettingsDiffer(i, j);
      } else {
        LateSettingsDiffer(i, j);
      }
    }
  }

  lemma ByteIsKept(b: bv8)
    ensures Truncated(b as bv64, 1) == b as bv64
  {
  }

  /** After the start-up every setting stands at its address and the core clock is on. */
  lemma StartupSettles(before: seq<Call>, k: nat)
    ensures forall i :: 0 <= i < |SETTINGS| ==>
              LastWrite(before + Startup(k), SETTINGS[i].0) == Some(SETTINGS[i].1 as bv64)
    ensures LastWrite(before + Startup(k), CLOCK) == Some(0x0f)
  {
    hide Truncated, Written;
    var upto := before + Setup() + Waiting(k) + [Locked()] + [WriteCall(CLOCK, 0x0f, 1)];
    assert before + Startup(k) == upto + Written(SETTINGS);
    SettingsAreDistinct();
    forall i | 0 <= i < |SETTINGS|
      ensures LastWrite(before + Startup(k), SETTINGS[i].0) == Some(SETTINGS[i].1 as bv64)
    {
      WrittenHolds(upto, SETTINGS, i);
      ByteIsKept(SETTINGS[i].1);
    }
    forall i | 0 <= i < |SETTINGS|
      ensures SETTINGS[i].0 != CLOCK
    {
      SettingsAreNotTheClock(i);
    }
    WrittenSpares(upto, SETTINGS, CLOCK);
    ByteIsKept(0x0f);
  }
}
