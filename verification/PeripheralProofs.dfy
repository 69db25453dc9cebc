/** What every run of commands leaves in the control word of the Ethernet-to-audio core, in the time-sync core, and in
    the sync request of the audio-to-Ethernet core. */
module PeripheralProofs {
  import opened Bytes
  import opened Common
  import opened AudioControl
  import opened EthRegisters
  import opened Commands
  import opened CommandProofs

  // ---- the DAC FIFOs ---------------------------------------------------------------------------------

  /** The commands that reset the DAC FIFOs. */
  predicate ResetsDac(c: Command) { c in {DReset, FReset, RxRSync, StrSelect} }

  predicate AnyDacReset(commands: seq<Command>) {
    exists k :: 0 <= k < |commands| && ResetsDac(commands[k])
  }

  lemma AnyDacResetPush(commands: seq<Command>, c: Command)
    ensures AnyDacReset(commands + [c]) <==> AnyDacReset(commands) || ResetsDac(c)
  {
    if AnyDacReset(commands) {
      var k :| 0 <= k < |commands| && ResetsDac(commands[k]);
      assert ResetsDac((commands + [c])[k]);
    }
    assert (commands + [c])[|commands|] == c;
  }

  predicate InReset(w: bv32) { w & 3 != 0 }

  function RestOfDac(w: bv32): bv32 { w & 0xFFFF_FFFC }

  lemma DacResetBits(w: bv32)
    ensures !InReset(And(w, 0xFFFF_FFFC))
    ensures RestOfDac(And(w, 0xFFFF_FFFC)) == RestOfDac(w)
  {
  }

  lemma ExecDac(c: Command, b: Banks, k: nat)
    requires Sized(b) && k < 33
    ensures Exec(c, b).dac[k] == if k == 0 && ResetsDac(c) then And(b.dac[0], 0xFFFF_FFFC) else b.dac[k]
  {
    hide Or, And, IpOf, Written, LowBitCleared, Pack3, AfterWrite;
  }

  /** Over every run: the two reset bits of the DAC control word are clear if and only if they were or one of these
      commands has completed, its other bits and every other register of that core never change. */
  lemma {:induction false} DacFollowsResets(b: Banks, commands: seq<Command>)
    requires Sized(b)
    ensures var after := Run(b, commands).dac;
            && (InReset(after[0]) <==> InReset(b.dac[0]) && !AnyDacReset(commands))
            && RestOfDac(after[0]) == RestOfDac(b.dac[0])
            && forall k :: 1 <= k < 33 ==> after[k] == b.dac[k]
  {
    hide Exec, InReset, RestOfDac, ResetsDac, AnyDacReset, And;
    if commands == [] {
      NoDacReset();
    } else {
      var before, c := commands[..|commands| - 1], commands[|commands| - 1];
      var t := Run(b, before);
      DacFollowsResets(b, before);
      assert commands == before + [c];
      AnyDacResetPush(before, c);
      DacResetBits(t.dac[0]);
      forall k | 0 <= k < 33
        ensures Exec(c, t).dac[k] == if k == 0 && ResetsDac(c) then And(t.dac[0], 0xFFFF_FFFC) else t.dac[k]
      {
        ExecDac(c, t, k);
      }
    }
  }

  lemma NoDacReset()
    ensures !AnyDacReset([])
  {
  }

  // ---- the time-sync core ------------------------------------------------------------------------------

  predicate SyncRunning(w: bv32) { w & 1 != 0 }

  predicate SyncHeld(w: bv32) { w & 2 != 0 }

  function RestOfSync(w: bv32): bv32 { w & 0xFFFF_FFFC }

  /** Bit 0 of register 0. */
  function RunningEffect(c: Command): Switch {
    if c in {SetSyncEn, DReset} then On else if c in {Commands.SetSyncOff, SetSyncOn} then Off else Keep
  }

  /** Bit 1: every store to the register clears it in the end, and nothing leaves it set. */
  function HeldEffect(c: Command): Switch {
    if c in {SetSyncEn, DReset, Commands.SetSyncOff, SetSyncOn, Commands.SetSyncRst} then Off else Keep
  }

  /** Whether a command stores the whole word, which clears the bits above. */
  predicate StoresSync(c: Command) { c in {SetSyncEn, DReset, Commands.SetSyncOff, SetSyncOn} }

  predicate AnyStoresSync(commands: seq<Command>) {
    exists k :: 0 <= k < |commands| && StoresSync(commands[k])
  }

  lemma AnyStoresSyncPush(commands: seq<Command>, c: Command)
    ensures AnyStoresSync(commands + [c]) <==> AnyStoresSync(commands) || StoresSync(c)
  {
    if AnyStoresSync(commands) {
      var k :| 0 <= k < |commands| && StoresSync(commands[k]);
      assert StoresSync((commands + [c])[k]);
    }
    assert (commands + [c])[|commands|] == c;
  }

  function SyncWord(c: Command, w: bv32): bv32 {
    if c in {SetSyncEn, DReset} then 1
    else if c in {Commands.SetSyncOff, SetSyncOn} then 0
    else if c == Commands.SetSyncRst then And(w, 0xFFFF_FFFD)
    else w
  }

  lemma ExecSync(c: Command, b: Banks, k: nat)
    requires Sized(b) && k < 9
    ensures Exec(c, b).sync[k]
            == if k == 0 then SyncWord(c, b.sync[0]) else if k == 5 && c.SetSyncDly? then c.delay else b.sync[k]
  {
    hide Or, And, IpOf, Written, LowBitCleared, Pack3, AfterWrite;
  }

  lemma StoredBits()
    ensures SyncRunning(1) && !SyncHeld(1) && RestOfSync(1) == 0
    ensures !SyncRunning(0) && !SyncHeld(0) && RestOfSync(0) == 0
  {
  }

  lemma ReleasedBits(w: bv32)
    ensures SyncRunning(And(w, 0xFFFF_FFFD)) == SyncRunning(w)
    ensures !SyncHeld(And(w, 0xFFFF_FFFD))
    ensures RestOfSync(And(w, 0xFFFF_FFFD)) == RestOfSync(w)
  {
  }

  lemma SyncWordBits(c: Command, w: bv32)
    ensures SyncRunning(SyncWord(c, w)) == RunningEffect(c).After(SyncRunning(w))
    ensures SyncHeld(SyncWord(c, w)) == HeldEffect(c).After(SyncHeld(w))
    ensures RestOfSync(SyncWord(c, w)) == if StoresSync(c) then 0 else RestOfSync(w)
  {
    hide SyncRunning, SyncHeld, RestOfSync, And;
    StoredBits();
    ReleasedBits(w);
  }

  function DelayOf(c: Command): Option<bv32> { if c.SetSyncDly? then Some(c.delay) else None }

  /** Over every run: sync runs if and only if the latest of "setsyncen", "dreset", "setsyncoff" and "setsyncon" was one
      of the first two; the reset bit is clear from the first of these or of "setsyncrst" on; the delay is the latest
      given; no other register of the core changes. */
  lemma {:induction false} SyncFollowsLatest(b: Banks, commands: seq<Command>)
    requires Sized(b)
    ensures var before, after := b.sync, Run(b, commands).sync;
            && SyncRunning(after[0]) == LatestSwitch(commands, RunningEffect).After(SyncRunning(before[0]))
            && SyncHeld(after[0]) == LatestSwitch(commands, HeldEffect).After(SyncHeld(before[0]))
            && RestOfSync(after[0]) == (if AnyStoresSync(commands) then 0 else RestOfSync(before[0]))
            && after[5] == Latest(commands, DelayOf).GetOr(before[5])
            && forall k :: 1 <= k < 9 && k != 5 ==> after[k] == before[k]
  {
    hide Exec, SyncRunning, SyncHeld, RestOfSync, SyncWord, RunningEffect, HeldEffect, StoresSync, AnyStoresSync;
    if commands == [] {
      NoStoresSync();
    } else {
      var before, c := commands[..|commands| - 1], commands[|commands| - 1];
      var t := Run(b, before);
      SyncFollowsLatest(b, before);
      assert commands == before + [c];
      AnyStoresSyncPush(before, c);
      SyncWordBits(c, t.sync[0]);
      forall k | 0 <= k < 9
        ensures Exec(c, t).sync[k]
                == if k == 0 then SyncWord(c, t.sync[0]) else if k == 5 && c.SetSyncDly? then c.delay else t.sync[k]
      {
        ExecSync(c, t, k);
      }
    }
  }

  lemma NoStoresSync()
    ensures !AnyStoresSync([])
  {
  }

  // ---- the sync request --------------------------------------------------------------------------------

  function RequestOf(c: Command): Option<bv32> {
    if c in {SetSyncOn, TgSync} then Some(1) else if c == Command.StrStop then Some(0) else None
  }

  lemma ExecRequest(c: Command, b: Banks, k: nat)
    requires Sized(b) && 1 <= k < 9
    ensures Exec(c, b).audio[k] == if k == 6 then RequestOf(c).GetOr(b.audio[6]) else b.audio[k]
  {
    hide Or, And, IpOf, Written, LowBitCleared, Pack3, AfterWrite;
  }

  /** Over every run: the request register holds 1 after "setsyncon" and "tgsync", 0 after "strstop", whichever came
      last; only the control word changes beside it. */
  lemma {:induction false} RequestFollowsLatest(b: Banks, commands: seq<Command>)
    requires Sized(b)
    ensures var after := Run(b, commands).audio;
            && after[6] == Latest(commands, RequestOf).GetOr(b.audio[6])
            && forall k :: 1 <= k < 9 && k != 6 ==> after[k] == b.audio[k]
  {
    hide Exec, RequestOf;
    if commands != [] {
      var before, c := commands[..|commands| - 1], commands[|commands| - 1];
      var t := Run(b, before);
      RequestFollowsLatest(b, before);
      forall k | 1 <= k < 9
        ensures Exec(c, t).audio[k] == if k == 6 then RequestOf(c).GetOr(t.audio[6]) else t.audio[k]
      {
        ExecRequest(c, t, k);
      }
    }
  }
}
