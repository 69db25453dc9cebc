/** What every run of the audio pipeline keeps. */
module PipelineProofs {
  import opened Common
  import opened Subsequences
  import opened CaptureFill
  import opened Samples
  import opened Pipeline

  // ---- bounds ----------------------------------------------------------------------------------

  predicate Fits(messages: seq<Message>) {
    forall k :: 0 <= k < |messages| ==> |messages[k]| <= UDP_PKT_SIZE
  }

  predicate Whole(messages: seq<Message>) {
    forall k :: 0 <= k < |messages| ==> |messages[k]| == UDP_PKT_SIZE
  }

  /** Queues within their maximum, messages within every buffer they are copied to, indices inside
      their arrays. */
  predicate Bounds(s: State) {
    && |s.fill.slots| == AXI_PKT_SIZE && s.fill.i <= AXI_PKT_SIZE
    && |s.toNet| <= TO_NET_MAX && |s.sending| <= 1 && Whole(s.toNet) && Whole(s.sending)
    && |s.toDac| <= TO_DAC_MAX && |s.arriving| <= 1 && Fits(s.toDac) && Fits(s.arriving)
    && |s.play.buf| == UDP_PKT_SIZE && s.play.n <= UDP_PKT_SIZE
    && s.play.i % 2 == 0 && s.play.i <= AXI_PKT_SIZE
  }

  lemma StepKeepsBounds(s: State, a: Action)
    requires Bounds(s) && Enabled(s, a)
    ensures Bounds(Apply(s, a))
  {
  }

  lemma {:induction false} RunKeepsBounds(s: State, actions: seq<Action>)
    requires Initial(s) && Run(s, actions).Some?
    ensures Bounds(Run(s, actions).value)
    ensures var t := Run(s, actions).value;
            && |t.toNet| <= 512 && (forall k :: 0 <= k < |t.toNet| ==> |t.toNet[k]| == 256)
            && |t.toDac| <= 1024 && (forall k :: 0 <= k < |t.toDac| ==> |t.toDac[k]| <= 256)
            && |t.fill.slots| == 64 && |t.play.buf| == 256
  {
    if actions != [] {
      var before := actions[..|actions| - 1];
      RunKeepsBounds(s, before);
      StepKeepsBounds(Run(s, before).value, actions[|actions| - 1]);
    }
  }

  /** The two index checks in `Enabled` are not the program's: the one on the play loop always
      holds, and the one on the fill loop holds unless the right FIFO was reported empty earlier
      in the same packet, which an even index rules out. */
  lemma IndexChecksAreFree(s: State, r: Reading<Word>)
    requires Bounds(s)
    ensures Enabled(s, PlayPair) <==> s.play.i < s.play.n / 4
    ensures s.fill.i % 2 == 0 ==> (Enabled(s, Capture(r)) <==> s.fill.i < AXI_PKT_SIZE)
  {
  }

  // ---- conservation ----------------------------------------------------------------------------

  /** Every packet built is accounted for, and likewise every datagram received. The read-error
      counters take no part. */
  ghost predicate Ledger(s: State) {
    var c, log := s.counters, s.log;
    && |log.built| == |s.toNet| + |s.sending| + |log.sent| + c.axiToNetW + c.netSend
    && Subseq(log.sent + s.sending + s.toNet, log.built)
    && c.bytesSendToNet == Bytes(log.sent) == UDP_PKT_SIZE * |log.sent|
    && |log.received| == |s.toDac| + |s.arriving| + |log.taken| + c.netToAxiW
    && Subseq(log.taken + s.toDac + s.arriving, log.received)
    && |log.refused| == c.netToAxiW
    && c.bytesReadFromNet == Bytes(log.received)
       == Bytes(log.taken) + Bytes(s.toDac) + Bytes(s.arriving) + Bytes(log.refused)
  }

  lemma BuildingKeepsLedger(s: State, ok: bool)
    requires Bounds(s) && Ledger(s) && Enabled(s, Enqueue(ok))
    ensures Ledger(Apply(s, Enqueue(ok)))
  {
    hide Subseq, Bytes, Cut, Encode;
    var m := Encode(s.fill.slots);
    var kept := s.log.sent + s.sending + s.toNet;
    if ok {
      SubseqPush(kept, s.log.built, m);
      assert s.log.sent + s.sending + (s.toNet + [m]) == kept + [m];
    } else {
      SubseqSkip(kept, s.log.built, m);
    }
  }

  lemma MoveOne<T>(a: seq<T>, x: T, b: seq<T>)
    ensures (a + [x]) + [] + b == a + [x] + b
  {
  }

  lemma TakingToSendKeepsLedger(s: State, ok: bool)
    requires Bounds(s) && Ledger(s) && Enabled(s, TakeToSend(ok))
    ensures Ledger(Apply(s, TakeToSend(ok)))
  {
    hide Subseq, Bytes, Cut, Encode;
    if ok {
      assert s.log.sent + [s.toNet[0]] + s.toNet[1..] == s.log.sent + s.sending + s.toNet;
    }
  }

  lemma SendingKeepsLedger(s: State)
    requires Bounds(s) && Ledger(s) && Enabled(s, Send(true))
    ensures Ledger(Apply(s, Send(true)))
  {
    hide Subseq, Bytes, Cut, Encode;
    var sent, m, toNet := s.log.sent, s.sending[0], s.toNet;
    assert s.sending == [m] && s.sending[1..] == [];
    MoveOne(sent, m, toNet);
    BytesPush(sent, m);
    assert UDP_PKT_SIZE * (|sent| + 1) == UDP_PKT_SIZE * |sent| + UDP_PKT_SIZE;
  }

  lemma FailedSendKeepsLedger(s: State)
    requires Bounds(s) && Ledger(s) && Enabled(s, Send(false))
    ensures Ledger(Apply(s, Send(false)))
  {
    hide Subseq, Bytes, Cut, Encode;
    var sent, m, toNet := s.log.sent, s.sending[0], s.toNet;
    assert s.sending == [m] && s.sending[1..] == [];
    SubseqDrop(sent, m, toNet, s.log.built);
    assert sent + [] + toNet == sent + toNet;
  }

  lemma BytesOfOne(m: Message)
    ensures Bytes([]) == 0 && Bytes([m]) == |m|
  {
  }

  lemma ReceivingKeepsLedger(s: State, ok: bool)
    requires Bounds(s) && Ledger(s) && Enabled(s, Receive(ok))
    ensures Ledger(Apply(s, Receive(ok)))
  {
    hide Subseq, Bytes, Cut, Encode;
    if ok {
      var m, kept := Cut(s.net[0]), s.log.taken + s.toDac;
      assert kept + s.arriving == kept;
      SubseqPush(kept, s.log.received, m);
      BytesPush(s.log.received, m);
      BytesOfOne(m);
    }
  }

  lemma EnqueueingKeepsLedger(s: State, ok: bool)
    requires Bounds(s) && Ledger(s) && Enabled(s, EnqueueReceived(ok))
    ensures Ledger(Apply(s, EnqueueReceived(ok)))
  {
    hide Subseq, Bytes, Cut, Encode;
    var m, kept := s.arriving[0], s.log.taken + s.toDac;
    assert s.arriving == [m] && s.arriving[1..] == [];
    BytesOfOne(m);
    if ok {
      assert s.log.taken + (s.toDac + [m]) + [] == kept + s.arriving;
      BytesPush(s.toDac, m);
    } else {
      assert kept + [m] + [] == kept + s.arriving && kept + [] == kept;
      SubseqDrop(kept, m, [], s.log.received);
      BytesPush(s.log.refused, m);
    }
  }

  lemma TakingKeepsLedger(s: State, ok: bool)
    requires Bounds(s) && Ledger(s) && Enabled(s, TakeToPlay(ok))
    ensures Ledger(Apply(s, TakeToPlay(ok)))
  {
    hide Subseq, Bytes, Cut, Encode;
    if ok {
      var m, rest := s.toDac[0], s.toDac[1..];
      assert s.toDac == [m] + rest;
      assert (s.log.taken + [m]) + rest + s.arriving == s.log.taken + s.toDac + s.arriving;
      BytesPush(s.log.taken, m);
      BytesConcat([m], rest);
      BytesOfOne(m);
    }
  }

  lemma StepKeepsLedger(s: State, a: Action)
    requires Bounds(s) && Ledger(s) && Enabled(s, a)
    ensures Ledger(Apply(s, a))
  {
    match a
    case Enqueue(ok) => BuildingKeepsLedger(s, ok);
    case TakeToSend(ok) => TakingToSendKeepsLedger(s, ok);
    case Send(ok) => if ok { SendingKeepsLedger(s); } else { FailedSendKeepsLedger(s); }
    case Receive(ok) => ReceivingKeepsLedger(s, ok);
    case EnqueueReceived(ok) => EnqueueingKeepsLedger(s, ok);
    case TakeToPlay(ok) => TakingKeepsLedger(s, ok);
    case Capture(_) =>
    case Lose(_) =>
    case Inject(_, _) =>
    case PlayPair =>
  }

  /** Conservation, for every run whatsoever: any interleaving, any failing call, any datagram. */
  lemma {:induction false} Conservation(s: State, actions: seq<Action>)
    requires Initial(s) && Run(s, actions).Some?
    ensures Ledger(Run(s, actions).value)
  {
    if actions != [] {
      var before := actions[..|actions| - 1];
      Conservation(s, before);
      RunKeepsBounds(s, before);
      StepKeepsLedger(Run(s, before).value, actions[|actions| - 1]);
    }
  }

  /** What the error counters of a run count. */
  predicate CountsAre(c: Counters, taken: multiset<Action>) {
    && c.axiToNetW == taken[Enqueue(false)] && c.axiToNetR == taken[TakeToSend(false)]
    && c.netSend == taken[Send(false)] && c.netRead == taken[Receive(false)]
    && c.netToAxiW == taken[EnqueueReceived(false)] && c.netToAxiR == taken[TakeToPlay(false)]
  }

  /** Each error counter is exactly the number of failures of its own call, in every run. */
  lemma {:induction false} CountersCountFailures(s: State, actions: seq<Action>)
    requires Initial(s) && Run(s, actions).Some?
    ensures CountsAre(Run(s, actions).value.counters, multiset(actions))
  {
    if actions != [] {
      var before, a := actions[..|actions| - 1], actions[|actions| - 1];
      assert actions == before + [a];
      assert multiset(actions) == multiset(before) + multiset{a};
      CountersCountFailures(s, before);
      StepCounts(Run(s, before).value, a, multiset(before));
    }
  }

  lemma StepCounts(s: State, a: Action, taken: multiset<Action>)
    requires Enabled(s, a) && CountsAre(s.counters, taken)
    ensures CountsAre(Apply(s, a).counters, taken + multiset{a})
  {
  }

  // ---- the fill index ------------------------------------------------------------------------------

  predicate NoRightEmptyReports(actions: seq<Action>) {
    forall k :: 0 <= k < |actions| && actions[k].Capture? ==> !actions[k].r.rightEmpty
  }

  lemma StepKeepsEvenIndex(s: State, a: Action)
    requires Bounds(s) && s.fill.i % 2 == 0 && Enabled(s, a)
    requires a.Capture? ==> !a.r.rightEmpty
    ensures Apply(s, a).fill.i % 2 == 0
  {
  }

  lemma {:induction false} EvenIndexBetweenPasses(s: State, actions: seq<Action>)
    requires Initial(s) && Run(s, actions).Some? && NoRightEmptyReports(actions)
    ensures Run(s, actions).value.fill.i % 2 == 0
  {
    if actions != [] {
      var before := actions[..|actions| - 1];
      EvenIndexBetweenPasses(s, before);
      RunKeepsBounds(s, before);
      StepKeepsEvenIndex(Run(s, before).value, actions[|actions| - 1]);
    }
  }

  /** Without right-empty reports no pass of the fill loop stores outside the packet, whatever the left FIFO and the
      other threads do. */
  lemma FillLoopStaysInside(s: State, actions: seq<Action>, r: Reading<Word>)
    requires Initial(s) && Run(s, actions).Some? && NoRightEmptyReports(actions)
    ensures var f := Run(s, actions).value.fill;
            f.i < |f.slots| ==> !Overruns(f, r)
  {
    hide Run, Initial, NoRightEmptyReports;
    EvenIndexBetweenPasses(s, actions);
    RunKeepsBounds(s, actions);
  }

  // ---- both channels in step ---------------------------------------------------------------------

  predicate InStep(played: seq<Event>) {
    |Only(Left, played)| == |Only(Right, played)| && |played| == 2 * |Only(Left, played)|
  }

  lemma {:induction false} PairsAreInStep(m: Message, pairs: nat)
    requires 8 * pairs <= |m|
    ensures InStep(EventsBetween(m, 0, 2 * pairs))
  {
    if pairs > 0 {
      PairsAreInStep(m, pairs - 1);
      EventsBetweenGrow(m, 0, 2 * (pairs - 1));
    } else {
      EventsBetweenNone(m);
    }
  }

  lemma StepKeepsInStep(s: State, a: Action)
    requires InStep(s.log.played) && Enabled(s, a)
    ensures InStep(Apply(s, a).log.played)
  {
  }

  /** The two DAC channels are always fed the same number of samples, whatever lengths arrive. */
  lemma {:induction false} ChannelsPlayedInStep(s: State, actions: seq<Action>)
    requires Initial(s) && Run(s, actions).Some?
    ensures InStep(Run(s, actions).value.log.played)
  {
    if actions != [] {
      var before := actions[..|actions| - 1];
      ChannelsPlayedInStep(s, before);
      StepKeepsInStep(Run(s, before).value, actions[|actions| - 1]);
    }
  }
}
