/** What the samples played owe to the samples captured, in every run of the audio pipeline. */
module ChannelProofs {
  import opened Common
  import opened Subsequences
  import opened CaptureFill
  import opened Samples
  import opened Pipeline
  import opened PipelineProofs

  // ---- capture: from the converter into packets ----------------------------------------------------

  /** The part of the packet under construction that has been filled. */
  function PartialPacket(f: Filling<Word>): (e: seq<Event>)
    requires f.i <= |f.slots|
    ensures |e| == f.i
  {
    seq(f.i, k requires 0 <= k < f.i => Event(ChannelOf(k), f.slots[k]))
  }

  /** Every sample captured is in a packet built or in the one under construction, at its place. */
  ghost predicate CapturedInOrder(s: State) {
    && Bounds(s)
    && s.fill.i % 2 == 0
    && Whole(s.log.built)
    && s.log.captured == Flat(s.log.built) + PartialPacket(s.fill)
  }

  predicate NoEmptyReports(actions: seq<Action>) {
    forall k :: 0 <= k < |actions| && actions[k].Capture? ==>
      !actions[k].r.leftEmpty && !actions[k].r.rightEmpty
  }

  lemma CaptureExtends(s: State, r: Reading<Word>)
    requires CapturedInOrder(s) && Enabled(s, Capture(r))
    requires !r.leftEmpty && !r.rightEmpty
    ensures CapturedInOrder(Apply(s, Capture(r)))
  {
  }

  lemma EmptyPacket(slots: seq<Word>)
    ensures PartialPacket(Filling(slots, 0)) == []
  {
  }

  lemma FullPacketIsMessage(slots: seq<Word>)
    ensures Events(Encode(slots)) == PartialPacket(Filling(slots, |slots|))
  {
    hide Encode;
    forall k | 0 <= k < |slots|
      ensures Events(Encode(slots))[k] == PartialPacket(Filling(slots, |slots|))[k]
    {
      WordAtEncode(slots, k);
    }
  }

  lemma StepKeepsCaptured(s: State, a: Action)
    requires CapturedInOrder(s) && Enabled(s, a)
    requires a.Capture? ==> !a.r.leftEmpty && !a.r.rightEmpty
    ensures CapturedInOrder(Apply(s, a))
  {
    StepKeepsBounds(s, a);
    match a
    case Capture(r) => CaptureExtends(s, r);
    case Enqueue(ok) => EnqueueMoves(s.log.built, s.fill);
    case _ =>
  }

  lemma {:induction false} RunCapturesInOrder(s: State, actions: seq<Action>)
    requires Initial(s) && Run(s, actions).Some? && NoEmptyReports(actions)
    ensures CapturedInOrder(Run(s, actions).value)
  {
    RunKeepsBounds(s, actions);
    if actions != [] {
      var before, a := actions[..|actions| - 1], actions[|actions| - 1];
      RunCapturesInOrder(s, before);
      StepKeepsCaptured(Run(s, before).value, a);
    }
  }

  // ---- capture with left-empty reports --------------------------------------------------------------

  /** A left-empty report leaves a stale left word in its slot; the right samples are still all in their places. */
  ghost predicate RightInOrder(s: State) {
    && Bounds(s)
    && s.fill.i % 2 == 0
    && Only(Right, s.log.captured) == Only(Right, Flat(s.log.built) + PartialPacket(s.fill))
  }

  lemma OnlyPush(ch: Channel, events: seq<Event>, e: Event)
    ensures Only(ch, events + [e]) == if e.ch == ch then Only(ch, events) + [e.w] else Only(ch, events)
  {
  }

  /** A pass with a right sample extends the packet by the content of the left slot and that sample. */
  lemma PartialGrows(f: Filling<Word>, r: Reading<Word>)
    requires f.i % 2 == 0 && f.i + 2 <= |f.slots| && !r.rightEmpty
    ensures PartialPacket(FillStep(f, r))
            == PartialPacket(f) + [Event(Left, if r.leftEmpty then f.slots[f.i] else r.left)] + [Event(Right, r.right)]
  {
  }

  lemma CaptureKeepsRight(s: State, r: Reading<Word>)
    requires RightInOrder(s) && Enabled(s, Capture(r)) && !r.rightEmpty
    ensures RightInOrder(Apply(s, Capture(r)))
  {
    hide Only, Flat, PartialPacket;
    StepKeepsBounds(s, Capture(r));
    PartialGrows(s.fill, r);
    var left := Event(Left, if r.leftEmpty then s.fill.slots[s.fill.i] else r.left);
    var right := Event(Right, r.right);
    var before := Flat(s.log.built) + PartialPacket(s.fill);
    assert Flat(s.log.built) + PartialPacket(FillStep(s.fill, r)) == before + [left] + [right];
    OnlyPush(Right, before, left);
    OnlyPush(Right, before + [left], right);
    OnlyRead(s.log.captured, r);
  }

  lemma OnlyRead(captured: seq<Event>, r: Reading<Word>)
    requires !r.rightEmpty
    ensures Only(Right, captured + SamplesRead(r)) == Only(Right, captured) + [r.right]
  {
    hide Only;
    if r.leftEmpty {
      assert captured + SamplesRead(r) == captured + [Event(Right, r.right)];
    } else {
      assert captured + SamplesRead(r) == captured + [Event(Left, r.left)] + [Event(Right, r.right)];
      OnlyPush(Right, captured, Event(Left, r.left));
    }
    OnlyPush(Right, if r.leftEmpty then captured else captured + [Event(Left, r.left)], Event(Right, r.right));
  }

  /** Handing a packet over moves its samples from the partial packet to the packets built. */
  lemma EnqueueMoves(built: seq<Message>, f: Filling<Word>)
    requires f.i == |f.slots|
    ensures Flat(built + [Encode(f.slots)]) + PartialPacket(Filling(f.slots, 0)) == Flat(built) + PartialPacket(f)
  {
    hide Encode, Flat, Events, PartialPacket;
    FullPacketIsMessage(f.slots);
    FlatPush(built, Encode(f.slots));
    EmptyPacket(f.slots);
    assert f == Filling(f.slots, |f.slots|);
  }

  lemma StepKeepsRight(s: State, a: Action)
    requires RightInOrder(s) && Enabled(s, a)
    requires a.Capture? ==> !a.r.rightEmpty
    ensures RightInOrder(Apply(s, a))
  {
    hide Only, Flat, PartialPacket, Encode;
    StepKeepsBounds(s, a);
    match a
    case Capture(r) => CaptureKeepsRight(s, r);
    case Enqueue(ok) => EnqueueMoves(s.log.built, s.fill);
    case _ =>
  }

  lemma {:induction false} RunKeepsRight(s: State, actions: seq<Action>)
    requires Initial(s) && Run(s, actions).Some? && NoRightEmptyReports(actions)
    ensures RightInOrder(Run(s, actions).value)
  {
    RunKeepsBounds(s, actions);
    if actions == [] {
      assert Flat([]) + PartialPacket(s.fill) == [];
    } else {
      var before, a := actions[..|actions| - 1], actions[|actions| - 1];
      RunKeepsRight(s, before);
      StepKeepsRight(Run(s, before).value, a);
    }
  }

  // ---- transport: from packets to the converters -----------------------------------------------------

  /** The network delivers in order what it does not lose. */
  ghost predicate NetInOrder(s: State) {
    && Whole(s.log.sent) && Whole(s.net) && Whole(s.log.received)
    && |s.log.sent| == |s.log.received| + |s.net| + s.log.lostInNet
    && Subseq(s.log.received + s.net, s.log.sent)
  }

  predicate NoForeign(actions: seq<Action>) {
    forall k :: 0 <= k < |actions| ==> !actions[k].Inject?
  }

  lemma LosingKeepsNetInOrder(s: State, k: nat)
    requires NetInOrder(s) && Enabled(s, Lose(k))
    ensures NetInOrder(Apply(s, Lose(k)))
  {
    var received, before, x, after := s.log.received, s.net[..k], s.net[k], s.net[k + 1..];
    assert received + s.net == (received + before) + [x] + after;
    SubseqDrop(received + before, x, after, s.log.sent);
    assert received + (before + after) == (received + before) + after;
  }

  lemma SendingKeepsNetInOrder(s: State)
    requires Bounds(s) && NetInOrder(s) && Enabled(s, Send(true))
    ensures NetInOrder(Apply(s, Send(true)))
  {
    var received, m := s.log.received, s.sending[0];
    SubseqPush(received + s.net, s.log.sent, m);
    assert received + (s.net + [m]) == (received + s.net) + [m];
  }

  lemma StepKeepsNetInOrder(s: State, a: Action)
    requires Bounds(s) && NetInOrder(s) && Enabled(s, a) && !a.Inject?
    ensures NetInOrder(Apply(s, a))
  {
    match a
    case Send(ok) => if ok { SendingKeepsNetInOrder(s); }
    case Lose(k) => LosingKeepsNetInOrder(s, k);
    case Receive(ok) =>
      if ok {
        assert (s.log.received + [s.net[0]]) + s.net[1..] == s.log.received + s.net;
      }
    case _ =>
  }

  /** Samples played and samples of the current message still to be played are exactly the
      messages taken. */
  ghost predicate PlayedInOrder(s: State) {
    && Bounds(s)
    && Whole(s.arriving) && Whole(s.toDac)
    && s.play.n % 8 == 0 && s.play.i <= s.play.n / 4
    && s.log.played + EventsBetween(s.play.buf, s.play.i, s.play.n / 4) == Flat(s.log.taken)
  }

  lemma MovePair<T>(a: seq<T>, x: T, y: T, b: seq<T>)
    ensures a + [x] + [y] + b == a + ([x] + [y] + b)
  {
  }

  lemma PlayPairMovesOn(s: State)
    requires PlayedInOrder(s) && Enabled(s, PlayPair)
    ensures PlayedInOrder(Apply(s, PlayPair))
  {
    hide Flat, EventsBetween;
    StepKeepsBounds(s, PlayPair);
    var p := s.play;
    var left, right := Event(Left, WordAt(p.buf, p.i)), Event(Right, WordAt(p.buf, p.i + 1));
    EventsBetweenPair(p.buf, p.i, p.n / 4);
    MovePair(s.log.played, left, right, EventsBetween(p.buf, p.i + 2, p.n / 4));
  }

  lemma TakeStartsMessage(s: State)
    requires PlayedInOrder(s) && Enabled(s, TakeToPlay(true))
    ensures PlayedInOrder(Apply(s, TakeToPlay(true)))
  {
    hide Flat, Overlay;
    StepKeepsBounds(s, TakeToPlay(true));
    var m, p := s.toDac[0], s.play;
    FlatPush(s.log.taken, m);
    WholeMessageOverlays(p.buf, m);
    NothingLeft(p.buf, p.i);
  }

  lemma WholeMessageOverlays(buf: Message, m: Message)
    requires |buf| == |m|
    ensures Overlay(buf, m) == m
  {
  }

  lemma NothingLeft(m: Message, i: nat)
    requires 4 * i <= |m|
    ensures EventsBetween(m, i, i) == []
  {
  }

  lemma StepKeepsPlayed(s: State, a: Action)
    requires PlayedInOrder(s) && NetInOrder(s) && Enabled(s, a) && !a.Inject?
    ensures PlayedInOrder(Apply(s, a))
  {
    StepKeepsBounds(s, a);
    match a
    case PlayPair => PlayPairMovesOn(s);
    case TakeToPlay(ok) => if ok { TakeStartsMessage(s); }
    case _ =>
  }

  /** What happens behind the capture thread, whatever its FIFOs report: nothing is invented and order is kept. */
  ghost predicate Carried(s: State) {
    Ledger(s) && NetInOrder(s) && PlayedInOrder(s)
  }

  lemma {:induction false} RunStaysCarried(s: State, actions: seq<Action>)
    requires Initial(s) && Run(s, actions).Some? && NoForeign(actions)
    ensures Carried(Run(s, actions).value)
  {
    Conservation(s, actions);
    RunKeepsBounds(s, actions);
    if actions == [] {
      NothingLeft(s.play.buf, 0);
    } else {
      var before, a := actions[..|actions| - 1], actions[|actions| - 1];
      RunStaysCarried(s, before);
      var t := Run(s, before).value;
      StepKeepsNetInOrder(t, a);
      StepKeepsPlayed(t, a);
    }
  }

  // ---- channel integrity -----------------------------------------------------------------------------

  /** Whatever the FIFOs report and whatever is lost on the way, what is played is an in-order subsequence of the
      packets' content. */
  lemma PlayedComesFromPackets(s: State, actions: seq<Action>)
    requires Initial(s) && Run(s, actions).Some? && NoForeign(actions)
    ensures var t := Run(s, actions).value;
            t.fill.i <= |t.fill.slots| && Subseq(t.log.played, Flat(t.log.built) + PartialPacket(t.fill))
  {
    RunKeepsBounds(s, actions);
    RunStaysCarried(s, actions);
    hide Run, Subseq, Flat;
    var t := Run(s, actions).value;
    var log := t.log;
    TakenComesFromBuilt(t);
    FlatKeepsOrder(log.taken, log.built);
    SubseqPrefix(log.played, EventsBetween(t.play.buf, t.play.i, t.play.n / 4), Flat(log.built));
    SubseqRefl(Flat(log.built));
    SubseqEmpty(PartialPacket(t.fill));
    SubseqConcat(log.played, Flat(log.built), [], PartialPacket(t.fill));
    assert log.played + [] == log.played;
  }

  lemma SubseqEmpty<T>(b: seq<T>)
    ensures Subseq([], b)
  {
  }

  /** Channel integrity: whatever is lost at either queue, at the send or in the network, what a
      DAC channel plays is an in-order subsequence of what the same ADC channel captured. */
  lemma ChannelIntegrity(s: State, actions: seq<Action>, ch: Channel)
    requires Initial(s) && Run(s, actions).Some?
    requires NoEmptyReports(actions) && NoForeign(actions)
    ensures var log := Run(s, actions).value.log;
            Subseq(log.played, log.captured) && Subseq(Only(ch, log.played), Only(ch, log.captured))
  {
    PlayedComesFromPackets(s, actions);
    RunCapturesInOrder(s, actions);
    var log := Run(s, actions).value.log;
    OnlyKeepsOrder(ch, log.played, log.captured);
  }

  /** The right channel keeps its integrity even when the left FIFO is reported empty. */
  lemma RightIntegrity(s: State, actions: seq<Action>)
    requires Initial(s) && Run(s, actions).Some?
    requires NoRightEmptyReports(actions) && NoForeign(actions)
    ensures var log := Run(s, actions).value.log;
            Subseq(Only(Right, log.played), Only(Right, log.captured))
  {
    PlayedComesFromPackets(s, actions);
    RunKeepsRight(s, actions);
    var t := Run(s, actions).value;
    OnlyKeepsOrder(Right, t.log.played, Flat(t.log.built) + PartialPacket(t.fill));
  }

  lemma TakenComesFromBuilt(s: State)
    requires Ledger(s) && NetInOrder(s)
    ensures Subseq(s.log.taken, s.log.built)
  {
    var log := s.log;
    assert log.taken + s.toDac + s.arriving == log.taken + (s.toDac + s.arriving);
    SubseqPrefix(log.taken, s.toDac + s.arriving, log.received);
    SubseqPrefix(log.received, s.net, log.sent);
    assert log.sent + s.sending + s.toNet == log.sent + (s.sending + s.toNet);
    SubseqPrefix(log.sent, s.sending + s.toNet, log.built);
    SubseqTrans(log.taken, log.received, log.sent);
    SubseqTrans(log.taken, log.sent, log.built);
  }

  // ---- duplicated and reordered datagrams ------------------------------------------------------------

  /** Every datagram that shows up out of turn is one that was sent before. */
  ghost predicate OnlyResent(s: State, actions: seq<Action>) {
    forall k :: 0 <= k < |actions| && actions[k].Inject? ==>
      Run(s, actions[..k]).Some? && actions[k].d in Run(s, actions[..k]).value.log.sent
  }

  predicate From(messages: seq<Message>, built: seq<Message>) {
    forall k :: 0 <= k < |messages| ==> messages[k] in built
  }

  predicate EventsFrom(events: seq<Event>, all: seq<Event>) {
    forall k :: 0 <= k < |events| ==> events[k] in all
  }

  /** Whatever is queued, under way, in hand or being played was built here, and so was all that has been played. */
  ghost predicate OnlyBuilt(s: State) {
    && Bounds(s) && Whole(s.log.built)
    && From(s.toNet, s.log.built) && From(s.sending, s.log.built) && From(s.log.sent, s.log.built)
    && From(s.net, s.log.built) && From(s.arriving, s.log.built) && From(s.toDac, s.log.built)
    && (s.play.n == 0 || (s.play.n == UDP_PKT_SIZE && s.play.buf in s.log.built))
    && EventsFrom(s.log.played, Flat(s.log.built))
  }

  lemma {:induction false} EventsOfBuilt(m: Message, built: seq<Message>)
    requires m in built
    ensures EventsFrom(Events(m), Flat(built))
    decreases |built|
  {
    hide Events;
    var rest, last := built[..|built| - 1], built[|built| - 1];
    assert built == rest + [last];
    if m != last {
      EventsOfBuilt(m, rest);
    }
  }

  lemma EnqueueKeepsOnlyBuilt(s: State, ok: bool)
    requires OnlyBuilt(s) && Enabled(s, Enqueue(ok))
    ensures OnlyBuilt(Apply(s, Enqueue(ok)))
  {
    hide Flat, Encode;
    StepKeepsBounds(s, Enqueue(ok));
    FlatPush(s.log.built, Encode(s.fill.slots));
  }

  lemma PlayKeepsOnlyBuilt(s: State)
    requires OnlyBuilt(s) && Enabled(s, PlayPair)
    ensures OnlyBuilt(Apply(s, PlayPair))
  {
    hide Flat;
    StepKeepsBounds(s, PlayPair);
    var buf, i := s.play.buf, s.play.i;
    EventsOfBuilt(buf, s.log.built);
    assert Events(buf)[i] == Event(Left, WordAt(buf, i));
    assert Events(buf)[i + 1] == Event(Right, WordAt(buf, i + 1));
  }

  lemma TakeKeepsOnlyBuilt(s: State, ok: bool)
    requires OnlyBuilt(s) && Enabled(s, TakeToPlay(ok))
    ensures OnlyBuilt(Apply(s, TakeToPlay(ok)))
  {
    hide Flat, Overlay;
    StepKeepsBounds(s, TakeToPlay(ok));
    if ok {
      WholeMessageOverlays(s.play.buf, s.toDac[0]);
    }
  }

  lemma StepKeepsOnlyBuilt(s: State, a: Action)
    requires OnlyBuilt(s) && Enabled(s, a)
    requires a.Inject? ==> a.d in s.log.sent
    ensures OnlyBuilt(Apply(s, a))
  {
    match a
    case Enqueue(ok) => EnqueueKeepsOnlyBuilt(s, ok);
    case PlayPair => PlayKeepsOnlyBuilt(s);
    case TakeToPlay(ok) => TakeKeepsOnlyBuilt(s, ok);
    case _ => MoveKeepsOnlyBuilt(s, a);
  }

  lemma MoveKeepsOnlyBuilt(s: State, a: Action)
    requires OnlyBuilt(s) && Enabled(s, a)
    requires a.Inject? ==> a.d in s.log.sent
    requires !a.Enqueue? && !a.PlayPair? && !a.TakeToPlay?
    ensures OnlyBuilt(Apply(s, a))
  {
    hide Flat, EventsFrom;
    StepKeepsBounds(s, a);
    WholeWhenBuilt(s);
  }

  lemma WholeWhenBuilt(s: State)
    requires OnlyBuilt(s)
    ensures Whole(s.net)
  {
  }

  lemma {:induction false} RunStaysOnlyBuilt(s: State, actions: seq<Action>)
    requires Initial(s) && Run(s, actions).Some?
    requires OnlyResent(s, actions)
    ensures OnlyBuilt(Run(s, actions).value)
  {
    if actions == [] {
      RunKeepsBounds(s, actions);
    } else {
      var k := |actions| - 1;
      var before := actions[..k];
      forall j | 0 <= j < k
        ensures actions[..j] == before[..j]
      {
      }
      RunStaysOnlyBuilt(s, before);
      StepKeepsOnlyBuilt(Run(s, before).value, actions[k]);
    }
  }

  /** Even when the network loses, duplicates, delays and reorders datagrams at will, every sample played on a DAC
      channel was captured on the same ADC channel. */
  lemma NothingCrossesOver(s: State, actions: seq<Action>)
    requires Initial(s) && Run(s, actions).Some?
    requires NoEmptyReports(actions) && OnlyResent(s, actions)
    ensures var log := Run(s, actions).value.log;
            forall k :: 0 <= k < |log.played| ==> log.played[k] in log.captured
  {
    RunStaysOnlyBuilt(s, actions);
    RunCapturesInOrder(s, actions);
  }

  /** A captured sample, or, on the left, a word that the capture buffer held before the thread began. */
  predicate Owned(captured: seq<Event>, garbage: seq<Word>, e: Event) {
    e in captured || (e.ch == Left && e.w in garbage)
  }

  predicate AllOwned(captured: seq<Event>, garbage: seq<Word>, events: seq<Event>) {
    forall k :: 0 <= k < |events| ==> Owned(captured, garbage, events[k])
  }

  /** Every left slot, filled or still to be filled, and every right slot filled holds a sample of its own channel. */
  ghost predicate SlotsOwned(s: State, garbage: seq<Word>) {
    && Bounds(s)
    && s.fill.i % 2 == 0
    && AllOwned(s.log.captured, garbage, Flat(s.log.built))
    && (forall j :: 0 <= j < AXI_PKT_SIZE && (j % 2 == 0 || j < s.fill.i) ==>
          Owned(s.log.captured, garbage, Event(ChannelOf(j), s.fill.slots[j])))
  }

  lemma OwnedGrows(captured: seq<Event>, more: seq<Event>, garbage: seq<Word>, events: seq<Event>)
    requires AllOwned(captured, garbage, events)
    ensures AllOwned(captured + more, garbage, events)
  {
  }

  lemma CaptureKeepsOwned(s: State, r: Reading<Word>, garbage: seq<Word>)
    requires SlotsOwned(s, garbage) && Enabled(s, Capture(r)) && !r.rightEmpty
    ensures SlotsOwned(Apply(s, Capture(r)), garbage)
  {
    hide Flat, AllOwned;
    StepKeepsBounds(s, Capture(r));
    OwnedGrows(s.log.captured, SamplesRead(r), garbage, Flat(s.log.built));
    var i, captured := s.fill.i, s.log.captured + SamplesRead(r);
    assert captured[|captured| - 1] == Event(Right, r.right);
    assert !r.leftEmpty ==> captured[|captured| - 2] == Event(Left, r.left);
  }

  lemma EnqueueKeepsOwned(s: State, ok: bool, garbage: seq<Word>)
    requires SlotsOwned(s, garbage) && Enabled(s, Enqueue(ok))
    ensures SlotsOwned(Apply(s, Enqueue(ok)), garbage)
  {
    hide Flat, Encode;
    StepKeepsBounds(s, Enqueue(ok));
    FlatPush(s.log.built, Encode(s.fill.slots));
    FullPacketIsMessage(s.fill.slots);
  }

  lemma StepKeepsOwned(s: State, a: Action, garbage: seq<Word>)
    requires SlotsOwned(s, garbage) && Enabled(s, a)
    requires a.Capture? ==> !a.r.rightEmpty
    ensures SlotsOwned(Apply(s, a), garbage)
  {
    hide Flat, Encode, AllOwned, Owned;
    StepKeepsBounds(s, a);
    match a
    case Capture(r) => CaptureKeepsOwned(s, r, garbage);
    case Enqueue(ok) => EnqueueKeepsOwned(s, ok, garbage);
    case _ =>
  }

  lemma {:induction false} RunKeepsOwned(s: State, actions: seq<Action>)
    requires Initial(s) && Run(s, actions).Some? && NoRightEmptyReports(actions)
    ensures SlotsOwned(Run(s, actions).value, s.fill.slots)
  {
    RunKeepsBounds(s, actions);
    if actions != [] {
      var before, a := actions[..|actions| - 1], actions[|actions| - 1];
      RunKeepsOwned(s, before);
      StepKeepsOwned(Run(s, before).value, a, s.fill.slots);
    }
  }

  /** With left-empty reports too: a sample played on the right was captured on the right, and one played on the left
      was captured on the left, sooner or later, or lay in the capture buffer from the start. */
  lemma NothingCrossesOverWhenLeftEmpty(s: State, actions: seq<Action>)
    requires Initial(s) && Run(s, actions).Some?
    requires NoRightEmptyReports(actions) && OnlyResent(s, actions)
    ensures var log := Run(s, actions).value.log;
            forall k :: 0 <= k < |log.played| ==>
              log.played[k] in log.captured || (log.played[k].ch == Left && log.played[k].w in s.fill.slots)
  {
    RunStaysOnlyBuilt(s, actions);
    RunKeepsOwned(s, actions);
    hide Flat, Run, Initial, OnlyResent, EventsFrom;
    var log := Run(s, actions).value.log;
    OwnedWhenFrom(log.captured, s.fill.slots, Flat(log.built), log.played);
  }

  lemma OwnedWhenFrom(captured: seq<Event>, garbage: seq<Word>, all: seq<Event>, events: seq<Event>)
    requires AllOwned(captured, garbage, all) && EventsFrom(events, all)
    ensures AllOwned(captured, garbage, events)
  {
    forall k | 0 <= k < |events|
      ensures Owned(captured, garbage, events[k])
    {
      var j :| 0 <= j < |all| && all[j] == events[k];
      assert Owned(captured, garbage, all[j]);
    }
  }

  // ---- a wire ----------------------------------------------------------------------------------------

  /** Everything between the two converters, oldest sample first. */
  function InFlight(s: State): seq<Event>
    requires Bounds(s) && s.play.i <= s.play.n / 4
  {
    EventsBetween(s.play.buf, s.play.i, s.play.n / 4)
    + Flat(s.toDac + s.arriving + s.net + s.sending + s.toNet)
    + PartialPacket(s.fill)
  }

  predicate NothingLost(s: State) {
    var c := s.counters;
    c.axiToNetW == 0 && c.netSend == 0 && c.netToAxiW == 0 && s.log.lostInNet == 0
  }

  /** The captured stream is the played stream followed by everything under way. */
  ghost predicate IsWire(s: State) {
    Bounds(s) && s.play.i <= s.play.n / 4 && s.log.captured == s.log.played + InFlight(s)
  }

  /** A wire: as long as the three loss counters are zero and the network has lost nothing, the
      captured stream is the played stream followed by all that is under way. */
  lemma {:induction false} LosslessIsAWire(s: State, actions: seq<Action>, t: State)
    requires Initial(s) && Run(s, actions) == Some(t) && NothingLost(t)
    requires NoEmptyReports(actions) && NoForeign(actions)
    ensures IsWire(t)
  {
    RunCapturesInOrder(s, actions);
    PacketsArePlayedOrUnderWay(s, actions, t);
  }

  /** Of the right channel that holds with left-empty reports too. */
  lemma {:induction false} RightIsAWire(s: State, actions: seq<Action>, t: State)
    requires Initial(s) && Run(s, actions) == Some(t) && NothingLost(t)
    requires NoRightEmptyReports(actions) && NoForeign(actions)
    ensures t.play.i <= t.play.n / 4 && Bounds(t)
    ensures Only(Right, t.log.captured) == Only(Right, t.log.played + InFlight(t))
  {
    RunKeepsRight(s, actions);
    PacketsArePlayedOrUnderWay(s, actions, t);
  }

  /** Whatever the FIFOs report: with nothing lost, the packets' content is what was played and what is under way. */
  lemma PacketsArePlayedOrUnderWay(s: State, actions: seq<Action>, t: State)
    requires Initial(s) && Run(s, actions) == Some(t) && NothingLost(t) && NoForeign(actions)
    ensures Bounds(t) && t.play.i <= t.play.n / 4
    ensures Flat(t.log.built) + PartialPacket(t.fill) == t.log.played + InFlight(t)
  {
    RunStaysCarried(s, actions);
    hide Flat, Run;
    var onTheWay := t.toDac + t.arriving + t.net + t.sending + t.toNet;
    BuiltIsTakenAndOnTheWay(t);
    FlatConcat(t.log.taken, onTheWay);
    WireEquation(t.log.played, EventsBetween(t.play.buf, t.play.i, t.play.n / 4),
                 Flat(t.log.taken), Flat(onTheWay), Flat(t.log.built), PartialPacket(t.fill));
  }

  lemma BuiltIsTakenAndOnTheWay(s: State)
    requires Ledger(s) && NetInOrder(s) && NothingLost(s)
    ensures s.log.built == s.log.taken + (s.toDac + s.arriving + s.net + s.sending + s.toNet)
  {
    hide Subseq, Bytes, Whole;
    var log := s.log;
    SubseqLength(log.sent + s.sending + s.toNet, log.built);
    SubseqLength(log.received + s.net, log.sent);
    SubseqLength(log.taken + s.toDac + s.arriving, log.received);
    StageEquation(log.built, log.sent, log.received, log.taken, s.toDac, s.arriving, s.net, s.sending, s.toNet);
  }

  lemma StageEquation<T>(built: seq<T>, sent: seq<T>, received: seq<T>, taken: seq<T>,
                         toDac: seq<T>, arriving: seq<T>, net: seq<T>, sending: seq<T>, toNet: seq<T>)
    requires built == sent + sending + toNet && sent == received + net && received == taken + toDac + arriving
    ensures built == taken + (toDac + arriving + net + sending + toNet)
  {
  }

  lemma WireEquation<T>(played: seq<T>, pending: seq<T>, taken: seq<T>, onTheWay: seq<T>, built: seq<T>,
                        partial: seq<T>)
    requires built == taken + onTheWay && taken == played + pending
    ensures built + partial == played + (pending + onTheWay + partial)
  {
  }
}
