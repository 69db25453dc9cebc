/** What the threads can always still do: drain whatever is under way, fill both queues to their maximum, and fail as
    often as the calls may. The guards of the steps are what makes these runs possible. */
module PipelineLiveness {
  import opened Common
  import opened CaptureFill
  import opened Samples
  import opened Pipeline
  import opened PipelineProofs
  import opened ChannelProofs

  // ---- runs ------------------------------------------------------------------------------------------

  lemma RunOne(s: State, a: Action)
    requires Enabled(s, a)
    ensures Run(s, [a]) == Some(Apply(s, a))
  {
    assert [a][..0] == [];
    assert Run(s, []) == Some(s);
  }

  lemma {:induction false} RunAppend(s: State, before: seq<Action>, after: seq<Action>)
    requires Run(s, before).Some?
    ensures Run(s, before + after) == Run(Run(s, before).value, after)
    decreases |after|
  {
    hide Enabled, Apply;
    if after == [] {
      assert before + after == before;
    } else {
      var k := |after| - 1;
      RunAppend(s, before, after[..k]);
      assert before + after == (before + after[..k]) + [after[k]];
      assert (before + after)[..|before + after| - 1] == before + after[..k];
    }
  }

  /** One step, then a run from where it leads. */
  lemma RunFirst(s: State, a: Action, more: seq<Action>)
    requires Enabled(s, a) && Run(Apply(s, a), more).Some?
    ensures Run(s, [a] + more) == Run(Apply(s, a), more)
  {
    RunOne(s, a);
    RunAppend(s, [a], more);
  }

  // ---- draining --------------------------------------------------------------------------------------

  /** Nothing queued, under way, in hand or left to play. */
  predicate Drained(s: State) {
    s.toNet == s.sending == s.net == s.arriving == s.toDac == [] && s.play.i >= s.play.n / 4
  }

  /** No failing call, no loss, nothing captured and nothing injected. */
  predicate Clean(actions: seq<Action>) {
    forall k :: 0 <= k < |actions| ==> actions[k] in {TakeToSend(true), Send(true), Receive(true),
                                                      EnqueueReceived(true), TakeToPlay(true), PlayPair}
  }

  predicate SameSource(s: State, t: State) {
    && s.fill == t.fill && s.log.captured == t.log.captured && s.log.built == t.log.built
    && s.log.lostInNet == t.log.lostInNet && s.log.refused == t.log.refused
    && s.counters.axiToNetW == t.counters.axiToNetW && s.counters.netSend == t.counters.netSend
    && s.counters.netToAxiW == t.counters.netToAxiW
  }

  /** How far everything still has to go. */
  function Distance(s: State): nat {
    5 * |s.toNet| + 4 * |s.sending| + 3 * |s.net| + 2 * |s.arriving| + |s.toDac|
  }

  function LeftToPlay(s: State): nat { if s.play.i < s.play.n / 4 then s.play.n / 4 - s.play.i else 0 }

  /** The step furthest down the line. */
  function NextStep(s: State): Action
    requires !Drained(s)
  {
    if s.play.i < s.play.n / 4 then PlayPair
    else if s.toDac != [] then TakeToPlay(true)
    else if s.arriving != [] then EnqueueReceived(true)
    else if s.net != [] then Receive(true)
    else if s.sending != [] then Send(true)
    else TakeToSend(true)
  }

  lemma NextStepAdvances(s: State)
    requires Bounds(s) && !Drained(s)
    ensures Enabled(s, NextStep(s)) && Clean([NextStep(s)])
    ensures var t := Apply(s, NextStep(s));
            && SameSource(s, t)
            && (Distance(t) < Distance(s) || (Distance(t) == Distance(s) && LeftToPlay(t) < LeftToPlay(s)))
  {
  }

  /** From every state within bounds the threads can carry everything to the end, without a failing call and without a
      loss. */
  lemma {:induction false} Drain(s: State) returns (more: seq<Action>)
    requires Bounds(s)
    ensures Clean(more) && Run(s, more).Some?
    ensures Drained(Run(s, more).value) && SameSource(s, Run(s, more).value)
    decreases Distance(s), LeftToPlay(s)
  {
    if Drained(s) {
      more := [];
    } else {
      var a := NextStep(s);
      NextStepAdvances(s);
      StepKeepsBounds(s, a);
      hide Bounds, Enabled, Apply, Drained, SameSource, Distance, LeftToPlay, NextStep;
      var rest := Drain(Apply(s, a));
      RunFirst(s, a, rest);
      more := [a] + rest;
      SameSourceTrans(s, Apply(s, a), Run(s, more).value);
    }
  }

  lemma SameSourceTrans(s: State, t: State, u: State)
    requires SameSource(s, t) && SameSource(t, u)
    ensures SameSource(s, u)
  {
  }

  /** Every reachable state can be drained. */
  lemma ReachableDrains(s: State, actions: seq<Action>) returns (more: seq<Action>)
    requires Initial(s) && Run(s, actions).Some?
    ensures Clean(more) && Run(s, actions + more).Some?
    ensures var t, u := Run(s, actions).value, Run(s, actions + more).value;
            Drained(u) && SameSource(t, u)
  {
    RunKeepsBounds(s, actions);
    more := Drain(Run(s, actions).value);
    RunAppend(s, actions, more);
  }

  lemma CleanIsNotForeign(actions: seq<Action>, more: seq<Action>)
    requires NoForeign(actions) && Clean(more)
    ensures NoForeign(actions + more)
  {
  }

  /** What has been taken is then played in full, and, if nothing had been lost, so is every packet built. */
  lemma EverythingIsPlayed(s: State, actions: seq<Action>) returns (more: seq<Action>)
    requires Initial(s) && Run(s, actions).Some? && NoForeign(actions)
    ensures Clean(more) && Run(s, actions + more).Some?
    ensures var t, u := Run(s, actions).value, Run(s, actions + more).value;
            && Drained(u) && SameSource(t, u)
            && u.log.played == Flat(u.log.taken)
            && (NothingLost(t) ==> u.log.played == Flat(t.log.built))
  {
    hide *;
    more := ReachableDrains(s, actions);
    CleanIsNotForeign(actions, more);
    RunStaysCarried(s, actions + more);
    DrainedPlaysAll(Run(s, actions).value, Run(s, actions + more).value);
  }

  lemma DrainedPlaysAll(t: State, u: State)
    requires Carried(u) && Drained(u) && SameSource(t, u)
    ensures u.log.played == Flat(u.log.taken)
    ensures NothingLost(t) ==> u.log.played == Flat(t.log.built)
  {
    hide Flat, Ledger, NetInOrder;
    NothingLeft(u.play.buf, u.play.i);
    if NothingLost(t) {
      BuiltIsTakenAndOnTheWay(u);
      assert u.log.built == u.log.taken;
    }
  }

  // ---- filling the queues ------------------------------------------------------------------------------

  function SomeReading(): Reading<Word> { Reading(false, Word(0, 0, 0, 0), false, Word(0, 0, 0, 0)) }

  predicate SameQueues(s: State, t: State) {
    s.toNet == t.toNet && s.sending == t.sending && s.net == t.net && s.arriving == t.arriving && s.toDac == t.toDac
    && s.counters == t.counters && s.play == t.play
  }

  predicate AllSucceed(actions: seq<Action>) {
    forall k :: 0 <= k < |actions| ==> actions[k].Capture? || actions[k] == Enqueue(true)
  }

  /** The capture thread can always complete its packet. */
  lemma {:induction false} FillUp(s: State) returns (more: seq<Action>)
    requires Bounds(s) && s.fill.i % 2 == 0
    ensures Run(s, more).Some? && AllSucceed(more)
    ensures var t := Run(s, more).value; Bounds(t) && SameQueues(s, t) && t.fill.i == AXI_PKT_SIZE
    decreases AXI_PKT_SIZE - s.fill.i
  {
    if s.fill.i == AXI_PKT_SIZE {
      more := [];
    } else {
      var a := Capture(SomeReading());
      StepKeepsBounds(s, a);
      var t := Apply(s, a);
      assert SameQueues(s, t) && t.fill.i == s.fill.i + 2;
      hide Bounds, Enabled, Apply;
      var rest := FillUp(t);
      RunFirst(s, a, rest);
      more := [a] + rest;
    }
  }

  /** Another packet reaches the first queue while it has room. */
  lemma BuildOne(s: State) returns (more: seq<Action>)
    requires Bounds(s) && s.fill.i % 2 == 0 && |s.toNet| < 512
    ensures Run(s, more).Some? && AllSucceed(more)
    ensures var t := Run(s, more).value;
            && Bounds(t) && t.fill.i == 0 && |t.toNet| == |s.toNet| + 1 && t.counters == s.counters
            && t.sending == s.sending && t.net == s.net && t.arriving == s.arriving && t.toDac == s.toDac
            && t.play == s.play
  {
    var fill := FillUp(s);
    var t := Run(s, fill).value;
    var a := Enqueue(true);
    StepKeepsBounds(t, a);
    RunOne(t, a);
    RunAppend(s, fill, [a]);
    more := fill + [a];
  }

  /** The first queue can hold every number of packets up to 512. */
  lemma {:induction false} FirstQueueFills(s: State, k: nat) returns (actions: seq<Action>)
    requires Initial(s) && k <= 512
    ensures Run(s, actions).Some?
    ensures var t := Run(s, actions).value; Bounds(t) && t.fill.i == 0 && |t.toNet| == k
    decreases k
  {
    if k == 0 {
      actions := [];
    } else {
      var before := FirstQueueFills(s, k - 1);
      hide Bounds, Initial;
      var one := BuildOne(Run(s, before).value);
      RunAppend(s, before, one);
      actions := before + one;
    }
  }

  /** Of the second queue only: nothing stands in its way. */
  predicate Ready(s: State) {
    s.toNet == s.sending == s.net == s.arriving == [] && s.fill.i == 0
  }

  /** The four steps from the first queue to the second. */
  function Pass(): seq<Action> { [TakeToSend(true)] + ([Send(true)] + ([Receive(true)] + [EnqueueReceived(true)])) }

  lemma PassOn(s: State)
    requires Bounds(s) && |s.toNet| == 1 && s.sending == s.net == s.arriving == [] && |s.toDac| < 1024
    ensures Run(s, Pass()).Some?
    ensures var t := Run(s, Pass()).value;
            && Bounds(t) && t.toNet == t.sending == t.net == t.arriving == []
            && t.fill == s.fill && |t.toDac| == |s.toDac| + 1
  {
    var a, b, c, d := TakeToSend(true), Send(true), Receive(true), EnqueueReceived(true);
    var s1 := Apply(s, a);
    StepKeepsBounds(s, a);
    var s2 := Apply(s1, b);
    StepKeepsBounds(s1, b);
    var s3 := Apply(s2, c);
    StepKeepsBounds(s2, c);
    StepKeepsBounds(s3, d);
    RunOne(s3, d);
    RunFirst(s2, c, [d]);
    RunFirst(s1, b, [c] + [d]);
    RunFirst(s, a, [b] + ([c] + [d]));
  }

  /** The second queue can hold every number of messages up to 1024. */
  lemma {:induction false} SecondQueueFills(s: State, k: nat) returns (actions: seq<Action>)
    requires Initial(s) && k <= 1024
    ensures Run(s, actions).Some?
    ensures var t := Run(s, actions).value; Bounds(t) && Ready(t) && |t.toDac| == k
    decreases k
  {
    if k == 0 {
      actions := [];
    } else {
      var before := SecondQueueFills(s, k - 1);
      hide Bounds, Initial;
      var t := Run(s, before).value;
      var one := BuildOne(t);
      RunAppend(s, before, one);
      var u := Run(t, one).value;
      PassOn(u);
      RunAppend(t, one, Pass());
      RunAppend(s, before, one + Pass());
      actions := before + (one + Pass());
    }
  }

  // ---- failing calls -----------------------------------------------------------------------------------

  predicate IsFailure(a: Action) {
    a in {Enqueue(false), TakeToSend(false), Send(false), Receive(false), EnqueueReceived(false), TakeToPlay(false)}
  }

  /** The failing calls of a run, in order. */
  function Failures(actions: seq<Action>): seq<Action> {
    if actions == [] then []
    else
      var before := Failures(actions[..|actions| - 1]);
      if IsFailure(actions[|actions| - 1]) then before + [actions[|actions| - 1]] else before
  }

  lemma {:induction false} FailuresConcat(a: seq<Action>, b: seq<Action>)
    ensures Failures(a + b) == Failures(a) + Failures(b)
    decreases |b|
  {
    if b == [] {
      assert a + b == a;
    } else {
      hide IsFailure;
      assert a + b == (a + b[..|b| - 1]) + [b[|b| - 1]];
      assert (a + b)[..|a + b| - 1] == a + b[..|b| - 1];
      FailuresConcat(a, b[..|b| - 1]);
    }
  }

  lemma {:induction false} NoFailures(actions: seq<Action>)
    requires forall k :: 0 <= k < |actions| ==> !IsFailure(actions[k])
    ensures Failures(actions) == []
    decreases |actions|
  {
    if actions != [] {
      NoFailures(actions[..|actions| - 1]);
    }
  }

  lemma FailuresOfOne(a: Action)
    ensures Failures([a]) == if IsFailure(a) then [a] else []
  {
    assert [a][..0] == [] && Failures([a][..0]) == [];
  }

  /** Nothing is under way, and the capture thread is not in the middle of a pair. */
  predicate AtRest(s: State) {
    Bounds(s) && Drained(s) && s.fill.i % 2 == 0
  }

  lemma FailAfter(s: State, ready: seq<Action>, f: Action) returns (more: seq<Action>)
    requires Run(s, ready).Some? && Enabled(Run(s, ready).value, f) && IsFailure(f) && Failures(ready) == []
    ensures Run(s, more) == Some(Apply(Run(s, ready).value, f)) && Failures(more) == [f]
  {
    RunOne(Run(s, ready).value, f);
    RunAppend(s, ready, [f]);
    FailuresOfOne(f);
    FailuresConcat(ready, [f]);
    more := ready + [f];
  }

  lemma FailToRead(s: State, f: Action) returns (more: seq<Action>)
    requires AtRest(s) && f in {TakeToSend(false), Receive(false), TakeToPlay(false)}
    ensures Run(s, more).Some? && AtRest(Run(s, more).value) && Failures(more) == [f]
  {
    StepKeepsBounds(s, f);
    assert Run(s, []) == Some(s);
    more := FailAfter(s, [], f);
  }

  lemma FailToEnqueue(s: State) returns (more: seq<Action>)
    requires AtRest(s)
    ensures Run(s, more).Some? && AtRest(Run(s, more).value) && Failures(more) == [Enqueue(false)]
  {
    var fill := CleanFillUp(s);
    StepKeepsBounds(Run(s, fill).value, Enqueue(false));
    more := FailAfter(s, fill, Enqueue(false));
  }

  lemma FailToSend(s: State) returns (more: seq<Action>)
    requires AtRest(s)
    ensures Run(s, more).Some? && AtRest(Run(s, more).value) && Failures(more) == [Send(false)]
  {
    var ready := CleanBuildOne(s);
    var t := Run(s, ready).value;
    var a := TakeToSend(true);
    StepKeepsBounds(t, a);
    RunOne(t, a);
    RunAppend(s, ready, [a]);
    FailuresOfOne(a);
    FailuresConcat(ready, [a]);
    StepKeepsBounds(Apply(t, a), Send(false));
    more := FailAfter(s, ready + [a], Send(false));
  }

  /** One packet on its way to the second queue, up to the receiving thread's hand. */
  lemma CarryToHand(t: State) returns (way: seq<Action>)
    requires Bounds(t) && |t.toNet| == 1 && t.sending == t.net == t.arriving == t.toDac == []
    ensures Run(t, way).Some? && Failures(way) == []
    ensures var u := Run(t, way).value;
            && Bounds(u) && u.fill == t.fill && u.play == t.play
            && |u.arriving| == 1 && u.toNet == u.sending == u.net == u.toDac == []
  {
    var a, b, c := TakeToSend(true), Send(true), Receive(true);
    var t1 := Apply(t, a);
    var t2 := Apply(t1, b);
    StepKeepsBounds(t, a);
    StepKeepsBounds(t1, b);
    StepKeepsBounds(t2, c);
    RunOne(t2, c);
    RunFirst(t1, b, [c]);
    RunFirst(t, a, [b] + [c]);
    way := [a] + ([b] + [c]);
    NoFailures(way);
  }

  lemma FailToPassOn(s: State) returns (more: seq<Action>)
    requires AtRest(s)
    ensures Run(s, more).Some? && AtRest(Run(s, more).value) && Failures(more) == [EnqueueReceived(false)]
  {
    var ready := CleanBuildOne(s);
    var t := Run(s, ready).value;
    var way := CarryToHand(t);
    StepKeepsBounds(Run(t, way).value, EnqueueReceived(false));
    RunAppend(s, ready, way);
    FailuresConcat(ready, way);
    more := FailAfter(s, ready + way, EnqueueReceived(false));
  }

  lemma {:induction false} CleanFillUp(s: State) returns (more: seq<Action>)
    requires Bounds(s) && s.fill.i % 2 == 0
    ensures Run(s, more).Some? && Failures(more) == []
    ensures var t := Run(s, more).value; Bounds(t) && SameQueues(s, t) && t.fill.i == AXI_PKT_SIZE
  {
    more := FillUp(s);
    NoFailures(more);
  }

  lemma CleanBuildOne(s: State) returns (more: seq<Action>)
    requires AtRest(s)
    ensures Run(s, more).Some? && Failures(more) == []
    ensures var t := Run(s, more).value;
            && Bounds(t) && t.fill.i == 0 && |t.toNet| == 1 && t.play == s.play
            && t.sending == t.net == t.arriving == t.toDac == []
  {
    more := BuildOne(s);
    NoFailures(more);
  }

  lemma FailOnce(s: State, f: Action) returns (more: seq<Action>)
    requires AtRest(s) && IsFailure(f)
    ensures Run(s, more).Some? && AtRest(Run(s, more).value) && Failures(more) == [f]
  {
    hide Run, AtRest, Failures;
    if f == Enqueue(false) {
      more := FailToEnqueue(s);
    } else if f == Send(false) {
      more := FailToSend(s);
    } else if f == EnqueueReceived(false) {
      more := FailToPassOn(s);
    } else {
      more := FailToRead(s, f);
    }
  }

  /** Every sequence of failing calls, of any kinds in any order, is the sequence of failing calls of some run. */
  lemma {:induction false} FailuresInAnyOrder(s: State, failures: seq<Action>) returns (actions: seq<Action>)
    requires Initial(s) && forall k :: 0 <= k < |failures| ==> IsFailure(failures[k])
    ensures Run(s, actions).Some? && AtRest(Run(s, actions).value) && Failures(actions) == failures
    decreases |failures|
  {
    hide Initial, IsFailure;
    if failures == [] {
      actions := [];
      RestAtStart(s);
    } else {
      var k := |failures| - 1;
      var before := FailuresInAnyOrder(s, failures[..k]);
      hide AtRest;
      var more := FailOnce(Run(s, before).value, failures[k]);
      RunAppend(s, before, more);
      FailuresConcat(before, more);
      assert failures == failures[..k] + [failures[k]];
      actions := before + more;
    }
  }

  lemma RestAtStart(s: State)
    requires Initial(s)
    ensures AtRest(s)
  {
  }
}
