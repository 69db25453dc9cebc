/** The program itself: global counters, queues and per-thread buffers, with one method for each
    stretch of a thread body between two calls that can block. Every method is proved to take
    exactly the step that `Pipeline.Apply` specifies, and `Perform` puts them together. */
module Streamer {
  import opened CaptureFill
  import opened Samples
  import opened Pipeline
  import opened PipelineProofs

  class Streamer {
    // capture thread
    var captureBuffer: array<Word>
    var i: nat
    // the two message queues, and the message a thread has received and not yet passed on
    var toNet: seq<Message>
    var sending: seq<Message>
    var arriving: seq<Message>
    var toDac: seq<Message>
    // playing thread
    var playBuffer: array<Byte>
    var n: nat
    var j: nat
    // the global counters
    var counters: Counters
    // the network and the history
    ghost var net: seq<Message>
    ghost var log: Log

    ghost function Now(): State
      reads this, captureBuffer, playBuffer
    {
      State(
        Filling(captureBuffer[..], i), toNet, sending, net, arriving, toDac,
        Playing(playBuffer[..], n, j),
        counters, log)
    }

    ghost predicate Valid()
      reads this, captureBuffer, playBuffer
    {
      Bounds(Now())
    }

    /** Both buffers are locals without an initial value. */
    constructor (captureGarbage: seq<Word>, playGarbage: seq<Byte>)
      requires |captureGarbage| == AXI_PKT_SIZE && |playGarbage| == UDP_PKT_SIZE
      ensures Initial(Now()) && Valid()
      ensures fresh(captureBuffer) && fresh(playBuffer)
    {
      captureBuffer := new Word[AXI_PKT_SIZE](k requires 0 <= k < AXI_PKT_SIZE => captureGarbage[k]);
      playBuffer := new Byte[UDP_PKT_SIZE](k requires 0 <= k < UDP_PKT_SIZE => playGarbage[k]);
      i, n, j := 0, 0, 0;
      toNet, sending, arriving, toDac, net := [], [], [], [], [];
      counters := NoCounts();
      log := NoLog();
    }

    /** One pass of the fill loop of axi_to_net_mq_writer. A pass that is about to store past the array, after which the
        program's behaviour is undefined, is reported and goes no further. */
    method CapturePass(r: Reading<Word>) returns (overrun: bool)
      requires Valid() && i < captureBuffer.Length
      modifies this`i, this`log, captureBuffer
      ensures overrun <==> Overruns(old(Now().fill), r)
      ensures !overrun ==> Now() == AfterCapture(old(Now()), r)
    {
      overrun := false;
      if !r.leftEmpty {
        captureBuffer[i] := r.left;
      }
      if !r.rightEmpty {
        i := i + 1;
        if i >= captureBuffer.Length {
          return true;
        }
        captureBuffer[i] := r.right;
      }
      i := i + 1;
      log := log.(captured := log.captured + SamplesRead(r));
    }

    /** mq_send of the packet built; `ok` is whether the call returns 0. */
    method Enqueue(ok: bool)
      requires Valid() && Enabled(Now(), Action.Enqueue(ok))
      modifies this`i, this`toNet, this`counters, this`log
      ensures Now() == AfterEnqueue(old(Now()), ok)
    {
      var m := Encode(captureBuffer[..]);
      if ok {
        toNet := toNet + [m];
      } else {
        counters := counters.(axiToNetW := counters.axiToNetW + 1);
      }
      i := 0;
      log := log.(built := log.built + [m]);
    }

    /** mq_receive in axi_to_net_mq_reader. */
    method TakeToSend(ok: bool)
      requires Valid() && Enabled(Now(), Action.TakeToSend(ok))
      modifies this`sending, this`toNet, this`counters
      ensures Now() == AfterTakeToSend(old(Now()), ok)
    {
      if ok {
        sending, toNet := [toNet[0]], toNet[1..];
      } else {
        counters := counters.(axiToNetR := counters.axiToNetR + 1);
      }
    }

    /** udp_client_send of the message in hand; on success it returns the message's length. */
    method Send(ok: bool)
      requires Valid() && Enabled(Now(), Action.Send(ok))
      modifies this`sending, this`counters, this`net, this`log
      ensures Now() == AfterSend(old(Now()), ok)
    {
      var m := sending[0];
      sending := sending[1..];
      if ok {
        counters := counters.(bytesSendToNet := counters.bytesSendToNet + |m|);
        net := net + [m];
        log := log.(sent := log.sent + [m]);
      } else {
        counters := counters.(netSend := counters.netSend + 1);
      }
    }

    /** udp_client_recv in net_to_axi_mq_writer; `d` is the datagram at the head of the network. */
    method Receive(ok: bool, d: Message)
      requires Valid() && Enabled(Now(), Action.Receive(ok))
      requires ok ==> d == net[0]
      modifies this`arriving, this`counters, this`net, this`log
      ensures Now() == AfterReceive(old(Now()), ok)
    {
      if ok {
        var m := Cut(d);
        arriving := [m];
        counters := counters.(bytesReadFromNet := counters.bytesReadFromNet + |m|);
        net := net[1..];
        log := log.(received := log.received + [m]);
      } else {
        counters := counters.(netRead := counters.netRead + 1);
      }
    }

    /** mq_send of the datagram received. */
    method EnqueueReceived(ok: bool)
      requires Valid() && Enabled(Now(), Action.EnqueueReceived(ok))
      modifies this`arriving, this`toDac, this`counters, this`log
      ensures Now() == AfterEnqueueReceived(old(Now()), ok)
    {
      var m := arriving[0];
      arriving := arriving[1..];
      if ok {
        toDac := toDac + [m];
      } else {
        counters := counters.(netToAxiW := counters.netToAxiW + 1);
        log := log.(refused := log.refused + [m]);
      }
    }

    method CopyToPlayBuffer(m: Message)
      requires |m| <= playBuffer.Length
      modifies playBuffer
      ensures playBuffer[..] == Overlay(old(playBuffer[..]), m)
      ensures forall k :: 0 <= k < playBuffer.Length ==> playBuffer[k] == if k < |m| then m[k] else old(playBuffer[k])
    {
      forall k | 0 <= k < |m| {
        playBuffer[k] := m[k];
      }
    }

    /** mq_receive in net_to_axi_mq_reader: it overwrites the front of the thread's buffer. */
    method TakeToPlay(ok: bool)
      requires Valid() && Enabled(Now(), Action.TakeToPlay(ok))
      modifies this`toDac, this`n, this`j, this`counters, this`log, playBuffer
      ensures Now() == AfterTakeToPlay(old(Now()), ok)
    {
      if ok {
        var m := toDac[0];
        CopyToPlayBuffer(m);
        toDac, n, j := toDac[1..], |m|, 0;
        log := log.(taken := log.taken + [m]);
      } else {
        counters := counters.(netToAxiR := counters.netToAxiR + 1);
      }
    }

    /** One pass of the play loop: a left word, `i++`, a right word, `i++`. */
    method PlayPass()
      requires Valid() && Enabled(Now(), PlayPair)
      modifies this`j, this`log
      ensures Now() == AfterPlayPair(old(Now()))
    {
      log := log.(played := log.played + [Event(Left, WordAt(playBuffer[..], j))]);
      j := j + 1;
      log := log.(played := log.played + [Event(Right, WordAt(playBuffer[..], j))]);
      j := j + 1;
    }

    /** What the network may do on its own. */
    ghost method Disturb(a: Action)
      requires Valid() && Enabled(Now(), a) && (a.Lose? || a.Inject?)
      modifies this`net, this`log
      ensures Now() == Apply(old(Now()), a)
    {
      match a
      case Lose(k) =>
        net := net[..k] + net[k + 1..];
        log := log.(lostInNet := log.lostInNet + 1);
      case Inject(k, d) =>
        net := net[..k] + [d] + net[k..];
    }

    /** Any step of any thread, or of the network: the program does what `Apply` says and stays valid. `d` is the
        datagram that a receive finds. */
    method Perform(a: Action, d: Message)
      requires Valid() && Enabled(Now(), a)
      requires a == Action.Receive(true) ==> d == net[0]
      modifies this, captureBuffer, playBuffer
      ensures Valid() && Now() == Apply(old(Now()), a)
    {
      StepKeepsBounds(Now(), a);
      hide Bounds, Enabled, AfterCapture, AfterEnqueue, AfterTakeToSend, AfterSend, AfterReceive, AfterEnqueueReceived,
        AfterTakeToPlay, AfterPlayPair;
      match a
      case Capture(r) => var _ := CapturePass(r);
      case Enqueue(ok) => Enqueue(ok);
      case TakeToSend(ok) => TakeToSend(ok);
      case Send(ok) => Send(ok);
      case Receive(ok) => Receive(ok, d);
      case EnqueueReceived(ok) => EnqueueReceived(ok);
      case TakeToPlay(ok) => TakeToPlay(ok);
      case PlayPair => PlayPass();
      case Lose(_) => Disturb(a);
      case Inject(_, _) => Disturb(a);
    }

    /** The play loop over one message. When the message holds an odd number of whole words the
        loop plays one word more than it brought. */
    method PlayMessage()
      requires Valid() && j == 0
      modifies this`j, this`log
      ensures Valid() && j == WordsPlayed(n)
      ensures log == old(log).(played := old(log.played) + EventsBetween(playBuffer[..], 0, WordsPlayed(n)))
      ensures InStep(EventsBetween(playBuffer[..], 0, WordsPlayed(n)))
    {
      hide EventsBetween, WordAt, InStep, Whole, Fits;
      EventsBetweenNone(playBuffer[..]);
      PairsAreInStep(playBuffer[..], (n / 4 + 1) / 2);
      while j < n / 4
        invariant Valid() && j <= WordsPlayed(n)
        invariant log == old(log).(played := old(log.played) + EventsBetween(playBuffer[..], 0, j))
      {
        EventsBetweenGrow(playBuffer[..], 0, j);
        StepKeepsBounds(Now(), PlayPair);
        PlayPass();
      }
    }
  }

  /** The number of words the play loop writes for a message of `n` bytes. */
  function WordsPlayed(n: nat): (w: nat)
    ensures n <= UDP_PKT_SIZE ==> 4 * w <= UDP_PKT_SIZE
  {
    2 * ((n / 4 + 1) / 2)
  }

  /** A message is played back as exactly its own samples if and only if it brings a whole number
      of left/right pairs; otherwise the last right sample is what an earlier message left in the
      buffer (in particular it need not be a sample of this message at all). */
  lemma PlaysOwnSamplesIffPairs(m: Message, buf: Message)
    requires |m| <= UDP_PKT_SIZE == |buf|
    ensures EventsBetween(Overlay(buf, m), 0, WordsPlayed(|m|)) == Events(m) <==> |m| % 8 < 4
  {
    if |m| % 8 < 4 {
      var over := Overlay(buf, m);
      assert WordsPlayed(|m|) == |m| / 4;
      forall k | 0 <= k < |m| / 4
        ensures WordAt(over, k) == WordAt(m, k)
      {
      }
    } else {
      assert WordsPlayed(|m|) == |m| / 4 + 1;
      assert |Events(m)| == |m| / 4;
    }
  }

  /** What lies at a place of the playing thread's buffer: the byte that the latest message reaching that far brought
      there, and before any the byte that was there at thread start. */
  function LeftThere(taken: seq<Message>, start: Message, k: nat): Byte
    requires k < |start|
  {
    if taken == [] then start[k]
    else
      var m := taken[|taken| - 1];
      if k < |m| then m[k] else LeftThere(taken[..|taken| - 1], start, k)
  }

  ghost predicate HoldsWhatWasLeft(t: State, start: State)
    requires |start.play.buf| == UDP_PKT_SIZE
  {
    && |t.play.buf| == UDP_PKT_SIZE
    && forall k :: 0 <= k < UDP_PKT_SIZE ==> t.play.buf[k] == LeftThere(t.log.taken, start.play.buf, k)
  }

  lemma TakingLeavesRest(start: State, s: State)
    requires Bounds(s) && Enabled(s, Action.TakeToPlay(true)) && |start.play.buf| == UDP_PKT_SIZE
    requires HoldsWhatWasLeft(s, start)
    ensures HoldsWhatWasLeft(AfterTakeToPlay(s, true), start)
  {
    var m, taken := s.toDac[0], s.log.taken;
    assert (taken + [m])[..|taken|] == taken;
  }

  /** After every run the playing thread's buffer holds, at each place, what the latest message reaching that far left
      there. */
  lemma {:induction false} BufferHoldsWhatWasLeft(start: State, actions: seq<Action>)
    requires Initial(start) && Run(start, actions).Some?
    ensures HoldsWhatWasLeft(Run(start, actions).value, start)
  {
    if actions != [] {
      hide HoldsWhatWasLeft, Bounds;
      var before, a := actions[..|actions| - 1], actions[|actions| - 1];
      var s := Run(start, before).value;
      BufferHoldsWhatWasLeft(start, before);
      RunKeepsBounds(start, before);
      if a == Action.TakeToPlay(true) {
        TakingLeavesRest(start, s);
      } else {
        SameBufferHolds(start, s, Apply(s, a));
      }
    }
  }

  lemma SameBufferHolds(start: State, s: State, t: State)
    requires |start.play.buf| == UDP_PKT_SIZE && HoldsWhatWasLeft(s, start)
    requires t.play.buf == s.play.buf && t.log.taken == s.log.taken
    ensures HoldsWhatWasLeft(t, start)
  {
  }

  /** What the play loop plays of a message that brings a left word without its right word: the words of the message,
      then on the right channel the word of the buffer that follows them. */
  lemma PlaysWordAfterMessage(buf: Message, m: Message)
    requires |m| <= UDP_PKT_SIZE == |buf| && |m| % 8 >= 4
    ensures var played := EventsBetween(Overlay(buf, m), 0, WordsPlayed(|m|));
            && |played| == |m| / 4 + 1
            && played[..|m| / 4] == Events(m)
            && played[|m| / 4] == Event(Right, WordAt(Overlay(buf, m), |m| / 4))
  {
    var over := Overlay(buf, m);
    forall k | 0 <= k < |m| / 4
      ensures WordAt(over, k) == WordAt(m, k)
    {
    }
  }

  lemma ByteOfWord(m: Message, i: nat, b: nat)
    requires 4 * i + 4 <= |m| && b < 4
    ensures WordAt(m, i).At(b) == m[4 * i + b]
  {
  }

  /** So that right word is the one that earlier messages left in the buffer, but for the bytes that this message still
      brings. */
  lemma OddWordIsStale(start: State, actions: seq<Action>)
    requires Initial(start) && Run(start, actions).Some?
    requires var s := Run(start, actions).value;
             Enabled(s, Action.TakeToPlay(true)) && |s.toDac[0]| % 8 >= 4
    ensures var s := Run(start, actions).value;
            var m, buf := s.toDac[0], AfterTakeToPlay(s, true).play.buf;
            && |m| <= UDP_PKT_SIZE == |buf|
            && var played := EventsBetween(buf, 0, WordsPlayed(|m|));
            && |played| == |m| / 4 + 1 && played[..|m| / 4] == Events(m) && played[|m| / 4].ch == Right
            && forall b :: 0 <= b < 4 ==>
                 var k := |m| - |m| % 4 + b;
                 played[|m| / 4].w.At(b) == if k < |m| then m[k] else LeftThere(s.log.taken, start.play.buf, k)
  {
    hide LeftThere, EventsBetween, Events, WordAt, WordsPlayed, Run;
    var s := Run(start, actions).value;
    BufferHoldsWhatWasLeft(start, actions);
    RunKeepsBounds(start, actions);
    var m := s.toDac[0];
    PlaysWordAfterMessage(s.play.buf, m);
    forall b | 0 <= b < 4
      ensures WordAt(Overlay(s.play.buf, m), |m| / 4).At(b) == Overlay(s.play.buf, m)[|m| - |m| % 4 + b]
    {
      ByteOfWord(Overlay(s.play.buf, m), |m| / 4, b);
    }
  }
}
