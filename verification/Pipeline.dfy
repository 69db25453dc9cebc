/** The four audio threads, the two message queues between them and the network, as one state and
    the steps the threads can take on it. A call that blocks (mq_send on a full queue, mq_receive
    on an empty one) is a step that is not enabled; a call that fails is a step of its own.

    `Log` is history that the program does not keep: what was captured, built, sent, received,
    taken for playing and played so far. */
module Pipeline {
  import opened Common
  import opened CaptureFill
  import opened Samples

  const UDP_PKT_SIZE := AXI_PKT_SIZE * 4
  /** mq_maxmsg of the two queues; their mq_msgsize is UDP_PKT_SIZE both times. */
  const TO_NET_MAX := 4 * AXI_PKT_SIZE * 2
  const TO_DAC_MAX := UDP_PKT_SIZE * 4

  /** The program's global counters. */
  datatype Counters = Counters(
    bytesSendToNet: nat, bytesReadFromNet: nat,
    axiToNetW: nat, axiToNetR: nat, netToAxiW: nat, netToAxiR: nat,
    netRead: nat, netSend: nat)

  /** Buffer, received length and loop index of the playing thread. */
  datatype Playing = Playing(buf: Message, n: nat, i: nat)

  datatype Log = Log(
    captured: seq<Event>, built: seq<Message>, sent: seq<Message>, lostInNet: nat,
    received: seq<Message>, refused: seq<Message>, taken: seq<Message>, played: seq<Event>)

  datatype State = State(
    fill: Filling<Word>,     // capture thread: the packet under construction
    toNet: seq<Message>,     // queue A2N
    sending: seq<Message>,   // send thread: the message in hand, if any
    net: seq<Message>,       // datagrams under way
    arriving: seq<Message>,  // receive thread: the message in hand, if any
    toDac: seq<Message>,     // queue N2A
    play: Playing,
    counters: Counters,
    log: Log)

  datatype Action =
    | Capture(r: Reading<Word>)      // one pass of the fill loop
    | Enqueue(ok: bool)              // mq_send of the packet built
    | TakeToSend(ok: bool)           // mq_receive in the send thread
    | Send(ok: bool)                 // udp_client_send
    | Lose(k: nat)                   // the network drops a datagram
    | Inject(k: nat, d: Message)     // a duplicated, delayed or foreign datagram shows up
    | Receive(ok: bool)              // udp_client_recv
    | EnqueueReceived(ok: bool)      // mq_send of the datagram received
    | TakeToPlay(ok: bool)           // mq_receive in the playing thread
    | PlayPair                       // one pass of the play loop

  function NoCounts(): Counters { Counters(0, 0, 0, 0, 0, 0, 0, 0) }

  function NoLog(): Log { Log([], [], [], 0, [], [], [], []) }

  /** At thread start queues and counters are empty; the two local buffers hold anything. */
  predicate Initial(s: State) {
    && |s.fill.slots| == AXI_PKT_SIZE && s.fill.i == 0
    && s.toNet == s.sending == s.net == s.arriving == s.toDac == []
    && |s.play.buf| == UDP_PKT_SIZE && s.play.n == 0 && s.play.i == 0
    && s.counters == NoCounts() && s.log == NoLog()
  }

  predicate Enabled(s: State, a: Action) {
    match a
    case Capture(r) => s.fill.i < |s.fill.slots| && !Overruns(s.fill, r)
    case Enqueue(ok) => s.fill.i >= |s.fill.slots| && (ok ==> |s.toNet| < TO_NET_MAX)
    case TakeToSend(ok) => s.sending == [] && (ok ==> s.toNet != [])
    case Send(ok) => s.sending != []
    case Lose(k) => k < |s.net|
    case Inject(k, d) => k <= |s.net|
    case Receive(ok) => s.arriving == [] && (ok ==> s.net != [])
    case EnqueueReceived(ok) => s.arriving != [] && (ok ==> |s.toDac| < TO_DAC_MAX)
    case TakeToPlay(ok) => s.play.i >= s.play.n / 4 && (ok ==> s.toDac != [])
    case PlayPair => s.play.i < s.play.n / 4 && 4 * (s.play.i + 2) <= |s.play.buf|
  }

  /** The samples one pass of the fill loop reads, in order. */
  function SamplesRead(r: Reading<Word>): seq<Event> {
    (if r.leftEmpty then [] else [Event(Left, r.left)])
    + (if r.rightEmpty then [] else [Event(Right, r.right)])
  }

  /** recvfrom cuts a datagram to the buffer it is given. */
  function Cut(d: Message): (m: Message)
    ensures m <= d && |m| == if |d| <= UDP_PKT_SIZE then |d| else UDP_PKT_SIZE
  {
    if |d| <= UDP_PKT_SIZE then d else d[..UDP_PKT_SIZE]
  }

  /** mq_receive overwrites the front of the buffer and leaves the rest. */
  function Overlay(buf: Message, m: Message): Message {
    if |m| <= |buf| then m + buf[|m|..] else m
  }

  function AfterCapture(s: State, r: Reading<Word>): State
    requires Enabled(s, Capture(r))
  {
    s.(fill := FillStep(s.fill, r), log := s.log.(captured := s.log.captured + SamplesRead(r)))
  }

  function AfterEnqueue(s: State, ok: bool): State
    requires Enabled(s, Enqueue(ok))
  {
    var m := Encode(s.fill.slots);
    var t := s.(fill := Filling(s.fill.slots, 0), log := s.log.(built := s.log.built + [m]));
    if ok then t.(toNet := s.toNet + [m])
    else t.(counters := s.counters.(axiToNetW := s.counters.axiToNetW + 1))
  }

  function AfterTakeToSend(s: State, ok: bool): State
    requires Enabled(s, TakeToSend(ok))
  {
    if ok then s.(sending := [s.toNet[0]], toNet := s.toNet[1..])
    else s.(counters := s.counters.(axiToNetR := s.counters.axiToNetR + 1))
  }

  function AfterSend(s: State, ok: bool): State
    requires Enabled(s, Send(ok))
  {
    var m, c := s.sending[0], s.counters;
    var t := s.(sending := s.sending[1..]);
    if ok then t.(net := s.net + [m], log := s.log.(sent := s.log.sent + [m]),
                  counters := c.(bytesSendToNet := c.bytesSendToNet + |m|))
    else t.(counters := c.(netSend := c.netSend + 1))
  }

  function AfterReceive(s: State, ok: bool): State
    requires Enabled(s, Receive(ok))
  {
    var c := s.counters;
    if ok then
      var m := Cut(s.net[0]);
      s.(net := s.net[1..], arriving := [m], log := s.log.(received := s.log.received + [m]),
         counters := c.(bytesReadFromNet := c.bytesReadFromNet + |m|))
    else s.(counters := c.(netRead := c.netRead + 1))
  }

  function AfterEnqueueReceived(s: State, ok: bool): State
    requires Enabled(s, EnqueueReceived(ok))
  {
    var m := s.arriving[0];
    var t := s.(arriving := s.arriving[1..]);
    if ok then t.(toDac := s.toDac + [m])
    else t.(log := s.log.(refused := s.log.refused + [m]),
            counters := s.counters.(netToAxiW := s.counters.netToAxiW + 1))
  }

  function AfterTakeToPlay(s: State, ok: bool): State
    requires Enabled(s, TakeToPlay(ok))
  {
    if ok then
      var m := s.toDac[0];
      s.(toDac := s.toDac[1..], play := Playing(Overlay(s.play.buf, m), |m|, 0),
         log := s.log.(taken := s.log.taken + [m]))
    else s.(counters := s.counters.(netToAxiR := s.counters.netToAxiR + 1))
  }

  function AfterPlayPair(s: State): State
    requires Enabled(s, PlayPair)
  {
    var i := s.play.i;
    s.(play := s.play.(i := i + 2),
       log := s.log.(played := s.log.played + [Event(Left, WordAt(s.play.buf, i))]
                                            + [Event(Right, WordAt(s.play.buf, i + 1))]))
  }

  function Apply(s: State, a: Action): State
    requires Enabled(s, a)
  {
    match a
    case Capture(r) => AfterCapture(s, r)
    case Enqueue(ok) => AfterEnqueue(s, ok)
    case TakeToSend(ok) => AfterTakeToSend(s, ok)
    case Send(ok) => AfterSend(s, ok)
    case Lose(k) => s.(net := s.net[..k] + s.net[k + 1..], log := s.log.(lostInNet := s.log.lostInNet + 1))
    case Inject(k, d) => s.(net := s.net[..k] + [d] + s.net[k..])
    case Receive(ok) => AfterReceive(s, ok)
    case EnqueueReceived(ok) => AfterEnqueueReceived(s, ok)
    case TakeToPlay(ok) => AfterTakeToPlay(s, ok)
    case PlayPair => AfterPlayPair(s)
  }

  /** The state after a whole run, if every action is enabled when its turn comes. */
  function Run(s: State, actions: seq<Action>): Option<State> {
    if actions == [] then Some(s)
    else
      match Run(s, actions[..|actions| - 1])
      case None => None
      case Some(t) =>
        var a := actions[|actions| - 1];
        if Enabled(t, a) then Some(Apply(t, a)) else None
  }
}
