/** 32-bit samples as they lie in memory, and the messages and event streams made of them. */
module Samples {
  import opened CaptureFill
  import opened Subsequences

  type Byte = bv8

  /** A 32-bit word as its four bytes, lowest address first. */
  datatype Word = Word(b0: Byte, b1: Byte, b2: Byte, b3: Byte) {
    function At(j: nat): Byte
      requires j < 4
    {
      if j == 0 then b0 else if j == 1 then b1 else if j == 2 then b2 else b3
    }
  }

  type Message = seq<Byte>

  function Encode(words: seq<Word>): (m: Message)
    ensures |m| == 4 * |words|
  {
    seq(4 * |words|, k requires 0 <= k < 4 * |words| => words[k / 4].At(k % 4))
  }

  function WordAt(m: Message, i: nat): Word
    requires 4 * i + 4 <= |m|
  {
    Word(m[4 * i], m[4 * i + 1], m[4 * i + 2], m[4 * i + 3])
  }

  lemma WordAtEncode(words: seq<Word>, i: nat)
    requires i < |words|
    ensures WordAt(Encode(words), i) == words[i]
  {
  }

  /** A sample read from, or written to, one of the two channels. */
  datatype Event = Event(ch: Channel, w: Word)

  function ChannelOf(slot: nat): Channel {
    if slot % 2 == 0 then Left else Right
  }

  /** The samples of a message from word `from` up to word `to`, even words left, odd words right. */
  function EventsBetween(m: Message, from: nat, to: nat): (e: seq<Event>)
    requires from <= to && 4 * to <= |m|
    ensures |e| == to - from
  {
    seq(to - from, k requires 0 <= k < to - from => Event(ChannelOf(from + k), WordAt(m, from + k)))
  }

  lemma EventsBetweenNone(m: Message)
    ensures EventsBetween(m, 0, 0) == []
  {
  }

  lemma EventsBetweenPair(m: Message, from: nat, to: nat)
    requires from % 2 == 0 && from + 2 <= to && 4 * to <= |m|
    ensures EventsBetween(m, from, to)
         == [Event(Left, WordAt(m, from))] + [Event(Right, WordAt(m, from + 1))] + EventsBetween(m, from + 2, to)
  {
    var e, rest := EventsBetween(m, from, to), EventsBetween(m, from + 2, to);
    forall k | 2 <= k < |e|
      ensures e[k] == rest[k - 2]
    {
      assert from + k == from + 2 + (k - 2);
    }
    assert ChannelOf(from + 0) == Left && ChannelOf(from + 1) == Right;
    assert e[0] == Event(Left, WordAt(m, from)) && e[1] == Event(Right, WordAt(m, from + 1));
  }

  lemma EventsBetweenGrow(m: Message, from: nat, to: nat)
    requires from <= to && to % 2 == 0 && 4 * (to + 2) <= |m|
    ensures EventsBetween(m, from, to + 2)
         == EventsBetween(m, from, to) + [Event(Left, WordAt(m, to))] + [Event(Right, WordAt(m, to + 1))]
  {
    var e, n := EventsBetween(m, from, to + 2), to - from;
    assert ChannelOf(from + n) == Left && ChannelOf(from + (n + 1)) == Right;
    assert e[n] == Event(Left, WordAt(m, to)) && e[n + 1] == Event(Right, WordAt(m, to + 1));
  }

  function Events(m: Message): seq<Event> {
    EventsBetween(m, 0, |m| / 4)
  }

  function Flat(messages: seq<Message>): seq<Event> {
    if messages == [] then []
    else Flat(messages[..|messages| - 1]) + Events(messages[|messages| - 1])
  }

  lemma FlatPush(messages: seq<Message>, m: Message)
    ensures Flat(messages + [m]) == Flat(messages) + Events(m)
  {
  }

  lemma {:induction false} FlatConcat(a: seq<Message>, b: seq<Message>)
    ensures Flat(a + b) == Flat(a) + Flat(b)
    decreases |b|
  {
    if b == [] {
      assert a + b == a;
    } else {
      hide Flat, Events;
      var rest, m := b[..|b| - 1], b[|b| - 1];
      assert b == rest + [m] && a + b == (a + rest) + [m];
      FlatPush(rest, m);
      FlatPush(a + rest, m);
      FlatConcat(a, rest);
    }
  }

  lemma {:induction false} FlatKeepsOrder(a: seq<Message>, b: seq<Message>)
    requires Subseq(a, b)
    ensures Subseq(Flat(a), Flat(b))
    decreases |b|
  {
    if a != [] {
      var rest, m := b[..|b| - 1], b[|b| - 1];
      SubseqRefl(Events(m));
      if Subseq(a, rest) {
        FlatKeepsOrder(a, rest);
        SubseqConcat(Flat(a), Flat(rest), [], Events(m));
        assert Flat(a) + [] == Flat(a);
      } else {
        FlatKeepsOrder(a[..|a| - 1], rest);
        SubseqConcat(Flat(a[..|a| - 1]), Flat(rest), Events(m), Events(m));
      }
    }
  }

  /** The samples of one channel. */
  function Only(ch: Channel, events: seq<Event>): seq<Word> {
    if events == [] then []
    else
      var e := events[|events| - 1];
      var before := Only(ch, events[..|events| - 1]);
      if e.ch == ch then before + [e.w] else before
  }

  lemma {:induction false} OnlyKeepsOrder(ch: Channel, a: seq<Event>, b: seq<Event>)
    requires Subseq(a, b)
    ensures Subseq(Only(ch, a), Only(ch, b))
    decreases |b|
  {
    if a != [] {
      var rest, e := b[..|b| - 1], b[|b| - 1];
      if Subseq(a, rest) {
        OnlyKeepsOrder(ch, a, rest);
        if e.ch == ch {
          SubseqSkip(Only(ch, a), Only(ch, rest), e.w);
        }
      } else {
        OnlyKeepsOrder(ch, a[..|a| - 1], rest);
        if e.ch == ch {
          SubseqPush(Only(ch, a[..|a| - 1]), Only(ch, rest), e.w);
        }
      }
    }
  }

  function Bytes(messages: seq<Message>): nat {
    if messages == [] then 0
    else Bytes(messages[..|messages| - 1]) + |messages[|messages| - 1]|
  }

  lemma BytesPush(messages: seq<Message>, m: Message)
    ensures Bytes(messages + [m]) == Bytes(messages) + |m|
  {
  }

  lemma {:induction false} BytesConcat(a: seq<Message>, b: seq<Message>)
    ensures Bytes(a + b) == Bytes(a) + Bytes(b)
    decreases |b|
  {
    if b == [] {
      assert a + b == a;
    } else {
      assert a + b == (a + b[..|b| - 1]) + [b[|b| - 1]];
      BytesPush(a + b[..|b| - 1], b[|b| - 1]);
      BytesConcat(a, b[..|b| - 1]);
    }
  }
}
