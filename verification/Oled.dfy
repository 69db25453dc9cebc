/** The display driver over its static array and the device registers. */
module Oled {
  import opened Bytes
  import opened OledCells

  const DELAY := 10000
  /** Device word 16 (byte offset 64) is the strobe; words 0 to 15 take the characters. */
  const STROBE := 16

  /** The page switch; the default branch reports a wrong page. */
  function Offset(page: nat): (offset: int)
    ensures offset == if page < 4 then 16 * page else -1
  {
    match page
    case 0 => 0
    case 1 => 16
    case 2 => 32
    case 3 => 48
    case _ => -1
  }

  class Display {
    const charIsSigned: bool
    const intSeq: array<bv32>
    const device: array<bv32>

    ghost predicate Valid()
      reads this
    {
      intSeq.Length == BUFFER_SIZE && device.Length == STROBE + 1 && intSeq != device
    }

    /** The device shows every fourth entry of the array. */
    ghost predicate Mirrored()
      requires Valid()
      reads this, intSeq, device
    {
      device[STROBE] == 0 && forall k :: 0 <= k < STROBE ==> device[k] == intSeq[4 * k]
    }

    /** What the screen shows at a place: the byte of the device word that four neighbouring places share. */
    lemma ScreenShowsCells(page: nat, position: nat)
      requires Valid() && Mirrored() && OnScreen(page, position)
      ensures ByteOf(device[4 * page + position / 4], position % 4) == Cell(intSeq[..], 16 * page + position)
    {
      hide ByteOf;
      PlaceOfCell(page, position);
    }

    constructor (charIsSigned: bool)
      ensures Valid() && this.charIsSigned == charIsSigned && fresh(intSeq) && fresh(device)
    {
      this.charIsSigned := charIsSigned;
      intSeq := new bv32[BUFFER_SIZE](_ => 0);
      device := new bv32[STROBE + 1](_ => 0);
    }

    /** The loops over byte offsets 0, 4, .., 60 and the two delay loops that close every update. */
    method WriteOut()
      requires Valid()
      modifies device
      ensures Mirrored()
    {
      var i := 0;
      while i <= 60
        invariant i % 4 == 0 && i <= 64
        invariant forall k :: 0 <= k < i / 4 ==> device[k] == intSeq[4 * k]
      {
        device[i / 4] := intSeq[i];
        i := i + 4;
      }
      for count := 0 to DELAY + 1
        invariant forall k :: 0 <= k < STROBE ==> device[k] == intSeq[4 * k]
      {
        device[STROBE] := 1;
      }
      for count := 0 to DELAY + 1
        invariant forall k :: 0 <= k < STROBE ==> device[k] == intSeq[4 * k]
        invariant count > 0 ==> device[STROBE] == 0
      {
        device[STROBE] := 0;
      }
    }

    method Clear()
      requires Valid()
      modifies intSeq, device
      ensures Mirrored() && intSeq[..] == Blank()
    {
      for i := 0 to 64
        invariant forall k :: 0 <= k < i ==> intSeq[k] == 0
      {
        intSeq[i] := 0;
      }
      WriteOut();
    }

    method OrInto(entry: nat, bits: bv32)
      requires Valid() && entry < BUFFER_SIZE
      modifies intSeq
      ensures intSeq[..] == old(intSeq[..])[entry := old(intSeq[entry]) | bits]
    {
      intSeq[entry] := intSeq[entry] | bits;
    }

    /** Returns whether the place is on the screen; only then anything is written. */
    method PrintChar(c: bv8, page: nat, position: nat) returns (done: bool)
      requires Valid()
      modifies intSeq, device
      ensures done <==> OnScreen(page, position)
      ensures if done then Mirrored() else device[..] == old(device[..])
      ensures intSeq[..] == AfterChar(old(intSeq[..]), c, page, position, charIsSigned)
    {
      if position > 15 {
        return false;
      }
      var offset := Offset(page);
      if offset < 0 {
        return false;
      }
      OrInto(position - position % 4 + offset, Placed(Widen(c, charIsSigned), position % 4));
      WriteOut();
      return true;
    }

    /** Prints character by character and reports success whatever the single calls return. */
    method PrintMessage(message: seq<bv8>, page: nat) returns (done: bool)
      requires Valid()
      modifies intSeq, device
      ensures done
      ensures if message != [] && page < 4 then Mirrored() else device[..] == old(device[..])
      ensures intSeq[..] == AfterMessage(old(intSeq[..]), message, page, charIsSigned)
    {
      for i := 0 to |message|
        invariant if i > 0 && page < 4 then Mirrored() else device[..] == old(device[..])
        invariant intSeq[..] == AfterMessage(old(intSeq[..]), message[..i], page, charIsSigned)
      {
        assert message[..i + 1][..i] == message[..i];
        var _ := PrintChar(message[i], page, i);
      }
      assert message[..|message|] == message;
      return true;
    }
  }
}
