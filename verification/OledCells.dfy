/** The frame buffer of the 128x32 display: four characters packed in one 32-bit word by shift and
    OR, and a byte-wise view of it. */
module OledCells {
  import opened Bytes

  /** The screen has four pages of 16 characters. */
  const CHARS_PER_WORD := 4

  /** `(int)char_seq` stored to an unsigned variable: a signed char extends its top bit. */
  function Widen(c: bv8, charIsSigned: bool): bv32 {
    if charIsSigned && c >= 0x80 then 0xFFFF_FF00 | (c as bv32) else c as bv32
  }

  /** `ascii_value << shifter`. */
  function Placed(v: bv32, slot: nat): bv32
    requires slot < CHARS_PER_WORD
  {
    if slot == 0 then v else if slot == 1 then v << 8 else if slot == 2 then v << 16 else v << 24
  }

  /** A character whose top bit is clear, or that is not sign-extended, touches its own slot only. */
  predicate Clean(c: bv8, charIsSigned: bool) {
    charIsSigned ==> c < 0x80
  }

  lemma OrIntoOwnSlot(w: bv32, c: bv8, charIsSigned: bool, slot: nat)
    requires slot < CHARS_PER_WORD
    ensures ByteOf(w | Placed(Widen(c, charIsSigned), slot), slot) == ByteOf(w, slot) | c
  {
  }

  lemma OrLeavesOtherSlots(w: bv32, c: bv8, charIsSigned: bool, slot: nat, other: nat)
    requires slot < CHARS_PER_WORD && other < CHARS_PER_WORD && other != slot
    requires Clean(c, charIsSigned) || other < slot
    ensures ByteOf(w | Placed(Widen(c, charIsSigned), slot), other) == ByteOf(w, other)
  {
  }

  /** Exactly when printing leaves the other three characters of the word alone: a sign-extended
      character fills every later slot with ones. */
  lemma TouchesOnlyItsSlotIff(w: bv32, c: bv8, charIsSigned: bool, slot: nat)
    requires slot < CHARS_PER_WORD
    ensures (forall other :: 0 <= other < CHARS_PER_WORD && other != slot ==>
              ByteOf(w | Placed(Widen(c, charIsSigned), slot), other) == ByteOf(w, other))
            <==> Clean(c, charIsSigned) || (forall other :: slot < other < CHARS_PER_WORD ==> ByteOf(w, other) == 0xFF)
  {
    var after := w | Placed(Widen(c, charIsSigned), slot);
    if Clean(c, charIsSigned) {
      forall other | 0 <= other < CHARS_PER_WORD && other != slot
        ensures ByteOf(after, other) == ByteOf(w, other)
      {
        OrLeavesOtherSlots(w, c, charIsSigned, slot, other);
      }
    } else {
      forall other | 0 <= other < CHARS_PER_WORD && other != slot
        ensures ByteOf(after, other) == if other < slot then ByteOf(w, other) else 0xFF
      {
        if other < slot {
          OrLeavesOtherSlots(w, c, charIsSigned, slot, other);
        } else {
          SignSpills(w, c, slot, other);
        }
      }
    }
  }

  lemma SignSpills(w: bv32, c: bv8, slot: nat, other: nat)
    requires slot < other < CHARS_PER_WORD && c >= 0x80
    ensures ByteOf(w | Placed(Widen(c, true), slot), other) == 0xFF
  {
  }

  // ---- the whole buffer --------------------------------------------------------------------------

  const BUFFER_SIZE := 64

  /** The buffer entry `(position - position % 4) + offset` of a cell; cells are numbered page by
      page, 16 to the page. */
  function EntryOf(cell: nat): nat { cell - cell % 4 }

  /** One cell of the 4x16 grid of characters that the buffer stands for. */
  function Cell(buffer: seq<bv32>, cell: nat): bv8
    requires cell < |buffer| == BUFFER_SIZE
  {
    ByteOf(buffer[EntryOf(cell)], cell % 4)
  }

  predicate OnScreen(page: nat, position: nat) { page < 4 && position < 16 }

  function Stamped(w: bv32, c: bv8, charIsSigned: bool, slot: nat): bv32
    requires slot < CHARS_PER_WORD
  {
    w | Placed(Widen(c, charIsSigned), slot)
  }

  /** What oled_print_char does to the buffer. */
  function AfterChar(buffer: seq<bv32>, c: bv8, page: nat, position: nat, charIsSigned: bool): (b: seq<bv32>)
    requires |buffer| == BUFFER_SIZE
    ensures |b| == BUFFER_SIZE
  {
    if !OnScreen(page, position) then buffer
    else
      var entry := position - position % 4 + 16 * page;
      buffer[entry := Stamped(buffer[entry], c, charIsSigned, position % 4)]
  }

  /** What oled_print_message does to the buffer: character `i` goes to position `i`. */
  function AfterMessage(buffer: seq<bv32>, message: seq<bv8>, page: nat, charIsSigned: bool): (b: seq<bv32>)
    requires |buffer| == BUFFER_SIZE
    ensures |b| == BUFFER_SIZE
    decreases |message|
  {
    if message == [] then buffer
    else
      var last := |message| - 1;
      AfterChar(AfterMessage(buffer, message[..last], page, charIsSigned), message[last], page, last, charIsSigned)
  }

  lemma PlaceOfCell(page: nat, position: nat)
    requires OnScreen(page, position)
    ensures var cell := 16 * page + position;
            && cell < BUFFER_SIZE && cell / 16 == page && cell % 16 == position
            && EntryOf(cell) == position - position % 4 + 16 * page && cell % 4 == position % 4
  {
  }

  lemma CellsOfOneEntry(a: nat, b: nat)
    requires EntryOf(a) == EntryOf(b)
    ensures a == b <==> a % 4 == b % 4
  {
  }

  lemma StampRefinesSlots(w: bv32, c: bv8, charIsSigned: bool, slot: nat, other: nat)
    requires slot < CHARS_PER_WORD && other < CHARS_PER_WORD && Clean(c, charIsSigned)
    ensures ByteOf(Stamped(w, c, charIsSigned, slot), other)
            == if other == slot then ByteOf(w, other) | c else ByteOf(w, other)
  {
    if other == slot {
      OrIntoOwnSlot(w, c, charIsSigned, slot);
    } else {
      OrLeavesOtherSlots(w, c, charIsSigned, slot, other);
    }
  }

  lemma CharRefinesGrid(buffer: seq<bv32>, c: bv8, page: nat, position: nat, charIsSigned: bool, cell: nat)
    requires cell < |buffer| == BUFFER_SIZE && Clean(c, charIsSigned)
    ensures Cell(AfterChar(buffer, c, page, position, charIsSigned), cell)
         == if OnScreen(page, position) && cell == 16 * page + position then Cell(buffer, cell) | c
            else Cell(buffer, cell)
  {
    hide ByteOf, Stamped;
    if OnScreen(page, position) {
      var target := 16 * page + position;
      PlaceOfCell(page, position);
      if EntryOf(cell) == EntryOf(target) {
        CellsOfOneEntry(cell, target);
        StampRefinesSlots(buffer[EntryOf(cell)], c, charIsSigned, position % 4, cell % 4);
      }
    }
  }

  predicate AllClean(message: seq<bv8>, charIsSigned: bool) {
    forall i :: 0 <= i < |message| ==> Clean(message[i], charIsSigned)
  }

  /** Refinement of the grid: a message ORs its first 16 characters into its page, cell by cell,
      and changes no other cell; everything past position 15 is cut off. */
  lemma {:induction false} MessageRefinesGrid(
    buffer: seq<bv32>, message: seq<bv8>, page: nat, charIsSigned: bool, cell: nat)
    requires cell < |buffer| == BUFFER_SIZE && AllClean(message, charIsSigned)
    ensures Cell(AfterMessage(buffer, message, page, charIsSigned), cell)
         == if cell / 16 == page && cell % 16 < |message|
            then Cell(buffer, cell) | message[cell % 16] else Cell(buffer, cell)
    decreases |message|
  {
    hide ByteOf, Stamped, AfterChar;
    if message != [] {
      var last := |message| - 1;
      MessageRefinesGrid(buffer, message[..last], page, charIsSigned, cell);
      CharRefinesGrid(AfterMessage(buffer, message[..last], page, charIsSigned),
                      message[last], page, last, charIsSigned, cell);
    }
  }

  lemma CharSparesUnusedEntries(buffer: seq<bv32>, c: bv8, page: nat, position: nat, charIsSigned: bool, k: nat)
    requires k < |buffer| == BUFFER_SIZE && k % 4 != 0
    ensures AfterChar(buffer, c, page, position, charIsSigned)[k] == buffer[k]
  {
  }

  /** The three entries out of four that no cell uses are never written. */
  lemma {:induction false} MessageSparesUnusedEntries(
    buffer: seq<bv32>, message: seq<bv8>, page: nat, charIsSigned: bool, k: nat)
    requires k < |buffer| == BUFFER_SIZE && k % 4 != 0
    ensures AfterMessage(buffer, message, page, charIsSigned)[k] == buffer[k]
    decreases |message|
  {
    if message != [] {
      var last := |message| - 1;
      MessageSparesUnusedEntries(buffer, message[..last], page, charIsSigned, k);
      CharSparesUnusedEntries(AfterMessage(buffer, message[..last], page, charIsSigned),
                              message[last], page, last, charIsSigned, k);
    }
  }

  // ---- sessions ----------------------------------------------------------------------------------

  datatype Print = Print(message: seq<bv8>, page: nat)

  function Blank(): (b: seq<bv32>)
    ensures |b| == BUFFER_SIZE
  {
    seq(BUFFER_SIZE, _ => 0)
  }

  lemma BlankShowsNothing(cell: nat)
    requires cell < BUFFER_SIZE
    ensures Cell(Blank(), cell) == 0
  {
  }

  /** The buffer after oled_clear and a number of calls of oled_print_message. */
  function AfterPrints(prints: seq<Print>, charIsSigned: bool): (b: seq<bv32>)
    ensures |b| == BUFFER_SIZE
  {
    if prints == [] then Blank()
    else
      var p := prints[|prints| - 1];
      AfterMessage(AfterPrints(prints[..|prints| - 1], charIsSigned), p.message, p.page, charIsSigned)
  }

  /** The OR of all characters that were printed at a place. */
  function OrOfPrinted(prints: seq<Print>, page: nat, position: nat): bv8 {
    if prints == [] then 0
    else
      var p := prints[|prints| - 1];
      OrOfPrinted(prints[..|prints| - 1], page, position)
      | if p.page == page && position < |p.message| then p.message[position] else 0
  }

  /** After clearing the display, every cell shows the OR of what was printed there. */
  lemma {:induction false} CellShowsOrOfPrinted(prints: seq<Print>, charIsSigned: bool, page: nat, position: nat)
    requires OnScreen(page, position)
    requires forall k :: 0 <= k < |prints| ==> AllClean(prints[k].message, charIsSigned)
    ensures Cell(AfterPrints(prints, charIsSigned), 16 * page + position) == OrOfPrinted(prints, page, position)
  {
    hide ByteOf, Stamped, AfterChar;
    var cell := 16 * page + position;
    if prints == [] {
      BlankShowsNothing(cell);
    } else {
      var before, p := prints[..|prints| - 1], prints[|prints| - 1];
      CellShowsOrOfPrinted(before, charIsSigned, page, position);
      MessageRefinesGrid(AfterPrints(before, charIsSigned), p.message, p.page, charIsSigned, cell);
      PlaceOfCell(page, position);
    }
  }
}
