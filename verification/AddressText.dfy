/** Text forms of IP and MAC addresses: the number readers and writers of the C library on short
    fields, the two extraction loops, print_ip and the packing of octets into 32-bit words. */
module AddressText {
  import opened Bytes

  // ---- reading numbers (atoi, and strtol with base 16) -------------------------------------------

  /** The value of a digit of the given base, or -1. */
  function DigitValue(c: char, base: nat): int {
    var v := if '0' <= c <= '9' then c as int - '0' as int
             else if 'a' <= c <= 'f' then c as int - 'a' as int + 10
             else if 'A' <= c <= 'F' then c as int - 'A' as int + 10
             else -1;
    if v < base then v else -1
  }

  predicate IsDigit(c: char, base: nat) { DigitValue(c, base) >= 0 }

  predicate IsSpace(c: char) {
    c == ' ' || '\t' <= c <= '\r'
  }

  function SkipSpaces(s: string): string {
    if s != [] && IsSpace(s[0]) then SkipSpaces(s[1..]) else s
  }

  /** The number spelled by the longest prefix of digits, added behind `acc`. */
  function Digits(s: string, base: nat, acc: nat): nat {
    if s == [] || !IsDigit(s[0], base) then acc
    else Digits(s[1..], base, acc * base + DigitValue(s[0], base))
  }

  /** An optional sign, for base 16 an optional "0x" before a digit, then the digits. */
  function Number(s: string, base: nat): int {
    var t := SkipSpaces(s);
    var negative := t != [] && t[0] == '-';
    var u := if t != [] && (t[0] == '-' || t[0] == '+') then t[1..] else t;
    var v := if base == 16 && |u| > 2 && u[0] == '0' && (u[1] == 'x' || u[1] == 'X') && IsDigit(u[2], 16)
             then u[2..] else u;
    var magnitude: int := Digits(v, base, 0);
    if negative then -magnitude else magnitude
  }

  /** Stored to an unsigned char the number keeps its value modulo 256. */
  function Octet(field: string, base: nat): bv8 {
    ToByte(Number(field, base))
  }

  // ---- splitting at '.' -------------------------------------------------------------------------

  /** The pieces between the dots; there is always at least one. */
  function Pieces(s: string): (p: seq<string>)
    ensures |p| >= 1
  {
    if s == [] then [""]
    else
      var before, c := Pieces(s[..|s| - 1]), s[|s| - 1];
      if c == '.' then before + [""]
      else before[..|before| - 1] + [before[|before| - 1] + [c]]
  }

  /** A dot at the very end does not open another field, and no text has no field. */
  function Fields(s: string): seq<string> {
    var p := Pieces(s);
    if p[|p| - 1] == "" then p[..|p| - 1] else p
  }

  /** What the extraction loops need to stay inside `buf[5]`, `oct[slots]` and the range of their
      unsigned char index. */
  predicate Readable(s: string, slots: nat) {
    && |s| <= 255
    && |Fields(s)| <= slots
    && forall k :: 0 <= k < |Pieces(s)| ==> |Pieces(s)[k]| <= 4
  }

  /** Octet `k` is that of field `k`; octets without a field stay 0. */
  function OctetAt(s: string, base: nat, k: nat): bv8 {
    if k < |Fields(s)| then Octet(Fields(s)[k], base) else 0
  }

  function Octets(s: string, base: nat, slots: nat): (o: seq<bv8>)
    ensures |o| == slots
  {
    seq(slots, k requires 0 <= k < slots => OctetAt(s, base, k))
  }

  lemma PiecesPush(s: string, c: char)
    ensures var p := Pieces(s);
            Pieces(s + [c]) == if c == '.' then p + [""] else p[..|p| - 1] + [p[|p| - 1] + [c]]
  {
  }

  /** The pieces of a prefix are those of the whole, the last one possibly cut short. */
  lemma {:induction false} PiecesOfPrefix(s: string, i: nat)
    requires i <= |s|
    ensures var p, q := Pieces(s[..i]), Pieces(s);
            && |p| <= |q|
            && (forall k :: 0 <= k < |p| - 1 ==> p[k] == q[k])
            && p[|p| - 1] <= q[|p| - 1]
    decreases |s| - i
  {
    if i == |s| {
      assert s[..i] == s;
    } else {
      assert s[..i + 1] == s[..i] + [s[i]];
      PiecesPush(s[..i], s[i]);
      PiecesOfPrefix(s, i + 1);
    }
  }

  function Last(p: seq<string>): string
    requires p != []
  {
    p[|p| - 1]
  }

  /** Octets written, and characters held in `buf`, after `i` characters. */
  function OctetsWritten(s: string, i: nat): nat
    requires i <= |s|
  {
    if i == |s| then |Fields(s)| else |Pieces(s[..i])| - 1
  }

  function CharsHeld(s: string, i: nat): string
    requires i <= |s|
  {
    if i == |s| then "" else Last(Pieces(s[..i]))
  }

  lemma PieceFits(s: string, slots: nat, i: nat)
    requires Readable(s, slots) && i <= |s|
    ensures |Last(Pieces(s[..i]))| <= 4
  {
    PiecesOfPrefix(s, i);
  }

  lemma HeldFits(s: string, slots: nat, i: nat)
    requires Readable(s, slots) && i < |s|
    ensures |CharsHeld(s, i)| <= 4 && (s[i] != '.' ==> |CharsHeld(s, i)| <= 3)
  {
    hide Readable;
    PieceFits(s, slots, i);
    PieceFits(s, slots, i + 1);
    assert s[..i + 1] == s[..i] + [s[i]];
    PiecesPush(s[..i], s[i]);
  }

  /** What the buffer holds after the first half of the loop body. */
  function Collected(s: string, i: nat): string
    requires i < |s|
  {
    if s[i] == '.' then CharsHeld(s, i) else CharsHeld(s, i) + [s[i]]
  }

  lemma InnerCharacter(s: string, i: nat)
    requires i < |s| - 1
    ensures if s[i] == '.' then
              && OctetsWritten(s, i) < |Fields(s)| && Fields(s)[OctetsWritten(s, i)] == Collected(s, i)
              && OctetsWritten(s, i + 1) == OctetsWritten(s, i) + 1 && CharsHeld(s, i + 1) == ""
            else
              OctetsWritten(s, i + 1) == OctetsWritten(s, i) && CharsHeld(s, i + 1) == Collected(s, i)
  {
    assert s[..i + 1] == s[..i] + [s[i]];
    PiecesPush(s[..i], s[i]);
    PiecesOfPrefix(s, i + 1);
  }

  lemma LastCharacter(s: string)
    requires s != []
    ensures var i := |s| - 1;
            && OctetsWritten(s, i) == |Fields(s)| - 1 && Fields(s)[OctetsWritten(s, i)] == Collected(s, i)
            && OctetsWritten(s, i + 1) == OctetsWritten(s, i) + 1 && CharsHeld(s, i + 1) == ""
  {
  }

  /** The two cases of the loop body: an octet is written, or the character is only collected. */
  lemma CharacterStep(s: string, base: nat, slots: nat, i: nat)
    requires Readable(s, slots) && i < |s|
    ensures |CharsHeld(s, i)| <= 4 && (s[i] != '.' ==> |CharsHeld(s, i)| <= 3)
    ensures if s[i] == '.' || i == |s| - 1 then
              && OctetsWritten(s, i) < slots && OctetAt(s, base, OctetsWritten(s, i)) == Octet(Collected(s, i), base)
              && OctetsWritten(s, i + 1) == OctetsWritten(s, i) + 1 && CharsHeld(s, i + 1) == ""
            else
              OctetsWritten(s, i + 1) == OctetsWritten(s, i) && CharsHeld(s, i + 1) == Collected(s, i)
  {
    hide OctetsWritten, CharsHeld, Collected, Octet, Pieces, Fields;
    HeldFits(s, slots, i);
    if i == |s| - 1 {
      LastCharacter(s);
    } else {
      InnerCharacter(s, i);
    }
  }

  lemma ExtractionEnds(s: string, base: nat, slots: nat)
    requires Readable(s, slots)
    ensures |s| <= 255 && OctetsWritten(s, 0) == 0 && CharsHeld(s, 0) == ""
    ensures forall k :: OctetsWritten(s, |s|) <= k ==> OctetAt(s, base, k) == 0
  {
  }

  /** extractIpAddress (base 10, 4 slots) and extractMacAddress (base 16, 6 slots): the two
      functions differ in nothing else. The index is an unsigned char. */
  method Extract(source: string, base: nat, slots: nat) returns (address: array<bv8>)
    requires Readable(source, slots)
    ensures fresh(address) && address.Length == slots
    ensures address[..] == Octets(source, base, slots)
  {
    hide OctetsWritten, CharsHeld, Octet, OctetAt, Readable;
    var len := |source|;
    var oct := new bv8[slots](_ => 0);
    var buf := new char[5];
    var cnt, cnt1, i := 0, 0, 0;
    ExtractionEnds(source, base, slots);
    while i < len
      invariant 0 <= i <= len
      invariant cnt1 == OctetsWritten(source, i)
      invariant cnt == |CharsHeld(source, i)| <= buf.Length && buf[..cnt] == CharsHeld(source, i)
      invariant forall k :: 0 <= k < slots ==> oct[k] == if k < cnt1 then OctetAt(source, base, k) else 0
      decreases len - i
    {
      CharacterStep(source, base, slots, i);
      if source[i] != '.' {
        buf[cnt] := source[i];
        cnt := cnt + 1;
      }
      assert buf[..cnt] == Collected(source, i);
      if source[i] == '.' || i == len - 1 {
        buf[cnt] := '\0';
        oct[cnt1] := Octet(buf[..cnt], base);
        cnt, cnt1 := 0, cnt1 + 1;
      }
      i := (i + 1) % 256;
    }
    address := oct;
  }
}
