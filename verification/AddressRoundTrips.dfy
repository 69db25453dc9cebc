/** Printing addresses, packing them into registers, and the round trips between text, octets and
    words. */
module AddressRoundTrips {
  import opened AddressText
  import opened Bytes

  // ---- writing numbers ---------------------------------------------------------------------------

  /** `%d` of a non-negative number. */
  function Decimal(n: nat): string {
    (if n < 10 then [] else Decimal(n / 10)) + [('0' as int + n % 10) as char]
  }

  function HexDigit(d: nat): char
    requires d < 16
  {
    if d < 10 then ('0' as int + d) as char else ('A' as int + d - 10) as char
  }

  /** `%02X` of a byte. */
  function HexByte(b: bv8): (s: string)
    ensures |s| == 2
  {
    [HexDigit(b as nat / 16), HexDigit(b as nat % 16)]
  }

  /** The digits are those of the upper-case alphabet, high one first. */
  lemma HexByteDigits(b: bv8)
    ensures var alphabet := "0123456789ABCDEF";
            HexByte(b) == [alphabet[b as nat / 16], alphabet[b as nat % 16]]
  {
    HexDigitOfAlphabet(b as nat / 16);
    HexDigitOfAlphabet(b as nat % 16);
  }

  lemma HexDigitOfAlphabet(d: nat)
    requires d < 16
    ensures HexDigit(d) == "0123456789ABCDEF"[d]
  {
  }

  function Join(fields: seq<string>): string {
    if fields == [] then ""
    else if |fields| == 1 then fields[0]
    else Join(fields[..|fields| - 1]) + "." + fields[|fields| - 1]
  }

  // ---- words -------------------------------------------------------------------------------------

  /** `a[0]<<24 | a[1]<<16 | a[2]<<8 | a[3]`. */
  function PackIp(a: seq<bv8>): bv32
    requires |a| == 4
  {
    (a[0] as bv32 << 24) | (a[1] as bv32 << 16) | (a[2] as bv32 << 8) | a[3] as bv32
  }

  function IpOctets(w: bv32): (o: seq<bv8>)
    ensures |o| == 4
  {
    [ByteOf(w, 3), ByteOf(w, 2), ByteOf(w, 1), ByteOf(w, 0)]
  }

  /** The first octet ends up in the top byte of the word, the last in the bottom one. */
  lemma PackIpPlaces(a: seq<bv8>)
    requires |a| == 4
    ensures PackIp(a) >> 24 == a[0] as bv32
    ensures (PackIp(a) >> 16) & 0xFF == a[1] as bv32
    ensures (PackIp(a) >> 8) & 0xFF == a[2] as bv32
    ensures PackIp(a) & 0xFF == a[3] as bv32
  {
  }

  lemma PackUnpack(w: bv32)
    ensures PackIp(IpOctets(w)) == w
  {
  }

  lemma UnpackPack(a: seq<bv8>)
    requires |a| == 4
    ensures IpOctets(PackIp(a)) == a
  {
  }

  // ---- printed addresses ---------------------------------------------------------------------------

  function DecimalFields(a: seq<bv8>): (f: seq<string>)
    ensures |f| == |a|
  {
    seq(|a|, k requires 0 <= k < |a| => Decimal(a[k] as nat))
  }

  function HexFields(a: seq<bv8>): (f: seq<string>)
    ensures |f| == |a|
  {
    seq(|a|, k requires 0 <= k < |a| => HexByte(a[k]))
  }

  /** The text print_ip leaves in its buffer. */
  function PrintIp(w: bv32): string {
    Join(DecimalFields(IpOctets(w)))
  }

  // ---- reading back what was written --------------------------------------------------------------

  predicate AllDigits(s: string, base: nat) {
    forall k :: 0 <= k < |s| ==> IsDigit(s[k], base)
  }

  lemma {:induction false} DigitsPush(s: string, c: char, base: nat, acc: nat)
    requires AllDigits(s, base) && IsDigit(c, base)
    ensures Digits(s + [c], base, acc) == Digits(s, base, acc) * base + DigitValue(c, base)
    decreases |s|
  {
    if s == [] {
      assert s + [c] == [c] && [c][1..] == [];
    } else {
      assert (s + [c])[1..] == s[1..] + [c];
      DigitsPush(s[1..], c, base, acc * base + DigitValue(s[0], base));
    }
  }

  /** A text of digits only, the first of which is no sign, space or "0x", is read in full. */
  lemma NumberOfDigits(s: string, base: nat)
    requires AllDigits(s, base) && base <= 16
    ensures Number(s, base) == Digits(s, base, 0)
  {
  }

  lemma {:induction false} ReadDecimal(n: nat)
    ensures AllDigits(Decimal(n), 10) && Digits(Decimal(n), 10, 0) == n
  {
    var c := ('0' as int + n % 10) as char;
    if n < 10 {
      assert Decimal(n) == [c] && [c][1..] == [];
    } else {
      ReadDecimal(n / 10);
      DigitsPush(Decimal(n / 10), c, 10, 0);
    }
  }

  lemma OctetOfDecimal(b: bv8)
    ensures Octet(Decimal(b as nat), 10) == b
  {
    hide ToByte, Number, Digits, Decimal;
    ReadDecimal(b as nat);
    NumberOfDigits(Decimal(b as nat), 10);
    ToByteOfByte(b);
  }

  lemma ReadHexPair(hi: nat, lo: nat)
    requires hi < 16 && lo < 16
    ensures var s := [HexDigit(hi), HexDigit(lo)];
            AllDigits(s, 16) && Digits(s, 16, 0) == 16 * hi + lo
  {
    var s := [HexDigit(hi), HexDigit(lo)];
    assert DigitValue(s[0], 16) == hi && DigitValue(s[1], 16) == lo;
    assert s[1..] == [HexDigit(lo)] && s[1..][1..] == [];
    assert Digits(s[1..], 16, hi) == Digits([], 16, hi * 16 + lo);
  }

  lemma OctetOfHex(b: bv8)
    ensures AllDigits(HexByte(b), 16) && Octet(HexByte(b), 16) == b
  {
    hide ToByte, Number, Digits, HexDigit, AllDigits;
    ToByteOfByte(b);
    ReadHexPair(b as nat / 16, b as nat % 16);
    NumberOfDigits(HexByte(b), 16);
  }

  // ---- joining and splitting -----------------------------------------------------------------------

  predicate NoDot(s: string) { forall k :: 0 <= k < |s| ==> s[k] != '.' }

  lemma {:induction false} PiecesOfUndotted(t: string, s: string)
    requires NoDot(s)
    ensures Pieces(t + s) == Pieces(t)[..|Pieces(t)| - 1] + [Last(Pieces(t)) + s]
    decreases |s|
  {
    hide Pieces;
    var kept, last := Pieces(t)[..|Pieces(t)| - 1], Last(Pieces(t));
    if s == [] {
      assert t + s == t && last + s == last;
    } else {
      var rest, c := s[..|s| - 1], s[|s| - 1];
      assert t + s == (t + rest) + [c];
      PiecesOfUndotted(t, rest);
      PiecesPush(t + rest, c);
      assert (kept + [last + rest])[..|kept|] == kept;
      assert (last + rest) + [c] == last + s;
    }
  }

  lemma PiecesOfAppended(t: string, s: string)
    requires NoDot(s)
    ensures Pieces(t + "." + s) == Pieces(t) + [s]
  {
    PiecesPush(t, '.');
    assert t + "." == t + ['.'];
    PiecesOfUndotted(t + ".", s);
    assert "" + s == s;
  }

  lemma {:induction false} PiecesOfJoin(fields: seq<string>)
    requires fields != [] && forall k :: 0 <= k < |fields| ==> NoDot(fields[k])
    ensures Pieces(Join(fields)) == fields
    decreases |fields|
  {
    hide Pieces, NoDot;
    var last := fields[|fields| - 1];
    if |fields| == 1 {
      PiecesOfOne(last);
    } else {
      PiecesOfJoin(fields[..|fields| - 1]);
      PiecesOfAppended(Join(fields[..|fields| - 1]), last);
    }
  }

  lemma PiecesOfOne(s: string)
    requires NoDot(s)
    ensures Pieces(s) == [s]
  {
    PiecesOfUndotted("", s);
    assert "" + s == s;
  }

  lemma AddressDigitsAreNoDots(s: string, base: nat)
    requires AllDigits(s, base)
    ensures NoDot(s)
  {
  }

  lemma {:induction false} FieldsOfJoin(fields: seq<string>, base: nat)
    requires fields != [] && forall k :: 0 <= k < |fields| ==> fields[k] != "" && AllDigits(fields[k], base)
    ensures Fields(Join(fields)) == Pieces(Join(fields)) == fields
  {
    forall k | 0 <= k < |fields|
      ensures NoDot(fields[k])
    {
      AddressDigitsAreNoDots(fields[k], base);
    }
    PiecesOfJoin(fields);
  }

  lemma {:induction false} JoinLength(fields: seq<string>, most: nat)
    requires forall k :: 0 <= k < |fields| ==> |fields[k]| <= most
    ensures |Join(fields)| <= |fields| * (most + 1)
    decreases |fields|
  {
    if |fields| > 1 {
      JoinLength(fields[..|fields| - 1], most);
    }
  }

  // ---- the round trips -------------------------------------------------------------------------------

  lemma DecimalOfByteIsShort(b: bv8)
    ensures 1 <= |Decimal(b as nat)| <= 3
  {
    var n := b as nat;
    if 10 <= n {
      assert |Decimal(n)| == |Decimal(n / 10)| + 1;
      if 10 <= n / 10 {
        assert |Decimal(n / 10)| == |Decimal(n / 10 / 10)| + 1;
      }
    }
  }

  lemma DecimalFieldsRead(a: seq<bv8>, slots: nat)
    requires 0 < |a| == slots <= 50
    ensures var text := Join(DecimalFields(a));
            Readable(text, slots) && Octets(text, 10, slots) == a
  {
    hide Octet, Decimal, Join, Pieces, Fields, AllDigits;
    var fields := DecimalFields(a);
    forall k | 0 <= k < |a|
      ensures 1 <= |fields[k]| <= 3 && AllDigits(fields[k], 10) && Octet(fields[k], 10) == a[k]
    {
      DecimalOfByteIsShort(a[k]);
      ReadDecimal(a[k] as nat);
      OctetOfDecimal(a[k]);
    }
    FieldsOfJoin(fields, 10);
    JoinLength(fields, 3);
  }

  /** Every 32-bit word survives print_ip, extractIpAddress and the packing of the four octets. */
  lemma WordSurvivesPrintAndParse(w: bv32)
    ensures Readable(PrintIp(w), 4)
    ensures PackIp(Octets(PrintIp(w), 10, 4)) == w
  {
    DecimalFieldsRead(IpOctets(w), 4);
    PackUnpack(w);
  }

  /** dec-octet of section 3.2.2 of RFC 3986: no leading zero, at most 255. */
  predicate DecOctet(s: string) {
    && AllDigits(s, 10)
    && (|s| == 1
        || (|s| == 2 && '1' <= s[0])
        || (|s| == 3 && s[0] == '1')
        || (|s| == 3 && s[0] == '2' && s[1] <= '4')
        || (|s| == 3 && s[0] == '2' && s[1] == '5' && s[2] <= '5'))
  }

  /** IPv4address of the same section. */
  predicate DottedQuad(fields: seq<string>) {
    |fields| == 4 && forall k :: 0 <= k < 4 ==> DecOctet(fields[k])
  }

  lemma DigitIsDecimal(c: char)
    requires IsDigit(c, 10)
    ensures Decimal(DigitValue(c, 10)) == [c]
  {
  }

  lemma OneDigitIsDecimal(s: string)
    requires |s| == 1 && AllDigits(s, 10)
    ensures Digits(s, 10, 0) == DigitValue(s[0], 10) && Decimal(Digits(s, 10, 0)) == s
  {
    hide Decimal, DigitValue;
    assert IsDigit(s[0], 10) && s[1..] == [] && s == [s[0]];
    DigitIsDecimal(s[0]);
  }

  lemma DecimalGrows(n: nat, c: char)
    requires n > 0 && IsDigit(c, 10)
    ensures Decimal(10 * n + DigitValue(c, 10)) == Decimal(n) + [c]
  {
    hide IsDigit, DigitValue;
    DigitChar(c);
    DecimalAppends(n, DigitValue(c, 10));
  }

  lemma DigitChar(c: char)
    requires IsDigit(c, 10)
    ensures 0 <= DigitValue(c, 10) < 10 && ('0' as int + DigitValue(c, 10)) as char == c
  {
  }

  lemma DecimalAppends(n: nat, d: nat)
    requires n > 0 && d < 10
    ensures Decimal(10 * n + d) == Decimal(n) + [('0' as int + d) as char]
  {
    assert (10 * n + d) / 10 == n && (10 * n + d) % 10 == d;
  }

  lemma LongerIsDecimal(s: string, c: char)
    requires AllDigits(s, 10) && IsDigit(c, 10)
    requires Digits(s, 10, 0) > 0 && Decimal(Digits(s, 10, 0)) == s
    ensures Digits(s + [c], 10, 0) == 10 * Digits(s, 10, 0) + DigitValue(c, 10)
    ensures Decimal(Digits(s + [c], 10, 0)) == s + [c]
  {
    hide Digits, Decimal, DigitValue, AllDigits;
    DigitsPush(s, c, 10, 0);
    DecimalGrows(Digits(s, 10, 0), c);
  }

  lemma DecOctetIsDecimal(s: string)
    requires DecOctet(s)
    ensures Digits(s, 10, 0) <= 255 && Decimal(Digits(s, 10, 0)) == s
  {
    hide Digits, Decimal;
    assert forall k :: 0 <= k < |s| ==> IsDigit(s[k], 10);
    OneDigitIsDecimal([s[0]]);
    if |s| == 1 {
      assert s == [s[0]];
    } else {
      LongerIsDecimal([s[0]], s[1]);
      if |s| == 2 {
        assert s == [s[0]] + [s[1]];
      } else {
        LongerIsDecimal([s[0]] + [s[1]], s[2]);
        assert s == [s[0]] + [s[1]] + [s[2]];
      }
    }
  }

  /** The canonical text of what was read: whatever four fields of one to four digits come in,
      printing the packed address gives the decimal forms of their values modulo 256. */
  lemma PrintIsCanonical(fields: seq<string>)
    requires |fields| == 4
    requires forall k :: 0 <= k < 4 ==> 1 <= |fields[k]| <= 4 && AllDigits(fields[k], 10)
    ensures Readable(Join(fields), 4)
    ensures PrintIp(PackIp(Octets(Join(fields), 10, 4))) == Join(CanonicalFields(fields))
  {
    hide ToByte, Number, Digits, Decimal, Join, Pieces, Fields, AllDigits, PackIp, IpOctets;
    FieldsOfJoin(fields, 10);
    JoinLength(fields, 4);
    var octets := Octets(Join(fields), 10, 4);
    UnpackPack(octets);
    forall k | 0 <= k < 4
      ensures DecimalFields(octets)[k] == CanonicalFields(fields)[k]
    {
      NumberOfDigits(fields[k], 10);
      ByteValue(Digits(fields[k], 10, 0));
    }
    assert DecimalFields(octets) == CanonicalFields(fields);
  }

  function CanonicalFields(fields: seq<string>): (f: seq<string>)
    ensures |f| == |fields|
  {
    seq(|fields|, k requires 0 <= k < |fields| => Decimal(Digits(fields[k], 10, 0) % 256))
  }

  /** Every dotted quad of RFC 3986 is printed back exactly as it was read. */
  lemma DottedQuadSurvivesParseAndPrint(fields: seq<string>)
    requires DottedQuad(fields)
    ensures Readable(Join(fields), 4)
    ensures PrintIp(PackIp(Octets(Join(fields), 10, 4))) == Join(fields)
  {
    hide Digits, Decimal, Join, PackIp, PrintIp, Octets, Readable;
    PrintIsCanonical(fields);
    forall k | 0 <= k < 4
      ensures CanonicalFields(fields)[k] == fields[k]
    {
      DecOctetIsDecimal(fields[k]);
    }
    assert CanonicalFields(fields) == fields;
  }

  /** Six octets written in hexadecimal with dots are read back by extractMacAddress. */
  lemma HexFieldsRead(a: seq<bv8>)
    requires |a| == 6
    ensures Readable(Join(HexFields(a)), 6)
    ensures Octets(Join(HexFields(a)), 16, 6) == a
  {
    var fields := HexFields(a);
    forall k | 0 <= k < 6
      ensures |fields[k]| == 2 && AllDigits(fields[k], 16) && Octet(fields[k], 16) == a[k]
    {
      OctetOfHex(a[k]);
    }
    FieldsOfJoin(fields, 16);
    JoinLength(fields, 2);
  }
}
