/** What the two number readers make of a field: digits of either case by their place in the alphabet of digits, and
    the space, sign and prefix that may stand before them. */
module NumberReading {
  import opened AddressRoundTrips
  import opened AddressText
  import opened Bytes

  // ---- digits ----------------------------------------------------------------------------------------

  const LOWER: string := "0123456789abcdef"
  const UPPER: string := "0123456789ABCDEF"

  /** The character is the digit of this value, in lower or upper case. */
  predicate Spells(c: char, v: nat) {
    v < 16 && (c == LOWER[v] || c == UPPER[v])
  }

  /** The readers take exactly these characters for digits, with these values. */
  lemma DigitsAreSpelled(c: char, base: nat, v: nat)
    requires base <= 16
    ensures Spells(c, v) && v < base <==> DigitValue(c, base) == v
  {
    if '0' <= c <= '9' {
      assert LOWER[c as int - '0' as int] == c;
    } else if 'a' <= c <= 'f' {
      assert LOWER[c as int - 'a' as int + 10] == c;
    } else if 'A' <= c <= 'F' {
      assert UPPER[c as int - 'A' as int + 10] == c;
    }
  }

  /** A text spells digits one by one. */
  predicate SpellsAll(s: string, digits: seq<nat>, base: nat) {
    |s| == |digits| && forall k :: 0 <= k < |s| ==> Spells(s[k], digits[k]) && digits[k] < base
  }

  function Positional(digits: seq<nat>, base: nat): nat {
    if digits == [] then 0
    else Positional(digits[..|digits| - 1], base) * base + digits[|digits| - 1]
  }

  /** Digits have their positional value, whatever the case of each. */
  lemma {:induction false} DigitsArePositional(s: string, digits: seq<nat>, base: nat)
    requires base <= 16 && SpellsAll(s, digits, base)
    ensures AllDigits(s, base) && Digits(s, base, 0) == Positional(digits, base)
    decreases |s|
  {
    hide Spells;
    forall k | 0 <= k < |s|
      ensures DigitValue(s[k], base) == digits[k]
    {
      DigitsAreSpelled(s[k], base, digits[k]);
    }
    if s != [] {
      hide DigitValue;
      var k := |s| - 1;
      DigitsArePositional(s[..k], digits[..k], base);
      DigitsPush(s[..k], s[k], base, 0);
      assert s[..k] + [s[k]] == s;
    }
  }

  // ---- what may stand around them ----------------------------------------------------------------------

  predicate Blank(s: string) {
    forall k :: 0 <= k < |s| ==> s[k] as int in {9, 10, 11, 12, 13, 32}
  }

  /** The text does not go on with another digit. */
  predicate Ends(rest: string, base: nat) { rest == "" || !IsDigit(rest[0], base) }

  lemma {:induction false} BlankIsSkipped(blank: string, s: string)
    requires Blank(blank) && (s == "" || !IsSpace(s[0]))
    ensures SkipSpaces(blank + s) == s
    decreases |blank|
  {
    if blank == [] {
      assert blank + s == s;
    } else {
      assert (blank + s)[1..] == blank[1..] + s;
      BlankIsSkipped(blank[1..], s);
    }
  }

  lemma {:induction false} DigitsStop(s: string, rest: string, base: nat, acc: nat)
    requires AllDigits(s, base) && Ends(rest, base)
    ensures Digits(s + rest, base, acc) == Digits(s, base, acc)
    decreases |s|
  {
    if s == [] {
      assert s + rest == rest;
    } else {
      assert IsDigit(s[0], base);
      assert (s + rest)[0] == s[0] && (s + rest)[1..] == s[1..] + rest;
      DigitsStop(s[1..], rest, base, acc * base + DigitValue(s[0], base));
    }
  }

  /** A field as the C library reads it: blanks, a sign or none, digits, and whatever follows. In base 16 "0x" may
      stand before at least one digit; without it a lone 0 must not be followed by what makes it such a prefix. */
  datatype Shape = Shape(blank: string, sign: string, prefix: string, spelled: string, digits: seq<nat>, rest: string) {
    function Text(): string { blank + (sign + (prefix + (spelled + rest))) }

    predicate Legal(base: nat) {
      && Blank(blank) && sign in {"", "+", "-"}
      && spelled != "" && SpellsAll(spelled, digits, base) && Ends(rest, base)
      && (prefix == "" || (base == 16 && prefix in {"0x", "0X"}))
      && (prefix == "" && base == 16 && spelled == "0" ==>
            !(|rest| > 1 && (rest[0] == 'x' || rest[0] == 'X') && IsDigit(rest[1], 16)))
    }
  }

  lemma SpelledStartsPlain(s: string, digits: seq<nat>, base: nat)
    requires s != "" && base <= 16 && SpellsAll(s, digits, base)
    ensures IsDigit(s[0], base) && IsDigit(s[0], 16) && !IsSpace(s[0])
    ensures s[0] != '-' && s[0] != '+' && s[0] != 'x' && s[0] != 'X'
    ensures |s| > 1 ==> s[1] != 'x' && s[1] != 'X'
  {
    DigitsAreSpelled(s[0], base, digits[0]);
    DigitsAreSpelled(s[0], 16, digits[0]);
    if |s| > 1 {
      DigitsAreSpelled(s[1], base, digits[1]);
    }
  }

  lemma AfterBlank(f: Shape, base: nat)
    requires base <= 16 && f.Legal(base)
    ensures SkipSpaces(f.Text()) == f.sign + (f.prefix + (f.spelled + f.rest))
  {
    SpelledStartsPlain(f.spelled, f.digits, base);
    BlankIsSkipped(f.blank, f.sign + (f.prefix + (f.spelled + f.rest)));
  }

  /** What `Number` takes off in front of the digits. */
  function Unprefixed(u: string, base: nat): string {
    if base == 16 && |u| > 2 && u[0] == '0' && (u[1] == 'x' || u[1] == 'X') && IsDigit(u[2], 16) then u[2..] else u
  }

  lemma AfterPrefix(f: Shape, base: nat)
    requires base <= 16 && f.Legal(base)
    ensures Unprefixed(f.prefix + (f.spelled + f.rest), base) == f.spelled + f.rest
  {
    hide SpellsAll;
    SpelledStartsPlain(f.spelled, f.digits, base);
    var u := f.prefix + (f.spelled + f.rest);
    if f.prefix == "" {
      assert u == f.spelled + f.rest;
      if |f.spelled| == 1 && |f.rest| > 1 && f.spelled[0] == '0' {
        assert f.spelled == "0";
      }
    } else {
      assert u[2] == f.spelled[0] && u[2..] == f.spelled + f.rest;
    }
  }

  /** Every legal field is read as its sign says of the positional value of its digits. */
  lemma FieldIsRead(f: Shape, base: nat)
    requires base <= 16 && f.Legal(base)
    ensures Number(f.Text(), base) == (if f.sign == "-" then -1 else 1) * Positional(f.digits, base)
  {
    hide SkipSpaces, IsDigit, Digits, SpellsAll, Positional, Blank, Ends;
    AfterBlank(f, base);
    AfterPrefix(f, base);
    DigitsArePositional(f.spelled, f.digits, base);
    DigitsStop(f.spelled, f.rest, base, 0);
    SpelledStartsPlain(f.spelled, f.digits, base);
    var u := f.prefix + (f.spelled + f.rest);
    assert u[0] != '-' && u[0] != '+';
    assert f.sign == "" ==> f.sign + u == u;
    assert f.sign != "" ==> (f.sign + u)[1..] == u && (f.sign + u)[0] == f.sign[0];
  }

  /** A field without digits is read as 0, whatever it holds instead. */
  lemma FieldWithoutDigits(blank: string, sign: string, rest: string, base: nat)
    requires base <= 16 && Blank(blank) && sign in {"", "+", "-"} && Ends(rest, base)
    requires sign == "" && rest != "" ==> !IsSpace(rest[0]) && rest[0] != '+' && rest[0] != '-'
    ensures Number(blank + (sign + rest), base) == 0
  {
    hide SkipSpaces;
    BlankIsSkipped(blank, sign + rest);
    assert sign == "" ==> sign + rest == rest;
    assert sign != "" ==> (sign + rest)[1..] == rest && (sign + rest)[0] == sign[0];
    assert base == 16 && rest != "" ==> rest[0] != '0';
  }

  // ---- MAC fields --------------------------------------------------------------------------------------

  /** One or two hexadecimal digits of either case. */
  ghost predicate HexField(s: string, b: bv8) {
    exists digits :: 1 <= |digits| <= 2 && SpellsAll(s, digits, 16) && Positional(digits, 16) == b as nat
  }

  lemma OctetOfHexField(s: string, b: bv8)
    requires HexField(s, b)
    ensures 1 <= |s| <= 2 && AllDigits(s, 16) && Octet(s, 16) == b
  {
    hide ToByte, Number, Digits, Positional, AllDigits, Spells;
    var digits :| 1 <= |digits| <= 2 && SpellsAll(s, digits, 16) && Positional(digits, 16) == b as nat;
    DigitsArePositional(s, digits, 16);
    NumberOfDigits(s, 16);
    ToByteOfByte(b);
  }

  /** Six fields of one or two hexadecimal digits, of either case, are read as the octets they spell. */
  lemma HexFieldsMean(fields: seq<string>, octets: seq<bv8>)
    requires |fields| == |octets| == 6 && forall k :: 0 <= k < 6 ==> HexField(fields[k], octets[k])
    ensures Readable(Join(fields), 6)
    ensures Octets(Join(fields), 16, 6) == octets
  {
    hide HexField, Octet, AllDigits;
    forall k | 0 <= k < 6
      ensures 1 <= |fields[k]| <= 2 && AllDigits(fields[k], 16) && Octet(fields[k], 16) == octets[k]
    {
      OctetOfHexField(fields[k], octets[k]);
    }
    hide Join, Pieces, Fields;
    FieldsOfJoin(fields, 16);
    JoinLength(fields, 2);
  }

  /** `%02x` of a byte. */
  function LowerHexByte(b: bv8): string { [LOWER[b as nat / 16], LOWER[b as nat % 16]] }

  lemma LowerHexByteIsField(b: bv8)
    ensures HexField(LowerHexByte(b), b)
  {
    var digits := [b as nat / 16, b as nat % 16];
    assert digits[..1] == [b as nat / 16] && digits[..1][..0] == [];
    assert Positional(digits[..1], 16) == b as nat / 16;
    assert SpellsAll(LowerHexByte(b), digits, 16);
  }

  /** A MAC address printed in lower case is read back. */
  lemma LowerHexFieldsRead(octets: seq<bv8>, fields: seq<string>)
    requires |octets| == |fields| == 6 && forall k :: 0 <= k < 6 ==> fields[k] == LowerHexByte(octets[k])
    ensures Readable(Join(fields), 6)
    ensures Octets(Join(fields), 16, 6) == octets
  {
    hide HexField, LowerHexByte;
    forall k | 0 <= k < 6
      ensures HexField(fields[k], octets[k])
    {
      LowerHexByteIsField(octets[k]);
    }
    HexFieldsMean(fields, octets);
  }
}
