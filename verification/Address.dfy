/** User-friendly addresses: printing, parsing and error detection (keys/src/address.rs). */
module Addresses {
  import opened Prelude
  import opened BigEndian
  import opened Decimals
  import opened Iban
  import Base32

  const CCODE: string := "NQ"

  datatype AddressParseError = WrongCountryCode | WrongLength | InvalidChecksum

  function DigitChar(d: Digit): char {
    ('0' as int + d) as char
  }

  /** The text without its spaces. */
  function Stripped(text: string): string {
    if text == [] then [] else Stripped(text[..|text| - 1]) + if text[|text| - 1] == ' ' then [] else [text[|text| - 1]]
  }

  /** The two check characters for a base-32 text: 98 minus the check value with zeros in their place. */
  function CheckChars(base32: string): Outcome<string> {
    var value :- CheckValue(base32 + CCODE + "00");
    var check := 98 - value;
    Ok([DigitChar(check / 10), DigitChar(check % 10)])
  }

  /** Country code, check characters, address. */
  function Friendly(address: seq<Byte>): Outcome<string> {
    var base32 := Base32.Encode(address);
    var check :- CheckChars(base32);
    Ok(CCODE + check + base32)
  }

  /** The first n groups of four characters, with spaces between them. */
  function Grouped(s: string, n: nat): string
    requires 4 * n <= |s|
  {
    if n == 0 then [] else Grouped(s, n - 1) + Gap(n) + s[4 * (n - 1)..4 * n]
  }

  /** What comes before the n-th group. */
  function Gap(n: nat): string {
    if n == 1 then "" else " "
  }

  /** The parser as the source has it. */
  function Parsed(text: string): Outcome<Result<seq<Byte>, AddressParseError>> {
    var s := Stripped(text);
    if |s| != 36 then Ok(Failure(WrongLength))
    else if [Upper(s[0]), Upper(s[1])] != CCODE then Ok(Failure(WrongCountryCode))
    else
      var value :- CheckValue(s[4..] + s[..4]);
      if value != 1 then Ok(Failure(InvalidChecksum))
      else
        match Base32.Decode(s[4..])
        case None => Panic
        case Some(b) => Ok(Success(b))
  }

  predicate PlainChar(c: char) {
    '0' <= c <= '9' || 'A' <= c <= 'Z'
  }

  predicate Plain(s: string) {
    forall i :: 0 <= i < |s| ==> PlainChar(s[i])
  }

  /** The digits of a text made of parts. */
  lemma {:induction false} DigitsJoin(a: string, b: string)
    requires DigitsOf(a).Ok?
    ensures DigitsOf(a + b).Ok? <==> DigitsOf(b).Ok?
    ensures DigitsOf(b).Ok? ==> DigitsOf(a + b) == Ok(DigitsOf(a).value + DigitsOf(b).value)
  {
    var x := DigitsOf(a).value;
    if b == [] {
      assert a + b == a && x + [] == x;
    } else {
      var b' := b[..|b| - 1];
      DigitsJoin(a, b');
      assert (a + b)[..|a + b| - 1] == a + b';
      if DigitsOf(b).Ok? {
        var y, z := DigitsOf(b').value, CharDigits(b[|b| - 1]).value;
        assert x + y + z == x + (y + z);
      }
    }
  }

  lemma {:induction false} PlainDigits(s: string)
    requires Plain(s)
    ensures DigitsOf(s).Ok? && (s != [] ==> DigitsOf(s).value != [])
  {
    if s != [] {
      PlainDigits(s[..|s| - 1]);
    }
  }

  lemma {:induction false} OneChar(c: char)
    ensures DigitsOf([c]) == CharDigits(c)
  {
    assert [c][..0] == [];
    assert DigitsOf([c][..0]) == Ok([]);
    if CharDigits(c).Ok? {
      assert [] + CharDigits(c).value == CharDigits(c).value;
    }
  }

  lemma {:induction false} TwoDigitChars(x: Digit, y: Digit)
    ensures DigitsOf([DigitChar(x), DigitChar(y)]) == Ok([x, y])
  {
    OneChar(DigitChar(x));
    OneChar(DigitChar(y));
    DigitsJoin([DigitChar(x)], [DigitChar(y)]);
    assert [DigitChar(x)] + [DigitChar(y)] == [DigitChar(x), DigitChar(y)];
    assert [x] + [y] == [x, y];
  }

  lemma {:induction false} TwoMore(a: seq<Digit>, x: Digit, y: Digit)
    ensures Number(a + [x, y]) == 100 * Number(a) + 10 * x + y
  {
    var all := a + [x, y];
    assert all[..|all| - 1] == a + [x];
    assert (a + [x])[..|a|] == a;
  }

  lemma {:induction false} WithTwoDigits(body: string, x: Digit, y: Digit)
    requires DigitsOf(body).Ok?
    ensures CheckValue(body + [DigitChar(x), DigitChar(y)]) ==
            Ok((100 * Number(DigitsOf(body).value) + 10 * x + y) % 97)
  {
    TwoDigitChars(x, y);
    DigitsJoin(body, [DigitChar(x), DigitChar(y)]);
    TwoMore(DigitsOf(body).value, x, y);
  }

  lemma {:induction false} Completes(n: nat, check: nat)
    requires check == 98 - (100 * n) % 97
    ensures (100 * n + check) % 97 == 1
  {
  }

  /** The check characters make the check value 1. */
  lemma {:induction false} CheckCompletes(base32: string)
    requires Plain(base32)
    ensures CheckChars(base32).Ok? && |CheckChars(base32).value| == 2 && Plain(CheckChars(base32).value)
    ensures CheckValue(base32 + CCODE + CheckChars(base32).value) == Ok(1)
  {
    var body := base32 + CCODE;
    assert Plain(body);
    PlainDigits(body);
    var n := Number(DigitsOf(body).value);
    assert "00" == [DigitChar(0), DigitChar(0)];
    WithTwoDigits(body, 0, 0);
    var check := 98 - (100 * n) % 97;
    WithTwoDigits(body, check / 10, check % 10);
    Completes(n, check);
  }

  lemma {:induction false} EncodedPlain(bytes: seq<Byte>)
    ensures Plain(Base32.Encode(bytes))
  {
    var s := Base32.Groups(Value(bytes), 8 * |bytes| / 5);
    forall i | 0 <= i < |s|
      ensures PlainChar(Base32.ALPHABET[s[i]])
    {
      Base32.SymbolsPlain(s[i]);
    }
  }

  lemma {:induction false} StrippedJoin(a: string, b: string)
    ensures Stripped(a + b) == Stripped(a) + Stripped(b)
  {
    if b == [] {
      assert a + b == a;
    } else {
      StrippedJoin(a, b[..|b| - 1]);
      assert (a + b)[..|a + b| - 1] == a + b[..|b| - 1];
    }
  }

  lemma {:induction false} StrippedPlain(s: string)
    requires Plain(s)
    ensures Stripped(s) == s
  {
    if s != [] {
      StrippedPlain(s[..|s| - 1]);
      assert s == s[..|s| - 1] + [s[|s| - 1]];
    }
  }

  lemma {:induction false} StrippedGap(n: nat)
    ensures Stripped(Gap(n)) == []
  {
    assert [' '][..0] == [];
  }

  lemma {:induction false} StrippedGroup(g: string, n: nat, group: string)
    requires Plain(group)
    ensures Stripped(g + Gap(n) + group) == Stripped(g) + group
  {
    StrippedJoin(g + Gap(n), group);
    StrippedJoin(g, Gap(n));
    StrippedGap(n);
    StrippedPlain(group);
  }

  /** Grouping only adds spaces. */
  lemma {:induction false} StrippedGrouped(s: string, n: nat)
    requires Plain(s) && 4 * n <= |s|
    ensures Stripped(Grouped(s, n)) == s[..4 * n]
  {
    if n > 0 {
      var group := s[4 * (n - 1)..4 * n];
      assert Stripped(Grouped(s, n)) == Stripped(Grouped(s, n - 1)) + group by {
        StrippedGroup(Grouped(s, n - 1), n, group);
      }
      StrippedGrouped(s, n - 1);
      assert s[..4 * n] == s[..4 * (n - 1)] + group;
    }
  }

  lemma {:induction false} FriendlyIs(address: seq<Byte>)
    requires |address| == 20
    ensures Friendly(address).Ok?
    ensures var s := Friendly(address).value;
            && |s| == 36 && Plain(s) && s[..2] == CCODE && s[4..] == Base32.Encode(address)
            && CheckValue(s[4..] + s[..4]) == Ok(1)
  {
    var base32 := Base32.Encode(address);
    EncodedPlain(address);
    CheckCompletes(base32);
    Base32.DecodeInverts(address);
    var check := CheckChars(base32).value;
    var s := CCODE + check + base32;
    assert s[..4] == CCODE + check && s[4..] == base32;
    assert base32 + (CCODE + check) == base32 + CCODE + check;
  }

  /** Parsing the printed form of any address returns the address. */
  lemma {:induction false} ParseInvertsPrint(address: seq<Byte>)
    requires |address| == 20
    ensures Friendly(address).Ok? && |Friendly(address).value| == 36
    ensures Parsed(Grouped(Friendly(address).value, 9)) == Ok(Success(address))
  {
    FriendlyIs(address);
    var s := Friendly(address).value;
    StrippedGrouped(s, 9);
    assert s[..36] == s;
    assert s[0] == s[..2][0] && s[1] == s[..2][1];
    assert [Upper(s[0]), Upper(s[1])] == CCODE;
    Base32.DecodeInverts(address);
  }

  /** Whatever text parses to an address spells out that address after its first four characters. */
  lemma {:induction false} ParsedSpellsAddress(text: string)
    requires Parsed(text).Ok? && Parsed(text).value.Success?
    ensures var address := Parsed(text).value.value;
            |address| == 20 && |Stripped(text)| == 36 && Stripped(text)[4..] == Base32.Encode(address)
  {
    Base32.EncodeInverts(Stripped(text)[4..]);
  }

  predicate Letter(c: char) {
    'A' <= Upper(c) <= 'Z'
  }

  predicate DigitLike(c: char) {
    '0' <= c <= '9'
  }

  /** Two characters of the same kind that the check tells apart. */
  predicate SameKind(c: char, d: char) {
    Upper(c) != Upper(d) && ((DigitLike(c) && DigitLike(d)) || (Letter(c) && Letter(d)))
  }

  lemma {:induction false} KindDigits(c: char, d: char)
    requires SameKind(c, d)
    ensures CharDigits(c).Ok? && CharDigits(d).Ok? && |CharDigits(c).value| == |CharDigits(d).value|
    ensures -97 < Number(CharDigits(c).value) - Number(CharDigits(d).value) < 97
    ensures Number(CharDigits(c).value) != Number(CharDigits(d).value)
  {
    CharValue(c);
    CharValue(d);
  }

  lemma {:induction false} CharValue(c: char)
    requires DigitLike(c) || Letter(c)
    ensures CharDigits(c).Ok?
    ensures DigitLike(c) ==> |CharDigits(c).value| == 1 && Number(CharDigits(c).value) == c as int - 48
    ensures Letter(c) ==> |CharDigits(c).value| == 2 && Number(CharDigits(c).value) == Upper(c) as int - 55
  {
    if DigitLike(c) {
      assert [c as int - 48][..0] == [];
    } else {
      NumberOfDecimal(Upper(c) as int - 55);
    }
  }

  lemma {:induction false} Difference(u: int, v: int, x: int, y: int, p: int)
    requires u - v == x - y
    ensures u * p - v * p == (x - y) * p
  {
    assert (u - v) * p == u * p - v * p;
  }

  /** Numbers whose digits differ only in one stretch differ by that stretch's difference, shifted. */
  lemma {:induction false} StretchDiffers(a: seq<Digit>, x: seq<Digit>, y: seq<Digit>, b: seq<Digit>)
    requires |x| == |y|
    ensures Number(a + x + b) - Number(a + y + b) == (Number(x) - Number(y)) * Pow10(|b|)
  {
    assert Number(a + x) - Number(a + y) == Number(x) - Number(y) by {
      NumberJoin(a, x);
      NumberJoin(a, y);
    }
    NumberJoin(a + x, b);
    NumberJoin(a + y, b);
    Difference(Number(a + x), Number(a + y), Number(x), Number(y), Pow10(|b|));
  }

  lemma {:induction false} DigitsAround(a: string, c: char, b: string)
    requires DigitsOf(a).Ok? && CharDigits(c).Ok? && DigitsOf(b).Ok?
    ensures DigitsOf(a + [c] + b) == Ok(DigitsOf(a).value + CharDigits(c).value + DigitsOf(b).value)
  {
    OneChar(c);
    DigitsJoin(a, [c]);
    DigitsJoin(a + [c], b);
  }

  /** Replacing one digit by another, or one letter by another, changes the check value. */
  lemma {:induction false} SubstitutionDetected(a: string, c: char, d: char, b: string)
    requires DigitsOf(a).Ok? && DigitsOf(b).Ok? && SameKind(c, d)
    ensures CheckValue(a + [c] + b).Ok? && CheckValue(a + [d] + b).Ok?
    ensures CheckValue(a + [c] + b) != CheckValue(a + [d] + b)
  {
    KindDigits(c, d);
    DigitsAround(a, c, b);
    DigitsAround(a, d, b);
    var p, x, y, q := DigitsOf(a).value, CharDigits(c).value, CharDigits(d).value, DigitsOf(b).value;
    StretchDiffers(p, x, y, q);
    ShiftSurvives(Number(x) - Number(y), |q|);
    var m, n := Number(p + x + q), Number(p + y + q);
    if m % 97 == n % 97 {
      SameRemainder(m, n);
    }
  }

  lemma {:induction false} DigitsParts(a: string, b: string)
    requires DigitsOf(a + b).Ok?
    ensures DigitsOf(a).Ok? && DigitsOf(b).Ok?
  {
    if b == [] {
      assert a + b == a;
    } else {
      assert (a + b)[..|a + b| - 1] == a + b[..|b| - 1];
      DigitsParts(a, b[..|b| - 1]);
    }
  }

  lemma {:induction false} SubstitutionChangesCheck(s: string, t: string, i: nat, d: char)
    requires i < |s| && t == s[i := d] && SameKind(s[i], d) && CheckValue(s).Ok?
    ensures CheckValue(t).Ok? && CheckValue(t) != CheckValue(s)
  {
    var a, b := s[..i], s[i + 1..];
    assert s == a + [s[i]] + b && t == a + [d] + b;
    DigitsParts(a + [s[i]], b);
    DigitsParts(a, [s[i]]);
    SubstitutionDetected(a, s[i], d, b);
  }

  lemma {:induction false} Twisted(s: string, i: nat, d: char)
    requires |s| == 36 && i < 36
    ensures var j := if i < 4 then i + 32 else i - 4;
            && (s[4..] + s[..4])[j] == s[i]
            && s[i := d][4..] + s[i := d][..4] == (s[4..] + s[..4])[j := d]
  {
  }

  /**
   * A text that parses is rejected once a digit is replaced by another digit, or a letter by another
   * letter, however the result is spaced: in the country code for that code, elsewhere by the check.
   */
  lemma {:induction false} SubstitutionRejected(text: string, other: string, i: nat, d: char)
    requires Parsed(text).Ok? && Parsed(text).value.Success?
    requires i < |Stripped(text)| && SameKind(Stripped(text)[i], d)
    requires Stripped(other) == Stripped(text)[i := d]
    ensures Parsed(other) == Ok(Failure(if i < 2 then WrongCountryCode else InvalidChecksum))
  {
    var s := Stripped(text);
    if i < 2 {
      assert [Upper(s[0]), Upper(s[1])][i] != [Upper(s[i := d][0]), Upper(s[i := d][1])][i];
    } else {
      Twisted(s, i, d);
      var j := if i < 4 then i + 32 else i - 4;
      SubstitutionChangesCheck(s[4..] + s[..4], (s[4..] + s[..4])[j := d], j, d);
    }
  }

  /** Prints an address: check characters first, then groups of four. */
  method ToUserFriendly(address: seq<Byte>) returns (r: Outcome<string>)
    requires |address| == 20
    ensures Friendly(address).Ok? && |Friendly(address).value| == 36
    ensures r == Ok(Grouped(Friendly(address).value, 9))
  {
    FriendlyIs(address);
    var base32 := Base32.Encode(address);
    var value :- IbanCheck(base32 + CCODE + "00");
    var checkString := "00" + DecimalText(98 - value);
    LastTwo(98 - value, checkString);
    var check := checkString[|checkString| - 2..];
    var friendly := CCODE + check + base32;
    assert Friendly(address) == Ok(friendly);
    var out := InGroups(friendly);
    r := Ok(out);
  }

  method InGroups(s: string) returns (out: string)
    requires |s| == 36
    ensures out == Grouped(s, 9)
  {
    out := "";
    for i := 0 to 9
      invariant out == Grouped(s, i) + if 0 < i < 9 then [' '] else []
    {
      out := out + s[4 * i..4 * (i + 1)];
      assert out == Grouped(s, i + 1);
      if i != 8 {
        out := out + [' '];
      }
    }
    assert out == Grouped(s, 9);
  }

  function DecimalText(n: nat): string {
    if n < 10 then [DigitChar(n)] else DecimalText(n / 10) + [DigitChar(n % 10)]
  }

  lemma {:induction false} LastTwo(n: nat, s: string)
    requires n < 100 && s == "00" + DecimalText(n)
    ensures |s| >= 2 && s[|s| - 2..] == [DigitChar(n / 10), DigitChar(n % 10)]
  {
    var x, y := DigitChar(n / 10), DigitChar(n % 10);
    if n < 10 {
      assert x == '0' && s == ['0', '0', y];
    } else {
      assert DecimalText(n / 10) == [x];
      assert s == ['0', '0', x, y];
    }
  }

  method FromUserFriendly(text: string) returns (r: Outcome<Result<seq<Byte>, AddressParseError>>)
    ensures r == Parsed(text)
  {
    var s := RemoveSpaces(text);
    if |s| != 36 {
      return Ok(Failure(WrongLength));
    }
    if [Upper(s[0]), Upper(s[1])] != CCODE {
      return Ok(Failure(WrongCountryCode));
    }
    var value :- IbanCheck(s[4..] + s[..4]);
    if value != 1 {
      return Ok(Failure(InvalidChecksum));
    }
    var bytes := Base32.Decode(s[4..]);
    r := if bytes.None? then Panic else Ok(Success(bytes.value));
  }

  method RemoveSpaces(text: string) returns (s: string)
    ensures s == Stripped(text)
  {
    s := "";
    for i := 0 to |text|
      invariant s == Stripped(text[..i])
    {
      assert text[..i + 1][..i] == text[..i];
      if text[i] != ' ' {
        s := s + [text[i]];
      }
    }
    assert text[..|text|] == text;
  }
}
