/** Exactly which texts make the address parser panic (keys/src/address.rs). */
module AddressPanics {
  import opened Prelude
  import opened Iban
  import Base32
  import opened Addresses

  /** Digits can be read off a text exactly if they can be read off each of its characters. */
  lemma {:induction false} DigitsOkIff(s: string)
    ensures DigitsOf(s).Panic? <==> exists i :: 0 <= i < |s| && CharDigits(s[i]).Panic?
  {
    if i :| 0 <= i < |s| && CharDigits(s[i]).Panic? {
      DigitsPanic(s, i);
    } else {
      DigitsFine(s);
    }
  }

  lemma {:induction false} DigitsFine(s: string)
    requires forall i :: 0 <= i < |s| ==> CharDigits(s[i]).Ok?
    ensures DigitsOf(s).Ok? && (s != [] ==> DigitsOf(s).value != [])
  {
    if s != [] {
      DigitsFine(s[..|s| - 1]);
    }
  }

  /** A text can be decoded exactly if all of its characters are in the alphabet. */
  lemma {:induction false} DecodesIff(t: string)
    ensures Base32.Decode(t) == None <==> exists i :: 0 <= i < |t| && Base32.SymbolOf(t[i], 0) == None
  {
    if i :| 0 <= i < |t| && Base32.SymbolOf(t[i], 0) == None {
      Base32.NoSymbols(t, i);
    } else {
      SymbolsFine(t);
    }
  }

  lemma {:induction false} SymbolsFine(t: string)
    requires forall i :: 0 <= i < |t| ==> Base32.SymbolOf(t[i], 0).Some?
    ensures Base32.Symbols(t).Some?
  {
    if t != [] {
      SymbolsFine(t[..|t| - 1]);
    }
  }

  /** A character the check cannot turn into digits. */
  predicate Unreadable(s: string) {
    exists i :: 0 <= i < |s| && CharDigits(s[i]).Panic?
  }

  /** A character of the address part that is not in the alphabet. */
  predicate Undecodable(s: string) {
    exists i :: 4 <= i < |s| && Base32.SymbolOf(s[i], 0) == None
  }

  lemma {:induction false} TwistedUnreadable(s: string)
    requires |s| == 36
    ensures CheckValue(s[4..] + s[..4]).Panic? <==> Unreadable(s)
  {
    var t := s[4..] + s[..4];
    DigitsOkIff(t);
    if i :| 0 <= i < |s| && CharDigits(s[i]).Panic? {
      assert t[if i < 4 then i + 32 else i - 4] == s[i];
    } else {
      assert forall i :: 0 <= i < |t| ==> t[i] == s[if i < 32 then i + 4 else i - 32];
      DigitsFine(t);
    }
  }

  lemma {:induction false} TailUndecodable(s: string)
    requires |s| == 36
    ensures Base32.Decode(s[4..]) == None <==> Undecodable(s)
  {
    DecodesIff(s[4..]);
    if i :| 4 <= i < |s| && Base32.SymbolOf(s[i], 0) == None {
      assert s[4..][i - 4] == s[i];
    } else {
      assert forall i :: 0 <= i < 32 ==> s[4..][i] == s[i + 4];
    }
  }

  /**
   * The parser panics exactly on texts of the right length and country code that hold a character
   * without digits, or whose check succeeds although a character is not in the alphabet.
   */
  lemma {:induction false} ParsePanicsIff(text: string, s: string)
    requires s == Stripped(text)
    ensures Parsed(text) == Panic <==>
            && |s| == 36 && [Upper(s[0]), Upper(s[1])] == CCODE
            && (Unreadable(s) || (CheckValue(s[4..] + s[..4]) == Ok(1) && Undecodable(s)))
  {
    if |s| == 36 {
      TwistedUnreadable(s);
      TailUndecodable(s);
    }
  }

  /** The characters without digits: those before '0'. */
  lemma {:induction false} UnreadableChars(c: char)
    ensures CharDigits(c).Panic? <==> c < '0'
  {
  }

  /** The upper-case letters the alphabet leaves out. */
  predicate Omitted(c: char) {
    c == 'I' || c == 'O' || c == 'W' || c == 'Z'
  }

  lemma {:induction false} OmittedIsNoSymbol(c: char)
    requires Omitted(c)
    ensures Base32.SymbolOf(c, 0) == None
  {
    var r := Base32.SymbolOf(c, 0);
    if r.Some? {
      AlphabetOmits(r.value);
    }
  }

  lemma {:induction false} AlphabetOmits(d: Base32.Symbol)
    ensures !Omitted(Base32.ALPHABET[d])
  {
    assert forall k :: 0 <= k < 32 ==> !Omitted(Base32.ALPHABET[k]);
  }

  /** An upper-case text with the right check characters makes the parser panic if it holds an omitted letter. */
  lemma {:induction false} OmittedLetterPanics(base32: string, i: nat)
    requires |base32| == 32 && Plain(base32) && i < 32 && Omitted(base32[i])
    ensures CheckChars(base32).Ok? && Parsed(CCODE + CheckChars(base32).value + base32) == Panic
  {
    CheckCompletes(base32);
    var check := CheckChars(base32).value;
    var s := CCODE + check + base32;
    StrippedPlain(s);
    assert s[..4] == CCODE + check && s[4..] == base32;
    assert base32 + (CCODE + check) == base32 + CCODE + check;
    OmittedIsNoSymbol(base32[i]);
    assert s[i + 4] == base32[i];
    ParsePanicsIff(s, s);
  }

  lemma {:induction false} LowerCaseSameCheck(s: string, i: nat, d: char)
    requires i < |s| && Upper(d) == Upper(s[i]) && CheckValue(s).Ok?
    ensures CheckValue(s[i := d]) == CheckValue(s)
  {
    var a, b := s[..i], s[i + 1..];
    assert s == a + [s[i]] + b && s[i := d] == a + [d] + b;
    DigitsParts(a + [s[i]], b);
    DigitsParts(a, [s[i]]);
    OneChar(s[i]);
    DigitsAround(a, s[i], b);
    DigitsAround(a, d, b);
  }

  /**
   * The check ignores case but the decoder does not: a lower-case letter in the address makes the
   * parser panic.
   */
  lemma {:induction false} LowerCasePanics(text: string, other: string, i: nat, d: char)
    requires Parsed(text).Ok? && Parsed(text).value.Success?
    requires 4 <= i < |Stripped(text)| && 'a' <= d <= 'z' && Upper(d) == Stripped(text)[i]
    requires Stripped(other) == Stripped(text)[i := d]
    ensures Parsed(other) == Panic
  {
    var s := Stripped(text);
    Twisted(s, i, d);
    LowerCaseSameCheck(s[4..] + s[..4], i - 4, d);
    assert s[i := d][4..][i - 4] == d;
    Base32.LowerCaseIsNoSymbol(d);
    Base32.NoSymbols(s[i := d][4..], i - 4);
  }
}
