/** The IBAN-style check over letters and digits (keys/src/address.rs). */
module Iban {
  import opened Prelude
  import opened Decimals

  const TWO_32: nat := 0x1_0000_0000

  function Upper(c: char): char {
    if 'a' <= c <= 'z' then (c as int - 32) as char else c
  }

  /** The digits of one character; the subtraction underflows for characters below '0'. */
  function CharDigits(c: char): Outcome<seq<Digit>> {
    var code := Upper(c) as int;
    if 48 <= code <= 57 then Ok([code - 48])
    else if code < 55 then Panic
    else Ok(ToDecimal(code - 55))
  }

  function DigitsOf(s: string): Outcome<seq<Digit>> {
    if s == [] then Ok([])
    else
      var front :- DigitsOf(s[..|s| - 1]);
      var last :- CharDigits(s[|s| - 1]);
      Ok(front + last)
  }

  /** The check value: the whole decimal number modulo 97. Reading a number off no digits is a panic. */
  function CheckValue(s: string): Outcome<nat> {
    var num :- DigitsOf(s);
    if num == [] then Panic else Ok(Number(num) % 97)
  }

  lemma {:induction false} DigitsPanic(s: string, i: nat)
    requires i < |s| && CharDigits(s[i]).Panic?
    ensures DigitsOf(s).Panic?
  {
    if i < |s| - 1 {
      DigitsPanic(s[..|s| - 1], i);
    }
  }

  method ToDigits(s: string) returns (r: Outcome<seq<Digit>>)
    ensures r == DigitsOf(s)
  {
    var num: seq<Digit> := [];
    for i := 0 to |s|
      invariant DigitsOf(s[..i]) == Ok(num)
    {
      assert s[..i + 1][..i] == s[..i];
      var d := CharDigits(s[i]);
      if d.Panic? {
        DigitsPanic(s, i);
        return Panic;
      }
      num := num + d.value;
    }
    assert s[..|s|] == s;
    r := Ok(num);
  }

  /** The running remainder never leaves the range of 32 bits. */
  lemma {:induction false} ChunkFits(tmp: seq<Digit>, chunk: seq<Digit>)
    requires |chunk| <= 6 && Number(tmp) < 97
    ensures Number(tmp + chunk) < TWO_32
  {
    NumberJoin(tmp, chunk);
    NumberBound(chunk);
    Pow10Grows(|chunk|, 6);
    assert Pow10(6) == 1000000;
    assert Number(tmp) * Pow10(|chunk|) <= 96 * Pow10(|chunk|);
  }

  lemma {:induction false} ChunkStep(num: seq<Digit>, from: nat, to: nat, tmp: seq<Digit>)
    requires from <= to <= |num| && Number(tmp) == Number(num[..from]) % 97
    ensures Number(tmp + num[from..to]) % 97 == Number(num[..to]) % 97
  {
    var c := num[from..to];
    NumberJoin(tmp, c);
    NumberJoin(num[..from], c);
    assert num[..to] == num[..from] + c;
    LeadReduced(Number(num[..from]), Pow10(|c|), Number(c));
  }

  /** What one group of digits does to the remainder. */
  lemma {:induction false} NextChunk(num: seq<Digit>, from: nat, to: nat, tmp: seq<Digit>, n: nat)
    requires from <= to <= |num| && to - from <= 6 && Number(tmp) == Number(num[..from]) % 97
    requires n == Number(tmp + num[from..to])
    ensures n < TWO_32 && Number(ToDecimal(n % 97)) == Number(num[..to]) % 97 && ToDecimal(n % 97) != []
  {
    ChunkStep(num, from, to, tmp);
    ChunkFits(tmp, num[from..to]);
    NumberOfDecimal(n % 97);
  }

  /** Six digits at a time, the remainder so far written in front of the next six. */
  method Reduce(num: seq<Digit>) returns (r: Outcome<nat>)
    ensures r == if num == [] then Panic else Ok(Number(num) % 97)
  {
    var tmp: seq<Digit> := [];
    for i := 0 to (|num| + 5) / 6
      invariant 6 * i <= |num| + 5 && Number(tmp) == Number(num[..Until(num, i)]) % 97
      invariant i == 0 <==> tmp == []
    {
      var from, to := Until(num, i), Until(num, i + 1);
      var n := Number(tmp + num[from..to]);
      NextChunk(num, from, to, tmp, n);
      if n >= TWO_32 {
        return Panic;
      }
      tmp := ToDecimal(n % 97);
    }
    assert num[..|num|] == num;
    if tmp == [] {
      return Panic;
    }
    r := Ok(Number(tmp));
  }

  method IbanCheck(s: string) returns (r: Outcome<nat>)
    ensures r == CheckValue(s)
  {
    var digits := ToDigits(s);
    if digits.Panic? {
      return Panic;
    }
    r := Reduce(digits.value);
  }

  /** Where the i-th group of six digits begins. */
  function Until(num: seq<Digit>, i: nat): nat {
    if 6 * i < |num| then 6 * i else |num|
  }
}
