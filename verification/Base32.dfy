/** Byte strings written five bits at a time in the address alphabet (keys/src/address.rs). */
module Base32 {
  import opened Prelude
  import opened Bits
  import opened BigEndian

  const ALPHABET: string := "0123456789ABCDEFGHJKLMNPQRSTUVXY"

  type Symbol = d: nat | d < 32

  function Pow32(n: nat): (p: nat)
    ensures p > 0
  {
    if n == 0 then 1 else 32 * Pow32(n - 1)
  }

  /** The low n five-bit groups of a number, most significant first. */
  function Groups(x: nat, n: nat): (s: seq<Symbol>)
    ensures |s| == n
    decreases n, x
  {
    if n == 0 then [] else Groups(x / 32, n - 1) + [x % 32]
  }

  function GroupValue(s: seq<Symbol>): nat {
    if s == [] then 0 else 32 * GroupValue(s[..|s| - 1]) + s[|s| - 1]
  }

  lemma {:induction false} ValueOfGroups(x: nat, n: nat)
    requires x < Pow32(n)
    ensures GroupValue(Groups(x, n)) == x
  {
    if n > 0 {
      ValueOfGroups(x / 32, n - 1);
      assert Groups(x, n)[..n - 1] == Groups(x / 32, n - 1);
    }
  }

  lemma {:induction false} GroupsOfValue(s: seq<Symbol>)
    ensures Groups(GroupValue(s), |s|) == s
  {
    if s != [] {
      GroupsOfValue(s[..|s| - 1]);
      assert s == s[..|s| - 1] + [s[|s| - 1]];
    }
  }

  lemma {:induction false} GroupBound(s: seq<Symbol>)
    ensures GroupValue(s) < Pow32(|s|)
  {
    if s != [] {
      GroupBound(s[..|s| - 1]);
    }
  }

  lemma {:induction false} Pow32Is(n: nat)
    ensures Pow2(5 * n) == Pow32(n)
  {
    if n > 0 {
      Pow32Is(n - 1);
      var k := 5 * (n - 1);
      assert Pow2(k + 2) == 4 * Pow2(k);
      assert Pow2(k + 4) == 4 * Pow2(k + 2);
    }
  }

  /** Twenty bytes are thirty-two groups. */
  lemma {:induction false} SameRoom(n: nat)
    ensures Pow256(5 * n) == Pow32(8 * n)
  {
    Pow256Is(5 * n);
    Pow32Is(8 * n);
  }

  /** The symbols of the alphabet ascend, so no two are the same. */
  lemma {:induction false} AlphabetAscends(i: nat, j: nat)
    requires i < j < 32
    ensures ALPHABET[i] < ALPHABET[j]
    decreases j
  {
    assert forall k :: 0 <= k < 31 ==> ALPHABET[k] < ALPHABET[k + 1];
    if i < j - 1 {
      AlphabetAscends(i, j - 1);
    }
  }

  /** Every symbol is an upper-case letter or a digit. */
  lemma {:induction false} SymbolsPlain(d: Symbol)
    ensures '0' <= ALPHABET[d] <= '9' || 'A' <= ALPHABET[d] <= 'Z'
  {
    assert forall k :: 0 <= k < 32 ==> '0' <= ALPHABET[k] <= '9' || 'A' <= ALPHABET[k] <= 'Z';
  }

  function Text(s: seq<Symbol>): (t: string)
    ensures |t| == |s| && forall i :: 0 <= i < |s| ==> t[i] == ALPHABET[s[i]]
  {
    if s == [] then [] else Text(s[..|s| - 1]) + [ALPHABET[s[|s| - 1]]]
  }

  /** The symbol a character stands for, if it is in the alphabet. */
  function SymbolOf(c: char, d: nat): (r: Option<Symbol>)
    requires d <= 32
    ensures r.Some? ==> ALPHABET[r.value] == c
    ensures r.None? ==> forall k :: d <= k < 32 ==> ALPHABET[k] != c
    decreases 32 - d, c
  {
    if d == 32 then None else if ALPHABET[d] == c then Some(d) else SymbolOf(c, d + 1)
  }

  function Symbols(t: string): Option<seq<Symbol>> {
    if t == [] then Some([])
    else
      match (Symbols(t[..|t| - 1]), SymbolOf(t[|t| - 1], 0))
      case (Some(s), Some(d)) => Some(s + [d])
      case _ => None
  }

  lemma {:induction false} SymbolOfIs(d: Symbol)
    ensures SymbolOf(ALPHABET[d], 0) == Some(d)
  {
    var r := SymbolOf(ALPHABET[d], 0);
    assert r.Some?;
    if r.value < d {
      AlphabetAscends(r.value, d);
    } else if r.value > d {
      AlphabetAscends(d, r.value);
    }
  }

  lemma {:induction false} SymbolsNext(t: string, c: char, s: seq<Symbol>, d: Symbol)
    requires Symbols(t) == Some(s) && SymbolOf(c, 0) == Some(d)
    ensures Symbols(t + [c]) == Some(s + [d])
  {
    assert (t + [c])[..|t|] == t;
  }

  lemma {:induction false} SymbolsOfText(s: seq<Symbol>)
    ensures Symbols(Text(s)) == Some(s)
  {
    if s != [] {
      var front, last := s[..|s| - 1], s[|s| - 1];
      SymbolsOfText(front);
      SymbolOfIs(last);
      SymbolsNext(Text(front), ALPHABET[last], front, last);
      assert s == front + [last];
    }
  }

  lemma {:induction false} TextNext(s: seq<Symbol>, d: Symbol)
    ensures Text(s + [d]) == Text(s) + [ALPHABET[d]]
  {
    assert (s + [d])[..|s|] == s;
  }

  lemma {:induction false} SymbolsLast(t: string, n: nat)
    requires |t| == n + 1 && Symbols(t).Some?
    ensures Symbols(t[..n]).Some? && SymbolOf(t[n], 0).Some?
    ensures Symbols(t).value == Symbols(t[..n]).value + [SymbolOf(t[n], 0).value]
  {
  }

  lemma {:induction false} TextOfSymbols(t: string)
    requires Symbols(t).Some?
    ensures Text(Symbols(t).value) == t
    decreases |t|
  {
    if t != [] {
      var n := |t| - 1;
      SymbolsLast(t, n);
      TextOfSymbols(t[..n]);
      TextNext(Symbols(t[..n]).value, SymbolOf(t[n], 0).value);
    }
  }

  /** One character outside the alphabet spoils the whole text. */
  lemma {:induction false} NoSymbols(t: string, i: nat)
    requires i < |t| && SymbolOf(t[i], 0) == None
    ensures Symbols(t) == None
  {
    if i < |t| - 1 {
      NoSymbols(t[..|t| - 1], i);
    }
  }

  lemma {:induction false} LowerCaseIsNoSymbol(c: char)
    requires 'a' <= c <= 'z'
    ensures SymbolOf(c, 0) == None
  {
    var r := SymbolOf(c, 0);
    if r.Some? {
      SymbolsPlain(r.value);
    }
  }

  function Encode(bytes: seq<Byte>): string {
    Text(Groups(Value(bytes), 8 * |bytes| / 5))
  }

  /** The bytes a text of 8n symbols writes; a character outside the alphabet is an error. */
  function Decode(text: string): Option<seq<Byte>> {
    match Symbols(text)
    case None => None
    case Some(s) => Some(Bytes(GroupValue(s), 5 * |s| / 8))
  }

  lemma {:induction false} DecodeText(s: seq<Symbol>, x: nat, bytes: seq<Byte>)
    requires |s| == 32 && GroupValue(s) == x && Bytes(x, 20) == bytes
    ensures Decode(Text(s)) == Some(bytes)
  {
    SymbolsOfText(s);
  }

  lemma {:induction false} GroupsInvert(x: nat)
    requires x < Pow256(20)
    ensures GroupValue(Groups(x, 32)) == x
  {
    SameRoom(4);
    ValueOfGroups(x, 32);
  }

  lemma {:induction false} DecodeInverts(bytes: seq<Byte>)
    requires |bytes| == 20
    ensures |Encode(bytes)| == 32 && Decode(Encode(bytes)) == Some(bytes)
  {
    var x := Value(bytes);
    ValueBound(bytes);
    GroupsInvert(x);
    BytesOfValue(bytes);
    DecodeText(Groups(x, 32), x, bytes);
  }

  lemma {:induction false} EncodeInverts(text: string)
    requires |text| == 32 && Decode(text).Some?
    ensures |Decode(text).value| == 20 && Encode(Decode(text).value) == text
  {
    var s := Symbols(text).value;
    TextOfSymbols(text);
    GroupBound(s);
    SameRoom(4);
    ValueOfBytes(GroupValue(s), 20);
    GroupsOfValue(s);
  }
}
