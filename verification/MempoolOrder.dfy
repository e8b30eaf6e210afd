/** Transactions and the order the mempool keeps them in (primitives/transaction/src/lib.rs, `cmp_mempool_order`). */
module Transactions {

  /** A transaction without its proof; addresses and type tags are numbers. */
  datatype Tx = Tx(
    feePerByte: real,
    fee: nat,
    value: nat,
    recipient: nat,
    validityStartHeight: nat,
    sender: nat,
    recipientType: nat,
    senderType: nat,
    flags: nat,
    data: seq<nat>)

  /** Hashing is injective. */
  datatype TxHash = TxHash(preimage: Tx)

  /** An order in which the mempool keeps transactions: a strict total order led by the fee per byte. */
  type Order = (Tx, Tx) -> bool

  ghost predicate IsMempoolOrder(less: Order) {
    && (forall a :: !less(a, a))
    && (forall a, b :: a != b ==> less(a, b) || less(b, a))
    && (forall a, b, c :: less(a, b) && less(b, c) ==> less(a, c))
    && (forall a, b :: less(a, b) ==> a.feePerByte <= b.feePerByte)
  }

  /** The fields in the order in which they are compared. */
  function Key(t: Tx): seq<real> {
    [t.feePerByte, t.fee as real, t.value as real, t.recipient as real, t.validityStartHeight as real, t.sender as real,
     t.recipientType as real, t.senderType as real, t.flags as real, |t.data| as real] + Reals(t.data)
  }

  function Reals(s: seq<nat>): seq<real> {
    seq(|s|, i requires 0 <= i < |s| => s[i] as real)
  }

  /** Lexicographic comparison, first difference decides. */
  predicate LexLess(a: seq<real>, b: seq<real>) {
    b != [] && (a == [] || a[0] < b[0] || (a[0] == b[0] && LexLess(a[1..], b[1..])))
  }

  predicate MempoolLess(a: Tx, b: Tx) {
    LexLess(Key(a), Key(b))
  }

  lemma {:induction false} LexIrreflexive(a: seq<real>)
    ensures !LexLess(a, a)
  {
    if a != [] {
      LexIrreflexive(a[1..]);
    }
  }

  lemma {:induction false} LexTotal(a: seq<real>, b: seq<real>)
    ensures LexLess(a, b) || LexLess(b, a) || a == b
  {
    if a != [] && b != [] {
      LexTotal(a[1..], b[1..]);
      assert a == [a[0]] + a[1..] && b == [b[0]] + b[1..];
    }
  }

  lemma {:induction false} LexTransitive(a: seq<real>, b: seq<real>, c: seq<real>)
    requires LexLess(a, b) && LexLess(b, c)
    ensures LexLess(a, c)
  {
    if a != [] && a[0] == b[0] == c[0] {
      LexTransitive(a[1..], b[1..], c[1..]);
    }
  }

  lemma {:induction false} KeyIsInjective(a: Tx, b: Tx)
    requires Key(a) == Key(b)
    ensures a == b
  {
    var ka, kb := Key(a), Key(b);
    assert forall i :: 0 <= i < 10 ==> ka[i] == kb[i];
    assert ka[0] == kb[0] && ka[1] == kb[1] && ka[2] == kb[2] && ka[3] == kb[3] && ka[4] == kb[4];
    assert ka[5] == kb[5] && ka[6] == kb[6] && ka[7] == kb[7] && ka[8] == kb[8] && ka[9] == kb[9];
    assert |a.data| == |b.data|;
    forall i | 0 <= i < |a.data|
      ensures a.data[i] == b.data[i]
    {
      assert ka[10 + i] == a.data[i] as real && kb[10 + i] == b.data[i] as real;
    }
  }

  /** The comparison of the program is such an order. */
  lemma {:induction false} MempoolLessIsOrder()
    ensures IsMempoolOrder(MempoolLess)
  {
    forall a
      ensures !MempoolLess(a, a)
    {
      LexIrreflexive(Key(a));
    }
    forall a, b | a != b
      ensures MempoolLess(a, b) || MempoolLess(b, a)
    {
      LexTotal(Key(a), Key(b));
      if Key(a) == Key(b) {
        KeyIsInjective(a, b);
      }
    }
    forall a, b, c | MempoolLess(a, b) && MempoolLess(b, c)
      ensures MempoolLess(a, c)
    {
      LexTransitive(Key(a), Key(b), Key(c));
    }
  }
}
