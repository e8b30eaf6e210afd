/** The comparisons of transactions, field by field (primitives/transaction/src/lib.rs). */
module TransactionOrder {
  import opened Transactions
  import opened AccountsBlocks

  /** The result of a comparison; a later one decides where this one does not. */
  datatype Ordering = Less | Equal | Greater {

    function Then(later: Ordering): Ordering {
      if Equal? then later else this
    }
  }

  function Cmp(x: real, y: real): Ordering {
    if x < y then Less else if x == y then Equal else Greater
  }

  function CmpNat(x: nat, y: nat): Ordering {
    if x < y then Less else if x == y then Equal else Greater
  }

  function CmpData(a: seq<nat>, b: seq<nat>): Ordering {
    if a == [] then (if b == [] then Equal else Less)
    else if b == [] then Greater
    else CmpNat(a[0], b[0]).Then(CmpData(a[1..], b[1..]))
  }

  /** `cmp_mempool_order`. */
  function CmpMempoolOrder(a: Tx, b: Tx): Ordering {
    Cmp(a.feePerByte, b.feePerByte).Then(
      CmpNat(a.fee, b.fee).Then(
        CmpNat(a.value, b.value).Then(
          CmpNat(a.recipient, b.recipient).Then(
            CmpNat(a.validityStartHeight, b.validityStartHeight).Then(
              CmpNat(a.sender, b.sender).Then(
                CmpNat(a.recipientType, b.recipientType).Then(
                  CmpNat(a.senderType, b.senderType).Then(
                    CmpNat(a.flags, b.flags).Then(
                      CmpNat(|a.data|, |b.data|).Then(CmpData(a.data, b.data)))))))))))
  }

  /** `cmp_block_order`: larger fees and values come first. */
  function CmpBlockOrder(a: Tx, b: Tx): Ordering {
    CmpNat(a.recipient, b.recipient).Then(
      CmpNat(a.validityStartHeight, b.validityStartHeight).Then(
        CmpNat(b.fee, a.fee).Then(
          CmpNat(b.value, a.value).Then(
            CmpNat(a.sender, b.sender).Then(
              CmpNat(a.recipientType, b.recipientType).Then(
                CmpNat(a.senderType, b.senderType).Then(
                  CmpNat(a.flags, b.flags).Then(
                    CmpNat(|a.data|, |b.data|).Then(CmpData(a.data, b.data))))))))))
  }

  // ---------- as lists of numbers ----------

  function CmpSeq(a: seq<real>, b: seq<real>): Ordering {
    if a == [] then (if b == [] then Equal else Less)
    else if b == [] then Greater
    else Cmp(a[0], b[0]).Then(CmpSeq(a[1..], b[1..]))
  }

  lemma {:induction false} CmpSeqIs(a: seq<real>, b: seq<real>)
    ensures CmpSeq(a, b) == Less <==> LexLess(a, b)
    ensures CmpSeq(a, b) == Equal <==> a == b
  {
    if a != [] && b != [] {
      CmpSeqIs(a[1..], b[1..]);
      assert a == [a[0]] + a[1..] && b == [b[0]] + b[1..];
    }
  }

  lemma {:induction false} CmpNext(x: real, y: real, a: seq<real>, b: seq<real>)
    ensures CmpSeq([x] + a, [y] + b) == Cmp(x, y).Then(CmpSeq(a, b))
  {
    assert ([x] + a)[1..] == a && ([y] + b)[1..] == b;
  }

  lemma {:induction false} CmpReals(a: seq<nat>, b: seq<nat>)
    ensures CmpSeq(Reals(a), Reals(b)) == CmpData(a, b)
  {
    if a != [] && b != [] {
      CmpReals(a[1..], b[1..]);
      assert Reals(a)[1..] == Reals(a[1..]) && Reals(b)[1..] == Reals(b[1..]);
    }
  }

  /** The last fields of both keys. */
  function Tail(t: Tx): seq<real> {
    [t.sender as real] + ([t.recipientType as real] + ([t.senderType as real] + ([t.flags as real] +
      ([|t.data| as real] + Reals(t.data)))))
  }

  function CmpTail(a: Tx, b: Tx): Ordering {
    CmpNat(a.sender, b.sender).Then(
      CmpNat(a.recipientType, b.recipientType).Then(
        CmpNat(a.senderType, b.senderType).Then(
          CmpNat(a.flags, b.flags).Then(CmpNat(|a.data|, |b.data|).Then(CmpData(a.data, b.data))))))
  }

  lemma {:induction false} CmpTailIs(a: Tx, b: Tx)
    ensures CmpSeq(Tail(a), Tail(b)) == CmpTail(a, b)
  {
    CmpReals(a.data, b.data);
    var a5, b5 := [|a.data| as real] + Reals(a.data), [|b.data| as real] + Reals(b.data);
    CmpNext(|a.data| as real, |b.data| as real, Reals(a.data), Reals(b.data));
    CmpNext(a.flags as real, b.flags as real, a5, b5);
    var a4, b4 := [a.flags as real] + a5, [b.flags as real] + b5;
    CmpNext(a.senderType as real, b.senderType as real, a4, b4);
    var a3, b3 := [a.senderType as real] + a4, [b.senderType as real] + b4;
    CmpNext(a.recipientType as real, b.recipientType as real, a3, b3);
    CmpNext(a.sender as real, b.sender as real, [a.recipientType as real] + a3, [b.recipientType as real] + b3);
  }

  function MempoolKey(t: Tx): seq<real> {
    [t.feePerByte] + ([t.fee as real] + ([t.value as real] + ([t.recipient as real] +
      ([t.validityStartHeight as real] + Tail(t)))))
  }

  /** The mempool keeps transactions in the order of this comparison. */
  lemma {:induction false} MempoolOrderIs(a: Tx, b: Tx)
    ensures MempoolLess(a, b) <==> CmpMempoolOrder(a, b) == Less
    ensures CmpMempoolOrder(a, b) == Equal <==> a == b
  {
    assert Key(a) == MempoolKey(a) && Key(b) == MempoolKey(b);
    CmpSeqIs(Key(a), Key(b));
    CmpTailIs(a, b);
    CmpNext(a.validityStartHeight as real, b.validityStartHeight as real, Tail(a), Tail(b));
    var a4, b4 := [a.validityStartHeight as real] + Tail(a), [b.validityStartHeight as real] + Tail(b);
    CmpNext(a.recipient as real, b.recipient as real, a4, b4);
    var a3, b3 := [a.recipient as real] + a4, [b.recipient as real] + b4;
    CmpNext(a.value as real, b.value as real, a3, b3);
    CmpNext(a.fee as real, b.fee as real, [a.value as real] + a3, [b.value as real] + b3);
    CmpNext(a.feePerByte, b.feePerByte, [a.fee as real] + ([a.value as real] + a3),
            [b.fee as real] + ([b.value as real] + b3));
    if Key(a) == Key(b) {
      KeyIsInjective(a, b);
    }
  }

  function BlockKeyParts(t: Tx): seq<real> {
    [t.recipient as real] + ([t.validityStartHeight as real] + ([-(t.fee as real)] + ([-(t.value as real)] + Tail(t))))
  }

  /** Blocks are checked against the order of this comparison. */
  lemma {:induction false} BlockOrderIs(a: Tx, b: Tx)
    ensures BlockLess(a, b) <==> CmpBlockOrder(a, b) == Less
  {
    assert BlockKey(a) == BlockKeyParts(a) && BlockKey(b) == BlockKeyParts(b);
    CmpSeqIs(BlockKey(a), BlockKey(b));
    CmpTailIs(a, b);
    CmpNext(-(a.value as real), -(b.value as real), Tail(a), Tail(b));
    var a3, b3 := [-(a.value as real)] + Tail(a), [-(b.value as real)] + Tail(b);
    CmpNext(-(a.fee as real), -(b.fee as real), a3, b3);
    var a2, b2 := [-(a.fee as real)] + a3, [-(b.fee as real)] + b3;
    CmpNext(a.validityStartHeight as real, b.validityStartHeight as real, a2, b2);
    CmpNext(a.recipient as real, b.recipient as real, [a.validityStartHeight as real] + a2,
            [b.validityStartHeight as real] + b2);
  }
}
