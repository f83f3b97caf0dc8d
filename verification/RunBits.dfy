/** Which bit of the checkpoint's bitmap stands for which ordinal, and what marking does. */
module RunBits {
  import opened RunOutputs

  function Power(k: nat): (p: nat)
    ensures 0 < p
  {
    if k == 0 then 1 else 2 * Power(k - 1)
  }

  /** Eight ordinals a byte, the least significant bit first. */
  predicate Bit(bitmap: seq<bv8>, ordinal: nat) {
    ordinal / 8 < |bitmap| && (bitmap[ordinal / 8] as int / Power(ordinal % 8)) % 2 == 1
  }

  lemma Bit0(b: bv8)
    ensures b & ((1 as bv8) << 0) != 0 <==> (b as int / 1) % 2 == 1
  {
  }

  lemma Bit1(b: bv8)
    ensures b & ((1 as bv8) << 1) != 0 <==> (b as int / 2) % 2 == 1
  {
  }

  lemma Bit2(b: bv8)
    ensures b & ((1 as bv8) << 2) != 0 <==> (b as int / 4) % 2 == 1
  {
  }

  lemma Bit3(b: bv8)
    ensures b & ((1 as bv8) << 3) != 0 <==> (b as int / 8) % 2 == 1
  {
  }

  lemma HighBits(b: bv8)
    ensures b & ((1 as bv8) << 4) != 0 <==> (b as int / 16) % 2 == 1
    ensures b & ((1 as bv8) << 5) != 0 <==> (b as int / 32) % 2 == 1
    ensures b & ((1 as bv8) << 6) != 0 <==> (b as int / 64) % 2 == 1
    ensures b & ((1 as bv8) << 7) != 0 <==> (b as int / 128) % 2 == 1
  {
  }

  predicate SetBit(b: bv8, k: nat)
    requires k < 8
  {
    b & ((1 as bv8) << k) != 0
  }

  predicate OddQuotient(b: bv8, k: nat) { (b as int / Power(k)) % 2 == 1 }

  lemma Powers()
    ensures Power(0) == 1 && Power(1) == 2 && Power(2) == 4 && Power(3) == 8
    ensures Power(4) == 16 && Power(5) == 32 && Power(6) == 64 && Power(7) == 128
  {
    assert Power(4) == 16;
  }

  lemma LowByteBit(b: bv8)
    ensures SetBit(b, 0) <==> OddQuotient(b, 0)
    ensures SetBit(b, 1) <==> OddQuotient(b, 1)
    ensures SetBit(b, 2) <==> OddQuotient(b, 2)
    ensures SetBit(b, 3) <==> OddQuotient(b, 3)
  {
    Powers();
    hide Power;
    Bit0(b);
    Bit1(b);
    Bit2(b);
    Bit3(b);
  }

  lemma HighByteBit(b: bv8)
    ensures SetBit(b, 4) <==> OddQuotient(b, 4)
    ensures SetBit(b, 5) <==> OddQuotient(b, 5)
    ensures SetBit(b, 6) <==> OddQuotient(b, 6)
    ensures SetBit(b, 7) <==> OddQuotient(b, 7)
  {
    Powers();
    hide Power;
    HighBits(b);
  }

  lemma ByteBit(b: bv8, k: nat)
    requires k < 8
    ensures SetBit(b, k) <==> OddQuotient(b, k)
  {
    hide *;
    if k < 4 {
      LowByteBit(b);
    } else {
      HighByteBit(b);
    }
  }

  lemma CompletedIsBit(bitmap: seq<bv8>, ordinal: nat)
    ensures Completed(bitmap, ordinal) <==> Bit(bitmap, ordinal)
  {
    if ordinal / 8 < |bitmap| {
      ByteBit(bitmap[ordinal / 8], ordinal % 8);
    }
    hide Power;
  }

  // Marking -------------------------------------------------------------------------------------------------

  function Marked(bitmap: seq<bv8>, ordinal: nat): seq<bv8>
    requires ordinal / 8 < |bitmap|
  {
    bitmap[ordinal / 8 := bitmap[ordinal / 8] | ((1 as bv8) << (ordinal % 8))]
  }

  lemma MarkByte(b: bv8, k: nat, j: nat)
    requires k < 8 && j < 8
    ensures (b | ((1 as bv8) << k)) & ((1 as bv8) << j) != 0 <==> j == k || b & ((1 as bv8) << j) != 0
  {
  }

  /** Marking an ordinal completes it and changes no other. */
  lemma MarkedExactly(bitmap: seq<bv8>, ordinal: nat, other: nat)
    requires ordinal / 8 < |bitmap|
    ensures Bit(Marked(bitmap, ordinal), other) <==> other == ordinal || Bit(bitmap, other)
    ensures Completed(Marked(bitmap, ordinal), other) <==> other == ordinal || Completed(bitmap, other)
  {
    CompletedIsBit(Marked(bitmap, ordinal), other);
    CompletedIsBit(bitmap, other);
    hide Bit;
    if other / 8 == ordinal / 8 {
      MarkByte(bitmap[ordinal / 8], ordinal % 8, other % 8);
    }
  }

  /** The ordinals the bitmap records as completed. */
  function BitSet(bitmap: seq<bv8>, total: nat): set<int> {
    set o | 0 <= o < total && Bit(bitmap, o)
  }

  lemma MarkedSet(bitmap: seq<bv8>, total: nat, ordinal: nat)
    requires ordinal < total && ordinal / 8 < |bitmap|
    ensures BitSet(Marked(bitmap, ordinal), total) == BitSet(bitmap, total) + {ordinal}
  {
    forall o: nat ensures Bit(Marked(bitmap, ordinal), o) <==> o == ordinal || Bit(bitmap, o) {
      MarkedExactly(bitmap, ordinal, o);
    }
    hide Bit, Marked;
  }

  /** Marking a list of ordinals completes exactly them besides the old ones, and a count that
      counted the bits still does. An ordinal outside the queue is refused. */
  method MarkQueueCompleted(bitmap: seq<bv8>, done: nat, total: nat, ordinals: seq<int>)
    returns (marked: seq<bv8>, count: nat, ok: bool)
    requires total <= 8 * |bitmap|
    ensures ok <==> forall o | o in ordinals :: 0 <= o < total
    ensures ok ==> |marked| == |bitmap| && BitSet(marked, total) == BitSet(bitmap, total) + set o | o in ordinals
    ensures ok && done == |BitSet(bitmap, total)| ==> count == |BitSet(marked, total)|
  {
    hide BitSet, Bit, Completed, Marked;
    marked, count := bitmap, done;
    for i := 0 to |ordinals|
      invariant |marked| == |bitmap| && forall o | o in ordinals[..i] :: 0 <= o < total
      invariant BitSet(marked, total) == BitSet(bitmap, total) + set o | o in ordinals[..i]
      invariant done == |BitSet(bitmap, total)| ==> count == |BitSet(marked, total)|
    {
      var ordinal := ordinals[i];
      assert ordinals[..i + 1] == ordinals[..i] + [ordinal];
      if ordinal < 0 || ordinal >= total {
        assert ordinal in ordinals;
        return marked, count, false;
      }
      InBitSet(marked, total, ordinal);
      if !Completed(marked, ordinal) {
        MarkedSet(marked, total, ordinal);
        SameLength(marked, ordinal);
        marked := Marked(marked, ordinal);
        count := count + 1;
      }
    }
    assert ordinals[..|ordinals|] == ordinals;
    ok := true;
  }

  lemma InBitSet(bitmap: seq<bv8>, total: nat, ordinal: nat)
    requires ordinal < total
    ensures ordinal in BitSet(bitmap, total) <==> Completed(bitmap, ordinal)
  {
    CompletedIsBit(bitmap, ordinal);
    hide Bit, Completed;
  }

  lemma SameLength(bitmap: seq<bv8>, ordinal: nat)
    requires ordinal / 8 < |bitmap|
    ensures |Marked(bitmap, ordinal)| == |bitmap|
  {
  }
}
