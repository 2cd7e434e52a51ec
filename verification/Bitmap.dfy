// The bitmaps of struct hodo_mapping_info: arrays of 32-bit words, bit j of a
// word being the one selected by the mask 1 << (31 - j).
module Bitmap {
  const WORD_BITS: nat := 32

  type Word = w: seq<bool> | |w| == WORD_BITS witness seq(WORD_BITS, _ => false)

  const ALL_ONES: Word := seq(WORD_BITS, _ => true)
  const ALL_ZEROES: Word := seq(WORD_BITS, _ => false)

  // The bit positions set in an array of words.
  function Members(words: seq<Word>): set<nat> {
    set i: nat | i < WORD_BITS * |words| && words[i / WORD_BITS][i % WORD_BITS]
  }

  function Put(words: seq<Word>, k: nat, j: nat, v: bool): seq<Word>
    requires k < |words| && j < WORD_BITS
  {
    words[k := words[k][j := v]]
  }

  lemma PutMembers(words: seq<Word>, k: nat, j: nat, v: bool)
    requires k < |words| && j < WORD_BITS
    ensures Members(Put(words, k, j, v)) ==
            if v then Members(words) + {k * WORD_BITS + j} else Members(words) - {k * WORD_BITS + j}
  {
    var after := Put(words, k, j, v);
    forall i: nat | i < WORD_BITS * |words|
      ensures i in Members(after) <==> if i == k * WORD_BITS + j then v else i in Members(words)
    {
      assert i / WORD_BITS == k && i % WORD_BITS == j <==> i == k * WORD_BITS + j;
    }
  }

  lemma MemberBit(words: seq<Word>, k: nat, j: nat)
    requires k < |words| && j < WORD_BITS
    ensures k * WORD_BITS + j in Members(words) <==> words[k][j]
  {
    var i := k * WORD_BITS + j;
    assert i / WORD_BITS == k && i % WORD_BITS == j;
  }

  // A word other than all-v words contributes some position; an all-v word none.
  lemma UniformWord(words: seq<Word>, k: nat, v: bool)
    requires k < |words|
    requires words[k] == seq(WORD_BITS, _ => v)
    ensures forall i: nat | k * WORD_BITS <= i < (k + 1) * WORD_BITS :: i in Members(words) <==> v
  {
    forall i: nat | k * WORD_BITS <= i < (k + 1) * WORD_BITS ensures i in Members(words) <==> v {
      MemberBit(words, k, i - k * WORD_BITS);
    }
  }
}
