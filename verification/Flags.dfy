/** The packed flags of a hash table: two bits a bucket, sixteen buckets a word. */
module Flags {
  import opened BinMaps

  /** Low bit: deleted; high bit: empty. Live is neither, Broken both. */
  datatype Tag = Live | Deleted | Empty | Broken

  // ----- The flag macros, on the word of a bucket and its place k in the word -----

  predicate WordIsEmpty(w: bv32, k: nat) { And(Shr(w, 2 * k), 2) != 0 }
  predicate WordIsDel(w: bv32, k: nat) { And(Shr(w, 2 * k), 1) != 0 }
  predicate WordIsEither(w: bv32, k: nat) { And(Shr(w, 2 * k), 3) != 0 }
  function WordNotEmpty(w: bv32, k: nat): bv32 { And(w, Not(Shl(2, 2 * k))) }
  function WordNotBoth(w: bv32, k: nat): bv32 { And(w, Not(Shl(3, 2 * k))) }
  function WordDel(w: bv32, k: nat): bv32 { Or(w, Shl(1, 2 * k)) }

  function WordTag(w: bv32, k: nat): Tag {
    if WordIsEmpty(w, k) then (if WordIsDel(w, k) then Broken else Empty)
    else if WordIsDel(w, k) then Deleted else Live
  }

  // ----- Single bits -----

  lemma MarkedSmall(t: nat)
    ensures Marked(1, t) <==> t == 0
    ensures Marked(2, t) <==> t == 1
    ensures Marked(3, t) <==> t <= 1
  {
    assert Idx2Bit(0) == 1 && Idx2Bit(1) == 2;
    if t > 1 {
      BitsDisjoint(0, t);
      BitsDisjoint(1, t);
      OrOfBoth(Idx2Bit(t));
    }
  }

  lemma OrOfBoth(b: bv32)
    requires And(1, b) == 0 && And(2, b) == 0
    ensures And(3, b) == 0
  {}

  lemma OneBit(v: bv32, b: bv32)
    requires And(b, Below(b)) == 0
    ensures And(v, b) == 0 || And(v, b) == b
  {}

  lemma MaskedOff(w: bv32, v: bv32, b: bv32)
    ensures And(v, b) == 0 ==> And(And(w, Not(v)), b) == And(w, b)
    ensures And(v, b) == b ==> And(And(w, Not(v)), b) == 0
  {}

  lemma MaskedOn(w: bv32, v: bv32, b: bv32)
    ensures And(Or(w, v), b) == Or(And(w, b), And(v, b))
  {}

  lemma MarkedMasked(w: bv32, v: bv32, j: nat)
    ensures Marked(And(w, Not(v)), j) <==> Marked(w, j) && !Marked(v, j)
    ensures Marked(Or(w, v), j) <==> Marked(w, j) || Marked(v, j)
  {
    hide And, Or, Not, Below, Idx2Bit;
    BelowOwnBit(j);
    OneBit(v, Idx2Bit(j));
    MaskedOff(w, v, Idx2Bit(j));
    MaskedOn(w, v, Idx2Bit(j));
    OrZero(And(w, Idx2Bit(j)), And(v, Idx2Bit(j)));
    AndComm(0, Idx2Bit(j));
    AndZero(Idx2Bit(j));
  }

  lemma LowTwo(x: bv32)
    ensures And(x, 1) != 0 <==> Marked(x, 0)
    ensures And(x, 2) != 0 <==> Marked(x, 1)
    ensures And(x, 3) != 0 <==> Marked(x, 0) || Marked(x, 1)
  {
    assert Idx2Bit(0) == 1 && Idx2Bit(1) == 2;
  }

  /** The three tests read bits 2k and 2k + 1. */
  lemma WordReads(w: bv32, k: nat)
    ensures WordIsDel(w, k) <==> Marked(w, 2 * k)
    ensures WordIsEmpty(w, k) <==> Marked(w, 2 * k + 1)
    ensures WordIsEither(w, k) <==> WordIsEmpty(w, k) || WordIsDel(w, k)
  {
    hide And, Shr, Marked;
    LowTwo(Shr(w, 2 * k));
    ShrExact(w, 2 * k, 0);
    ShrExact(w, 2 * k, 1);
  }

  lemma WordMask(v: bv32, k: nat, j: nat)
    requires k < 16 && j < 16 && (v == 1 || v == 2 || v == 3)
    ensures Marked(Shl(v, 2 * k), 2 * j) <==> j == k && v != 2
    ensures Marked(Shl(v, 2 * k), 2 * j + 1) <==> j == k && v != 1
  {
    hide Shl, Marked;
    ShlExact(v, 2 * k, 2 * j);
    ShlExact(v, 2 * k, 2 * j + 1);
    if k <= j {
      MarkedSmall(2 * j - 2 * k);
      MarkedSmall(2 * j + 1 - 2 * k);
    } else if 2 * k <= 2 * j + 1 {
    }
  }

  /** Each macro that writes changes the tag of its own bucket only. */
  lemma WordWrites(w: bv32, k: nat, j: nat)
    requires k < 16 && j < 16
    ensures WordTag(WordDel(w, k), j) ==
      if j != k then WordTag(w, j) else if WordTag(w, k).Empty? || WordTag(w, k).Broken? then Broken else Deleted
    ensures WordTag(WordNotEmpty(w, k), j) ==
      if j != k then WordTag(w, j) else if WordTag(w, k).Live? || WordTag(w, k).Empty? then Live else Deleted
    ensures WordTag(WordNotBoth(w, k), j) == if j != k then WordTag(w, j) else Live
  {
    hide And, Or, Not, Shl, Shr, Marked, WordIsEmpty, WordIsDel;
    WordReads(w, j);
    WordReads(WordDel(w, k), j);
    WordReads(WordNotEmpty(w, k), j);
    WordReads(WordNotBoth(w, k), j);
    WordMask(1, k, j);
    WordMask(2, k, j);
    WordMask(3, k, j);
    MarkedMasked(w, Shl(1, 2 * k), 2 * j);
    MarkedMasked(w, Shl(1, 2 * k), 2 * j + 1);
    MarkedMasked(w, Shl(2, 2 * k), 2 * j);
    MarkedMasked(w, Shl(2, 2 * k), 2 * j + 1);
    MarkedMasked(w, Shl(3, 2 * k), 2 * j);
    MarkedMasked(w, Shl(3, 2 * k), 2 * j + 1);
  }

  // ----- memset(flags, 0xaa, ...) -----

  const ALL_EMPTY: bv32 := 0xaaaaaaaa

  lemma EmptyShift(b: bv32)
    requires And(b, ALL_EMPTY) == 0
    ensures And((b << 1) << 1, ALL_EMPTY) == 0
  {}

  lemma EmptyNext(b: bv32)
    requires And(b, ALL_EMPTY) == 0 && b != 0
    ensures And(b << 1, ALL_EMPTY) != 0
  {}

  lemma OddStep(i: nat)
    requires And(Idx2Bit(i), ALL_EMPTY) == 0 && Idx2Bit(i) != 0
    ensures And(Idx2Bit(i + 1), ALL_EMPTY) != 0
  {
    hide And;
    EmptyNext(Idx2Bit(i));
  }

  lemma {:induction false} EvenBits(k: nat)
    ensures And(Idx2Bit(2 * k), ALL_EMPTY) == 0
  {
    if k > 0 {
      EvenBits(k - 1);
      EmptyShift(Idx2Bit(2 * k - 2));
      assert Idx2Bit(2 * k) == Idx2Bit(2 * k - 1) << 1;
    }
  }

  lemma EmptyWord(k: nat)
    requires k < 16
    ensures WordTag(ALL_EMPTY, k) == Empty
  {
    hide WordIsEmpty, WordIsDel, And, Idx2Bit;
    WordReads(ALL_EMPTY, k);
    OddBits(k);
    AndComm(ALL_EMPTY, Idx2Bit(2 * k));
    AndComm(ALL_EMPTY, Idx2Bit(2 * k + 1));
  }

  lemma OddBits(k: nat)
    requires k < 16
    ensures And(Idx2Bit(2 * k), ALL_EMPTY) == 0 && And(Idx2Bit(2 * k + 1), ALL_EMPTY) != 0
  {
    hide And, Idx2Bit;
    EvenBits(k);
    BitNonzero(2 * k);
    OddStep(2 * k);
  }

  // ----- Whole flag arrays -----

  /** __ac_fsize */
  function FlagWords(n: nat): nat { if n < 16 then 1 else n / 16 }

  ghost function Tags(flags: seq<bv32>, n: nat): (tags: seq<Tag>)
    requires n <= 16 * |flags|
    ensures |tags| == n
  {
    seq(n, i requires 0 <= i < n => WordTag(flags[i / 16], i % 16))
  }

  lemma TagsWritten(flags: seq<bv32>, n: nat, i: nat, w: bv32, t: Tag)
    requires n <= 16 * |flags| && i < n
    requires forall j | 0 <= j < 16 :: WordTag(w, j) == if j == i % 16 then t else WordTag(flags[i / 16], j)
    ensures Tags(flags[i / 16 := w], n) == Tags(flags, n)[i := t]
  {
    hide WordTag;
    var f := flags[i / 16 := w];
    forall j | 0 <= j < n ensures Tags(f, n)[j] == Tags(flags, n)[i := t][j] {
      if j / 16 == i / 16 { assert j % 16 == i % 16 <==> j == i; }
    }
  }

  lemma TagsDel(flags: seq<bv32>, n: nat, i: nat)
    requires n <= 16 * |flags| && i < n && Tags(flags, n)[i] == Live
    ensures Tags(flags[i / 16 := WordDel(flags[i / 16], i % 16)], n) == Tags(flags, n)[i := Deleted]
  {
    hide WordTag, WordDel;
    forall j | 0 <= j < 16 { WordWrites(flags[i / 16], i % 16, j); }
    TagsWritten(flags, n, i, WordDel(flags[i / 16], i % 16), Deleted);
  }

  lemma TagsFill(flags: seq<bv32>, n: nat, i: nat)
    requires n <= 16 * |flags| && i < n && Tags(flags, n)[i] == Empty
    ensures Tags(flags[i / 16 := WordNotEmpty(flags[i / 16], i % 16)], n) == Tags(flags, n)[i := Live]
  {
    hide WordTag, WordNotEmpty;
    forall j | 0 <= j < 16 { WordWrites(flags[i / 16], i % 16, j); }
    TagsWritten(flags, n, i, WordNotEmpty(flags[i / 16], i % 16), Live);
  }

  lemma TagsLive(flags: seq<bv32>, n: nat, i: nat)
    requires n <= 16 * |flags| && i < n
    ensures Tags(flags[i / 16 := WordNotBoth(flags[i / 16], i % 16)], n) == Tags(flags, n)[i := Live]
  {
    hide WordTag, WordNotBoth;
    forall j | 0 <= j < 16 { WordWrites(flags[i / 16], i % 16, j); }
    TagsWritten(flags, n, i, WordNotBoth(flags[i / 16], i % 16), Live);
  }

  lemma TagsEmpty(flags: seq<bv32>, n: nat)
    requires n <= 16 * |flags| && forall j | 0 <= j < |flags| :: flags[j] == ALL_EMPTY
    ensures forall i | 0 <= i < n :: Tags(flags, n)[i] == Empty
  {
    hide WordTag;
    forall i | 0 <= i < n ensures Tags(flags, n)[i] == Empty { EmptyWord(i % 16); }
  }
}
