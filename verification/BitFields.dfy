/**
 The bit macros of mm64.h, mm.h and bitops.h on 64-bit words, and the arithmetic they amount to: the bridge between
 the words of the program and the numbers the other modules use.
 */
module BitFields {
  import opened Prelude
  import opened PageTable
  import opened Paging

  /** An addr_t. */
  type Word64 = bv64

  /** The number a word denotes. */
  function Val(x: Word64): (n: nat)
    decreases x
  {
    if x == 0 then 0 else Bit(x) + 2 * Val(x >> 1)
  }

  /** The lowest bit of a word. */
  function Bit(x: Word64): (b: nat)
    ensures b < 2
  {
    if x & 1 == 1 then 1 else 0
  }

  const ONES: Word64 := 0xFFFF_FFFF_FFFF_FFFF

  /** The weight of bit `k`: 2 to the power of `k`. */
  function Pow(k: Word64): (n: nat)
    ensures n > 0
    decreases k
  {
    if k == 0 then 1 else 2 * Pow(k - 1)
  }

  /** The `k` lowest ones. */
  function Low(k: Word64): Word64
    requires k < 64
  {
    (1 << k) - 1
  }

  /** GENMASK64. */
  function Genmask64(hi: Word64, lo: Word64): Word64
    requires lo <= hi < 64
  {
    And(ONES << lo, ONES >> (63 - hi))
  }

  /** The field of an address between two bits, as the PAGING64_ADDR macros take it. */
  function Field(a: Word64, hi: Word64, lo: Word64): Word64
    requires lo <= hi < 64
  {
    Shr(And(a, Genmask64(hi, lo)), lo)
  }

  // ---- one bit at a time ---------------------------------------------------------------------------------

  // The operators, by name: what follows reasons about them from their laws alone.

  function Shr(x: Word64, k: Word64): Word64 requires k < 64 { x >> k }

  function And(x: Word64, y: Word64): Word64 { x & y }

  function Or(x: Word64, y: Word64): Word64 { x | y }

  lemma Halved(x: Word64)
    ensures Val(x) == Bit(x) + 2 * Val(Shr(x, 1))
  {
  }

  lemma ShiftBits(x: Word64, k: Word64)
    requires 0 < k < 64
    ensures x >> k == (x >> 1) >> (k - 1)
  {
  }

  lemma ShiftStep(x: Word64, k: Word64)
    requires 0 < k < 64
    ensures Shr(x, k) == Shr(Shr(x, 1), k - 1)
  {
    ShiftBits(x, k);
    assert Shr(x, k) == x >> k;
    assert Shr(x, 1) == x >> 1;
    assert Shr(x >> 1, k - 1) == (x >> 1) >> (k - 1);
  }

  lemma AndStep(x: Word64, y: Word64)
    ensures Shr(And(x, y), 1) == And(Shr(x, 1), Shr(y, 1))
  {
  }

  lemma LowStep(k: Word64)
    requires 0 < k < 64
    ensures Shr(Low(k), 1) == Low(k - 1)
  {
  }

  lemma LowBit(x: Word64, k: Word64)
    requires 0 < k < 64
    ensures Bit(And(x, Low(k))) == Bit(x)
  {
  }

  lemma NoShift(x: Word64)
    ensures Shr(x, 0) == x && And(x, Low(0)) == 0 && Val(0) == 0
  {
  }

  lemma HalvedMod(bit: nat, z: nat, n: nat)
    requires bit < 2 && n > 0
    ensures (bit + 2 * z) % (2 * n) == bit + 2 * (z % n)
    ensures (bit + 2 * z) / (2 * n) == z / n
  {
    var q, r := z / n, z % n;
    DivIs(2 * n, q, bit + 2 * r);
    assert bit + 2 * z == (2 * n) * q + (bit + 2 * r);
  }

  // ---- shifting and masking ------------------------------------------------------------------------------

  /** Shifting down by `k` is division. */
  lemma {:induction false} Down(x: Word64, k: Word64)
    requires k < 64
    ensures Val(Shr(x, k)) == Val(x) / Pow(k)
    decreases k
  {
    hide Val, Bit, Shr;
    if k > 0 {
      ShiftStep(x, k);
      Down(Shr(x, 1), k - 1);
      Halved(x);
      HalvedMod(Bit(x), Val(Shr(x, 1)), Pow(k - 1));
    } else {
      NoShift(x);
    }
  }

  /** Masking with the `k` lowest ones is taking the remainder. */
  lemma {:induction false} Kept(x: Word64, k: Word64)
    requires k < 64
    ensures Val(And(x, Low(k))) == Val(x) % Pow(k)
    decreases k
  {
    hide Val, Bit, Shr, And, Low;
    if k > 0 {
      AndStep(x, Low(k));
      LowStep(k);
      LowBit(x, k);
      Kept(Shr(x, 1), k - 1);
      Halved(x);
      Halved(And(x, Low(k)));
      HalvedMod(Bit(x), Val(Shr(x, 1)), Pow(k - 1));
    } else {
      NoShift(x);
    }
  }

  lemma {:induction false} AndDown(x: Word64, y: Word64, k: Word64)
    requires k < 64
    ensures Shr(And(x, y), k) == And(Shr(x, k), Shr(y, k))
    decreases k
  {
    hide Shr, And;
    if k > 0 {
      ShiftStep(x, k);
      ShiftStep(y, k);
      ShiftStep(And(x, y), k);
      AndStep(x, y);
      AndDown(Shr(x, 1), Shr(y, 1), k - 1);
    } else {
      NoShift(x);
      NoShift(y);
      NoShift(And(x, y));
    }
  }

  lemma {:induction false} LowDown(n: Word64, k: Word64)
    requires k <= n < 64
    ensures Shr(Low(n), k) == Low(n - k)
    decreases k
  {
    hide Shr, Low;
    if k > 0 {
      ShiftStep(Low(n), k);
      LowStep(n);
      LowDown(n - 1, k - 1);
    } else {
      NoShift(Low(n));
    }
  }

  lemma OnesUp(k: Word64)
    requires k < 64
    ensures Shr(ONES << k, k) == Shr(ONES, k)
  {
  }

  lemma OnesDown(hi: Word64)
    requires hi < 63
    ensures ONES >> (63 - hi) == Low(hi + 1)
  {
  }

  /** The field macros: divide by the weight of the lowest bit, and take the remainder by the field's own weight. */
  lemma FieldIs(a: Word64, hi: Word64, lo: Word64)
    requires lo <= hi < 64
    ensures Val(Field(a, hi, lo)) == Val(a) / Pow(lo) % Pow(hi - lo + 1)
  {
    hide Val, Pow, Field;
    if hi == 63 {
      TopFieldIs(a, lo, hi - lo + 1);
    } else {
      LowerFieldIs(a, hi, lo);
    }
  }

  lemma LowerFieldIs(a: Word64, hi: Word64, lo: Word64)
    requires lo <= hi < 63
    ensures Val(Field(a, hi, lo)) == Val(a) / Pow(lo) % Pow(hi - lo + 1)
  {
    hide Val, Shr, And, Low, Pow, Field;
    FieldIsMasked(a, hi, lo);
    Down(a, lo);
    Kept(Shr(a, lo), hi - lo + 1);
  }

  lemma TopFieldIs(a: Word64, lo: Word64, w: Word64)
    requires lo < 64 && w == 64 - lo
    ensures Val(Field(a, 63, lo)) == Val(a) / Pow(lo) % Pow(w)
  {
    hide Val, Shr, And, Low, Pow, Field;
    TopField(a, lo);
    Down(a, lo);
    WordBound(a);
    ShiftedBound(a, lo, 64, w);
    SmallMod(Val(a) / Pow(lo), Pow(w));
  }

  lemma SmallMod(n: nat, q: nat)
    requires n < q
    ensures n % q == n
  {
  }

  /** A field that reaches the top of the word is all that a shift leaves. */
  lemma TopField(a: Word64, lo: Word64)
    requires lo < 64
    ensures Field(a, 63, lo) == Shr(a, lo)
  {
    hide Shr, And, Low;
    var up := ONES << lo;
    AllOnes();
    AndDown(a, And(up, ONES), lo);
    AndDown(up, ONES, lo);
    OnesUp(lo);
    AndDown(ONES, ONES, lo);
    WithOnes(ONES);
    AndDown(a, ONES, lo);
    OnesLast(a);
  }

  lemma AllOnes()
    ensures ONES >> 0 == ONES
  {
  }

  lemma OnesLast(x: Word64)
    ensures And(x, ONES) == x
  {
  }

  lemma HalfWord(x: Word64)
    ensures And(Shr(x, 1), Low(63)) == Shr(x, 1)
  {
  }

  lemma WordBound(x: Word64)
    ensures Val(x) < Pow(64)
  {
    HalfWord(x);
    hide Val, Shr, And, Low, Bit;
    Kept(Shr(x, 1), 63);
    Halved(x);
    assert Pow(64) == 2 * Pow(63);
  }

  lemma PowStep(n: Word64)
    requires n > 0
    ensures Pow(n) == 2 * Pow(n - 1)
  {
  }

  lemma {:induction false} ShiftedBound(x: Word64, k: Word64, n: Word64, m: Word64)
    requires k < 64 && k <= n <= 64 && m == n - k && Val(x) < Pow(n)
    ensures Val(Shr(x, k)) < Pow(m)
    decreases k
  {
    hide Val, Bit, Shr, Pow;
    if k == 0 {
      NoShift(x);
    } else {
      ShiftStep(x, k);
      Halved(x);
      PowStep(n);
      ShiftedBound(Shr(x, 1), k - 1, n - 1, m);
    }
  }

  lemma FieldIsMasked(a: Word64, hi: Word64, lo: Word64)
    requires lo <= hi < 63
    ensures Field(a, hi, lo) == And(Shr(a, lo), Low(hi - lo + 1))
  {
    hide Shr, And, Low;
    var up, down := ONES << lo, ONES >> (63 - hi);
    AndDown(a, And(up, down), lo);
    AndDown(up, down, lo);
    OnesUp(lo);
    OnesDown(hi);
    LowDown(hi + 1, lo);
    AndDown(ONES, Low(hi + 1), lo);
    WithOnes(Low(hi + 1));
  }

  lemma WithOnes(x: Word64)
    ensures And(ONES, x) == x
  {
  }

  // ---- joining words -------------------------------------------------------------------------------------

  lemma OrStep(x: Word64, y: Word64)
    ensures Shr(Or(x, y), 1) == Or(Shr(x, 1), Shr(y, 1))
  {
  }

  lemma OrBit(x: Word64, y: Word64)
    requires And(x, y) == 0
    ensures Bit(Or(x, y)) == Bit(x) + Bit(y)
  {
  }

  lemma OrZero()
    ensures Or(0, 0) == 0 && Val(0) == 0 && Shr(0, 1) == 0
  {
  }

  lemma {:induction false} IsZero(x: Word64)
    ensures Val(x) == 0 ==> x == 0
    decreases x
  {
    if x == 0 {
    } else {
      IsZero(x >> 1);
    }
  }

  /** The union of words with no bit in common is their sum. */
  lemma {:induction false} Joined(x: Word64, y: Word64)
    requires And(x, y) == 0
    ensures Val(Or(x, y)) == Val(x) + Val(y)
    decreases Val(x) + Val(y)
  {
    hide Val, Bit, Shr, And, Or;
    OrZero();
    IsZero(x);
    IsZero(y);
    if Val(x) + Val(y) > 0 {
      Halved(x);
      Halved(y);
      Halved(Or(x, y));
      OrBit(x, y);
      OrStep(x, y);
      AndStep(x, y);
      Joined(Shr(x, 1), Shr(y, 1));
    }
  }

  /** A word as what is below bit `k` and what is above. */
  lemma Cut(x: Word64, k: Word64)
    requires k < 64
    ensures Val(x) == Pow(k) * Val(Shr(x, k)) + Val(And(x, Low(k))) && Val(And(x, Low(k))) < Pow(k)
  {
    hide Val, Shr, And, Low, Pow;
    Down(x, k);
    Kept(x, k);
  }

  /** Shifting up by `k`, where no bit is lost, is multiplication. */
  lemma Raised(x: Word64, k: Word64)
    requires k < 64 && Shr(x << k, k) == x
    ensures Val(x << k) == Pow(k) * Val(x)
  {
    NoneBelow(x, k);
    hide Val, Shr, And, Low, Pow;
    NoShift(0);
    Cut(x << k, k);
  }

  lemma NoneBelow(x: Word64, k: Word64)
    requires k < 64
    ensures And(x << k, Low(k)) == 0
  {
  }

  lemma SmallPowers()
    ensures Pow(1) == 2 && Pow(8) == 0x100 && Pow(9) == 0x200 && Pow(12) == 0x1000 && Pow(13) == 0x2000
    ensures Pow(16) == 0x1_0000 && Pow(21) == 0x20_0000 && Pow(24) == 0x100_0000
  {
    assert Pow(8) == 0x100;
    assert Pow(16) == 0x1_0000;
  }

  lemma MiddlePowers()
    requires Pow(24) == 0x100_0000
    ensures Pow(30) == 0x4000_0000 && Pow(31) == 0x8000_0000 && Pow(32) == 0x1_0000_0000
  {
  }

  lemma LargePowers()
    requires Pow(32) == 0x1_0000_0000
    ensures Pow(39) == 0x80_0000_0000 && Pow(48) == 0x1_0000_0000_0000 && Pow(52) == 0x10_0000_0000_0000
  {
    assert Pow(39) == 0x80_0000_0000;
    assert Pow(46) == 0x4000_0000_0000;
  }

  lemma Powers()
    ensures Pow(1) == 2 && Pow(8) == 0x100 && Pow(9) == 0x200 && Pow(12) == 0x1000 && Pow(13) == 0x2000
    ensures Pow(16) == 0x1_0000 && Pow(21) == 0x20_0000 && Pow(24) == 0x100_0000 && Pow(30) == 0x4000_0000
    ensures Pow(31) == 0x8000_0000 && Pow(32) == 0x1_0000_0000 && Pow(39) == 0x80_0000_0000
    ensures Pow(48) == 0x1_0000_0000_0000 && Pow(52) == 0x10_0000_0000_0000
  {
    hide Pow;
    SmallPowers();
    MiddlePowers();
    LargePowers();
  }

  // ---- address fields ------------------------------------------------------------------------------------

  /** The macros of mm64.h take the five indices of an address. */
  lemma FieldsAreIndices(a: Word64)
    ensures Val(Field(a, 56, 48)) == PgdIndex(Val(a)) && Val(Field(a, 47, 39)) == P4dIndex(Val(a))
    ensures Val(Field(a, 38, 30)) == PudIndex(Val(a)) && Val(Field(a, 29, 21)) == PmdIndex(Val(a))
    ensures Val(Field(a, 20, 12)) == PtIndex(Val(a))
  {
    hide Val, Field, Pow;
    Powers();
    FieldIs(a, 56, 48);
    FieldIs(a, 47, 39);
    FieldIs(a, 38, 30);
    FieldIs(a, 29, 21);
    FieldIs(a, 20, 12);
  }

  lemma PageShift(p: Word64)
    ensures Shr(p << 12, 12) == And(p, Low(52)) && And(p << 12, Low(12)) == 0
  {
  }

  /** The shift of get_pd_from_pagenum makes the page's address. */
  lemma ShiftIsPageAddress(p: Word64)
    ensures Val(p << 12) == PageAddress(Val(p))
  {
    PageShift(p);
    hide Val, Shr, And, Low, Pow;
    Powers();
    Cut(p << 12, 12);
    Kept(p, 52);
    NoShift(0);
  }

  // ---- entries -------------------------------------------------------------------------------------------

  const INT_ONES: Word64 := 0xFFFF_FFFF // the complement of an unsigned int mask has no higher bits

  /** BIT. The present mask is bit 31, the swapped mask bit 30. */
  function Mask(k: Word64): Word64
    requires k < 64
  {
    1 << k
  }

  function SetBit(v: Word64, mask: Word64): Word64 { Or(v, mask) }

  function ClrBit(v: Word64, mask: Word64): Word64 { And(v, mask ^ INT_ONES) }

  /** SETVAL of a field that starts at bit 0. */
  function SetVal(v: Word64, value: Word64, mask: Word64): Word64 { Or(And(v, mask ^ INT_ONES), And(value, mask)) }

  /** The entry of a new table, and the entry pte_set_fpn writes over an old one, as the macros build them. */
  function TableWord(fpn: Word64): Word64 { SetVal(SetBit(0, Mask(31)), fpn, Low(13)) }

  function OnlineWord(e: Word64, fpn: Word64): Word64 { SetVal(ClrBit(SetBit(e, Mask(31)), Mask(30)), fpn, Low(13)) }

  /** A word in the range of an entry. */
  predicate IsEntry(e: Word64) { And(e, INT_ONES) == e }

  // What the masks do, bit by bit.

  lemma TestBit(e: Word64, k: Word64)
    requires k < 64
    ensures And(e, Mask(k)) != 0 <==> Bit(Shr(e, k)) == 1
  {
  }

  lemma OneUp(k: Word64)
    requires k < 64
    ensures Shr(Mask(k), k) == 1
  {
  }

  lemma BitThere(e: Word64, k: Word64)
    requires k < 64 && And(e, Mask(k)) != 0
    ensures Or(e, Mask(k)) == e
  {
  }

  lemma BitAbsent(e: Word64, k: Word64)
    requires k < 32 && IsEntry(e) && And(e, Mask(k)) == 0
    ensures ClrBit(e, Mask(k)) == e
  {
  }

  lemma BitApart(e: Word64, k: Word64)
    requires k < 32 && IsEntry(e) && And(e, Mask(k)) != 0
    ensures e == Or(ClrBit(e, Mask(k)), Mask(k))
  {
  }

  lemma BitGone(e: Word64, k: Word64)
    requires k < 32
    ensures And(ClrBit(e, Mask(k)), Mask(k)) == 0
  {
  }

  lemma FieldApart(e: Word64)
    requires IsEntry(e)
    ensures e == Or(And(e, Low(13) ^ INT_ONES), And(e, Low(13)))
  {
  }

  lemma FieldGone(e: Word64, v: Word64)
    ensures And(And(e, Low(13) ^ INT_ONES), And(v, Low(13))) == 0
  {
  }

  lemma EntrySet(e: Word64, k: Word64)
    requires IsEntry(e) && k < 32
    ensures IsEntry(SetBit(e, Mask(k)))
  {
  }

  lemma EntryCleared(e: Word64, k: Word64)
    requires IsEntry(e) && k < 32
    ensures IsEntry(ClrBit(e, Mask(k)))
  {
  }

  lemma MaskIs(k: Word64)
    requires k < 64
    ensures Val(Mask(k)) == Pow(k)
  {
    hide Val, Shr, Pow;
    OneUp(k);
    One();
    Raised(1, k);
  }

  /** The test of a bit. */
  lemma BitIs(e: Word64, k: Word64)
    requires k < 64
    ensures And(e, Mask(k)) != 0 <==> Val(e) / Pow(k) % 2 == 1
  {
    hide Val, Bit, Shr, And, Low, Pow, Mask;
    TestBit(e, k);
    Down(e, k);
    Halved(Shr(e, k));
  }

  lemma One()
    ensures Val(1) == 1
  {
  }

  /** SETBIT adds the weight of its bit unless the bit is there. */
  lemma SetBitIs(e: Word64, k: Word64)
    requires k < 64
    ensures Val(SetBit(e, Mask(k))) == if Val(e) / Pow(k) % 2 == 1 then Val(e) else Val(e) + Pow(k)
  {
    hide Val, And, Or, Pow, Mask;
    BitIs(e, k);
    MaskIs(k);
    if And(e, Mask(k)) == 0 { Joined(e, Mask(k)); } else { BitThere(e, k); }
  }

  /** CLRBIT takes the weight of its bit away if the bit is there. */
  lemma ClrBitIs(e: Word64, k: Word64)
    requires k < 32 && IsEntry(e)
    ensures Val(ClrBit(e, Mask(k))) == if Val(e) / Pow(k) % 2 == 1 then Val(e) - Pow(k) else Val(e)
  {
    hide Val, And, Or, Pow, ClrBit, IsEntry, Mask;
    BitIs(e, k);
    MaskIs(k);
    if And(e, Mask(k)) == 0 {
      BitAbsent(e, k);
    } else {
      BitApart(e, k);
      BitGone(e, k);
      Joined(ClrBit(e, Mask(k)), Mask(k));
    }
  }

  /** SETVAL of the frame field replaces the remainder by the weight of the field. */
  lemma SetValIs(e: Word64, fpn: Word64)
    requires IsEntry(e)
    ensures Val(SetVal(e, fpn, Low(13))) == SetFrame(Val(e), Val(fpn))
  {
    hide Val, And, Or, Pow, Low, IsEntry;
    Powers();
    FieldApart(e);
    FieldGone(e, e);
    FieldGone(e, fpn);
    Joined(And(e, Low(13) ^ INT_ONES), And(e, Low(13)));
    Joined(And(e, Low(13) ^ INT_ONES), And(fpn, Low(13)));
    Kept(e, 13);
    Kept(fpn, 13);
  }

  /** The tests the walks make of an entry, and the frame they take from it. */
  lemma TestsAreFields(e: Word64)
    ensures And(e, Mask(31)) != 0 <==> Present(Val(e))
    ensures Val(And(e, Low(13))) == Fpn(Val(e))
  {
    hide Val, And, Pow, Low, Mask;
    Powers();
    BitIs(e, 31);
    Kept(e, 13);
  }

  /** The entries pte_set_fpn builds with the macros are the entries of the page table. */
  lemma TableWordIs(fpn: Word64)
    ensures Val(TableWord(fpn)) == TableEntry(Val(fpn))
  {
    ZeroEntry();
    OrZero();
    hide Val, And, Or, Pow, Low, IsEntry, SetBit, SetVal, Mask;
    Powers();
    SetBitIs(0, 31);
    EntrySet(0, 31);
    SetValIs(SetBit(0, Mask(31)), fpn);
  }

  lemma OnlineWordIs(e: Word64, fpn: Word64)
    requires IsEntry(e)
    ensures Val(OnlineWord(e, fpn)) == OnlineEntry(Val(e), Val(fpn))
  {
    hide Val, And, Or, Pow, Low, IsEntry, SetBit, ClrBit, SetVal, Mask;
    Powers();
    SetBitIs(e, 31);
    EntrySet(e, 31);
    ClrBitIs(SetBit(e, Mask(31)), 30);
    EntryCleared(SetBit(e, Mask(31)), 30);
    SetValIs(ClrBit(SetBit(e, Mask(31)), Mask(30)), fpn);
  }

  lemma ZeroEntry()
    ensures IsEntry(0)
  {
  }

  // ---- bytes ---------------------------------------------------------------------------------------------

  /** Byte `k / 8` of an entry, as the store loop cuts it out. */
  lemma StoredByte(e: Word64, k: Word64)
    requires k < 64
    ensures Val(And(Shr(e, k), Low(8))) == Val(e) / Pow(k) % 0x100
  {
    hide Val, Shr, And, Low, Pow;
    Powers();
    Down(e, k);
    Kept(Shr(e, k), 8);
  }

  /** A byte, and bytes read so far that fill the bits below `k`. */
  predicate IsByte(b: Word64) { And(b, Low(8)) == b }

  predicate Fills(e: Word64, k: Word64)
    requires k < 64
  {
    And(e, Low(k)) == e
  }

  lemma ByteUp(b: Word64, k: Word64)
    requires k <= 24 && IsByte(b)
    ensures Shr(b << k, k) == b
  {
  }

  lemma ByteApart(e: Word64, b: Word64, k: Word64)
    requires k <= 24 && Fills(e, k)
    ensures And(e, b << k) == 0
  {
  }

  lemma ByteFills(e: Word64, b: Word64, k: Word64)
    requires k <= 24 && Fills(e, k) && IsByte(b)
    ensures Fills(Or(e, b << k), k + 8)
  {
  }

  /** One turn of the load loop: a byte joined above those read so far. */
  lemma LoadedByte(e: Word64, b: Word64, k: Word64)
    requires k <= 24 && Fills(e, k) && IsByte(b)
    ensures Val(Or(e, b << k)) == Val(e) + Pow(k) * Val(b) && Fills(Or(e, b << k), k + 8)
  {
    hide Val, Shr, And, Or, Low, Pow, Fills, IsByte;
    ByteUp(b, k);
    ByteApart(e, b, k);
    ByteFills(e, b, k);
    Raised(b, k);
    Joined(e, b << k);
  }
}
