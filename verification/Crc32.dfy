/**
 * The table-driven CRC-32 (impl/lib/gmarker.ts) against the bit-serial reflected
 * CRC of section 3.2.9 of IEEE 802.3, and what the check detects.
 */
module Crc32 {
  import opened Feedback

  type Bytes = seq<bv8>

  // ------------------------------------------------------------------------
  // the bit-serial CRC
  // ------------------------------------------------------------------------

  function Xor(a: bv32, b: bv32): bv32 {
    a ^ b
  }

  /** One step of the register: the bit that leaves feeds back into the taps. */
  function Shift(c: bv32): bv32 {
    if c & 1 == 1 then 0xedb88320 ^ (c >> 1) else c >> 1
  }

  function Low(w: bv32): bv32 {
    w & 1
  }

  function Half(w: bv32): bv32 {
    w >> 1
  }

  function LowByte(x: bv32): bv32 {
    x & 0xff
  }

  function HighBytes(x: bv32): bv32 {
    x >> 8
  }

  predicate Small(q: bv32, n: nat) {
    if n == 0 then q == 0 else if n == 1 then q < 0x100 else if n == 2 then q < 0x10000 else if n == 3 then q < 0x1000000 else true
  }

  function Up(q: bv32): bv32 {
    q << 8
  }

  /** The CRC's register: 32 bits, exclusive or, eight steps a byte. */
  function Line(): Reg<bv32> {
    Reg(Xor, 0, Shift, 8, Low, Half, Small, Up)
  }

  function WordOf(b: bv8): bv32 {
    b as bv32
  }

  /** The register after a message, one bit at a time, each byte's lowest bit first. */
  function Register(c: bv32, bytes: Bytes): bv32 {
    if bytes == [] then c else Enter(Line(), Register(c, bytes[..|bytes| - 1]), WordOf(bytes[|bytes| - 1]), 8)
  }

  /** Register preset to ones, result complemented. */
  function Crc(bytes: Bytes): bv32 {
    Xor(Register(0xffffffff, bytes), 0xffffffff)
  }

  // ------------------------------------------------------------------------
  // the laws, bit by bit
  // ------------------------------------------------------------------------

  lemma LowBit(x: bv32, y: bv32)
    ensures (x ^ y) & 1 == 1 <==> (x & 1 == 1) != (y & 1 == 1)
  {
  }

  lemma RestBits(x: bv32, y: bv32)
    ensures (x ^ y) >> 1 == (x >> 1) ^ (y >> 1)
  {
  }

  lemma TapsBoth(a: bv32, b: bv32)
    ensures a ^ b == (0xedb88320 ^ a) ^ (0xedb88320 ^ b)
  {
  }

  lemma TapsLeft(a: bv32, b: bv32)
    ensures 0xedb88320 ^ (a ^ b) == (0xedb88320 ^ a) ^ b
  {
  }

  lemma TapsRight(a: bv32, b: bv32)
    ensures 0xedb88320 ^ (a ^ b) == a ^ (0xedb88320 ^ b)
  {
  }

  lemma ShiftXor(x: bv32, y: bv32)
    ensures Shift(Xor(x, y)) == Xor(Shift(x), Shift(y))
  {
    LowBit(x, y);
    RestBits(x, y);
    TapsBoth(x >> 1, y >> 1);
    TapsLeft(x >> 1, y >> 1);
    TapsRight(x >> 1, y >> 1);
  }

  /** The polynomial's top bit tells what left, so nothing is lost. */
  lemma StepLosesNothing(x: bv32, y: bv32)
    requires (if x & 1 == 1 then 0xedb88320 ^ (x >> 1) else x >> 1) == (if y & 1 == 1 then 0xedb88320 ^ (y >> 1) else y >> 1)
    ensures x == y
  {
  }

  lemma ShiftInjective(x: bv32, y: bv32)
    ensures Shift(x) == Shift(y) ==> x == y
  {
    if Shift(x) == Shift(y) {
      StepLosesNothing(x, y);
    }
  }

  lemma Associates(a: bv32, b: bv32, c: bv32)
    ensures (a ^ b) ^ c == a ^ (b ^ c)
    ensures b ^ c == c ^ b
  {
  }

  lemma XorRegroup(a: bv32, b: bv32, c: bv32)
    ensures Xor(Xor(a, b), c) == Xor(a, Xor(b, c)) && Xor(b, c) == Xor(c, b)
  {
    Associates(a, b, c);
  }

  lemma SameWhenZero(a: bv32, b: bv32)
    ensures a ^ b == 0 <==> a == b
    ensures a ^ 0 == a && 0 ^ a == a
  {
  }

  lemma XorSame(a: bv32, b: bv32)
    ensures Xor(a, b) == 0 <==> a == b
    ensures Xor(a, 0) == a && Xor(0, a) == a
  {
    SameWhenZero(a, b);
  }

  lemma BitLeaves(v: bv32)
    ensures (v ^ (v & 1)) & 1 == 0 && (v ^ (v & 1)) >> 1 == v >> 1
  {
  }

  lemma ShiftHalves(v: bv32)
    ensures Shift(Xor(v, Low(v))) == Half(v)
  {
    BitLeaves(v);
  }

  lemma AddingHolds()
    ensures ZeroLaw(Line()) && SameLaw(Line())
  {
    hide Xor, Shift, Low, Half;
    forall a, b ensures Xor(a, 0) == a && Xor(0, a) == a && (Xor(a, b) == 0 <==> a == b) { XorSame(a, b); }
  }

  lemma RegroupHolds()
    ensures RegroupLaw(Line())
  {
    hide Xor, Shift, Low, Half;
    forall a, b, c ensures Regroups(Line(), a, b, c) { XorRegroup(a, b, c); }
  }

  lemma StepHolds()
    ensures LinearLaw(Line()) && InjectiveLaw(Line()) && HalfLaw(Line())
  {
    hide Xor, Shift, Low, Half;
    forall a, b ensures Shift(Xor(a, b)) == Xor(Shift(a), Shift(b)) { ShiftXor(a, b); }
    forall a, b ensures Shift(a) == Shift(b) ==> a == b { ShiftInjective(a, b); }
    forall v ensures Shift(Xor(v, Low(v))) == Half(v) { ShiftHalves(v); }
  }

  lemma RegisterLaws()
    ensures Laws(Line()) && HalfLaw(Line())
  {
    hide ZeroLaw, SameLaw, RegroupLaw, LinearLaw, InjectiveLaw, HalfLaw;
    AddingHolds();
    RegroupHolds();
    StepHolds();
  }

  // ------------------------------------------------------------------------
  // eight steps at once
  // ------------------------------------------------------------------------

  lemma HalfEight(x: bv32)
    ensures x >> 1 >> 1 >> 1 >> 1 >> 1 >> 1 >> 1 >> 1 == x >> 8
  {
  }

  lemma HalvedEight(x: bv32)
    ensures Half(Half(Half(Half(Half(Half(Half(Half(x)))))))) == HighBytes(x)
  {
    HalfEight(x);
  }

  lemma DownEight(x: bv32)
    ensures Down(Line(), x, 8) == HighBytes(x)
  {
    hide Half, Shift, Xor, Low, HighBytes;
    Downs(x);
    HalvedEight(x);
  }

  lemma Downs(x: bv32)
    ensures Down(Line(), x, 0) == x && Down(Line(), x, 1) == Half(x) && Down(Line(), x, 2) == Half(Half(x))
    ensures Down(Line(), x, 3) == Half(Half(Half(x))) && Down(Line(), x, 4) == Half(Half(Half(Half(x))))
    ensures Down(Line(), x, 5) == Half(Half(Half(Half(Half(x))))) && Down(Line(), x, 6) == Half(Half(Half(Half(Half(Half(x))))))
    ensures Down(Line(), x, 7) == Half(Half(Half(Half(Half(Half(Half(x)))))))
    ensures Down(Line(), x, 8) == Half(Half(Half(Half(Half(Half(Half(Half(x))))))))
  {
    hide Half, Shift, Xor, Low;
    DownOne(Line(), x, 0, x);
    DownOne(Line(), x, 1, Half(x));
    DownOne(Line(), x, 2, Half(Half(x)));
    DownOne(Line(), x, 3, Half(Half(Half(x))));
    DownOne(Line(), x, 4, Half(Half(Half(Half(x)))));
    DownOne(Line(), x, 5, Half(Half(Half(Half(Half(x))))));
    DownOne(Line(), x, 6, Half(Half(Half(Half(Half(Half(x)))))));
    DownOne(Line(), x, 7, Half(Half(Half(Half(Half(Half(Half(x))))))));
  }

  lemma LowClear(x: bv32)
    requires x & 0xff == 0
    ensures x & 1 == 0 && (x >> 1) & 1 == 0 && (x >> 1 >> 1) & 1 == 0 && (x >> 1 >> 1 >> 1) & 1 == 0
    ensures (x >> 1 >> 1 >> 1 >> 1) & 1 == 0 && (x >> 1 >> 1 >> 1 >> 1 >> 1) & 1 == 0
    ensures (x >> 1 >> 1 >> 1 >> 1 >> 1 >> 1) & 1 == 0 && (x >> 1 >> 1 >> 1 >> 1 >> 1 >> 1 >> 1) & 1 == 0
  {
  }

  lemma LowsClear(x: bv32)
    requires LowByte(x) == 0
    ensures Low(x) == 0 && Low(Half(x)) == 0 && Low(Half(Half(x))) == 0 && Low(Half(Half(Half(x)))) == 0
    ensures Low(Half(Half(Half(Half(x))))) == 0 && Low(Half(Half(Half(Half(Half(x)))))) == 0
    ensures Low(Half(Half(Half(Half(Half(Half(x))))))) == 0 && Low(Half(Half(Half(Half(Half(Half(Half(x)))))))) == 0
  {
    LowClear(x);
  }

  /** With the low byte clear, eight steps only move the word down. */
  lemma HighSteps(x: bv32)
    requires LowByte(x) == 0
    ensures Steps(Line(), x, 8) == HighBytes(x)
  {
    hide Half, Shift, Xor, Low, LowByte, HighBytes, Laws, HalfLaw;
    RegisterLaws();
    Downs(x);
    LowsClear(x);
    forall j: nat | j < 8 ensures Low(Down(Line(), x, j)) == 0 {
      assert j == 0 || j == 1 || j == 2 || j == 3 || j == 4 || j == 5 || j == 6 || j == 7;
    }
    EvenSteps(Line(), x, 8);
    DownEight(x);
  }

  lemma SplitWord(x: bv32)
    ensures x == (x & 0xff) ^ (x & 0xffffff00)
    ensures (x & 0xffffff00) & 0xff == 0 && (x & 0xffffff00) >> 8 == x >> 8
  {
  }

  function HighPart(x: bv32): bv32 {
    x & 0xffffff00
  }

  lemma SplitXor(x: bv32)
    ensures x == Xor(LowByte(x), HighPart(x))
  {
    SplitWord(x);
  }

  lemma HighPartSplits(x: bv32)
    ensures LowByte(HighPart(x)) == 0 && HighBytes(HighPart(x)) == HighBytes(x)
  {
    SplitWord(x);
  }

  lemma HighPartSteps(x: bv32)
    ensures Steps(Line(), HighPart(x), 8) == HighBytes(x)
  {
    hide Half, Shift, Xor, Low, LowByte, HighBytes, HighPart;
    HighPartSplits(x);
    HighSteps(HighPart(x));
  }

  /** The table step: eight steps act on the low byte and move the rest down. */
  lemma TableStep(x: bv32)
    ensures Steps(Line(), x, 8) == Xor(Steps(Line(), LowByte(x), 8), HighBytes(x))
  {
    hide Half, Shift, Xor, Low, LowByte, HighBytes, HighPart, Laws, HalfLaw;
    RegisterLaws();
    SplitXor(x);
    HighPartSteps(x);
    StepsAdd(Line(), LowByte(x), HighPart(x), 8);
  }

  lemma ByteIsByte(b: bv8)
    ensures WordOf(b) >> 8 == 0 && WordOf(b) < 0x100
  {
  }

  lemma ByteLeaves(b: bv8)
    ensures Down(Line(), WordOf(b), 8) == 0
  {
    DownEight(WordOf(b));
    ByteIsByte(b);
  }

  /** Eight message bits entered one by one are one byte added and eight steps. */
  lemma ByteEnters(c: bv32, b: bv8)
    ensures Enter(Line(), c, WordOf(b), 8) == Steps(Line(), Xor(c, WordOf(b)), 8)
  {
    hide Half, Shift, Xor, Low, WordOf;
    RegisterLaws();
    ByteLeaves(b);
    EnterByte(Line(), c, WordOf(b));
  }

  // ------------------------------------------------------------------------
  // the check value
  // ------------------------------------------------------------------------

  function EightShifts(c: bv32): bv32 {
    Shift(Shift(Shift(Shift(Shift(Shift(Shift(Shift(c))))))))
  }

  lemma EightIsSteps(c: bv32)
    ensures Steps(Line(), c, 8) == EightShifts(c)
  {
    hide Shift;
    var r := Line();
    assert Steps(r, c, 2) == Shift(Shift(c));
    assert Steps(r, c, 4) == Shift(Shift(Steps(r, c, 2)));
    assert Steps(r, c, 6) == Shift(Shift(Steps(r, c, 4)));
    assert Steps(r, c, 8) == Shift(Shift(Steps(r, c, 6)));
  }

  lemma OneDigit(bytes: Bytes, c: bv32, b: bv8, d: bv32)
    requires Register(0xffffffff, bytes) == c && EightShifts(c ^ WordOf(b)) == d
    ensures Register(0xffffffff, bytes + [b]) == d
  {
    hide Shift, EightShifts;
    var more := bytes + [b];
    assert more[..|more| - 1] == bytes && more[|more| - 1] == b;
    ByteEnters(c, b);
    EightIsSteps(c ^ WordOf(b));
  }

  lemma ThreeDigits(bytes: Bytes, c: bv32, x: bv8, d: bv32, y: bv8, e: bv32, z: bv8, f: bv32)
    requires Register(0xffffffff, bytes) == c
    requires EightShifts(c ^ WordOf(x)) == d && EightShifts(d ^ WordOf(y)) == e && EightShifts(e ^ WordOf(z)) == f
    ensures Register(0xffffffff, bytes + [x, y, z]) == f
  {
    hide Register, EightShifts, WordOf;
    OneDigit(bytes, c, x, d);
    OneDigit(bytes + [x], d, y, e);
    OneDigit(bytes + [x] + [y], e, z, f);
    assert bytes + [x] + [y] + [z] == bytes + [x, y, z];
  }

  lemma ShiftedFirst()
    ensures EightShifts(0xffffffff ^ WordOf(0x31)) == 0x7c231048
    ensures EightShifts(0x7c231048 ^ WordOf(0x32)) == 0xb0acbb32
    ensures EightShifts(0xb0acbb32 ^ WordOf(0x33)) == 0x77b79c2d
  {
  }

  lemma ShiftedSecond()
    ensures EightShifts(0x77b79c2d ^ WordOf(0x34)) == 0x641c1f5c
    ensures EightShifts(0x641c1f5c ^ WordOf(0x35)) == 0x340ac5e3
    ensures EightShifts(0x340ac5e3 ^ WordOf(0x36)) == 0xf68d2c9e
  {
  }

  lemma ShiftedThird()
    ensures EightShifts(0xf68d2c9e ^ WordOf(0x37)) == 0xaffc9660
    ensures EightShifts(0xaffc9660 ^ WordOf(0x38)) == 0x651f2550
    ensures EightShifts(0x651f2550 ^ WordOf(0x39)) == 0x340bc6d9
  {
  }

  /** The CRC-32 of the nine ASCII digits is the check value the polynomial is known by. */
  lemma CheckValue()
    ensures Crc([0x31, 0x32, 0x33, 0x34, 0x35, 0x36, 0x37, 0x38, 0x39]) == 0xcbf4_3926
  {
    hide Register, EightShifts, WordOf;
    Preset();
    ShiftedFirst();
    ShiftedSecond();
    ShiftedThird();
    ThreeDigits([], 0xffffffff, 0x31, 0x7c231048, 0x32, 0xb0acbb32, 0x33, 0x77b79c2d);
    ThreeDigits([] + [0x31, 0x32, 0x33], 0x77b79c2d, 0x34, 0x641c1f5c, 0x35, 0x340ac5e3, 0x36, 0xf68d2c9e);
    ThreeDigits([] + [0x31, 0x32, 0x33] + [0x34, 0x35, 0x36], 0xf68d2c9e, 0x37, 0xaffc9660, 0x38, 0x651f2550, 0x39, 0x340bc6d9);
    assert [] + [0x31, 0x32, 0x33] + [0x34, 0x35, 0x36] + [0x37, 0x38, 0x39]
        == [0x31, 0x32, 0x33, 0x34, 0x35, 0x36, 0x37, 0x38, 0x39 as bv8];
  }

  lemma Preset()
    ensures Register(0xffffffff, []) == 0xffffffff
  {
  }

  // ------------------------------------------------------------------------
  // the loops
  // ------------------------------------------------------------------------

  method EightSteps(start: bv32) returns (c: bv32)
    ensures c == Steps(Line(), start, 8)
  {
    c := start;
    for k := 0 to 8
      invariant c == Steps(Line(), start, k)
    {
      c := if c & 1 == 1 then 0xedb88320 ^ (c >> 1) else c >> 1;
    }
  }

  function Index(i: int): bv32
    requires 0 <= i < 256
  {
    i as bv32
  }

  /** Each entry is eight steps of its own index. */
  ghost predicate TableOf(t: seq<bv32>) {
    |t| == 256 && forall i :: 0 <= i < 256 ==> t[i] == Steps(Line(), Index(i), 8)
  }

  method BuildTable() returns (t: array<bv32>)
    ensures fresh(t) && TableOf(t[..])
  {
    t := new bv32[256];
    for i := 0 to 256
      invariant forall j :: 0 <= j < i ==> t[j] == Steps(Line(), Index(j), 8)
    {
      t[i] := EightSteps(Index(i));
    }
  }

  lemma IndexBack(y: bv32)
    requires y < 0x100
    ensures 0 <= y as int < 256 && Index(y as int) == y
  {
  }

  lemma LowByteSmall(x: bv32)
    ensures LowByte(x) < 0x100
  {
  }

  lemma ByteAbove(c: bv32, b: bv8)
    ensures HighBytes(Xor(c, WordOf(b))) == HighBytes(c)
  {
    UnderTheRest(c, b as bv32);
  }

  lemma UnderTheRest(c: bv32, b: bv32)
    requires b < 0x100
    ensures (c ^ b) >> 8 == c >> 8
  {
  }

  /** One round of the loop is one byte through the bit-serial register. */
  lemma RoundIsByte(c: bv32, b: bv8)
    ensures Xor(Steps(Line(), LowByte(Xor(c, WordOf(b))), 8), HighBytes(c)) == Enter(Line(), c, WordOf(b), 8)
  {
    hide Half, Shift, Xor, Low, LowByte, HighBytes, WordOf;
    ByteEnters(c, b);
    TableStep(Xor(c, WordOf(b)));
    ByteAbove(c, b);
  }

  method Lookup(t: array<bv32>, x: bv32) returns (e: bv32)
    requires TableOf(t[..])
    ensures e == Steps(Line(), LowByte(x), 8)
  {
    hide Half, Shift, Xor, Low, LowByte, Index;
    LowByteSmall(x);
    IndexBack(LowByte(x));
    var i := LowByte(x) as int;
    assert t[..][i] == Steps(Line(), Index(i), 8);
    e := t[i];
  }

  method Round(t: array<bv32>, c: bv32, b: bv8) returns (d: bv32)
    requires TableOf(t[..])
    ensures d == Enter(Line(), c, WordOf(b), 8)
  {
    hide Half, Shift, Xor, Low, LowByte, HighBytes, WordOf;
    RoundIsByte(c, b);
    var e := Lookup(t, Xor(c, WordOf(b)));
    d := Xor(e, HighBytes(c));
  }

  /** The table-driven loop computes the bit-serial CRC of every input. */
  method Compute(t: array<bv32>, bytes: Bytes) returns (r: bv32)
    requires TableOf(t[..])
    ensures r == Crc(bytes)
  {
    hide Half, Shift, Xor, Low, WordOf;
    var c: bv32 := 0xffffffff;
    for n := 0 to |bytes|
      invariant c == Register(0xffffffff, bytes[..n])
    {
      assert bytes[..n + 1][..n] == bytes[..n];
      c := Round(t, c, bytes[n]);
    }
    assert bytes[..|bytes|] == bytes;
    r := Xor(c, 0xffffffff);
  }

  // ------------------------------------------------------------------------
  // what it detects
  // ------------------------------------------------------------------------

  function Words(bytes: Bytes): seq<bv32> {
    seq(|bytes|, i requires 0 <= i < |bytes| => WordOf(bytes[i]))
  }

  lemma {:induction false} RegisterIsFeed(c: bv32, bytes: Bytes)
    ensures Register(c, bytes) == Feed(Line(), c, Words(bytes))
  {
    hide Half, Shift, Xor, Low, WordOf;
    if bytes == [] {
    } else {
      var last := |bytes| - 1;
      RegisterIsFeed(c, bytes[..last]);
      assert Words(bytes)[..last] == Words(bytes[..last]);
      ByteEnters(Register(c, bytes[..last]), bytes[last]);
    }
  }

  lemma MovedUp(q: bv32, u: bv32)
    requires q < 0x1000000 && u == q << 8
    ensures u & 0xff == 0 && u >> 8 == q
  {
  }

  lemma UpByte(q: bv32)
    requires q < 0x1000000
    ensures LowByte(Up(q)) == 0 && HighBytes(Up(q)) == q
  {
    var u := Up(q);
    MovedUp(q, u);
    hide Up;
  }

  lemma UpHigher(q: bv32)
    ensures q == 0 ==> q << 8 < 0x100
    ensures q < 0x100 ==> q << 8 < 0x10000
    ensures q < 0x10000 ==> q << 8 < 0x1000000
  {
  }

  lemma UpSteps(q: bv32)
    requires q < 0x1000000
    ensures Steps(Line(), Up(q), 8) == q
  {
    hide Half, Shift, Xor, Low, LowByte, HighBytes, Up;
    UpByte(q);
    HighSteps(Up(q));
  }

  lemma SmallCases(q: bv32, n: nat)
    requires n <= 3 && Small(q, n)
    ensures q < 0x1000000 && Small(Up(q), n + 1) && Small(q, 3)
  {
    UpHigher(q);
  }

  lemma UpSmall(q: bv32, n: nat)
    requires n <= 3 && Small(q, n)
    ensures Steps(Line(), Up(q), 8) == q && Small(Up(q), n + 1) && Small(q, 3)
  {
    hide Half, Shift, Xor, Low, Small, Up;
    SmallCases(q, n);
    UpSteps(q);
  }

  lemma UpHolds()
    ensures UpLaw(Line())
  {
    hide Half, Shift, Xor, Low, Small, Up;
    forall q, n: nat | n <= 3 && Small(q, n) ensures Steps(Line(), Up(q), 8) == q && Small(Up(q), n + 1) && Small(q, 3) {
      UpSmall(q, n);
    }
  }

  lemma AddsSmall(q: bv32, e: bv32)
    requires e < 0x100
    ensures q < 0x100 ==> q ^ e < 0x100
    ensures q < 0x10000 ==> q ^ e < 0x10000
    ensures q < 0x1000000 ==> q ^ e < 0x1000000
  {
  }

  lemma XorSmall(q: bv32, e: bv32, n: nat)
    ensures n >= 1 && Small(q, n) && Small(e, 1) ==> Small(Xor(q, e), n)
  {
    if Small(e, 1) {
      AddsSmall(q, e);
    }
  }

  lemma ZeroSmall(n: nat)
    ensures Small(0, n)
  {
  }

  lemma SmallHolds()
    ensures SmallLaw(Line())
  {
    hide Half, Shift, Xor, Low, Small, Up;
    forall n: nat ensures Small(0, n) { ZeroSmall(n); }
    forall q, e, n: nat ensures n >= 1 && Small(q, n) && Small(e, 1) ==> Small(Xor(q, e), n) { XorSmall(q, e, n); }
  }

  lemma UpIsNoByte(q: bv32, e: bv32)
    ensures Small(e, 1) && Small(q, 3) && Up(q) == e ==> q == 0 && e == 0
  {
  }

  lemma ApartHolds()
    ensures ApartLaw(Line())
  {
    hide Half, Shift, Xor, Low, Small, Up;
    forall q, e ensures Small(e, 1) && Small(q, 3) && Up(q) == e ==> q == 0 && e == 0 { UpIsNoByte(q, e); }
  }

  lemma RegisterIsBytewise()
    ensures Bytewise(Line())
  {
    hide Half, Shift, Xor, Low, Small, Up;
    UpHolds();
    SmallHolds();
    ApartHolds();
  }

  lemma BytesDiffer(a: bv8, b: bv8)
    ensures Small(Xor(WordOf(a), WordOf(b)), 1)
    ensures WordOf(a) == WordOf(b) ==> a == b
  {
    ByteIsByte(a);
    ByteIsByte(b);
    AddsSmall(WordOf(a), WordOf(b));
  }

  lemma WordsDiffer(v: Bytes, w: Bytes)
    requires |v| == |w|
    ensures Words(v) == Words(w) ==> v == w
    ensures |Words(v)| == |v| && |Words(w)| == |w|
    ensures forall k :: 0 <= k < |v| ==> Small(Xor(Words(v)[k], Words(w)[k]), 1)
  {
    hide Half, Shift, Xor, Low, Small, WordOf;
    forall k | 0 <= k < |v|
      ensures Small(Xor(Words(v)[k], Words(w)[k]), 1)
      ensures Words(v)[k] == Words(w)[k] ==> v[k] == w[k]
    {
      BytesDiffer(v[k], w[k]);
    }
  }

  lemma OnesCancel(x: bv32, y: bv32)
    ensures Xor(x, 0xffffffff) == Xor(y, 0xffffffff) ==> x == y
  {
  }

  lemma WordsConcat(a: Bytes, b: Bytes)
    ensures Words(a + b) == Words(a) + Words(b)
  {
  }

  lemma WindowDetected(pre: Bytes, v: Bytes, w: Bytes, post: Bytes)
    requires |v| == |w| <= 4 && v != w
    ensures Crc(pre + v + post) != Crc(pre + w + post)
  {
    hide Half, Shift, Xor, Low, Small, Up, WordOf, Register, Feed, Words, Laws, Bytewise, HalfLaw;
    var ones: bv32 := 0xffffffff;
    RegisterLaws();
    RegisterIsBytewise();
    RegisterIsFeed(ones, pre + v + post);
    RegisterIsFeed(ones, pre + w + post);
    WordsConcat(pre + v, post);
    WordsConcat(pre + w, post);
    WordsConcat(pre, v);
    WordsConcat(pre, w);
    WordsDiffer(v, w);
    BurstSeen(Line(), ones, Words(pre), Words(v), Words(w), Words(post));
    OnesCancel(Register(ones, pre + v + post), Register(ones, pre + w + post));
  }

  lemma ThreeParts(s: Bytes, lo: nat, hi: nat)
    requires lo <= hi <= |s|
    ensures s == s[..lo] + s[lo..hi] + s[hi..]
  {
    assert s[..hi] == s[..lo] + s[lo..hi];
  }

  /** Two inputs of one length that differ only inside one window of four bytes never share a CRC. */
  lemma BurstDetected(a: Bytes, b: Bytes, i: nat)
    requires |a| == |b| && a != b
    requires forall j :: 0 <= j < |a| && !(i <= j < i + 4) ==> a[j] == b[j]
    ensures Crc(a) != Crc(b)
  {
    var lo := if i <= |a| then i else |a|;
    var hi := if i + 4 <= |a| then i + 4 else |a|;
    assert a[..lo] == b[..lo] && a[hi..] == b[hi..];
    ThreeParts(a, lo, hi);
    ThreeParts(b, lo, hi);
    assert a[lo..hi] == b[lo..hi] ==> a == b;
    WindowDetected(a[..lo], a[lo..hi], b[lo..hi], a[hi..]);
  }
}
