/** One word of the bitset of bitset.go: its bits, and the bit-parallel count of them.

    Facts about words are stated about named words rather than about expressions, and few at a time: that is
    the form in which the solver keeps them cheap.
  */
module Words {

  // ---------------------------------------------------------------- one word

  const TOP: bv64 := 0x8000_0000_0000_0000

  predicate Head(word: bv64) { word & 1 != 0 }

  function Tail(word: bv64): bv64 { word >> 1 }

  /** Bit i of a word, by shifting it down to the lowest place. */
  predicate Bit(word: bv64, i: nat)
    decreases i
  {
    if i == 0 then Head(word) else Bit(Tail(word), i - 1)
  }

  function Shifted(i: nat): bv64
    requires i < 64
  {
    1 << Place(i)
  }

  /** A number of places as a shift takes it, and back. */
  function Place(i: nat): bv6
    requires i < 64
  {
    i as bv6
  }

  function Number(p: bv6): nat { p as nat }

  /** The same word by doubling; ShiftIsMask says so. */
  function Mask(i: nat): bv64 {
    if i == 0 then 1 else Double(Mask(i - 1))
  }

  function Double(m: bv64): bv64 { m << 1 }

  lemma OnePlaceUp(p: bv6)
    requires p < 63
    ensures Number(p + 1) == Number(p) + 1
  {
  }

  lemma PlaceOfNumber(p: bv6)
    ensures Number(p) < 64 && Place(Number(p)) == p
  {
  }

  lemma NumberOfPlace(i: nat)
    requires i < 64
    ensures Number(Place(i)) == i
  {
  }

  lemma PlaceBelowTop(i: nat)
    requires i < 63
    ensures Place(i) < 63
  {
  }

  lemma NextPlace(i: nat)
    requires i < 63
    ensures Place(i + 1) == Place(i) + 1
  {
    PlaceBelowTop(i);
    NumberOfPlace(i);
    OnePlaceUp(Place(i));
    PlaceOfNumber(Place(i) + 1);
  }

  lemma ShiftOneFurther(p: bv6)
    requires p < 63
    ensures (1 as bv64) << (p + 1) == Double((1 as bv64) << p)
  {
  }

  lemma ShiftDoubles(i: nat)
    requires i < 63
    ensures Shifted(i + 1) == Double(Shifted(i))
  {
    PlaceBelowTop(i);
    NextPlace(i);
    ShiftOneFurther(Place(i));
  }

  lemma {:induction false} ShiftIsMask(i: nat)
    requires i < 64
    ensures Shifted(i) == Mask(i)
  {
    if i > 0 {
      ShiftIsMask(i - 1);
      ShiftDoubles(i - 1);
    }
  }

  lemma ShiftKeepsTopClear(i: nat)
    requires i < 63
    ensures Clear(Shifted(i), TOP)
  {
    PlaceBelowTop(i);
  }

  lemma MaskKeepsTopClear(i: nat)
    requires i < 63
    ensures Clear(Mask(i), TOP)
  {
    ShiftIsMask(i);
    ShiftKeepsTopClear(i);
  }

  ghost predicate Clear(word: bv64, mask: bv64) {
    word & mask == 0
  }

  predicate Tests(word: bv64, mask: bv64) { word & mask != 0 }

  function With(word: bv64, mask: bv64): bv64 { word | mask }

  function Without(word: bv64, mask: bv64): bv64 { word & !mask }

  lemma TestsUnderShift(word: bv64, m: bv64)
    requires Clear(m, TOP)
    ensures Tests(word, Double(m)) <==> Tests(Tail(word), m)
  {
  }

  lemma WithTail(word: bv64, m: bv64)
    requires Clear(m, TOP)
    ensures Tail(With(word, Double(m))) == With(Tail(word), m)
  {
  }

  lemma WithHead(word: bv64, m: bv64)
    ensures Head(With(word, Double(m))) <==> Head(word)
  {
  }

  lemma WithLowest(word: bv64)
    ensures Tail(With(word, 1)) == Tail(word)
  {
  }

  lemma WithLowestHead(word: bv64)
    ensures Head(With(word, 1))
  {
  }

  lemma WithoutTail(word: bv64, m: bv64)
    requires Clear(m, TOP)
    ensures Tail(Without(word, Double(m))) == Without(Tail(word), m)
  {
  }

  lemma WithoutHead(word: bv64, m: bv64)
    ensures Head(Without(word, Double(m))) <==> Head(word)
  {
  }

  lemma WithoutLowest(word: bv64)
    ensures Tail(Without(word, 1)) == Tail(word)
  {
  }

  lemma WithoutLowestHead(word: bv64)
    ensures !Head(Without(word, 1))
  {
  }

  /** Testing a word against 1 << i looks at bit i. */
  lemma {:induction false} TestBit(word: bv64, i: nat)
    requires i < 64
    ensures Tests(word, Mask(i)) <==> Bit(word, i)
    decreases i
  {
    if i > 0 {
      MaskKeepsTopClear(i - 1);
      TestsUnderShift(word, Mask(i - 1));
      TestBit(Tail(word), i - 1);
    }
  }

  lemma SetLowest(word: bv64, b: nat)
    ensures Bit(With(word, 1), b) <==> Bit(word, b) || b == 0
  {
    if b == 0 { WithLowestHead(word); } else { WithLowest(word); }
  }

  lemma ClearLowest(word: bv64, b: nat)
    ensures Bit(Without(word, 1), b) <==> Bit(word, b) && b != 0
  {
    if b == 0 { WithoutLowestHead(word); } else { WithoutLowest(word); }
  }

  lemma SetHigher(word: bv64, m: bv64, b: nat)
    requires Clear(m, TOP)
    ensures Bit(With(word, Double(m)), b) <==> if b == 0 then Head(word) else Bit(With(Tail(word), m), b - 1)
  {
    if b == 0 { WithHead(word, m); } else { WithTail(word, m); }
  }

  lemma ClearHigher(word: bv64, m: bv64, b: nat)
    requires Clear(m, TOP)
    ensures Bit(Without(word, Double(m)), b) <==> if b == 0 then Head(word) else Bit(Without(Tail(word), m), b - 1)
  {
    if b == 0 { WithoutHead(word, m); } else { WithoutTail(word, m); }
  }

  /** Setting bit a changes bit a and no other. */
  lemma {:induction false} SetBit(word: bv64, a: nat, b: nat)
    requires a < 64
    ensures Bit(With(word, Mask(a)), b) <==> Bit(word, b) || a == b
    decreases a
  {
    if a == 0 {
      SetLowest(word, b);
    } else {
      MaskKeepsTopClear(a - 1);
      SetHigher(word, Mask(a - 1), b);
      if b > 0 { SetBit(Tail(word), a - 1, b - 1); }
    }
  }

  /** Clearing bit a changes bit a and no other. */
  lemma {:induction false} ClearBit(word: bv64, a: nat, b: nat)
    requires a < 64
    ensures Bit(Without(word, Mask(a)), b) <==> Bit(word, b) && a != b
    decreases a
  {
    if a == 0 {
      ClearLowest(word, b);
    } else {
      MaskKeepsTopClear(a - 1);
      ClearHigher(word, Mask(a - 1), b);
      if b > 0 { ClearBit(Tail(word), a - 1, b - 1); }
    }
  }

  lemma {:induction false} ZeroHasNoBit(i: nat)
    ensures !Bit(0, i)
  {
    if i > 0 { ZeroHasNoBit(i - 1); }
  }

  lemma RestoreWord(v: bv64, w: bv64)
    requires Tail(v) == Tail(w) && (Head(v) <==> Head(w))
    ensures v == w
  {
  }

  /** Only the low n bits of the word can be set. */
  predicate Below(word: bv64, n: nat)
    decreases n
  {
    if n == 0 then word == 0 else Below(Tail(word), n - 1)
  }

  lemma BelowTail(word: bv64, n: nat)
    requires n > 0
    ensures Below(word, n) <==> Below(Tail(word), n - 1)
  {
  }

  lemma BelowPair(word: bv64, rest: bv64, n: nat)
    requires n >= 2 && rest == word >> 2
    ensures Below(word, n) <==> Below(rest, n - 2)
  {
    BelowTail(word, n);
    BelowTail(Tail(word), n - 1);
  }

  lemma BelowNibble(word: bv64, rest: bv64, n: nat)
    requires n >= 4 && rest == word >> 4
    ensures Below(word, n) <==> Below(rest, n - 4)
  {
    BelowPair(word, word >> 2, n);
    BelowPair(word >> 2, rest, n - 2);
  }

  lemma BelowByte(word: bv64, rest: bv64, n: nat)
    requires n >= 8 && rest == word >> 8
    ensures Below(word, n) <==> Below(rest, n - 8)
  {
    BelowNibble(word, word >> 4, n);
    BelowNibble(word >> 4, rest, n - 4);
  }

  lemma BelowShort(word: bv64, rest: bv64, n: nat)
    requires n >= 16 && rest == word >> 16
    ensures Below(word, n) <==> Below(rest, n - 16)
  {
    BelowByte(word, word >> 8, n);
    BelowByte(word >> 8, rest, n - 8);
  }

  lemma BelowHalf(word: bv64, rest: bv64, n: nat)
    requires n >= 32 && rest == word >> 32
    ensures Below(word, n) <==> Below(rest, n - 32)
  {
    BelowShort(word, word >> 16, n);
    BelowShort(word >> 16, rest, n - 16);
  }

  lemma EveryWordBelow(word: bv64)
    ensures Below(word, 64)
  {
    BelowHalf(word, word >> 32, 64);
    BelowHalf(word >> 32, 0, 32);
  }

  lemma {:induction false} SameLowBits(v: bv64, w: bv64, n: nat)
    requires Below(v, n) && Below(w, n) && AgreeBelow(v, w, n)
    ensures v == w
    decreases n
  {
    if n > 0 {
      TailsAgree(v, w, n);
      SameLowBits(Tail(v), Tail(w), n - 1);
      RestoreWord(v, w);
    }
  }

  ghost predicate AgreeBelow(v: bv64, w: bv64, n: nat) {
    forall i | 0 <= i < n :: Bit(v, i) <==> Bit(w, i)
  }

  lemma TailsAgree(v: bv64, w: bv64, n: nat)
    requires 0 < n && AgreeBelow(v, w, n)
    ensures AgreeBelow(Tail(v), Tail(w), n - 1) && (Head(v) <==> Head(w))
  {
    assert Bit(v, 0) <==> Bit(w, 0);
    forall i | 0 <= i < n - 1 ensures Bit(Tail(v), i) <==> Bit(Tail(w), i) {
      assert Bit(v, i + 1) <==> Bit(w, i + 1);
    }
  }

  // ---------------------------------------------------------------- counting the bits of one word

  function Pairs(v: bv64): bv64 { (v & 0x5555_5555_5555_5555) + ((v & 0xAAAA_AAAA_AAAA_AAAA) >> 1) }

  function Nibbles(v: bv64): bv64 { (v & 0x3333_3333_3333_3333) + ((v & 0xCCCC_CCCC_CCCC_CCCC) >> 2) }

  function Bytes(v: bv64): bv64 { (v & 0x0F0F_0F0F_0F0F_0F0F) + ((v & 0xF0F0_F0F0_F0F0_F0F0) >> 4) }

  /** Every byte of the result is the number of bits in that byte of the word. */
  function Fold(v: bv64): bv64 { Bytes(Nibbles(Pairs(v))) }

  /** The top byte of the product is the sum of the eight bytes. */
  function Product(x: bv64): bv64 { x * 0x0101_0101_0101_0101 }

  /** The bit-parallel count that popcnt makes of one word. */
  function ParallelCount(v: bv64): bv8 { TopByte(Product(Fold(v))) }

  function TopByte(p: bv64): bv8 { Low(p >> 56) }

  function Low(v: bv64): bv8 { (v & 0xFF) as bv8 }

  /** The number of bits among the low n, one at a time. */
  function Ones(word: bv64, n: nat): nat
    decreases n
  {
    if n == 0 then 0 else (if Head(word) then 1 else 0) + Ones(Tail(word), n - 1)
  }

  lemma OnesTail(word: bv64, tail: bv64, n: nat)
    requires n > 0 && tail == Tail(word)
    ensures Ones(word, n) == (if Head(word) then 1 else 0) + Ones(tail, n - 1)
  {
  }

  lemma {:induction false} OnesSplit(word: bv64, a: nat, b: nat, rest: bv64)
    requires rest == Down(word, a)
    ensures Ones(word, a + b) == Ones(word, a) + Ones(rest, b)
    decreases a
  {
    if a > 0 {
      OnesTail(word, Tail(word), a + b);
      OnesTail(word, Tail(word), a);
      OnesSplit(Tail(word), a - 1, b, rest);
    }
  }

  /** The word shifted down n times. */
  function Down(word: bv64, n: nat): bv64
    decreases n
  {
    if n == 0 then word else Down(Tail(word), n - 1)
  }

  lemma DownTail(word: bv64, tail: bv64, n: nat)
    requires n > 0 && tail == Tail(word)
    ensures Down(word, n) == Down(tail, n - 1)
  {
  }

  lemma DownPair(word: bv64, rest: bv64, n: nat)
    requires n >= 2 && rest == word >> 2
    ensures Down(word, n) == Down(rest, n - 2)
  {
    assert Down(word, n) == Down(Tail(word), n - 1) == Down(Tail(Tail(word)), n - 2);
  }

  lemma DownNibble(word: bv64, rest: bv64, n: nat)
    requires n >= 4 && rest == word >> 4
    ensures Down(word, n) == Down(rest, n - 4)
  {
    DownPair(word, word >> 2, n);
    DownPair(word >> 2, rest, n - 2);
  }

  lemma NibbleTwice(word: bv64, half: bv64, rest: bv64)
    requires half == word >> 4 && rest == word >> 8
    ensures rest == half >> 4
  {
  }

  lemma DownByte(word: bv64, rest: bv64)
    requires rest == word >> 8
    ensures Down(word, 8) == rest
  {
    var half := word >> 4;
    DownNibble(word, half, 8);
    NibbleTwice(word, half, rest);
    DownNibble(half, rest, 4);
  }

  // ---------------------------------------------------------------- small numbers as bytes

  /** The byte is the number n. */
  predicate IsNumber(byte: bv8, n: nat)
    decreases n
  {
    if n == 0 then byte == 0 else byte != 0 && IsNumber(byte - 1, n - 1)
  }

  lemma {:induction false} NumberValue(byte: bv8, n: nat)
    requires IsNumber(byte, n)
    ensures byte as int == n
    decreases n
  {
    if n > 0 { NumberValue(byte - 1, n - 1); }
  }

  lemma {:induction false} SumIsNumber(x: bv8, y: bv8, n: nat, m: nat)
    requires IsNumber(x, n) && IsNumber(y, m) && x <= 0x3F && y <= 0x3F
    ensures IsNumber(x + y, n + m)
    decreases m
  {
    if m > 0 { SumIsNumber(x, y - 1, n, m - 1); }
  }

  // ---------------------------------------------------------------- the parallel count is the count

  function One(v: bv64): bv8 { (v & 1) as bv8 }

  function Two(v: bv64): bv8 { One(v) + One(v >> 1) }

  function Four(v: bv64): bv8 { Two(v) + Two(v >> 2) }

  function Eight(v: bv64): bv8 { Four(v) + Four(v >> 4) }

  lemma OneIsCounted(v: bv64)
    ensures IsNumber(One(v), Ones(v, 1)) && One(v) <= 1
  {
    OnesTail(v, v >> 1, 1);
  }

  lemma TwoIsCounted(v: bv64)
    ensures IsNumber(Two(v), Ones(v, 2)) && Two(v) <= 2
  {
    OneIsCounted(v);
    OneIsCounted(v >> 1);
    DownTail(v, v >> 1, 1);
    OnesSplit(v, 1, 1, v >> 1);
    SumIsNumber(One(v), One(v >> 1), Ones(v, 1), Ones(v >> 1, 1));
  }

  lemma FourIsCounted(v: bv64)
    ensures IsNumber(Four(v), Ones(v, 4)) && Four(v) <= 4
  {
    TwoIsCounted(v);
    TwoIsCounted(v >> 2);
    DownPair(v, v >> 2, 2);
    OnesSplit(v, 2, 2, v >> 2);
    SumIsNumber(Two(v), Two(v >> 2), Ones(v, 2), Ones(v >> 2, 2));
  }

  lemma EightIsCounted(v: bv64)
    ensures IsNumber(Eight(v), Ones(v, 8)) && Eight(v) <= 8
  {
    NibblesAreCounted(v, v >> 4, Four(v), Four(v >> 4), Eight(v));
  }

  lemma NibblesAreCounted(v: bv64, w: bv64, x: bv8, y: bv8, sum: bv8)
    requires w == v >> 4 && x == Four(v) && y == Four(w) && sum == x + y
    ensures IsNumber(sum, Ones(v, 8)) && sum <= 8
  {
    FourIsCounted(v);
    FourIsCounted(w);
    DownNibble(v, w, 4);
    OnesSplit(v, 4, 4, w);
    NibbleCounts(x, y, sum, Ones(v, 4), Ones(w, 4));
  }

  lemma NibbleCounts(x: bv8, y: bv8, sum: bv8, n: nat, m: nat)
    requires IsNumber(x, n) && IsNumber(y, m) && x <= 4 && y <= 4 && sum == x + y
    ensures IsNumber(sum, n + m) && sum <= 8
  {
    SumIsNumber(x, y, n, m);
  }

  lemma PairsShift(v: bv64, p: bv64, v': bv64, p': bv64)
    requires p == Pairs(v) && p' == Pairs(v') && v' == v >> 8
    ensures p' == p >> 8
  {
  }

  lemma NibblesShift(v: bv64, p: bv64, v': bv64, p': bv64)
    requires p == Nibbles(v) && p' == Nibbles(v') && v' == v >> 8
    ensures p' == p >> 8
  {
  }

  lemma BytesShift(v: bv64, p: bv64, v': bv64, p': bv64)
    requires p == Bytes(v) && p' == Bytes(v') && v' == v >> 8
    ensures p' == p >> 8
  {
  }

  lemma StagesShift(v: bv64, p: bv64, q: bv64, r: bv64, v': bv64, p': bv64, q': bv64, r': bv64)
    requires p == Pairs(v) && q == Nibbles(p) && r == Bytes(q)
    requires p' == Pairs(v') && q' == Nibbles(p') && r' == Bytes(q') && v' == v >> 8
    ensures r' == r >> 8
  {
    PairsShift(v, p, v', p');
    NibblesShift(p, q, p', q');
    BytesShift(q, r, q', r');
  }

  /** Folding works byte by byte. */
  lemma FoldShift8(v: bv64, x: bv64, v': bv64, x': bv64)
    requires x == Fold(v) && v' == v >> 8 && x' == x >> 8
    ensures x' == Fold(v')
  {
    StagesShift(v, Pairs(v), Nibbles(Pairs(v)), x, v', Pairs(v'), Nibbles(Pairs(v')), Fold(v'));
  }

  lemma FoldByte(v: bv64)
    ensures Low(Fold(v)) == Eight(v)
  {
  }

  lemma FoldRoom(v: bv64)
    ensures Clear(Fold(v), 0xF0F0_F0F0_F0F0_F0F0)
  {
  }

  /** The word shifted down by n bytes. */
  function DownBytes(word: bv64, n: nat): bv64
    decreases n
  {
    if n == 0 then word else DownBytes(word >> 8, n - 1)
  }

  lemma {:induction false} OneByteMore(word: bv64, n: nat)
    ensures DownBytes(word, n + 1) == DownBytes(word, n) >> 8
    decreases n
  {
    if n > 0 { OneByteMore(word >> 8, n - 1); }
  }

  lemma {:induction false} FoldBytes(v: bv64, x: bv64, n: nat)
    requires x == Fold(v)
    ensures DownBytes(x, n) == Fold(DownBytes(v, n))
    decreases n
  {
    if n > 0 {
      FoldShift8(v, x, v >> 8, x >> 8);
      FoldBytes(v >> 8, x >> 8, n - 1);
    }
  }

  /** The byte is the number n, at most 8. */
  predicate Small(byte: bv8, n: nat) {
    byte <= 8 && IsNumber(byte, n)
  }

  /** The bytes of the word are the numbers n, each at most 8. */
  ghost predicate Holds(x: bv64, n: seq<nat>) {
    |n| == 8 && forall j | 0 <= j < 8 :: Small(Low(DownBytes(x, j)), n[j])
  }

  lemma SecondByte(x: bv64)
    ensures DownBytes(x, 1) == x >> 8
  {
    OneByteMore(x, 0);
  }

  lemma ThirdByte(x: bv64)
    ensures DownBytes(x, 2) == x >> 16
  {
    SecondByte(x);
    OneByteMore(x, 1);
  }

  lemma FourthByte(x: bv64)
    ensures DownBytes(x, 3) == x >> 24
  {
    ThirdByte(x);
    OneByteMore(x, 2);
  }

  lemma FifthByte(x: bv64)
    ensures DownBytes(x, 4) == x >> 32
  {
    FourthByte(x);
    OneByteMore(x, 3);
  }

  lemma SixthByte(x: bv64)
    ensures DownBytes(x, 5) == x >> 40
  {
    FifthByte(x);
    OneByteMore(x, 4);
  }

  lemma SeventhByte(x: bv64)
    ensures DownBytes(x, 6) == x >> 48
  {
    SixthByte(x);
    OneByteMore(x, 5);
  }

  lemma EighthByte(x: bv64)
    ensures DownBytes(x, 7) == x >> 56
  {
    SeventhByte(x);
    OneByteMore(x, 6);
  }

  /** Byte `a` is the sum of the bytes `b` and `c`, each the lowest of its word. */
  ghost predicate AddsUp(a: bv64, b: bv64, c: bv64) {
    Low(a) == Low(b) + Low(c)
  }

  ghost predicate Paired(x: bv64, y: bv64) {
    && AddsUp(y >> 8, x >> 8, x)
    && AddsUp(y >> 24, x >> 24, x >> 16)
    && AddsUp(y >> 40, x >> 40, x >> 32)
    && AddsUp(y >> 56, x >> 56, x >> 48)
  }

  ghost predicate Quartered(y: bv64, z: bv64) {
    AddsUp(z >> 24, y >> 24, y >> 8) && AddsUp(z >> 56, y >> 56, y >> 40)
  }

  ghost predicate Halved(z: bv64, p: bv64) {
    AddsUp(p >> 56, z >> 56, z >> 24)
  }

  ghost predicate TopByteIs(p: bv64, n: seq<nat>)
    requires |n| == 8
  {
    IsNumber(TopByte(p), Total(n))
  }

  ghost function Total(n: seq<nat>): nat
    requires |n| == 8
  {
    n[7] + n[6] + n[5] + n[4] + (n[3] + n[2] + n[1] + n[0])
  }

  lemma SumOfFour(a: bv8, b: bv8, c: bv8, d: bv8, ab: bv8, cd: bv8, abcd: bv8, i: nat, j: nat, k: nat, l: nat)
    requires a <= 8 && b <= 8 && c <= 8 && d <= 8
    requires IsNumber(a, i) && IsNumber(b, j) && IsNumber(c, k) && IsNumber(d, l)
    requires ab == a + b && cd == c + d && abcd == ab + cd
    ensures IsNumber(abcd, i + j + k + l) && abcd <= 32
  {
    SumIsNumber(a, b, i, j);
    SumIsNumber(c, d, k, l);
    SumIsNumber(ab, cd, i + j, k + l);
  }

  lemma LowBytes(x: bv64, n: seq<nat>)
    requires Holds(x, n)
    ensures Small(Low(x), n[0]) && Small(Low(x >> 8), n[1]) && Small(Low(x >> 16), n[2]) && Small(Low(x >> 24), n[3])
  {
    SecondByte(x);
    ThirdByte(x);
    FourthByte(x);
    assert Small(Low(DownBytes(x, 0)), n[0]) && Small(Low(DownBytes(x, 1)), n[1]);
    assert Small(Low(DownBytes(x, 2)), n[2]) && Small(Low(DownBytes(x, 3)), n[3]);
  }

  lemma HighBytes(x: bv64, n: seq<nat>)
    requires Holds(x, n)
    ensures Small(Low(x >> 32), n[4]) && Small(Low(x >> 40), n[5]) && Small(Low(x >> 48), n[6])
      && Small(Low(x >> 56), n[7])
  {
    FifthByte(x);
    SixthByte(x);
    SeventhByte(x);
    EighthByte(x);
    assert Small(Low(DownBytes(x, 4)), n[4]) && Small(Low(DownBytes(x, 5)), n[5]);
    assert Small(Low(DownBytes(x, 6)), n[6]) && Small(Low(DownBytes(x, 7)), n[7]);
  }

  lemma FourSmall(a: bv8, b: bv8, c: bv8, d: bv8, i: nat, j: nat, k: nat, l: nat)
    requires Small(a, i) && Small(b, j) && Small(c, k) && Small(d, l)
    ensures IsNumber((a + b) + (c + d), i + j + k + l) && (a + b) + (c + d) <= 32
  {
    var ab, cd := a + b, c + d;
    SumOfFour(a, b, c, d, ab, cd, ab + cd, i, j, k, l);
  }

  lemma LowFour(x: bv64, y: bv64, z: bv64, n: seq<nat>)
    requires Holds(x, n) && Paired(x, y) && Quartered(y, z)
    ensures IsNumber(Low(z >> 24), n[3] + n[2] + n[1] + n[0]) && Low(z >> 24) <= 32
  {
    LowBytes(x, n);
    FourSmall(Low(x >> 24), Low(x >> 16), Low(x >> 8), Low(x), n[3], n[2], n[1], n[0]);
  }

  lemma HighFour(x: bv64, y: bv64, z: bv64, n: seq<nat>)
    requires Holds(x, n) && Paired(x, y) && Quartered(y, z)
    ensures IsNumber(Low(z >> 56), n[7] + n[6] + n[5] + n[4]) && Low(z >> 56) <= 32
  {
    HighBytes(x, n);
    FourSmall(Low(x >> 56), Low(x >> 48), Low(x >> 40), Low(x >> 32), n[7], n[6], n[5], n[4]);
  }

  lemma AllEight(x: bv64, y: bv64, z: bv64, p: bv64, n: seq<nat>)
    requires Holds(x, n) && Paired(x, y) && Quartered(y, z) && Halved(z, p)
    ensures TopByteIs(p, n)
  {
    LowFour(x, y, z, n);
    HighFour(x, y, z, n);
    TwoHalves(TopByte(p), Low(z >> 56), Low(z >> 24), n);
  }

  lemma TwoHalves(sum: bv8, high: bv8, low: bv8, n: seq<nat>)
    requires |n| == 8 && sum == high + low && high <= 32 && low <= 32
    requires IsNumber(high, n[7] + n[6] + n[5] + n[4]) && IsNumber(low, n[3] + n[2] + n[1] + n[0])
    ensures IsNumber(sum, Total(n))
  {
    SumIsNumber(high, low, n[7] + n[6] + n[5] + n[4], n[3] + n[2] + n[1] + n[0]);
  }

  lemma PairsAdded(x: bv64)
    requires Clear(x, 0xF0F0_F0F0_F0F0_F0F0)
    ensures Paired(x, x * 0x101) && Clear(x * 0x101, 0xE0E0_E0E0_E0E0_E0E0)
  {
  }

  lemma QuartersAdded(y: bv64)
    requires Clear(y, 0xE0E0_E0E0_E0E0_E0E0)
    ensures Quartered(y, y * 0x1_0001) && Clear(y * 0x1_0001, 0xC0C0_C0C0_C0C0_C0C0)
  {
  }

  lemma HalvesAdded(z: bv64)
    requires Clear(z, 0xC0C0_C0C0_C0C0_C0C0)
    ensures Halved(z, z * 0x1_0000_0001)
  {
  }

  /** The one multiplication of the source adds up pairs, then quarters, then halves. */
  lemma ProductAddsUp(x: bv64)
    requires Clear(x, 0xF0F0_F0F0_F0F0_F0F0)
    ensures Paired(x, x * 0x101) && Quartered(x * 0x101, x * 0x101_0101)
      && Halved(x * 0x101_0101, x * 0x0101_0101_0101_0101)
  {
    forall y: bv64 | Clear(y, 0xE0E0_E0E0_E0E0_E0E0)
      ensures Quartered(y, y * 0x1_0001) && Clear(y * 0x1_0001, 0xC0C0_C0C0_C0C0_C0C0)
    {
      QuartersAdded(y);
    }
    forall z: bv64 | Clear(z, 0xC0C0_C0C0_C0C0_C0C0) ensures Halved(z, z * 0x1_0000_0001) {
      HalvesAdded(z);
    }
    PairsAdded(x);
  }

  lemma TopByteIsTotal(x: bv64, n: seq<nat>)
    requires Holds(x, n) && Clear(x, 0xF0F0_F0F0_F0F0_F0F0)
    ensures TopByteIs(Product(x), n)
  {
    forall y: bv64, z: bv64, p: bv64 | Paired(x, y) && Quartered(y, z) && Halved(z, p) ensures TopByteIs(p, n) {
      AllEight(x, y, z, p, n);
    }
    ProductAddsUp(x);
  }

  lemma ByteCounted(v: bv64, x: bv64)
    requires x == Fold(v)
    ensures Low(x) <= 8 && IsNumber(Low(x), Ones(v, 8))
  {
    FoldByte(v);
    EightIsCounted(v);
  }

  lemma ByteOfFold(v: bv64, x: bv64, j: nat)
    requires x == Fold(v)
    ensures Small(Low(DownBytes(x, j)), Ones(DownBytes(v, j), 8))
  {
    FoldBytes(v, x, j);
    ByteCounted(DownBytes(v, j), DownBytes(x, j));
  }

  /** The counts of the eight bytes of a word, lowest first. */
  ghost function ByteCounts(v: bv64): (r: seq<nat>)
    ensures |r| == 8 && forall j | 0 <= j < 8 :: r[j] == Ones(DownBytes(v, j), 8)
  {
    seq(8, j requires 0 <= j < 8 => Ones(DownBytes(v, j), 8))
  }

  lemma OnesByte(word: bv64, rest: bv64, n: nat)
    requires rest == word >> 8
    ensures Ones(word, 8 + n) == Ones(word, 8) + Ones(rest, n)
  {
    DownByte(word, rest);
    OnesSplit(word, 8, n, rest);
  }

  ghost function SumFrom(n: seq<nat>, i: nat): nat
    requires i <= |n|
    decreases |n| - i
  {
    if i == |n| then 0 else n[i] + SumFrom(n, i + 1)
  }

  lemma {:induction false} OnesAreByteCounts(v: bv64, n: seq<nat>, i: nat, w: bv64)
    requires |n| == 8 && i <= 8 && w == DownBytes(v, i)
    requires forall j | 0 <= j < 8 :: n[j] == Ones(DownBytes(v, j), 8)
    ensures Ones(w, 8 * (8 - i)) == SumFrom(n, i)
    decreases 8 - i
  {
    if i < 8 {
      OneByteMore(v, i);
      OnesAreByteCounts(v, n, i + 1, w >> 8);
      CountsOneByteMore(n, i, w, w >> 8, 8 * (7 - i));
    }
  }

  lemma CountsOneByteMore(n: seq<nat>, i: nat, w: bv64, rest: bv64, k: nat)
    requires i < |n| && rest == w >> 8 && n[i] == Ones(w, 8) && Ones(rest, k) == SumFrom(n, i + 1)
    ensures Ones(w, 8 + k) == SumFrom(n, i)
  {
    OnesByte(w, rest, k);
  }

  lemma SumIsTotal(n: seq<nat>)
    requires |n| == 8
    ensures SumFrom(n, 0) == Total(n)
  {
    assert SumFrom(n, 7) == n[7] + SumFrom(n, 8) == n[7];
    assert SumFrom(n, 5) == n[5] + SumFrom(n, 6) == n[5] + n[6] + SumFrom(n, 7);
    assert SumFrom(n, 3) == n[3] + SumFrom(n, 4) == n[3] + n[4] + SumFrom(n, 5);
    assert SumFrom(n, 1) == n[1] + SumFrom(n, 2) == n[1] + n[2] + SumFrom(n, 3);
  }

  lemma FoldHolds(v: bv64, n: seq<nat>)
    requires n == ByteCounts(v)
    ensures Holds(Fold(v), n)
  {
    forall j | 0 <= j < 8 ensures Small(Low(DownBytes(Fold(v), j)), n[j]) { ByteOfFold(v, Fold(v), j); }
  }

  lemma WordTotal(v: bv64, n: seq<nat>)
    requires n == ByteCounts(v)
    ensures Ones(v, 64) == Total(n)
  {
    OnesAreByteCounts(v, n, 0, v);
    SumIsTotal(n);
  }

  lemma TopByteIsCount(v: bv64, x: bv64, n: seq<nat>)
    requires x == Fold(v) && n == ByteCounts(v)
    ensures TopByteIs(Product(x), n)
  {
    FoldHolds(v, n);
    FoldRoom(v);
    TopByteIsTotal(x, n);
  }

  lemma ParallelNumber(v: bv64, n: seq<nat>)
    requires n == ByteCounts(v)
    ensures IsNumber(ParallelCount(v), Total(n))
  {
    TopByteIsCount(v, Fold(v), n);
  }

  /** The bit-parallel count is the number of bits of the word. */
  lemma ParallelCountIsOnes(v: bv64)
    ensures ParallelCount(v) as int == Ones(v, 64)
  {
    ParallelNumber(v, ByteCounts(v));
    WordTotal(v, ByteCounts(v));
    NumberValue(ParallelCount(v), Total(ByteCounts(v)));
  }

  // ---------------------------------------------------------------- counting from the top

  function CountBelow(word: bv64, n: nat): nat {
    if n == 0 then 0 else CountBelow(word, n - 1) + (if Bit(word, n - 1) then 1 else 0)
  }

  lemma {:induction false} CountFromBottom(word: bv64, tail: bv64, n: nat)
    requires tail == Tail(word) && n > 0
    ensures CountBelow(word, n) == (if Head(word) then 1 else 0) + CountBelow(tail, n - 1)
    decreases n
  {
    if n > 1 { CountFromBottom(word, tail, n - 1); }
  }

  lemma {:induction false} OnesIsCount(word: bv64, n: nat)
    ensures Ones(word, n) == CountBelow(word, n)
    decreases n
  {
    if n > 0 {
      OnesIsCount(Tail(word), n - 1);
      CountFromBottom(word, Tail(word), n);
    }
  }

  // ---------------------------------------------------------------- the operations on one word

  method WithBit(word: bv64, minor: nat) returns (w: bv64)
    requires minor < 64
    ensures forall i | 0 <= i < 64 :: Bit(w, i) <==> if i == minor then true else Bit(word, i)
  {
    var mask := Shifted(minor);
    ShiftIsMask(minor);
    w := With(word, mask);
    forall i | 0 <= i < 64 ensures Bit(w, i) <==> if i == minor then true else Bit(word, i) {
      SetBit(word, minor, i);
    }
  }

  method WithoutBit(word: bv64, minor: nat) returns (w: bv64)
    requires minor < 64
    ensures forall i | 0 <= i < 64 :: Bit(w, i) <==> if i == minor then false else Bit(word, i)
  {
    var mask := Shifted(minor);
    ShiftIsMask(minor);
    w := Without(word, mask);
    forall i | 0 <= i < 64 ensures Bit(w, i) <==> if i == minor then false else Bit(word, i) {
      ClearBit(word, minor, i);
    }
  }

  method HasBit(word: bv64, minor: nat) returns (isSet: bool)
    requires minor < 64
    ensures isSet <==> Bit(word, minor)
  {
    var mask := Shifted(minor);
    ShiftIsMask(minor);
    TestBit(word, minor);
    isSet := Tests(word, mask);
  }

  /** The count that one turn of popcnt's loop adds. */
  method CountWord(word: bv64) returns (count: nat)
    ensures count == Ones(word, 64)
  {
    var pairs := Pairs(word);
    var nibbles := Nibbles(pairs);
    var bytes := Bytes(nibbles);
    count := TopByte(Product(bytes)) as int;
    ParallelCountIsOnes(word);
  }
}
