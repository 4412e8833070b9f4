/** The word-packed bitset of bitset.go, updated in place, against finite sets of naturals. */
module Bitset {
  import opened Words

  predicate Has(b: seq<bv64>, pos: nat)
    requires pos < 64 * |b|
  {
    Bit(b[pos / 64], pos % 64)
  }

  /** The positions whose bit is set. */
  ghost function Members(b: seq<bv64>): set<nat> {
    set pos | 0 <= pos < 64 * |b| && Has(b, pos)
  }

  lemma Position(major: nat, minor: nat)
    requires minor < 64
    ensures (64 * major + minor) / 64 == major && (64 * major + minor) % 64 == minor
  {
  }

  /** Changing one bit of one word adds that position or takes it away. */
  lemma MembersAfterChange(b: seq<bv64>, b': seq<bv64>, pos: nat, on: bool)
    requires pos < 64 * |b| && |b'| == |b|
    requires forall k | 0 <= k < |b| && k != pos / 64 :: b'[k] == b[k]
    requires forall i | 0 <= i < 64 :: Bit(b'[pos / 64], i) <==> if i == pos % 64 then on else Bit(b[pos / 64], i)
    ensures Members(b') == if on then Members(b) + {pos} else Members(b) - {pos}
  {
    forall q | 0 <= q < 64 * |b|
      ensures Has(b', q) <==> if q == pos then on else Has(b, q)
    {
      assert Bit(b'[q / 64], q % 64) <==> if q == pos then on else Bit(b[q / 64], q % 64);
    }
  }

  lemma ZerosAreEmpty(b: seq<bv64>)
    requires forall i | 0 <= i < |b| :: b[i] == 0
    ensures Members(b) == {}
  {
    forall pos | 0 <= pos < 64 * |b| ensures !Has(b, pos) { ZeroHasNoBit(pos % 64); }
  }

  /** Two bitsets of one size with the same members are the same words. */
  lemma SameMembersSameWords(b: seq<bv64>, c: seq<bv64>)
    requires |b| == |c| && Members(b) == Members(c)
    ensures b == c
  {
    forall k | 0 <= k < |b| ensures b[k] == c[k] {
      forall i | 0 <= i < 64 ensures Bit(b[k], i) <==> Bit(c[k], i) {
        Position(k, i);
        assert Has(b, 64 * k + i) <==> Has(c, 64 * k + i) by {
          assert 64 * k + i in Members(b) <==> 64 * k + i in Members(c);
        }
      }
      EveryWordBelow(b[k]);
      EveryWordBelow(c[k]);
      SameLowBits(b[k], c[k], 64);
    }
  }

  // ---------------------------------------------------------------- counting

  predicate HasAbove(word: bv64, base: nat, pos: nat)
    requires base <= pos
  {
    Bit(word, pos - base)
  }

  ghost function MembersFrom(word: bv64, base: nat, n: nat): set<nat> {
    set pos | base <= pos < base + n && HasAbove(word, base, pos)
  }

  lemma {:induction false} CardinalityOfWord(word: bv64, base: nat, n: nat)
    ensures |MembersFrom(word, base, n)| == CountBelow(word, n)
    decreases n
  {
    if n > 0 {
      CardinalityOfWord(word, base, n - 1);
      var top := base + n - 1;
      assert HasAbove(word, base, top) <==> Bit(word, n - 1);
      assert MembersFrom(word, base, n) == MembersFrom(word, base, n - 1) + (if Bit(word, n - 1) then {top} else {});
    } else {
      assert MembersFrom(word, base, 0) == {};
    }
  }

  /** One more word adds as many members as it has bits. */
  lemma CardinalityGrows(b: seq<bv64>, word: bv64)
    ensures |Members(b + [word])| == |Members(b)| + Ones(word, 64)
  {
    var b', extra := b + [word], MembersFrom(word, 64 * |b|, 64);
    forall pos | 0 <= pos < 64 * |b'|
      ensures Has(b', pos) <==> if pos < 64 * |b| then Has(b, pos) else HasAbove(word, 64 * |b|, pos)
    {
      if pos >= 64 * |b| { Position(|b|, pos - 64 * |b|); }
    }
    assert Members(b') == Members(b) + extra;
    assert Members(b) !! extra;
    CardinalityOfWord(word, 64 * |b|, 64);
    OnesIsCount(word, 64);
  }

  // ---------------------------------------------------------------- hashing

  function XorAll(b: seq<bv64>, hash: bv64): bv64
    decreases |b|
  {
    if |b| == 0 then hash else XorAll(b[..|b| - 1], hash) ^ b[|b| - 1]
  }

  ghost function HashOf(b: seq<bv64>): bv64 {
    XorAll(b, (|Members(b)| % 0x1_0000_0000_0000_0000) as bv64)
  }

  /** Equal sets of one size land in one bucket. */
  lemma EqualSetsHashEqually(b: seq<bv64>, c: seq<bv64>)
    requires |b| == |c| && Members(b) == Members(c)
    ensures HashOf(b) == HashOf(c)
  {
    SameMembersSameWords(b, c);
  }

  // ---------------------------------------------------------------- the operations

  method NewBitset(bits: nat) returns (b: array<bv64>)
    ensures fresh(b) && bits <= 64 * b.Length < bits + 64
    ensures Members(b[..]) == {}
  {
    var extra := 0;
    if bits % 64 != 0 {
      extra := 1;
    }
    var chunks := bits / 64 + extra;
    b := new bv64[chunks](_ => 0);
    ZerosAreEmpty(b[..]);
  }

  method Clone(b: array<bv64>) returns (c: array<bv64>)
    ensures fresh(c) && c[..] == b[..]
  {
    c := new bv64[b.Length];
    for i := 0 to b.Length
      invariant c[..i] == b[..i]
    {
      c[i] := b[i];
    }
  }

  method Set(b: array<bv64>, pos: nat)
    requires pos < 64 * b.Length
    modifies b
    ensures Members(b[..]) == old(Members(b[..])) + {pos}
  {
    var major, minor := pos / 64, pos % 64;
    var word := WithBit(b[major], minor);
    b[major] := word;
    MembersAfterChange(old(b[..]), b[..], pos, true);
  }

  method Clear(b: array<bv64>, pos: nat)
    requires pos < 64 * b.Length
    modifies b
    ensures Members(b[..]) == old(Members(b[..])) - {pos}
  {
    var major, minor := pos / 64, pos % 64;
    var word := WithoutBit(b[major], minor);
    b[major] := word;
    MembersAfterChange(old(b[..]), b[..], pos, false);
  }

  method Get(b: array<bv64>, pos: nat) returns (isSet: bool)
    requires pos < 64 * b.Length
    ensures isSet <==> pos in Members(b[..])
  {
    var major, minor := pos / 64, pos % 64;
    isSet := HasBit(b[major], minor);
    assert isSet <==> Has(b[..], pos);
  }

  method Popcnt(b: array<bv64>) returns (total: nat)
    ensures total == |Members(b[..])|
  {
    total := 0;
    assert Members(b[..0]) == {};
    for i := 0 to b.Length
      invariant total == |Members(b[..i])|
    {
      var count := CountWord(b[i]);
      CardinalityGrows(b[..i], b[i]);
      assert b[..i] + [b[i]] == b[..i + 1];
      total := total + count;
    }
    assert b[..b.Length] == b[..];
  }

  method Hash(b: array<bv64>) returns (hash: bv64)
    ensures hash == HashOf(b[..])
  {
    var count := Popcnt(b);
    hash := (count % 0x1_0000_0000_0000_0000) as bv64;
    ghost var start := hash;
    for i := 0 to b.Length
      invariant hash == XorAll(b[..i], start)
    {
      assert b[..i + 1][..i] == b[..i];
      hash := hash ^ b[i];
    }
    assert b[..b.Length] == b[..];
  }

  method Equals(b: array<bv64>, c: array<bv64>) returns (same: bool)
    ensures same <==> b[..] == c[..]
    ensures b.Length == c.Length ==> (same <==> Members(b[..]) == Members(c[..]))
  {
    if b.Length != c.Length {
      return false;
    }
    for i := 0 to b.Length
      invariant forall k | 0 <= k < i :: b[k] == c[k]
    {
      if b[i] != c[i] {
        if Members(b[..]) == Members(c[..]) { SameMembersSameWords(b[..], c[..]); }
        return false;
      }
    }
    return true;
  }
}
