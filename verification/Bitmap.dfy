/** Fixed-width bit sets: packed bytes that stand for a finite set of positions. */
module Bitmap {

  function LenFor(count: nat): (n: nat)
    ensures 8 * n - 7 <= count <= 8 * n
  {
    (count + 7) / 8
  }

  /** `1 << k`. */
  function Mask(k: nat): bv8
    requires k < 8
  {
    if k == 0 then 1 else if k == 1 then 2 else if k == 2 then 4 else if k == 3 then 8
    else if k == 4 then 16 else if k == 5 then 32 else if k == 6 then 64 else 128
  }

  function BitOf(b: bv8, k: nat): bool
    requires k < 8
  {
    b & Mask(k) != 0
  }

  function Get(bits: seq<bv8>, index: nat): bool {
    index / 8 < |bits| && BitOf(bits[index / 8], index % 8)
  }

  /** The set a bitmap stands for. */
  ghost function Members(bits: seq<bv8>): set<nat> {
    set i: nat | i < 8 * |bits| && Get(bits, i)
  }

  function Ones(b: bv8): nat {
    One(b, 0) + One(b, 1) + One(b, 2) + One(b, 3) + One(b, 4) + One(b, 5) + One(b, 6) + One(b, 7)
  }

  function One(b: bv8, k: nat): nat
    requires k < 8
  {
    if BitOf(b, k) then 1 else 0
  }

  /** Number of bits set, byte by byte. */
  function Count(bits: seq<bv8>): nat {
    if bits == [] then 0 else Count(bits[..|bits| - 1]) + Ones(bits[|bits| - 1])
  }

  lemma OrMask(b: bv8, j: nat, k: nat)
    requires j < 8 && k < 8
    ensures BitOf(b | Mask(j), k) <==> k == j || BitOf(b, k)
  {
    if k == j {
      OrSameMask(b, Mask(j));
    } else {
      MasksDisjoint(j, k);
      OrOtherMask(b, Mask(j), Mask(k));
    }
  }

  lemma MasksDisjoint(j: nat, k: nat)
    requires j < 8 && k < 8 && j != k
    ensures Mask(j) & Mask(k) == 0
  {
  }

  lemma OrSameMask(b: bv8, m: bv8)
    requires m != 0
    ensures (b | m) & m != 0
  {
  }

  lemma OrOtherMask(b: bv8, m: bv8, n: bv8)
    requires m & n == 0
    ensures (b | m) & n == b & n
  {
  }

  /** Setting a bit inserts its position and disturbs no other. */
  lemma SetInserts(bits: seq<bv8>, index: nat)
    requires index < 8 * |bits|
    ensures Members(bits[index / 8 := bits[index / 8] | Mask(index % 8)]) == Members(bits) + {index}
  {
    var after := bits[index / 8 := bits[index / 8] | Mask(index % 8)];
    forall i: nat | i < 8 * |bits|
      ensures Get(after, i) <==> i == index || Get(bits, i)
    {
      if i / 8 == index / 8 {
        OrMask(bits[index / 8], index % 8, i % 8);
      }
    }
  }

  lemma ZeroesAreEmpty(bits: seq<bv8>)
    requires forall i :: 0 <= i < |bits| ==> bits[i] == 0
    ensures Members(bits) == {}
  {
    forall i: nat | i < 8 * |bits| ensures !Get(bits, i) {
      assert bits[i / 8] == 0;
    }
  }

  /** The population count is the cardinality of the set. */
  lemma {:induction false} CountIsCardinality(bits: seq<bv8>)
    ensures Count(bits) == |Members(bits)|
  {
    hide Ones, OnesBelow, BitOf;
    if bits == [] {
      assert Members(bits) == {};
    } else {
      var n := |bits| - 1;
      CountIsCardinality(bits[..n]);
      LastByte(bits, 8);
      OnesBelowAll(bits[n]);
      MembersSplit(bits);
    }
  }

  lemma MembersSplit(bits: seq<bv8>)
    requires bits != []
    ensures Members(bits) == Members(bits[..|bits| - 1]) + LastMembers(bits, 8)
    ensures Members(bits[..|bits| - 1]) !! LastMembers(bits, 8)
  {
    var n := |bits| - 1;
    forall i: nat | i < 8 * n ensures Get(bits, i) == Get(bits[..n], i) {
      assert i / 8 < n && bits[..n][i / 8] == bits[i / 8];
    }
  }

  /** Positions of the last byte's first `k` bits that are set. */
  ghost function LastMembers(bits: seq<bv8>, k: nat): set<nat>
    requires bits != [] && k <= 8
  {
    set i: nat | 8 * (|bits| - 1) <= i < 8 * (|bits| - 1) + k && Get(bits, i)
  }

  function OnesBelow(b: bv8, k: nat): nat
    requires k <= 8
  {
    if k == 0 then 0 else OnesBelow(b, k - 1) + One(b, k - 1)
  }

  lemma OnesBelowAll(b: bv8)
    ensures OnesBelow(b, 8) == Ones(b)
  {
    hide BitOf;
    assert OnesBelow(b, 1) == One(b, 0);
    assert OnesBelow(b, 2) == One(b, 0) + One(b, 1);
    assert OnesBelow(b, 4) == OnesBelow(b, 2) + One(b, 2) + One(b, 3);
    assert OnesBelow(b, 6) == OnesBelow(b, 4) + One(b, 4) + One(b, 5);
    assert OnesBelow(b, 8) == OnesBelow(b, 6) + One(b, 6) + One(b, 7);
  }

  lemma {:induction false} LastByte(bits: seq<bv8>, k: nat)
    requires bits != [] && k <= 8
    ensures |LastMembers(bits, k)| == OnesBelow(bits[|bits| - 1], k)
  {
    hide BitOf;
    if k == 0 {
      assert LastMembers(bits, 0) == {};
    } else {
      LastByte(bits, k - 1);
      var top := 8 * (|bits| - 1) + k - 1;
      assert top / 8 == |bits| - 1 && top % 8 == k - 1;
      assert LastMembers(bits, k)
          == LastMembers(bits, k - 1) + if Get(bits, top) then {top} else {};
    }
  }

  lemma UpdateInSlice<T>(s: seq<T>, off: nat, len: nat, k: nat, v: T)
    requires off + len <= |s| && k < len
    ensures var t := s[off + k := v];
            && t[off..off + len] == s[off..off + len][k := v]
            && t[..off] == s[..off]
            && t[off + len..] == s[off + len..]
  {
  }

  /** Sets a bit of the `len`-byte map starting at `off`, reporting whether it was clear. */
  method Set(bits: array<bv8>, off: nat, len: nat, index: nat) returns (wasClear: bool)
    requires off + len <= bits.Length
    modifies bits
    ensures wasClear == (index < 8 * len && index !in Members(old(bits[off..off + len])))
    ensures Members(bits[off..off + len])
         == Members(old(bits[off..off + len])) + if index < 8 * len then {index} else {}
    ensures bits[..off] == old(bits[..off]) && bits[off + len..] == old(bits[off + len..])
  {
    if index / 8 < len {
      ghost var all, before := bits[..], bits[off..off + len];
      var at, mask := off + index / 8, Mask(index % 8);
      var byte := bits[at];
      assert all[off..off + len] == before && before[index / 8] == byte;
      wasClear := byte & mask == 0;
      SetInserts(before, index);
      UpdateInSlice(all, off, len, index / 8, byte | mask);
      bits[at] := byte | mask;
      assert bits[..] == all[at := byte | mask];
      assert bits[off..off + len] == bits[..][off..off + len];
    } else {
      wasClear := false;
    }
  }
}
