/** The owner set: strictly ascending addresses with a permission mask at each position. */
module OwnerSet {
  import opened Base

  const ALL_PERMISSIONS := 7

  /** The three permission bits: 1, 2 and 4. */
  datatype Permission = Initiate | Vote | Execute

  /** `mask & permission != 0`. */
  predicate HasBit(mask: byte, permission: Permission) {
    match permission
    case Initiate => mask % 2 == 1
    case Vote => mask / 2 % 2 == 1
    case Execute => mask / 4 % 2 == 1
  }

  /** A mask of zero grants every permission. */
  predicate MaskAllows(mask: byte, permission: Permission) {
    mask == 0 || HasBit(mask, permission)
  }

  predicate MaskCanVote(mask: byte) {
    MaskAllows(mask, Vote)
  }

  predicate Ascending(s: seq<Address>) {
    forall i, j :: 0 <= i < j < |s| ==> Less(s[i], s[j])
  }

  /** How many leading owners come before `x`: where `x` is, or where it would go. */
  function Rank(owners: seq<Address>, x: Address): (r: nat)
    ensures r <= |owners|
    ensures forall i :: 0 <= i < r ==> Less(owners[i], x)
    ensures r < |owners| ==> !Less(owners[r], x)
  {
    RankFrom(owners, x, 0)
  }

  function RankFrom(owners: seq<Address>, x: Address, from: nat): (r: nat)
    requires from <= |owners|
    ensures from <= r <= |owners|
    ensures forall i :: from <= i < r ==> Less(owners[i], x)
    ensures r < |owners| ==> !Less(owners[r], x)
    decreases |owners| - from
  {
    if from < |owners| && Less(owners[from], x) then RankFrom(owners, x, from + 1) else from
  }

  /** A position holding `x`: the only one, in an ascending set. */
  ghost function PositionOf(owners: seq<Address>, x: Address): (k: nat)
    requires x in owners
    ensures k < |owners| && owners[k] == x
  {
    var k :| 0 <= k < |owners| && owners[k] == x;
    k
  }

  lemma RankUnique(owners: seq<Address>, x: Address, k: nat)
    requires k <= |owners|
    requires forall i :: 0 <= i < k ==> Less(owners[i], x)
    requires k < |owners| ==> !Less(owners[k], x)
    ensures k == Rank(owners, x)
  {
    var r := Rank(owners, x);
  }

  /** In an ascending set an owner sits exactly at its rank, and nowhere else. */
  lemma PositionIsRank(owners: seq<Address>, x: Address)
    requires Ascending(owners)
    ensures x in owners <==> Rank(owners, x) < |owners| && owners[Rank(owners, x)] == x
    ensures x in owners ==> PositionOf(owners, x) == Rank(owners, x)
  {
    var r := Rank(owners, x);
    LessIrreflexive(x);
    if x in owners {
      var k := PositionOf(owners, x);
      assert r <= k;
      assert !(r < k);
    }
  }

  /** Positions and owners name each other one to one. */
  lemma PositionOfAt(owners: seq<Address>, k: nat)
    requires Ascending(owners) && k < |owners|
    ensures PositionOf(owners, owners[k]) == k
  {
    var j := PositionOf(owners, owners[k]);
    LessIrreflexive(owners[k]);
    assert !(j < k) && !(k < j);
  }

  lemma InsertAscending(owners: seq<Address>, x: Address)
    requires Ascending(owners) && x !in owners
    ensures Ascending(InsertAt(owners, Rank(owners, x), x))
  {
    var r := Rank(owners, x);
    var s := InsertAt(owners, r, x);
    forall i | r <= i < |owners| ensures Less(x, owners[i]) {
      LessTotal(owners[r], x);
      if r < i {
        LessTransitive(x, owners[r], owners[i]);
      }
    }
    forall i, j | 0 <= i < j < |s| ensures Less(s[i], s[j]) {
      assert s[i] == if i < r then owners[i] else if i == r then x else owners[i - 1];
      assert s[j] == if j < r then owners[j] else if j == r then x else owners[j - 1];
    }
  }

  lemma RemoveAscending(owners: seq<Address>, k: nat)
    requires Ascending(owners) && k < |owners|
    ensures Ascending(RemoveAt(owners, k))
  {
    var s := RemoveAt(owners, k);
    assert forall i :: 0 <= i < |s| ==> s[i] == if i < k then owners[i] else owners[i + 1];
  }

  lemma InsertRemove<T>(s: seq<T>, k: nat, x: T)
    requires k <= |s|
    ensures InsertAt(s, k, x)[k] == x
    ensures RemoveAt(InsertAt(s, k, x), k) == s
  {
  }

  lemma RemoveInsert<T>(s: seq<T>, k: nat, x: T)
    requires k < |s|
    ensures InsertAt(RemoveAt(s, k), k, x) == s[k := x]
  {
  }

  /** A removed owner is gone, and would go back where it was. */
  lemma RankOfRemoved(owners: seq<Address>, k: nat)
    requires Ascending(owners) && k < |owners|
    ensures owners[k] !in RemoveAt(owners, k)
    ensures Rank(RemoveAt(owners, k), owners[k]) == k
  {
    var rest, x := RemoveAt(owners, k), owners[k];
    LessIrreflexive(x);
    forall i | 0 <= i < |rest|
      ensures rest[i] != x && (Less(rest[i], x) <==> i < k)
    {
      if i < k {
        assert rest[i] == owners[i];
      } else {
        assert rest[i] == owners[i + 1];
        if Less(owners[i + 1], x) {
          LessTransitive(x, owners[i + 1], x);
        }
      }
    }
    RankUnique(rest, x, k);
  }

  /** Where all but one owner are in order, comparing that one with its neighbours decides the whole. */
  lemma NeighboursDecideOrder(owners: seq<Address>, pos: nat)
    requires pos < |owners| && Ascending(RemoveAt(owners, pos))
    ensures Ascending(owners)
       <==> && (pos > 0 ==> Less(owners[pos - 1], owners[pos]))
            && (pos + 1 < |owners| ==> Less(owners[pos], owners[pos + 1]))
  {
    var rest := RemoveAt(owners, pos);
    assert forall i :: 0 <= i < |rest| ==> rest[i] == owners[if i < pos then i else i + 1];
    if && (pos > 0 ==> Less(owners[pos - 1], owners[pos]))
       && (pos + 1 < |owners| ==> Less(owners[pos], owners[pos + 1])) {
      forall i, j | 0 <= i < j < |owners| ensures Less(owners[i], owners[j]) {
        if j == pos {
          if i < pos - 1 {
            assert Less(rest[i], rest[pos - 1]);
            LessTransitive(owners[i], owners[pos - 1], owners[pos]);
          }
        } else if i == pos {
          if pos + 1 < j {
            assert Less(rest[pos], rest[j - 1]);
            LessTransitive(owners[pos], owners[pos + 1], owners[j]);
          }
        } else {
          assert Less(rest[if i < pos then i else i - 1], rest[if j < pos then j else j - 1]);
        }
      }
    }
  }

  /** Neighbouring order everywhere is global order: the one-pass scan suffices. */
  lemma {:induction false} NeighboursAscending(s: seq<Address>, n: nat)
    requires n <= |s|
    requires forall i :: 1 <= i < n ==> Less(s[i - 1], s[i])
    ensures Ascending(s[..n])
  {
    if n > 1 {
      NeighboursAscending(s, n - 1);
      forall i | 0 <= i < n - 1 ensures Less(s[i], s[n - 1]) {
        if i < n - 2 {
          assert s[..n - 1][i] == s[i] && s[..n - 1][n - 2] == s[n - 2];
          LessTransitive(s[i], s[n - 2], s[n - 1]);
        }
      }
      forall i, j | 0 <= i < j < n ensures Less(s[..n][i], s[..n][j]) {
        if j < n - 1 {
          assert s[..n - 1][i] == s[i] && s[..n - 1][j] == s[j];
        }
      }
    }
  }

  /** A full recount of the masks that permit voting. */
  function CountVoters(permissions: seq<byte>): (n: nat)
    ensures n <= |permissions|
  {
    CountBelow(permissions, |permissions|)
  }

  function CountBelow(permissions: seq<byte>, n: nat): (c: nat)
    requires n <= |permissions|
    ensures c <= n
  {
    if n == 0 then 0 else CountBelow(permissions, n - 1) + Voter(permissions[n - 1])
  }

  function Voter(mask: byte): nat {
    if MaskCanVote(mask) then 1 else 0
  }

  /** What one inserted mask does to the recount of every prefix. */
  lemma {:induction false} CountBelowInsert(permissions: seq<byte>, k: nat, mask: byte, n: nat)
    requires k <= |permissions| && n <= |permissions|
    ensures var after := InsertAt(permissions, k, mask);
            && (n <= k ==> CountBelow(after, n) == CountBelow(permissions, n))
            && (k <= n ==> CountBelow(after, n + 1) == CountBelow(permissions, n) + Voter(mask))
  {
    if n > 0 {
      CountBelowInsert(permissions, k, mask, n - 1);
    }
  }

  lemma CountVotersInsert(permissions: seq<byte>, k: nat, mask: byte)
    requires k <= |permissions|
    ensures CountVoters(InsertAt(permissions, k, mask)) == CountVoters(permissions) + Voter(mask)
  {
    CountBelowInsert(permissions, k, mask, |permissions|);
  }

  lemma CountVotersRemove(permissions: seq<byte>, k: nat)
    requires k < |permissions|
    ensures CountVoters(RemoveAt(permissions, k)) == CountVoters(permissions) - Voter(permissions[k])
  {
    CountVotersInsert(RemoveAt(permissions, k), k, permissions[k]);
    RemoveInsert(permissions, k, permissions[k]);
    assert permissions[k := permissions[k]] == permissions;
  }

  lemma CountVotersUpdate(permissions: seq<byte>, k: nat, mask: byte)
    requires k < |permissions|
    ensures CountVoters(permissions[k := mask])
         == CountVoters(permissions) - Voter(permissions[k]) + Voter(mask)
  {
    CountVotersRemove(permissions, k);
    CountVotersInsert(RemoveAt(permissions, k), k, mask);
    RemoveInsert(permissions, k, mask);
  }

  lemma {:induction false} CountVotersAllDefault(permissions: seq<byte>, n: nat)
    requires n <= |permissions|
    requires forall i :: 0 <= i < n ==> permissions[i] == 0
    ensures CountBelow(permissions, n) == n
  {
    if n > 0 {
      CountVotersAllDefault(permissions, n - 1);
    }
  }

  /** The positions permitted to vote. */
  ghost function Voters(permissions: seq<byte>): set<nat> {
    set i: nat | i < |permissions| && MaskCanVote(permissions[i])
  }

  lemma VotersCount(permissions: seq<byte>)
    ensures |Voters(permissions)| == CountVoters(permissions)
  {
    VotersBelowCount(permissions, |permissions|);
    assert Voters(permissions) == VotersBelow(permissions, |permissions|);
  }

  ghost function VotersBelow(permissions: seq<byte>, n: nat): set<nat>
    requires n <= |permissions|
  {
    set i: nat | i < n && MaskCanVote(permissions[i])
  }

  lemma {:induction false} VotersBelowCount(permissions: seq<byte>, n: nat)
    requires n <= |permissions|
    ensures |VotersBelow(permissions, n)| == CountBelow(permissions, n)
  {
    if n == 0 {
      assert VotersBelow(permissions, 0) == {};
    } else {
      VotersBelowCount(permissions, n - 1);
      assert VotersBelow(permissions, n)
          == VotersBelow(permissions, n - 1) + if MaskCanVote(permissions[n - 1]) then {n - 1} else {};
    }
  }

  datatype Search = Found(pos: nat) | Missing(pos: nat)

  /** `[Address]::binary_search`, given by its contract and one implementation of it. */
  method BinarySearch(owners: seq<Address>, x: Address) returns (r: Search)
    requires Ascending(owners)
    ensures r.pos == Rank(owners, x)
    ensures r.Found? <==> x in owners
    ensures r.Found? ==> r.pos == PositionOf(owners, x)
  {
    var lo, hi := 0, |owners|;
    while lo < hi
      invariant 0 <= lo <= hi <= |owners|
      invariant forall i :: 0 <= i < lo ==> Less(owners[i], x)
      invariant forall i :: hi <= i < |owners| ==> !Less(owners[i], x)
    {
      var mid := lo + (hi - lo) / 2;
      if Less(owners[mid], x) {
        forall i | 0 <= i < mid ensures Less(owners[i], x) {
          LessTransitive(owners[i], owners[mid], x);
        }
        lo := mid + 1;
      } else {
        forall i | mid < i < |owners| ensures !Less(owners[i], x) {
          if Less(owners[i], x) {
            LessTransitive(owners[mid], owners[i], x);
          }
        }
        hi := mid;
      }
    }
    RankUnique(owners, x, lo);
    PositionIsRank(owners, x);
    if lo < |owners| && owners[lo] == x {
      r := Found(lo);
    } else {
      r := Missing(lo);
    }
  }
}
