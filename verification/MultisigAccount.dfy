/** The byte tail of a multisig account: owners, 32 bytes each, then one mask byte per owner. */
module OwnerBytes {
  import opened Base

  function OwnersIn(tail: seq<byte>, n: nat): (owners: seq<Address>)
    requires 32 * n <= |tail|
    ensures |owners| == n
    ensures forall i :: 0 <= i < n ==> owners[i] == tail[32 * i..32 * i + 32]
  {
    seq(n, i requires 0 <= i < n && 32 * n <= |tail| => tail[32 * i..32 * i + 32])
  }

  function PermissionsIn(tail: seq<byte>, n: nat): (permissions: seq<byte>)
    requires 33 * n <= |tail|
    ensures |permissions| == n
  {
    tail[32 * n..33 * n]
  }

  /** The byte image of an owner set. */
  ghost function Image(owners: seq<Address>, permissions: seq<byte>): seq<byte> {
    Flatten(owners) + permissions
  }

  function Flatten(owners: seq<Address>): (bytes: seq<byte>)
    ensures |bytes| == 32 * |owners|
  {
    if owners == [] then [] else Flatten(owners[..|owners| - 1]) + owners[|owners| - 1]
  }

  lemma {:induction false} OwnersOfFlatten(owners: seq<Address>, rest: seq<byte>)
    ensures OwnersIn(Flatten(owners) + rest, |owners|) == owners
  {
    if owners != [] {
      var k := |owners| - 1;
      var front, last := owners[..k], owners[k];
      OwnersOfFlatten(front, last + rest);
      assert Flatten(owners) + rest == Flatten(front) + (last + rest);
    }
  }

  lemma {:induction false} FlattenOfOwners(tail: seq<byte>, n: nat)
    requires 32 * n <= |tail|
    ensures Flatten(OwnersIn(tail, n)) == tail[..32 * n]
  {
    if n > 0 {
      FlattenOfOwners(tail, n - 1);
      assert OwnersIn(tail, n)[..n - 1] == OwnersIn(tail, n - 1);
      assert tail[..32 * n] == tail[..32 * (n - 1)] + tail[32 * (n - 1)..32 * n];
    }
  }

  lemma {:induction false} SameOwners(s: seq<byte>, t: seq<byte>, n: nat)
    requires 32 * n <= |s| == |t| && s[..32 * n] == t[..32 * n]
    ensures OwnersIn(s, n) == OwnersIn(t, n)
  {
    forall i | 0 <= i < n ensures OwnersIn(s, n)[i] == OwnersIn(t, n)[i] {
      assert s[32 * i..32 * i + 32] == s[..32 * n][32 * i..32 * i + 32];
      assert t[32 * i..32 * i + 32] == t[..32 * n][32 * i..32 * i + 32];
    }
  }

  /** A tail of the right length is the image of exactly one owner set. */
  lemma TailIsImage(tail: seq<byte>, n: nat, owners: seq<Address>, permissions: seq<byte>)
    requires |tail| == 33 * n && |owners| == |permissions| == n
    ensures tail == Image(owners, permissions)
       <==> OwnersIn(tail, n) == owners && PermissionsIn(tail, n) == permissions
  {
    if tail == Image(owners, permissions) {
      OwnersOfFlatten(owners, permissions);
    }
    if OwnersIn(tail, n) == owners && PermissionsIn(tail, n) == permissions {
      FlattenOfOwners(tail, n);
      assert tail == tail[..32 * n] + tail[32 * n..33 * n];
    }
  }

  /** What moving `lo..hi` to `dest` leaves: the old bytes at the new place, the rest as it was. */
  ghost function Moved(s: seq<byte>, lo: nat, hi: nat, dest: nat): seq<byte>
    requires lo <= hi <= |s| && dest + (hi - lo) <= |s|
  {
    seq(|s|, k requires 0 <= k < |s| => if dest <= k < dest + (hi - lo) then s[lo + k - dest] else s[k])
  }

  /** What `copy_from_slice` into `s[at..]` leaves. */
  ghost function Written(s: seq<byte>, at: nat, x: seq<byte>): seq<byte>
    requires at + |x| <= |s|
  {
    seq(|s|, k requires 0 <= k < |s| => if at <= k < at + |x| then x[k - at] else s[k])
  }

  /**
   * `copy_within`, one byte at a time: upwards when moving down and downwards when moving up, so
   * that where the two ranges overlap no byte still to be read has been overwritten.
   */
  method CopyWithin(a: array<byte>, lo: nat, hi: nat, dest: nat)
    requires lo <= hi <= a.Length && dest + (hi - lo) <= a.Length
    modifies a
    ensures a[..] == Moved(old(a[..]), lo, hi, dest)
  {
    ghost var was := a[..];
    var n := hi - lo;
    if dest <= lo {
      var k := 0;
      while k < n
        invariant 0 <= k <= n
        invariant forall j :: dest <= j < dest + k ==> a[j] == was[lo + (j - dest)]
        invariant forall j :: 0 <= j < a.Length && !(dest <= j < dest + k) ==> a[j] == was[j]
      {
        a[dest + k] := a[lo + k];
        k := k + 1;
      }
    } else {
      var k := n;
      while k > 0
        invariant 0 <= k <= n
        invariant forall j :: dest + k <= j < dest + n ==> a[j] == was[lo + (j - dest)]
        invariant forall j :: 0 <= j < a.Length && !(dest + k <= j < dest + n) ==> a[j] == was[j]
      {
        k := k - 1;
        a[dest + k] := a[lo + k];
      }
    }
  }

  method CopyFromSlice(a: array<byte>, at: nat, x: seq<byte>)
    requires at + |x| <= a.Length
    modifies a
    ensures a[..] == Written(old(a[..]), at, x)
  {
    forall k | 0 <= k < |x| {
      a[at + k] := x[k];
    }
  }

  /** The grown tail after the moves that open both gaps and the two writes into them. */
  ghost function InsertMoves(grown: seq<byte>, n: nat, pos: nat, owner: Address): seq<byte>
    requires |grown| == 33 * (n + 1) && pos <= n
  {
    var masks := 32 * (n + 1);
    var t1 := Moved(grown, 32 * n, 33 * n, masks);
    var t2 := Moved(t1, 32 * pos, 32 * n, 32 * (pos + 1));
    var t3 := Written(t2, 32 * pos, owner);
    var t4 := Moved(t3, masks + pos, masks + n, masks + pos + 1);
    t4[masks + pos := 0]
  }

  lemma InsertMovesBytes(grown: seq<byte>, n: nat, pos: nat, owner: Address, k: nat)
    requires |grown| == 33 * (n + 1) && pos <= n && k < 33 * (n + 1)
    ensures |InsertMoves(grown, n, pos, owner)| == 33 * (n + 1)
    ensures InsertMoves(grown, n, pos, owner)[k]
         == if k < 32 * pos then grown[k]
            else if k < 32 * (pos + 1) then owner[k - 32 * pos]
            else if k < 32 * (n + 1) then grown[k - 32]
            else if k < 32 * (n + 1) + pos then grown[k - 32]
            else if k == 32 * (n + 1) + pos then 0
            else grown[k - 33]
  {
    var masks := 32 * (n + 1);
    var t1 := Moved(grown, 32 * n, 33 * n, masks);
    var t2 := Moved(t1, 32 * pos, 32 * n, 32 * (pos + 1));
    var t3 := Written(t2, 32 * pos, owner);
    var t4 := Moved(t3, masks + pos, masks + n, masks + pos + 1);
    if k < masks {
      assert t4[k] == t3[k];
      if k >= 32 * (pos + 1) {
        assert t3[k] == t2[k] == t1[k - 32] == grown[k - 32];
      } else if k < 32 * pos {
        assert t3[k] == t2[k] == t1[k];
      }
    } else if k < masks + pos {
      assert t4[k] == t3[k] == t2[k] == t1[k] == grown[k - 32];
    } else if k > masks + pos {
      assert t4[k] == t3[k - 1] == t2[k - 1] == t1[k - 1] == grown[k - 33];
    }
  }

  /** Byte `k` of a tail with `owner` inserted at `pos`. */
  ghost function InsertedByte(tail: seq<byte>, n: nat, pos: nat, owner: Address, k: nat): byte
    requires |tail| == 33 * n && pos <= n && k < 33 * (n + 1)
  {
    if k < 32 * pos then tail[k]
    else if k < 32 * (pos + 1) then owner[k - 32 * pos]
    else if k < 32 * (n + 1) + pos then tail[k - 32]
    else if k == 32 * (n + 1) + pos then 0
    else tail[k - 33]
  }

  lemma InsertedOwners(tail: seq<byte>, after: seq<byte>, n: nat, pos: nat, owner: Address)
    requires |tail| == 33 * n && |after| == 33 * (n + 1) && pos <= n
    requires forall k :: 0 <= k < |after| ==> after[k] == InsertedByte(tail, n, pos, owner, k)
    ensures OwnersIn(after, n + 1) == InsertAt(OwnersIn(tail, n), pos, owner)
  {
    var was, now := OwnersIn(tail, n), OwnersIn(after, n + 1);
    var expected := InsertAt(was, pos, owner);
    forall i | 0 <= i < n + 1 ensures now[i] == expected[i] {
      var there := after[32 * i..32 * i + 32];
      if i < pos {
        var source := tail[32 * i..32 * i + 32];
        assert forall j :: 0 <= j < 32 ==> there[j] == after[32 * i + j] == source[j];
        assert there == source;
      } else if i == pos {
        assert forall j :: 0 <= j < 32 ==> there[j] == after[32 * pos + j] == owner[j];
        assert there == owner;
      } else {
        var source := tail[32 * (i - 1)..32 * (i - 1) + 32];
        assert forall j :: 0 <= j < 32 ==> there[j] == after[32 * i + j] == source[j];
        assert there == source;
      }
    }
  }

  lemma InsertedPermissions(tail: seq<byte>, after: seq<byte>, n: nat, pos: nat, owner: Address)
    requires |tail| == 33 * n && |after| == 33 * (n + 1) && pos <= n
    requires forall k :: 0 <= k < |after| ==> after[k] == InsertedByte(tail, n, pos, owner, k)
    ensures PermissionsIn(after, n + 1) == InsertAt(PermissionsIn(tail, n), pos, 0)
  {
  }

  /** The overlapping moves of `add_owner` insert in both regions at once. */
  lemma InsertMovesRefine(tail: seq<byte>, grown: seq<byte>, n: nat, pos: nat, owner: Address)
    requires |tail| == 33 * n && |grown| == 33 * (n + 1) && grown[..33 * n] == tail && pos <= n
    ensures var after := InsertMoves(grown, n, pos, owner);
            && |after| == 33 * (n + 1)
            && OwnersIn(after, n + 1) == InsertAt(OwnersIn(tail, n), pos, owner)
            && PermissionsIn(after, n + 1) == InsertAt(PermissionsIn(tail, n), pos, 0)
  {
    var after := InsertMoves(grown, n, pos, owner);
    assert forall k :: 0 <= k < 33 * n ==> grown[k] == tail[k];
    forall k | 0 <= k < |after| ensures after[k] == InsertedByte(tail, n, pos, owner, k) {
      InsertMovesBytes(grown, n, pos, owner, k);
    }
    InsertedOwners(tail, after, n, pos, owner);
    InsertedPermissions(tail, after, n, pos, owner);
  }

  /** The tail after the three moves that close both gaps, cut to its new length. */
  ghost function RemoveMoves(tail: seq<byte>, n: nat, pos: nat): seq<byte>
    requires |tail| == 33 * n && pos < n
  {
    var t1 := Moved(tail, 32 * (pos + 1), 32 * n, 32 * pos);
    var t2 := Moved(t1, 32 * n + pos + 1, 33 * n, 32 * n + pos);
    var t3 := Moved(t2, 32 * n, 33 * n - 1, 32 * (n - 1));
    t3[..33 * (n - 1)]
  }

  lemma RemoveMovesBytes(tail: seq<byte>, n: nat, pos: nat, k: nat)
    requires |tail| == 33 * n && pos < n && k < 33 * (n - 1)
    ensures RemoveMoves(tail, n, pos)[k] == DeletedByte(tail, n, pos, k)
  {
  }

  /** Byte `k` of a tail without position `pos`. */
  ghost function DeletedByte(tail: seq<byte>, n: nat, pos: nat, k: nat): byte
    requires |tail| == 33 * n && pos < n && k < 33 * (n - 1)
  {
    if k < 32 * pos then tail[k] else if k < 32 * (n - 1) + pos then tail[k + 32] else tail[k + 33]
  }

  lemma DeletedOwners(tail: seq<byte>, after: seq<byte>, n: nat, pos: nat)
    requires |tail| == 33 * n && |after| == 33 * (n - 1) && pos < n
    requires forall k :: 0 <= k < |after| ==> after[k] == DeletedByte(tail, n, pos, k)
    ensures OwnersIn(after, n - 1) == RemoveAt(OwnersIn(tail, n), pos)
  {
    var was, now := OwnersIn(tail, n), OwnersIn(after, n - 1);
    var expected := RemoveAt(was, pos);
    forall i | 0 <= i < n - 1 ensures now[i] == expected[i] {
      var there := after[32 * i..32 * i + 32];
      var from := if i < pos then i else i + 1;
      var source := tail[32 * from..32 * from + 32];
      assert forall j :: 0 <= j < 32 ==> there[j] == after[32 * i + j] == source[j];
      assert there == source;
    }
  }

  lemma DeletedPermissions(tail: seq<byte>, after: seq<byte>, n: nat, pos: nat)
    requires |tail| == 33 * n && |after| == 33 * (n - 1) && pos < n
    requires forall k :: 0 <= k < |after| ==> after[k] == DeletedByte(tail, n, pos, k)
    ensures PermissionsIn(after, n - 1) == RemoveAt(PermissionsIn(tail, n), pos)
  {
  }

  /** The moves of `remove_owner` delete the position from both regions, losing nothing else. */
  lemma RemoveMovesRefine(tail: seq<byte>, n: nat, pos: nat)
    requires |tail| == 33 * n && pos < n
    ensures var after := RemoveMoves(tail, n, pos);
            && |after| == 33 * (n - 1)
            && OwnersIn(after, n - 1) == RemoveAt(OwnersIn(tail, n), pos)
            && PermissionsIn(after, n - 1) == RemoveAt(PermissionsIn(tail, n), pos)
  {
    var after := RemoveMoves(tail, n, pos);
    forall k | 0 <= k < |after| ensures after[k] == DeletedByte(tail, n, pos, k) {
      RemoveMovesBytes(tail, n, pos, k);
    }
    DeletedOwners(tail, after, n, pos);
    DeletedPermissions(tail, after, n, pos);
  }
}

/** The multisig account, edited in place as the program edits it. */
module MultisigAccounts {
  import opened Base
  import opened OwnerSet
  import opened OwnerBytes
  import Spec = MultisigSpec

  method NewTail(owners: seq<Address>) returns (tail: array<byte>)
    ensures fresh(tail) && tail.Length == 33 * |owners|
    ensures OwnersIn(tail[..], |owners|) == owners
    ensures PermissionsIn(tail[..], |owners|) == seq(|owners|, i => 0)
  {
    var stored := Flatten(owners);
    tail := new byte[33 * |owners|](k => 0);
    forall k | 0 <= k < |stored| {
      tail[k] := stored[k];
    }
    ghost var zeroes: seq<byte> := seq(|owners|, i => 0);
    OwnersOfFlatten(owners, zeroes);
    assert tail[..] == stored + zeroes;
  }

  class MultisigAccount {
    const address: Address
    var live: bool // false once the account has been closed and its data emptied
    var createKey: Address
    var configAuthority: Address
    var rentCollector: Address
    var transactionIndex: nat
    var staleTransactionIndex: nat
    var closedTransactionCount: nat
    var timeLock: nat
    var ownersCount: nat
    var voterCount: nat
    var threshold: nat
    var tail: array<byte>

    ghost predicate Valid()
      reads this, tail
    {
      live ==>
        && tail.Length == 33 * ownersCount
        && ownersCount < U32_LIMIT && voterCount < U32_LIMIT
        && Ascending(OwnersIn(tail[..], ownersCount))
    }

    /** The account as a value; `None` once closed. */
    ghost function Model(): (m: Option<Spec.Multisig>)
      requires Valid()
      reads this, tail
      ensures m.Some? ==> Spec.LayoutOk(m.value)
    {
      if live then
        Some(Header(OwnersIn(tail[..], ownersCount), PermissionsIn(tail[..], ownersCount)))
      else None
    }

    ghost function Header(owners: seq<Address>, permissions: seq<byte>): Spec.Multisig
      reads this
    {
      Spec.Multisig(
        createKey,
        Spec.Rules(configAuthority, rentCollector, timeLock, owners, permissions, voterCount, threshold),
        transactionIndex, staleTransactionIndex, closedTransactionCount)
    }

    function Owners(): seq<Address>
      requires live && Valid()
      reads this, tail
    {
      OwnersIn(tail[..], ownersCount)
    }

    function Permissions(): seq<byte>
      requires live && Valid()
      reads this, tail
    {
      PermissionsIn(tail[..], ownersCount)
    }

    constructor (address: Address, createKey: Address, configAuthority: Address,
                 owners: seq<Address>, threshold: nat)
      requires Ascending(owners) && |owners| < U32_LIMIT
      ensures this.address == address
      ensures fresh(tail)
      ensures Valid()
      ensures Model() == Some(Spec.Multisig(
                createKey,
                Spec.Rules(configAuthority, DEFAULT_ADDRESS, 0, owners,
                           seq(|owners|, i => 0), |owners|, threshold),
                0, 0, 0))
    {
      this.address := address;
      live := true;
      this.createKey := createKey;
      this.configAuthority := configAuthority;
      rentCollector := DEFAULT_ADDRESS;
      transactionIndex := 0;
      staleTransactionIndex := 0;
      closedTransactionCount := 0;
      timeLock := 0;
      ownersCount := |owners|;
      voterCount := |owners|;
      this.threshold := threshold;
      var stored := NewTail(owners);
      tail := stored;
    }

    method InvalidatePriorTransactions()
      modifies this`staleTransactionIndex
      ensures staleTransactionIndex == transactionIndex
    {
      staleTransactionIndex := transactionIndex;
    }

    /** `invariant`: constant time, reading only the header. */
    method CheckHeader() returns (r: Outcome)
      ensures r == Spec.CheckFields(ownersCount, voterCount, threshold, transactionIndex,
                                    staleTransactionIndex, closedTransactionCount, timeLock)
    {
      if ownersCount == 0 || ownersCount > MAX_OWNER {
        return Err(InvalidOwnerCount);
      }
      if voterCount == 0 {
        return Err(NoVoters);
      }
      if voterCount > ownersCount {
        return Err(InvalidAccountData);
      }
      if threshold == 0 || threshold > voterCount {
        return Err(InvalidThreshold);
      }
      if staleTransactionIndex > transactionIndex || closedTransactionCount > transactionIndex {
        return Err(InvalidAccountData);
      }
      if timeLock > MAX_TIME_LOCK {
        return Err(InvalidTimeLock);
      }
      return Ok(());
    }

    /** Reallocates the tail to `length` bytes, keeping what fits and zeroing any growth. */
    method Resize(length: nat)
      modifies this`tail
      ensures fresh(tail) && tail.Length == length
      ensures tail.Length <= old(tail.Length) ==> tail[..] == old(tail[..])[..length]
      ensures old(tail.Length) <= tail.Length ==> tail[..old(tail.Length)] == old(tail[..])
    {
      var was := tail;
      var now := new byte[length](k => 0);
      forall k | 0 <= k < length && k < was.Length {
        now[k] := was[k];
      }
      tail := now;
    }

    /** The three moves and two writes that make room for an owner in the grown tail. */
    method OpenGaps(n: nat, pos: nat, owner: Address)
      requires tail.Length == 33 * (n + 1) && pos <= n
      modifies tail
      ensures OwnersIn(tail[..], n + 1) == InsertAt(OwnersIn(old(tail[..])[..33 * n], n), pos, owner)
      ensures PermissionsIn(tail[..], n + 1) == InsertAt(PermissionsIn(old(tail[..])[..33 * n], n), pos, 0)
    {
      hide Moved;
      ghost var grown := tail[..];
      var oldPermissions, newPermissions := n * 32, (n + 1) * 32;
      CopyWithin(tail, oldPermissions, oldPermissions + n, newPermissions);
      CopyWithin(tail, pos * 32, n * 32, (pos + 1) * 32);
      CopyFromSlice(tail, pos * 32, owner);
      CopyWithin(tail, newPermissions + pos, newPermissions + n, newPermissions + pos + 1);
      tail[newPermissions + pos] := 0;
      assert tail[..] == InsertMoves(grown, n, pos, owner);
      InsertMovesRefine(grown[..33 * n], grown, n, pos, owner);
    }

    /** The three moves that close the gaps, made before the account shrinks. */
    method CloseGaps(n: nat, pos: nat)
      requires tail.Length == 33 * n && pos < n
      modifies tail
      ensures OwnersIn(tail[..33 * (n - 1)], n - 1) == RemoveAt(OwnersIn(old(tail[..]), n), pos)
      ensures PermissionsIn(tail[..33 * (n - 1)], n - 1) == RemoveAt(PermissionsIn(old(tail[..]), n), pos)
    {
      hide Moved;
      ghost var was := tail[..];
      var oldPermissions, newPermissions := n * 32, (n - 1) * 32;
      CopyWithin(tail, (pos + 1) * 32, n * 32, pos * 32);
      CopyWithin(tail, oldPermissions + pos + 1, oldPermissions + n, oldPermissions + pos);
      CopyWithin(tail, oldPermissions, oldPermissions + n - 1, newPermissions);
      assert tail[..33 * (n - 1)] == RemoveMoves(was, n, pos);
      RemoveMovesRefine(was, n, pos);
    }

    /** Grows the account and inserts `owner` at `pos`, with the default mask; order is not checked yet. */
    method InsertOwner(pos: nat, owner: Address, rentOk: bool) returns (r: Outcome)
      requires live && Valid() && pos <= ownersCount
      modifies this`tail, this`ownersCount, this`voterCount
      ensures r == Check(rentOk, RuntimeFailure)
      ensures fresh(tail)
      ensures r.Ok? ==>
                && ownersCount == old(ownersCount) + 1 && tail.Length == 33 * ownersCount
                && OwnersIn(tail[..], ownersCount) == InsertAt(old(Owners()), pos, owner)
                && PermissionsIn(tail[..], ownersCount) == InsertAt(old(Permissions()), pos, 0)
                && voterCount == Wrap32(old(voterCount) + 1)
    {
      var count := ownersCount;
      Resize(33 * (count + 1));
      if !rentOk {
        return Err(RuntimeFailure);
      }
      OpenGaps(count, pos, owner);
      ownersCount := count + 1;
      voterCount := Wrap32(voterCount + 1);
      r := Ok(());
    }

    /** Deletes position `pos` from the leading bytes of the tail, which is not yet shrunk. */
    method DeleteOwner(pos: nat)
      requires live && Valid() && pos < ownersCount
      modifies this`ownersCount, this`voterCount, tail
      ensures ownersCount == old(ownersCount) - 1
      ensures voterCount == Wrap32(old(voterCount) - Voter(old(Permissions())[pos]))
      ensures OwnersIn(tail[..33 * ownersCount], ownersCount) == RemoveAt(old(Owners()), pos)
      ensures PermissionsIn(tail[..33 * ownersCount], ownersCount) == RemoveAt(old(Permissions()), pos)
    {
      var count := ownersCount;
      var wasVoter := MaskCanVote(Permissions()[pos]);
      CloseGaps(count, pos);
      ownersCount := count - 1;
      if wasVoter {
        voterCount := Wrap32(voterCount - 1);
      }
    }

    /** The opening checks of `add_owner` and `remove_owner`: parse, load and search. */
    method Locate(payload: seq<byte>) returns (r: Result<Search>)
      requires Valid()
      ensures |payload| != 32 ==> r == Err(InvalidInstructionData)
      ensures |payload| == 32 && !live ==> r == Err(InvalidAccountData)
      ensures |payload| == 32 && live ==>
                && r.Ok?
                && r.value.pos == Rank(Owners(), payload)
                && (r.value.Found? <==> payload in Owners())
                && (r.value.Found? ==> r.value.pos == PositionOf(Owners(), payload))
    {
      if |payload| != 32 {
        return Err(InvalidInstructionData);
      }
      var owner: Address := payload;
      if !live || tail.Length != 33 * ownersCount {
        return Err(InvalidAccountData);
      }
      var search := BinarySearch(Owners(), owner);
      r := Ok(search);
    }

    method AddOwner(payload: seq<byte>, rentOk: bool) returns (r: Outcome)
      requires Valid()
      modifies this, tail
      ensures tail == old(tail) || fresh(tail)
      ensures var spec := Spec.AddOwner(old(Model()), payload, rentOk);
              && r.Ok? == spec.Ok?
              && (r.Err? ==> r.error == spec.error)
              && (r.Ok? ==> Valid() && Model() == Some(spec.value))
    {
      hide OwnersIn, PermissionsIn, Less, Rank, InsertAt, Ascending, Spec.Settled;
      var search :- Locate(payload);
      if search.Found? {
        return Err(OwnerAlreadyExists);
      }
      if ownersCount >= MAX_OWNER {
        return Err(InvalidOwnerCount);
      }
      r := AddAtRank(payload, search.pos, rentOk);
    }

    method AddAtRank(owner: Address, pos: nat, rentOk: bool) returns (r: Outcome)
      requires live && Valid() && ownersCount < MAX_OWNER
      requires owner !in Owners() && pos == Rank(Owners(), owner)
      modifies this, tail
      ensures tail == old(tail) || fresh(tail)
      ensures var was := old(Model()).value;
              var after := Spec.Settled(was.(rules := Spec.WithOwner(was.rules, owner)));
              && (!rentOk ==> r == Err(RuntimeFailure))
              && (rentOk ==> r.Ok? == after.Ok?)
              && (rentOk && after.Err? ==> r == Err(after.error))
              && (r.Ok? ==> Valid() && Model() == Some(after.value))
    {
      hide OwnersIn, PermissionsIn, Less, Rank, InsertAt, RemoveAt, Ascending, Spec.CheckFields;
      ghost var owners := Owners();
      r := InsertOwner(pos, owner, rentOk);
      if r.Err? {
        return;
      }
      InsertRemove(owners, pos, owner);
      InsertAscending(owners, owner);
      r := CheckNeighbours(pos);
      if r.Err? {
        return;
      }
      InvalidatePriorTransactions();
      r := CheckHeader();
    }

    /**
     * Compares the inserted owner with its neighbours only. Given that the others are in order,
     * that decides the order of the whole set.
     */
    method CheckNeighbours(pos: nat) returns (r: Outcome)
      requires live && tail.Length == 33 * ownersCount && pos < ownersCount
      requires Ascending(RemoveAt(OwnersIn(tail[..], ownersCount), pos))
      ensures r == Check(Ascending(OwnersIn(tail[..], ownersCount)), OwnersNotSorted)
    {
      hide Less, Ascending;
      var owners := OwnersIn(tail[..], ownersCount);
      NeighboursDecideOrder(owners, pos);
      if pos > 0 && !Less(owners[pos - 1], owners[pos]) {
        return Err(OwnersNotSorted);
      }
      if pos + 1 < |owners| && !Less(owners[pos], owners[pos + 1]) {
        return Err(OwnersNotSorted);
      }
      r := Ok(());
    }

    method RemoveOwner(payload: seq<byte>, rentOk: bool) returns (r: Outcome)
      requires Valid()
      modifies this, tail
      ensures tail == old(tail) || fresh(tail)
      ensures var spec := Spec.RemoveOwner(old(Model()), payload, rentOk);
              && r.Ok? == spec.Ok?
              && (r.Err? ==> r.error == spec.error)
              && (r.Ok? ==> Valid() && Model() == Some(spec.value))
    {
      hide OwnersIn, PermissionsIn, Less, Rank, RemoveAt, Ascending, Spec.WithoutOwner, Spec.Settled;
      var search :- Locate(payload);
      if search.Missing? {
        return Err(NotAnOwner);
      }
      r := RemoveAtPosition(search.pos, rentOk);
    }

    /** The header is checked before the shrink, while the tail is still too long for it. */
    method RemoveAtPosition(pos: nat, rentOk: bool) returns (r: Outcome)
      requires live && Valid() && pos < ownersCount
      modifies this, tail
      ensures tail == old(tail) || fresh(tail)
      ensures var was := old(Model()).value;
              var after := Spec.Settled(was.(rules := Spec.WithoutOwner(was.rules, pos)));
              && (after.Err? ==> r == Err(after.error))
              && (after.Ok? ==> r == Check(rentOk, RuntimeFailure))
              && (r.Ok? ==> Valid() && Model() == Some(after.value))
    {
      hide OwnersIn, PermissionsIn, Less, RemoveAt, Ascending, Spec.CheckFields;
      RemoveAscending(Owners(), pos);
      DeleteOwner(pos);
      InvalidatePriorTransactions();
      r := CheckHeader();
      if r.Err? {
        return;
      }
      Resize(33 * ownersCount);
      r := Check(rentOk, RuntimeFailure);
    }

    /** Rewrites one mask in place, keeping the voter count in step. */
    method SetPermission(payload: seq<byte>) returns (r: Outcome)
      requires live && Valid()
      modifies this`voterCount, tail
      ensures var spec := Spec.SetPermission(old(Model()).value.rules, payload);
              && r.Ok? == spec.Ok?
              && (r.Err? ==> r.error == spec.error)
              && (r.Ok? ==> Valid() && Model().value.rules == spec.value)
    {
      hide OwnersIn, PermissionsIn, Less, Rank, InsertAt, RemoveAt, Ascending, PositionOf;
      if |payload| != 33 {
        return Err(InvalidInstructionData);
      }
      var owner: Address, mask := payload[..32], payload[32];
      if mask > ALL_PERMISSIONS {
        return Err(UnknownPermission);
      }
      var search := BinarySearch(Owners(), owner);
      if search.Missing? {
        return Err(NotAnOwner);
      }
      var index := search.pos;
      var wasVoter, isVoter := MaskCanVote(Permissions()[index]), MaskCanVote(mask);
      WriteMask(index, mask);
      if !wasVoter && isVoter {
        voterCount := Wrap32(voterCount + 1);
      } else if wasVoter && !isVoter {
        voterCount := Wrap32(voterCount - 1);
      }
      r := Ok(());
    }

    method WriteMask(index: nat, mask: byte)
      requires live && Valid() && index < ownersCount
      modifies tail
      ensures Valid()
      ensures Owners() == old(Owners())
      ensures Permissions() == old(Permissions())[index := mask]
    {
      ghost var was := tail[..];
      tail[32 * ownersCount + index] := mask;
      var n := ownersCount;
      assert tail[..][..32 * n] == was[..32 * n];
      SameOwners(was, tail[..], n);
    }

    /** The actions that keep the account's size, then the shared invalidation and check. */
    method ChangeInPlace(tag: byte, payload: seq<byte>) returns (r: Outcome)
      requires Valid()
      requires tag in {Spec.CHANGE_THRESHOLD, Spec.CHANGE_TIME_LOCK, Spec.SET_RENT_COLLECTOR,
                       Spec.SET_PERMISSION, Spec.SET_CONFIG_AUTHORITY}
      modifies this, tail
      ensures tail == old(tail)
      ensures var spec := Spec.ChangeInPlace(old(Model()), tag, payload);
              && r.Ok? == spec.Ok?
              && (r.Err? ==> r.error == spec.error)
              && (r.Ok? ==> Valid() && Model() == Some(spec.value))
    {
      hide OwnersIn, PermissionsIn, Less;
      if !live || tail.Length != 33 * ownersCount {
        return Err(InvalidAccountData);
      }
      if tag == Spec.CHANGE_THRESHOLD {
        threshold :- Spec.U32Payload(payload);
      } else if tag == Spec.CHANGE_TIME_LOCK {
        timeLock :- Spec.U32Payload(payload);
      } else if tag == Spec.SET_RENT_COLLECTOR {
        rentCollector :- Spec.AddressPayload(payload);
      } else if tag == Spec.SET_PERMISSION {
        r := SetPermission(payload);
        if r.Err? {
          return;
        }
      } else {
        configAuthority :- Spec.AddressPayload(payload);
      }
      InvalidatePriorTransactions();
      r := CheckHeader();
    }

    method CloseMultisig(destination: Address, payload: seq<byte>, viaProposal: bool, rentOk: bool)
      returns (r: Outcome)
      requires Valid()
      modifies this`live
      ensures r == Spec.CloseMultisig(old(Model()), destination, payload, viaProposal, rentOk)
      ensures live == (old(live) && r.Err?)
    {
      if payload != [] {
        return Err(InvalidInstructionData);
      }
      if !live || tail.Length != 33 * ownersCount {
        return Err(InvalidAccountData);
      }
      var clear := if viaProposal
                   then closedTransactionCount + 1 < U64_LIMIT && closedTransactionCount + 1 == transactionIndex
                   else closedTransactionCount == transactionIndex;
      if !clear {
        return Err(TransactionsOutstanding);
      }
      if rentCollector != DEFAULT_ADDRESS && rentCollector != destination {
        return Err(InvalidAccount);
      }
      if !rentOk {
        return Err(RuntimeFailure);
      }
      live := false;
      r := Ok(());
    }

    /** Applies one configuration action, by a proposal or by the config authority. */
    method ApplyConfigAction(payer: Address, data: seq<byte>, viaProposal: bool, rentOk: bool)
      returns (r: Outcome)
      requires Valid()
      modifies this, tail
      ensures tail == old(tail) || fresh(tail)
      ensures var spec := Spec.ApplyConfigAction(old(Model()), payer, data, viaProposal, rentOk);
              && r.Ok? == spec.Ok?
              && (r.Err? ==> r.error == spec.error)
              && (r.Ok? ==> Valid() && Model() == spec.value)
    {
      hide OwnersIn, PermissionsIn, Less;
      if data == [] {
        return Err(InvalidInstructionData);
      }
      var tag, payload := data[0], data[1..];
      if tag > Spec.SET_CONFIG_AUTHORITY {
        return Err(UnknownConfigAction);
      }
      if tag == Spec.CLOSE_MULTISIG {
        r := CloseMultisig(payer, payload, viaProposal, rentOk);
      } else if tag == Spec.ADD_OWNER {
        r := AddOwner(payload, rentOk);
      } else if tag == Spec.REMOVE_OWNER {
        r := RemoveOwner(payload, rentOk);
      } else {
        r := ChangeInPlace(tag, payload);
      }
    }
  }
}
