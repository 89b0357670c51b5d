/** What account resolution demands, byte by byte and position by position. */
module LookupTables {
  import opened Base
  import opened MessageCodec
  import opened MessageParser
  import opened AccountResolution

  /** The account's data is 56 bytes of anything, then these addresses in order, 32 bytes each. */
  ghost predicate Holds(t: AccountInfo, addresses: seq<Address>) {
    && 56 + 32 * |addresses| <= |t.data| < 56 + 32 * |addresses| + 32
    && forall i :: 0 <= i < |addresses| ==> t.data[56 + 32 * i..88 + 32 * i] == addresses[i]
  }

  /** The address lookup table program. */
  const TABLE_PROGRAM: Address :=
    [2, 119, 166, 175, 151, 51, 155, 122, 200, 141, 24, 146, 201, 4, 70, 245,
     0, 2, 48, 146, 102, 246, 46, 83, 193, 24, 36, 73, 130, 0, 0, 0]

  /** Owned by the table program, with the eight bytes from 4 on all set: never deactivated. */
  ghost predicate NeverDeactivated(t: AccountInfo) {
    && t.owner == TABLE_PROGRAM && |t.data| >= 56
    && forall k :: 4 <= k < 12 ==> t.data[k] == 255
  }

  lemma FullWord(b: seq<byte>)
    requires |b| == 8
    ensures LittleEndian64(b) == 0xFFFF_FFFF_FFFF_FFFF <==> forall k :: 0 <= k < 8 ==> b[k] == 255
  {
    var lo, hi := b[..4], b[4..];
    FullHalf(lo);
    FullHalf(hi);
    assert forall k :: 0 <= k < 4 ==> lo[k] == b[k] && hi[k] == b[k + 4];
    if forall k :: 0 <= k < 4 ==> lo[k] == 255 && hi[k] == 255 {
      forall k | 0 <= k < 8 ensures b[k] == 255 {
        if k >= 4 {
          assert hi[k - 4] == b[k];
        } else {
          assert lo[k] == b[k];
        }
      }
    }
  }

  lemma FullHalf(b: seq<byte>)
    requires |b| == 4
    ensures LittleEndian32(b) == 0xFFFF_FFFF <==> forall k :: 0 <= k < 4 ==> b[k] == 255
  {
  }

  /** A table is accepted exactly if it is the one named, and was never deactivated; each fault has its error. */
  lemma TableAccepted(l: Lookup, t: AccountInfo)
    ensures TableOutcome(l, t).Ok? <==> t.address == l.key && NeverDeactivated(t)
    ensures t.address != l.key ==> TableOutcome(l, t) == Err(AccountMismatch)
    ensures t.address == l.key && t.owner != TABLE_PROGRAM ==> TableOutcome(l, t) == Err(IllegalOwner)
    ensures t.address == l.key && t.owner == TABLE_PROGRAM && !NeverDeactivated(t) ==>
              TableOutcome(l, t) == Err(InvalidLookupTable)
  {
    hide LittleEndian64;
    if |t.data| >= 56 {
      var word := t.data[4..12];
      FullWord(word);
      assert forall k :: 0 <= k < 8 ==> word[k] == t.data[k + 4];
      assert forall k :: 4 <= k < 12 ==> t.data[k] == word[k - 4];
    }
  }

  lemma HeldEntry(t: AccountInfo, addresses: seq<Address>, index: nat)
    requires Holds(t, addresses)
    ensures NumAddresses(t) == |addresses|
    ensures index < |addresses| ==> Entry(t, index) == addresses[index]
  {
  }

  /** The accounts from `at` on are the ones these indexes pick out of the table's addresses. */
  ghost predicate PickedFrom(views: seq<AccountInfo>, at: nat, addresses: seq<Address>, indexes: seq<byte>, from: nat) {
    forall j :: from <= j < |indexes| ==>
      indexes[j] < |addresses| && at + j < |views| && views[at + j].address == addresses[indexes[j]]
  }

  /**
   * A window is accepted exactly when each account in it is the address its index picks, counted from
   * the first after the 56 bytes.
   */
  lemma {:induction false} WindowAccepted(
    views: seq<AccountInfo>, at: nat, t: AccountInfo, addresses: seq<Address>, indexes: seq<byte>, from: nat)
    requires Holds(t, addresses) && from <= |indexes|
    ensures IndexesOutcome(views, at, t, indexes, from).Ok? <==> PickedFrom(views, at, addresses, indexes, from)
    decreases |indexes| - from
  {
    hide Holds, NumAddresses, Entry;
    if from < |indexes| {
      HeldEntry(t, addresses, indexes[from]);
      WindowAccepted(views, at, t, addresses, indexes, from + 1);
    }
  }

  /** And the fault reported is the first: an index past the addresses, or the wrong account. */
  lemma {:induction false} WindowFault(
    views: seq<AccountInfo>, at: nat, t: AccountInfo, addresses: seq<Address>, indexes: seq<byte>, from: nat, j: nat)
    requires Holds(t, addresses) && from <= j < |indexes| && at + |indexes| <= |views|
    requires forall k :: from <= k < j ==>
               indexes[k] < |addresses| && views[at + k].address == addresses[indexes[k]]
    ensures indexes[j] >= |addresses| ==> IndexesOutcome(views, at, t, indexes, from) == Err(InvalidLookupTable)
    ensures indexes[j] < |addresses| && views[at + j].address != addresses[indexes[j]] ==>
              IndexesOutcome(views, at, t, indexes, from) == Err(AccountMismatch)
    decreases j - from
  {
    hide Holds, NumAddresses, Entry;
    HeldEntry(t, addresses, indexes[from]);
    if from < j {
      WindowFault(views, at, t, addresses, indexes, from + 1, j);
    }
  }

  // The whole list

  function WritableBefore(ls: seq<Lookup>, i: nat): nat
    requires i <= |ls|
  {
    if i == 0 then 0 else WritableBefore(ls, i - 1) + |ls[i - 1].writable|
  }

  function ReadonlyBefore(ls: seq<Lookup>, i: nat): nat
    requires i <= |ls|
  {
    if i == 0 then 0 else ReadonlyBefore(ls, i - 1) + |ls[i - 1].readonly|
  }

  lemma {:induction false} CountsAreSums(ls: seq<Lookup>, i: nat)
    requires i <= |ls|
    ensures WritableCount(ls[..i]) == WritableBefore(ls, i)
    ensures ReadonlyCount(ls[..i]) == ReadonlyBefore(ls, i)
  {
    if i > 0 {
      CountsAreSums(ls, i - 1);
      CountsAppend(ls[..i - 1], ls[i - 1]);
      assert ls[..i] == ls[..i - 1] + [ls[i - 1]];
    }
  }

  /** Table `i` is right, and so are the accounts it supplies, at the two places where they belong. */
  ghost predicate SuppliedBy(m: Message, views: seq<AccountInfo>, contents: seq<seq<Address>>, i: nat)
    requires i < |m.lookups| == |contents| && NumAllKeys(m) + |m.lookups| <= |views|
  {
    var l, t, k := m.lookups[i], views[NumAllKeys(m) + i], |m.keys|;
    && t.address == l.key && NeverDeactivated(t)
    && PickedFrom(views, k + WritableBefore(m.lookups, i), contents[i], l.writable, 0)
    && PickedFrom(views, k + WritableBefore(m.lookups, |m.lookups|) + ReadonlyBefore(m.lookups, i),
                  contents[i], l.readonly, 0)
  }

  lemma {:induction false} TablesResolved(m: Message, views: seq<AccountInfo>, contents: seq<seq<Address>>, i: nat)
    requires i <= |m.lookups| == |contents| && NumAllKeys(m) + |m.lookups| <= |views|
    requires forall j :: 0 <= j < |m.lookups| ==> Holds(views[NumAllKeys(m) + j], contents[j])
    ensures var k, w := |m.keys|, WritableBefore(m.lookups, |m.lookups|);
            TablesOutcome(m, views, i, k + WritableBefore(m.lookups, i), k + w + ReadonlyBefore(m.lookups, i)).Ok?
            <==> forall j :: i <= j < |m.lookups| ==> SuppliedBy(m, views, contents, j)
    decreases |m.lookups| - i
  {
    hide Holds, PickedFrom, NeverDeactivated, TableOutcome, IndexesOutcome;
    if i < |m.lookups| {
      var l, t := m.lookups[i], views[NumAllKeys(m) + i];
      var k, w := |m.keys|, WritableBefore(m.lookups, |m.lookups|);
      TableAccepted(l, t);
      WindowAccepted(views, k + WritableBefore(m.lookups, i), t, contents[i], l.writable, 0);
      WindowAccepted(views, k + w + ReadonlyBefore(m.lookups, i), t, contents[i], l.readonly, 0);
      assert OneTableOutcome(views, l, t, k + WritableBefore(m.lookups, i), k + w + ReadonlyBefore(m.lookups, i)).Ok?
        <==> SuppliedBy(m, views, contents, i);
      assert WritableBefore(m.lookups, i + 1) == WritableBefore(m.lookups, i) + |l.writable|;
      assert ReadonlyBefore(m.lookups, i + 1) == ReadonlyBefore(m.lookups, i) + |l.readonly|;
      TablesResolved(m, views, contents, i + 1);
    }
  }

  /** Fewer accounts than keys, then a wrong static key, then no room for the tables: each has its error. */
  lemma ShortListRefused(m: Message, views: seq<AccountInfo>)
    ensures var out, n := ResolveAccounts(m, views), NumAllKeys(m);
            && (|views| < n ==> out == Err(NotEnoughAccounts))
            && (|views| >= n && (exists k :: 0 <= k < |m.keys| && views[k].address != m.keys[k]) ==>
                  out == Err(AccountMismatch))
            && (n <= |views| < n + |m.lookups| && (forall k :: 0 <= k < |m.keys| ==> views[k].address == m.keys[k]) ==>
                  out == Err(NotEnoughAccounts))
  {
    hide TablesOutcome, WritableCount, ReadonlyCount;
    if |views| >= NumAllKeys(m) {
      var first := Addresses(views[..|m.keys|]);
      assert forall k :: 0 <= k < |m.keys| ==> first[k] == views[k].address;
    }
  }

  /**
   * Resolution position by position. Given what each table's data holds, the accounts are accepted
   * exactly when the first ones are the message's keys, in order; every table is the one named and was
   * never deactivated; the next accounts are the writable picks of the tables, one table after
   * another; and the next the readonly picks.
   */
  lemma {:induction false} ResolvedByPosition(m: Message, views: seq<AccountInfo>, contents: seq<seq<Address>>)
    requires NumAllKeys(m) + |m.lookups| <= |views| && |contents| == |m.lookups|
    requires forall j :: 0 <= j < |m.lookups| ==> Holds(views[NumAllKeys(m) + j], contents[j])
    ensures ResolveAccounts(m, views).Ok?
       <==> && (forall k :: 0 <= k < |m.keys| ==> views[k].address == m.keys[k])
            && (forall j :: 0 <= j < |m.lookups| ==> SuppliedBy(m, views, contents, j))
  {
    hide Holds, SuppliedBy, TablesOutcome;
    var ls := m.lookups;
    CountsAreSums(ls, |ls|);
    assert ls[..|ls|] == ls;
    TablesResolved(m, views, contents, 0);
    var first := Addresses(views[..|m.keys|]);
    assert forall k :: 0 <= k < |m.keys| ==> first[k] == views[k].address;
  }
}
