/** The privileges an inner call gives each account, counted off the message's header. */
module CallPrivileges {
  import opened MessageCodec
  import opened MessageParser
  import opened AccountResolution
  import opened ExecuteHandler
  import opened LookupTables

  /**
   * Of the static keys, the first signers and the first non-signers are writable, as many of each as
   * the header counts; of the keys from tables, those the writable index lists picked.
   */
  ghost predicate CountedWritable(m: Message, i: nat) {
    || i < m.numWritableSigners
    || m.numSigners <= i < m.numSigners + m.numWritableNonSigners
    || |m.keys| <= i < |m.keys| + WritableBefore(m.lookups, |m.lookups|)
  }

  lemma WritableTotal(ls: seq<Lookup>)
    ensures WritableCount(ls) == WritableBefore(ls, |ls|)
    ensures ReadonlyCount(ls) == ReadonlyBefore(ls, |ls|)
  {
    CountsAreSums(ls, |ls|);
    assert ls[..|ls|] == ls;
  }

  /** Each account an inner call names is passed writable, and signing, exactly as counted. */
  lemma CallPrivilegesCounted(m: Message, v: MessageView, ix: Instruction, views: seq<AccountInfo>, j: nat)
    requires WellFormed(m) && ViewOf(v, m)
    requires |ix.accounts| <= 32 && ix.program < |views| && j < |ix.accounts|
    requires forall k :: 0 <= k < |ix.accounts| ==> ix.accounts[k] < |views|
    requires ix.accounts[j] < NumAllKeys(m)
    ensures var meta, i := CpiMetas(v, ix, views)[j], ix.accounts[j];
            && meta.address == views[i].address
            && (meta.writable <==> CountedWritable(m, i))
            && (meta.signer <==> i < m.numSigners)
  {
    hide Fits, IndexesInRange, WritableBefore, ReadonlyBefore;
    WritableTotal(m.lookups);
  }

  /** The client lists every account with the same privilege, none of them signing, and the tables readonly. */
  lemma ListedPrivilegesCounted(m: Message, tables: seq<AccountInfo>, listed: seq<AccountMeta>, i: nat)
    requires WellFormed(m) && |tables| == |m.lookups|
    requires MetasFor(m, Resolved(m, tables), listed) && i < |listed|
    ensures |listed| == NumAllKeys(m) + |m.lookups|
    ensures !listed[i].signer
    ensures i < |m.keys| ==> listed[i].address == m.keys[i]
    ensures i >= NumAllKeys(m) ==> listed[i].address == m.lookups[i - NumAllKeys(m)].key
    ensures listed[i].writable <==> CountedWritable(m, i)
  {
    hide Fits, IndexesInRange, WritableBefore, ReadonlyBefore, Resolved;
    WritableTotal(m.lookups);
    ResolvedSize(m, tables);
  }

  /** Exactly as many static keys are writable as the header counts, and no readonly signer is one. */
  lemma WritableKeysCounted(m: Message)
    requires WellFormed(m)
    ensures |set i: nat | i < |m.keys| && CountedWritable(m, i)| == m.numWritableSigners + m.numWritableNonSigners
    ensures forall i: nat :: m.numWritableSigners <= i < m.numSigners ==> !CountedWritable(m, i)
  {
    hide Fits, IndexesInRange, WritableBefore;
    var s, w, n: nat := m.numSigners, m.numWritableSigners, m.numWritableNonSigners;
    var counted := set i: nat | i < |m.keys| && CountedWritable(m, i);
    forall i: nat ensures i in counted <==> i in Block(0, w) + Block(s, n) {
    }
    assert counted == Block(0, w) + Block(s, n);
    assert Block(0, w) !! Block(s, n);
  }

  /** The `n` numbers from `from` on. */
  ghost function Block(from: nat, n: nat): (b: set<nat>)
    ensures |b| == n
    ensures forall i: nat :: i in b <==> from <= i < from + n
  {
    if n == 0 then {} else Block(from, n - 1) + {from + n - 1}
  }
}
