/** Where a proposal account keeps each owner's votes, and which byte stands for which status. */
module StoredLayout {
  import opened Bitmap
  import opened ProposalSpec
  import opened ProposalAccounts

  const BITS: seq<bv8> := [1, 2, 4, 8, 16, 32, 64, 128]

  /** The bit for position `k` is bit `k % 8` of byte `k / 8`, the lowest bit first. */
  predicate BitSet(votes: seq<bv8>, from: nat, k: nat)
    requires from + k / 8 < |votes|
  {
    votes[from + k / 8] & BITS[k % 8] != 0
  }

  lemma MaskIsBit(k: nat)
    requires k < 8
    ensures Mask(k) == BITS[k]
  {
  }

  lemma InMap(votes: seq<bv8>, from: nat, len: nat, k: nat)
    requires from + len <= |votes| && k < 8 * len
    ensures k in Members(votes[from..from + len]) <==> BitSet(votes, from, k)
  {
    hide Mask;
    MaskIsBit(k % 8);
    assert votes[from..from + len][k / 8] == votes[from + k / 8];
  }

  /**
   * The votes are three bitmaps of one bit per owner, rounded up to whole bytes: approvals, then
   * rejections, then cancellations, each with the owner at position `k` in bit `k`.
   */
  lemma VotesStored(a: ProposalAccount, k: nat)
    requires a.Valid() && k < a.ownersCount
    ensures var n := (a.ownersCount + 7) / 8;
            && a.votes.Length == 3 * n && k / 8 < n
            && (k in a.Model().approved <==> BitSet(a.votes[..], 0, k))
            && (k in a.Model().rejected <==> BitSet(a.votes[..], n, k))
            && (k in a.Model().cancelled <==> BitSet(a.votes[..], 2 * n, k))
  {
    hide Members, BitSet;
    var n, votes := LenFor(a.ownersCount), a.votes[..];
    assert k / 8 < n;
    InMap(votes, 0, n, k);
    InMap(votes, n, n, k);
    InMap(votes, 2 * n, n, k);
    assert votes[0..0 + n] == a.ApprovedBits() && votes[n..n + n] == a.RejectedBits();
    assert votes[2 * n..2 * n + n] == a.CancelledBits();
  }

  /** The status byte: 0 Active, 1 Approved, 2 Rejected, 3 Executed, 4 Cancelled. */
  lemma StatusStored(a: ProposalAccount)
    requires a.Valid()
    ensures a.status <= 4
    ensures a.Model().status == [Active, Approved, Rejected, Executed, Cancelled][a.status]
  {
    hide Members;
  }
}
