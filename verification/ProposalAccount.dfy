/** The proposal account and the vote handlers, editing it in place. */
module ProposalAccounts {
  import opened Base
  import opened OwnerSet
  import opened Bitmap
  import opened ProposalSpec
  import opened MultisigAccounts
  import opened OwnerBytes

  class ProposalAccount {
    var multisig: Address
    var creator: Address
    var index: nat
    var approvedAt: i64
    var ownersCount: nat
    var approvedCount: nat
    var rejectedCount: nat
    var cancelledCount: nat
    var status: byte
    var vaultIndex: byte
    var vaultBump: byte
    var bump: byte
    var ephemeralCount: byte
    var ephemeralBumps: seq<byte>
    var votes: array<bv8> // the three bitmaps, one after another
    var message: array<byte>

    ghost predicate Valid()
      reads this
    {
      && votes.Length == 3 * LenFor(ownersCount)
      && votes as object != message as object
      && StatusFromByte(status).Ok?
    }

    function ApprovedBits(): seq<bv8>
      requires votes.Length == 3 * LenFor(ownersCount)
      reads this, votes
    {
      votes[..LenFor(ownersCount)]
    }

    function RejectedBits(): seq<bv8>
      requires votes.Length == 3 * LenFor(ownersCount)
      reads this, votes
    {
      votes[LenFor(ownersCount)..2 * LenFor(ownersCount)]
    }

    function CancelledBits(): seq<bv8>
      requires votes.Length == 3 * LenFor(ownersCount)
      reads this, votes
    {
      votes[2 * LenFor(ownersCount)..3 * LenFor(ownersCount)]
    }

    /** The account as a value, its bitmaps read as sets of positions. */
    ghost function Model(): Proposal
      requires Valid()
      reads this, votes, message
    {
      Proposal(multisig, creator, index, approvedAt, ownersCount,
               Members(ApprovedBits()), Members(RejectedBits()), Members(CancelledBits()),
               approvedCount, rejectedCount, cancelledCount,
               StatusFromByte(status).value, vaultIndex, vaultBump, bump,
               ephemeralCount, ephemeralBumps, message[..])
    }

    /** Writes the header, clears the bitmaps and copies the message. */
    constructor (multisig: Address, creator: Address, index: nat, ownersCount: nat,
                 h: Header, message: seq<byte>)
      ensures Valid() && fresh(votes) && fresh(this.message)
      ensures Model() == Proposal(multisig, creator, index, 0, ownersCount, {}, {}, {}, 0, 0, 0, Active,
                                  h.vaultIndex, h.vaultBump, h.bump, h.ephemeralCount, h.ephemeralBumps, message)
    {
      this.multisig, this.creator, this.index := multisig, creator, index;
      approvedAt := 0;
      this.ownersCount := ownersCount;
      approvedCount, rejectedCount, cancelledCount := 0, 0, 0;
      status := StatusByte(Active);
      vaultIndex, vaultBump, bump := h.vaultIndex, h.vaultBump, h.bump;
      ephemeralCount, ephemeralBumps := h.ephemeralCount, h.ephemeralBumps;
      var cleared := new bv8[3 * LenFor(ownersCount)](k => 0);
      var stored := new byte[|message|](k => 0);
      forall k | 0 <= k < |message| {
        stored[k] := message[k];
      }
      votes, this.message := cleared, stored;
      new;
      hide Members, LenFor;
      assert forall k :: 0 <= k < votes.Length ==> votes[k] == 0;
      ZeroesAreEmpty(ApprovedBits());
      ZeroesAreEmpty(RejectedBits());
      ZeroesAreEmpty(CancelledBits());
      assert this.message[..] == message;
    }

    /** `invariant`, after the status byte has been decoded. */
    method CheckHeader() returns (r: Outcome)
      requires Valid()
      ensures r == CheckCounts(ownersCount, approvedCount, rejectedCount, cancelledCount,
                               message.Length, ephemeralCount)
    {
      if ownersCount == 0 || ownersCount > MAX_OWNER {
        return Err(InvalidOwnerCount);
      }
      var voted := approvedCount + rejectedCount;
      if voted > ownersCount || cancelledCount > ownersCount {
        return Err(InvalidAccountData);
      }
      if message.Length > MAX_MESSAGE_SIZE {
        return Err(InvalidMessage);
      }
      if ephemeralCount > MAX_EPHEMERAL_SIGNERS {
        return Err(InvalidAccountData);
      }
      r := Ok(());
    }

    /** `check_votable`. */
    function Votable(multisig: Address, voter: Voter, expected: Status): Outcome
      requires Valid()
      reads this
    {
      CheckVotable(this.multisig, StatusFromByte(status).value, index, ownersCount, multisig, voter, expected)
    }

    /** `has_voted`. */
    predicate Voted(position: nat)
      requires Valid()
      reads this, votes
      ensures position < ownersCount ==> (Voted(position) <==> HasVoted(Model(), position))
    {
      Get(ApprovedBits(), position) || Get(RejectedBits(), position) || Get(CancelledBits(), position)
    }

    predicate VotedToCancel(position: nat)
      requires Valid()
      reads this, votes
      ensures position < ownersCount ==> (VotedToCancel(position) <==> position in Members(CancelledBits()))
    {
      Get(CancelledBits(), position)
    }

    /** Sets the voter's bit in the bitmap starting at `off`, leaving the other two alone. */
    method Mark(off: nat, position: nat) returns (wasClear: bool)
      requires Valid() && position < ownersCount
      requires off == 0 || off == LenFor(ownersCount) || off == 2 * LenFor(ownersCount)
      modifies votes
      ensures Valid()
      ensures off == 0 ==>
                && wasClear == (position !in Members(old(ApprovedBits())))
                && Members(ApprovedBits()) == Members(old(ApprovedBits())) + {position}
                && RejectedBits() == old(RejectedBits()) && CancelledBits() == old(CancelledBits())
      ensures off == LenFor(ownersCount) ==>
                && wasClear == (position !in Members(old(RejectedBits())))
                && Members(RejectedBits()) == Members(old(RejectedBits())) + {position}
                && ApprovedBits() == old(ApprovedBits()) && CancelledBits() == old(CancelledBits())
      ensures off == 2 * LenFor(ownersCount) ==>
                && wasClear == (position !in Members(old(CancelledBits())))
                && Members(CancelledBits()) == Members(old(CancelledBits())) + {position}
                && ApprovedBits() == old(ApprovedBits()) && RejectedBits() == old(RejectedBits())
    {
      hide Members;
      var len := LenFor(ownersCount);
      ghost var before := votes[..];
      wasClear := Bitmap.Set(votes, off, len, position);
      ghost var after := votes[..];
      ThreeSlices(before, after, len, off);
    }

    /** `latch_approved`. */
    method LatchApproved(now: i64)
      modifies this`status, this`approvedAt
      ensures status == StatusByte(Approved) && approvedAt == now
    {
      status := StatusByte(Approved);
      approvedAt := now;
    }
  }

  lemma ThreeSlices(s: seq<bv8>, t: seq<bv8>, len: nat, off: nat)
    requires |s| == |t| == 3 * len && (off == 0 || off == len || off == 2 * len)
    requires s[..off] == t[..off] && s[off + len..] == t[off + len..]
    ensures off != 0 ==> s[..len] == t[..len]
    ensures off != len ==> s[len..2 * len] == t[len..2 * len]
    ensures off != 2 * len ==> s[2 * len..3 * len] == t[2 * len..3 * len]
  {
    if off == 0 {
      assert s[len..2 * len] == s[off + len..][..len] && t[len..2 * len] == t[off + len..][..len];
      assert s[2 * len..3 * len] == s[off + len..][len..] && t[2 * len..3 * len] == t[off + len..][len..];
    } else if off == len {
      assert s[2 * len..3 * len] == s[off + len..] && t[2 * len..3 * len] == t[off + len..];
    } else {
      assert s[..len] == s[..off][..len] && t[..len] == t[..off][..len];
      assert s[len..2 * len] == s[..off][len..] && t[len..2 * len] == t[..off][len..];
    }
  }

  // The vote handlers

  method PrepareVote(signer: Signer, multisig: MultisigAccount, instruction: seq<byte>, requireVote: bool)
    returns (r: Result<Voter>)
    requires multisig.live && multisig.Valid()
    ensures var spec := Prepare(multisig.Model().value, signer, instruction, requireVote);
            && r == spec
            && (r.Ok? ==> r.value.index < multisig.ownersCount && r.value.ownersCount == multisig.ownersCount)
  {
    if instruction != [] {
      return Err(InvalidInstructionData);
    }
    if !signer.signed {
      return Err(MissingSignature);
    }
    var search := BinarySearch(multisig.Owners(), signer.address);
    if search.Missing? {
      return Err(NotAnOwner);
    }
    var canVote := MaskCanVote(multisig.Permissions()[search.pos]);
    if requireVote && !canVote {
      return Err(Unauthorized);
    }
    var cutoff := (if multisig.voterCount >= multisig.threshold
                   then multisig.voterCount - multisig.threshold else 0) + 1;
    r := Ok(Voter(search.pos, multisig.threshold, cutoff, multisig.ownersCount,
                  multisig.staleTransactionIndex, canVote));
  }

  /** After the guards: the bit, the count and the latch. The bit is clear, so setting it cannot fail. */
  method RecordApproval(transaction: ProposalAccount, voter: Voter, now: i64) returns (r: Outcome)
    requires transaction.Valid() && voter.index < transaction.ownersCount
    requires voter.index !in Members(transaction.ApprovedBits())
    modifies transaction, transaction.votes
    ensures transaction.Valid()
    ensures var p := old(transaction.Model());
            var count := Wrap32(p.approvedCount + 1);
            var q := p.(approved := p.approved + {voter.index}, approvedCount := count);
            var spec := Checked(if count >= voter.threshold then q.(status := Approved, approvedAt := now) else q);
            && r.Ok? == spec.Ok?
            && (r.Ok? ==> transaction.Model() == spec.value)
            && (r.Err? ==> r.error == spec.error)
  {
    hide Members, CheckCounts, LenFor;
    var wasClear := transaction.Mark(0, voter.index);
    if !wasClear {
      assert false;
      return Err(AlreadyVoted);
    }
    transaction.approvedCount := Wrap32(transaction.approvedCount + 1);
    if transaction.approvedCount >= voter.threshold {
      transaction.LatchApproved(now);
    }
    r := transaction.CheckHeader();
  }

  method RecordRejection(transaction: ProposalAccount, voter: Voter) returns (r: Outcome)
    requires transaction.Valid() && voter.index < transaction.ownersCount
    requires voter.index !in Members(transaction.RejectedBits())
    modifies transaction, transaction.votes
    ensures transaction.Valid()
    ensures var p := old(transaction.Model());
            var count := Wrap32(p.rejectedCount + 1);
            var q := p.(rejected := p.rejected + {voter.index}, rejectedCount := count);
            var spec := Checked(if count >= voter.cutoff then q.(status := Rejected) else q);
            && r.Ok? == spec.Ok?
            && (r.Ok? ==> transaction.Model() == spec.value)
            && (r.Err? ==> r.error == spec.error)
  {
    hide Members, CheckCounts, LenFor;
    var wasClear := transaction.Mark(LenFor(transaction.ownersCount), voter.index);
    if !wasClear {
      assert false;
      return Err(AlreadyVoted);
    }
    transaction.rejectedCount := Wrap32(transaction.rejectedCount + 1);
    if transaction.rejectedCount >= voter.cutoff {
      transaction.status := StatusByte(Rejected);
    }
    r := transaction.CheckHeader();
  }

  method RecordCancellation(transaction: ProposalAccount, voter: Voter) returns (r: Outcome)
    requires transaction.Valid() && voter.index < transaction.ownersCount
    requires voter.index !in Members(transaction.CancelledBits())
    modifies transaction, transaction.votes
    ensures transaction.Valid()
    ensures var p := old(transaction.Model());
            var count := Wrap32(p.cancelledCount + 1);
            var q := p.(cancelled := p.cancelled + {voter.index}, cancelledCount := count);
            var spec := Checked(if count >= voter.threshold then q.(status := Cancelled) else q);
            && r.Ok? == spec.Ok?
            && (r.Ok? ==> transaction.Model() == spec.value)
            && (r.Err? ==> r.error == spec.error)
  {
    hide Members, CheckCounts, LenFor;
    var wasClear := transaction.Mark(2 * LenFor(transaction.ownersCount), voter.index);
    if !wasClear {
      assert false;
      return Err(AlreadyVoted);
    }
    transaction.cancelledCount := Wrap32(transaction.cancelledCount + 1);
    if transaction.cancelledCount >= voter.threshold {
      transaction.status := StatusByte(Cancelled);
    }
    r := transaction.CheckHeader();
  }

  method ProcessApprove(
    owner: Signer, multisig: MultisigAccount, transaction: ProposalAccount, instruction: seq<byte>, now: i64)
    returns (r: Outcome)
    requires multisig.live && multisig.Valid() && transaction.Valid()
    modifies transaction, transaction.votes
    ensures transaction.Valid()
    ensures var spec := Approve(old(multisig.Model().value), multisig.address, old(transaction.Model()),
                                owner, instruction, now);
            && r.Ok? == spec.Ok?
            && (r.Ok? ==> transaction.Model() == spec.value)
            && (r.Err? ==> r.error == spec.error)
  {
    hide Members, Prepare, CheckVotable, CheckCounts, Less, Ascending, Rank, PositionOf,
         OwnersIn, PermissionsIn, LenFor;
    var voter :- PrepareVote(owner, multisig, instruction, true);
    var _ :- transaction.Votable(multisig.address, voter, Active);
    if transaction.Voted(voter.index) {
      return Err(AlreadyVoted);
    }
    r := RecordApproval(transaction, voter, now);
  }

  method ProcessReject(
    owner: Signer, multisig: MultisigAccount, transaction: ProposalAccount, instruction: seq<byte>)
    returns (r: Outcome)
    requires multisig.live && multisig.Valid() && transaction.Valid()
    modifies transaction, transaction.votes
    ensures transaction.Valid()
    ensures var spec := Reject(old(multisig.Model().value), multisig.address, old(transaction.Model()),
                               owner, instruction);
            && r.Ok? == spec.Ok?
            && (r.Ok? ==> transaction.Model() == spec.value)
            && (r.Err? ==> r.error == spec.error)
  {
    hide Members, Prepare, CheckVotable, CheckCounts, Less, Ascending, Rank, PositionOf,
         OwnersIn, PermissionsIn, LenFor;
    var voter :- PrepareVote(owner, multisig, instruction, true);
    var _ :- transaction.Votable(multisig.address, voter, Active);
    if transaction.Voted(voter.index) {
      return Err(AlreadyVoted);
    }
    r := RecordRejection(transaction, voter);
  }

  method ProcessCancel(
    signer: Signer, multisig: MultisigAccount, transaction: ProposalAccount, instruction: seq<byte>)
    returns (r: Outcome)
    requires multisig.live && multisig.Valid() && transaction.Valid()
    modifies transaction, transaction.votes
    ensures transaction.Valid()
    ensures var spec := Cancel(old(multisig.Model().value), multisig.address, old(transaction.Model()),
                               signer, instruction);
            && r.Ok? == spec.Ok?
            && (r.Ok? ==> transaction.Model() == spec.value)
            && (r.Err? ==> r.error == spec.error)
  {
    hide Members, Prepare, CheckVotable, CheckCounts, Less, Ascending, Rank, PositionOf,
         OwnersIn, PermissionsIn, LenFor;
    var voter :- PrepareVote(signer, multisig, instruction, false);
    match StatusFromByte(transaction.status).value {
      case Active =>
        var _ :- transaction.Votable(multisig.address, voter, Active);
        if transaction.creator != signer.address {
          return Err(InvalidAccount);
        }
        transaction.status := StatusByte(Cancelled);
      case Approved =>
        var _ :- transaction.Votable(multisig.address, voter, Approved);
        if !voter.canVote {
          return Err(Unauthorized);
        }
        if transaction.VotedToCancel(voter.index) {
          return Err(AlreadyVoted);
        }
        r := RecordCancellation(transaction, voter);
        return;
      case _ =>
        return Err(InvalidStatus);
    }
    r := transaction.CheckHeader();
  }
}
