/** What one proposal satisfies against the rules it was created under, and what each step keeps. */
module ProposalLaws {
  import opened Base
  import opened OwnerSet
  import opened MultisigSpec
  import opened MessageCodec
  import opened ProposalSpec
  import opened ExecuteSpec
  import AccountResolution

  /** Stored counts are the bitmaps' cardinalities, and every bit names a permitted voter. */
  ghost predicate VotesOk(p: Proposal, t: Rules) {
    && p.ownersCount == |t.owners|
    && p.approved <= Voters(t.permissions)
    && p.rejected <= Voters(t.permissions)
    && p.cancelled <= Voters(t.permissions)
    && p.approved !! p.rejected
    && p.approvedCount == |p.approved|
    && p.rejectedCount == |p.rejected|
    && p.cancelledCount == |p.cancelled|
  }

  /** The counts each status stands for, against the threshold and cutoff of `t`. */
  ghost predicate PhaseOk(p: Proposal, t: Rules) {
    var approvals, rejections, cancellations := |p.approved|, |p.rejected|, |p.cancelled|;
    match p.status
    case Active => approvals < t.threshold && rejections < Cutoff(t) && cancellations == 0
    case Approved => approvals == t.threshold && rejections < Cutoff(t) && cancellations < t.threshold
    case Executed => approvals == t.threshold && rejections < Cutoff(t) && cancellations < t.threshold
    case Rejected => approvals < t.threshold && rejections == Cutoff(t) && cancellations == 0
    case Cancelled =>
      && rejections < Cutoff(t)
      && (|| (approvals < t.threshold && cancellations == 0)
          || (approvals == t.threshold && cancellations == t.threshold))
  }

  ghost predicate ContentsOk(p: Proposal) {
    |p.message| <= MAX_MESSAGE_SIZE && Decode(p.message).Some? && p.ephemeralCount <= MAX_EPHEMERAL_SIGNERS
  }

  ghost predicate ProposalInv(self: Address, i: nat, p: Proposal, t: Rules) {
    && p.index == i && p.multisig == self && p.creator in t.owners
    && RulesInv(t) && VotesOk(p, t) && PhaseOk(p, t) && ContentsOk(p)
  }

  /** The proposal without its votes: everything but the voting state, as first stored. */
  function AsCreated(p: Proposal): Proposal {
    p.(approvedAt := 0, approved := {}, rejected := {}, cancelled := {},
       approvedCount := 0, rejectedCount := 0, cancelledCount := 0, status := Active)
  }

  lemma SubsetCardinality<T>(a: set<T>, b: set<T>)
    requires a <= b
    ensures |a| <= |b|
  {
    assert b == a + (b - a);
  }

  /** Approvals and rejections together are at most the voters. */
  lemma VotesBound(p: Proposal, t: Rules)
    requires RulesInv(t) && VotesOk(p, t)
    ensures |p.approved| + |p.rejected| <= t.voterCount <= p.ownersCount <= MAX_OWNER
    ensures |p.cancelled| <= t.voterCount
  {
    VotersCount(t.permissions);
    assert |p.approved + p.rejected| == |p.approved| + |p.rejected|;
    SubsetCardinality(p.approved + p.rejected, Voters(t.permissions));
    SubsetCardinality(p.cancelled, Voters(t.permissions));
  }

  /** The header check after a step cannot fail on a proposal that satisfies the invariant. */
  lemma CheckedSucceeds(p: Proposal, t: Rules)
    requires RulesInv(t) && VotesOk(p, t) && ContentsOk(p)
    ensures Checked(p) == Ok(p)
  {
    VotesBound(p, t);
  }

  /** The signer is an owner permitted to vote, and the proposal is still open to votes. */
  ghost predicate MayVote(m: Multisig, p: Proposal, signer: Signer, instruction: seq<byte>, expected: Status)
    requires LayoutOk(m)
  {
    && instruction == [] && signer.signed
    && HasPermission(m.rules, signer.address, Vote)
    && p.status == expected && p.index > m.staleTransactionIndex
  }

  /** The owners a vote counts for are exactly those at a voter's position. */
  lemma VoterPosition(r: Rules, who: Address)
    requires |r.permissions| == |r.owners|
    ensures HasPermission(r, who, Vote)
        <==> who in r.owners && PositionOf(r.owners, who) in Voters(r.permissions)
  {
  }

  lemma WithMember(s: set<nat>, k: nat)
    requires k !in s
    ensures |s + {k}| == |s| + 1
  {
  }

  // Each kind of mark keeps the counts equal to the bitmaps, and the header check passes.

  lemma ApprovalMarks(p: Proposal, q: Proposal, t: Rules, k: nat)
    requires RulesInv(t) && VotesOk(p, t) && ContentsOk(p)
    requires k in Voters(t.permissions) && k !in p.approved && k !in p.rejected
    requires q == p.(approved := p.approved + {k}, approvedCount := Wrap32(p.approvedCount + 1),
                     status := q.status, approvedAt := q.approvedAt)
    ensures VotesOk(q, t) && |q.approved| == |p.approved| + 1 == q.approvedCount
    ensures Checked(q) == Ok(q)
  {
    hide Voters, RulesInv, Decode, CheckCounts;
    VotesBound(p, t);
    WithMember(p.approved, k);
    CheckedSucceeds(q, t);
  }

  lemma RejectionMarks(p: Proposal, q: Proposal, t: Rules, k: nat)
    requires RulesInv(t) && VotesOk(p, t) && ContentsOk(p)
    requires k in Voters(t.permissions) && k !in p.approved && k !in p.rejected
    requires q == p.(rejected := p.rejected + {k}, rejectedCount := Wrap32(p.rejectedCount + 1),
                     status := q.status)
    ensures VotesOk(q, t) && |q.rejected| == |p.rejected| + 1 == q.rejectedCount
    ensures Checked(q) == Ok(q)
  {
    hide Voters, RulesInv, Decode, CheckCounts;
    VotesBound(p, t);
    WithMember(p.rejected, k);
    CheckedSucceeds(q, t);
  }

  lemma CancellationMarks(p: Proposal, q: Proposal, t: Rules, k: nat)
    requires RulesInv(t) && VotesOk(p, t) && ContentsOk(p)
    requires k in Voters(t.permissions) && k !in p.cancelled
    requires q == p.(cancelled := p.cancelled + {k}, cancelledCount := Wrap32(p.cancelledCount + 1),
                     status := q.status)
    ensures VotesOk(q, t) && |q.cancelled| == |p.cancelled| + 1 == q.cancelledCount
    ensures Checked(q) == Ok(q)
  {
    hide Voters, RulesInv, Decode, CheckCounts;
    VotesBound(p, t);
    WithMember(p.cancelled, k);
    CheckedSucceeds(q, t);
  }

  /**
   * An approval succeeds exactly for a permitted voter who has not voted on an Active,
   * non-stale proposal: no other check in the handler can then fail, and no count wraps.
   */
  lemma ApproveExact(m: Multisig, self: Address, i: nat, p: Proposal, t: Rules,
                     owner: Signer, instruction: seq<byte>, now: i64)
    requires MultisigInv(m) && ProposalInv(self, i, p, t)
    requires i > m.staleTransactionIndex ==> t == m.rules
    ensures var out := Approve(m, self, p, owner, instruction, now);
            && (out.Ok? <==> && MayVote(m, p, owner, instruction, Active)
                             && !HasVoted(p, PositionOf(m.rules.owners, owner.address)))
            && (out.Ok? ==>
                  var k, q := PositionOf(m.rules.owners, owner.address), out.value;
                  && t == m.rules
                  && ProposalInv(self, i, q, t)
                  && k !in p.approved
                  && q.approved == p.approved + {k} && q.rejected == p.rejected && q.cancelled == p.cancelled
                  && (if |q.approved| == t.threshold then q.status == Approved && q.approvedAt == now
                      else q.status == Active && q.approvedAt == p.approvedAt)
                  && AsCreated(q) == AsCreated(p))
  {
    hide Decode, Checked, Voters, Ascending;
    VoterPosition(m.rules, owner.address);
    if MayVote(m, p, owner, instruction, Active) && !HasVoted(p, PositionOf(m.rules.owners, owner.address)) {
      var k := PositionOf(m.rules.owners, owner.address);
      var q := p.(approved := p.approved + {k}, approvedCount := Wrap32(p.approvedCount + 1));
      ApprovalMarks(p, q, t, k);
      ApprovalMarks(p, q.(status := Approved, approvedAt := now), t, k);
    }
  }

  /** A rejection succeeds exactly when an approval would; the last one needed latches. */
  lemma RejectExact(m: Multisig, self: Address, i: nat, p: Proposal, t: Rules,
                    owner: Signer, instruction: seq<byte>)
    requires MultisigInv(m) && ProposalInv(self, i, p, t)
    requires i > m.staleTransactionIndex ==> t == m.rules
    ensures var out := Reject(m, self, p, owner, instruction);
            && (out.Ok? <==> && MayVote(m, p, owner, instruction, Active)
                             && !HasVoted(p, PositionOf(m.rules.owners, owner.address)))
            && (out.Ok? ==>
                  var k, q := PositionOf(m.rules.owners, owner.address), out.value;
                  && t == m.rules
                  && ProposalInv(self, i, q, t)
                  && k !in p.rejected
                  && q.approved == p.approved && q.rejected == p.rejected + {k} && q.cancelled == p.cancelled
                  && q.status == (if |q.rejected| == Cutoff(t) then Rejected else Active)
                  && q.approvedAt == p.approvedAt && AsCreated(q) == AsCreated(p))
  {
    hide Decode, Checked, Voters, Ascending;
    VoterPosition(m.rules, owner.address);
    if MayVote(m, p, owner, instruction, Active) && !HasVoted(p, PositionOf(m.rules.owners, owner.address)) {
      var k := PositionOf(m.rules.owners, owner.address);
      var q := p.(rejected := p.rejected + {k}, rejectedCount := Wrap32(p.rejectedCount + 1));
      RejectionMarks(p, q, t, k);
      RejectionMarks(p, q.(status := Rejected), t, k);
    }
  }

  /** When a signer may withdraw an Active proposal alone. */
  ghost predicate MayWithdraw(m: Multisig, p: Proposal, signer: Signer, instruction: seq<byte>) {
    && instruction == [] && signer.signed && signer.address in m.rules.owners
    && p.status == Active && p.index > m.staleTransactionIndex && p.creator == signer.address
  }

  /** When a signer may add a vote to cancel an Approved proposal. */
  ghost predicate MayVoteToCancel(m: Multisig, p: Proposal, signer: Signer, instruction: seq<byte>)
    requires LayoutOk(m)
  {
    && MayVote(m, p, signer, instruction, Approved)
    && PositionOf(m.rules.owners, signer.address) !in p.cancelled
  }

  lemma WithdrawalExact(m: Multisig, self: Address, i: nat, p: Proposal, t: Rules,
                        signer: Signer, instruction: seq<byte>)
    requires MultisigInv(m) && ProposalInv(self, i, p, t) && p.status == Active
    requires i > m.staleTransactionIndex ==> t == m.rules
    ensures var out := Cancel(m, self, p, signer, instruction);
            && (out.Ok? <==> MayWithdraw(m, p, signer, instruction))
            && (out.Ok? ==>
                  && t == m.rules && out.value == p.(status := Cancelled)
                  && ProposalInv(self, i, out.value, t))
  {
    hide Decode, CheckCounts, Voters, Ascending;
    CheckedSucceeds(p.(status := Cancelled), t);
  }

  lemma CancelVoteExact(m: Multisig, self: Address, i: nat, p: Proposal, t: Rules,
                        signer: Signer, instruction: seq<byte>)
    requires MultisigInv(m) && ProposalInv(self, i, p, t) && p.status == Approved
    requires i > m.staleTransactionIndex ==> t == m.rules
    ensures var out := Cancel(m, self, p, signer, instruction);
            && (out.Ok? <==> MayVoteToCancel(m, p, signer, instruction))
            && (out.Ok? ==>
                  var k, q := PositionOf(m.rules.owners, signer.address), out.value;
                  && t == m.rules
                  && q == p.(cancelled := p.cancelled + {k}, cancelledCount := q.cancelledCount, status := q.status)
                  && ProposalInv(self, i, q, t)
                  && k !in p.cancelled
                  && q.status == (if |q.cancelled| == t.threshold then Cancelled else Approved))
  {
    hide Decode, Checked, Voters, Ascending;
    VoterPosition(m.rules, signer.address);
    if MayVoteToCancel(m, p, signer, instruction) {
      var k := PositionOf(m.rules.owners, signer.address);
      var q := p.(cancelled := p.cancelled + {k}, cancelledCount := Wrap32(p.cancelledCount + 1));
      CancellationMarks(p, q, t, k);
      CancellationMarks(p, q.(status := Cancelled), t, k);
    }
  }

  lemma EndedNotCancelled(m: Multisig, self: Address, p: Proposal, signer: Signer, instruction: seq<byte>)
    requires MultisigInv(m) && p.status != Active && p.status != Approved
    ensures Cancel(m, self, p, signer, instruction).Err?
  {
  }

  /** Cancelling succeeds on exactly two paths, and only the threshold cancels what was approved. */
  lemma CancelExact(m: Multisig, self: Address, i: nat, p: Proposal, t: Rules,
                    signer: Signer, instruction: seq<byte>)
    requires MultisigInv(m) && ProposalInv(self, i, p, t)
    requires i > m.staleTransactionIndex ==> t == m.rules
    ensures var out := Cancel(m, self, p, signer, instruction);
            && (out.Ok? <==> MayWithdraw(m, p, signer, instruction) || MayVoteToCancel(m, p, signer, instruction))
            && (out.Ok? ==>
                  var k, q := PositionOf(m.rules.owners, signer.address), out.value;
                  && t == m.rules
                  && ProposalInv(self, i, q, t)
                  && q.approved == p.approved && q.rejected == p.rejected
                  && q.approvedAt == p.approvedAt && AsCreated(q) == AsCreated(p)
                  && (p.status == Active ==> q.cancelled == p.cancelled && q.status == Cancelled)
                  && (p.status == Approved ==>
                        && k !in p.cancelled && q.cancelled == p.cancelled + {k}
                        && q.status == (if |q.cancelled| == t.threshold then Cancelled else Approved)))
  {
    hide Cancel, Ascending, CountVoters, VotesOk, PhaseOk, ContentsOk, Cutoff;
    if p.status == Active {
      WithdrawalExact(m, self, i, p, t, signer, instruction);
    } else if p.status == Approved {
      CancelVoteExact(m, self, i, p, t, signer, instruction);
    } else {
      EndedNotCancelled(m, self, p, signer, instruction);
    }
  }

  /** Execution moves an Approved proposal to Executed and changes nothing else in it. */
  lemma ExecuteKeeps(m: Multisig, self: Address, i: nat, p: Proposal, t: Rules, c: Call)
    requires MultisigInv(m) && ProposalInv(self, i, p, t)
    ensures var out := ExecuteProposal(m, self, p, c);
            out.Ok? ==>
              && p.status == Approved
              && out.value.1 == p.(status := Executed)
              && ProposalInv(self, i, out.value.1, t)
              && (m.rules.timeLock == 0 || c.now - p.approvedAt >= m.rules.timeLock)
              && c.executor.signed && HasPermission(m.rules, c.executor.address, Execute)
  {
    hide Decode, CheckCounts, RunFrom, AccountResolution.AccountsOk;
    CheckedSucceeds(p.(status := Executed), t);
  }

  lemma CreateKeeps(m: Multisig, self: Address, creator: Address, message: seq<byte>, h: Header, runtimeOk: bool)
    requires MultisigInv(m)
    ensures var out := InitProposal(m, self, creator, message, h, runtimeOk);
            out.Ok? ==>
              var (m', p) := out.value;
              && m' == m.(transactionIndex := m.transactionIndex + 1) && MultisigInv(m')
              && p == Proposal(self, creator, m'.transactionIndex, 0, |m.rules.owners|, {}, {}, {}, 0, 0, 0, Active,
                               h.vaultIndex, h.vaultBump, h.bump, h.ephemeralCount, h.ephemeralBumps, message)
              && ProposalInv(self, p.index, p, m.rules)
  {
    hide Decode;
  }
}
