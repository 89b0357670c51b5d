/** What holds of every proposal in every state that some run can reach. */
module Safety {
  import opened Base
  import opened OwnerSet
  import opened MultisigSpec
  import opened MessageCodec
  import opened ProposalSpec
  import opened AccountResolution
  import opened ExecuteSpec
  import opened ProposalLaws
  import opened Machine
  import opened Invariant

  /** The owners at the given positions. */
  ghost function Named(owners: seq<Address>, positions: set<nat>): set<Address> {
    set k: nat | k in positions && k < |owners| :: owners[k]
  }

  /** Positions name distinct owners, so counting bits counts people. */
  lemma {:induction false} NamedCardinality(owners: seq<Address>, positions: set<nat>)
    requires Ascending(owners) && forall k :: k in positions ==> k < |owners|
    ensures |Named(owners, positions)| == |positions|
    decreases |positions|
  {
    hide Ascending, Less;
    if positions == {} {
      assert Named(owners, {}) == {};
    } else {
      var k :| k in positions;
      var rest := positions - {k};
      NamedCardinality(owners, rest);
      OnlyPosition(owners, k);
      assert owners[k] !in Named(owners, rest);
      assert Named(owners, positions) == Named(owners, rest) + {owners[k]};
    }
  }

  /** The voters at the given positions: as many as the positions, and each permitted to vote. */
  lemma NamedVoters(t: Rules, positions: set<nat>)
    requires RulesInv(t) && positions <= Voters(t.permissions)
    ensures |Named(t.owners, positions)| == |positions|
    ensures forall who :: who in Named(t.owners, positions) ==> HasPermission(t, who, Vote)
  {
    hide MaskAllows, Less;
    NamedCardinality(t.owners, positions);
    forall who | who in Named(t.owners, positions) ensures HasPermission(t, who, Vote) {
      var k: nat :| k in positions && k < |t.owners| && t.owners[k] == who;
      PositionOfAt(t.owners, k);
    }
  }

  /** A proposal of a reachable state, with the rules it was created under. */
  lemma EntryAt(env: Env, s: State, i: nat)
    requires Reachable(env, s) && i in s.props
    ensures i in s.snaps && EntryOk(s.self, i, s.props[i], s.snaps[i], i in s.open, s.log)
  {
    hide Reachable, EntryOk, AccountOk;
    ReachableInv(env, s);
    assert IndexOk(s, i);
  }

  /**
   * Authorisation. Whatever happened before, a proposal that is approved or was executed carries
   * the votes of exactly the threshold of its creation: that many distinct owners of that time,
   * each permitted to vote then, and they are exactly the owners who signed an approval of it.
   */
  lemma Authorised(env: Env, s: State, i: nat)
    requires Reachable(env, s) && i in s.props
    requires s.props[i].status == Approved || s.props[i].status == Executed
    ensures i in s.snaps && RulesInv(s.snaps[i])
    ensures var p, t := s.props[i], s.snaps[i];
            var approvers := Named(t.owners, p.approved);
            && p.approvedCount == |approvers| == t.threshold
            && (forall who :: who in approvers ==> HasPermission(t, who, Vote))
            && (forall who :: who in approvers <==> who in t.owners && ApprovedBy(s.log, i, who))
  {
    hide Reachable, ApprovedBy, RejectedBy, CancelledBy, StampedAt, Ascending, MaskAllows, ContentsOk;
    EntryAt(env, s, i);
    var p, t := s.props[i], s.snaps[i];
    NamedVoters(t, p.approved);
    assert |t.permissions| == |t.owners|;
  }

  /**
   * A Rejected proposal was rejected by exactly the cutoff of distinct permitted owners, who
   * signed, and at that point the remaining voters could no longer reach the threshold.
   */
  lemma RejectedByCutoff(env: Env, s: State, i: nat)
    requires Reachable(env, s) && i in s.props && s.props[i].status == Rejected
    ensures i in s.snaps && RulesInv(s.snaps[i])
    ensures var p, t := s.props[i], s.snaps[i];
            var rejecters := Named(t.owners, p.rejected);
            && |rejecters| == t.voterCount - t.threshold + 1
            && t.voterCount - |rejecters| < t.threshold
            && (forall who :: who in rejecters ==> HasPermission(t, who, Vote))
            && (forall who :: who in rejecters <==> who in t.owners && RejectedBy(s.log, i, who))
  {
    hide Reachable, ApprovedBy, RejectedBy, CancelledBy, StampedAt, Ascending, MaskAllows, ContentsOk;
    EntryAt(env, s, i);
    var p, t := s.props[i], s.snaps[i];
    NamedVoters(t, p.rejected);
    assert |t.permissions| == |t.owners|;
  }

  /**
   * A proposal that had been approved is cancelled only by exactly the threshold of distinct
   * permitted owners, who signed; any other cancelled proposal never reached approval.
   */
  lemma CancelledByThreshold(env: Env, s: State, i: nat)
    requires Reachable(env, s) && i in s.props && s.props[i].status == Cancelled
    ensures i in s.snaps && RulesInv(s.snaps[i])
    ensures var p, t := s.props[i], s.snaps[i];
            var cancellers := Named(t.owners, p.cancelled);
            && (p.approvedCount < t.threshold ==> cancellers == {})
            && (p.approvedCount >= t.threshold ==> |cancellers| == t.threshold)
            && (forall who :: who in cancellers ==> HasPermission(t, who, Vote))
            && (p.approvedCount >= t.threshold ==>
                  forall who :: who in cancellers <==> who in t.owners && CancelledBy(s.log, i, who))
  {
    hide Reachable, ApprovedBy, RejectedBy, CancelledBy, StampedAt, Ascending, MaskAllows, ContentsOk;
    EntryAt(env, s, i);
    var p, t := s.props[i], s.snaps[i];
    NamedVoters(t, p.cancelled);
    assert |t.permissions| == |t.owners|;
  }

  /**
   * The votes a proposal stores are sound: each count is the number of bits set, nobody has both
   * approved and rejected, and every bit belongs to an owner who could vote at its creation, so
   * none is set at or above the owner count.
   */
  lemma VotesSound(env: Env, s: State, i: nat)
    requires Reachable(env, s) && i in s.props
    ensures i in s.snaps
    ensures var p, t := s.props[i], s.snaps[i];
            && p.approvedCount == |p.approved| && p.rejectedCount == |p.rejected|
            && p.cancelledCount == |p.cancelled|
            && p.approved !! p.rejected
            && p.ownersCount == |t.owners|
            && (forall k :: k in p.approved + p.rejected + p.cancelled ==> k < p.ownersCount)
            && p.approved + p.rejected + p.cancelled <= Voters(t.permissions)
  {
    hide Reachable, PhaseOk, ContentsOk, Evidence, MaskAllows;
    EntryAt(env, s, i);
  }

  /** No index is ever executed twice, and an executed one is marked so for good. */
  lemma ExecutedAtMostOnce(env: Env, s: State, i: nat)
    requires Reachable(env, s)
    ensures Executions(s.log, i) == if i in s.props && s.props[i].status == Executed then 1 else 0
  {
    hide Reachable, AccountOk, ProposalInv, Evidence, Executions, Steps;
    ReachableInv(env, s);
    assert IndexOk(s, i);
  }

  /** After its creation a proposal takes part in a bounded number of successful steps. */
  lemma StepsBounded(env: Env, s: State, i: nat)
    requires Reachable(env, s) && i in s.props
    ensures i in s.snaps
    ensures Steps(s.log, i) <= s.snaps[i].voterCount + s.snaps[i].threshold + 1
  {
    hide Reachable, Evidence, Executions, Steps, Voters, Ascending, CountVoters, ContentsOk;
    EntryAt(env, s, i);
    VotesBound(s.props[i], s.snaps[i]);
  }

  /** The blob stored with a proposal parses for as long as the proposal exists. */
  lemma StoredMessageParses(env: Env, s: State, i: nat)
    requires Reachable(env, s) && i in s.props
    ensures Decode(s.props[i].message).Some? && |s.props[i].message| <= 4096
  {
    hide Reachable, Decode;
    EntryAt(env, s, i);
  }

  /**
   * Execution only ever follows the approval latch: the proposal is Approved, its latch was
   * stamped by an approval of it, any positive time lock in force now has passed since, and
   * the executor signed and is permitted to execute. Only its status changes.
   */
  lemma ExecutionGuarded(env: Env, s: State, e: Event)
    requires Reachable(env, s) && e.ExecuteEvent? && Apply(env, s, e).Ok?
    ensures Live(s) && e.index in s.open && e.index in s.props
    ensures var p, m, s' := s.props[e.index], s.ms.value, Apply(env, s, e).value;
            && p.status == Approved
            && StampedAt(s.log, e.index, p.approvedAt)
            && (m.rules.timeLock == 0 || e.call.now - p.approvedAt >= m.rules.timeLock)
            && e.call.executor.signed && HasPermission(m.rules, e.call.executor.address, Execute)
            && s'.props == s.props[e.index := p.(status := Executed)]
            && Executions(s.log, e.index) == 0
  {
    hide Reachable, ExecuteProposal, StampedAt, ApprovedBy, RejectedBy, CancelledBy, MaskAllows,
         Ascending, Voters, CountVoters, ContentsOk;
    EntryAt(env, s, e.index);
    ReachableInv(env, s);
    ExecuteKeeps(s.ms.value, s.self, e.index, s.props[e.index], s.snaps[e.index],
                 e.call.(programId := env.programId));
  }

  /** When an execution may start: everything `execute` asks before it looks at the message. */
  ghost predicate MayExecute(m: Multisig, p: Proposal, c: Call)
    requires LayoutOk(m)
  {
    && p.status == Approved && c.instruction == [] && c.executor.signed
    && HasPermission(m.rules, c.executor.address, Execute)
    && (m.rules.timeLock == 0 || m.rules.timeLock <= c.now - p.approvedAt < 0x8000_0000_0000_0000)
  }

  /**
   * An execution is accepted exactly from a permitted owner, on an open Approved proposal, stale or
   * not, after any time lock, with the message's own accounts, when its instructions run through.
   */
  lemma ExecutionAccepted(env: Env, s: State, e: Event)
    requires Reachable(env, s) && e.ExecuteEvent?
    ensures Apply(env, s, e).Ok?
        <==> && s.ms.Some? && LayoutOk(s.ms.value) && e.index in s.open && e.index in s.props
             && MayExecute(s.ms.value, s.props[e.index], e.call)
             && RunsThrough(s.ms.value, s.props[e.index].message, e.call.(programId := env.programId))
  {
    hide Reachable, RulesInv, Decode, AccountsOk, RunFrom, HasPermission, PhaseOk, Evidence, CheckCounts,
         ApprovedBy, RejectedBy, CancelledBy, StampedAt;
    if Live(s) && e.index in s.open && e.index in s.props {
      EntryAt(env, s, e.index);
      CheckedSucceeds(s.props[e.index].(status := Executed), s.snaps[e.index]);
    }
  }

  /**
   * For a message of external instructions only, running through means just that the accounts are
   * the message's and each call is small enough and accepted; the account is then untouched.
   */
  lemma ExternalMessageRuns(m: Multisig, blob: seq<byte>, c: Call)
    requires LayoutOk(m) && Decode(blob).Some?
    ensures AccountsOk(Decode(blob).value, c.views) ==>
              var ixs := Decode(blob).value.instructions;
              && (forall i :: 0 <= i < |ixs| ==> ixs[i].program < |c.views|)
              && (ExternalFrom(c, ixs, 0) ==>
                    && (RunsThrough(m, blob, c) <==> CallsAccepted(c, ixs, 0))
                    && (RunsThrough(m, blob, c) ==> RunFrom(c, ixs, 0, Some(m)).value == Some(m)))
  {
    hide Decode, AccountsOk, RunFrom, CallsAccepted, ExternalFrom;
    if AccountsOk(Decode(blob).value, c.views) {
      ProgramsInRange(blob, c.views);
      if ExternalFrom(c, Decode(blob).value.instructions, 0) {
        ExternalRun(c, Decode(blob).value.instructions, 0, Some(m));
      }
    }
  }

  /** Nobody else may execute: without the permission any signed attempt is refused, whatever the status. */
  lemma ExecutionUnauthorised(env: Env, s: State, e: Event)
    requires Reachable(env, s) && e.ExecuteEvent? && Live(s) && e.index in s.open && e.index in s.props
    requires e.call.instruction == [] && e.call.executor.signed
    requires !HasPermission(s.ms.value.rules, e.call.executor.address, Execute)
    ensures Apply(env, s, e).Err? && Apply(env, s, e).error == Unauthorized
  {
    hide Reachable, Decode, AccountsOk, RunFrom, HasPermission;
  }

  // Votes and the rules they are counted against

  /**
   * Of the four checks every vote shares, only two can fail in a reachable state: the status, and
   * whether the proposal is stale. It is always this multisig's, and a fresh one always matches the
   * owner count the voter was found in.
   */
  lemma VotableIffFresh(env: Env, s: State, i: nat, signer: Signer, requireVote: bool, expected: Status)
    requires Reachable(env, s) && Live(s) && i in s.props
    requires Prepare(s.ms.value, signer, [], requireVote).Ok?
    ensures var p, voter := s.props[i], Prepare(s.ms.value, signer, [], requireVote).value;
            CheckVotable(p.multisig, p.status, p.index, p.ownersCount, s.self, voter, expected).Ok?
            <==> p.status == expected && i > s.ms.value.staleTransactionIndex
  {
    hide Reachable, RulesInv, Evidence, PhaseOk, ContentsOk;
    EntryAt(env, s, i);
    ReachableInv(env, s);
  }

  /**
   * Snapshot stability: while a proposal is not stale, the rules in force are the ones it was
   * created under, so a bit position still names the same owner and the owner-count comparison
   * that follows the staleness check never fails.
   */
  lemma SnapshotsStable(env: Env, s: State, i: nat)
    requires Reachable(env, s) && s.ms.Some? && i in s.props && i > s.ms.value.staleTransactionIndex
    ensures i in s.snaps && s.snaps[i] == s.ms.value.rules
    ensures s.props[i].ownersCount == |s.ms.value.rules.owners|
  {
    hide Reachable, RulesInv, Evidence;
    EntryAt(env, s, i);
    ReachableInv(env, s);
  }

  /** A proposal is created exactly by a permitted owner, with a message that parses, at a free index. */
  lemma CreationAccepted(env: Env, s: State, e: Event)
    requires Reachable(env, s) && e.CreateEvent?
    ensures Apply(env, s, e).Ok?
        <==> && s.ms.Some? && LayoutOk(s.ms.value)
             && e.creator.signed && HasPermission(s.ms.value.rules, e.creator.address, Initiate)
             && s.ms.value.transactionIndex + 1 < 0x1_0000_0000_0000_0000
             && 8 <= |e.instruction| <= 8 + 4096 && e.instruction[3] <= 4
             && Decode(e.instruction[8..]).Some?
             && e.vacant && e.runtimeOk
  {
    hide Reachable, Ascending, CountVoters, Decode, IndexOk, Numbered, Conserved, SnapshotsHold, MaskAllows;
    ReachableInv(env, s);
  }

  /** An approval is accepted exactly from a permitted owner with no vote yet on an open, fresh, Active proposal. */
  lemma ApprovalAccepted(env: Env, s: State, e: Event)
    requires Reachable(env, s) && e.ApproveEvent?
    ensures Apply(env, s, e).Ok?
        <==> && s.ms.Some? && LayoutOk(s.ms.value) && e.index in s.open && e.index in s.props
             && MayVote(s.ms.value, s.props[e.index], e.owner, e.instruction, Active)
             && !HasVoted(s.props[e.index], PositionOf(s.ms.value.rules.owners, e.owner.address))
  {
    hide Reachable, Approve, RulesInv, HasVoted, MayVote, VotesOk, PhaseOk, Evidence;
    if Live(s) && e.index in s.open && e.index in s.props {
      EntryAt(env, s, e.index);
      ReachableInv(env, s);
      ApproveExact(s.ms.value, s.self, e.index, s.props[e.index], s.snaps[e.index],
                   e.owner, e.instruction, e.now);
    }
  }

  lemma RejectionAccepted(env: Env, s: State, e: Event)
    requires Reachable(env, s) && e.RejectEvent?
    ensures Apply(env, s, e).Ok?
        <==> && s.ms.Some? && LayoutOk(s.ms.value) && e.index in s.open && e.index in s.props
             && MayVote(s.ms.value, s.props[e.index], e.owner, e.instruction, Active)
             && !HasVoted(s.props[e.index], PositionOf(s.ms.value.rules.owners, e.owner.address))
  {
    hide Reachable, Reject, RulesInv, HasVoted, MayVote, VotesOk, PhaseOk, Evidence;
    if Live(s) && e.index in s.open && e.index in s.props {
      EntryAt(env, s, e.index);
      ReachableInv(env, s);
      RejectExact(s.ms.value, s.self, e.index, s.props[e.index], s.snaps[e.index],
                  e.owner, e.instruction);
    }
  }

  lemma CancellationAccepted(env: Env, s: State, e: Event)
    requires Reachable(env, s) && e.CancelEvent?
    ensures Apply(env, s, e).Ok?
        <==> && s.ms.Some? && LayoutOk(s.ms.value) && e.index in s.open && e.index in s.props
             && (|| MayWithdraw(s.ms.value, s.props[e.index], e.owner, e.instruction)
                 || MayVoteToCancel(s.ms.value, s.props[e.index], e.owner, e.instruction))
  {
    hide Reachable, Cancel, RulesInv, MayWithdraw, MayVoteToCancel, VotesOk, PhaseOk, Evidence;
    if Live(s) && e.index in s.open && e.index in s.props {
      EntryAt(env, s, e.index);
      ReachableInv(env, s);
      CancelExact(s.ms.value, s.self, e.index, s.props[e.index], s.snaps[e.index],
                  e.owner, e.instruction);
    }
  }
}
