/** The error each instruction fails with in a reachable state: the first thing wrong, in the order it is looked for. */
module Refusals {
  import opened Base
  import opened OwnerSet
  import opened MultisigSpec
  import opened MessageCodec
  import opened ProposalSpec
  import opened BufferSpec
  import opened AccountResolution
  import opened ExecuteSpec
  import opened ProposalLaws
  import opened Machine
  import opened Invariant
  import opened Safety
  import opened ActionEffects
  import opened Provenance

  /** The instruction is about an open proposal of a multisig that exists. */
  ghost predicate About(s: State, i: nat) {
    Live(s) && i in s.open && i in s.props
  }

  /** What every vote looks at before the proposal: data, signature, ownership and, if asked, the permission. */
  ghost function VoterFault(m: Multisig, signer: Signer, instruction: seq<byte>, requireVote: bool): Option<Error>
    requires LayoutOk(m)
  {
    if instruction != [] then Some(InvalidInstructionData)
    else if !signer.signed then Some(MissingSignature)
    else if signer.address !in m.rules.owners then Some(NotAnOwner)
    else if requireVote && !HasPermission(m.rules, signer.address, Vote) then Some(Unauthorized)
    else None
  }

  /** Approvals and rejections fail alike, and never for another reason. */
  lemma VoteRefused(env: Env, s: State, e: Event)
    requires Reachable(env, s) && (e.ApproveEvent? || e.RejectEvent?) && About(s, e.index) && Apply(env, s, e).Err?
    ensures var fault := VoterFault(s.ms.value, e.owner, e.instruction, true);
            Apply(env, s, e).error ==
              if fault.Some? then fault.value
              else if s.props[e.index].status != Active then InvalidStatus
              else if e.index <= s.ms.value.staleTransactionIndex then StaleTransaction
              else AlreadyVoted
  {
    hide Reachable, Evidence, RulesInv, VotesOk, PhaseOk, ContentsOk, MaskAllows, CheckCounts;
    EntryAt(env, s, e.index);
    if e.ApproveEvent? {
      ApprovalAccepted(env, s, e);
    } else {
      RejectionAccepted(env, s, e);
    }
    if e.index > s.ms.value.staleTransactionIndex {
      SnapshotsStable(env, s, e.index);
    }
  }

  lemma CancellationRefused(env: Env, s: State, e: Event)
    requires Reachable(env, s) && e.CancelEvent? && About(s, e.index) && Apply(env, s, e).Err?
    ensures var p := s.props[e.index];
            var fault := VoterFault(s.ms.value, e.owner, e.instruction, false);
            Apply(env, s, e).error ==
              if fault.Some? then fault.value
              else if p.status != Active && p.status != Approved then InvalidStatus
              else if e.index <= s.ms.value.staleTransactionIndex then StaleTransaction
              else if p.status == Active then InvalidAccount
              else if !HasPermission(s.ms.value.rules, e.owner.address, Vote) then Unauthorized
              else AlreadyVoted
  {
    hide Reachable, Evidence, RulesInv, VotesOk, PhaseOk, ContentsOk, MaskAllows, CheckCounts;
    EntryAt(env, s, e.index);
    CancellationAccepted(env, s, e);
    if e.index > s.ms.value.staleTransactionIndex {
      SnapshotsStable(env, s, e.index);
    }
  }

  lemma ExecutionRefused(env: Env, s: State, e: Event)
    requires Reachable(env, s) && e.ExecuteEvent? && About(s, e.index) && Apply(env, s, e).Err?
    ensures var p, c, r := s.props[e.index], e.call, s.ms.value.rules;
            var waited := c.now - p.approvedAt;
            && Decode(p.message).Some?
            && var m := Decode(p.message).value;
               var resolved := ResolveAccounts(m, c.views);
               && (if c.instruction != [] then Apply(env, s, e) == Err(InvalidInstructionData)
                   else if !c.executor.signed then Apply(env, s, e) == Err(MissingSignature)
                   else if !HasPermission(r, c.executor.address, Execute) then Apply(env, s, e) == Err(Unauthorized)
                   else if p.status != Approved then Apply(env, s, e) == Err(InvalidStatus)
                   else if r.timeLock > 0 && !(-0x8000_0000_0000_0000 <= waited < 0x8000_0000_0000_0000) then
                     Apply(env, s, e) == Err(Overflow)
                   else if r.timeLock > 0 && waited < r.timeLock then Apply(env, s, e) == Err(TimeLockNotReleased)
                   else if resolved.Err? then Apply(env, s, e) == Err(resolved.error)
                   else
                     && (forall k :: 0 <= k < |m.instructions| ==> m.instructions[k].program < |c.views|)
                     && var run := RunFrom(c.(programId := env.programId), m.instructions, 0, Some(s.ms.value));
                        run.Err? && Apply(env, s, e) == Err(run.error))
  {
    hide Reachable, Evidence, RulesInv, Decode, RunFrom, ResolveAccounts, AccountsOk, CheckCounts, HasPermission;
    var p := s.props[e.index];
    EntryAt(env, s, e.index);
    CheckedSucceeds(p.(status := Executed), s.snaps[e.index]);
    var m := Decode(p.message).value;
    ResolveIff(m, e.call.views);
    if AccountsOk(m, e.call.views) {
      ProgramsInRange(p.message, e.call.views);
    }
  }

  lemma CreationRefused(env: Env, s: State, e: Event)
    requires Reachable(env, s) && e.CreateEvent? && Live(s) && Apply(env, s, e).Err?
    ensures var m, b := s.ms.value, e.instruction;
            Apply(env, s, e).error ==
              if !e.creator.signed then MissingSignature
              else if !e.vacant then AlreadyInitialized
              else if |b| < 8 || b[3] > 4 then InvalidInstructionData
              else if |b| > 8 + 4096 || Decode(b[8..]).None? then InvalidMessage
              else if e.creator.address !in m.rules.owners then NotAnOwner
              else if !HasPermission(m.rules, e.creator.address, Initiate) then Unauthorized
              else if m.transactionIndex == 0xFFFF_FFFF_FFFF_FFFF then Overflow
              else RuntimeFailure
  {
    hide Reachable, Decode, MaskAllows, CheckCounts, MultisigInv, IndexOk;
    CreationAccepted(env, s, e);
    ReachableInv(env, s);
    IndexInRange(s);
  }

  lemma IndexInRange(s: State)
    requires Inv(s) && s.ms.Some?
    ensures s.ms.value.transactionIndex <= 0xFFFF_FFFF_FFFF_FFFF
  {
    hide RulesInv;
  }

  lemma PromotionRefused(env: Env, s: State, e: Event)
    requires Reachable(env, s) && e.PromoteEvent? && Live(s) && e.key in s.buffers && Apply(env, s, e).Err?
    ensures var m, b, buffer := s.ms.value, e.instruction, s.buffers[e.key];
            Apply(env, s, e).error ==
              if |b| != 7 then InvalidInstructionData
              else if !e.creator.signed then MissingSignature
              else if !e.vacant then AlreadyInitialized
              else if e.creator.address != e.key.creator then InvalidAccount
              else if buffer.written != buffer.finalSize then BufferIncomplete
              else if env.sha(buffer.region) != buffer.finalHash then BufferHashMismatch
              else if b[2] > 4 then InvalidInstructionData
              else if Decode(buffer.region).None? then InvalidMessage
              else if e.creator.address !in m.rules.owners then NotAnOwner
              else if !HasPermission(m.rules, e.creator.address, Initiate) then Unauthorized
              else if m.transactionIndex == 0xFFFF_FFFF_FFFF_FFFF then Overflow
              else RuntimeFailure
  {
    hide Reachable, Decode, MaskAllows, CheckCounts, MultisigInv, IndexOk;
    PromotionAccepted(env, s, e);
    BufferCreator(env, s, e.key);
    ReachableInv(env, s);
    IndexInRange(s);
  }

  lemma ClosureRefused(env: Env, s: State, e: Event)
    requires Reachable(env, s) && e.CloseEvent? && About(s, e.index) && Apply(env, s, e).Err?
    ensures 1 <= e.index <= |Openers(s.log)|
    ensures var collector := s.ms.value.rules.rentCollector;
            var rent := if Zeros(collector) then Openers(s.log)[e.index - 1].address else collector;
            Apply(env, s, e).error ==
              if e.instruction != [] then InvalidInstructionData
              else if e.destination != rent then InvalidAccount
              else if s.props[e.index].status in {Active, Approved} then InvalidStatus
              else RuntimeFailure
  {
    hide Reachable, Openers, Zeros, Evidence, RulesInv, VotesOk, PhaseOk, ContentsOk;
    RentGoesTo(env, s, e);
    CreatorSigned(env, s);
    EntryAt(env, s, e.index);
    DefaultIsZeros(s.ms.value.rules.rentCollector);
    ClosureCounts(env, s, e.index);
  }

  /** With a proposal open, counting its closure cannot overflow or break the header. */
  lemma ClosureCounts(env: Env, s: State, i: nat)
    requires Reachable(env, s) && About(s, i)
    ensures var m := s.ms.value;
            m.closedTransactionCount + 1 < U64_LIMIT
            && CheckHeader(m.(closedTransactionCount := m.closedTransactionCount + 1)).Ok?
  {
    hide Reachable, IndexOk, Ascending, CountVoters;
    ReachableInv(env, s);
    assert |s.open - {i}| == |s.open| - 1;
  }

  lemma AuthorityRefused(env: Env, s: State, e: Event)
    requires Reachable(env, s) && e.SetConfigEvent? && Live(s) && Apply(env, s, e).Err?
    ensures var m := s.ms.value;
            var action := ApplyConfigAction(Some(m), e.authority.address, e.data, false, e.runtimeOk);
            if !e.authority.signed then Apply(env, s, e) == Err(MissingSignature)
            else if Zeros(m.rules.configAuthority) then Apply(env, s, e) == Err(NotControlled)
            else if e.authority.address != m.rules.configAuthority then Apply(env, s, e) == Err(Unauthorized)
            else action.Err? && Apply(env, s, e) == Err(action.error)
  {
    hide Reachable, ApplyConfigAction, Zeros;
    DefaultIsZeros(s.ms.value.rules.configAuthority);
  }

  lemma BufferOpeningRefused(env: Env, s: State, e: Event)
    requires Reachable(env, s) && e.BufferCreateEvent? && Live(s) && Apply(env, s, e).Err?
    ensures var m, b := s.ms.value, e.instruction;
            var index: byte := if |b| > 36 then b[36] else 0;
            Apply(env, s, e).error ==
              if !e.creator.signed then MissingSignature
              else if !e.vacant || BufferKey(e.creator.address, index) in s.buffers then AlreadyInitialized
              else if |b| < 40 then InvalidInstructionData
              else if !exists n: nat :: n <= 4096 && b[32..36] == Bytes32(n) && |b| - 40 <= n then InvalidMessage
              else if e.creator.address !in m.rules.owners then NotAnOwner
              else if !HasPermission(m.rules, e.creator.address, Initiate) then Unauthorized
              else RuntimeFailure
  {
    hide Reachable, Bytes32, LittleEndian32, MaskAllows;
    BufferOpened(env, s, e);
    var b := e.instruction;
    if |b| >= 40 {
      NumberWritten(b[32..36]);
      forall n: nat | n <= 4096 && b[32..36] == Bytes32(n) ensures n == LittleEndian32(b[32..36]) {
        NumberRead(n);
      }
    }
  }

  lemma BufferUseRefused(env: Env, s: State, e: Event)
    requires Reachable(env, s) && (e.BufferExtendEvent? || e.BufferCloseEvent?) && e.key in s.buffers
    requires Apply(env, s, e).Err?
    ensures e.BufferExtendEvent? ==>
              Apply(env, s, e).error ==
                if !e.creator.signed then MissingSignature
                else if e.chunk == [] then InvalidInstructionData
                else if e.creator.address != e.key.creator then InvalidAccount
                else InvalidMessage
    ensures e.BufferCloseEvent? ==>
              Apply(env, s, e).error ==
                if e.instruction != [] then InvalidInstructionData
                else if !e.creator.signed then MissingSignature
                else if e.creator.address != e.key.creator then InvalidAccount
                else RuntimeFailure
  {
    hide Reachable;
    BufferCreator(env, s, e.key);
  }

  /** What is not there is refused: no multisig, a proposal not open, or no such buffer. */
  lemma AbsentRefused(env: Env, s: State, e: Event)
    ensures s.ms.None? && !e.BufferExtendEvent? && !e.BufferCloseEvent? ==> Apply(env, s, e).Err?
    ensures e.ApproveEvent? || e.RejectEvent? || e.CancelEvent? || e.ExecuteEvent? || e.CloseEvent? ==>
              e.index in s.open || Apply(env, s, e).Err?
    ensures e.BufferExtendEvent? || e.BufferCloseEvent? || e.PromoteEvent? ==>
              e.key in s.buffers || Apply(env, s, e).Err?
  {
    hide CreateTransaction, Approve, Reject, Cancel, ExecuteProposal, CloseTransaction, SetConfig,
         CreateBuffer, ExtendBuffer, CloseBuffer, Promote;
  }
}
