/** What each permission mask lets an owner do, mask by mask. */
module MaskMeaning {
  import opened Base
  import opened OwnerSet
  import opened MultisigSpec
  import opened MessageCodec
  import opened ProposalSpec
  import opened ExecuteSpec
  import opened ProposalLaws
  import opened Machine
  import opened Invariant
  import opened Safety
  import opened ConfigAcceptance

  // Bit 1 is initiate, bit 2 is vote, bit 4 is execute, and no bits is all of them.

  predicate MayInitiateWith(mask: byte) {
    mask in {0, 1, 3, 5, 7}
  }

  predicate MayVoteWith(mask: byte) {
    mask in {0, 2, 3, 6, 7}
  }

  predicate MayExecuteWith(mask: byte) {
    mask in {0, 4, 5, 6, 7}
  }

  lemma MaskTable(mask: byte)
    requires mask <= 7
    ensures MaskAllows(mask, Initiate) <==> MayInitiateWith(mask)
    ensures MaskAllows(mask, Vote) <==> MayVoteWith(mask)
    ensures MaskAllows(mask, Execute) <==> MayExecuteWith(mask)
  {
  }

  /** The owner at some position, with the mask there. */
  ghost predicate Carries(r: Rules, who: Address, mask: byte) {
    exists k :: 0 <= k < |r.owners| && k < |r.permissions| && r.owners[k] == who && r.permissions[k] == mask
  }

  /** Whoever is an owner carries exactly one mask, which is what decides. */
  lemma CarriedDecides(m: Multisig, who: Address, mask: byte)
    requires MultisigInv(m) && Carries(m.rules, who, mask)
    ensures who in m.rules.owners && mask == m.rules.permissions[PositionOf(m.rules.owners, who)] <= 7
    ensures HasPermission(m.rules, who, Initiate) <==> MayInitiateWith(mask)
    ensures HasPermission(m.rules, who, Vote) <==> MayVoteWith(mask)
    ensures HasPermission(m.rules, who, Execute) <==> MayExecuteWith(mask)
  {
    hide Less, CountVoters, MaskAllows;
    var r := m.rules;
    var k :| 0 <= k < |r.owners| && k < |r.permissions| && r.owners[k] == who && r.permissions[k] == mask;
    PositionOfAt(r.owners, k);
    MaskTable(mask);
  }

  /** The voter count is the number of owners whose masks let them vote. */
  lemma VotersByMask(env: Env, s: State)
    requires Reachable(env, s) && s.ms.Some?
    ensures var r := s.ms.value.rules;
            r.voterCount == |set k: nat | k < |r.permissions| && MayVoteWith(r.permissions[k])|
  {
    hide Reachable, IndexOk, CountVoters, Ascending;
    ReachableInv(env, s);
    var r := s.ms.value.rules;
    VotersCount(r.permissions);
    forall k: nat | k < |r.permissions| ensures MaskCanVote(r.permissions[k]) <==> MayVoteWith(r.permissions[k]) {
      MaskTable(r.permissions[k]);
    }
    assert Voters(r.permissions) == set k: nat | k < |r.permissions| && MayVoteWith(r.permissions[k]);
  }

  /** Who may approve or reject: on a fresh Active proposal they have not voted on, an owner with one of five masks. */
  lemma VoteByMask(env: Env, s: State, i: nat, who: Address, mask: byte, now: i64)
    requires Reachable(env, s) && s.ms.Some? && Carries(s.ms.value.rules, who, mask)
    requires i in s.open && i in s.props && s.props[i].status == Active && i > s.ms.value.staleTransactionIndex
    requires forall k :: 0 <= k < |s.ms.value.rules.owners| && s.ms.value.rules.owners[k] == who ==>
               k !in s.props[i].approved && k !in s.props[i].rejected
    ensures Apply(env, s, ApproveEvent(i, Signer(who, true), [], now)).Ok? <==> MayVoteWith(mask)
    ensures Apply(env, s, RejectEvent(i, Signer(who, true), [])).Ok? <==> MayVoteWith(mask)
  {
    hide Reachable, Apply, HasPermission, Ascending, CountVoters, MayVoteWith, MayInitiateWith, MayExecuteWith;
    ReachableInv(env, s);
    EntryAt(env, s, i);
    CarriedDecides(s.ms.value, who, mask);
    ApprovalAccepted(env, s, ApproveEvent(i, Signer(who, true), [], now));
    RejectionAccepted(env, s, RejectEvent(i, Signer(who, true), []));
    VotesUncancelled(env, s, i);
  }

  lemma VotesUncancelled(env: Env, s: State, i: nat)
    requires Reachable(env, s) && i in s.props && s.props[i].status == Active
    ensures s.props[i].cancelled == {} && s.props[i].index == i
  {
    hide Reachable, Evidence, RulesInv, ContentsOk;
    EntryAt(env, s, i);
  }

  /** Who may vote to cancel: the same masks. */
  lemma CancelVoteByMask(env: Env, s: State, i: nat, who: Address, mask: byte)
    requires Reachable(env, s) && s.ms.Some? && Carries(s.ms.value.rules, who, mask)
    requires i in s.open && i in s.props && s.props[i].status == Approved && i > s.ms.value.staleTransactionIndex
    requires forall k :: 0 <= k < |s.ms.value.rules.owners| && s.ms.value.rules.owners[k] == who ==>
               k !in s.props[i].cancelled
    ensures Apply(env, s, CancelEvent(i, Signer(who, true), [])).Ok? <==> MayVoteWith(mask)
  {
    hide Reachable, Apply, HasPermission, Ascending, CountVoters, MayVoteWith, MayInitiateWith, MayExecuteWith;
    ReachableInv(env, s);
    IndexStored(env, s, i);
    CarriedDecides(s.ms.value, who, mask);
    CancellationAccepted(env, s, CancelEvent(i, Signer(who, true), []));
  }

  lemma IndexStored(env: Env, s: State, i: nat)
    requires Reachable(env, s) && i in s.props
    ensures s.props[i].index == i && s.props[i].multisig == s.self
  {
    hide Reachable, Evidence, RulesInv, ContentsOk, PhaseOk;
    EntryAt(env, s, i);
  }

  /** Who may create: an owner with one of five masks, given a message and an index to create it at. */
  lemma CreateByMask(env: Env, s: State, who: Address, mask: byte, instruction: seq<byte>)
    requires Reachable(env, s) && s.ms.Some? && Carries(s.ms.value.rules, who, mask)
    requires s.ms.value.transactionIndex + 1 < U64_LIMIT
    requires 8 <= |instruction| <= 8 + 4096 && instruction[3] <= 4 && Decode(instruction[8..]).Some?
    ensures Apply(env, s, CreateEvent(Signer(who, true), instruction, true, true)).Ok? <==> MayInitiateWith(mask)
  {
    hide Reachable, Apply, HasPermission, Decode, Ascending, CountVoters, MayVoteWith, MayInitiateWith,
         MayExecuteWith;
    ReachableInv(env, s);
    CarriedDecides(s.ms.value, who, mask);
    CreationAccepted(env, s, CreateEvent(Signer(who, true), instruction, true, true));
  }

  /** Who may execute: an owner with one of five masks, given an Approved proposal that is ready to run. */
  lemma ExecuteByMask(env: Env, s: State, i: nat, who: Address, mask: byte, c: Call)
    requires Reachable(env, s) && Live(s) && Carries(s.ms.value.rules, who, mask)
    requires i in s.open && i in s.props && s.props[i].status == Approved
    requires c.executor == Signer(who, true) && c.instruction == []
    requires s.ms.value.rules.timeLock <= c.now - s.props[i].approvedAt < 0x8000_0000_0000_0000
    requires RunsThrough(s.ms.value, s.props[i].message, c.(programId := env.programId))
    ensures Apply(env, s, ExecuteEvent(i, c)).Ok? <==> MayExecuteWith(mask)
  {
    hide Reachable, Apply, HasPermission, RunsThrough, Ascending, CountVoters, MayVoteWith, MayInitiateWith,
         MayExecuteWith;
    ReachableInv(env, s);
    CarriedDecides(s.ms.value, who, mask);
    ExecutionAccepted(env, s, ExecuteEvent(i, c));
  }

  /**
   * Action 5 replaces one owner's mask, if it has no bits above 7 and the voters can still reach the
   * threshold. Afterwards that owner carries it, and everybody else what they carried before.
   */
  lemma SetMaskCarries(
    m: Multisig, payer: Address, owner: Address, was: byte, mask: byte, viaProposal: bool, rentOk: bool)
    requires MultisigInv(m) && Carries(m.rules, owner, was)
    ensures var out := ApplyConfigAction(Some(m), payer, [5] + owner + [mask], viaProposal, rentOk);
            var voters := m.rules.voterCount - (if MayVoteWith(was) then 1 else 0)
                          + if MayVoteWith(mask) then 1 else 0;
            && (out.Ok? <==> mask <= 7 && voters >= m.rules.threshold)
            && (out.Err? ==>
                  out.error == if mask > 7 then UnknownPermission
                               else if voters == 0 then NoVoters else InvalidThreshold)
            && (out.Ok? ==>
                  && out.value.Some? && MultisigInv(out.value.value)
                  && var m', r := out.value.value, m.rules;
                     && m' == Multisig(m.createKey, m'.rules, m.transactionIndex, m.transactionIndex,
                                       m.closedTransactionCount)
                     && m'.rules == r.(permissions := m'.rules.permissions, voterCount := voters)
                     && Carries(m'.rules, owner, mask)
                     && forall who, v :: who != owner ==> (Carries(m'.rules, who, v) <==> Carries(r, who, v)))
  {
    hide Less, CountVoters, VoteOf, MayVoteWith, MaskAllows, HasPermission, Ascending;
    var data: seq<byte> := [5] + owner + [mask];
    var payload := data[1..];
    assert payload[..32] == owner && payload[32] == mask;
    CarriedDecides(m, owner, was);
    SetPermissionAccepted(m, payload);
    VotersAsMasks(m.rules, owner, was, mask);
    ActionKeepsRules(m, payer, data, viaProposal, rentOk);
    var out := ApplyConfigAction(Some(m), payer, data, viaProposal, rentOk);
    if out.Ok? {
      var r, r', k := m.rules, out.value.value.rules, PositionOf(m.rules.owners, owner);
      assert r'.owners[k] == owner && r'.permissions[k] == mask;
      CountVotersUpdate(r.permissions, k, mask);
      forall who, v | who != owner ensures Carries(r', who, v) <==> Carries(r, who, v) {
        CarriesElsewhere(r, r', k, mask, who, v);
      }
    }
  }

  lemma VotersAsMasks(r: Rules, owner: Address, was: byte, mask: byte)
    requires |r.permissions| == |r.owners| && owner in r.owners
    requires HasPermission(r, owner, Vote) <==> MayVoteWith(was)
    requires was == r.permissions[PositionOf(r.owners, owner)] <= 7
    ensures VoteOf(r, owner) == OwnerSet.Voter(was) == if MayVoteWith(was) then 1 else 0
    ensures mask <= 7 ==> OwnerSet.Voter(mask) == if MayVoteWith(mask) then 1 else 0
  {
    if mask <= 7 {
      MaskTable(mask);
    }
  }

  lemma CarriesElsewhere(r: Rules, r': Rules, k: nat, mask: byte, who: Address, v: byte)
    requires |r.permissions| == |r.owners| && k < |r.owners| && r'.owners == r.owners
    requires r'.permissions == r.permissions[k := mask] && who != r.owners[k]
    ensures Carries(r', who, v) <==> Carries(r, who, v)
  {
  }
}
