/** Who opened each proposal and each buffer, what they stored, and what that lets them do. */
module Provenance {
  import opened Base
  import opened OwnerSet
  import opened MultisigSpec
  import opened InitSpec
  import opened MessageCodec
  import opened ProposalSpec
  import opened BufferSpec
  import opened ExecuteSpec
  import opened ProposalLaws
  import opened Machine
  import opened Invariant
  import opened Safety
  import opened Governance
  import opened Continuation
  import opened ChunkedUpload
  import opened ActionEffects

  // What an opening stores

  /** `p` is stored at the next index under the rules in force, and nothing else changes. */
  ghost predicate Stores(s: State, s': State, p: Proposal, e: Event)
    requires s.ms.Some?
  {
    var m, n := s.ms.value, s.ms.value.transactionIndex + 1;
    && s' == State(s.self, s'.ms, s'.props, s.open + {n}, s'.buffers, s.snaps[n := m.rules], s.log + [e])
    && s'.ms == Some(Multisig(m.createKey, m.rules, n, m.staleTransactionIndex, m.closedTransactionCount))
    && s'.props == s.props[n := p]
  }

  /**
   * A creation stores its signer as the creator, the first four bytes as vault, vault bump, bump and
   * number of ephemeral signers, the next four as their bumps, and the rest as the message.
   */
  lemma CreationStores(env: Env, s: State, e: Event)
    requires e.CreateEvent? && Apply(env, s, e).Ok?
    ensures s.ms.Some? && e.creator.signed && |e.instruction| >= 8
    ensures var m, b, s' := s.ms.value, e.instruction, Apply(env, s, e).value;
            && s'.buffers == s.buffers
            && Stores(s, s', Proposal(
                 s.self, e.creator.address, m.transactionIndex + 1, 0, |m.rules.owners|, {}, {}, {}, 0, 0, 0, Active,
                 b[0], b[1], b[2], b[3], b[4..8], b[8..]), e)
  {
    hide Decode, CheckCounts, MaskAllows;
  }

  /**
   * A promotion stores its signer, the vault the buffer named, the bump, vault bump and number of
   * ephemeral signers from its first three bytes, their bumps from the next four, and the upload.
   */
  lemma PromotionStores(env: Env, s: State, e: Event)
    requires e.PromoteEvent? && Apply(env, s, e).Ok?
    ensures s.ms.Some? && e.creator.signed && |e.instruction| == 7 && e.key in s.buffers
    ensures var m, b, s' := s.ms.value, e.instruction, Apply(env, s, e).value;
            var buffer := s.buffers[e.key];
            && s'.buffers == s.buffers - {e.key}
            && Stores(s, s', Proposal(
                 s.self, e.creator.address, m.transactionIndex + 1, 0, |m.rules.owners|, {}, {}, {}, 0, 0, 0, Active,
                 buffer.vaultIndex, b[1], b[0], b[2], b[3..7], buffer.region), e)
  {
    hide Decode, CheckCounts, MaskAllows;
  }

  // Who opened a proposal

  function SignerOf(e: Event): Option<Signer> {
    match e
    case CreateEvent(creator, _, _, _) => Some(creator)
    case PromoteEvent(_, creator, _, _, _) => Some(creator)
    case _ => None
  }

  /** The signers of the openings in the history, first to last. */
  ghost function Openers(log: seq<Event>): seq<Signer> {
    if log == [] then []
    else
      var signer := SignerOf(log[|log| - 1]);
      Openers(log[..|log| - 1]) + if signer.Some? then [signer.value] else []
  }

  lemma OpenersGrow(log: seq<Event>, e: Event)
    ensures Openers(log + [e]) == Openers(log) + if SignerOf(e).Some? then [SignerOf(e).value] else []
  {
    assert (log + [e])[..|log + [e]| - 1] == log;
  }

  ghost predicate OpenedBySigners(s: State) {
    && (forall i: nat :: i in s.props <==> 1 <= i <= |Openers(s.log)|)
    && (forall i: nat :: i in s.props ==> Signer(s.props[i].creator, true) == Openers(s.log)[i - 1])
    && (s.ms.Some? ==> s.ms.value.transactionIndex == |Openers(s.log)|)
  }

  lemma OpeningKeepsSigners(env: Env, s: State, e: Event)
    requires (e.CreateEvent? || e.PromoteEvent?) && Apply(env, s, e).Ok? && OpenedBySigners(s)
    ensures OpenedBySigners(Apply(env, s, e).value)
  {
    hide Apply, Openers;
    OpenersGrow(s.log, e);
    if e.CreateEvent? {
      CreationStores(env, s, e);
    } else {
      PromotionStores(env, s, e);
    }
  }

  /** Nothing else opens a proposal, counts one, or changes whose it is. */
  lemma OtherStep(env: Env, s: State, e: Event)
    requires Inv(s) && !e.CreateEvent? && !e.PromoteEvent? && Apply(env, s, e).Ok?
    ensures var s' := Apply(env, s, e).value;
            && s'.props.Keys == s.props.Keys && s'.log == s.log + [e]
            && (s'.ms.Some? ==> s.ms.Some? && s'.ms.value.transactionIndex == s.ms.value.transactionIndex)
  {
    hide IndexOk, MultisigInv, ExecuteProposal, ApplyConfigAction, Approve, Reject, Cancel, CreateBuffer,
         ExtendBuffer, CloseBuffer, CheckHeader;
    if e.ExecuteEvent? {
      ExecuteEvolves(s.ms.value, s.self, s.props[e.index], e.call.(programId := env.programId));
    } else if e.SetConfigEvent? {
      ActionEvolves(s.ms.value, e.authority.address, e.data, false, e.runtimeOk);
    }
  }

  lemma OtherKeepsSigners(env: Env, s: State, e: Event)
    requires Inv(s) && !e.CreateEvent? && !e.PromoteEvent? && Apply(env, s, e).Ok? && OpenedBySigners(s)
    ensures OpenedBySigners(Apply(env, s, e).value)
  {
    hide Inv, Apply, Openers;
    var s' := Apply(env, s, e).value;
    OpenersGrow(s.log, e);
    OtherStep(env, s, e);
    forall i: nat ensures i in s'.props <==> i in s.props {
      assert i in s'.props.Keys <==> i in s.props.Keys;
    }
    forall i: nat | i in s.props ensures s'.props[i].creator == s.props[i].creator {
      ProposalStep(env, s, e, i);
      assert AsCreated(s'.props[i]).creator == s'.props[i].creator;
    }
  }

  lemma {:induction false} RunKeepsSigners(env: Env, s: State, es: seq<Event>)
    requires Reachable(env, s) && OpenedBySigners(s)
    ensures OpenedBySigners(Run(env, s, es))
    decreases |es|
  {
    hide Reachable, Inv, Apply, OpenedBySigners;
    if es != [] {
      ReachableInv(env, s);
      var e := es[0];
      if Apply(env, s, e).Ok? {
        if e.CreateEvent? || e.PromoteEvent? {
          OpeningKeepsSigners(env, s, e);
        } else {
          OtherKeepsSigners(env, s, e);
        }
      }
      assert Run(env, s, [e]) == Step(env, s, e);
      ReachableOnward(env, s, [e]);
      RunKeepsSigners(env, Step(env, s, e), es[1..]);
    }
  }

  lemma NothingOpened(self: Address, a: InitArgs)
    requires Start(self, a).Ok?
    ensures OpenedBySigners(Start(self, a).value)
  {
    InitEstablishes(a.creatorSigned, a.createKey, a.instruction, a.vacant, a.runtimeOk);
  }

  /**
   * In every reachable state the proposals are numbered in the order of the openings in the history,
   * and the creator stored with each is whoever signed the opening of that number.
   */
  lemma CreatorSigned(env: Env, s: State)
    requires Reachable(env, s)
    ensures forall i: nat :: i in s.props <==> 1 <= i <= |Openers(s.log)|
    ensures forall i: nat :: i in s.props ==> Signer(s.props[i].creator, true) == Openers(s.log)[i - 1]
    ensures s.ms.Some? ==> s.ms.value.transactionIndex == |Openers(s.log)|
  {
    hide Run, Start, Openers;
    var self: Address, a: InitArgs, es: seq<Event> :|
      Start(self, a).Ok? && s == Run(env, Start(self, a).value, es);
    NothingOpened(self, a);
    assert Run(env, Start(self, a).value, []) == Start(self, a).value by {
      RunNothing(env, Start(self, a).value);
    }
    RunKeepsSigners(env, Start(self, a).value, es);
  }

  lemma RunNothing(env: Env, s: State)
    ensures Run(env, s, []) == s
  {
  }

  /** An Active proposal is withdrawn exactly by the signature of the owner who opened it, while it is fresh. */
  lemma WithdrawnByOpener(env: Env, s: State, e: Event)
    requires Reachable(env, s) && e.CancelEvent? && s.ms.Some?
    requires e.index in s.open && e.index in s.props && s.props[e.index].status == Active
    ensures 1 <= e.index <= |Openers(s.log)|
    ensures Apply(env, s, e).Ok?
       <==> && e.owner == Openers(s.log)[e.index - 1] && e.owner.address in s.ms.value.rules.owners
            && e.index > s.ms.value.staleTransactionIndex && e.instruction == []
    ensures Apply(env, s, e).Ok? ==> Apply(env, s, e).value.props[e.index] == s.props[e.index].(status := Cancelled)
  {
    hide Reachable, Apply, Openers, RulesInv, Evidence, VotesOk, PhaseOk, MayVoteToCancel;
    CreatorSigned(env, s);
    CancellationAccepted(env, s, e);
    ReachableInv(env, s);
    EntryAt(env, s, e.index);
    AccountSound(s);
    NoCancelVote(s.ms.value, s.props[e.index], e.owner, e.instruction);
    if Apply(env, s, e).Ok? {
      WithdrawalMarks(env, s, e);
    }
  }

  lemma NoCancelVote(m: Multisig, p: Proposal, signer: Signer, instruction: seq<byte>)
    requires LayoutOk(m) && p.status == Active
    ensures !MayVoteToCancel(m, p, signer, instruction)
  {
  }

  lemma WithdrawalMarks(env: Env, s: State, e: Event)
    requires Inv(s) && e.CancelEvent? && Apply(env, s, e).Ok? && e.index in s.props
    requires s.props[e.index].status == Active
    ensures Apply(env, s, e).value.props[e.index] == s.props[e.index].(status := Cancelled)
  {
    hide IndexOk, MultisigInv, CheckCounts;
  }

  /**
   * Closing sends the rent to the collector, or, where the collector is all zeros, to the owner who
   * signed the opening; and to nobody else.
   */
  lemma RentGoesTo(env: Env, s: State, e: Event)
    requires Reachable(env, s) && e.CloseEvent? && s.ms.Some? && e.index in s.open && e.index in s.props
    ensures 1 <= e.index <= |Openers(s.log)|
    ensures Apply(env, s, e).Ok?
       <==> && s.props[e.index].status in {Executed, Rejected, Cancelled} && e.instruction == [] && e.runtimeOk
            && e.destination == if Zeros(s.ms.value.rules.rentCollector) then Openers(s.log)[e.index - 1].address
                                else s.ms.value.rules.rentCollector
  {
    hide Reachable, Apply, Openers, Zeros;
    CreatorSigned(env, s);
    ClosureAccepted(env, s, e);
    DefaultIsZeros(s.ms.value.rules.rentCollector);
  }

  // Buffers

  /** A buffer can be opened by any owner who may initiate, for a message of at most 4096 bytes. */
  lemma BufferOpened(env: Env, s: State, e: Event)
    requires Live(s) && e.BufferCreateEvent?
    ensures Apply(env, s, e).Ok?
       <==> && e.creator.signed && HasPermission(s.ms.value.rules, e.creator.address, Initiate)
            && |e.instruction| >= 40 && BufferKey(e.creator.address, e.instruction[36]) !in s.buffers
            && e.vacant && e.runtimeOk
            && exists n: nat :: n <= 4096 && e.instruction[32..36] == Bytes32(n) && |e.instruction| - 40 <= n
    ensures Apply(env, s, e).Ok? ==>
              var b, s' := e.instruction, Apply(env, s, e).value;
              var key := BufferKey(e.creator.address, b[36]);
              && key in s'.buffers && s' == s.(buffers := s.buffers[key := s'.buffers[key]], log := s.log + [e])
              && var buffer := s'.buffers[key];
                 && |buffer.region| == buffer.finalSize <= 4096 && b[32..36] == Bytes32(buffer.finalSize)
                 && buffer == Buffer(s.self, e.creator.address, b[..32], buffer.finalSize, |b| - 40,
                                     b[36], b[37], b[38], buffer.region)
                 && buffer.region[..|b| - 40] == b[40..] && Zeros(buffer.region[|b| - 40..])
  {
    hide Bytes32, LittleEndian32, MaskAllows;
    var b := e.instruction;
    if |b| >= 40 {
      NumberWritten(b[32..36]);
      forall n: nat | n <= 4096 && b[32..36] == Bytes32(n) ensures n == LittleEndian32(b[32..36]) {
        NumberRead(n);
      }
    }
  }

  /** The buffer at `key` was opened by the creator `key` names. */
  lemma BufferCreator(env: Env, s: State, key: BufferKey)
    requires Reachable(env, s) && key in s.buffers
    ensures s.buffers[key].creator == key.creator && s.buffers[key].multisig == s.self && BufferInv(s.buffers[key])
  {
    hide Reachable, Uploaded, LittleEndian32;
    BuffersHoldUploads(env, s, key);
  }

  /** Only whoever opened a buffer can add to it: what they send goes after what is there, if it fits. */
  lemma BufferExtended(env: Env, s: State, e: Event)
    requires Reachable(env, s) && e.BufferExtendEvent? && e.key in s.buffers
    ensures var b := s.buffers[e.key];
            && |b.region| == b.finalSize && b.written <= b.finalSize
            && (Apply(env, s, e).Ok?
                <==> e.creator == Signer(e.key.creator, true) && e.chunk != [] && b.written + |e.chunk| <= b.finalSize)
            && (Apply(env, s, e).Ok? ==>
                  Apply(env, s, e).value == s.(
                    buffers := s.buffers[e.key := b.(
                      written := b.written + |e.chunk|,
                      region := b.region[..b.written] + e.chunk + b.region[b.written + |e.chunk|..])],
                    log := s.log + [e]))
  {
    hide Reachable;
    BufferCreator(env, s, e.key);
  }

  /** And only they can take it down. */
  lemma BufferClosed(env: Env, s: State, e: Event)
    requires Reachable(env, s) && e.BufferCloseEvent? && e.key in s.buffers
    ensures Apply(env, s, e).Ok?
       <==> e.creator == Signer(e.key.creator, true) && e.instruction == [] && e.runtimeOk
    ensures Apply(env, s, e).Ok? ==>
              Apply(env, s, e).value == s.(buffers := s.buffers - {e.key}, log := s.log + [e])
  {
    hide Reachable;
    BufferCreator(env, s, e.key);
  }

  /** Only they can promote it, once it is complete and is what the hash promised. */
  lemma PromotionAccepted(env: Env, s: State, e: Event)
    requires Reachable(env, s) && Live(s) && e.PromoteEvent? && e.key in s.buffers
    ensures Apply(env, s, e).Ok?
       <==> && e.creator == Signer(e.key.creator, true)
            && HasPermission(s.ms.value.rules, e.creator.address, Initiate)
            && s.ms.value.transactionIndex + 1 < U64_LIMIT
            && |e.instruction| == 7 && e.instruction[2] <= 4
            && s.buffers[e.key].written == s.buffers[e.key].finalSize
            && env.sha(s.buffers[e.key].region) == s.buffers[e.key].finalHash
            && Decode(s.buffers[e.key].region).Some? && e.vacant && e.runtimeOk
  {
    hide Reachable, Decode, MaskAllows, RulesInv, IndexOk;
    ReachableInv(env, s);
    BufferCreator(env, s, e.key);
    AccountSound(s);
  }

  lemma AccountSound(s: State)
    requires Inv(s) && s.ms.Some?
    ensures LayoutOk(s.ms.value) && 0 < |s.ms.value.rules.owners| <= MAX_OWNER && RulesInv(s.ms.value.rules)
  {
    hide Ascending, CountVoters;
  }
}
