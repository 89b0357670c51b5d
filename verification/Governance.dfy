/** What holds of the multisig account in every reachable state, and who may change it. */
module Governance {
  import opened Base
  import opened OwnerSet
  import opened MultisigSpec
  import opened ProposalSpec
  import opened ExecuteSpec
  import opened BufferSpec
  import opened ProposalLaws
  import opened Machine
  import opened Invariant
  import opened Safety

  /**
   * Under any mix of voted changes and changes by the authority: owners stay strictly ascending,
   * each with a known mask, and the voter count kept step by step equals the number of owners
   * permitted to vote, which the threshold never exceeds.
   */
  lemma ConfigurationSound(env: Env, s: State)
    requires Reachable(env, s) && s.ms.Some?
    ensures var m, r := s.ms.value, s.ms.value.rules;
            && Ascending(r.owners) && |r.permissions| == |r.owners|
            && (forall k :: 0 <= k < |r.permissions| ==> r.permissions[k] <= ALL_PERMISSIONS)
            && r.voterCount == |Voters(r.permissions)|
            && 1 <= r.threshold <= r.voterCount <= |r.owners| <= MAX_OWNER
            && r.timeLock <= MAX_TIME_LOCK
            && m.staleTransactionIndex <= m.transactionIndex < U64_LIMIT
  {
    hide Reachable, Less, Voters, IndexOk, CountVoters;
    ReachableInv(env, s);
    VotersCount(s.ms.value.rules.permissions);
  }

  /** Conservation: each index handed out is a proposal, and each is either open or counted closed. */
  lemma ProposalsConserved(env: Env, s: State)
    requires Reachable(env, s) && s.ms.Some?
    ensures var m := s.ms.value;
            && (forall i: nat :: i in s.props <==> 1 <= i <= m.transactionIndex)
            && (forall i :: i in s.open ==> i in s.props)
            && (forall i :: i in s.props && i !in s.open ==> Terminal(s.props[i].status))
            && m.closedTransactionCount + |s.open| == m.transactionIndex
  {
    hide Reachable, ProposalInv, Evidence, MultisigInv, Steps, Executions;
    ReachableInv(env, s);
    forall i: nat
      ensures i in s.open ==> i in s.props
      ensures i in s.props && i !in s.open ==> Terminal(s.props[i].status)
    {
      assert IndexOk(s, i);
    }
  }

  /** The two counters decide exactly which proposals are open. */
  lemma CountersShowOpen(env: Env, s: State)
    requires Reachable(env, s) && s.ms.Some?
    ensures AllTransactionsClosed(s.ms.value) <==> s.open == {}
    ensures forall i :: i in s.open ==> (OnlyExecutingTransactionOpen(s.ms.value) <==> s.open == {i})
  {
    hide Reachable, IndexOk;
    ReachableInv(env, s);
    forall i | i in s.open ensures |s.open| == 1 <==> s.open == {i} {
      assert s.open == {i} + (s.open - {i});
      assert |s.open| == 1 ==> |s.open - {i}| == 0;
    }
  }

  /** Closing a proposal is accepted exactly when it has ended and its rent goes where it must. */
  lemma ClosureAccepted(env: Env, s: State, e: Event)
    requires Reachable(env, s) && e.CloseEvent?
    ensures Apply(env, s, e).Ok?
        <==> && s.ms.Some? && e.index in s.open && e.index in s.props
             && Terminal(s.props[e.index].status) && e.instruction == [] && e.runtimeOk
             && e.destination == RentDestination(s.ms.value.rules.rentCollector, s.props[e.index].creator)
  {
    hide Reachable, Ascending, CountVoters, VotesOk, PhaseOk, ContentsOk, Evidence, RentDestination;
    ReachableInv(env, s);
    if s.ms.Some? && e.index in s.open && e.index in s.props {
      EntryAt(env, s, e.index);
      assert |s.open - {e.index}| == |s.open| - 1;
    }
  }

  /** The account itself is closed by a vote only with every other proposal closed, by the authority with all. */
  lemma MultisigClosedLast(env: Env, s: State, e: Event)
    requires Reachable(env, s) && s.ms.Some?
    ensures Step(env, s, e).ms.None? ==>
              || (e.ExecuteEvent? && s.open == {e.index})
              || (e.SetConfigEvent? && s.open == {})
  {
    hide Reachable, MultisigInv, ExecuteProposal, ApplyConfigAction, OnlyExecutingTransactionOpen,
         AllTransactionsClosed, CreateTransaction, Promote, CloseTransaction, Approve, Reject, Cancel,
         CreateBuffer, ExtendBuffer, CloseBuffer, IndexOk;
    ReachableInv(env, s);
    CountersShowOpen(env, s);
    if e.ExecuteEvent? && Apply(env, s, e).Ok? {
      ExecuteEvolves(s.ms.value, s.self, s.props[e.index], e.call.(programId := env.programId));
    } else if e.SetConfigEvent? {
      ActionEvolves(s.ms.value, e.authority.address, e.data, false, e.runtimeOk);
    }
  }

  /** The ways a step may change or close the account's configuration. */
  ghost predicate Sanctioned(s: State, e: Event)
    requires s.ms.Some?
  {
    match e
    case ExecuteEvent(i, _) =>
      && i in s.props && i in s.snaps && s.props[i].status == Approved
      && |Named(s.snaps[i].owners, s.props[i].approved)| == s.snaps[i].threshold
    case SetConfigEvent(authority, _, _) =>
      IsControlled(s.ms.value.rules) && authority == Signer(s.ms.value.rules.configAuthority, true)
    case _ => false
  }

  /**
   * The configuration changes, and the stale index moves, only by executing a proposal that a full
   * threshold approved, or by the signature of the config authority, if there is one; and then every
   * proposal is stale.
   */
  lemma ConfigurationAuthorised(env: Env, s: State, e: Event)
    requires Reachable(env, s) && s.ms.Some?
    ensures var s' := Step(env, s, e);
            && (s'.ms.None? || s'.ms.value.rules != s.ms.value.rules
                || s'.ms.value.staleTransactionIndex != s.ms.value.staleTransactionIndex) ==>
              && Sanctioned(s, e)
              && (s'.ms.Some? ==> forall i :: i in s'.props ==> i <= s'.ms.value.staleTransactionIndex)
  {
    hide Reachable, MultisigInv, ExecuteProposal, ApplyConfigAction, ApprovedBy, Named,
         OnlyExecutingTransactionOpen, AllTransactionsClosed, InitProposal, Approve, Reject, Cancel,
         CreateBuffer, ExtendBuffer, CloseBuffer, IndexOk;
    ReachableInv(env, s);
    if (e.CreateEvent? || e.PromoteEvent?) && Apply(env, s, e).Ok? {
      CreationKeepsRules(env, s, e);
    } else if e.ExecuteEvent? && Apply(env, s, e).Ok? {
      ExecuteEvolves(s.ms.value, s.self, s.props[e.index], e.call.(programId := env.programId));
      ExecutionGuarded(env, s, e);
      Authorised(env, s, e.index);
    } else if e.SetConfigEvent? {
      ActionEvolves(s.ms.value, e.authority.address, e.data, false, e.runtimeOk);
    }
  }

  /**
   * On a controlled multisig a change is the authority's, signed by it, exactly when it does not
   * come from executing a proposal.
   */
  lemma ControlledChangeIsAuthorityUnlessVoted(env: Env, s: State, e: Event)
    requires Reachable(env, s) && s.ms.Some? && IsControlled(s.ms.value.rules)
    ensures var s' := Step(env, s, e);
            && (s'.ms.None? || s'.ms.value.rules != s.ms.value.rules
                || s'.ms.value.staleTransactionIndex != s.ms.value.staleTransactionIndex) ==>
              (!e.ExecuteEvent?
               <==> e.SetConfigEvent? && e.authority == Signer(s.ms.value.rules.configAuthority, true))
  {
    hide Reachable, Step, Named;
    ConfigurationAuthorised(env, s, e);
  }

  lemma CreationKeepsRules(env: Env, s: State, e: Event)
    requires Inv(s) && s.ms.Some? && (e.CreateEvent? || e.PromoteEvent?) && Apply(env, s, e).Ok?
    ensures var s' := Apply(env, s, e).value;
            s'.ms == Some(s.ms.value.(transactionIndex := s.ms.value.transactionIndex + 1))
  {
    hide InitProposal, MultisigInv, IndexOk, ProposalInv;
    var m := s.ms.value;
    if e.CreateEvent? {
      CreateKeeps(m, s.self, e.creator.address, e.instruction[CREATE_HEADER_LEN..],
                  CreateHeader(e.instruction), e.runtimeOk);
    } else {
      var b := s.buffers[e.key];
      CreateKeeps(m, s.self, e.creator.address, b.region, PromoteHeader(e.instruction, b.vaultIndex), e.runtimeOk);
    }
  }

  // The voted path does not ask whether the multisig is controlled

  /** The same account answering to another authority. */
  function Under(m: Multisig, authority: Address): Multisig {
    m.(rules := m.rules.(configAuthority := authority))
  }

  /** The same outcome for the same account, but for the authority it answers to. */
  ghost predicate SameUnder(controlled: Result<Multisig>, free: Result<Multisig>, authority: Address) {
    if free.Err? then controlled == free else controlled == Ok(Under(free.value, authority))
  }

  lemma OwnersIgnoreAuthority(m: Multisig, authority: Address, payload: seq<byte>, rentOk: bool)
    requires LayoutOk(m)
    ensures SameUnder(AddOwner(Some(Under(m, authority)), payload, rentOk),
                      AddOwner(Some(m), payload, rentOk), authority)
    ensures SameUnder(RemoveOwner(Some(Under(m, authority)), payload, rentOk),
                      RemoveOwner(Some(m), payload, rentOk), authority)
  {
    hide Rank, InsertAt, RemoveAt, Wrap32;
  }

  lemma FieldsIgnoreAuthority(m: Multisig, authority: Address, tag: byte, payload: seq<byte>)
    requires LayoutOk(m)
    requires tag in {CHANGE_THRESHOLD, CHANGE_TIME_LOCK, SET_RENT_COLLECTOR, SET_PERMISSION}
    ensures SameUnder(ChangeInPlace(Some(Under(m, authority)), tag, payload),
                      ChangeInPlace(Some(m), tag, payload), authority)
  {
    hide Wrap32, LittleEndian32;
  }

  lemma SettingIgnoresAuthority(m: Multisig, authority: Address, payload: seq<byte>)
    requires LayoutOk(m)
    ensures ChangeInPlace(Some(Under(m, authority)), SET_CONFIG_AUTHORITY, payload)
         == ChangeInPlace(Some(m), SET_CONFIG_AUTHORITY, payload)
  {
  }

  /**
   * A voted action does exactly the same under any config authority, and one that sets the
   * authority has the very same outcome. So naming one adds a way to change the configuration and
   * takes none away: it does not decide the configuration alone.
   */
  lemma VotesIgnoreAuthority(m: Multisig, authority: Address, payer: Address, data: seq<byte>, rentOk: bool)
    requires LayoutOk(m)
    ensures var free := ApplyConfigAction(Some(m), payer, data, true, rentOk);
            var controlled := ApplyConfigAction(Some(Under(m, authority)), payer, data, true, rentOk);
            if free.Err? || (data != [] && data[0] == SET_CONFIG_AUTHORITY) then controlled == free
            else controlled.Ok? && (if free.value.None? then controlled.value.None?
                                    else controlled.value == Some(Under(free.value.value, authority)))
  {
    hide AddOwner, RemoveOwner, ChangeInPlace;
    if data != [] {
      var tag, payload := data[0], data[1..];
      OwnersIgnoreAuthority(m, authority, payload, rentOk);
      SettingIgnoresAuthority(m, authority, payload);
      if tag in {CHANGE_THRESHOLD, CHANGE_TIME_LOCK, SET_RENT_COLLECTOR, SET_PERMISSION} {
        FieldsIgnoreAuthority(m, authority, tag, payload);
      }
    }
  }

  // Actions that succeed on every account that satisfies the rules, by either path

  lemma ThresholdToOne(m: Multisig, payer: Address, viaProposal: bool)
    requires MultisigInv(m)
    ensures ApplyConfigAction(Some(m), payer, [CHANGE_THRESHOLD, 1, 0, 0, 0], viaProposal, true)
         == Ok(Some(InvalidatePriorTransactions(m.(rules := m.rules.(threshold := 1)))))
  {
    hide Ascending;
    var data: seq<byte> := [CHANGE_THRESHOLD, 1, 0, 0, 0];
    assert data[1..] == [1, 0, 0, 0];
  }

  lemma TimeLockToZero(m: Multisig, payer: Address, viaProposal: bool)
    requires MultisigInv(m)
    ensures ApplyConfigAction(Some(m), payer, [CHANGE_TIME_LOCK, 0, 0, 0, 0], viaProposal, true)
         == Ok(Some(InvalidatePriorTransactions(m.(rules := m.rules.(timeLock := 0)))))
  {
    hide Ascending;
    var data: seq<byte> := [CHANGE_TIME_LOCK, 0, 0, 0, 0];
    assert data[1..] == [0, 0, 0, 0];
  }

  lemma AuthorityTo(m: Multisig, authority: Address, payer: Address, viaProposal: bool)
    requires MultisigInv(m)
    ensures ApplyConfigAction(Some(m), payer, [SET_CONFIG_AUTHORITY] + authority, viaProposal, true)
         == Ok(Some(InvalidatePriorTransactions(Under(m, authority))))
  {
    hide Ascending;
    assert ([SET_CONFIG_AUTHORITY] + authority)[1..] == authority;
  }

  lemma CollectorTo(m: Multisig, collector: Address, payer: Address, viaProposal: bool)
    requires MultisigInv(m)
    ensures ApplyConfigAction(Some(m), payer, [SET_RENT_COLLECTOR] + collector, viaProposal, true)
         == Ok(Some(InvalidatePriorTransactions(m.(rules := m.rules.(rentCollector := collector)))))
  {
    hide Ascending;
    assert ([SET_RENT_COLLECTOR] + collector)[1..] == collector;
  }
}
