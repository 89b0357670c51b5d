/** When the multisig itself can still be closed by some continuation. */
module Closing {
  import opened Base
  import opened OwnerSet
  import opened MultisigSpec
  import opened ProposalSpec
  import opened Machine
  import opened Invariant
  import opened Governance
  import opened Continuation
  import opened Delivery
  import opened Finality
  import opened Stranding
  import opened Freezing

  // Closing the multisig

  /** No open proposal of that status is stale. */
  ghost predicate NoneStale(s: State, status: Status)
    requires s.ms.Some?
  {
    forall i :: i in s.open && i in s.props && s.props[i].status == status ==>
                  i > s.ms.value.staleTransactionIndex
  }

  lemma OpenStored(s: State, i: nat)
    requires Inv(s) && i in s.open
    ensures i in s.props
  {
    assert IndexOk(s, i);
  }

  /** Any one open proposal that is not stranded can be closed, with nothing else changing. */
  lemma OneCloses(env: Env, s: State, i: nat) returns (es: seq<Event>)
    requires Reachable(env, s) && s.ms.Some? && i in s.open && i in s.props
    requires NoneStale(s, Active) && NoneStale(s, Approved)
    ensures ClosedOne(s, Run(env, s, es), i)
  {
    hide Reachable, Run, ClosedOne;
    if s.props[i].status == Active {
      es := FreshCanClose(env, s, i);
    } else if s.props[i].status == Approved {
      es := ApprovedCanClose(env, s, i);
    } else {
      var e := EndedCloses(env, s, i);
      es := [e];
    }
  }

  /** So all of them can, one after another. */
  lemma {:induction false} AllClose(env: Env, s: State) returns (es: seq<Event>)
    requires Reachable(env, s) && s.ms.Some? && NoneStale(s, Active) && NoneStale(s, Approved)
    ensures var s' := Run(env, s, es);
            && s'.ms.Some? && s'.open == {}
            && s'.ms.value == s.ms.value.(closedTransactionCount := s'.ms.value.closedTransactionCount)
    decreases |s.open|
  {
    hide Reachable, Inv;
    if s.open == {} {
      es := [];
    } else {
      var i :| i in s.open;
      ReachableInv(env, s);
      OpenStored(s, i);
      var first := OneCloses(env, s, i);
      var s1 := Run(env, s, first);
      ReachableOnward(env, s, first);
      assert s1.open < s.open && s.open == s1.open + {i};
      var rest := AllClose(env, s1);
      RunAppend(env, s, first, rest);
      es := first + rest;
    }
  }

  lemma CloseSucceeds(m: Multisig, payer: Address, viaProposal: bool)
    requires LayoutOk(m) && m.rules.rentCollector == DEFAULT_ADDRESS
    requires if viaProposal then OnlyExecutingTransactionOpen(m) else AllTransactionsClosed(m)
    ensures ApplyConfigAction(Some(m), payer, [CLOSE_MULTISIG], viaProposal, true) == Ok(None)
  {
    var data: seq<byte> := [CLOSE_MULTISIG];
    assert data[1..] == [];
  }

  /** With nothing open, the authority makes the collector free and closes. */
  lemma {:induction false} AuthorityCloses(env: Env, s: State) returns (es: seq<Event>)
    requires Reachable(env, s) && s.ms.Some? && s.open == {} && IsControlled(s.ms.value.rules)
    ensures Run(env, s, es).ms.None?
  {
    hide Reachable, Run, Inv, ApplyConfigAction, MultisigInv, AllTransactionsClosed;
    var authority := s.ms.value.rules.configAuthority;
    ReachableInv(env, s);
    AccountInv(s);
    LiveState(s);
    CollectorTo(s.ms.value, DEFAULT_ADDRESS, authority, false);
    var e1 := AuthorityActs(env, s, [SET_RENT_COLLECTOR] + DEFAULT_ADDRESS);
    var s1 := Run(env, s, [e1]);
    ReachableOnward(env, s, [e1]);
    CountersShowOpen(env, s1);
    CloseSucceeds(s1.ms.value, authority, false);
    var e2 := AuthorityActs(env, s1, [CLOSE_MULTISIG]);
    RunAppend(env, s, [e1], [e2]);
    es := [e1] + [e2];
  }

  /** With nothing open, the voters make the collector free, close that proposal, and close. */
  lemma {:induction false} VotersClose(env: Env, s: State, creator: Address, executor: Address)
    returns (es: seq<Event>)
    requires Reachable(env, s) && Live(s) && s.open == {}
    requires HasPermission(s.ms.value.rules, creator, Initiate) && HasPermission(s.ms.value.rules, executor, Execute)
    requires s.ms.value.transactionIndex + 2 < U64_LIMIT
    ensures Run(env, s, es).ms.None?
  {
    hide Reachable, Run, Inv, ApplyConfigAction, MultisigInv, AllTransactionsClosed;
    var m := s.ms.value;
    var i := m.transactionIndex + 1;
    ReachableInv(env, s);
    AccountInv(s);
    Incremented(m);
    CollectorTo(m.(transactionIndex := i), DEFAULT_ADDRESS, executor, true);
    var first := DeliverVoted(env, s, creator, executor, [SET_RENT_COLLECTOR] + DEFAULT_ADDRESS, 0);
    var s1 := Run(env, s, first);
    ReachableOnward(env, s, first);
    ExecutedTerminal(s1.props[i]);
    var e := EndedCloses(env, s1, i);
    var s2 := Run(env, s1, [e]);
    ReachableOnward(env, s1, [e]);
    var last := VotersCloseNow(env, s2, creator, executor);
    RunAppend(env, s1, [e], last);
    RunAppend(env, s, first, [e] + last);
    es := first + ([e] + last);
  }

  lemma {:induction false} VotersCloseNow(env: Env, s: State, creator: Address, executor: Address)
    returns (es: seq<Event>)
    requires Reachable(env, s) && Live(s) && s.open == {} && s.ms.value.rules.rentCollector == DEFAULT_ADDRESS
    requires HasPermission(s.ms.value.rules, creator, Initiate) && HasPermission(s.ms.value.rules, executor, Execute)
    requires s.ms.value.transactionIndex + 1 < U64_LIMIT
    ensures Run(env, s, es).ms.None?
  {
    hide Reachable, Run, Inv, ApplyConfigAction, HasPermission;
    CountersShowOpen(env, s);
    CloseSucceeds(s.ms.value.(transactionIndex := s.ms.value.transactionIndex + 1), executor, true);
    es := DeliverVoted(env, s, creator, executor, [CLOSE_MULTISIG], 0);
  }

  /** Nobody may execute, and there is no authority: no continuation closes the multisig. */
  lemma {:induction false} FrozenStays(env: Env, s: State, es: seq<Event>)
    requires Reachable(env, s) && Live(s) && !IsControlled(s.ms.value.rules)
    requires forall who :: !HasPermission(s.ms.value.rules, who, Execute)
    ensures Run(env, s, es).ms.Some?
  {
    hide Reachable, Run, HasPermission;
    FrozenRun(env, s, es);
  }

  /**
   * When no stale Approved proposal is open, and there is an authority or else an owner who may
   * initiate and two free indexes, some continuation closes the multisig if and only if no stale
   * Active proposal is open and there is an authority or somebody who may execute.
   */
  lemma {:induction false} MultisigClosesIff(env: Env, s: State)
    requires Reachable(env, s) && Live(s) && NoneStale(s, Approved)
    requires || IsControlled(s.ms.value.rules)
             || ((exists who :: HasPermission(s.ms.value.rules, who, Initiate))
                 && s.ms.value.transactionIndex + 2 < U64_LIMIT)
    ensures (exists es :: Run(env, s, es).ms.None?)
       <==> && NoneStale(s, Active)
            && (|| IsControlled(s.ms.value.rules)
                || exists who :: HasPermission(s.ms.value.rules, who, Execute))
  {
    hide Reachable, Run, Inv, HasPermission;
    var r := s.ms.value.rules;
    if !NoneStale(s, Active) {
      var i :| i in s.open && i in s.props && s.props[i].status == Active
               && i <= s.ms.value.staleTransactionIndex;
      forall es ensures Run(env, s, es).ms.Some? {
        StaleActiveKeepsMultisig(env, s, es, i);
      }
    } else if !IsControlled(r) && !(exists who :: HasPermission(r, who, Execute)) {
      forall es ensures Run(env, s, es).ms.Some? {
        FrozenStays(env, s, es);
      }
    } else {
      var first := AllClose(env, s);
      var s1 := Run(env, s, first);
      ReachableOnward(env, s, first);
      var last: seq<Event>;
      if IsControlled(r) {
        last := AuthorityCloses(env, s1);
      } else {
        var creator: Address :| HasPermission(r, creator, Initiate);
        var executor: Address :| HasPermission(r, executor, Execute);
        last := VotersClose(env, s1, creator, executor);
      }
      RunAppend(env, s, first, last);
      assert Run(env, s, first + last).ms.None?;
    }
  }
}
