/** When the configuration can still change: autonomous multisigs may be frozen for good. */
module Freezing {
  import opened Base
  import opened OwnerSet
  import opened MultisigSpec
  import opened ProposalSpec
  import opened AccountResolution
  import opened ExecuteSpec
  import opened BufferSpec
  import opened Machine
  import opened Invariant
  import opened Safety
  import opened Governance
  import opened Continuation
  import opened Delivery
  import opened Stranding
  import opened ConfigAcceptance
  import opened ChunkedUpload

  /** The configuration differs from `r`, or is gone. */
  ghost predicate Reconfigured(s: State, r: Rules) {
    s.ms.None? || s.ms.value.rules != r
  }

  /** With no authority and nobody to execute, one step leaves the configuration alone. */
  lemma FrozenStep(env: Env, s: State, e: Event)
    requires Reachable(env, s) && Live(s) && !IsControlled(s.ms.value.rules)
    requires forall who :: !HasPermission(s.ms.value.rules, who, Execute)
    ensures !Reconfigured(Step(env, s, e), s.ms.value.rules)
  {
    hide Reachable, Step, HasPermission, Named;
    ConfigurationAuthorised(env, s, e);
    if Reconfigured(Step(env, s, e), s.ms.value.rules) {
      if Apply(env, s, e).Ok? {
        ExecutionGuarded(env, s, e);
      } else {
        RefusedChangesNothing(env, s, e);
      }
      assert false;
    }
  }

  lemma {:induction false} FrozenRun(env: Env, s: State, es: seq<Event>)
    requires Reachable(env, s) && Live(s) && !IsControlled(s.ms.value.rules)
    requires forall who :: !HasPermission(s.ms.value.rules, who, Execute)
    ensures !Reconfigured(Run(env, s, es), s.ms.value.rules)
    decreases |es|
  {
    hide Reachable, Step, HasPermission;
    if es != [] {
      FrozenStep(env, s, es[0]);
      assert Run(env, s, [es[0]]) == Step(env, s, es[0]);
      ReachableOnward(env, s, [es[0]]);
      FrozenRun(env, Step(env, s, es[0]), es[1..]);
    }
  }

  /**
   * An autonomous multisig with an owner who may initiate and a free index can still change its
   * configuration if and only if somebody may execute; if nobody may, it is frozen for good.
   */
  lemma {:induction false} AutonomousChangesIff(env: Env, s: State, creator: Address)
    requires Reachable(env, s) && Live(s) && !IsControlled(s.ms.value.rules)
    requires HasPermission(s.ms.value.rules, creator, Initiate) && s.ms.value.transactionIndex + 1 < U64_LIMIT
    ensures (exists es :: Reconfigured(Run(env, s, es), s.ms.value.rules))
       <==> (exists who :: HasPermission(s.ms.value.rules, who, Execute))
  {
    hide Reachable, Run, Inv, HasPermission, ApplyConfigAction, MultisigInv;
    if executor: Address :| HasPermission(s.ms.value.rules, executor, Execute) {
      var m, authority := s.ms.value, ADDRESS_LOOKUP_TABLE_ID;
      ReachableInv(env, s);
      AccountInv(s);
      Incremented(m);
      AuthorityTo(m.(transactionIndex := m.transactionIndex + 1), authority, executor, true);
      assert authority[0] != DEFAULT_ADDRESS[0];
      var es := DeliverVoted(env, s, creator, executor, [SET_CONFIG_AUTHORITY] + authority, 0);
      assert Reconfigured(Run(env, s, es), m.rules);
    } else {
      forall es ensures !Reconfigured(Run(env, s, es), s.ms.value.rules) {
        FrozenRun(env, s, es);
      }
    }
  }

  // Reaching a frozen state

  /** The positions of the owners who may execute. */
  ghost function Executors(r: Rules): set<nat> {
    set k: nat | k < |r.permissions| && MaskAllows(r.permissions[k], Execute)
  }

  /** Initiate and vote, but not execute. */
  const WITHOUT_EXECUTE: byte := 3

  lemma NobodyExecutes(r: Rules)
    requires |r.permissions| == |r.owners| && Executors(r) == {}
    ensures forall who :: !HasPermission(r, who, Execute)
  {
    hide MaskAllows;
    forall who ensures !HasPermission(r, who, Execute) {
      if who in r.owners {
        assert PositionOf(r.owners, who) !in Executors(r);
      }
    }
  }

  lemma ExecutorGone(r: Rules, r': Rules, k: nat)
    requires k in Executors(r) && r'.permissions == r.permissions[k := WITHOUT_EXECUTE]
    ensures Executors(r') == Executors(r) - {k} && |Executors(r')| == |Executors(r)| - 1
  {
  }

  lemma InitiatorsStay(r: Rules, r': Rules, k: nat, who: Address)
    requires |r.permissions| == |r.owners| && k < |r.permissions| && r'.owners == r.owners
    requires r'.permissions == r.permissions[k := WITHOUT_EXECUTE] && HasPermission(r, who, Initiate)
    ensures HasPermission(r', who, Initiate)
  {
  }

  /** The last thing an owner executes may be the loss of their own permission to. */
  lemma {:induction false} DropOneExecutor(env: Env, s: State, creator: Address, k: nat, now: i64)
    returns (es: seq<Event>)
    requires Reachable(env, s) && Live(s) && now <= LATEST_START
    requires HasPermission(s.ms.value.rules, creator, Initiate) && s.ms.value.transactionIndex + 1 < U64_LIMIT
    requires k in Executors(s.ms.value.rules)
    ensures var s' := Run(env, s, es);
            && Live(s') && s'.ms.value.transactionIndex == s.ms.value.transactionIndex + 1
            && var r, r' := s.ms.value.rules, s'.ms.value.rules;
               && r'.owners == r.owners && r'.permissions == r.permissions[k := WITHOUT_EXECUTE]
               && r'.configAuthority == r.configAuthority && r'.timeLock == r.timeLock
    ensures Clocked(es, now, now + s.ms.value.rules.timeLock)
  {
    hide Reachable, Run, ApplyConfigAction, MultisigInv, Inv, Clocked, MaskAllows, Ascending;
    var m, r := s.ms.value, s.ms.value.rules;
    ReachableInv(env, s);
    AccountInv(s);
    Incremented(m);
    InvAscending(m);
    var owner := r.owners[k];
    PositionOfAt(r.owners, k);
    assert MaskCanVote(WITHOUT_EXECUTE) by {
      MaskThreeVotes();
    }
    VotingMaskSucceeds(m.(transactionIndex := m.transactionIndex + 1), owner, owner, WITHOUT_EXECUTE, true);
    es := DeliverVoted(env, s, creator, owner, [SET_PERMISSION] + owner + [WITHOUT_EXECUTE], now);
  }

  lemma InvAscending(m: Multisig)
    requires MultisigInv(m)
    ensures Ascending(m.rules.owners)
  {
  }

  lemma MaskThreeVotes()
    ensures MaskCanVote(WITHOUT_EXECUTE)
  {
  }

  /**
   * From every reachable state with an owner who may initiate and enough indexes, the owners have a
   * run, which a real clock gives, after which nobody may execute. Each owner who may goes in turn.
   */
  lemma {:induction false} DropExecutors(env: Env, s: State, creator: Address, now: i64) returns (es: seq<Event>)
    requires Reachable(env, s) && Live(s) && HasPermission(s.ms.value.rules, creator, Initiate)
    requires s.ms.value.transactionIndex + |Executors(s.ms.value.rules)| < U64_LIMIT
    requires now + |Executors(s.ms.value.rules)| * MAX_TIME_LOCK <= LATEST_START
    ensures var s' := Run(env, s, es);
            && Live(s') && s'.ms.value.rules.owners == s.ms.value.rules.owners
            && s'.ms.value.rules.configAuthority == s.ms.value.rules.configAuthority
            && forall who :: !HasPermission(s'.ms.value.rules, who, Execute)
    ensures Clocked(es, now, now + |Executors(s.ms.value.rules)| * MAX_TIME_LOCK)
    decreases |Executors(s.ms.value.rules)|
  {
    hide Reachable, HasPermission, Executors, Inv, Run, Clocked;
    var r, n := s.ms.value.rules, |Executors(s.ms.value.rules)|;
    if Executors(r) == {} {
      NobodyExecutes(r);
      es := [];
      NothingRun(env, s, now);
    } else {
      var k :| k in Executors(r);
      ExecutorPosition(r, k);
      var first := DropOneExecutor(env, s, creator, k, now);
      var s1 := Run(env, s, first);
      ReachableOnward(env, s, first);
      ExecutorGone(r, s1.ms.value.rules, k);
      InitiatorsStay(r, s1.ms.value.rules, k, creator);
      ReachableInv(env, s);
      TimeLockSmall(s);
      ClockedLonger(first, now, now + r.timeLock, now + MAX_TIME_LOCK);
      var rest := DropExecutors(env, s1, creator, now + MAX_TIME_LOCK);
      ClockedAppend(first, rest, now, now + MAX_TIME_LOCK, now + n * MAX_TIME_LOCK);
      RunAppend(env, s, first, rest);
      es := first + rest;
    }
  }

  lemma NothingRun(env: Env, s: State, now: i64)
    ensures Run(env, s, []) == s && Clocked([], now, now)
  {
  }

  lemma ExecutorPosition(r: Rules, k: nat)
    requires k in Executors(r)
    ensures k < |r.permissions|
  {
  }

  /** So an autonomous multisig can be brought to a state from which nothing changes its configuration. */
  lemma {:induction false} AutonomousFreezes(env: Env, s: State, creator: Address, now: i64) returns (es: seq<Event>)
    requires Reachable(env, s) && Live(s) && !IsControlled(s.ms.value.rules)
    requires HasPermission(s.ms.value.rules, creator, Initiate)
    requires s.ms.value.transactionIndex + |Executors(s.ms.value.rules)| < U64_LIMIT
    requires now + |Executors(s.ms.value.rules)| * MAX_TIME_LOCK <= LATEST_START
    ensures var s' := Run(env, s, es);
            && s'.ms.Some? && s'.ms.value.rules.owners == s.ms.value.rules.owners
            && forall more :: !Reconfigured(Run(env, s', more), s'.ms.value.rules)
  {
    hide Reachable, HasPermission, Executors, Run;
    es := DropExecutors(env, s, creator, now);
    var s' := Run(env, s, es);
    ReachableOnward(env, s, es);
    forall more ensures !Reconfigured(Run(env, s', more), s'.ms.value.rules) {
      FrozenRun(env, s', more);
    }
  }

  // With nothing pending

  /** Every open proposal has ended. */
  ghost predicate Idle(s: State) {
    forall i :: i in s.open ==> i in s.props && Terminal(s.props[i].status)
  }

  /** Somebody may create a proposal, and an index is left for it. */
  ghost predicate CanPropose(m: Multisig)
    requires LayoutOk(m)
  {
    (exists who :: HasPermission(m.rules, who, Initiate)) && m.transactionIndex + 1 < U64_LIMIT
  }

  /** An instruction that opens nothing leaves the index alone. */
  lemma NoOpening(env: Env, s: State, e: Event)
    requires Inv(s) && (e.CreateEvent? || e.PromoteEvent? ==> Apply(env, s, e).Err?)
    ensures var s' := Step(env, s, e);
            && s'.open <= s.open
            && (s'.ms.Some? ==> s.ms.Some? && s'.ms.value.transactionIndex == s.ms.value.transactionIndex)
  {
    hide RulesInv, IndexOk, ExecuteProposal, ApplyConfigAction, CreateTransaction, Promote,
         Approve, Reject, Cancel, CreateBuffer, ExtendBuffer, CloseBuffer, CheckHeader;
    if Apply(env, s, e).Ok? {
      if e.ExecuteEvent? {
        ExecuteEvolves(s.ms.value, s.self, s.props[e.index], e.call.(programId := env.programId));
      } else if e.SetConfigEvent? {
        ActionEvolves(s.ms.value, e.authority.address, e.data, false, e.runtimeOk);
      }
    }
  }

  /** Where nobody can propose, neither creation nor promotion succeeds. */
  lemma NothingProposed(env: Env, s: State, e: Event)
    requires Reachable(env, s) && Live(s) && !CanPropose(s.ms.value) && (e.CreateEvent? || e.PromoteEvent?)
    ensures Apply(env, s, e).Err?
  {
    hide Reachable, Apply, HasPermission, Promotable;
    if e.CreateEvent? {
      CreationAccepted(env, s, e);
    } else {
      PromotionIsCreation(env, s, e);
      CreationAccepted(env, s, Direct(s, e));
    }
  }

  lemma IdleStep(env: Env, s: State, e: Event)
    requires Reachable(env, s) && Live(s) && !IsControlled(s.ms.value.rules)
    requires Idle(s) && !CanPropose(s.ms.value)
    ensures var s' := Step(env, s, e);
            && s'.ms.Some? && s'.ms.value.rules == s.ms.value.rules && Live(s')
            && Idle(s') && !CanPropose(s'.ms.value)
  {
    hide Reachable, Step, HasPermission, Named, Inv, Terminal;
    ReachableInv(env, s);
    if e.CreateEvent? || e.PromoteEvent? {
      NothingProposed(env, s, e);
    }
    NoOpening(env, s, e);
    ConfigurationAuthorised(env, s, e);
    if Reconfigured(Step(env, s, e), s.ms.value.rules) {
      if Apply(env, s, e).Ok? {
        ExecutionGuarded(env, s, e);
        ApprovedIsOpen(s.props[e.index]);
      } else {
        RefusedChangesNothing(env, s, e);
      }
      assert false;
    }
    forall i | i in Step(env, s, e).open
      ensures i in Step(env, s, e).props && Terminal(Step(env, s, e).props[i].status)
    {
      ProposalStep(env, s, e, i);
      EndedStays(s.props[i], Step(env, s, e).props[i]);
    }
  }

  lemma ApprovedIsOpen(p: Proposal)
    requires p.status == Approved
    ensures !Terminal(p.status)
  {
  }

  lemma EndedStays(p: Proposal, q: Proposal)
    requires Terminal(p.status) && Next(p, q)
    ensures Terminal(q.status)
  {
  }

  lemma {:induction false} IdleRun(env: Env, s: State, es: seq<Event>)
    requires Reachable(env, s) && Live(s) && !IsControlled(s.ms.value.rules)
    requires Idle(s) && !CanPropose(s.ms.value)
    ensures !Reconfigured(Run(env, s, es), s.ms.value.rules)
    decreases |es|
  {
    hide Reachable, Step, CanPropose, Idle;
    if es != [] {
      IdleStep(env, s, es[0]);
      assert Run(env, s, [es[0]]) == Step(env, s, es[0]);
      ReachableOnward(env, s, [es[0]]);
      IdleRun(env, Step(env, s, es[0]), es[1..]);
    }
  }

  /**
   * With nothing pending, an autonomous multisig can still change its configuration, or be closed, if
   * and only if somebody may initiate, somebody may execute, and an index is left.
   */
  lemma {:induction false} AutonomousIdleIff(env: Env, s: State)
    requires Reachable(env, s) && Live(s) && !IsControlled(s.ms.value.rules) && Idle(s)
    ensures (exists es :: Reconfigured(Run(env, s, es), s.ms.value.rules))
       <==> && (exists who :: HasPermission(s.ms.value.rules, who, Initiate))
            && (exists who :: HasPermission(s.ms.value.rules, who, Execute))
            && s.ms.value.transactionIndex + 1 < U64_LIMIT
  {
    hide Reachable, Run, HasPermission, Idle, Reconfigured;
    if CanPropose(s.ms.value) {
      var creator: Address :| HasPermission(s.ms.value.rules, creator, Initiate);
      AutonomousChangesIff(env, s, creator);
    } else {
      forall es ensures !Reconfigured(Run(env, s, es), s.ms.value.rules) {
        IdleRun(env, s, es);
      }
    }
  }
}
