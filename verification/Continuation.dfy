/** What no continuation of a run can do to a proposal or to the account. */
module Continuation {
  import opened Base
  import opened MultisigSpec
  import opened ProposalSpec
  import opened ExecuteSpec
  import opened BufferSpec
  import opened ProposalLaws
  import opened Machine
  import opened Invariant
  import opened Governance

  /** The status changes a single instruction may make. */
  predicate Edge(a: Status, b: Status) {
    || (a == Active && (b == Approved || b == Rejected || b == Cancelled))
    || (a == Approved && (b == Executed || b == Cancelled))
  }

  /** One instruction at a proposal: votes are only added, and the message never changes. */
  ghost predicate Next(p: Proposal, q: Proposal) {
    && AsCreated(q) == AsCreated(p)
    && p.approved <= q.approved && p.rejected <= q.rejected && p.cancelled <= q.cancelled
    && (q.status == p.status || Edge(p.status, q.status))
    && (Terminal(p.status) ==> q == p)
    && (p.status == Approved ==>
          q.approved == p.approved && q.rejected == p.rejected && q.approvedAt == p.approvedAt)
  }

  /** Any number of instructions later. */
  ghost predicate Later(p: Proposal, q: Proposal) {
    && AsCreated(q) == AsCreated(p)
    && p.approved <= q.approved && p.rejected <= q.rejected && p.cancelled <= q.cancelled
    && (q.status == p.status || p.status == Active || Edge(p.status, q.status))
    && (Terminal(p.status) ==> q == p)
    && (p.status == Approved ==>
          q.approved == p.approved && q.rejected == p.rejected && q.approvedAt == p.approvedAt)
  }

  /** The proposal is past the point where it may be voted on. */
  ghost predicate Stale(s: State, i: nat) {
    s.ms.Some? ==> i <= s.ms.value.staleTransactionIndex
  }

  /** A stale proposal keeps everything, except that an approved one may still be executed. */
  predicate Settles(p: Proposal, q: Proposal) {
    q == p || (p.status == Approved && q == p.(status := Executed))
  }

  // One step

  lemma VoteStep(env: Env, s: State, e: Event)
    requires Inv(s) && (e.ApproveEvent? || e.RejectEvent? || e.CancelEvent?) && Apply(env, s, e).Ok?
    ensures e.index in s.props && s.ms.Some? && e.index > s.ms.value.staleTransactionIndex
    ensures var s' := Apply(env, s, e).value;
            && s' == Updated(s, e.index, s'.props[e.index], e)
            && Next(s.props[e.index], s'.props[e.index])
  {
    hide Approve, Reject, Cancel, ProposalInv, MultisigInv, Evidence, HasPermission, HasVoted;
    var i := e.index;
    assert IndexOk(s, i);
    var m, p, t := s.ms.value, s.props[i], s.snaps[i];
    if e.ApproveEvent? {
      ApproveExact(m, s.self, i, p, t, e.owner, e.instruction, e.now);
    } else if e.RejectEvent? {
      RejectExact(m, s.self, i, p, t, e.owner, e.instruction);
    } else {
      CancelExact(m, s.self, i, p, t, e.owner, e.instruction);
    }
    IndexNamed(s, i);
  }

  lemma IndexNamed(s: State, i: nat)
    requires Inv(s) && i in s.props
    ensures s.props[i].index == i
  {
    assert IndexOk(s, i);
  }

  lemma ExecuteStep(env: Env, s: State, e: Event)
    requires Inv(s) && e.ExecuteEvent? && Apply(env, s, e).Ok?
    ensures e.index in s.props && s.props[e.index].status == Approved && s.ms.Some?
    ensures var s' := Apply(env, s, e).value;
            && s' == Updated(s, e.index, s.props[e.index].(status := Executed), e).(ms := s'.ms)
            && (if s'.ms.Some? then Evolves(s.ms.value, s'.ms.value)
                else OnlyExecutingTransactionOpen(s.ms.value))
  {
    hide ExecuteProposal, ProposalInv, MultisigInv, Evidence, Evolves, OnlyExecutingTransactionOpen;
    assert IndexOk(s, e.index);
    var c := e.call.(programId := env.programId);
    ExecuteKeeps(s.ms.value, s.self, e.index, s.props[e.index], s.snaps[e.index], c);
    ExecuteEvolves(s.ms.value, s.self, s.props[e.index], c);
  }

  /** A proposal has been opened at the next index, and the account has only counted it. */
  ghost predicate Opens(s: State, s': State) {
    && s.ms.Some?
    && var i := s.ms.value.transactionIndex + 1;
       && i !in s.props && i in s'.props && s'.props == s.props[i := s'.props[i]]
       && i !in s.snaps && i in s'.snaps && s'.snaps == s.snaps[i := s'.snaps[i]]
       && s'.open == s.open + {i}
       && s'.ms == Some(s.ms.value.(transactionIndex := i))
  }

  lemma OpenedOpens(s: State, m: Multisig, p: Proposal, e: Event)
    requires Inv(s) && s.ms.Some? && p.index == s.ms.value.transactionIndex + 1
    requires m == s.ms.value.(transactionIndex := p.index)
    ensures Opens(s, Opened(s, m, p, e))
  {
    hide MultisigInv, EntryOk;
    assert IndexOk(s, p.index);
  }

  lemma OpenStep(env: Env, s: State, e: Event)
    requires Inv(s) && (e.CreateEvent? || e.PromoteEvent?) && Apply(env, s, e).Ok?
    ensures Opens(s, Apply(env, s, e).value)
  {
    hide MultisigInv, ProposalInv, IndexOk, InitProposal, Opens;
    var m := s.ms.value;
    if e.CreateEvent? {
      CreateKeeps(m, s.self, e.creator.address, e.instruction[CREATE_HEADER_LEN..],
                  CreateHeader(e.instruction), e.runtimeOk);
      var (m', p) := CreateTransaction(m, s.self, e.creator, e.instruction, e.vacant, e.runtimeOk).value;
      OpenedOpens(s, m', p, e);
    } else {
      var b := s.buffers[e.key];
      CreateKeeps(m, s.self, e.creator.address, b.region, PromoteHeader(e.instruction, b.vaultIndex), e.runtimeOk);
      var (m', p) := Promote(m, s.self, b, e.creator, e.instruction, e.vacant, e.runtimeOk, env.sha).value;
      OpenedOpens(s, m', p, e);
      BuffersApart(s, Opened(s, m', p, e), s.buffers - {e.key});
    }
  }

  lemma BuffersApart(s: State, s': State, buffers: map<BufferKey, Buffer>)
    requires Opens(s, s')
    ensures Opens(s, s'.(buffers := buffers))
  {
  }

  /** The account only moves forward: a closed one stays closed, and no proposal stops being stale. */
  ghost predicate Forward(a: Option<Multisig>, b: Option<Multisig>) {
    b.Some? ==>
      && a.Some?
      && b.value.createKey == a.value.createKey
      && a.value.staleTransactionIndex <= b.value.staleTransactionIndex
      && a.value.transactionIndex <= b.value.transactionIndex
      && a.value.closedTransactionCount <= b.value.closedTransactionCount
  }

  lemma AccountStep(env: Env, s: State, e: Event)
    requires Inv(s)
    ensures Forward(s.ms, Step(env, s, e).ms)
  {
    hide RulesInv, IndexOk, ExecuteProposal, ApplyConfigAction, InitProposal, Promote, CreateTransaction,
         Approve, Reject, Cancel, CreateBuffer, ExtendBuffer, CloseBuffer, CheckHeader;
    if Apply(env, s, e).Ok? {
      if e.CreateEvent? || e.PromoteEvent? {
        OpenStep(env, s, e);
      } else if e.ExecuteEvent? {
        ExecuteEvolves(s.ms.value, s.self, s.props[e.index], e.call.(programId := env.programId));
      } else if e.SetConfigEvent? {
        ActionEvolves(s.ms.value, e.authority.address, e.data, false, e.runtimeOk);
      }
    }
  }

  /** What any instruction does to any one proposal. */
  lemma ProposalStep(env: Env, s: State, e: Event, i: nat)
    requires Inv(s) && i in s.props
    ensures var s' := Step(env, s, e);
            && i in s'.props && Next(s.props[i], s'.props[i])
            && i in s.snaps && i in s'.snaps && s'.snaps[i] == s.snaps[i]
            && (Stale(s, i) ==> Settles(s.props[i], s'.props[i]))
            && (i in s.open && s.props[i].status == Active ==> i in s'.open)
  {
    hide MultisigInv, EntryOk, ExecuteProposal, SetConfig, Promote, CreateTransaction,
         Approve, Reject, Cancel, CreateBuffer, ExtendBuffer, CloseBuffer, CheckHeader;
    assert IndexOk(s, i);
    if Apply(env, s, e).Ok? {
      if e.CreateEvent? || e.PromoteEvent? {
        OpenStep(env, s, e);
      } else if e.ApproveEvent? || e.RejectEvent? || e.CancelEvent? {
        VoteStep(env, s, e);
      } else if e.ExecuteEvent? {
        ExecuteStep(env, s, e);
      }
    }
  }

  // Whole runs

  lemma {:induction false} RunAppend(env: Env, s: State, a: seq<Event>, b: seq<Event>)
    ensures Run(env, Run(env, s, a), b) == Run(env, s, a + b)
    decreases |a|
  {
    hide Step;
    if a == [] {
      assert a + b == b;
    } else {
      RunAppend(env, Step(env, s, a[0]), a[1..], b);
      assert (a + b)[0] == a[0] && (a + b)[1..] == a[1..] + b;
    }
  }

  /** A continuation of a reachable state is reachable. */
  lemma ReachableOnward(env: Env, s: State, es: seq<Event>)
    requires Reachable(env, s)
    ensures Reachable(env, Run(env, s, es))
  {
    hide Run, Start;
    var self: Address, a: InitArgs, before: seq<Event> :|
      Start(self, a).Ok? && s == Run(env, Start(self, a).value, before);
    RunAppend(env, Start(self, a).value, before, es);
  }

  lemma {:induction false} RunForward(env: Env, s: State, es: seq<Event>)
    requires Inv(s)
    ensures Forward(s.ms, Run(env, s, es).ms)
    decreases |es|
  {
    hide Step, Inv;
    if es != [] {
      AccountStep(env, s, es[0]);
      StepKeeps(env, s, es[0]);
      RunForward(env, Step(env, s, es[0]), es[1..]);
    }
  }

  lemma LaterStep(p: Proposal, q: Proposal, r: Proposal)
    requires Next(p, q) && Later(q, r)
    ensures Later(p, r)
  {
  }

  lemma {:induction false} RunProposal(env: Env, s: State, es: seq<Event>, i: nat)
    requires Inv(s) && i in s.props
    ensures var s' := Run(env, s, es);
            && i in s'.props && Later(s.props[i], s'.props[i])
            && i in s.snaps && i in s'.snaps && s'.snaps[i] == s.snaps[i]
    decreases |es|
  {
    hide Step, Inv, Next, Later;
    if es == [] {
      assert IndexOk(s, i) && Later(s.props[i], s.props[i]) by {
        StayingIsLater(s, i);
      }
    } else {
      var s1 := Step(env, s, es[0]);
      ProposalStep(env, s, es[0], i);
      StepKeeps(env, s, es[0]);
      RunProposal(env, s1, es[1..], i);
      LaterStep(s.props[i], s1.props[i], Run(env, s, es).props[i]);
    }
  }

  lemma StayingIsLater(s: State, i: nat)
    requires Inv(s) && i in s.props
    ensures IndexOk(s, i) && Later(s.props[i], s.props[i])
  {
  }

  lemma StaleStep(env: Env, s: State, e: Event, i: nat)
    requires Inv(s) && Stale(s, i)
    ensures Stale(Step(env, s, e), i)
  {
    hide Step, Inv;
    AccountStep(env, s, e);
  }

  lemma {:induction false} RunStale(env: Env, s: State, es: seq<Event>, i: nat)
    requires Inv(s) && i in s.props && Stale(s, i)
    ensures var s' := Run(env, s, es);
            && Stale(s', i) && i in s'.props && Settles(s.props[i], s'.props[i])
            && (i in s.open && s.props[i].status == Active ==> i in s'.open)
    decreases |es|
  {
    hide Step, Inv, Stale, Next;
    if es != [] {
      ProposalStep(env, s, es[0], i);
      StaleStep(env, s, es[0], i);
      StepKeeps(env, s, es[0]);
      RunStale(env, Step(env, s, es[0]), es[1..], i);
    }
  }

  // The main results

  /**
   * Every instruction moves a proposal along a legal edge or leaves it alone: votes are only
   * added, none once it has ended or been approved, and what it will execute never changes.
   */
  lemma LegalSteps(env: Env, s: State, e: Event, i: nat)
    requires Reachable(env, s) && i in s.props
    ensures var s' := Step(env, s, e); i in s'.props && Next(s.props[i], s'.props[i])
  {
    hide Reachable, Step, Inv, Next;
    ReachableInv(env, s);
    ProposalStep(env, s, e, i);
  }

  /** So what is executed is what was created and approved, however many steps later. */
  lemma ContentsFixed(env: Env, s: State, es: seq<Event>, i: nat)
    requires Reachable(env, s) && i in s.props
    ensures var s' := Run(env, s, es);
            && i in s'.props && Later(s.props[i], s'.props[i])
            && i in s.snaps && i in s'.snaps && s'.snaps[i] == s.snaps[i]
  {
    hide Reachable, Run, Inv, Later;
    ReachableInv(env, s);
    RunProposal(env, s, es, i);
  }

  /** The counters and the stale index never go back, and a closed account never returns. */
  lemma StaleIndexMonotone(env: Env, s: State, es: seq<Event>)
    requires Reachable(env, s)
    ensures Forward(s.ms, Run(env, s, es).ms)
  {
    hide Reachable, Run, Inv, Forward;
    ReachableInv(env, s);
    RunForward(env, s, es);
  }

  /**
   * Staleness freezes: whatever happens next, a stale proposal keeps every vote and count, an
   * Active one stays Active and open for good, and an Approved one can only become Executed.
   */
  lemma StalenessFreezes(env: Env, s: State, es: seq<Event>, i: nat)
    requires Reachable(env, s) && i in s.props && Stale(s, i)
    ensures var s' := Run(env, s, es);
            && Stale(s', i) && i in s'.props && Settles(s.props[i], s'.props[i])
            && (i in s.open && s.props[i].status == Active ==> i in s'.open)
  {
    hide Reachable, Run, Inv, Stale, Settles;
    ReachableInv(env, s);
    RunStale(env, s, es, i);
  }

  /**
   * One open proposal that became stale while Active keeps the multisig from ever being closed, by
   * either path: it can neither end nor be closed itself.
   */
  lemma {:induction false} StaleActiveKeepsMultisig(env: Env, s: State, es: seq<Event>, i: nat)
    requires Reachable(env, s) && s.ms.Some? && Stale(s, i)
    requires i in s.open && i in s.props && s.props[i].status == Active
    ensures Run(env, s, es).ms.Some?
    decreases |es|
  {
    hide Reachable, Step, Inv, Stale, Next;
    if es != [] {
      var e := es[0];
      ReachableInv(env, s);
      if Step(env, s, e).ms.None? {
        MultisigClosedLast(env, s, e);
        ClosingExecutionApproved(env, s, e);
        assert false;
      }
      ProposalStep(env, s, e, i);
      StaleStep(env, s, e, i);
      assert Run(env, s, [e]) == Step(env, s, e);
      ReachableOnward(env, s, [e]);
      StaleActiveKeepsMultisig(env, Step(env, s, e), es[1..], i);
    }
  }

  lemma ClosingExecutionApproved(env: Env, s: State, e: Event)
    requires Inv(s) && s.ms.Some? && Step(env, s, e).ms.None? && e.ExecuteEvent?
    ensures e.index in s.props && s.props[e.index].status == Approved
  {
    hide Inv, ExecuteProposal;
    ExecuteStep(env, s, e);
  }

  /** Any change by the authority does this to whatever is then open and Active. */
  lemma AuthorityStrands(env: Env, s: State, es: seq<Event>, i: nat)
    requires Reachable(env, s) && s.ms.Some? && IsControlled(s.ms.value.rules)
    requires i in s.open && i in s.props && s.props[i].status == Active
    ensures var authority := Signer(s.ms.value.rules.configAuthority, true);
            var e := SetConfigEvent(authority, [CHANGE_TIME_LOCK, 0, 0, 0, 0], true);
            Apply(env, s, e).Ok? && Run(env, s, [e] + es).ms.Some?
  {
    hide Reachable, MultisigInv;
    var m := s.ms.value;
    var e := SetConfigEvent(Signer(m.rules.configAuthority, true), [CHANGE_TIME_LOCK, 0, 0, 0, 0], true);
    ReachableInv(env, s);
    TimeLockToZero(m, m.rules.configAuthority, false);
    assert Live(s) && Apply(env, s, e).Ok? by {
      LiveState(s);
    }
    assert IndexOk(s, i) && i <= m.transactionIndex;
    ReachableOnward(env, s, [e]);
    assert Run(env, s, [e]) == Step(env, s, e);
    StaleActiveKeepsMultisig(env, Step(env, s, e), es, i);
    RunAppend(env, s, [e], es);
  }

  lemma LiveState(s: State)
    requires Inv(s) && s.ms.Some?
    ensures Live(s)
  {
  }
}
