/** What the time lock gives the owners: a window to cancel, while the rules stay as they were. */
module TimeLock {
  import opened Base
  import opened OwnerSet
  import opened MultisigSpec
  import opened MessageCodec
  import opened ProposalSpec
  import opened Machine
  import opened Invariant
  import opened Safety
  import opened Governance
  import opened Continuation
  import opened Progress
  import opened Delivery
  import opened Finality
  import opened Stranding
  import opened ConfigAcceptance

  ghost predicate CancelledIn(s: State, i: nat) {
    i in s.props && s.props[i].status == Cancelled
  }

  /** The window to cancel is open exactly while the proposal is fresh: any change of configuration shuts it. */
  lemma {:induction false} CancellableIffFresh(env: Env, s: State, i: nat)
    requires Reachable(env, s) && s.ms.Some?
    requires i in s.open && i in s.props && s.props[i].status == Approved
    ensures (exists es :: CancelledIn(Run(env, s, es), i)) <==> i > s.ms.value.staleTransactionIndex
  {
    hide Reachable, Inv, Run, PendingCancel, Ballot;
    if i > s.ms.value.staleTransactionIndex {
      ReachableInv(env, s);
      CancelPossible(s, i);
      var order := Listing(PendingCancel(s.props[i], s.ms.value.rules));
      CancelPositions(s, i, order);
      CancellationsLatch(env, s, i, order);
      assert CancelledIn(Run(env, s, Cancellations(i, s.ms.value.rules.owners, order)), i);
    } else {
      forall es ensures !CancelledIn(Run(env, s, es), i) {
        StalenessFreezes(env, s, es, i);
      }
    }
  }

  /** So an execution before the lock in force at the proposal's creation has run is of a stale proposal. */
  lemma EarlyExecutionIsStale(env: Env, s: State, e: Event)
    requires Reachable(env, s) && e.ExecuteEvent? && Apply(env, s, e).Ok?
    ensures s.ms.Some? && e.index in s.props && e.index in s.snaps
    ensures 0 < s.snaps[e.index].timeLock && e.call.now - s.props[e.index].approvedAt < s.snaps[e.index].timeLock ==>
              e.index <= s.ms.value.staleTransactionIndex
  {
    hide Reachable, Apply, StampedAt, HasPermission, EntryOk;
    ExecutionGuarded(env, s, e);
    EntryAt(env, s, e.index);
    if e.index > s.ms.value.staleTransactionIndex {
      SnapshotsStable(env, s, e.index);
    }
  }

  /** The account just after an approved proposal, once its authority has set the lock to zero. */
  function Unlocked(m: Multisig): Multisig {
    InvalidatePriorTransactions(
      m.(transactionIndex := m.transactionIndex + 1, rules := m.rules.(timeLock := 0)))
  }

  /**
   * And that happens: on every controlled multisig, however long its lock, the authority can take the
   * window away. A proposal is approved under the lock; the authority sets the lock to zero, after which
   * nobody can cancel it any more; and it is executed at the very moment of its approval.
   */
  lemma {:induction false} AuthorityTakesWindow(
    env: Env, s: State, creator: Address, executor: Address, data: seq<byte>, now: i64)
    returns (es: seq<Event>, e: Event)
    requires Reachable(env, s) && Live(s) && IsControlled(s.ms.value.rules) && now <= LATEST_START
    requires HasPermission(s.ms.value.rules, creator, Initiate) && HasPermission(s.ms.value.rules, executor, Execute)
    requires s.ms.value.transactionIndex + 1 < U64_LIMIT && |data| <= MAX_ACTION_LEN
    requires Acceptable(Unlocked(s.ms.value), executor, data, true, true)
    ensures var i, s1, s2 := s.ms.value.transactionIndex + 1, Run(env, s, es), Run(env, s, es + [e]);
            && i in s1.props && i in s1.snaps && i in s2.props
            && s1.snaps[i].timeLock == s.ms.value.rules.timeLock
            && s1.props[i].status == Approved && s1.props[i].approvedAt == now
            && e.ExecuteEvent? && e.call.now == now && s2.props[i].status == Executed
            && forall more :: !CancelledIn(Run(env, s1, more), i)
  {
    hide Reachable, HasPermission, Decode, Encode, Run, Inv, ActionMessage, ApplyConfigAction, Clocked, Acceptable,
         CancelledIn, MultisigInv;
    var i, m := s.ms.value.transactionIndex + 1, s.ms.value;
    ActionMessageParses(env.programId, data);
    var ready := ProposeAndApprove(env, s, creator, Encode(ActionMessage(env.programId, data)), now);
    var s0 := Run(env, s, ready);
    ReachableOnward(env, s, ready);
    ReachableInv(env, s0);
    AccountInv(s0);
    FreshIndex(s, s0, env);
    SnapshotsStable(env, s0, i);
    TimeLockToZero(s0.ms.value, m.rules.configAuthority, false);
    var unlock := AuthorityActs(env, s0, [CHANGE_TIME_LOCK, 0, 0, 0, 0]);
    var s1 := Run(env, s0, [unlock]);
    ReachableOnward(env, s0, [unlock]);
    ReachableInv(env, s1);
    AccountInv(s1);
    ActionAccepted(s1.ms.value, executor, data, true, true);
    PermissionKept(m.rules, s1.ms.value.rules, executor);
    e := ExecuteAction(env, s1, i, executor, data);
    RunAppend(env, s, ready, [unlock]);
    es := ready + [unlock];
    RunAppend(env, s, es, [e]);
    forall more ensures !CancelledIn(Run(env, s1, more), i) {
      NoWindow(env, s1, i, more);
    }
  }

  lemma FreshIndex(s: State, s0: State, env: Env)
    requires Reachable(env, s) && s.ms.Some? && s0.ms.Some?
    requires s0.ms.value == s.ms.value.(transactionIndex := s.ms.value.transactionIndex + 1)
    ensures s.ms.value.transactionIndex + 1 > s0.ms.value.staleTransactionIndex
  {
    hide Reachable, IndexOk, RulesInv;
    ReachableInv(env, s);
  }

  lemma PermissionKept(r: Rules, r': Rules, who: Address)
    requires |r.permissions| == |r.owners| && r'.owners == r.owners && r'.permissions == r.permissions
    requires HasPermission(r, who, Execute)
    ensures HasPermission(r', who, Execute)
  {
  }

  lemma {:induction false} NoWindow(env: Env, s: State, i: nat, es: seq<Event>)
    requires Reachable(env, s) && Live(s) && i in s.open && i in s.props && s.props[i].status == Approved
    requires i <= s.ms.value.staleTransactionIndex
    ensures !CancelledIn(Run(env, s, es), i)
  {
    hide Reachable, Run;
    StalenessFreezes(env, s, es, i);
  }
}
