/** Runs that carry a configuration action by proposal, from creation to execution. */
module Delivery {
  import opened Base
  import opened OwnerSet
  import opened MultisigSpec
  import opened MessageCodec
  import opened ProposalSpec
  import opened AccountResolution
  import opened ExecuteSpec
  import opened ProposalLaws
  import opened Machine
  import opened Invariant
  import opened Safety
  import opened Governance
  import opened Continuation
  import opened Progress

  const SYSTEM_PROGRAM: Address := DEFAULT_ADDRESS

  /** The client's message for a configuration action: this program, and no accounts. */
  function ActionMessage(programId: Address, data: seq<byte>): Message {
    Message(0, 0, 0, [programId, SYSTEM_PROGRAM], [Instruction(0, [], data)], [])
  }

  const MAX_ACTION_LEN := 64

  /** It is well formed, so the program reads back what the client wrote, and it fits. */
  lemma ActionMessageParses(programId: Address, data: seq<byte>)
    requires |data| <= MAX_ACTION_LEN
    ensures var m := ActionMessage(programId, data);
            Decode(Encode(m)) == Some(m) && |Encode(m)| == 74 + |data| <= MAX_MESSAGE_SIZE
  {
    hide Decode;
    var m := ActionMessage(programId, data);
    RoundTrip(m);
    assert EncodeKeys(m.keys) == m.keys[0] + EncodeKeys(m.keys[1..]);
    assert EncodeKeys(m.keys[1..]) == m.keys[1] + EncodeKeys([]);
    assert EncodeInstructions(m.instructions) == EncodeInstruction(m.instructions[0]) + EncodeInstructions([]);
  }

  // Time

  /** A time far from the end of the clock: no time lock added to it overflows. */
  const LATEST_START := 0x7000_0000_0000_0000

  /** The clock an instruction reads, if it reads it. */
  function TimeOf(e: Event): Option<i64> {
    match e
    case ApproveEvent(_, _, _, now) => Some(now)
    case ExecuteEvent(_, call) => Some(call.now)
    case _ => None
  }

  /** A clock that never goes back gives the run, between two times. */
  ghost predicate Clocked(es: seq<Event>, from: int, to: int) {
    && from <= to
    && (forall k :: 0 <= k < |es| && TimeOf(es[k]).Some? ==> from <= TimeOf(es[k]).value <= to)
    && (forall j, k :: 0 <= j < k < |es| && TimeOf(es[j]).Some? && TimeOf(es[k]).Some? ==>
          TimeOf(es[j]).value <= TimeOf(es[k]).value)
  }

  lemma ClockedAppend(a: seq<Event>, b: seq<Event>, from: int, mid: int, to: int)
    requires Clocked(a, from, mid) && Clocked(b, mid, to)
    ensures Clocked(a + b, from, to)
  {
    var es := a + b;
    assert forall k :: 0 <= k < |es| ==> es[k] == if k < |a| then a[k] else b[k - |a|];
    hide TimeOf;
    forall j, k | 0 <= j < k < |es| && TimeOf(es[j]).Some? && TimeOf(es[k]).Some?
      ensures TimeOf(es[j]).value <= TimeOf(es[k]).value
    {
    }
  }

  lemma ClockedLonger(es: seq<Event>, from: int, to: int, later: int)
    requires Clocked(es, from, to) && to <= later
    ensures Clocked(es, from, later)
  {
  }

  /** A freshly created proposal, open to votes. */
  ghost predicate Proposed(s: State, s': State, message: seq<byte>)
    requires s.ms.Some?
  {
    var m := s.ms.value;
    var i := m.transactionIndex + 1;
    && s'.ms == Some(m.(transactionIndex := i))
    && s'.open == s.open + {i}
    && i in s'.props && s'.props == s.props[i := s'.props[i]] && s'.props[i].message == message
    && Votable(s', i)
  }

  lemma Propose(env: Env, s: State, creator: Address, message: seq<byte>) returns (e: Event)
    requires Reachable(env, s) && Live(s) && HasPermission(s.ms.value.rules, creator, Initiate)
    requires s.ms.value.transactionIndex + 1 < U64_LIMIT
    requires |message| <= MAX_MESSAGE_SIZE && Decode(message).Some?
    ensures e.CreateEvent? && Proposed(s, Run(env, s, [e]), message)
  {
    hide Reachable, HasPermission, Decode, Inv, InitProposal, MultisigInv, ProposalInv;
    var instruction := [0, 0, 0, 0, 0, 0, 0, 0] + message;
    e := CreateEvent(Signer(creator, true), instruction, true, true);
    assert instruction[CREATE_HEADER_LEN..] == message;
    CreationAccepted(env, s, e);
    ReachableInv(env, s);
    OpenStep(env, s, e);
    var m := s.ms.value;
    assert MultisigInv(m) by {
      AccountInv(s);
    }
    CreateKeeps(m, s.self, creator, message, CreateHeader(instruction), true);
    StaleBelow(m);
    assert Run(env, s, [e]) == Step(env, s, e);
  }

  lemma AccountInv(s: State)
    requires Inv(s) && s.ms.Some?
    ensures MultisigInv(s.ms.value)
  {
  }

  lemma StaleBelow(m: Multisig)
    requires MultisigInv(m)
    ensures m.staleTransactionIndex <= m.transactionIndex
  {
  }

  /** The votes of everyone still to vote, which approve. */
  lemma ApproveFully(env: Env, s: State, i: nat, now: i64) returns (es: seq<Event>)
    requires Reachable(env, s) && Votable(s, i)
    ensures var s' := Run(env, s, es);
            OnlyMoves(s, s', i) && s'.props[i].status == Approved && s'.props[i].approvedAt == now
    ensures forall k :: 0 <= k < |es| ==> es[k].ApproveEvent? && es[k].now == now
  {
    hide Reachable, Inv, Run, Pending, Ballot, Cutoff, OnlyMoves, HasPermission;
    ReachableInv(env, s);
    NoLimbo(env, s, i, 0);
    VotesSound(env, s, i);
    var order := Listing(Pending(s.props[i], s.ms.value.rules));
    BallotPositions(s, i, order);
    ApprovalsLatch(env, s, i, order, now);
    es := Approvals(i, s.ms.value.rules.owners, order, now);
  }

  /** The state from which a voted action runs: its proposal approved, and nothing else changed. */
  ghost predicate Ready(s: State, s': State, message: seq<byte>, now: i64)
    requires s.ms.Some?
  {
    var m := s.ms.value;
    var i := m.transactionIndex + 1;
    && s'.ms == Some(m.(transactionIndex := i))
    && s'.open == s.open + {i}
    && i in s'.props && s'.props == s.props[i := s'.props[i]]
    && s'.props[i].message == message
    && s'.props[i].status == Approved && s'.props[i].approvedAt == now
  }

  /** Any message a permitted owner proposes can be approved by the voters, and by nobody's leave else. */
  lemma ProposeAndApprove(env: Env, s: State, creator: Address, message: seq<byte>, now: i64)
    returns (es: seq<Event>)
    requires Reachable(env, s) && Live(s) && HasPermission(s.ms.value.rules, creator, Initiate)
    requires s.ms.value.transactionIndex + 1 < U64_LIMIT
    requires |message| <= MAX_MESSAGE_SIZE && Decode(message).Some?
    ensures Ready(s, Run(env, s, es), message, now)
    ensures forall k :: 0 <= k < |es| ==> es[k].CreateEvent? || es[k].ApproveEvent?
    ensures Clocked(es, now, now)
  {
    hide Reachable, HasPermission, Decode, Run, Votable;
    var e := Propose(env, s, creator, message);
    var s1 := Run(env, s, [e]);
    ReachableOnward(env, s, [e]);
    var approvals := ApproveFully(env, s1, s.ms.value.transactionIndex + 1, now);
    RunAppend(env, s, [e], approvals);
    es := [e] + approvals;
  }

  /** The one account an action's message names first, and the system program after it. */
  function ActionCall(programId: Address, executor: Address, now: i64): Call {
    Call(Signer(executor, true), [], now, programId,
         [AccountInfo(programId, DEFAULT_ADDRESS, []), AccountInfo(SYSTEM_PROGRAM, DEFAULT_ADDRESS, [])], [true])
  }

  lemma ActionAccountsOk(programId: Address, data: seq<byte>, executor: Address, now: i64)
    ensures AccountsOk(ActionMessage(programId, data), ActionCall(programId, executor, now).views)
  {
    hide TableOk;
    var m, views := ActionMessage(programId, data), ActionCall(programId, executor, now).views;
    assert views[2..2] == [];
    assert Addresses(views[..2]) == Expected(m, []);
  }

  /** Running an action's message is applying the action. */
  lemma {:induction false} ActionRuns(m: Multisig, programId: Address, data: seq<byte>, executor: Address, now: i64)
    requires LayoutOk(m) && |data| <= MAX_ACTION_LEN
    requires ApplyConfigAction(Some(m), executor, data, true, true).Ok?
    ensures var blob, c := Encode(ActionMessage(programId, data)), ActionCall(programId, executor, now);
            && RunsThrough(m, blob, c)
            && RunFrom(c, Decode(blob).value.instructions, 0, Some(m))
               == ApplyConfigAction(Some(m), executor, data, true, true)
  {
    hide Decode, ApplyConfigAction, AccountsOk, Encode;
    ActionMessageParses(programId, data);
    ActionAccountsOk(programId, data, executor, now);
    var blob, c := Encode(ActionMessage(programId, data)), ActionCall(programId, executor, now);
    ProgramsInRange(blob, c.views);
    var ixs := Decode(blob).value.instructions;
    assert ixs == [Instruction(0, [], data)] && c.views[0].address == c.programId && RuntimeAccepts(c, 0);
    var after := ApplyConfigAction(Some(m), executor, data, true, true);
    assert RunFrom(c, ixs, 1, after.value) == after;
  }

  /**
   * A configuration action is delivered by the voters alone: from every reachable state with an
   * owner who may initiate, one who may execute and a free index, and for every action that would
   * succeed, there is a run of a creation, approvals and one execution after which the account is
   * exactly what the action makes of it.
   */
  lemma {:induction false} DeliverVoted(
    env: Env, s: State, creator: Address, executor: Address, data: seq<byte>, now: i64) returns (es: seq<Event>)
    requires Reachable(env, s) && Live(s) && now <= LATEST_START
    requires HasPermission(s.ms.value.rules, creator, Initiate) && HasPermission(s.ms.value.rules, executor, Execute)
    requires s.ms.value.transactionIndex + 1 < U64_LIMIT && |data| <= MAX_ACTION_LEN
    requires var m := s.ms.value.(transactionIndex := s.ms.value.transactionIndex + 1);
             ApplyConfigAction(Some(m), executor, data, true, true).Ok?
    ensures var i := s.ms.value.transactionIndex + 1;
            var m := s.ms.value.(transactionIndex := i);
            var s' := Run(env, s, es);
            && s'.ms == ApplyConfigAction(Some(m), executor, data, true, true).value
            && s'.open == s.open + {i} && i in s'.props && s'.props[i].status == Executed
            && s'.props == s.props[i := s'.props[i]]
    ensures forall k :: 0 <= k < |es| ==> es[k].CreateEvent? || es[k].ApproveEvent? || es[k].ExecuteEvent?
    ensures Clocked(es, now, now + s.ms.value.rules.timeLock)
  {
    hide Reachable, HasPermission, Decode, Encode, Run, ApplyConfigAction, ActionMessage, RunsThrough, ActionCall,
         Clocked;
    var blob := Encode(ActionMessage(env.programId, data));
    ActionMessageParses(env.programId, data);
    var ready := ProposeAndApprove(env, s, creator, blob, now);
    ReachableOnward(env, s, ready);
    var e := ExecuteAction(env, Run(env, s, ready), s.ms.value.transactionIndex + 1, executor, data);
    RunAppend(env, s, ready, [e]);
    OneClocked(e, now, now + s.ms.value.rules.timeLock);
    ClockedAppend(ready, [e], now, now, now + s.ms.value.rules.timeLock);
    es := ready + [e];
  }

  lemma OneClocked(e: Event, from: int, to: int)
    requires e.ExecuteEvent? && from <= e.call.now == to
    ensures Clocked([e], from, to)
  {
  }

  /** Executing an approved action, once any time lock has passed. */
  lemma {:induction false} ExecuteAction(env: Env, s: State, i: nat, executor: Address, data: seq<byte>)
    returns (e: Event)
    requires Reachable(env, s) && Live(s) && i in s.open && i in s.props && |data| <= MAX_ACTION_LEN
    requires s.props[i].status == Approved && s.props[i].approvedAt <= LATEST_START
    requires s.props[i].message == Encode(ActionMessage(env.programId, data))
    requires HasPermission(s.ms.value.rules, executor, Execute)
    requires ApplyConfigAction(s.ms, executor, data, true, true).Ok?
    ensures e.ExecuteEvent? && e.call.now == s.props[i].approvedAt + s.ms.value.rules.timeLock
    ensures var s' := Run(env, s, [e]);
            && s'.ms == ApplyConfigAction(s.ms, executor, data, true, true).value
            && s'.open == s.open && i in s'.props && s'.props[i].status == Executed
            && s'.props == s.props[i := s'.props[i]]
  {
    hide Reachable, HasPermission, Decode, Encode, ApplyConfigAction, ActionMessage, RunsThrough, RunFrom, Inv;
    var m := s.ms.value;
    ReachableInv(env, s);
    TimeLockSmall(s);
    var at: i64 := s.props[i].approvedAt + m.rules.timeLock;
    var c := ActionCall(env.programId, executor, at);
    e := ExecuteEvent(i, c);
    ActionRuns(m, env.programId, data, executor, at);
    ExecutionAccepted(env, s, e);
    ExecutionGuarded(env, s, e);
    assert Run(env, s, [e]) == Step(env, s, e);
  }

  lemma TimeLockSmall(s: State)
    requires Inv(s) && s.ms.Some?
    ensures s.ms.value.rules.timeLock <= MAX_TIME_LOCK
  {
  }

  lemma Incremented(m: Multisig)
    requires MultisigInv(m) && m.transactionIndex + 1 < U64_LIMIT
    ensures MultisigInv(m.(transactionIndex := m.transactionIndex + 1))
  {
  }

  /**
   * So a config authority does not decide alone: from every reachable state, controlled or not, with
   * an owner who may initiate, one who may execute and a free index, the owners have a run without
   * the authority after which the threshold is 1 and the authority is as it was.
   */
  lemma ThresholdChangedByVote(env: Env, s: State, creator: Address, executor: Address, now: i64)
    returns (es: seq<Event>)
    requires Reachable(env, s) && Live(s) && now <= LATEST_START
    requires HasPermission(s.ms.value.rules, creator, Initiate) && HasPermission(s.ms.value.rules, executor, Execute)
    requires s.ms.value.transactionIndex + 1 < U64_LIMIT
    ensures var s' := Run(env, s, es);
            && s'.ms.Some? && s'.ms.value.rules == s.ms.value.rules.(threshold := 1)
    ensures Clocked(es, now, now + s.ms.value.rules.timeLock)
    ensures forall k :: 0 <= k < |es| ==> !es[k].SetConfigEvent?
  {
    hide Reachable, HasPermission, Run, ApplyConfigAction, MultisigInv, Inv, Clocked;
    ReachableInv(env, s);
    AccountInv(s);
    Incremented(s.ms.value);
    ThresholdToOne(s.ms.value.(transactionIndex := s.ms.value.transactionIndex + 1), executor, true);
    es := DeliverVoted(env, s, creator, executor, [CHANGE_THRESHOLD, 1, 0, 0, 0], now);
  }

  /** Likewise the owners can take the authority away altogether. */
  lemma ControlReleasedByVote(env: Env, s: State, creator: Address, executor: Address, now: i64)
    returns (es: seq<Event>)
    requires Reachable(env, s) && Live(s) && now <= LATEST_START
    requires HasPermission(s.ms.value.rules, creator, Initiate) && HasPermission(s.ms.value.rules, executor, Execute)
    requires s.ms.value.transactionIndex + 1 < U64_LIMIT
    ensures var s' := Run(env, s, es);
            && s'.ms.Some? && !IsControlled(s'.ms.value.rules)
            && s'.ms.value.rules == s.ms.value.rules.(configAuthority := DEFAULT_ADDRESS)
    ensures Clocked(es, now, now + s.ms.value.rules.timeLock)
    ensures forall k :: 0 <= k < |es| ==> !es[k].SetConfigEvent?
  {
    hide Reachable, HasPermission, Run, ApplyConfigAction, MultisigInv, Inv, Clocked;
    ReachableInv(env, s);
    AccountInv(s);
    Incremented(s.ms.value);
    AuthorityTo(s.ms.value.(transactionIndex := s.ms.value.transactionIndex + 1), DEFAULT_ADDRESS, executor, true);
    es := DeliverVoted(env, s, creator, executor, [SET_CONFIG_AUTHORITY] + DEFAULT_ADDRESS, now);
  }
}
