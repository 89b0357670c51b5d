/** Proposals that can never be brought to an end, and exactly which those are. */
module Stranding {
  import opened Base
  import opened OwnerSet
  import opened MultisigSpec
  import opened MessageCodec
  import opened ProposalSpec
  import opened AccountResolution
  import opened ExecuteSpec
  import opened BufferSpec
  import opened Machine
  import opened Invariant
  import opened Safety
  import opened Governance
  import opened Continuation
  import opened Delivery
  import opened Finality

  // A message that parses and can never run

  /** Data that no configuration action accepts. */
  predicate Malformed(data: seq<byte>) {
    data == [] || data[0] > SET_CONFIG_AUTHORITY
  }

  /** The message parses, and one of its instructions can never succeed. */
  ghost predicate Doomed(programId: Address, blob: seq<byte>) {
    && Decode(blob).Some?
    && var m := Decode(blob).value;
       exists j :: 0 <= j < |m.instructions| && DoomedAt(programId, m, j)
  }

  /** It names more accounts than one call may, or is a malformed action of this program. */
  ghost predicate DoomedAt(programId: Address, m: Message, j: nat)
    requires j < |m.instructions|
  {
    var ix := m.instructions[j];
    || |ix.accounts| > MAX_CPI_ACCOUNTS
    || (ix.program < |m.keys| && m.keys[ix.program] == programId && Malformed(ix.data))
  }

  lemma MalformedFails(account: Option<Multisig>, payer: Address, data: seq<byte>, rentOk: bool)
    requires Malformed(data) && (account.Some? ==> LayoutOk(account.value))
    ensures ApplyConfigAction(account, payer, data, true, rentOk).Err?
  {
  }

  lemma {:induction false} DoomedRun(c: Call, ixs: seq<Instruction>, k: nat, j: nat, account: Option<Multisig>)
    requires k <= j < |ixs| && (account.Some? ==> LayoutOk(account.value))
    requires forall i :: 0 <= i < |ixs| ==> ixs[i].program < |c.views|
    requires || |ixs[j].accounts| > MAX_CPI_ACCOUNTS
             || (c.views[ixs[j].program].address == c.programId && Malformed(ixs[j].data))
    ensures RunFrom(c, ixs, k, account).Err?
    decreases j - k
  {
    hide ApplyConfigAction, Malformed, RuntimeAccepts;
    if k == j {
      if |ixs[j].accounts| <= MAX_CPI_ACCOUNTS {
        MalformedFails(account, c.executor.address, ixs[j].data, RuntimeAccepts(c, k));
      }
    } else if |ixs[k].accounts| <= MAX_CPI_ACCOUNTS {
      if c.views[ixs[k].program].address == c.programId {
        var applied := ApplyConfigAction(account, c.executor.address, ixs[k].data, true, RuntimeAccepts(c, k));
        if applied.Ok? {
          DoomedRun(c, ixs, k + 1, j, applied.value);
        }
      } else {
        DoomedRun(c, ixs, k + 1, j, account);
      }
    }
  }

  /** With the message's own accounts its keys are the addresses passed, so it never runs through. */
  lemma {:induction false} DoomedNeverRuns(m: Multisig, blob: seq<byte>, c: Call)
    requires LayoutOk(m) && Doomed(c.programId, blob)
    ensures !RunsThrough(m, blob, c)
  {
    hide Decode, RunFrom, TableOk, Flat, Malformed;
    var message := Decode(blob).value;
    if AccountsOk(message, c.views) {
      ProgramsInRange(blob, c.views);
      var j: nat :| j < |message.instructions| && DoomedAt(c.programId, message, j);
      var at := message.instructions[j].program;
      assert at < |message.keys| ==> Addresses(c.views[..NumAllKeys(message)])[at] == message.keys[at];
      DoomedRun(c, message.instructions, 0, j, Some(m));
    }
  }

  /** The client's message for an action without data is one: it passes every check of creation. */
  lemma DoomedExample(programId: Address)
    ensures Doomed(programId, Encode(ActionMessage(programId, [])))
  {
    hide Decode, Encode;
    ActionMessageParses(programId, []);
    assert DoomedAt(programId, ActionMessage(programId, []), 0);
  }

  /** So is one that passes more accounts than a call may name: creation accepts it all the same. */
  function OversizedMessage(target: Address): Message {
    Message(0, 0, 0, [target], [Instruction(0, seq(MAX_CPI_ACCOUNTS + 1, k => 0), [])], [])
  }

  lemma OversizedExample(programId: Address, target: Address)
    ensures var blob := Encode(OversizedMessage(target));
            Doomed(programId, blob) && |blob| <= MAX_MESSAGE_SIZE
  {
    hide Decode;
    var m := OversizedMessage(target);
    RoundTrip(m);
    assert EncodeKeys(m.keys) == m.keys[0] + EncodeKeys([]);
    assert EncodeInstructions(m.instructions) == EncodeInstruction(m.instructions[0]) + EncodeInstructions([]);
    assert DoomedAt(programId, m, 0);
  }

  /** Only its own execution moves a stale proposal. */
  lemma StaleMovesByExecution(env: Env, s: State, e: Event, i: nat)
    requires Inv(s) && Stale(s, i) && i in s.props
    requires i in Step(env, s, e).props && Step(env, s, e).props[i] != s.props[i]
    ensures e.ExecuteEvent? && e.index == i && Apply(env, s, e).Ok?
  {
    hide MultisigInv, EntryOk, ExecuteProposal, SetConfig, Promote, CreateTransaction,
         Approve, Reject, Cancel, CreateBuffer, ExtendBuffer, CloseBuffer, CheckHeader;
    if Apply(env, s, e).Ok? {
      if e.CreateEvent? || e.PromoteEvent? {
        OpenStep(env, s, e);
      } else if e.ApproveEvent? || e.RejectEvent? || e.CancelEvent? {
        VoteStep(env, s, e);
      }
    }
  }

  /** Approved, stale, open, and carrying a message that cannot run. */
  ghost predicate Stranded(env: Env, s: State, i: nat) {
    && s.ms.Some? && i in s.open && i in s.props && Stale(s, i)
    && s.props[i].status == Approved && Doomed(env.programId, s.props[i].message)
  }

  lemma StrandedNotExecuted(env: Env, s: State, e: Event, i: nat)
    requires Reachable(env, s) && Stranded(env, s, i) && e.ExecuteEvent? && e.index == i
    ensures Apply(env, s, e).Err?
  {
    hide Reachable, RunsThrough, Doomed, MayExecute;
    ExecutionAccepted(env, s, e);
    if Apply(env, s, e).Ok? {
      DoomedNeverRuns(s.ms.value, s.props[i].message, e.call.(programId := env.programId));
    }
  }

  lemma StrandedStep(env: Env, s: State, e: Event, i: nat)
    requires Reachable(env, s) && Stranded(env, s, i)
    ensures var s' := Step(env, s, e); Stranded(env, s', i) && s'.props[i] == s.props[i]
  {
    hide Reachable, Step, Inv, Stale, Next, Doomed, Terminal;
    ReachableInv(env, s);
    ApprovedNotTerminal(s.props[i]);
    if e.ExecuteEvent? && e.index == i {
      StrandedNotExecuted(env, s, e, i);
      RefusedChangesNothing(env, s, e);
    } else {
      ProposalStep(env, s, e, i);
      StaleStep(env, s, e, i);
      if Step(env, s, e).props[i] != s.props[i] {
        StaleMovesByExecution(env, s, e, i);
        assert false;
      }
      if i !in Step(env, s, e).open {
        ClosingEnded(env, s, e, i);
        assert false;
      }
      MultisigClosedLast(env, s, e);
    }
  }

  lemma RefusedChangesNothing(env: Env, s: State, e: Event)
    requires Apply(env, s, e).Err?
    ensures Step(env, s, e) == s
  {
  }

  /**
   * A stale Approved proposal whose message cannot run stays as it is in every continuation, whatever
   * the runtime decides, and with it the multisig: neither can ever be closed.
   */
  lemma {:induction false} StrandedForever(env: Env, s: State, es: seq<Event>, i: nat)
    requires Reachable(env, s) && Stranded(env, s, i)
    ensures var s' := Run(env, s, es); Stranded(env, s', i) && s'.props[i] == s.props[i]
    decreases |es|
  {
    hide Reachable, Step, Stranded;
    if es != [] {
      StrandedStep(env, s, es[0], i);
      assert Run(env, s, [es[0]]) == Step(env, s, es[0]);
      ReachableOnward(env, s, [es[0]]);
      StrandedForever(env, Step(env, s, es[0]), es[1..], i);
    }
  }

  /** The config authority may apply any action that succeeds. */
  lemma {:induction false} AuthorityActs(env: Env, s: State, data: seq<byte>) returns (e: Event)
    requires Reachable(env, s) && s.ms.Some? && LayoutOk(s.ms.value) && IsControlled(s.ms.value.rules)
    requires ApplyConfigAction(s.ms, s.ms.value.rules.configAuthority, data, false, true).Ok?
    ensures var s' := Run(env, s, [e]);
            && s'.ms == ApplyConfigAction(s.ms, s.ms.value.rules.configAuthority, data, false, true).value
            && s'.open == s.open && s'.props == s.props && s'.snaps == s.snaps
  {
    hide Reachable, ApplyConfigAction;
    e := SetConfigEvent(Signer(s.ms.value.rules.configAuthority, true), data, true);
    assert Run(env, s, [e]) == Step(env, s, e);
  }

  /**
   * And it can happen: from every reachable state with an owner who may initiate and a free index,
   * if there is an authority, or an owner who may execute and one more index, a run leads to such a
   * proposal, after which no continuation closes the multisig.
   */
  lemma {:induction false} MessageStrands(env: Env, s: State, creator: Address, executor: Address, now: i64)
    returns (es: seq<Event>)
    requires Reachable(env, s) && Live(s) && now <= LATEST_START
    requires HasPermission(s.ms.value.rules, creator, Initiate) && s.ms.value.transactionIndex + 1 < U64_LIMIT
    requires || IsControlled(s.ms.value.rules)
             || (HasPermission(s.ms.value.rules, executor, Execute) && s.ms.value.transactionIndex + 2 < U64_LIMIT)
    ensures var s' := Run(env, s, es);
            && Stranded(env, s', s.ms.value.transactionIndex + 1)
            && forall more :: Run(env, s', more).ms.Some?
  {
    hide Reachable, HasPermission, Decode, Encode, Run, Inv, Doomed, ActionMessage, ApplyConfigAction, MultisigInv,
         Clocked;
    var i := s.ms.value.transactionIndex + 1;
    ActionMessageParses(env.programId, []);
    DoomedExample(env.programId);
    var ready := ProposeAndApprove(env, s, creator, Encode(ActionMessage(env.programId, [])), now);
    var s1 := Run(env, s, ready);
    ReachableOnward(env, s, ready);
    ReachableInv(env, s1);
    AccountInv(s1);
    var stale: seq<Event>;
    if IsControlled(s.ms.value.rules) {
      TimeLockToZero(s1.ms.value, s1.ms.value.rules.configAuthority, false);
      var e := AuthorityActs(env, s1, [CHANGE_TIME_LOCK, 0, 0, 0, 0]);
      stale := [e];
    } else {
      Incremented(s1.ms.value);
      TimeLockToZero(s1.ms.value.(transactionIndex := i + 1), executor, true);
      stale := DeliverVoted(env, s1, creator, executor, [CHANGE_TIME_LOCK, 0, 0, 0, 0], now);
    }
    ReachableOnward(env, s1, stale);
    RunAppend(env, s, ready, stale);
    es := ready + stale;
    forall more ensures Run(env, Run(env, s, es), more).ms.Some? {
      StrandedForever(env, Run(env, s, es), more, i);
    }
  }

  // Accounts that an execution can always be given

  const TABLE_CAPACITY := 256

  /** A lookup table that was never deactivated and holds `filler` at every index. */
  function FilledTable(key: Address, filler: Address): AccountInfo {
    AccountInfo(key, ADDRESS_LOOKUP_TABLE_ID,
                seq(LOOKUP_TABLE_META_SIZE + 32 * TABLE_CAPACITY, k requires 0 <= k =>
                  if 4 <= k < 12 then 255
                  else if k < LOOKUP_TABLE_META_SIZE then 0
                  else filler[(k - LOOKUP_TABLE_META_SIZE) % 32]))
  }

  lemma FilledTableOk(l: Lookup, filler: Address)
    ensures TableOk(l, FilledTable(l.key, filler))
    ensures forall k: nat :: k < TABLE_CAPACITY ==> Entry(FilledTable(l.key, filler), k) == filler
  {
    var t := FilledTable(l.key, filler);
    assert t.data[4..12] == [255, 255, 255, 255, 255, 255, 255, 255];
    forall k: nat | k < TABLE_CAPACITY ensures Entry(t, k) == filler {
      var at := LOOKUP_TABLE_META_SIZE + 32 * k;
      assert forall j :: 0 <= j < 32 ==> t.data[at..at + 32][j] == filler[j];
    }
  }

  lemma {:induction false} FlatFilled(parts: seq<seq<Address>>, filler: Address)
    requires forall i, j :: 0 <= i < |parts| && 0 <= j < |parts[i]| ==> parts[i][j] == filler
    ensures forall k :: 0 <= k < |Flat(parts)| ==> Flat(parts)[k] == filler
  {
    if parts != [] {
      FlatFilled(parts[..|parts| - 1], filler);
    }
  }

  ghost function FilledTables(ls: seq<Lookup>, filler: Address): seq<AccountInfo> {
    seq(|ls|, i requires 0 <= i < |ls| => FilledTable(ls[i].key, filler))
  }

  /** The message's own keys, then the filler for every looked-up key, then such tables. */
  ghost function FilledViews(m: Message, filler: Address): seq<AccountInfo> {
    var expected := Expected(m, FilledTables(m.lookups, filler));
    seq(|expected|, k requires 0 <= k < |expected| => AccountInfo(expected[k], DEFAULT_ADDRESS, []))
    + FilledTables(m.lookups, filler)
  }

  lemma FilledViewsOk(m: Message, filler: Address)
    ensures AccountsOk(m, FilledViews(m, filler))
    ensures forall k :: 0 <= k < NumAllKeys(m) ==>
              FilledViews(m, filler)[k].address == if k < |m.keys| then m.keys[k] else filler
  {
    hide Flat, FilledTable, TableOk, Entry;
    var ls := m.lookups;
    var tables, views, n := FilledTables(ls, filler), FilledViews(m, filler), NumAllKeys(m);
    ResolvedSize(m, tables);
    forall i | 0 <= i < |ls| ensures TableOk(ls[i], tables[i]) {
      FilledTableOk(ls[i], filler);
    }
    PartsFilled(ls, filler);
    FlatFilled(WritableParts(ls, tables), filler);
    FlatFilled(ReadonlyParts(ls, tables), filler);
    assert views[n..n + |ls|] == tables;
    assert Addresses(views[..n]) == Expected(m, tables);
  }

  lemma PartsFilled(ls: seq<Lookup>, filler: Address)
    ensures var tables := FilledTables(ls, filler);
            var writable, readonly := WritableParts(ls, tables), ReadonlyParts(ls, tables);
            && (forall i, j :: 0 <= i < |writable| && 0 <= j < |writable[i]| ==> writable[i][j] == filler)
            && (forall i, j :: 0 <= i < |readonly| && 0 <= j < |readonly[i]| ==> readonly[i][j] == filler)
  {
    hide Entry, FilledTable, TableOk;
    forall i | 0 <= i < |ls|
      ensures forall k: nat :: k < TABLE_CAPACITY ==> Entry(FilledTable(ls[i].key, filler), k) == filler
    {
      FilledTableOk(ls[i], filler);
    }
  }

  /** An address that is not this program's. */
  function Elsewhere(programId: Address): (a: Address)
    ensures a != programId
  {
    assert ADDRESS_LOOKUP_TABLE_ID[0] != DEFAULT_ADDRESS[0];
    if programId == DEFAULT_ADDRESS then ADDRESS_LOOKUP_TABLE_ID else DEFAULT_ADDRESS
  }

  /** No instruction names this program among the message's own keys. */
  ghost predicate NamesOthers(programId: Address, m: Message) {
    forall j :: 0 <= j < |m.instructions| && m.instructions[j].program < |m.keys| ==>
                  m.keys[m.instructions[j].program] != programId
  }

  ghost predicate CallsFit(m: Message) {
    forall j :: 0 <= j < |m.instructions| ==> |m.instructions[j].accounts| <= MAX_CPI_ACCOUNTS
  }

  /** The call that gives such a message the accounts it asks for, and that the runtime accepts throughout. */
  ghost function WillingCall(programId: Address, executor: Address, m: Message, now: i64): Call {
    Call(Signer(executor, true), [], now, programId, FilledViews(m, Elsewhere(programId)),
         seq(|m.instructions|, k => true))
  }

  lemma {:induction false} WillingCallRuns(
    m: Multisig, blob: seq<byte>, programId: Address, executor: Address, now: i64)
    requires LayoutOk(m) && Decode(blob).Some?
    requires NamesOthers(programId, Decode(blob).value) && CallsFit(Decode(blob).value)
    ensures var c := WillingCall(programId, executor, Decode(blob).value, now);
            && RunsThrough(m, blob, c)
            && RunFrom(c, Decode(blob).value.instructions, 0, Some(m)) == Ok(Some(m))
  {
    hide Decode, AccountsOk, RunFrom, FilledViews, RunsThrough, ExternalFrom, CallsAccepted;
    var message := Decode(blob).value;
    var c := WillingCall(programId, executor, message, now);
    FilledViewsOk(message, Elsewhere(programId));
    ProgramsInRange(blob, c.views);
    ExternalMessageRuns(m, blob, c);
    WillingCallExternal(blob, message, c, programId);
    WillingCallAccepted(message, c);
    RunsMeansRuns(m, blob, c);
  }

  lemma WillingCallAccepted(m: Message, c: Call)
    requires CallsFit(m) && c.runtimeOk == seq(|m.instructions|, k => true)
    ensures CallsAccepted(c, m.instructions, 0)
  {
  }

  lemma {:induction false} WillingCallExternal(blob: seq<byte>, m: Message, c: Call, programId: Address)
    requires Decode(blob) == Some(m) && c.programId == programId
    requires c.views == FilledViews(m, Elsewhere(programId)) && NamesOthers(programId, m)
    requires forall i :: 0 <= i < |m.instructions| ==> m.instructions[i].program < |c.views|
    ensures ExternalFrom(c, m.instructions, 0)
  {
    hide Decode, AccountsOk, FilledViews;
    Canonical(blob);
    FilledViewsOk(m, Elsewhere(programId));
    forall i | 0 <= i < |m.instructions| ensures c.views[m.instructions[i].program].address != programId {
      assert IndexesInRange(m.instructions[i], NumAllKeys(m));
    }
  }

  lemma {:induction false} RunsMeansRuns(m: Multisig, blob: seq<byte>, c: Call)
    requires LayoutOk(m) && RunsThrough(m, blob, c)
    ensures forall i :: 0 <= i < |Decode(blob).value.instructions| ==>
              Decode(blob).value.instructions[i].program < |c.views|
    ensures RunFrom(c, Decode(blob).value.instructions, 0, Some(m)).Ok?
  {
    hide Decode, AccountsOk, RunFrom;
    ProgramsInRange(blob, c.views);
  }

  /** An execution that leaves the account alone. */
  lemma {:induction false} ExecuteExternal(env: Env, s: State, i: nat, executor: Address) returns (e: Event)
    requires Reachable(env, s) && Live(s) && i in s.open && i in s.props
    requires s.props[i].status == Approved && s.props[i].approvedAt <= LATEST_START
    requires HasPermission(s.ms.value.rules, executor, Execute)
    requires Decode(s.props[i].message).Some?
    requires var m := Decode(s.props[i].message).value; NamesOthers(env.programId, m) && CallsFit(m)
    ensures var s' := Run(env, s, [e]); ExecutedAlive(s', i) && s'.ms == s.ms && s'.open == s.open
  {
    hide Reachable, HasPermission, Decode, RunsThrough, RunFrom, Inv, WillingCall, NamesOthers, CallsFit;
    var m, p := s.ms.value, s.props[i];
    ReachableInv(env, s);
    TimeLockSmall(s);
    var at: i64 := p.approvedAt + m.rules.timeLock;
    var c := WillingCall(env.programId, executor, Decode(p.message).value, at);
    WillingCallRuns(m, p.message, env.programId, executor, at);
    WillingCallOf(env.programId, executor, Decode(p.message).value, at);
    e := ExecuteEvent(i, c);
    ExecutionAccepted(env, s, e);
    assert Run(env, s, [e]) == Step(env, s, e);
  }

  lemma WillingCallOf(programId: Address, executor: Address, m: Message, now: i64)
    ensures var c := WillingCall(programId, executor, m, now);
            && c.programId == programId && c.executor == Signer(executor, true)
            && c.instruction == [] && c.now == now && c.(programId := programId) == c
  {
  }

  lemma OversizedDooms(programId: Address, blob: seq<byte>)
    requires Decode(blob).Some? && !CallsFit(Decode(blob).value)
    ensures Doomed(programId, blob)
  {
    hide Decode;
    var m := Decode(blob).value;
    var j :| 0 <= j < |m.instructions| && |m.instructions[j].accounts| > MAX_CPI_ACCOUNTS;
    assert DoomedAt(programId, m, j);
  }

  /**
   * A stale Approved proposal whose message is for other programs can still be closed if and only if
   * every call in it is small enough, given an owner who may execute and a clock not at its end. Its
   * lookups do not matter, nor does anything its voters do.
   */
  lemma {:induction false} StaleApprovedClosesIff(env: Env, s: State, i: nat, executor: Address)
    requires Reachable(env, s) && Live(s) && i in s.open && i in s.props && Stale(s, i)
    requires s.props[i].status == Approved && s.props[i].approvedAt <= LATEST_START
    requires HasPermission(s.ms.value.rules, executor, Execute)
    ensures Decode(s.props[i].message).Some?
    ensures NamesOthers(env.programId, Decode(s.props[i].message).value) ==>
              ((exists es :: i !in Run(env, s, es).open) <==> CallsFit(Decode(s.props[i].message).value))
  {
    hide Reachable, HasPermission, Decode, Run, Inv, NamesOthers, CallsFit, Doomed, Stale, Terminal;
    StoredMessageParses(env, s, i);
    var message := Decode(s.props[i].message).value;
    if NamesOthers(env.programId, message) {
      if CallsFit(message) {
        var e := ExecuteExternal(env, s, i, executor);
        var s1 := Run(env, s, [e]);
        ReachableOnward(env, s, [e]);
        ExecutedTerminal(s1.props[i]);
        var close := EndedCloses(env, s1, i);
        RunAppend(env, s, [e], [close]);
        assert i !in Run(env, s, [e] + [close]).open;
      } else {
        OversizedDooms(env.programId, s.props[i].message);
        forall es ensures i in Run(env, s, es).open {
          StrandedForever(env, s, es, i);
        }
      }
    }
  }
}
