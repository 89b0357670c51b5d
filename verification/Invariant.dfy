/** The inductive invariant of the whole protocol, and its preservation by every instruction. */
module Invariant {
  import opened Base
  import opened OwnerSet
  import opened MultisigSpec
  import opened InitSpec
  import opened MessageCodec
  import opened ProposalSpec
  import opened AccountResolution
  import opened ExecuteSpec
  import opened BufferSpec
  import opened ProposalLaws
  import opened Machine

  // What the history must show for one proposal

  /** Cancelled by its creator alone, which leaves no bits. */
  predicate Withdrawn(p: Proposal) {
    p.status == Cancelled && p.cancelled == {}
  }

  /** The bits are exactly those of the owners, at creation, who signed a successful vote. */
  ghost predicate Evidence(i: nat, p: Proposal, t: Rules, log: seq<Event>) {
    && (forall k: nat :: k < |t.owners| ==> (k in p.approved <==> ApprovedBy(log, i, t.owners[k])))
    && (forall k: nat :: k < |t.owners| ==> (k in p.rejected <==> RejectedBy(log, i, t.owners[k])))
    && (!Withdrawn(p) ==>
          forall k: nat :: k < |t.owners| ==> (k in p.cancelled <==> CancelledBy(log, i, t.owners[k])))
    && (|p.approved| == t.threshold ==> StampedAt(log, i, p.approvedAt))
  }

  /** How many successful steps brought the proposal to where it is. */
  ghost function StepsTaken(p: Proposal, isOpen: bool): nat {
    |p.approved| + |p.rejected| + |p.cancelled|
    + (if p.status == Executed then 1 else 0)
    + (if Withdrawn(p) then 1 else 0)
    + (if isOpen then 0 else 1)
  }

  ghost predicate EntryOk(self: Address, i: nat, p: Proposal, t: Rules, isOpen: bool, log: seq<Event>) {
    && ProposalInv(self, i, p, t)
    && (!isOpen ==> Terminal(p.status))
    && Evidence(i, p, t, log)
    && Steps(log, i) == StepsTaken(p, isOpen)
    && Executions(log, i) == if p.status == Executed then 1 else 0
  }

  ghost predicate IndexOk(s: State, i: nat) {
    if i in s.props then
      i in s.snaps && EntryOk(s.self, i, s.props[i], s.snaps[i], i in s.open, s.log)
    else
      i !in s.snaps && i !in s.open && Steps(s.log, i) == 0 == Executions(s.log, i)
  }

  // What ties the multisig account to its proposals

  ghost predicate Numbered(s: State, m: Multisig) {
    forall i: nat :: i in s.props <==> 1 <= i <= m.transactionIndex
  }

  ghost predicate Conserved(s: State, m: Multisig) {
    m.closedTransactionCount + |s.open| == m.transactionIndex
  }

  /** A proposal that is not stale was created under the rules in force now. */
  ghost predicate SnapshotsHold(s: State, m: Multisig) {
    forall i :: i in s.snaps && i > m.staleTransactionIndex ==> s.snaps[i] == m.rules
  }

  ghost predicate AccountOk(s: State) {
    s.ms.Some? ==>
      && MultisigInv(s.ms.value)
      && Numbered(s, s.ms.value) && Conserved(s, s.ms.value) && SnapshotsHold(s, s.ms.value)
  }

  ghost predicate Inv(s: State) {
    AccountOk(s) && forall i: nat :: IndexOk(s, i)
  }

  // The history only grows

  lemma LogGrows(log: seq<Event>, e: Event, i: nat)
    ensures Steps(log + [e], i) == Steps(log, i) + if Touches(e, i) then 1 else 0
    ensures Executions(log + [e], i)
         == Executions(log, i) + if e.ExecuteEvent? && e.index == i then 1 else 0
  {
    assert (log + [e])[..|log + [e]| - 1] == log;
  }

  lemma ApprovedStill(log: seq<Event>, e: Event, i: nat, who: Address)
    ensures ApprovedBy(log + [e], i, who)
        <==> ApprovedBy(log, i, who) || (e.ApproveEvent? && e.index == i && e.owner == Signer(who, true))
  {
    assert (log + [e])[|log|] == e;
    if j :| 0 <= j < |log| && log[j].ApproveEvent? && log[j].index == i && log[j].owner == Signer(who, true) {
      assert (log + [e])[j] == log[j];
    }
  }

  lemma RejectedStill(log: seq<Event>, e: Event, i: nat, who: Address)
    ensures RejectedBy(log + [e], i, who)
        <==> RejectedBy(log, i, who) || (e.RejectEvent? && e.index == i && e.owner == Signer(who, true))
  {
    assert (log + [e])[|log|] == e;
    if j :| 0 <= j < |log| && log[j].RejectEvent? && log[j].index == i && log[j].owner == Signer(who, true) {
      assert (log + [e])[j] == log[j];
    }
  }

  lemma CancelledStill(log: seq<Event>, e: Event, i: nat, who: Address)
    ensures CancelledBy(log + [e], i, who)
        <==> CancelledBy(log, i, who) || (e.CancelEvent? && e.index == i && e.owner == Signer(who, true))
  {
    assert (log + [e])[|log|] == e;
    if j :| 0 <= j < |log| && log[j].CancelEvent? && log[j].index == i && log[j].owner == Signer(who, true) {
      assert (log + [e])[j] == log[j];
    }
  }

  lemma StampedStill(log: seq<Event>, e: Event, i: nat, t: i64)
    ensures StampedAt(log, i, t) && !(e.ApproveEvent? && e.index == i) ==> StampedAt(log + [e], i, t)
    ensures e.ApproveEvent? && e.index == i && e.now == t ==> StampedAt(log + [e], i, t)
  {
    var longer := log + [e];
    assert longer[|log|] == e;
    if StampedAt(log, i, t) && !(e.ApproveEvent? && e.index == i) {
      var j :| && 0 <= j < |log| && log[j].ApproveEvent? && log[j].index == i && log[j].now == t
               && forall k :: j < k < |log| && log[k].ApproveEvent? ==> log[k].index != i;
      assert longer[j] == log[j];
      assert forall k :: j < k < |log| ==> longer[k] == log[k];
    }
  }

  lemma {:induction false} QuietMeansUnsigned(log: seq<Event>, i: nat, who: Address)
    requires Steps(log, i) == 0
    ensures !ApprovedBy(log, i, who) && !RejectedBy(log, i, who) && !CancelledBy(log, i, who)
  {
    if log != [] {
      var before, e := log[..|log| - 1], log[|log| - 1];
      assert before + [e] == log;
      QuietMeansUnsigned(before, i, who);
      ApprovedStill(before, e, i, who);
      RejectedStill(before, e, i, who);
      CancelledStill(before, e, i, who);
    }
  }

  /** Evidence once given is kept, and a step adds the evidence of its own mark. */
  lemma EvidenceGrows(i: nat, p: Proposal, q: Proposal, t: Rules, log: seq<Event>, e: Event)
    requires Evidence(i, p, t, log)
    requires forall k: nat :: k < |t.owners| ==>
               (k in q.approved <==>
                  k in p.approved || (e.ApproveEvent? && e.index == i && e.owner == Signer(t.owners[k], true)))
    requires forall k: nat :: k < |t.owners| ==>
               (k in q.rejected <==>
                  k in p.rejected || (e.RejectEvent? && e.index == i && e.owner == Signer(t.owners[k], true)))
    requires !Withdrawn(q) ==> !Withdrawn(p)
    requires !Withdrawn(q) ==> forall k: nat :: k < |t.owners| ==>
               (k in q.cancelled <==>
                  k in p.cancelled || (e.CancelEvent? && e.index == i && e.owner == Signer(t.owners[k], true)))
    requires |q.approved| == t.threshold ==>
               || (|p.approved| == t.threshold && q.approvedAt == p.approvedAt
                   && !(e.ApproveEvent? && e.index == i))
               || (e.ApproveEvent? && e.index == i && e.now == q.approvedAt)
    ensures Evidence(i, q, t, log + [e])
  {
    hide ApprovedBy, RejectedBy, CancelledBy, StampedAt, MaskCanVote;
    forall k: nat | k < |t.owners| ensures k in q.approved <==> ApprovedBy(log + [e], i, t.owners[k]) {
      ApprovedStill(log, e, i, t.owners[k]);
    }
    forall k: nat | k < |t.owners| ensures k in q.rejected <==> RejectedBy(log + [e], i, t.owners[k]) {
      RejectedStill(log, e, i, t.owners[k]);
    }
    forall k: nat | k < |t.owners| && !Withdrawn(q)
      ensures k in q.cancelled <==> CancelledBy(log + [e], i, t.owners[k])
    {
      CancelledStill(log, e, i, t.owners[k]);
    }
    StampedStill(log, e, i, q.approvedAt);
  }

  /** An event about something else leaves an entry in order. */
  lemma EntryFrame(self: Address, i: nat, p: Proposal, t: Rules, isOpen: bool, log: seq<Event>, e: Event)
    requires EntryOk(self, i, p, t, isOpen, log) && !Touches(e, i)
    ensures EntryOk(self, i, p, t, isOpen, log + [e])
  {
    hide Evidence, PhaseOk, ContentsOk;
    EvidenceGrows(i, p, p, t, log, e);
    LogGrows(log, e, i);
  }

  lemma IndexFrame(s: State, s': State, i: nat, e: Event)
    requires IndexOk(s, i) && !Touches(e, i)
    requires s'.self == s.self && s'.log == s.log + [e]
    requires i in s'.props <==> i in s.props
    requires i in s'.snaps <==> i in s.snaps
    requires i in s'.open <==> i in s.open
    requires i in s.props && i in s.snaps ==> s'.props[i] == s.props[i] && s'.snaps[i] == s.snaps[i]
    ensures IndexOk(s', i)
  {
    hide EntryOk;
    LogGrows(s.log, e, i);
    if i in s.props {
      EntryFrame(s.self, i, s.props[i], s.snaps[i], i in s.open, s.log, e);
    }
  }

  // What each handler does to its own entry

  lemma OnlyPosition(owners: seq<Address>, k: nat)
    requires Ascending(owners) && k < |owners|
    ensures forall j: nat :: j < |owners| && owners[j] == owners[k] ==> j == k
  {
    LessIrreflexive(owners[k]);
  }

  lemma ApproveEntry(m: Multisig, self: Address, i: nat, p: Proposal, t: Rules, log: seq<Event>, e: Event)
    requires e.ApproveEvent? && e.index == i
    requires MultisigInv(m) && EntryOk(self, i, p, t, true, log)
    requires i > m.staleTransactionIndex ==> t == m.rules
    ensures var out := Approve(m, self, p, e.owner, e.instruction, e.now);
            out.Ok? ==> EntryOk(self, i, out.value, t, true, log + [e])
  {
    hide Approve, Ascending, Voters, ContentsOk, HasPermission, AsCreated, Evidence, CountVoters;
    ApproveExact(m, self, i, p, t, e.owner, e.instruction, e.now);
    var out := Approve(m, self, p, e.owner, e.instruction, e.now);
    if out.Ok? {
      var k := PositionOf(m.rules.owners, e.owner.address);
      WithMember(p.approved, k);
      OnlyPosition(t.owners, k);
      LogGrows(log, e, i);
      EvidenceGrows(i, p, out.value, t, log, e);
    }
  }

  lemma RejectEntry(m: Multisig, self: Address, i: nat, p: Proposal, t: Rules, log: seq<Event>, e: Event)
    requires e.RejectEvent? && e.index == i
    requires MultisigInv(m) && EntryOk(self, i, p, t, true, log)
    requires i > m.staleTransactionIndex ==> t == m.rules
    ensures var out := Reject(m, self, p, e.owner, e.instruction);
            out.Ok? ==> EntryOk(self, i, out.value, t, true, log + [e])
  {
    hide Reject, Ascending, Voters, ContentsOk, HasPermission, AsCreated, Evidence, CountVoters;
    RejectExact(m, self, i, p, t, e.owner, e.instruction);
    var out := Reject(m, self, p, e.owner, e.instruction);
    if out.Ok? {
      var k := PositionOf(m.rules.owners, e.owner.address);
      WithMember(p.rejected, k);
      OnlyPosition(t.owners, k);
      LogGrows(log, e, i);
      EvidenceGrows(i, p, out.value, t, log, e);
    }
  }

  lemma CancelEntry(m: Multisig, self: Address, i: nat, p: Proposal, t: Rules, log: seq<Event>, e: Event)
    requires e.CancelEvent? && e.index == i
    requires MultisigInv(m) && EntryOk(self, i, p, t, true, log)
    requires i > m.staleTransactionIndex ==> t == m.rules
    ensures var out := Cancel(m, self, p, e.owner, e.instruction);
            out.Ok? ==> EntryOk(self, i, out.value, t, true, log + [e])
  {
    hide Cancel, Ascending, Voters, ContentsOk, HasPermission, AsCreated, Evidence, CountVoters;
    CancelExact(m, self, i, p, t, e.owner, e.instruction);
    var out := Cancel(m, self, p, e.owner, e.instruction);
    if out.Ok? {
      if p.status == Approved {
        var k := PositionOf(m.rules.owners, e.owner.address);
        WithMember(p.cancelled, k);
        OnlyPosition(t.owners, k);
      }
      LogGrows(log, e, i);
      EvidenceGrows(i, p, out.value, t, log, e);
    }
  }

  lemma ExecuteEntry(m: Multisig, self: Address, i: nat, p: Proposal, t: Rules, log: seq<Event>, e: Event, c: Call)
    requires e.ExecuteEvent? && e.index == i
    requires MultisigInv(m) && EntryOk(self, i, p, t, true, log)
    ensures var out := ExecuteProposal(m, self, p, c);
            out.Ok? ==> EntryOk(self, i, out.value.1, t, true, log + [e])
  {
    hide ExecuteProposal, Ascending, Voters, ContentsOk, HasPermission;
    ExecuteKeeps(m, self, i, p, t, c);
    var out := ExecuteProposal(m, self, p, c);
    if out.Ok? {
      LogGrows(log, e, i);
      EvidenceGrows(i, p, out.value.1, t, log, e);
    }
  }

  lemma CloseEntry(self: Address, i: nat, p: Proposal, t: Rules, log: seq<Event>, e: Event)
    requires e.CloseEvent? && e.index == i
    requires EntryOk(self, i, p, t, true, log) && Terminal(p.status)
    ensures EntryOk(self, i, p, t, false, log + [e])
  {
    hide Ascending, Voters, ContentsOk;
    LogGrows(log, e, i);
    EvidenceGrows(i, p, p, t, log, e);
  }

  lemma CreateEntry(self: Address, i: nat, p: Proposal, t: Rules, log: seq<Event>, e: Event)
    requires ProposalInv(self, i, p, t) && p.status == Active
    requires p.approved == p.rejected == p.cancelled == {}
    requires !Touches(e, i) && Steps(log, i) == 0 == Executions(log, i)
    ensures EntryOk(self, i, p, t, true, log + [e])
  {
    hide Ascending, Voters, ContentsOk, CountVoters, ApprovedBy, RejectedBy, CancelledBy, StampedAt, Steps, Executions;
    LogGrows(log, e, i);
    forall k: nat | k < |t.owners|
      ensures && !ApprovedBy(log + [e], i, t.owners[k]) && !RejectedBy(log + [e], i, t.owners[k])
              && !CancelledBy(log + [e], i, t.owners[k])
    {
      QuietMeansUnsigned(log + [e], i, t.owners[k]);
    }
  }

  // What the account does

  /** How a run of configuration actions may change the account. */
  ghost predicate Evolves(m: Multisig, m': Multisig) {
    && MultisigInv(m')
    && m'.createKey == m.createKey
    && m'.transactionIndex == m.transactionIndex
    && m'.closedTransactionCount == m.closedTransactionCount
    && (m' == m || m'.staleTransactionIndex == m'.transactionIndex)
  }

  /** A closure on the voted path found only the executing proposal open. */
  lemma ActionEvolves(m: Multisig, payer: Address, data: seq<byte>, viaProposal: bool, rentOk: bool)
    requires MultisigInv(m)
    ensures var out := ApplyConfigAction(Some(m), payer, data, viaProposal, rentOk);
            out.Ok? ==>
              if out.value.Some? then Evolves(m, out.value.value)
              else if viaProposal then OnlyExecutingTransactionOpen(m) else AllTransactionsClosed(m)
  {
    hide AddOwner, RemoveOwner, ChangeInPlace, RulesInv;
    ActionKeepsRules(m, payer, data, viaProposal, rentOk);
  }

  lemma {:induction false} RunEvolves(c: Call, ixs: seq<Instruction>, k: nat, account: Option<Multisig>)
    requires k <= |ixs| && (account.Some? ==> MultisigInv(account.value))
    requires forall i :: 0 <= i < |ixs| ==> ixs[i].program < |c.views|
    ensures var r := RunFrom(c, ixs, k, account);
            r.Ok? ==>
              if r.value.Some? then account.Some? && Evolves(account.value, r.value.value)
              else account.Some? ==> OnlyExecutingTransactionOpen(account.value)
    decreases |ixs| - k
  {
    hide ApplyConfigAction, Ascending, CountVoters;
    if RunFrom(c, ixs, k, account).Ok? && k < |ixs| {
      if c.views[ixs[k].program].address == c.programId {
        if account.Some? {
          ActionEvolves(account.value, c.executor.address, ixs[k].data, true, RuntimeAccepts(c, k));
        } else {
          ClosedStaysClosed(c.executor.address, ixs[k].data, true, RuntimeAccepts(c, k));
        }
        var applied := ApplyConfigAction(account, c.executor.address, ixs[k].data, true, RuntimeAccepts(c, k));
        RunEvolves(c, ixs, k + 1, applied.value);
      } else {
        RunEvolves(c, ixs, k + 1, account);
      }
    }
  }

  /** No action succeeds on an account that an earlier one closed. */
  lemma ClosedStaysClosed(payer: Address, data: seq<byte>, viaProposal: bool, rentOk: bool)
    ensures ApplyConfigAction(None, payer, data, viaProposal, rentOk).Err?
  {
  }

  lemma ExecuteEvolves(m: Multisig, self: Address, p: Proposal, c: Call)
    requires MultisigInv(m)
    ensures var out := ExecuteProposal(m, self, p, c);
            out.Ok? ==>
              if out.value.0.Some? then Evolves(m, out.value.0.value) else OnlyExecutingTransactionOpen(m)
  {
    hide RunFrom, Decode, AccountsOk, CheckExecutable, Checked, Evolves, OnlyExecutingTransactionOpen;
    if ExecuteProposal(m, self, p, c).Ok? {
      ProgramsInRange(p.message, c.views);
      RunEvolves(c, Decode(p.message).value.instructions, 0, Some(m));
    }
  }

  lemma AccountEvolves(s: State, s': State)
    requires s.ms.Some? && Inv(s)
    requires s'.props.Keys == s.props.Keys && s'.open == s.open && s'.snaps == s.snaps
    requires s'.ms.Some? ==> Evolves(s.ms.value, s'.ms.value)
    ensures AccountOk(s')
  {
    hide MultisigInv, EntryOk;
    if s'.ms.Some? {
      var m' := s'.ms.value;
      forall i | i in s'.snaps && i > m'.staleTransactionIndex ensures s'.snaps[i] == m'.rules {
        assert IndexOk(s, i);
      }
      assert forall i: nat :: i in s'.props <==> i in s'.props.Keys;
    }
  }

  // Every instruction keeps the invariant

  /** It is enough to look at the one entry an event touches, and at the account. */
  lemma TouchedKeeps(s: State, s': State, i: nat, e: Event)
    requires Inv(s) && AccountOk(s') && i in s.props && i in s'.props
    requires s'.self == s.self && s'.log == s.log + [e] && s'.snaps == s.snaps
    requires s'.props == s.props[i := s'.props[i]]
    requires s'.open == s.open || s'.open == s.open - {i}
    requires forall j: nat :: Touches(e, j) ==> j == i
    requires i in s.snaps && EntryOk(s.self, i, s'.props[i], s.snaps[i], i in s'.open, s'.log)
    ensures Inv(s')
  {
    hide EntryOk, AccountOk, Touches;
    forall j: nat ensures IndexOk(s', j) {
      if j != i {
        assert IndexOk(s, j);
        IndexFrame(s, s', j, e);
      }
    }
  }

  lemma UntouchedKeeps(s: State, s': State, e: Event)
    requires Inv(s) && AccountOk(s')
    requires s'.self == s.self && s'.log == s.log + [e]
    requires s'.props == s.props && s'.snaps == s.snaps && s'.open == s.open
    requires forall j: nat :: !Touches(e, j)
    ensures Inv(s')
  {
    hide EntryOk, AccountOk, Touches;
    forall j: nat ensures IndexOk(s', j) {
      assert IndexOk(s, j);
      IndexFrame(s, s', j, e);
    }
  }

  lemma OpenedKeeps(s: State, s': State, e: Event, p: Proposal)
    requires Inv(s) && s.ms.Some? && s'.ms.Some? && p.index == s'.ms.value.transactionIndex
    requires s'.ms.value == s.ms.value.(transactionIndex := s.ms.value.transactionIndex + 1)
    requires MultisigInv(s'.ms.value) && ProposalInv(s.self, p.index, p, s.ms.value.rules)
    requires p.status == Active && p.approved == p.rejected == p.cancelled == {}
    requires s'.self == s.self && s'.log == s.log + [e]
    requires s'.props == s.props[p.index := p] && s'.open == s.open + {p.index}
    requires s'.snaps == s.snaps[p.index := s.ms.value.rules]
    requires forall j: nat :: !Touches(e, j)
    ensures Inv(s')
  {
    hide EntryOk, MultisigInv, Touches, ProposalInv;
    var i := p.index;
    assert i !in s.props && IndexOk(s, i);
    forall j: nat ensures IndexOk(s', j) {
      assert IndexOk(s, j);
      if j == i {
        CreateEntry(s.self, i, p, s.ms.value.rules, s.log, e);
      } else {
        IndexFrame(s, s', j, e);
      }
    }
    WithMember(s.open, i);
  }

  lemma CreateKeepsInv(env: Env, s: State, e: Event)
    requires Inv(s) && e.CreateEvent? && Apply(env, s, e).Ok?
    ensures Inv(Apply(env, s, e).value)
  {
    hide InitProposal, IndexOk, MultisigInv, ProposalInv;
    var m := s.ms.value;
    CreateKeeps(m, s.self, e.creator.address, e.instruction[CREATE_HEADER_LEN..],
                CreateHeader(e.instruction), e.runtimeOk);
    var (m', p) := CreateTransaction(m, s.self, e.creator, e.instruction, e.vacant, e.runtimeOk).value;
    OpenedKeeps(s, Opened(s, m', p, e), e, p);
  }

  lemma PromoteKeepsInv(env: Env, s: State, e: Event)
    requires Inv(s) && e.PromoteEvent? && Apply(env, s, e).Ok?
    ensures Inv(Apply(env, s, e).value)
  {
    hide InitProposal, IndexOk, MultisigInv, ProposalInv;
    var m, b := s.ms.value, s.buffers[e.key];
    CreateKeeps(m, s.self, e.creator.address, b.region, PromoteHeader(e.instruction, b.vaultIndex), e.runtimeOk);
    var (m', p) := Promote(m, s.self, b, e.creator, e.instruction, e.vacant, e.runtimeOk, env.sha).value;
    OpenedKeeps(s, Apply(env, s, e).value, e, p);
  }

  lemma VoteKeepsInv(env: Env, s: State, e: Event)
    requires Inv(s) && (e.ApproveEvent? || e.RejectEvent? || e.CancelEvent?) && Apply(env, s, e).Ok?
    ensures Inv(Apply(env, s, e).value)
  {
    hide Approve, Reject, Cancel, EntryOk, MultisigInv;
    var i, s' := e.index, Apply(env, s, e).value;
    assert IndexOk(s, i);
    var m, p, t := s.ms.value, s.props[i], s.snaps[i];
    if e.ApproveEvent? {
      ApproveEntry(m, s.self, i, p, t, s.log, e);
    } else if e.RejectEvent? {
      RejectEntry(m, s.self, i, p, t, s.log, e);
    } else {
      CancelEntry(m, s.self, i, p, t, s.log, e);
    }
    AccountEvolves(s, s');
    TouchedKeeps(s, s', i, e);
  }

  lemma ExecuteKeepsInv(env: Env, s: State, e: Event)
    requires Inv(s) && e.ExecuteEvent? && Apply(env, s, e).Ok?
    ensures Inv(Apply(env, s, e).value)
  {
    hide EntryOk, MultisigInv, ExecuteProposal, OnlyExecutingTransactionOpen;
    var i, s' := e.index, Apply(env, s, e).value;
    assert IndexOk(s, i);
    var c := e.call.(programId := env.programId);
    ExecuteEntry(s.ms.value, s.self, i, s.props[i], s.snaps[i], s.log, e, c);
    ExecuteEvolves(s.ms.value, s.self, s.props[i], c);
    AccountEvolves(s, s');
    TouchedKeeps(s, s', i, e);
  }

  lemma CloseKeepsInv(env: Env, s: State, e: Event)
    requires Inv(s) && e.CloseEvent? && Apply(env, s, e).Ok?
    ensures Inv(Apply(env, s, e).value)
  {
    hide EntryOk;
    var i, s' := e.index, Apply(env, s, e).value;
    assert IndexOk(s, i);
    CloseEntry(s.self, i, s.props[i], s.snaps[i], s.log, e);
    assert |s'.open| == |s.open| - 1;
    TouchedKeeps(s, s', i, e);
  }

  lemma SetConfigKeepsInv(env: Env, s: State, e: Event)
    requires Inv(s) && e.SetConfigEvent? && Apply(env, s, e).Ok?
    ensures Inv(Apply(env, s, e).value)
  {
    hide ApplyConfigAction, IndexOk, MultisigInv;
    ActionEvolves(s.ms.value, e.authority.address, e.data, false, e.runtimeOk);
    AccountEvolves(s, Apply(env, s, e).value);
    UntouchedKeeps(s, Apply(env, s, e).value, e);
  }

  lemma BufferKeepsInv(env: Env, s: State, e: Event)
    requires Inv(s) && (e.BufferCreateEvent? || e.BufferExtendEvent? || e.BufferCloseEvent?)
    requires Apply(env, s, e).Ok?
    ensures Inv(Apply(env, s, e).value)
  {
    hide CreateBuffer, ExtendBuffer, CloseBuffer, IndexOk, MultisigInv;
    UntouchedKeeps(s, Apply(env, s, e).value, e);
  }

  lemma StepKeeps(env: Env, s: State, e: Event)
    requires Inv(s)
    ensures Inv(Step(env, s, e))
  {
    hide Inv, Apply;
    if Apply(env, s, e).Ok? {
      match e
      case CreateEvent(_, _, _, _) => CreateKeepsInv(env, s, e);
      case PromoteEvent(_, _, _, _, _) => PromoteKeepsInv(env, s, e);
      case ExecuteEvent(_, _) => ExecuteKeepsInv(env, s, e);
      case CloseEvent(_, _, _, _) => CloseKeepsInv(env, s, e);
      case SetConfigEvent(_, _, _) => SetConfigKeepsInv(env, s, e);
      case BufferCreateEvent(_, _, _, _) => BufferKeepsInv(env, s, e);
      case BufferExtendEvent(_, _, _) => BufferKeepsInv(env, s, e);
      case BufferCloseEvent(_, _, _, _) => BufferKeepsInv(env, s, e);
      case _ => VoteKeepsInv(env, s, e);
    }
  }

  lemma StartEstablishes(self: Address, a: InitArgs)
    ensures Start(self, a).Ok? ==> Inv(Start(self, a).value)
  {
    hide InitMultisig;
    InitEstablishes(a.creatorSigned, a.createKey, a.instruction, a.vacant, a.runtimeOk);
  }

  lemma {:induction false} RunKeeps(env: Env, s: State, es: seq<Event>)
    requires Inv(s)
    ensures Inv(Run(env, s, es))
    decreases |es|
  {
    hide Inv, Step;
    if es != [] {
      StepKeeps(env, s, es[0]);
      RunKeeps(env, Step(env, s, es[0]), es[1..]);
    }
  }

  /** The invariant holds in every state that any sequence of instructions can reach. */
  lemma ReachableInv(env: Env, s: State)
    requires Reachable(env, s)
    ensures Inv(s)
  {
    hide Inv, Start, Run;
    var self: Address, a: InitArgs, es: seq<Event> :|
      Start(self, a).Ok? && s == Run(env, Start(self, a).value, es);
    StartEstablishes(self, a);
    RunKeeps(env, Start(self, a).value, es);
  }
}
