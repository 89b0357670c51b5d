/** Executing an approved proposal: its guards, its accounts, and its instructions in order. */
module ExecuteSpec {
  import opened Base
  import opened OwnerSet
  import opened MultisigSpec
  import opened ProposalSpec
  import opened MessageCodec
  import opened AccountResolution

  /** What the executing instruction is given besides the two accounts. */
  datatype Call = Call(
    executor: Signer, instruction: seq<byte>, now: i64, programId: Address, views: seq<AccountInfo>,
    runtimeOk: seq<bool>) // whether the runtime accepts each inner instruction's call or rent move

  predicate RuntimeAccepts(c: Call, k: nat) {
    k < |c.runtimeOk| && c.runtimeOk[k]
  }

  /**
   * Runs the instructions from `k` on. One that targets this program is a configuration action,
   * applied in place; any other is an external call, which leaves these accounts alone.
   */
  ghost function RunFrom(c: Call, ixs: seq<Instruction>, k: nat, account: Option<Multisig>)
    : (r: Result<Option<Multisig>>)
    requires k <= |ixs| && (account.Some? ==> LayoutOk(account.value))
    requires forall i :: 0 <= i < |ixs| ==> ixs[i].program < |c.views|
    decreases |ixs| - k
  {
    if k == |ixs| then Ok(account)
    else if |ixs[k].accounts| > MAX_CPI_ACCOUNTS then Err(TooManyAccounts)
    else if c.views[ixs[k].program].address == c.programId then
      var applied := ApplyConfigAction(account, c.executor.address, ixs[k].data, true, RuntimeAccepts(c, k));
      if applied.Err? then Err(applied.error) else RunFrom(c, ixs, k + 1, applied.value)
    else if !RuntimeAccepts(c, k) then Err(RuntimeFailure)
    else RunFrom(c, ixs, k + 1, account)
  }

  /** None of the instructions from `k` on is a configuration action. */
  ghost predicate ExternalFrom(c: Call, ixs: seq<Instruction>, k: nat)
    requires forall i :: 0 <= i < |ixs| ==> ixs[i].program < |c.views|
  {
    forall i :: k <= i < |ixs| ==> c.views[ixs[i].program].address != c.programId
  }

  /** Each instruction from `k` on fits one external call, and the runtime accepts it. */
  ghost predicate CallsAccepted(c: Call, ixs: seq<Instruction>, k: nat) {
    forall i :: k <= i < |ixs| ==> |ixs[i].accounts| <= 32 && RuntimeAccepts(c, i)
  }

  /** External instructions run through exactly when each call is accepted, and leave the account alone. */
  lemma {:induction false} ExternalRun(c: Call, ixs: seq<Instruction>, k: nat, account: Option<Multisig>)
    requires k <= |ixs| && (account.Some? ==> LayoutOk(account.value))
    requires forall i :: 0 <= i < |ixs| ==> ixs[i].program < |c.views|
    requires ExternalFrom(c, ixs, k)
    ensures RunFrom(c, ixs, k, account).Ok? <==> CallsAccepted(c, ixs, k)
    ensures RunFrom(c, ixs, k, account).Ok? ==> RunFrom(c, ixs, k, account).value == account
    decreases |ixs| - k
  {
    hide RuntimeAccepts, ApplyConfigAction;
    if k < |ixs| {
      ExternalRun(c, ixs, k + 1, account);
    }
  }

  /** The delay a positive time lock demands between approval and execution. */
  function CheckTimeLock(timeLock: nat, approvedAt: i64, now: i64): (r: Outcome)
    ensures r.Ok? <==> timeLock == 0 || timeLock <= now - approvedAt < 0x8000_0000_0000_0000
  {
    if timeLock == 0 then Ok(())
    else if now - approvedAt < -0x8000_0000_0000_0000 || now - approvedAt >= 0x8000_0000_0000_0000 then
      Err(Overflow)
    else if now - approvedAt < timeLock then Err(TimeLockNotReleased)
    else Ok(())
  }

  /** Everything that must hold before any instruction runs. */
  ghost function CheckExecutable(m: Multisig, self: Address, p: Proposal, c: Call): Outcome
    requires LayoutOk(m)
  {
    if c.instruction != [] then Err(InvalidInstructionData)
    else if !c.executor.signed then Err(MissingSignature)
    else if !HasPermission(m.rules, c.executor.address, Execute) then Err(Unauthorized)
    else if p.multisig != self then Err(MultisigMismatch)
    else if p.status != Approved then Err(InvalidStatus)
    else CheckTimeLock(m.rules.timeLock, p.approvedAt, c.now)
  }

  /** The accounts passed are the message's, and its instructions run to the end on them. */
  ghost predicate RunsThrough(m: Multisig, blob: seq<byte>, c: Call)
    requires LayoutOk(m)
  {
    && Decode(blob).Some? && AccountsOk(Decode(blob).value, c.views)
    && (ProgramsInRange(blob, c.views);
        RunFrom(c, Decode(blob).value.instructions, 0, Some(m)).Ok?)
  }

  ghost function ExecuteProposal(m: Multisig, self: Address, p: Proposal, c: Call)
    : (r: Result<(Option<Multisig>, Proposal)>)
    requires LayoutOk(m)
  {
    var executable := CheckExecutable(m, self, p, c);
    if executable.Err? then Err(executable.error)
    else
      var q :- Checked(p.(status := Executed));
      var message := Decode(p.message);
      if message.None? then Err(InvalidMessage)
      else if !AccountsOk(message.value, c.views) then
        ResolveIff(message.value, c.views);
        Err(ResolveAccounts(message.value, c.views).error)
      else
        ProgramsInRange(p.message, c.views);
        var after := RunFrom(c, message.value.instructions, 0, Some(m));
        if after.Err? then Err(after.error) else Ok((after.value, q))
  }

  /** Every account an accepted message's instructions name is among those passed. */
  lemma ProgramsInRange(blob: seq<byte>, views: seq<AccountInfo>)
    requires Decode(blob).Some? && AccountsOk(Decode(blob).value, views)
    ensures var ixs := Decode(blob).value.instructions;
            forall i :: 0 <= i < |ixs| ==>
              && ixs[i].program < |views|
              && forall j :: 0 <= j < |ixs[i].accounts| ==> ixs[i].accounts[j] < |views|
  {
    hide TakeMessage, TableOk, Expected;
    var m := Decode(blob).value;
    assert forall i :: 0 <= i < |m.instructions| ==> IndexesInRange(m.instructions[i], NumAllKeys(m));
  }
}

module ExecuteHandler {
  import opened Base
  import opened OwnerSet
  import opened OwnerBytes
  import opened Bitmap
  import opened ProposalSpec
  import opened MessageCodec
  import opened MessageParser
  import opened AccountResolution
  import opened ExecuteSpec
  import opened MultisigAccounts
  import opened ProposalAccounts
  import MultisigSpec

  /** The guards of `execute`, ending with the status latch. */
  method LatchExecuted(multisig: MultisigAccount, transaction: ProposalAccount, c: Call) returns (r: Outcome)
    requires multisig.live && multisig.Valid() && transaction.Valid()
    modifies transaction`status
    ensures transaction.Valid()
    ensures var p := old(transaction.Model());
            var executable := CheckExecutable(multisig.Model().value, multisig.address, p, c);
            var checked := Checked(p.(status := Executed));
            && (executable.Err? ==> r == executable)
            && (executable.Ok? ==> r.Ok? == checked.Ok?)
            && (executable.Ok? && checked.Err? ==> r == Err(checked.error))
            && (r.Ok? ==> transaction.Model() == checked.value)
  {
    hide OwnersIn, PermissionsIn, Ascending, Less, Rank, PositionOf, Members, CheckCounts, CheckTimeLock;
    if c.instruction != [] {
      return Err(InvalidInstructionData);
    }
    if !c.executor.signed {
      return Err(MissingSignature);
    }
    var search := BinarySearch(multisig.Owners(), c.executor.address);
    if search.Missing? || !MaskAllows(multisig.Permissions()[search.pos], Execute) {
      return Err(Unauthorized);
    }
    if transaction.multisig != multisig.address {
      return Err(MultisigMismatch);
    }
    if StatusFromByte(transaction.status).value != Approved {
      return Err(InvalidStatus);
    }
    var _ :- CheckTimeLock(multisig.timeLock, transaction.approvedAt, c.now);
    transaction.status := StatusByte(Executed);
    r := transaction.CheckHeader();
  }

  /** The loop over the message's instructions. */
  method RunInstructions(multisig: MultisigAccount, v: MessageView, ghost m: Message, c: Call) returns (r: Outcome)
    requires multisig.Valid() && Fits(m) && ViewOf(v, m)
    requires forall i :: 0 <= i < |m.instructions| ==>
               && m.instructions[i].program < |c.views|
               && forall j :: 0 <= j < |m.instructions[i].accounts| ==> m.instructions[i].accounts[j] < |c.views|
    modifies multisig, multisig.tail
    ensures multisig.tail == old(multisig.tail) || fresh(multisig.tail)
    ensures var spec := RunFrom(c, m.instructions, 0, old(multisig.Model()));
            && r.Ok? == spec.Ok?
            && (r.Err? ==> r.error == spec.error)
            && (r.Ok? ==> multisig.Valid() && multisig.Model() == spec.value)
  {
    hide OwnersIn, PermissionsIn, Ascending, TakeInstruction, EncodeInstruction, InstructionFits,
         MultisigSpec.ApplyConfigAction, MultisigSpec.LayoutOk;
    ghost var ixs := m.instructions;
    ghost var spec := RunFrom(c, ixs, 0, multisig.Model());
    var iter := new InstructionIter(v.instructions);
    var k := 0;
    while true
      invariant iter.cursor.Valid() && fresh(iter.cursor)
      invariant multisig.tail == old(multisig.tail) || fresh(multisig.tail)
      invariant multisig.Valid() && 0 <= k <= |ixs|
      invariant iter.cursor.Rest() == EncodeInstructions(ixs[k..])
      invariant RunFrom(c, ixs, k, multisig.Model()) == spec
      decreases |ixs| - k
    {
      if k < |ixs| {
        EncodedNotEmpty(ixs[k]);
        TakeEncodedInstruction(ixs[k], EncodeInstructions(ixs[k + 1..]));
        assert ixs[k..][1..] == ixs[k + 1..];
      }
      var next := iter.Next();
      if next.None? {
        break;
      }
      assert next.value.Ok?;
      var compiled := next.value.value;
      if |compiled.accounts| > MAX_CPI_ACCOUNTS {
        return Err(TooManyAccounts);
      }
      if c.views[compiled.program].address == c.programId {
        var _ :- multisig.ApplyConfigAction(c.executor.address, compiled.data, true, RuntimeAccepts(c, k));
      } else {
        var metas := CpiMetas(v, compiled, c.views);
        if !RuntimeAccepts(c, k) {
          return Err(RuntimeFailure);
        }
      }
      k := k + 1;
    }
    r := Ok(());
  }

  /**
   * The accounts of an external call. The arrays have a fixed length, so entries past the
   * instruction's own are filled with index zero: in bounds, because the program is.
   */
  function CpiMetas(v: MessageView, ix: Instruction, views: seq<AccountInfo>): (metas: seq<AccountMeta>)
    requires |ix.accounts| <= MAX_CPI_ACCOUNTS && ix.program < |views|
    requires forall j :: 0 <= j < |ix.accounts| ==> ix.accounts[j] < |views|
    ensures |metas| == MAX_CPI_ACCOUNTS
  {
    seq(MAX_CPI_ACCOUNTS, j requires 0 <= j < MAX_CPI_ACCOUNTS =>
      var at := if j < |ix.accounts| then ix.accounts[j] else 0;
      AccountMeta(views[at].address, v.IsSigner(at), v.IsWritable(at)))
  }

  /**
   * An inner instruction gets each account it names, writable exactly when the client listed it
   * writable, and signing only for a static signer key: a lookup table confers no signature.
   */
  lemma CallPrivilegesMatchClient(
    m: Message, v: MessageView, ix: Instruction, views: seq<AccountInfo>, tables: seq<AccountInfo>,
    listed: seq<AccountMeta>, j: nat)
    requires ViewOf(v, m) && WellFormed(m) && ix in m.instructions
    requires |tables| == |m.lookups| && MetasFor(m, Resolved(m, tables), listed)
    requires NumAllKeys(m) <= |views| && |ix.accounts| <= MAX_CPI_ACCOUNTS && j < |ix.accounts|
    ensures ix.program < |views| && forall k :: 0 <= k < |ix.accounts| ==> ix.accounts[k] < |views|
    ensures ix.accounts[j] < |listed|
    ensures var meta := CpiMetas(v, ix, views)[j];
            && meta.address == views[ix.accounts[j]].address
            && meta.writable == listed[ix.accounts[j]].writable
            && (meta.signer <==> ix.accounts[j] < m.numSigners)
            && (meta.signer ==> ix.accounts[j] < |m.keys|)
  {
    hide Resolved, MetasFor;
    assert IndexesInRange(ix, NumAllKeys(m));
    ListedCoversKeys(m, tables, listed);
    ClientPrivilegesAgree(m, v, tables, listed, ix.accounts[j]);
  }

  method ProcessExecute(multisig: MultisigAccount, transaction: ProposalAccount, c: Call) returns (r: Outcome)
    requires multisig.live && multisig.Valid() && transaction.Valid()
    requires multisig.tail != transaction.message && multisig.tail as object != transaction.votes as object
    modifies multisig, multisig.tail, transaction`status
    ensures var spec := ExecuteProposal(old(multisig.Model()).value, multisig.address, old(transaction.Model()), c);
            && r.Ok? == spec.Ok?
            && (r.Err? ==> r.error == spec.error)
            && (r.Ok? ==>
                  && multisig.Valid() && multisig.Model() == spec.value.0
                  && transaction.Valid() && transaction.Model() == spec.value.1)
  {
    hide OwnersIn, PermissionsIn, Ascending, Members, CheckExecutable, CheckCounts, Decode, AccountsOk, RunFrom, ViewOf,
         IndexesInRange;
    var _ :- LatchExecuted(multisig, transaction, c);
    var blob := transaction.message[..];
    var message :- Parse(blob);
    ghost var m := Decode(blob).value;
    Canonical(blob);
    var _ :- CheckAccounts(message, m, c.views);
    ProgramsInRange(blob, c.views);
    r := RunInstructions(multisig, message, m, c);
  }
}
