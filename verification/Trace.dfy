/** What running a message's instructions does, one account after another. */
module ExecutionTrace {
  import opened Base
  import opened MultisigSpec
  import opened MessageCodec
  import opened ExecuteSpec

  /** Instruction `k` takes the account from `before` to `after`. */
  ghost predicate Takes(c: Call, ix: Instruction, k: nat, before: Option<Multisig>, after: Option<Multisig>)
    requires ix.program < |c.views| && (before.Some? ==> LayoutOk(before.value))
  {
    var accepted := k < |c.runtimeOk| && c.runtimeOk[k];
    && |ix.accounts| <= 32
    && if c.views[ix.program].address == c.programId then
         ApplyConfigAction(before, c.executor.address, ix.data, true, accepted) == Ok(after)
       else
         accepted && after == before
  }

  /** The accounts between the instructions: each takes one to the next, in the message's order. */
  ghost predicate Traces(c: Call, ixs: seq<Instruction>, k: nat, accounts: seq<Option<Multisig>>)
    requires k <= |ixs| && forall i :: 0 <= i < |ixs| ==> ixs[i].program < |c.views|
  {
    && |accounts| == |ixs| - k + 1
    && (forall i :: 0 <= i < |accounts| ==> accounts[i].Some? ==> LayoutOk(accounts[i].value))
    && forall i :: k <= i < |ixs| ==> Takes(c, ixs[i], i, accounts[i - k], accounts[i - k + 1])
  }

  /** A run leads to `after` exactly along such a sequence of accounts. */
  lemma {:induction false} RunsAlongTrace(
    c: Call, ixs: seq<Instruction>, k: nat, account: Option<Multisig>, after: Option<Multisig>)
    requires k <= |ixs| && (account.Some? ==> LayoutOk(account.value))
    requires forall i :: 0 <= i < |ixs| ==> ixs[i].program < |c.views|
    ensures RunFrom(c, ixs, k, account) == Ok(after)
       <==> exists accounts :: && Traces(c, ixs, k, accounts)
                               && accounts[0] == account && accounts[|ixs| - k] == after
    decreases |ixs| - k
  {
    hide ApplyConfigAction, LayoutOk, RunFrom;
    if accounts :| Traces(c, ixs, k, accounts) && accounts[0] == account && accounts[|ixs| - k] == after {
      TraceRuns(c, ixs, k, accounts);
    }
    if RunFrom(c, ixs, k, account) == Ok(after) {
      var accounts := RunTraces(c, ixs, k, account);
    }
  }

  lemma {:induction false} TraceRuns(c: Call, ixs: seq<Instruction>, k: nat, accounts: seq<Option<Multisig>>)
    requires k <= |ixs| && forall i :: 0 <= i < |ixs| ==> ixs[i].program < |c.views|
    requires Traces(c, ixs, k, accounts)
    ensures RunFrom(c, ixs, k, accounts[0]) == Ok(accounts[|ixs| - k])
    decreases |ixs| - k
  {
    hide ApplyConfigAction;
    if k < |ixs| {
      assert Takes(c, ixs[k], k, accounts[0], accounts[1]);
      var rest := accounts[1..];
      assert Traces(c, ixs, k + 1, rest) by {
        forall i | k + 1 <= i < |ixs| ensures Takes(c, ixs[i], i, rest[i - k - 1], rest[i - k]) {
          assert Takes(c, ixs[i], i, accounts[i - k], accounts[i - k + 1]);
        }
      }
      TraceRuns(c, ixs, k + 1, rest);
    }
  }

  lemma {:induction false} RunTraces(c: Call, ixs: seq<Instruction>, k: nat, account: Option<Multisig>)
    returns (accounts: seq<Option<Multisig>>)
    requires k <= |ixs| && (account.Some? ==> LayoutOk(account.value))
    requires forall i :: 0 <= i < |ixs| ==> ixs[i].program < |c.views|
    requires RunFrom(c, ixs, k, account).Ok?
    ensures Traces(c, ixs, k, accounts) && accounts[0] == account
    ensures accounts[|ixs| - k] == RunFrom(c, ixs, k, account).value
    decreases |ixs| - k
  {
    hide ApplyConfigAction;
    if k == |ixs| {
      accounts := [account];
    } else {
      var applied := ApplyConfigAction(account, c.executor.address, ixs[k].data, true, RuntimeAccepts(c, k));
      var next := if c.views[ixs[k].program].address == c.programId then applied.value else account;
      var rest := RunTraces(c, ixs, k + 1, next);
      accounts := [account] + rest;
      forall i | k <= i < |ixs| ensures Takes(c, ixs[i], i, accounts[i - k], accounts[i - k + 1]) {
        if i > k {
          assert Takes(c, ixs[i], i, rest[i - k - 1], rest[i - k]);
        }
      }
    }
  }

  /**
   * A run fails with the fault of the first instruction that cannot go on from the account the ones
   * before it left: too many accounts, a refused action, or a refused call.
   */
  lemma {:induction false} FailsAtFirst(
    c: Call, ixs: seq<Instruction>, k: nat, j: nat, accounts: seq<Option<Multisig>>)
    requires k <= j < |ixs| && (forall i :: 0 <= i < |ixs| ==> ixs[i].program < |c.views|)
    requires |accounts| == j - k + 1
    requires forall i :: 0 <= i < |accounts| ==> accounts[i].Some? ==> LayoutOk(accounts[i].value)
    requires forall i :: k <= i < j ==> Takes(c, ixs[i], i, accounts[i - k], accounts[i - k + 1])
    ensures var ix, accepted := ixs[j], j < |c.runtimeOk| && c.runtimeOk[j];
            var action := ApplyConfigAction(accounts[j - k], c.executor.address, ix.data, true, accepted);
            && (|ix.accounts| > 32 ==> RunFrom(c, ixs, k, accounts[0]) == Err(TooManyAccounts))
            && (|ix.accounts| <= 32 && c.views[ix.program].address == c.programId && action.Err? ==>
                  RunFrom(c, ixs, k, accounts[0]) == Err(action.error))
            && (|ix.accounts| <= 32 && c.views[ix.program].address != c.programId && !accepted ==>
                  RunFrom(c, ixs, k, accounts[0]) == Err(RuntimeFailure))
    decreases j - k
  {
    hide ApplyConfigAction;
    if k < j {
      assert Takes(c, ixs[k], k, accounts[0], accounts[1]);
      var rest := accounts[1..];
      forall i | k + 1 <= i < j ensures Takes(c, ixs[i], i, rest[i - k - 1], rest[i - k]) {
        assert Takes(c, ixs[i], i, accounts[i - k], accounts[i - k + 1]);
      }
      FailsAtFirst(c, ixs, k + 1, j, rest);
    }
  }
}
