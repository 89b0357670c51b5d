/** The multisig account as a value, and the configuration actions as functions on it. */
module MultisigSpec {
  import opened Base
  import opened OwnerSet

  /** Everything a configuration action may change; what a vote is counted against. */
  datatype Rules = Rules(
    configAuthority: Address, rentCollector: Address, timeLock: nat,
    owners: seq<Address>, permissions: seq<byte>, voterCount: nat, threshold: nat)

  datatype Multisig = Multisig(
    createKey: Address, rules: Rules,
    transactionIndex: nat, staleTransactionIndex: nat, closedTransactionCount: nat)

  /** `load`: closing an account empties its data, and then it no longer parses. */
  function Load(account: Option<Multisig>): Result<Multisig> {
    match account
    case None => Err(InvalidAccountData)
    case Some(m) => Ok(m)
  }

  /** `voter_count.saturating_sub(threshold) + 1`. */
  function Cutoff(r: Rules): nat {
    (if r.voterCount >= r.threshold then r.voterCount - r.threshold else 0) + 1
  }

  predicate AllTransactionsClosed(m: Multisig) {
    m.closedTransactionCount == m.transactionIndex
  }

  predicate OnlyExecutingTransactionOpen(m: Multisig) {
    m.closedTransactionCount + 1 < U64_LIMIT && m.closedTransactionCount + 1 == m.transactionIndex
  }

  predicate IsControlled(r: Rules) {
    r.configAuthority != DEFAULT_ADDRESS
  }

  function InvalidatePriorTransactions(m: Multisig): Multisig {
    m.(staleTransactionIndex := m.transactionIndex)
  }

  /** `invariant`: the constant-time checks on the header's fields. */
  function CheckFields(
    ownersCount: nat, voterCount: nat, threshold: nat, transactionIndex: nat,
    staleTransactionIndex: nat, closedTransactionCount: nat, timeLock: nat): Outcome
  {
    if ownersCount == 0 || ownersCount > MAX_OWNER then Err(InvalidOwnerCount)
    else if voterCount == 0 then Err(NoVoters)
    else if voterCount > ownersCount then Err(InvalidAccountData)
    else if threshold == 0 || threshold > voterCount then Err(InvalidThreshold)
    else if staleTransactionIndex > transactionIndex
         || closedTransactionCount > transactionIndex then Err(InvalidAccountData)
    else if timeLock > MAX_TIME_LOCK then Err(InvalidTimeLock)
    else Ok(())
  }

  function CheckHeader(m: Multisig): Outcome {
    var r := m.rules;
    CheckFields(|r.owners|, r.voterCount, r.threshold, m.transactionIndex,
                m.staleTransactionIndex, m.closedTransactionCount, r.timeLock)
  }

  ghost predicate HasPermission(r: Rules, owner: Address, permission: Permission)
    requires |r.permissions| == |r.owners|
  {
    owner in r.owners && MaskAllows(r.permissions[PositionOf(r.owners, owner)], permission)
  }

  /** The account layout holds one permission byte per owner. */
  predicate LayoutOk(m: Multisig) {
    |m.rules.permissions| == |m.rules.owners|
  }

  // What every reachable configuration satisfies, most of which no single check establishes.

  ghost predicate RulesInv(r: Rules) {
    && Ascending(r.owners)
    && |r.permissions| == |r.owners|
    && (forall i :: 0 <= i < |r.permissions| ==> r.permissions[i] <= ALL_PERMISSIONS)
    && r.voterCount == CountVoters(r.permissions)
    && 1 <= r.threshold <= r.voterCount <= |r.owners| <= MAX_OWNER
    && r.timeLock <= MAX_TIME_LOCK
  }

  ghost predicate MultisigInv(m: Multisig) {
    && RulesInv(m.rules)
    && m.staleTransactionIndex <= m.transactionIndex < U64_LIMIT
    && m.closedTransactionCount <= m.transactionIndex
  }

  // Configuration actions

  const ADD_OWNER := 0
  const REMOVE_OWNER := 1
  const CHANGE_THRESHOLD := 2
  const CHANGE_TIME_LOCK := 3
  const SET_RENT_COLLECTOR := 4
  const SET_PERMISSION := 5
  const CLOSE_MULTISIG := 6
  const SET_CONFIG_AUTHORITY := 7

  function AddressPayload(payload: seq<byte>): Result<Address> {
    if |payload| == 32 then Ok(payload) else Err(InvalidInstructionData)
  }

  function U32Payload(payload: seq<byte>): Result<nat> {
    if |payload| == 4 then Ok(LittleEndian32(payload)) else Err(InvalidInstructionData)
  }

  /** Ends an action: existing proposals become stale and the header is checked. */
  function Settled(m: Multisig): Result<Multisig> {
    var after := InvalidatePriorTransactions(m);
    match CheckHeader(after)
    case Ok(_) => Ok(after)
    case Err(e) => Err(e)
  }

  /** The rules with one more owner, in order, holding the default mask. */
  ghost function WithOwner(r: Rules, owner: Address): Rules
    requires |r.permissions| == |r.owners|
  {
    var k := Rank(r.owners, owner);
    r.(owners := InsertAt(r.owners, k, owner),
       permissions := InsertAt(r.permissions, k, 0),
       voterCount := Wrap32(r.voterCount + 1))
  }

  /** The rules without the owner at position `k`. */
  ghost function WithoutOwner(r: Rules, k: nat): Rules
    requires |r.permissions| == |r.owners| && k < |r.owners|
  {
    r.(owners := RemoveAt(r.owners, k),
       permissions := RemoveAt(r.permissions, k),
       voterCount := Wrap32(r.voterCount - Voter(r.permissions[k])))
  }

  ghost function AddOwner(account: Option<Multisig>, payload: seq<byte>, rentOk: bool): Result<Multisig>
    requires account.Some? ==> LayoutOk(account.value)
  {
    if |payload| != 32 then Err(InvalidInstructionData)
    else if account.None? then Err(InvalidAccountData)
    else
      var r := account.value.rules;
      if payload in r.owners then Err(OwnerAlreadyExists)
      else if |r.owners| >= MAX_OWNER then Err(InvalidOwnerCount)
      else if !rentOk then Err(RuntimeFailure)
      else Settled(account.value.(rules := WithOwner(r, payload)))
  }

  ghost function RemoveOwner(account: Option<Multisig>, payload: seq<byte>, rentOk: bool): Result<Multisig>
    requires account.Some? ==> LayoutOk(account.value)
  {
    if |payload| != 32 then Err(InvalidInstructionData)
    else if account.None? then Err(InvalidAccountData)
    else
      var r := account.value.rules;
      if payload !in r.owners then Err(NotAnOwner)
      else
        var k := PositionOf(r.owners, payload);
        var after := Settled(account.value.(rules := WithoutOwner(r, k)));
        if after.Ok? && !rentOk then Err(RuntimeFailure) else after
  }

  ghost function SetPermission(r: Rules, payload: seq<byte>): Result<Rules>
    requires |r.permissions| == |r.owners|
  {
    if |payload| != 33 then Err(InvalidInstructionData)
    else
      var owner, mask := payload[..32], payload[32];
      if mask > ALL_PERMISSIONS then Err(UnknownPermission)
      else if owner !in r.owners then Err(NotAnOwner)
      else
        var k := PositionOf(r.owners, owner);
        Ok(r.(permissions := r.permissions[k := mask],
              voterCount := Wrap32(r.voterCount - Voter(r.permissions[k]) + Voter(mask))))
  }

  /** The actions that keep the account's size. */
  ghost function ChangeRules(r: Rules, tag: byte, payload: seq<byte>): Result<Rules>
    requires |r.permissions| == |r.owners|
    requires tag in {CHANGE_THRESHOLD, CHANGE_TIME_LOCK, SET_RENT_COLLECTOR, SET_PERMISSION, SET_CONFIG_AUTHORITY}
  {
    if tag == CHANGE_THRESHOLD then
      var t :- U32Payload(payload); Ok(r.(threshold := t))
    else if tag == CHANGE_TIME_LOCK then
      var t :- U32Payload(payload); Ok(r.(timeLock := t))
    else if tag == SET_RENT_COLLECTOR then
      var a :- AddressPayload(payload); Ok(r.(rentCollector := a))
    else if tag == SET_PERMISSION then
      SetPermission(r, payload)
    else
      var a :- AddressPayload(payload); Ok(r.(configAuthority := a))
  }

  ghost function ChangeInPlace(account: Option<Multisig>, tag: byte, payload: seq<byte>): Result<Multisig>
    requires account.Some? ==> LayoutOk(account.value)
    requires tag in {CHANGE_THRESHOLD, CHANGE_TIME_LOCK, SET_RENT_COLLECTOR, SET_PERMISSION, SET_CONFIG_AUTHORITY}
  {
    var m :- Load(account);
    var r :- ChangeRules(m.rules, tag, payload);
    Settled(m.(rules := r))
  }

  function CloseMultisig(
    account: Option<Multisig>, destination: Address, payload: seq<byte>, viaProposal: bool, rentOk: bool): Outcome
  {
    if payload != [] then Err(InvalidInstructionData)
    else if account.None? then Err(InvalidAccountData)
    else
      var m := account.value;
      var collector := m.rules.rentCollector;
      if !(if viaProposal then OnlyExecutingTransactionOpen(m) else AllTransactionsClosed(m)) then
        Err(TransactionsOutstanding)
      else if collector != DEFAULT_ADDRESS && collector != destination then Err(InvalidAccount)
      else if !rentOk then Err(RuntimeFailure)
      else Ok(())
  }

  /**
   * Applies one action. The account afterwards is `None` when the action closed it.
   * `rentOk` is whether the runtime accepted the lamport move the action needs.
   */
  ghost function ApplyConfigAction(
    account: Option<Multisig>, payer: Address, data: seq<byte>, viaProposal: bool, rentOk: bool)
    : (r: Result<Option<Multisig>>)
    requires account.Some? ==> LayoutOk(account.value)
    ensures r.Ok? && r.value.Some? ==> LayoutOk(r.value.value)
  {
    if data == [] then Err(InvalidInstructionData)
    else
      var tag, payload := data[0], data[1..];
      if tag > SET_CONFIG_AUTHORITY then Err(UnknownConfigAction)
      else if tag == CLOSE_MULTISIG then
        match CloseMultisig(account, payer, payload, viaProposal, rentOk)
        case Ok(_) => Ok(None)
        case Err(e) => Err(e)
      else
        var m :- if tag == ADD_OWNER then AddOwner(account, payload, rentOk)
                 else if tag == REMOVE_OWNER then RemoveOwner(account, payload, rentOk)
                 else ChangeInPlace(account, tag, payload);
        Ok(Some(m))
  }

  /** The config authority's path to the same actions. A closed account is no longer the program's. */
  ghost function SetConfig(account: Option<Multisig>, authority: Signer, data: seq<byte>, rentOk: bool)
    : (r: Result<Option<Multisig>>)
    requires account.Some? ==> LayoutOk(account.value)
    ensures r.Ok? && r.value.Some? ==> LayoutOk(r.value.value)
  {
    if !authority.signed then Err(MissingSignature)
    else if account.None? then Err(IllegalOwner)
    else if !IsControlled(account.value.rules) then Err(NotControlled)
    else if account.value.rules.configAuthority != authority.address then Err(Unauthorized)
    else ApplyConfigAction(account, authority.address, data, false, rentOk)
  }

  // What every action keeps

  lemma AddOwnerKeeps(m: Multisig, payload: seq<byte>, rentOk: bool)
    requires MultisigInv(m)
    ensures var out := AddOwner(Some(m), payload, rentOk); out.Ok? ==> MultisigInv(out.value)
  {
    var r := m.rules;
    if AddOwner(Some(m), payload, rentOk).Ok? {
      var owner: Address := payload;
      InsertAscending(r.owners, owner);
      CountVotersInsert(r.permissions, Rank(r.owners, owner), 0);
    }
  }

  lemma RemoveOwnerKeeps(m: Multisig, payload: seq<byte>, rentOk: bool)
    requires MultisigInv(m)
    ensures var out := RemoveOwner(Some(m), payload, rentOk); out.Ok? ==> MultisigInv(out.value)
  {
    var r := m.rules;
    if RemoveOwner(Some(m), payload, rentOk).Ok? {
      var k := PositionOf(r.owners, payload);
      RemoveAscending(r.owners, k);
      CountVotersRemove(r.permissions, k);
    }
  }

  lemma ChangeInPlaceKeeps(m: Multisig, tag: byte, payload: seq<byte>)
    requires MultisigInv(m)
    requires tag in {CHANGE_THRESHOLD, CHANGE_TIME_LOCK, SET_RENT_COLLECTOR, SET_PERMISSION, SET_CONFIG_AUTHORITY}
    ensures var out := ChangeInPlace(Some(m), tag, payload); out.Ok? ==> MultisigInv(out.value)
  {
    if tag == SET_PERMISSION && SetPermission(m.rules, payload).Ok? {
      var r := m.rules;
      var k := PositionOf(r.owners, payload[..32]);
      CountVotersUpdate(r.permissions, k, payload[32]);
    }
  }

  /**
   * Every action, by either path, keeps the configuration rules: in particular the voter
   * count it maintains step by step always equals a recount, and never wraps. Every action
   * that leaves the account open makes all existing proposals stale.
   */
  lemma ActionKeepsRules(m: Multisig, payer: Address, data: seq<byte>, viaProposal: bool, rentOk: bool)
    requires MultisigInv(m)
    ensures var out := ApplyConfigAction(Some(m), payer, data, viaProposal, rentOk);
            out.Ok? && out.value.Some? ==>
              var m' := out.value.value;
              && MultisigInv(m')
              && m'.staleTransactionIndex == m'.transactionIndex == m.transactionIndex
              && m'.closedTransactionCount == m.closedTransactionCount
              && m'.createKey == m.createKey
  {
    if |data| > 0 && data[0] <= SET_CONFIG_AUTHORITY && data[0] != CLOSE_MULTISIG {
      var tag, payload := data[0], data[1..];
      if tag == ADD_OWNER {
        AddOwnerKeeps(m, payload, rentOk);
      } else if tag == REMOVE_OWNER {
        RemoveOwnerKeeps(m, payload, rentOk);
      } else {
        ChangeInPlaceKeeps(m, tag, payload);
      }
    }
  }

  lemma WithThenWithoutOwner(r: Rules, owner: Address)
    requires RulesInv(r) && owner !in r.owners
    ensures var after := WithOwner(r, owner);
            && owner in after.owners
            && WithoutOwner(after, PositionOf(after.owners, owner)) == r
  {
    var k := Rank(r.owners, owner);
    var after := WithOwner(r, owner);
    InsertAscending(r.owners, owner);
    InsertRemove(r.owners, k, owner);
    InsertRemove(r.permissions, k, 0);
    assert after.owners[k] == owner;
    PositionOfAt(after.owners, k);
  }

  /** Adding an owner and then removing the same one restores owners, masks and voter count. */
  lemma AddThenRemove(m: Multisig, payload: seq<byte>)
    requires MultisigInv(m)
    requires AddOwner(Some(m), payload, true).Ok?
    ensures var added := AddOwner(Some(m), payload, true).value;
            var removed := RemoveOwner(Some(added), payload, true);
            removed.Ok? && removed.value == InvalidatePriorTransactions(m)
  {
    hide Less, Rank, InsertAt, RemoveAt, Ascending, PositionOf, CountVoters;
    WithThenWithoutOwner(m.rules, payload);
  }

  lemma WithoutThenWithOwner(r: Rules, owner: Address)
    requires RulesInv(r) && owner in r.owners
    ensures var k := PositionOf(r.owners, owner);
            var without := WithoutOwner(r, k);
            && owner !in without.owners
            && WithOwner(without, owner).owners == r.owners
            && (WithOwner(without, owner) == r <==> r.permissions[k] == 0)
  {
    var k := PositionOf(r.owners, owner);
    RankOfRemoved(r.owners, k);
    RemoveInsert(r.owners, k, owner);
    RemoveInsert(r.permissions, k, 0);
    CountVotersRemove(r.permissions, k);
    assert r.owners[k := owner] == r.owners;
    assert r.permissions[k := 0][k] == 0;
    assert r.permissions[k] == 0 ==> r.permissions[k := 0] == r.permissions;
  }

  /**
   * Removing an owner and adding them back restores the rules exactly when their mask was
   * the default: a re-added owner holds every permission.
   */
  lemma RemoveThenAdd(m: Multisig, payload: seq<byte>)
    requires MultisigInv(m)
    requires RemoveOwner(Some(m), payload, true).Ok?
    ensures var removed := RemoveOwner(Some(m), payload, true).value;
            var added := AddOwner(Some(removed), payload, true);
            && added.Ok?
            && added.value.rules.owners == m.rules.owners
            && (added.value.rules == m.rules
                <==> m.rules.permissions[PositionOf(m.rules.owners, payload)] == 0)
  {
    hide Less, Rank, InsertAt, RemoveAt, Ascending, PositionOf, CountVoters;
    RemoveOwnerKeeps(m, payload, true);
    WithoutThenWithOwner(m.rules, payload);
  }
}
