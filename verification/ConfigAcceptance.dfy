/** Exactly which configuration actions an account accepts. */
module ConfigAcceptance {
  import opened Base
  import opened OwnerSet
  import opened MultisigSpec

  /** What one owner contributes to the voter count. */
  ghost function VoteOf(r: Rules, who: Address): nat
    requires |r.permissions| == |r.owners|
  {
    if HasPermission(r, who, Vote) then 1 else 0
  }

  /** What an action needs, given an account that satisfies the rules. */
  ghost predicate Acceptable(m: Multisig, payer: Address, data: seq<byte>, viaProposal: bool, rentOk: bool)
    requires LayoutOk(m)
  {
    && data != [] && data[0] <= SET_CONFIG_AUTHORITY
    && var tag, payload, r := data[0], data[1..], m.rules;
       if tag == ADD_OWNER then
         |payload| == 32 && payload !in r.owners && |r.owners| < MAX_OWNER && rentOk
       else if tag == REMOVE_OWNER then
         |payload| == 32 && payload in r.owners && r.voterCount - VoteOf(r, payload) >= r.threshold && rentOk
       else if tag == CHANGE_THRESHOLD then
         |payload| == 4 && 1 <= LittleEndian32(payload) <= r.voterCount
       else if tag == CHANGE_TIME_LOCK then
         |payload| == 4 && LittleEndian32(payload) <= MAX_TIME_LOCK
       else if tag == SET_PERMISSION then
         && |payload| == 33 && payload[32] <= ALL_PERMISSIONS && payload[..32] in r.owners
         && r.voterCount - VoteOf(r, payload[..32]) + Voter(payload[32]) >= r.threshold
       else if tag == CLOSE_MULTISIG then
         && payload == [] && rentOk
         && (if viaProposal then OnlyExecutingTransactionOpen(m) else AllTransactionsClosed(m))
         && (r.rentCollector == DEFAULT_ADDRESS || r.rentCollector == payer)
       else
         |payload| == 32
  }

  lemma AddAccepted(m: Multisig, payload: seq<byte>, rentOk: bool)
    requires MultisigInv(m)
    ensures AddOwner(Some(m), payload, rentOk).Ok?
       <==> |payload| == 32 && payload !in m.rules.owners && |m.rules.owners| < MAX_OWNER && rentOk
  {
    hide Ascending, Rank, CountVoters, InsertAt;
  }

  /** Removing an owner is accepted exactly while the voters left can still reach the threshold. */
  lemma RemoveAccepted(m: Multisig, payload: seq<byte>, rentOk: bool)
    requires MultisigInv(m)
    ensures RemoveOwner(Some(m), payload, rentOk).Ok?
       <==> && |payload| == 32 && payload in m.rules.owners
            && m.rules.voterCount - VoteOf(m.rules, payload) >= m.rules.threshold && rentOk
  {
    hide Ascending, RemoveAt;
    var r := m.rules;
    if |payload| == 32 && payload in r.owners {
      var k := PositionOf(r.owners, payload);
      CountVotersRemove(r.permissions, k);
      assert VoteOf(r, payload) == Voter(r.permissions[k]);
    }
  }

  lemma SetPermissionAccepted(m: Multisig, payload: seq<byte>)
    requires MultisigInv(m)
    ensures ChangeInPlace(Some(m), SET_PERMISSION, payload).Ok?
       <==> && |payload| == 33 && payload[32] <= ALL_PERMISSIONS && payload[..32] in m.rules.owners
            && m.rules.voterCount - VoteOf(m.rules, payload[..32]) + Voter(payload[32]) >= m.rules.threshold
  {
    hide Ascending;
    var r := m.rules;
    if |payload| == 33 && payload[..32] in r.owners {
      var k := PositionOf(r.owners, payload[..32]);
      CountVotersUpdate(r.permissions, k, payload[32]);
      assert VoteOf(r, payload[..32]) == Voter(r.permissions[k]);
    }
  }

  lemma FieldAccepted(m: Multisig, tag: byte, payload: seq<byte>)
    requires MultisigInv(m) && tag in {CHANGE_THRESHOLD, CHANGE_TIME_LOCK, SET_RENT_COLLECTOR, SET_CONFIG_AUTHORITY}
    ensures ChangeInPlace(Some(m), tag, payload).Ok?
       <==> if tag == CHANGE_THRESHOLD then |payload| == 4 && 1 <= LittleEndian32(payload) <= m.rules.voterCount
            else if tag == CHANGE_TIME_LOCK then |payload| == 4 && LittleEndian32(payload) <= MAX_TIME_LOCK
            else |payload| == 32
  {
    hide Ascending, CountVoters, LittleEndian32;
  }

  /**
   * An account that satisfies the rules accepts an action if and only if its payload is well formed
   * and the voters afterwards can still reach the threshold; nothing else the handlers check can fail.
   */
  lemma ActionAccepted(m: Multisig, payer: Address, data: seq<byte>, viaProposal: bool, rentOk: bool)
    requires MultisigInv(m)
    ensures ApplyConfigAction(Some(m), payer, data, viaProposal, rentOk).Ok?
       <==> Acceptable(m, payer, data, viaProposal, rentOk)
  {
    hide AddOwner, RemoveOwner, ChangeInPlace, VoteOf, Voter, Ascending, CountVoters, LittleEndian32;
    if data != [] && data[0] <= SET_CONFIG_AUTHORITY {
      var tag, payload := data[0], data[1..];
      if tag == ADD_OWNER {
        AddAccepted(m, payload, rentOk);
      } else if tag == REMOVE_OWNER {
        RemoveAccepted(m, payload, rentOk);
      } else if tag == SET_PERMISSION {
        SetPermissionAccepted(m, payload);
      } else if tag != CLOSE_MULTISIG {
        FieldAccepted(m, tag, payload);
      }
    }
  }

  /** Giving one owner a mask that can vote always succeeds, and changes that mask alone. */
  lemma VotingMaskSucceeds(m: Multisig, payer: Address, owner: Address, mask: byte, viaProposal: bool)
    requires MultisigInv(m) && owner in m.rules.owners && mask <= ALL_PERMISSIONS && MaskCanVote(mask)
    ensures var data := [SET_PERMISSION] + owner + [mask];
            var out := ApplyConfigAction(Some(m), payer, data, viaProposal, true);
            && out.Ok? && out.value.Some?
            && var r, r' := m.rules, out.value.value.rules;
               && r'.owners == r.owners && |r'.permissions| == |r.permissions|
               && r'.permissions == r.permissions[PositionOf(r.owners, owner) := mask]
               && r'.configAuthority == r.configAuthority && r'.timeLock == r.timeLock
               && out.value.value.transactionIndex == m.transactionIndex
  {
    hide Ascending, CountVoters, VoteOf;
    var data: seq<byte> := [SET_PERMISSION] + owner + [mask];
    var payload := data[1..];
    assert payload[..32] == owner && payload[32] == mask;
    ActionAccepted(m, payer, data, viaProposal, true);
    VoteAtMostOne(m.rules, owner);
  }

  lemma VoteAtMostOne(r: Rules, who: Address)
    requires |r.permissions| == |r.owners|
    ensures VoteOf(r, who) <= 1
  {
  }
}
