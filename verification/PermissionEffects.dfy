/** What the owner-set actions mean for people rather than positions. */
module PermissionEffects {
  import opened Base
  import opened OwnerSet
  import opened MultisigSpec

  /** In an ascending set, the mask that counts for an owner is the one at any position holding them. */
  lemma PermissionAt(r: Rules, k: nat, permission: Permission)
    requires Ascending(r.owners) && |r.permissions| == |r.owners| && k < |r.owners|
    ensures HasPermission(r, r.owners[k], permission) <==> MaskAllows(r.permissions[k], permission)
  {
    hide Less, MaskAllows;
    PositionOfAt(r.owners, k);
  }

  lemma WithOwnerPermission(r: Rules, owner: Address, who: Address, permission: Permission)
    requires |r.permissions| == |r.owners| && owner !in r.owners
    requires Ascending(r.owners) && Ascending(WithOwner(r, owner).owners)
    ensures var r' := WithOwner(r, owner);
            && (who in r'.owners <==> who == owner || who in r.owners)
            && |r'.permissions| == |r'.owners|
            && (HasPermission(r', who, permission) <==> who == owner || HasPermission(r, who, permission))
  {
    assert MaskAllows(0, permission);
    hide Ascending, MaskAllows, Rank;
    var r', k := WithOwner(r, owner), Rank(r.owners, owner);
    if who == owner {
      assert r'.owners[k] == who;
      PermissionAt(r', k, permission);
    } else if who in r.owners {
      var j := PositionOf(r.owners, who);
      var j' := if j < k then j else j + 1;
      assert r'.owners[j'] == who && r'.permissions[j'] == r.permissions[j];
      PermissionAt(r', j', permission);
      PermissionAt(r, j, permission);
    }
  }

  lemma WithoutOwnerPermission(r: Rules, k: nat, who: Address, permission: Permission)
    requires |r.permissions| == |r.owners| && k < |r.owners|
    requires Ascending(r.owners) && Ascending(WithoutOwner(r, k).owners)
    ensures var r' := WithoutOwner(r, k);
            && (who in r'.owners <==> who != r.owners[k] && who in r.owners)
            && |r'.permissions| == |r'.owners|
            && (HasPermission(r', who, permission) <==> who != r.owners[k] && HasPermission(r, who, permission))
  {
    RankOfRemoved(r.owners, k);
    hide Ascending, MaskAllows, Rank;
    var r' := WithoutOwner(r, k);
    if who != r.owners[k] && who in r.owners {
      var j := PositionOf(r.owners, who);
      var j' := if j < k then j else j - 1;
      assert r'.owners[j'] == who && r'.permissions[j'] == r.permissions[j];
      PermissionAt(r', j', permission);
      PermissionAt(r, j, permission);
    }
  }

  /** Adding an owner gives them every permission, and changes nobody else's. */
  lemma AddOwnerGrants(m: Multisig, payload: seq<byte>, rentOk: bool, who: Address, permission: Permission)
    requires MultisigInv(m) && AddOwner(Some(m), payload, rentOk).Ok?
    ensures var r, r' := m.rules, AddOwner(Some(m), payload, rentOk).value.rules;
            && |r'.permissions| == |r'.owners| == |r.owners| + 1
            && (who in r'.owners <==> who == payload || who in r.owners)
            && (HasPermission(r', who, permission) <==> who == payload || HasPermission(r, who, permission))
            && r'.voterCount == r.voterCount + 1
            && r'.threshold == r.threshold && r'.timeLock == r.timeLock
            && r'.configAuthority == r.configAuthority && r'.rentCollector == r.rentCollector
  {
    hide Ascending, CountVoters, Rank, InsertAt, HasPermission;
    AddOwnerKeeps(m, payload, rentOk);
    WithOwnerPermission(m.rules, payload, who, permission);
  }

  /** Removing an owner takes every permission from them, and changes nobody else's. */
  lemma RemoveOwnerRevokes(m: Multisig, payload: seq<byte>, rentOk: bool, who: Address, permission: Permission)
    requires MultisigInv(m) && RemoveOwner(Some(m), payload, rentOk).Ok?
    ensures var r, r' := m.rules, RemoveOwner(Some(m), payload, rentOk).value.rules;
            && |r'.permissions| == |r'.owners| == |r.owners| - 1
            && (who in r'.owners <==> who != payload && who in r.owners)
            && (HasPermission(r', who, permission) <==> who != payload && HasPermission(r, who, permission))
            && r'.voterCount == r.voterCount - (if HasPermission(r, payload, Vote) then 1 else 0)
            && r'.threshold == r.threshold && r'.timeLock == r.timeLock
            && r'.configAuthority == r.configAuthority && r'.rentCollector == r.rentCollector
  {
    hide Ascending, CountVoters, RemoveAt;
    RemoveOwnerKeeps(m, payload, rentOk);
    var k := PositionOf(m.rules.owners, payload);
    CountVotersRemove(m.rules.permissions, k);
    WithoutOwnerPermission(m.rules, k, who, permission);
  }

  /** Setting a mask decides one owner's permissions, and changes nobody else's. */
  lemma SetPermissionDecides(m: Multisig, payload: seq<byte>, who: Address, permission: Permission)
    requires MultisigInv(m) && ChangeInPlace(Some(m), SET_PERMISSION, payload).Ok?
    ensures var r, r' := m.rules, ChangeInPlace(Some(m), SET_PERMISSION, payload).value.rules;
            && |payload| == 33 && r'.owners == r.owners && |r'.permissions| == |r.permissions|
            && (HasPermission(r', who, permission)
                <==> if who == payload[..32] then who in r.owners && MaskAllows(payload[32], permission)
                     else HasPermission(r, who, permission))
            && r'.threshold == r.threshold && r'.timeLock == r.timeLock
            && r'.configAuthority == r.configAuthority && r'.rentCollector == r.rentCollector
  {
    hide Less, MaskAllows, CountVoters;
    var r, r' := m.rules, ChangeInPlace(Some(m), SET_PERMISSION, payload).value.rules;
    var k := PositionOf(r.owners, payload[..32]);
    if who in r.owners {
      var j := PositionOf(r.owners, who);
      PermissionAt(r', j, permission);
      PermissionAt(r, j, permission);
    }
  }
}
