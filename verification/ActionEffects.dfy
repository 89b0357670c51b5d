/** What each configuration action and the opening instruction store, byte by byte. */
module ActionEffects {
  import opened Base
  import opened OwnerSet
  import opened OwnerBytes
  import opened MultisigSpec
  import opened InitSpec
  import opened ConfigAcceptance
  import opened PermissionEffects
  import opened MaskMeaning
  import opened Machine
  import opened Invariant

  // Numbers and order

  /** Four bytes, the least significant first. */
  function Bytes32(n: nat): (b: seq<byte>)
    requires n < 0x1_0000_0000
    ensures |b| == 4
  {
    [n % 256, n / 256 % 256, n / 65536 % 256, n / 16777216]
  }

  /** Every 32-bit number is read back from its four bytes, and four bytes are those of what they read as. */
  lemma NumberRead(n: nat)
    requires n < 0x1_0000_0000
    ensures LittleEndian32(Bytes32(n)) == n
  {
    var q1, q2 := n / 256, n / 65536;
    assert n == n % 256 + 256 * q1 && q1 == q1 % 256 + 256 * q2 && q2 == q2 % 256 + 256 * (n / 16777216);
  }

  lemma NumberWritten(b: seq<byte>)
    requires |b| == 4
    ensures Bytes32(LittleEndian32(b)) == b
  {
    var n := LittleEndian32(b);
    assert n / 256 == b[1] as int + 256 * (b[2] as int) + 65536 * (b[3] as int);
    assert n / 65536 == b[2] as int + 256 * (b[3] as int);
  }

  predicate Zeros(a: seq<byte>) {
    forall k :: 0 <= k < |a| ==> a[k] == 0
  }

  lemma DefaultIsZeros(a: Address)
    ensures a == DEFAULT_ADDRESS <==> Zeros(a)
  {
    assert Zeros(DEFAULT_ADDRESS);
    if Zeros(a) {
      assert forall k :: 0 <= k < 32 ==> a[k] == DEFAULT_ADDRESS[k];
    }
  }

  /** At the first byte where they differ, `a` has the smaller one. */
  ghost predicate Before(a: Address, b: Address) {
    exists k :: 0 <= k < 32 && SmallerAt(a, b, k)
  }

  predicate SmallerAt(a: seq<byte>, b: seq<byte>, k: nat)
    requires k < |a| == |b|
  {
    a[..k] == b[..k] && a[k] < b[k]
  }

  lemma OrderIsFirstDifference(a: Address, b: Address)
    ensures Less(a, b) <==> Before(a, b)
  {
    LessBySomeByte(a, b);
  }

  lemma {:induction false} LessBySomeByte(a: seq<byte>, b: seq<byte>)
    requires |a| == |b|
    ensures Less(a, b) <==> exists k :: 0 <= k < |a| && SmallerAt(a, b, k)
  {
    if a != [] {
      LessBySomeByte(a[1..], b[1..]);
      if a[0] < b[0] {
        assert SmallerAt(a, b, 0);
      } else if a[0] == b[0] {
        forall k | 0 <= k < |a| - 1 ensures SmallerAt(a[1..], b[1..], k) <==> SmallerAt(a, b, k + 1) {
          assert a[..k + 1] == [a[0]] + a[1..][..k] && b[..k + 1] == [b[0]] + b[1..][..k];
        }
        if k :| 0 <= k < |a| && SmallerAt(a, b, k) {
          assert SmallerAt(a[1..], b[1..], k - 1);
        }
      } else if k :| 0 <= k < |a| && SmallerAt(a, b, k) {
        assert k == 0 || a[..k][0] == b[..k][0];
      }
    }
  }

  // Actions, by their first byte

  /** The account with these rules, every proposal so far made stale, and nothing else changed. */
  function Ruled(m: Multisig, r: Rules): Multisig {
    Multisig(m.createKey, r, m.transactionIndex, m.transactionIndex, m.closedTransactionCount)
  }

  /** Action 3 sets the time lock to the number its four bytes carry, if that is at most ninety days. */
  lemma TimeLockSet(m: Multisig, payer: Address, n: nat, viaProposal: bool, rentOk: bool)
    requires MultisigInv(m) && n < 0x1_0000_0000
    ensures ApplyConfigAction(Some(m), payer, [3] + Bytes32(n), viaProposal, rentOk)
         == if n <= 7776000 then Ok(Some(Ruled(m, m.rules.(timeLock := n)))) else Err(InvalidTimeLock)
  {
    hide Ascending, CountVoters, LittleEndian32, Bytes32;
    NumberRead(n);
    var data: seq<byte> := [3] + Bytes32(n);
    assert data[1..] == Bytes32(n);
  }

  /** Action 2 sets the threshold, if the voters can reach it. */
  lemma ThresholdSet(m: Multisig, payer: Address, n: nat, viaProposal: bool, rentOk: bool)
    requires MultisigInv(m) && n < 0x1_0000_0000
    ensures ApplyConfigAction(Some(m), payer, [2] + Bytes32(n), viaProposal, rentOk)
         == if 1 <= n <= m.rules.voterCount then Ok(Some(Ruled(m, m.rules.(threshold := n))))
            else Err(InvalidThreshold)
  {
    hide Ascending, CountVoters, LittleEndian32, Bytes32;
    NumberRead(n);
    var data: seq<byte> := [2] + Bytes32(n);
    assert data[1..] == Bytes32(n);
  }

  /** Action 4 sets where rent goes, and action 7 the authority: always. */
  lemma KeysSet(m: Multisig, payer: Address, a: Address, viaProposal: bool, rentOk: bool)
    requires MultisigInv(m)
    ensures ApplyConfigAction(Some(m), payer, [4] + a, viaProposal, rentOk)
         == Ok(Some(Ruled(m, m.rules.(rentCollector := a))))
    ensures ApplyConfigAction(Some(m), payer, [7] + a, viaProposal, rentOk)
         == Ok(Some(Ruled(m, m.rules.(configAuthority := a))))
  {
    hide Ascending, CountVoters;
    assert ([4] + a)[1..] == a && ([7] + a)[1..] == a;
  }

  /** What adding and removing owners leaves alone. */
  predicate OnlyOwnersChanged(m: Multisig, m': Multisig) {
    m' == Ruled(m, m.rules.(owners := m'.rules.owners, permissions := m'.rules.permissions,
                            voterCount := m'.rules.voterCount))
  }

  /** Action 0 adds one owner, who carries mask 0, unless they are one already or there are 4096. */
  lemma OwnerAdded(m: Multisig, payer: Address, a: Address, viaProposal: bool, rentOk: bool)
    requires MultisigInv(m)
    ensures var out := ApplyConfigAction(Some(m), payer, [0] + a, viaProposal, rentOk);
            && (out.Ok? <==> a !in m.rules.owners && |m.rules.owners| < 4096 && rentOk)
            && (out.Err? ==>
                  out.error == if a in m.rules.owners then OwnerAlreadyExists
                               else if |m.rules.owners| >= 4096 then InvalidOwnerCount else RuntimeFailure)
            && (out.Ok? ==>
                  && out.value.Some? && OnlyOwnersChanged(m, out.value.value)
                  && out.value.value.rules.voterCount == m.rules.voterCount + 1
                  && forall who, v :: Carries(out.value.value.rules, who, v)
                                 <==> (who == a && v == 0) || Carries(m.rules, who, v))
  {
    hide Less, CountVoters, Rank, InsertAt;
    assert ([0] + a)[1..] == a;
    AddAccepted(m, a, rentOk);
    var out := ApplyConfigAction(Some(m), payer, [0] + a, viaProposal, rentOk);
    if out.Ok? {
      AddOwnerGrants(m, a, rentOk, a, Vote);
      forall who, v ensures Carries(out.value.value.rules, who, v)
                       <==> (who == a && v == 0) || Carries(m.rules, who, v) {
        InsertedCarries(m.rules, out.value.value.rules, Rank(m.rules.owners, a), a, 0, who, v);
      }
    }
  }

  /** Action 1 removes one owner, if the voters left can reach the threshold. */
  lemma OwnerRemoved(m: Multisig, payer: Address, a: Address, mask: byte, viaProposal: bool, rentOk: bool)
    requires MultisigInv(m) && Carries(m.rules, a, mask)
    ensures var out := ApplyConfigAction(Some(m), payer, [1] + a, viaProposal, rentOk);
            var left := m.rules.voterCount - if MayVoteWith(mask) then 1 else 0;
            && (out.Ok? <==> left >= m.rules.threshold && rentOk)
            && (out.Err? ==>
                  out.error == if |m.rules.owners| == 1 then InvalidOwnerCount
                               else if left == 0 then NoVoters
                               else if left < m.rules.threshold then InvalidThreshold else RuntimeFailure)
            && (out.Ok? ==>
                  && out.value.Some? && OnlyOwnersChanged(m, out.value.value)
                  && out.value.value.rules.voterCount == left
                  && forall who, v :: Carries(out.value.value.rules, who, v)
                                 <==> who != a && Carries(m.rules, who, v))
  {
    hide Less, CountVoters, RemoveAt, MayVoteWith, HasPermission;
    assert ([1] + a)[1..] == a;
    CarriedDecides(m, a, mask);
    RemoveAccepted(m, a, rentOk);
    VotersAsMasks(m.rules, a, mask, mask);
    CountVotersRemove(m.rules.permissions, PositionOf(m.rules.owners, a));
    var out := ApplyConfigAction(Some(m), payer, [1] + a, viaProposal, rentOk);
    if out.Ok? {
      RemoveOwnerRevokes(m, a, rentOk, a, Vote);
      RemoveOwnerKeeps(m, a, rentOk);
      var k := PositionOf(m.rules.owners, a);
      forall who, v ensures Carries(out.value.value.rules, who, v) <==> who != a && Carries(m.rules, who, v) {
        RemovedCarries(m.rules, out.value.value.rules, k, who, v);
      }
    }
  }

  lemma {:induction false} InsertedCarries(r: Rules, r': Rules, k: nat, a: Address, mask: byte, who: Address, v: byte)
    requires |r.permissions| == |r.owners| && k <= |r.owners|
    requires r'.owners == InsertAt(r.owners, k, a) && r'.permissions == InsertAt(r.permissions, k, mask)
    ensures Carries(r', who, v) <==> (who == a && v == mask) || Carries(r, who, v)
  {
    InsertedAt(r.owners, k, a);
    InsertedAt(r.permissions, k, mask);
    hide InsertAt;
    if j :| 0 <= j < |r.owners| && r.owners[j] == who && r.permissions[j] == v {
      var j' := if j < k then j else j + 1;
      assert r'.owners[j'] == who && r'.permissions[j'] == v;
    }
    if j' :| 0 <= j' < |r'.owners| && r'.owners[j'] == who && r'.permissions[j'] == v && j' != k {
      var j := if j' < k then j' else j' - 1;
      assert r.owners[j] == who && r.permissions[j] == v;
    }
    assert r'.owners[k] == a && r'.permissions[k] == mask;
  }

  lemma InsertedAt<T>(s: seq<T>, k: nat, x: T)
    requires k <= |s|
    ensures var s' := InsertAt(s, k, x);
            && s'[k] == x && (forall j :: 0 <= j < k ==> s'[j] == s[j])
            && (forall j :: k <= j < |s| ==> s'[j + 1] == s[j])
            && (forall j :: k < j <= |s| ==> s'[j] == s[j - 1])
  {
  }

  lemma {:induction false} RemovedCarries(r: Rules, r': Rules, k: nat, who: Address, v: byte)
    requires Ascending(r.owners) && |r.permissions| == |r.owners| && k < |r.owners|
    requires r'.owners == RemoveAt(r.owners, k) && r'.permissions == RemoveAt(r.permissions, k)
    ensures Carries(r', who, v) <==> who != r.owners[k] && Carries(r, who, v)
  {
    RankOfRemoved(r.owners, k);
    hide Ascending, Less, Rank;
    RemoveInsert(r.owners, k, r.owners[k]);
    RemoveInsert(r.permissions, k, r.permissions[k]);
    var again := r.(owners := r.owners[k := r.owners[k]], permissions := r.permissions[k := r.permissions[k]]);
    assert again == r;
    InsertedCarries(r', r, k, r.owners[k], r.permissions[k], who, v);
  }

  /** Action 6 closes the account, once its proposals are closed, to the rent collector if there is one. */
  lemma MultisigClosed(m: Multisig, payer: Address, viaProposal: bool, rentOk: bool)
    requires MultisigInv(m)
    ensures var out := ApplyConfigAction(Some(m), payer, [6], viaProposal, rentOk);
            && (out.Ok? ==> out.value == None)
            && (out.Ok? <==> && m.closedTransactionCount + (if viaProposal then 1 else 0) == m.transactionIndex
                             && (Zeros(m.rules.rentCollector) || m.rules.rentCollector == payer) && rentOk)
            && (out.Err? ==>
                  out.error == if m.closedTransactionCount + (if viaProposal then 1 else 0) != m.transactionIndex
                               then TransactionsOutstanding
                               else if !Zeros(m.rules.rentCollector) && m.rules.rentCollector != payer
                               then InvalidAccount else RuntimeFailure)
  {
    hide Ascending, CountVoters, Zeros;
    DefaultIsZeros(m.rules.rentCollector);
    assert [6][1..] == [];
  }

  /** The length of what follows the first byte, for each action. */
  function PayloadLength(tag: byte): nat
    requires tag <= 7
  {
    if tag == 2 || tag == 3 then 4 else if tag == 5 then 33 else if tag == 6 then 0 else 32
  }

  /** Anything else is refused: no first byte, one above 7, or a payload of another length. */
  lemma MalformedRefused(account: Option<Multisig>, payer: Address, data: seq<byte>, viaProposal: bool, rentOk: bool)
    requires account.Some? ==> MultisigInv(account.value)
    ensures var out := ApplyConfigAction(account, payer, data, viaProposal, rentOk);
            && (data == [] ==> out == Err(InvalidInstructionData))
            && (data != [] && data[0] > 7 ==> out == Err(UnknownConfigAction))
            && (data != [] && data[0] <= 7 && |data| != 1 + PayloadLength(data[0]) && account.Some? ==>
                  out == Err(InvalidInstructionData))
  {
    hide Ascending, CountVoters, LittleEndian32, HasPermission;
  }

  // The authority's path

  /** The authority's instruction does to the account what the same action would do by vote, if they sign. */
  lemma AuthorityActs(env: Env, s: State, authority: Signer, data: seq<byte>, rentOk: bool)
    requires Reachable(env, s) && Live(s)
    ensures var m := s.ms.value;
            var out := Apply(env, s, SetConfigEvent(authority, data, rentOk));
            var action := ApplyConfigAction(Some(m), authority.address, data, false, rentOk);
            && (out.Ok? <==> && authority.signed && !Zeros(m.rules.configAuthority)
                             && authority.address == m.rules.configAuthority && action.Ok?)
            && (out.Ok? ==>
                  out.value == s.(ms := action.value, log := s.log + [SetConfigEvent(authority, data, rentOk)]))
  {
    hide Reachable, ApplyConfigAction, MultisigInv, IndexOk, Zeros;
    ReachableInv(env, s);
    DefaultIsZeros(s.ms.value.rules.configAuthority);
  }

  // Opening

  /** The bytes of the instruction that opens a multisig: threshold, owner count, bump, authority, owners. */
  ghost predicate Opening(instruction: seq<byte>, threshold: nat, authority: Address, owners: seq<Address>)
    requires threshold < 0x1_0000_0000 && |owners| < 0x1_0000_0000
  {
    && |instruction| == 44 + 32 * |owners|
    && instruction[..4] == Bytes32(threshold) && instruction[4..8] == Bytes32(|owners|)
    && instruction[12..44] == authority
    && forall i :: 0 <= i < |owners| ==> instruction[44 + 32 * i..76 + 32 * i] == owners[i]
  }

  /**
   * Opening succeeds exactly with one to 4096 owners, each before the next, and a threshold they can
   * reach; and the account stores that threshold, that authority and those owners, and zeros.
   */
  lemma OpeningStores(key: Address, instruction: seq<byte>, threshold: nat, authority: Address, owners: seq<Address>)
    requires threshold < 0x1_0000_0000 && |owners| < 0x1_0000_0000
    requires Opening(instruction, threshold, authority, owners)
    ensures var out := InitMultisig(true, Signer(key, true), instruction, true, true);
            && (out.Ok? <==> && 1 <= |owners| <= 4096 && 1 <= threshold <= |owners|
                             && forall i :: 1 <= i < |owners| ==> Before(owners[i - 1], owners[i]))
            && (out.Err? ==>
                  out.error == if |owners| == 0 || |owners| > 4096 then InvalidOwnerCount
                               else if forall i :: 1 <= i < |owners| ==> Before(owners[i - 1], owners[i])
                               then InvalidThreshold else OwnersNotSorted)
            && (out.Ok? ==>
                  && out.value == Multisig(key, out.value.rules, 0, 0, 0)
                  && var r := out.value.rules;
                     && r == Rules(authority, r.rentCollector, 0, owners, r.permissions, |owners|, threshold)
                     && Zeros(r.rentCollector) && |r.permissions| == |owners| && Zeros(r.permissions))
  {
    hide Less, Before, LittleEndian32, Bytes32, Ascending;
    NumberRead(threshold);
    NumberRead(|owners|);
    var bytes := instruction[44..];
    forall i | 0 <= i < |owners| ensures OwnersIn(bytes, |owners|)[i] == owners[i] {
      assert bytes[32 * i..32 * i + 32] == instruction[44 + 32 * i..76 + 32 * i];
    }
    assert OwnersIn(bytes, |owners|) == owners;
    AscendingByNeighbours(owners);
    DefaultIsZeros(DEFAULT_ADDRESS);
  }

  lemma AscendingByNeighbours(owners: seq<Address>)
    ensures Ascending(owners) <==> forall i :: 1 <= i < |owners| ==> Before(owners[i - 1], owners[i])
  {
    hide Less, Before;
    forall i | 1 <= i < |owners| ensures Less(owners[i - 1], owners[i]) <==> Before(owners[i - 1], owners[i]) {
      OrderIsFirstDifference(owners[i - 1], owners[i]);
    }
    if forall i :: 1 <= i < |owners| ==> Before(owners[i - 1], owners[i]) {
      NeighboursAscending(owners, |owners|);
      assert owners[..|owners|] == owners;
    }
  }

  /** Nothing is opened without both signatures, at an address in use, or when the runtime refuses. */
  lemma OpeningRefused(creatorSigned: bool, key: Signer, instruction: seq<byte>, vacant: bool, runtimeOk: bool)
    requires !creatorSigned || !key.signed || !vacant || !runtimeOk
    ensures InitMultisig(creatorSigned, key, instruction, vacant, runtimeOk).Err?
  {
  }
}
