/** Opening a multisig, opening and closing proposals, and the config authority's instruction. */
module InitSpec {
  import opened Base
  import opened OwnerSet
  import opened OwnerBytes
  import opened MultisigSpec

  const INIT_HEADER_LEN := 44

  /** `init_multisig`: a fixed header, then the owners, which must be strictly ascending. */
  ghost function InitMultisig(
    creatorSigned: bool, createKey: Signer, instruction: seq<byte>, vacant: bool, runtimeOk: bool)
    : Result<Multisig>
  {
    if !creatorSigned || !createKey.signed then Err(MissingSignature)
    else if !vacant then Err(AlreadyInitialized)
    else if |instruction| < INIT_HEADER_LEN then Err(InvalidInstructionData)
    else
      var n := LittleEndian32(instruction[4..8]);
      var bytes := instruction[INIT_HEADER_LEN..];
      if n == 0 || n > MAX_OWNER then Err(InvalidOwnerCount)
      else if |bytes| != 32 * n then Err(InvalidInstructionData)
      else if !Ascending(OwnersIn(bytes, n)) then Err(OwnersNotSorted)
      else if !runtimeOk then Err(RuntimeFailure)
      else
        var m := NewMultisig(createKey.address, instruction[12..44], OwnersIn(bytes, n),
                             LittleEndian32(instruction[..4]));
        if CheckHeader(m).Err? then Err(CheckHeader(m).error) else Ok(m)
  }

  ghost function NewMultisig(
    createKey: Address, configAuthority: Address, owners: seq<Address>, threshold: nat): Multisig
  {
    Multisig(createKey,
             Rules(configAuthority, DEFAULT_ADDRESS, 0, owners, seq(|owners|, i => 0), |owners|, threshold),
             0, 0, 0)
  }

  /** The base case: a new multisig satisfies every configuration rule. */
  lemma InitEstablishes(creatorSigned: bool, createKey: Signer, instruction: seq<byte>, vacant: bool, runtimeOk: bool)
    ensures var out := InitMultisig(creatorSigned, createKey, instruction, vacant, runtimeOk);
            out.Ok? ==>
              && MultisigInv(out.value)
              && out.value.transactionIndex == out.value.closedTransactionCount == 0
  {
    var out := InitMultisig(creatorSigned, createKey, instruction, vacant, runtimeOk);
    if out.Ok? {
      var r := out.value.rules;
      CountVotersAllDefault(r.permissions, |r.permissions|);
    }
  }
}

module Lifecycle {
  import opened Base
  import opened OwnerSet
  import opened OwnerBytes
  import opened Bitmap
  import opened ProposalSpec
  import opened InitSpec
  import opened MultisigAccounts
  import opened ProposalAccounts
  import opened MessageParser
  import MultisigSpec
  import MessageCodec

  /** The one full scan of the owner set: each owner against its predecessor. */
  method CheckSorted(owners: seq<Address>) returns (r: Outcome)
    ensures r == Check(Ascending(owners), OwnersNotSorted)
  {
    hide Less;
    var i := 1;
    while i < |owners|
      invariant 1 <= i
      invariant i <= |owners| || owners == []
      invariant forall j :: 1 <= j < i && j < |owners| ==> Less(owners[j - 1], owners[j])
    {
      if !Less(owners[i - 1], owners[i]) {
        return Err(OwnersNotSorted);
      }
      i := i + 1;
    }
    NeighboursAscending(owners, |owners|);
    assert owners[..|owners|] == owners;
    r := Ok(());
  }

  method ProcessInitMultisig(
    creatorSigned: bool, createKey: Signer, address: Address, instruction: seq<byte>, vacant: bool, runtimeOk: bool)
    returns (r: Result<MultisigAccount>)
    ensures var spec := InitMultisig(creatorSigned, createKey, instruction, vacant, runtimeOk);
            && r.Ok? == spec.Ok?
            && (r.Err? ==> r.error == spec.error)
            && (r.Ok? ==>
                  && fresh(r.value) && r.value.address == address
                  && r.value.Valid() && r.value.Model() == Some(spec.value))
  {
    hide Less, OwnersIn, PermissionsIn, Ascending, MultisigSpec.CheckFields;
    if !creatorSigned || !createKey.signed {
      return Err(MissingSignature);
    }
    if !vacant {
      return Err(AlreadyInitialized);
    }
    if |instruction| < INIT_HEADER_LEN {
      return Err(InvalidInstructionData);
    }
    var ownersCount := LittleEndian32(instruction[4..8]);
    var bytes := instruction[INIT_HEADER_LEN..];
    if ownersCount == 0 || ownersCount > MAX_OWNER {
      return Err(InvalidOwnerCount);
    }
    if |bytes| != ownersCount * 32 {
      return Err(InvalidInstructionData);
    }
    var owners := OwnersIn(bytes, ownersCount);
    var _ :- CheckSorted(owners);
    if !runtimeOk {
      return Err(RuntimeFailure);
    }
    var account := new MultisigAccount(
      address, createKey.address, instruction[12..44], owners, LittleEndian32(instruction[..4]));
    var _ :- account.CheckHeader();
    r := Ok(account);
  }

  /** `init_proposal`, shared by direct and buffered creation. */
  method ProcessInitProposal(
    creator: Address, multisig: MultisigAccount, message: seq<byte>, h: Header, runtimeOk: bool)
    returns (r: Result<ProposalAccount>)
    requires multisig.live && multisig.Valid()
    modifies multisig`transactionIndex
    ensures multisig.Valid()
    ensures var spec := InitProposal(old(multisig.Model()).value, multisig.address, creator, message, h, runtimeOk);
            && r.Ok? == spec.Ok?
            && (r.Err? ==> r.error == spec.error)
            && (r.Ok? ==>
                  && multisig.Model() == Some(spec.value.0)
                  && fresh(r.value) && r.value.Valid() && r.value.Model() == spec.value.1)
  {
    hide Less, OwnersIn, PermissionsIn, Ascending, Rank, PositionOf, CheckCounts, MessageCodec.Decode, Members;
    if h.ephemeralCount > MAX_EPHEMERAL_SIGNERS {
      return Err(InvalidInstructionData);
    }
    if |message| > MAX_MESSAGE_SIZE {
      return Err(InvalidMessage);
    }
    var _ :- Parse(message);
    var search := BinarySearch(multisig.Owners(), creator);
    if search.Missing? {
      return Err(NotAnOwner);
    }
    if !MaskAllows(multisig.Permissions()[search.pos], Initiate) {
      return Err(Unauthorized);
    }
    if multisig.transactionIndex + 1 >= U64_LIMIT {
      return Err(Overflow);
    }
    var index := multisig.transactionIndex + 1;
    multisig.transactionIndex := index;
    if !runtimeOk {
      return Err(RuntimeFailure);
    }
    var transaction := new ProposalAccount(multisig.address, creator, index, multisig.ownersCount, h, message);
    var _ :- transaction.CheckHeader();
    r := Ok(transaction);
  }

  method ProcessCreateTransaction(
    creator: Signer, multisig: MultisigAccount, instruction: seq<byte>, vacant: bool, runtimeOk: bool)
    returns (r: Result<ProposalAccount>)
    requires multisig.live && multisig.Valid()
    modifies multisig`transactionIndex
    ensures multisig.Valid()
    ensures var spec := CreateTransaction(old(multisig.Model()).value, multisig.address, creator, instruction,
                                          vacant, runtimeOk);
            && r.Ok? == spec.Ok?
            && (r.Err? ==> r.error == spec.error)
            && (r.Ok? ==>
                  && multisig.Model() == Some(spec.value.0)
                  && fresh(r.value) && r.value.Valid() && r.value.Model() == spec.value.1)
  {
    hide InitProposal, OwnersIn, PermissionsIn;
    if !creator.signed {
      return Err(MissingSignature);
    }
    if !vacant {
      return Err(AlreadyInitialized);
    }
    if |instruction| < CREATE_HEADER_LEN {
      return Err(InvalidInstructionData);
    }
    r := ProcessInitProposal(creator.address, multisig, instruction[CREATE_HEADER_LEN..],
                             CreateHeader(instruction), runtimeOk);
  }

  /** Counts the closure, then checks that the proposal may be closed and where its rent goes. */
  method ProcessCloseTransaction(
    transaction: ProposalAccount, multisig: MultisigAccount, destination: Address,
    instruction: seq<byte>, runtimeOk: bool)
    returns (r: Outcome)
    requires multisig.live && multisig.Valid() && transaction.Valid()
    modifies multisig`closedTransactionCount
    ensures multisig.Valid()
    ensures var spec := CloseTransaction(old(multisig.Model()).value, multisig.address, transaction.Model(),
                                         destination, instruction, runtimeOk);
            && r.Ok? == spec.Ok?
            && (r.Err? ==> r.error == spec.error)
            && (r.Ok? ==> multisig.Model() == Some(spec.value))
  {
    hide OwnersIn, PermissionsIn, Ascending, Members, MultisigSpec.CheckFields;
    if instruction != [] {
      return Err(InvalidInstructionData);
    }
    if multisig.closedTransactionCount + 1 >= U64_LIMIT {
      return Err(Overflow);
    }
    multisig.closedTransactionCount := multisig.closedTransactionCount + 1;
    var _ :- multisig.CheckHeader();
    if transaction.multisig != multisig.address {
      return Err(MultisigMismatch);
    }
    if RentDestination(multisig.rentCollector, transaction.creator) != destination {
      return Err(InvalidAccount);
    }
    if !Terminal(StatusFromByte(transaction.status).value) {
      return Err(InvalidStatus);
    }
    if !runtimeOk {
      return Err(RuntimeFailure);
    }
    r := Ok(());
  }

  method ProcessSetConfig(authority: Signer, multisig: MultisigAccount, data: seq<byte>, rentOk: bool)
    returns (r: Outcome)
    requires multisig.live && multisig.Valid()
    modifies multisig, multisig.tail
    ensures multisig.tail == old(multisig.tail) || fresh(multisig.tail)
    ensures var spec := MultisigSpec.SetConfig(old(multisig.Model()), authority, data, rentOk);
            && r.Ok? == spec.Ok?
            && (r.Err? ==> r.error == spec.error)
            && (r.Ok? ==> multisig.Valid() && multisig.Model() == spec.value)
  {
    hide OwnersIn, PermissionsIn, Ascending, MultisigSpec.ApplyConfigAction;
    if !authority.signed {
      return Err(MissingSignature);
    }
    if multisig.configAuthority == DEFAULT_ADDRESS {
      return Err(NotControlled);
    }
    if multisig.configAuthority != authority.address {
      return Err(Unauthorized);
    }
    r := multisig.ApplyConfigAction(authority.address, data, false, rentOk);
  }
}
