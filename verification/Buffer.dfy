/** Chunked upload of a message, and its promotion to a proposal. */
module BufferSpec {
  import opened Base
  import opened OwnerSet
  import opened MultisigSpec
  import opened ProposalSpec

  /** A buffer account as a value; `region` is as long as the message will be. */
  datatype Buffer = Buffer(
    multisig: Address, creator: Address, finalHash: seq<byte>, finalSize: nat, written: nat,
    bufferIndex: byte, vaultIndex: byte, bump: byte, region: seq<byte>)

  ghost predicate BufferInv(b: Buffer) {
    |b.region| == b.finalSize <= MAX_MESSAGE_SIZE && b.written <= b.finalSize
  }

  const BUFFER_HEADER_LEN := 40

  /** Bytes `0..32` are the hash, `32..36` the length, then index, vault, bump and padding. */
  ghost function CreateBuffer(
    m: Multisig, self: Address, creator: Signer, instruction: seq<byte>, vacant: bool, runtimeOk: bool)
    : Result<Buffer>
    requires LayoutOk(m)
  {
    if !creator.signed then Err(MissingSignature)
    else if !vacant then Err(AlreadyInitialized)
    else if |instruction| < BUFFER_HEADER_LEN then Err(InvalidInstructionData)
    else
      var finalSize := LittleEndian32(instruction[32..36]);
      var chunk := instruction[BUFFER_HEADER_LEN..];
      if finalSize > MAX_MESSAGE_SIZE || |chunk| > finalSize then Err(InvalidMessage)
      else if creator.address !in m.rules.owners then Err(NotAnOwner)
      else if !HasPermission(m.rules, creator.address, Initiate) then Err(Unauthorized)
      else if !runtimeOk then Err(RuntimeFailure)
      else Ok(Buffer(self, creator.address, instruction[..32], finalSize, |chunk|,
                     instruction[36], instruction[37], instruction[38],
                     chunk + seq(finalSize - |chunk|, i => 0)))
  }

  function ExtendBuffer(b: Buffer, creator: Signer, chunk: seq<byte>): Result<Buffer>
    requires BufferInv(b)
  {
    var end := b.written + |chunk|;
    if !creator.signed then Err(MissingSignature)
    else if chunk == [] then Err(InvalidInstructionData)
    else if b.creator != creator.address then Err(InvalidAccount)
    else if end > b.finalSize then Err(InvalidMessage)
    else Ok(b.(written := end, region := b.region[..b.written] + chunk + b.region[end..]))
  }

  function CloseBuffer(b: Buffer, creator: Signer, instruction: seq<byte>, runtimeOk: bool): Outcome {
    if instruction != [] then Err(InvalidInstructionData)
    else if !creator.signed then Err(MissingSignature)
    else if b.creator != creator.address then Err(InvalidAccount)
    else if !runtimeOk then Err(RuntimeFailure)
    else Ok(())
  }

  const PROMOTE_LEN := 7

  function PromoteHeader(instruction: seq<byte>, vaultIndex: byte): Header
    requires |instruction| == PROMOTE_LEN
  {
    Header(vaultIndex, instruction[1], instruction[0], instruction[2], instruction[3..7])
  }

  /** `create_from_buffer`; `sha` is the hash function the runtime provides. */
  ghost function Promote(
    m: Multisig, self: Address, b: Buffer, creator: Signer, instruction: seq<byte>,
    vacant: bool, runtimeOk: bool, sha: seq<byte> -> seq<byte>)
    : Result<(Multisig, Proposal)>
    requires LayoutOk(m)
  {
    if |instruction| != PROMOTE_LEN then Err(InvalidInstructionData)
    else if !creator.signed then Err(MissingSignature)
    else if !vacant then Err(AlreadyInitialized)
    else if b.creator != creator.address then Err(InvalidAccount)
    else if b.multisig != self then Err(MultisigMismatch)
    else if b.written != b.finalSize then Err(BufferIncomplete)
    else if sha(b.region) != b.finalHash then Err(BufferHashMismatch)
    else InitProposal(m, self, creator.address, b.region, PromoteHeader(instruction, b.vaultIndex), runtimeOk)
  }

  /** Each extension appends to what was written, and nothing written changes. */
  lemma ExtendAppends(b: Buffer, creator: Signer, chunk: seq<byte>)
    requires BufferInv(b)
    ensures var out := ExtendBuffer(b, creator, chunk);
            out.Ok? ==>
              && BufferInv(out.value)
              && out.value.region[..out.value.written] == b.region[..b.written] + chunk
  {
  }
}

module BufferHandlers {
  import opened Base
  import opened OwnerSet
  import opened OwnerBytes
  import opened ProposalSpec
  import opened BufferSpec
  import opened MultisigAccounts
  import opened ProposalAccounts
  import opened Lifecycle

  class BufferAccount {
    var multisig: Address
    var creator: Address
    var finalHash: seq<byte>
    var finalSize: nat
    var written: nat
    var bufferIndex: byte
    var vaultIndex: byte
    var bump: byte
    var region: array<byte>

    ghost predicate Valid()
      reads this
    {
      region.Length == finalSize <= MAX_MESSAGE_SIZE && written <= finalSize
    }

    ghost function Model(): (b: Buffer)
      requires Valid()
      reads this, region
      ensures BufferInv(b)
    {
      Buffer(multisig, creator, finalHash, finalSize, written, bufferIndex, vaultIndex, bump, region[..])
    }

    constructor (multisig: Address, creator: Address, finalHash: seq<byte>, finalSize: nat,
                 bufferIndex: byte, vaultIndex: byte, bump: byte, chunk: seq<byte>)
      requires |chunk| <= finalSize <= MAX_MESSAGE_SIZE
      ensures Valid() && fresh(region)
      ensures Model() == Buffer(multisig, creator, finalHash, finalSize, |chunk|, bufferIndex, vaultIndex, bump,
                                chunk + seq(finalSize - |chunk|, i => 0))
    {
      this.multisig, this.creator, this.finalHash := multisig, creator, finalHash;
      this.finalSize, written := finalSize, |chunk|;
      this.bufferIndex, this.vaultIndex, this.bump := bufferIndex, vaultIndex, bump;
      var bytes := new byte[finalSize](k => 0);
      forall k | 0 <= k < |chunk| {
        bytes[k] := chunk[k];
      }
      region := bytes;
      new;
      assert region[..] == chunk + seq(finalSize - |chunk|, i => 0);
    }
  }

  method ProcessBufferCreate(
    creator: Signer, multisig: MultisigAccount, instruction: seq<byte>, vacant: bool, runtimeOk: bool)
    returns (r: Result<BufferAccount>)
    requires multisig.live && multisig.Valid()
    ensures var spec := CreateBuffer(multisig.Model().value, multisig.address, creator, instruction, vacant, runtimeOk);
            && r.Ok? == spec.Ok?
            && (r.Err? ==> r.error == spec.error)
            && (r.Ok? ==> fresh(r.value) && r.value.Valid() && r.value.Model() == spec.value)
  {
    hide OwnersIn, PermissionsIn, Less, Rank, PositionOf;
    if !creator.signed {
      return Err(MissingSignature);
    }
    if !vacant {
      return Err(AlreadyInitialized);
    }
    if |instruction| < BUFFER_HEADER_LEN {
      return Err(InvalidInstructionData);
    }
    var finalSize := LittleEndian32(instruction[32..36]);
    var chunk := instruction[BUFFER_HEADER_LEN..];
    if finalSize > MAX_MESSAGE_SIZE || |chunk| > finalSize {
      return Err(InvalidMessage);
    }
    var search := BinarySearch(multisig.Owners(), creator.address);
    if search.Missing? {
      return Err(NotAnOwner);
    }
    if !MaskAllows(multisig.Permissions()[search.pos], Initiate) {
      return Err(Unauthorized);
    }
    if !runtimeOk {
      return Err(RuntimeFailure);
    }
    var buffer := new BufferAccount(multisig.address, creator.address, instruction[..32], finalSize,
                                    instruction[36], instruction[37], instruction[38], chunk);
    r := Ok(buffer);
  }

  method ProcessBufferExtend(creator: Signer, buffer: BufferAccount, chunk: seq<byte>) returns (r: Outcome)
    requires buffer.Valid()
    modifies buffer`written, buffer.region
    ensures buffer.Valid()
    ensures var spec := ExtendBuffer(old(buffer.Model()), creator, chunk);
            && r.Ok? == spec.Ok?
            && (r.Err? ==> r.error == spec.error)
            && (r.Ok? ==> buffer.Model() == spec.value)
  {
    if !creator.signed {
      return Err(MissingSignature);
    }
    if chunk == [] {
      return Err(InvalidInstructionData);
    }
    if buffer.creator != creator.address {
      return Err(InvalidAccount);
    }
    var written, end := buffer.written, buffer.written + |chunk|;
    if end > buffer.finalSize {
      return Err(InvalidMessage);
    }
    ghost var was := buffer.region[..];
    forall k | 0 <= k < |chunk| {
      buffer.region[written + k] := chunk[k];
    }
    buffer.written := end;
    assert buffer.region[..] == was[..written] + chunk + was[end..];
    r := Ok(());
  }

  method ProcessCreateFromBuffer(
    creator: Signer, multisig: MultisigAccount, buffer: BufferAccount, instruction: seq<byte>,
    vacant: bool, runtimeOk: bool, sha: seq<byte> -> seq<byte>)
    returns (r: Result<ProposalAccount>)
    requires multisig.live && multisig.Valid() && buffer.Valid()
    modifies multisig`transactionIndex
    ensures multisig.Valid()
    ensures var spec := Promote(old(multisig.Model()).value, multisig.address, buffer.Model(), creator, instruction,
                                vacant, runtimeOk, sha);
            && r.Ok? == spec.Ok?
            && (r.Err? ==> r.error == spec.error)
            && (r.Ok? ==>
                  && multisig.Model() == Some(spec.value.0)
                  && fresh(r.value) && r.value.Valid() && r.value.Model() == spec.value.1)
  {
    hide OwnersIn, PermissionsIn, Ascending, InitProposal;
    if |instruction| != PROMOTE_LEN {
      return Err(InvalidInstructionData);
    }
    if !creator.signed {
      return Err(MissingSignature);
    }
    if !vacant {
      return Err(AlreadyInitialized);
    }
    if buffer.creator != creator.address {
      return Err(InvalidAccount);
    }
    if buffer.multisig != multisig.address {
      return Err(MultisigMismatch);
    }
    if buffer.written != buffer.finalSize {
      return Err(BufferIncomplete);
    }
    if sha(buffer.region[..]) != buffer.finalHash {
      return Err(BufferHashMismatch);
    }
    r := ProcessInitProposal(creator.address, multisig, buffer.region[..],
                             PromoteHeader(instruction, buffer.vaultIndex), runtimeOk);
  }
}
