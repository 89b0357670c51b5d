/** A proposal as a value, with its votes as sets of owner positions, and the steps on it. */
module ProposalSpec {
  import opened Base
  import opened OwnerSet
  import opened MultisigSpec
  import opened MessageCodec

  datatype Status = Active | Approved | Rejected | Executed | Cancelled

  datatype Proposal = Proposal(
    multisig: Address, creator: Address, index: nat, approvedAt: i64, ownersCount: nat,
    approved: set<nat>, rejected: set<nat>, cancelled: set<nat>,
    approvedCount: nat, rejectedCount: nat, cancelledCount: nat,
    status: Status, vaultIndex: byte, vaultBump: byte, bump: byte,
    ephemeralCount: byte, ephemeralBumps: seq<byte>, message: seq<byte>)

  /** What a vote handler needs from the multisig. */
  datatype Voter = Voter(
    index: nat, threshold: nat, cutoff: nat, ownersCount: nat, staleIndex: nat, canVote: bool)

  function StatusFromByte(b: byte): Result<Status> {
    if b == 0 then Ok(Active) else if b == 1 then Ok(Approved) else if b == 2 then Ok(Rejected)
    else if b == 3 then Ok(Executed) else if b == 4 then Ok(Cancelled) else Err(UnknownStatus)
  }

  function StatusByte(s: Status): (b: byte)
    ensures StatusFromByte(b) == Ok(s)
  {
    match s
    case Active => 0
    case Approved => 1
    case Rejected => 2
    case Executed => 3
    case Cancelled => 4
  }

  /** `invariant`: the constant-time checks on a proposal's header. */
  function CheckCounts(
    ownersCount: nat, approvedCount: nat, rejectedCount: nat, cancelledCount: nat,
    messageLen: nat, ephemeralCount: nat): Outcome
  {
    if ownersCount == 0 || ownersCount > MAX_OWNER then Err(InvalidOwnerCount)
    else if approvedCount + rejectedCount > ownersCount || cancelledCount > ownersCount then
      Err(InvalidAccountData)
    else if messageLen > MAX_MESSAGE_SIZE then Err(InvalidMessage)
    else if ephemeralCount > MAX_EPHEMERAL_SIGNERS then Err(InvalidAccountData)
    else Ok(())
  }

  /** Ends a step: the header is checked. */
  function Checked(p: Proposal): Result<Proposal> {
    match CheckCounts(p.ownersCount, p.approvedCount, p.rejectedCount, p.cancelledCount,
                      |p.message|, p.ephemeralCount)
    case Ok(_) => Ok(p)
    case Err(e) => Err(e)
  }

  ghost function Prepare(m: Multisig, signer: Signer, instruction: seq<byte>, requireVote: bool): Result<Voter>
    requires LayoutOk(m)
  {
    var r := m.rules;
    if instruction != [] then Err(InvalidInstructionData)
    else if !signer.signed then Err(MissingSignature)
    else if signer.address !in r.owners then Err(NotAnOwner)
    else
      var k := PositionOf(r.owners, signer.address);
      var canVote := MaskCanVote(r.permissions[k]);
      if requireVote && !canVote then Err(Unauthorized)
      else Ok(Voter(k, r.threshold, Cutoff(r), |r.owners|, m.staleTransactionIndex, canVote))
  }

  function CheckVotable(
    stored: Address, status: Status, index: nat, ownersCount: nat,
    multisig: Address, voter: Voter, expected: Status): (r: Outcome)
    ensures r.Ok? <==> && stored == multisig && status == expected
                       && index > voter.staleIndex && ownersCount == voter.ownersCount
  {
    if stored != multisig then Err(MultisigMismatch)
    else if status != expected then Err(InvalidStatus)
    else if index <= voter.staleIndex then Err(StaleTransaction)
    else if ownersCount != voter.ownersCount then Err(StaleTransaction)
    else Ok(())
  }

  ghost predicate HasVoted(p: Proposal, index: nat) {
    index in p.approved || index in p.rejected || index in p.cancelled
  }

  ghost function Approve(
    m: Multisig, self: Address, p: Proposal, owner: Signer, instruction: seq<byte>, now: i64): Result<Proposal>
    requires LayoutOk(m)
  {
    var voter :- Prepare(m, owner, instruction, true);
    var votable := CheckVotable(p.multisig, p.status, p.index, p.ownersCount, self, voter, Active);
    if votable.Err? then Err(votable.error)
    else if HasVoted(p, voter.index) then Err(AlreadyVoted)
    else
      var count := Wrap32(p.approvedCount + 1);
      var q := p.(approved := p.approved + {voter.index}, approvedCount := count);
      Checked(if count >= voter.threshold then q.(status := Approved, approvedAt := now) else q)
  }

  ghost function Reject(
    m: Multisig, self: Address, p: Proposal, owner: Signer, instruction: seq<byte>): Result<Proposal>
    requires LayoutOk(m)
  {
    var voter :- Prepare(m, owner, instruction, true);
    var votable := CheckVotable(p.multisig, p.status, p.index, p.ownersCount, self, voter, Active);
    if votable.Err? then Err(votable.error)
    else if HasVoted(p, voter.index) then Err(AlreadyVoted)
    else
      var count := Wrap32(p.rejectedCount + 1);
      var q := p.(rejected := p.rejected + {voter.index}, rejectedCount := count);
      Checked(if count >= voter.cutoff then q.(status := Rejected) else q)
  }

  ghost function Cancel(
    m: Multisig, self: Address, p: Proposal, signer: Signer, instruction: seq<byte>): Result<Proposal>
    requires LayoutOk(m)
  {
    var voter :- Prepare(m, signer, instruction, false);
    match p.status
    case Active =>
      var votable := CheckVotable(p.multisig, p.status, p.index, p.ownersCount, self, voter, Active);
      if votable.Err? then Err(votable.error)
      else if p.creator != signer.address then Err(InvalidAccount)
      else Checked(p.(status := Cancelled))
    case Approved =>
      var votable := CheckVotable(p.multisig, p.status, p.index, p.ownersCount, self, voter, Approved);
      if votable.Err? then Err(votable.error)
      else if !voter.canVote then Err(Unauthorized)
      else if voter.index in p.cancelled then Err(AlreadyVoted)
      else
        var count := Wrap32(p.cancelledCount + 1);
        var q := p.(cancelled := p.cancelled + {voter.index}, cancelledCount := count);
        Checked(if count >= voter.threshold then q.(status := Cancelled) else q)
    case _ => Err(InvalidStatus)
  }

  /** What a proposal is created from besides its message. */
  datatype Header = Header(
    vaultIndex: byte, vaultBump: byte, bump: byte, ephemeralCount: byte, ephemeralBumps: seq<byte>)

  /** Reserves the next index and stores a fresh proposal at it. */
  ghost function InitProposal(
    m: Multisig, self: Address, creator: Address, message: seq<byte>, h: Header, runtimeOk: bool)
    : Result<(Multisig, Proposal)>
    requires LayoutOk(m)
  {
    var r := m.rules;
    if h.ephemeralCount > MAX_EPHEMERAL_SIGNERS then Err(InvalidInstructionData)
    else if |message| > MAX_MESSAGE_SIZE then Err(InvalidMessage)
    else if Decode(message).None? then Err(InvalidMessage)
    else if creator !in r.owners then Err(NotAnOwner)
    else if !MaskAllows(r.permissions[PositionOf(r.owners, creator)], Initiate) then Err(Unauthorized)
    else if m.transactionIndex + 1 >= U64_LIMIT then Err(Overflow)
    else if !runtimeOk then Err(RuntimeFailure)
    else
      var p :- Checked(Proposal(
        self, creator, m.transactionIndex + 1, 0, |r.owners|, {}, {}, {}, 0, 0, 0, Active,
        h.vaultIndex, h.vaultBump, h.bump, h.ephemeralCount, h.ephemeralBumps, message));
      Ok((m.(transactionIndex := m.transactionIndex + 1), p))
  }

  const CREATE_HEADER_LEN := 8

  function CreateHeader(instruction: seq<byte>): Header
    requires |instruction| >= CREATE_HEADER_LEN
  {
    Header(instruction[0], instruction[1], instruction[2], instruction[3], instruction[4..8])
  }

  /** `vacant` is whether the account to create holds neither data nor lamports. */
  ghost function CreateTransaction(
    m: Multisig, self: Address, creator: Signer, instruction: seq<byte>, vacant: bool, runtimeOk: bool)
    : Result<(Multisig, Proposal)>
    requires LayoutOk(m)
  {
    if !creator.signed then Err(MissingSignature)
    else if !vacant then Err(AlreadyInitialized)
    else if |instruction| < CREATE_HEADER_LEN then Err(InvalidInstructionData)
    else
      InitProposal(m, self, creator.address, instruction[CREATE_HEADER_LEN..],
                   CreateHeader(instruction), runtimeOk)
  }

  predicate Terminal(s: Status) {
    s == Executed || s == Rejected || s == Cancelled
  }

  /** Where a closed proposal's rent goes. */
  function RentDestination(collector: Address, creator: Address): Address {
    if collector == DEFAULT_ADDRESS then creator else collector
  }

  function CloseTransaction(
    m: Multisig, self: Address, p: Proposal, destination: Address, instruction: seq<byte>, runtimeOk: bool)
    : Result<Multisig>
  {
    var after := m.(closedTransactionCount := m.closedTransactionCount + 1);
    if instruction != [] then Err(InvalidInstructionData)
    else if m.closedTransactionCount + 1 >= U64_LIMIT then Err(Overflow)
    else if CheckHeader(after).Err? then Err(CheckHeader(after).error)
    else if p.multisig != self then Err(MultisigMismatch)
    else if RentDestination(m.rules.rentCollector, p.creator) != destination then Err(InvalidAccount)
    else if !Terminal(p.status) then Err(InvalidStatus)
    else if !runtimeOk then Err(RuntimeFailure)
    else Ok(after)
  }
}
