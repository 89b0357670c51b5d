/** Bytes, addresses, outcomes and limits shared by every component. */
module Base {

  type byte = x: int | 0 <= x < 256

  type Address = a: seq<byte> | |a| == 32 witness seq(32, i => 0)

  const DEFAULT_ADDRESS: Address :=
    [0, 0, 0, 0, 0, 0, 0, 0, 0, 0, 0, 0, 0, 0, 0, 0,
     0, 0, 0, 0, 0, 0, 0, 0, 0, 0, 0, 0, 0, 0, 0, 0]

  const MAX_OWNER := 4096
  const MAX_TIME_LOCK := 3 * 30 * 24 * 60 * 60
  const MAX_MESSAGE_SIZE := 4096
  const MAX_CPI_ACCOUNTS := 32
  const MAX_EPHEMERAL_SIGNERS := 4

  const U32_LIMIT := 0x1_0000_0000
  const U64_LIMIT := 0x1_0000_0000_0000_0000

  /** A signed 64-bit unix time, in seconds. */
  type i64 = x: int | -0x8000_0000_0000_0000 <= x < 0x8000_0000_0000_0000

  /** An account as an instruction sees a possible signer. */
  datatype Signer = Signer(address: Address, signed: bool)

  datatype Error =
    | InvalidAccountData
    | MissingSignature
    | InvalidAccount
    | AlreadyInitialized
    | InvalidInstructionData
    | InvalidOwnerCount
    | InvalidThreshold
    | OwnersNotSorted
    | NotAnOwner
    | AlreadyVoted
    | StaleTransaction
    | InvalidStatus
    | UnknownStatus
    | MultisigMismatch
    | AccountMismatch
    | NotEnoughAccounts
    | IllegalOwner
    | Overflow
    | OwnerAlreadyExists
    | UnknownConfigAction
    | InvalidTimeLock
    | TimeLockNotReleased
    | InvalidMessage
    | TooManyAccounts
    | BufferIncomplete
    | BufferHashMismatch
    | InvalidLookupTable
    | UnknownPermission
    | NoVoters
    | Unauthorized
    | TransactionsOutstanding
    | NotControlled
    | RuntimeFailure // a rent transfer, account creation or external call the runtime refused

  datatype Option<+T> = None | Some(value: T) {
    predicate IsFailure() { None? }

    function PropagateFailure<U>(): Option<U>
      requires None?
    {
      None
    }

    function Extract(): T
      requires Some?
    {
      value
    }
  }

  datatype Result<+T> = Ok(value: T) | Err(error: Error) {
    predicate IsFailure() { Err? }

    function PropagateFailure<U>(): Result<U>
      requires Err?
    {
      Err(error)
    }

    function Extract(): T
      requires Ok?
    {
      value
    }
  }

  type Outcome = Result<()>

  function Check(condition: bool, error: Error): Outcome {
    if condition then Ok(()) else Err(error)
  }

  /** 32-bit addition without overflow checks. */
  function Wrap32(x: int): nat {
    x % U32_LIMIT
  }

  function LittleEndian32(b: seq<byte>): (n: nat)
    requires |b| == 4
    ensures n < U32_LIMIT
  {
    (b[0] as int) + 0x100 * (b[1] as int) + 0x1_0000 * (b[2] as int) + 0x100_0000 * (b[3] as int)
  }

  /** The derived order on addresses: lexicographic on bytes. */
  predicate Less(a: seq<byte>, b: seq<byte>) {
    |b| > 0 && (|a| == 0 || a[0] < b[0] || (a[0] == b[0] && Less(a[1..], b[1..])))
  }

  lemma {:induction false} LessIrreflexive(a: seq<byte>)
    ensures !Less(a, a)
  {
    if a != [] {
      LessIrreflexive(a[1..]);
    }
  }

  lemma {:induction false} LessTransitive(a: seq<byte>, b: seq<byte>, c: seq<byte>)
    requires Less(a, b) && Less(b, c)
    ensures Less(a, c)
  {
    if a != [] && a[0] == b[0] && b[0] == c[0] {
      LessTransitive(a[1..], b[1..], c[1..]);
    }
  }

  lemma {:induction false} LessTotal(a: seq<byte>, b: seq<byte>)
    requires |a| == |b| && a != b
    ensures Less(a, b) || Less(b, a)
  {
    if a[0] == b[0] {
      assert a == [a[0]] + a[1..] && b == [b[0]] + b[1..];
      LessTotal(a[1..], b[1..]);
    }
  }

  function InsertAt<T>(s: seq<T>, k: nat, x: T): (r: seq<T>)
    requires k <= |s|
    ensures |r| == |s| + 1
  {
    s[..k] + [x] + s[k..]
  }

  function RemoveAt<T>(s: seq<T>, k: nat): (r: seq<T>)
    requires k < |s|
    ensures |r| == |s| - 1
  {
    s[..k] + s[k + 1..]
  }
}
