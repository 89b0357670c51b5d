/** The protocol: one multisig, its proposals and buffers, and every instruction as a step. */
module Machine {
  import opened Base
  import opened MultisigSpec
  import opened InitSpec
  import opened ProposalSpec
  import opened BufferSpec
  import opened ExecuteSpec

  datatype BufferKey = BufferKey(creator: Address, index: byte)

  datatype Event =
    | CreateEvent(creator: Signer, instruction: seq<byte>, vacant: bool, runtimeOk: bool)
    | ApproveEvent(index: nat, owner: Signer, instruction: seq<byte>, now: i64)
    | RejectEvent(index: nat, owner: Signer, instruction: seq<byte>)
    | CancelEvent(index: nat, owner: Signer, instruction: seq<byte>)
    | ExecuteEvent(index: nat, call: Call)
    | CloseEvent(index: nat, destination: Address, instruction: seq<byte>, runtimeOk: bool)
    | SetConfigEvent(authority: Signer, data: seq<byte>, runtimeOk: bool)
    | BufferCreateEvent(creator: Signer, instruction: seq<byte>, vacant: bool, runtimeOk: bool)
    | BufferExtendEvent(key: BufferKey, creator: Signer, chunk: seq<byte>)
    | BufferCloseEvent(key: BufferKey, creator: Signer, instruction: seq<byte>, runtimeOk: bool)
    | PromoteEvent(key: BufferKey, creator: Signer, instruction: seq<byte>, vacant: bool, runtimeOk: bool)

  /** What the runtime fixes for the whole run. */
  datatype Env = Env(programId: Address, sha: seq<byte> -> seq<byte>)

  /**
   * The accounts are `ms`, `props[i]` for `i` in `open`, and `buffers`. The rest is history that
   * no step reads: the last state of each closed proposal, the rules in force when each
   * proposal was created, and the instructions that succeeded.
   */
  datatype State = State(
    self: Address, ms: Option<Multisig>,
    props: map<nat, Proposal>, open: set<nat>, buffers: map<BufferKey, Buffer>,
    snaps: map<nat, Rules>, log: seq<Event>)

  datatype InitArgs = InitArgs(
    creatorSigned: bool, createKey: Signer, instruction: seq<byte>, vacant: bool, runtimeOk: bool)

  ghost function Start(self: Address, a: InitArgs): Result<State> {
    match InitMultisig(a.creatorSigned, a.createKey, a.instruction, a.vacant, a.runtimeOk)
    case Err(e) => Err(e)
    case Ok(m) => Ok(State(self, Some(m), map[], {}, map[], map[], []))
  }

  /** The multisig account exists and parses. */
  ghost predicate Live(s: State) {
    s.ms.Some? && LayoutOk(s.ms.value)
  }

  ghost function Opened(s: State, m: Multisig, p: Proposal, e: Event): State {
    s.(ms := Some(m), props := s.props[p.index := p], open := s.open + {p.index},
       snaps := s.snaps[p.index := m.rules], log := s.log + [e])
  }

  ghost function Updated(s: State, i: nat, p: Proposal, e: Event): State {
    s.(props := s.props[i := p], log := s.log + [e])
  }

  /** One instruction. Instructions are atomic: an error leaves no successor. */
  ghost function Apply(env: Env, s: State, e: Event): Result<State> {
    match e
    case CreateEvent(creator, instruction, vacant, runtimeOk) =>
      if !Live(s) then Err(IllegalOwner)
      else
        var out := CreateTransaction(s.ms.value, s.self, creator, instruction, vacant, runtimeOk);
        if out.Err? then Err(out.error) else Ok(Opened(s, out.value.0, out.value.1, e))
    case ApproveEvent(i, owner, instruction, now) =>
      if !Live(s) || i !in s.open || i !in s.props then Err(IllegalOwner)
      else
        var out := Approve(s.ms.value, s.self, s.props[i], owner, instruction, now);
        if out.Err? then Err(out.error) else Ok(Updated(s, i, out.value, e))
    case RejectEvent(i, owner, instruction) =>
      if !Live(s) || i !in s.open || i !in s.props then Err(IllegalOwner)
      else
        var out := Reject(s.ms.value, s.self, s.props[i], owner, instruction);
        if out.Err? then Err(out.error) else Ok(Updated(s, i, out.value, e))
    case CancelEvent(i, owner, instruction) =>
      if !Live(s) || i !in s.open || i !in s.props then Err(IllegalOwner)
      else
        var out := Cancel(s.ms.value, s.self, s.props[i], owner, instruction);
        if out.Err? then Err(out.error) else Ok(Updated(s, i, out.value, e))
    case ExecuteEvent(i, call) =>
      if !Live(s) || i !in s.open || i !in s.props then Err(IllegalOwner)
      else
        var out := ExecuteProposal(s.ms.value, s.self, s.props[i], call.(programId := env.programId));
        if out.Err? then Err(out.error)
        else Ok(Updated(s, i, out.value.1, e).(ms := out.value.0))
    case CloseEvent(i, destination, instruction, runtimeOk) =>
      if !Live(s) || i !in s.open || i !in s.props then Err(IllegalOwner)
      else
        var out := CloseTransaction(s.ms.value, s.self, s.props[i], destination, instruction, runtimeOk);
        if out.Err? then Err(out.error)
        else Ok(s.(ms := Some(out.value), open := s.open - {i}, log := s.log + [e]))
    case SetConfigEvent(authority, data, runtimeOk) =>
      if !Live(s) then Err(IllegalOwner)
      else
        var out := SetConfig(s.ms, authority, data, runtimeOk);
        if out.Err? then Err(out.error) else Ok(s.(ms := out.value, log := s.log + [e]))
    case BufferCreateEvent(creator, instruction, vacant, runtimeOk) =>
      if !Live(s) then Err(IllegalOwner)
      else
        var out := CreateBuffer(s.ms.value, s.self, creator, instruction,
                                vacant && CreatedKey(e) !in s.buffers, runtimeOk);
        if out.Err? then Err(out.error)
        else Ok(s.(buffers := s.buffers[CreatedKey(e) := out.value], log := s.log + [e]))
    case BufferExtendEvent(key, creator, chunk) =>
      if key !in s.buffers || !BufferInv(s.buffers[key]) then Err(InvalidAccountData)
      else
        var out := ExtendBuffer(s.buffers[key], creator, chunk);
        if out.Err? then Err(out.error)
        else Ok(s.(buffers := s.buffers[key := out.value], log := s.log + [e]))
    case BufferCloseEvent(key, creator, instruction, runtimeOk) =>
      if key !in s.buffers then Err(InvalidAccountData)
      else
        var out := CloseBuffer(s.buffers[key], creator, instruction, runtimeOk);
        if out.Err? then Err(out.error)
        else Ok(s.(buffers := s.buffers - {key}, log := s.log + [e]))
    case PromoteEvent(key, creator, instruction, vacant, runtimeOk) =>
      if !Live(s) then Err(IllegalOwner)
      else if key !in s.buffers then Err(InvalidAccountData)
      else
        var out := Promote(s.ms.value, s.self, s.buffers[key], creator, instruction, vacant, runtimeOk, env.sha);
        if out.Err? then Err(out.error)
        else Ok(Opened(s, out.value.0, out.value.1, e).(buffers := s.buffers - {key}))
  }

  /** The address of a buffer is derived from its creator and index, so it exists at most once. */
  function CreatedKey(e: Event): BufferKey
    requires e.BufferCreateEvent?
  {
    BufferKey(e.creator.address, if |e.instruction| > 36 then e.instruction[36] else 0)
  }

  ghost function Step(env: Env, s: State, e: Event): State {
    var out := Apply(env, s, e);
    if out.Ok? then out.value else s
  }

  ghost function Run(env: Env, s: State, es: seq<Event>): State
    decreases |es|
  {
    if es == [] then s else Run(env, Step(env, s, es[0]), es[1..])
  }

  /** Some opening and some finite sequence of attempted instructions lead to `s`. */
  ghost predicate Reachable(env: Env, s: State) {
    exists self: Address, a: InitArgs, es: seq<Event> ::
      Start(self, a).Ok? && s == Run(env, Start(self, a).value, es)
  }

  // Reading the history

  predicate Touches(e: Event, i: nat) {
    match e
    case ApproveEvent(j, _, _, _) => i == j
    case RejectEvent(j, _, _) => i == j
    case CancelEvent(j, _, _) => i == j
    case ExecuteEvent(j, _) => i == j
    case CloseEvent(j, _, _, _) => i == j
    case _ => false
  }

  /** Successful votes, cancellations, executions and closures of proposal `i`. */
  ghost function Steps(log: seq<Event>, i: nat): nat {
    if log == [] then 0
    else Steps(log[..|log| - 1], i) + if Touches(log[|log| - 1], i) then 1 else 0
  }

  ghost function Executions(log: seq<Event>, i: nat): nat {
    if log == [] then 0
    else Executions(log[..|log| - 1], i)
         + if log[|log| - 1].ExecuteEvent? && log[|log| - 1].index == i then 1 else 0
  }

  ghost predicate ApprovedBy(log: seq<Event>, i: nat, who: Address) {
    exists j :: 0 <= j < |log| && log[j].ApproveEvent? && log[j].index == i && log[j].owner == Signer(who, true)
  }

  ghost predicate RejectedBy(log: seq<Event>, i: nat, who: Address) {
    exists j :: 0 <= j < |log| && log[j].RejectEvent? && log[j].index == i && log[j].owner == Signer(who, true)
  }

  ghost predicate CancelledBy(log: seq<Event>, i: nat, who: Address) {
    exists j :: 0 <= j < |log| && log[j].CancelEvent? && log[j].index == i && log[j].owner == Signer(who, true)
  }

  /** The last approval of `i` was stamped at time `t`. */
  ghost predicate StampedAt(log: seq<Event>, i: nat, t: i64) {
    exists j ::
      && 0 <= j < |log| && log[j].ApproveEvent? && log[j].index == i && log[j].now == t
      && forall k :: j < k < |log| && log[k].ApproveEvent? ==> log[k].index != i
  }
}
