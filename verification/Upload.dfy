/** Chunked upload: how a message was cut into chunks makes no difference to its proposal. */
module ChunkedUpload {
  import opened Base
  import opened MultisigSpec
  import opened InitSpec
  import opened ProposalSpec
  import opened BufferSpec
  import opened ExecuteSpec
  import opened Machine

  /** What the history has sent to one buffer: its 40-byte header and the message bytes so far. */
  datatype Upload = Upload(header: seq<byte>, data: seq<byte>)

  /** The upload in progress under `key`, read off the successful instructions alone. */
  ghost function Uploaded(log: seq<Event>, key: BufferKey): Option<Upload> {
    if log == [] then None
    else
      var before, e := Uploaded(log[..|log| - 1], key), log[|log| - 1];
      match e
      case BufferCreateEvent(_, instruction, _, _) =>
        if CreatedKey(e) == key && |instruction| >= BUFFER_HEADER_LEN then
          Some(Upload(instruction[..BUFFER_HEADER_LEN], instruction[BUFFER_HEADER_LEN..]))
        else before
      case BufferExtendEvent(k, _, chunk) =>
        if k == key && before.Some? then Some(before.value.(data := before.value.data + chunk)) else before
      case BufferCloseEvent(k, _, _, _) => if k == key then None else before
      case PromoteEvent(k, _, _, _, _) => if k == key then None else before
      case _ => before
  }

  lemma UploadedGrows(log: seq<Event>, e: Event, key: BufferKey)
    requires match e
             case BufferCreateEvent(_, _, _, _) => CreatedKey(e) != key
             case BufferExtendEvent(k, _, _) => k != key
             case BufferCloseEvent(k, _, _, _) => k != key
             case PromoteEvent(k, _, _, _, _) => k != key
             case _ => true
    ensures Uploaded(log + [e], key) == Uploaded(log, key)
  {
    hide CreatedKey;
    assert (log + [e])[..|log + [e]| - 1] == log;
  }

  /** The length committed to in the header. */
  ghost predicate Fits(u: Upload) {
    && |u.header| == BUFFER_HEADER_LEN
    && |u.data| <= LittleEndian32(u.header[32..36]) <= MAX_MESSAGE_SIZE
  }

  /** The buffer an upload leaves: the bytes sent, in order, then zeroes up to the length promised. */
  function BufferOf(self: Address, creator: Address, u: Upload): Buffer
    requires |u.header| == BUFFER_HEADER_LEN && |u.data| <= LittleEndian32(u.header[32..36])
  {
    var size := LittleEndian32(u.header[32..36]);
    Buffer(self, creator, u.header[..32], size, |u.data|, u.header[36], u.header[37], u.header[38],
           u.data + seq(size - |u.data|, i => 0))
  }

  /** A buffer exists exactly while an upload is in progress, and is what was uploaded. */
  ghost predicate BufferAt(s: State, key: BufferKey) {
    match Uploaded(s.log, key)
    case None => key !in s.buffers
    case Some(u) =>
      && Fits(u) && u.header[36] == key.index
      && key in s.buffers && s.buffers[key] == BufferOf(s.self, key.creator, u)
  }

  ghost predicate BuffersOk(s: State) {
    forall key :: BufferAt(s, key)
  }

  lemma CreateAt(env: Env, s: State, e: Event)
    requires e.BufferCreateEvent? && Apply(env, s, e).Ok?
    ensures BufferAt(Apply(env, s, e).value, CreatedKey(e))
  {
    var s' := Apply(env, s, e).value;
    assert s'.log[..|s'.log| - 1] == s.log;
    var header := e.instruction[..BUFFER_HEADER_LEN];
    assert header[32..36] == e.instruction[32..36] && header[..32] == e.instruction[..32];
  }

  lemma ExtendAt(env: Env, s: State, e: Event)
    requires e.BufferExtendEvent? && Apply(env, s, e).Ok? && BufferAt(s, e.key)
    ensures BufferAt(Apply(env, s, e).value, e.key)
  {
    var s' := Apply(env, s, e).value;
    assert s'.log[..|s'.log| - 1] == s.log;
    var u := Uploaded(s.log, e.key).value;
    var v := u.(data := u.data + e.chunk);
    assert s'.buffers[e.key].region == BufferOf(s.self, e.key.creator, v).region;
  }

  lemma GoneAt(env: Env, s: State, e: Event)
    requires (e.BufferCloseEvent? || e.PromoteEvent?) && Apply(env, s, e).Ok?
    ensures BufferAt(Apply(env, s, e).value, e.key)
  {
    hide CloseBuffer, Promote;
    var s' := Apply(env, s, e).value;
    assert s'.log[..|s'.log| - 1] == s.log;
  }

  /** An instruction about something else leaves a buffer and its upload as they were. */
  lemma OtherAt(env: Env, s: State, e: Event, key: BufferKey)
    requires BufferAt(s, key) && Apply(env, s, e).Ok?
    requires match e
             case BufferCreateEvent(_, _, _, _) => CreatedKey(e) != key
             case BufferExtendEvent(k, _, _) => k != key
             case BufferCloseEvent(k, _, _, _) => k != key
             case PromoteEvent(k, _, _, _, _) => k != key
             case _ => true
    ensures BufferAt(Apply(env, s, e).value, key)
  {
    hide CreateBuffer, ExtendBuffer, CloseBuffer, Promote, CreateTransaction, CloseTransaction, Approve,
         Reject, Cancel, ExecuteProposal, SetConfig, CreatedKey, Uploaded, BufferOf, Fits;
    UploadedGrows(s.log, e, key);
  }

  lemma StepKeepsBuffers(env: Env, s: State, e: Event)
    requires BuffersOk(s)
    ensures BuffersOk(Step(env, s, e))
  {
    hide Apply, BufferAt, CreatedKey;
    if Apply(env, s, e).Ok? {
      forall key ensures BufferAt(Apply(env, s, e).value, key) {
        if e.BufferCreateEvent? && CreatedKey(e) == key {
          CreateAt(env, s, e);
        } else if e.BufferExtendEvent? && e.key == key {
          ExtendAt(env, s, e);
        } else if (e.BufferCloseEvent? || e.PromoteEvent?) && e.key == key {
          GoneAt(env, s, e);
        } else {
          OtherAt(env, s, e, key);
        }
      }
    }
  }

  lemma {:induction false} RunKeepsBuffers(env: Env, s: State, es: seq<Event>)
    requires BuffersOk(s)
    ensures BuffersOk(Run(env, s, es))
    decreases |es|
  {
    hide BuffersOk, Step;
    if es != [] {
      StepKeepsBuffers(env, s, es[0]);
      RunKeepsBuffers(env, Step(env, s, es[0]), es[1..]);
    }
  }

  /**
   * In every reachable state a buffer holds exactly the chunks sent to it since it was created,
   * in the order they arrived, whatever else happened in between; its commitments are its creator's.
   */
  lemma BuffersHoldUploads(env: Env, s: State, key: BufferKey)
    requires Reachable(env, s)
    ensures key in s.buffers <==> Uploaded(s.log, key).Some?
    ensures key in s.buffers ==>
              var u := Uploaded(s.log, key).value;
              && Fits(u) && s.buffers[key] == BufferOf(s.self, key.creator, u)
              && s.buffers[key].region[..s.buffers[key].written] == u.data
  {
    hide Run, InitMultisig, BufferAt;
    var self: Address, a: InitArgs, es: seq<Event> :|
      Start(self, a).Ok? && s == Run(env, Start(self, a).value, es);
    assert BuffersOk(Start(self, a).value) by {
      NothingUploaded(self, a);
    }
    RunKeepsBuffers(env, Start(self, a).value, es);
    AtHolds(s, key);
  }

  lemma NothingUploaded(self: Address, a: InitArgs)
    requires Start(self, a).Ok?
    ensures BuffersOk(Start(self, a).value)
  {
  }

  lemma AtHolds(s: State, key: BufferKey)
    requires BufferAt(s, key)
    ensures key in s.buffers <==> Uploaded(s.log, key).Some?
    ensures key in s.buffers ==>
              var u := Uploaded(s.log, key).value;
              && Fits(u) && s.buffers[key] == BufferOf(s.self, key.creator, u)
              && s.buffers[key].region[..s.buffers[key].written] == u.data
  {
    hide Uploaded;
  }

  /** The direct creation of the same message, for the vault the buffer named and the bumps given now. */
  function DirectInstruction(u: Upload, promotion: seq<byte>): seq<byte>
    requires |u.header| == BUFFER_HEADER_LEN && |promotion| == PROMOTE_LEN
  {
    [u.header[37], promotion[1], promotion[0], promotion[2]] + promotion[3..7] + u.data
  }

  /** What promotion asks beyond direct creation: the creator's buffer, complete, with the promised hash. */
  ghost predicate Promotable(env: Env, s: State, e: Event)
    requires e.PromoteEvent?
  {
    && |e.instruction| == PROMOTE_LEN && e.key.creator == e.creator.address
    && match Uploaded(s.log, e.key)
       case None => false
       case Some(u) =>
         && Fits(u) && |u.data| == LittleEndian32(u.header[32..36])
         && env.sha(u.data) == u.header[..32]
  }

  /**
   * Chunking does not matter: promotion is accepted exactly when its gates pass and creating the
   * concatenated chunks directly would be, and it leaves the same multisig and the same proposal.
   */
  lemma PromotionIsCreation(env: Env, s: State, e: Event)
    requires Reachable(env, s) && e.PromoteEvent?
    ensures Apply(env, s, e).Ok?
        <==> Promotable(env, s, e) && Apply(env, s, Direct(s, e)).Ok?
    ensures Apply(env, s, e).Ok? ==>
              var direct, promoted := Apply(env, s, Direct(s, e)).value, Apply(env, s, e).value;
              promoted == direct.(buffers := s.buffers - {e.key}, log := s.log + [e])
  {
    hide Reachable, InitProposal, Uploaded, LittleEndian32;
    BuffersHoldUploads(env, s, e.key);
    if |e.instruction| == PROMOTE_LEN && Uploaded(s.log, e.key).Some? && Fits(Uploaded(s.log, e.key).value) {
      var u := Uploaded(s.log, e.key).value;
      var direct := DirectInstruction(u, e.instruction);
      assert direct[CREATE_HEADER_LEN..] == u.data;
      assert direct[4..8] == e.instruction[3..7];
      assert CreateHeader(direct) == PromoteHeader(e.instruction, u.header[37]);
      var b := s.buffers[e.key];
      if b.written == b.finalSize {
        assert b.region == u.data;
      }
    }
  }

  ghost function Direct(s: State, e: Event): (d: Event)
    requires e.PromoteEvent?
  {
    var upload := Uploaded(s.log, e.key);
    CreateEvent(e.creator,
                if |e.instruction| == PROMOTE_LEN && upload.Some? && Fits(upload.value)
                then DirectInstruction(upload.value, e.instruction) else [],
                e.vacant, e.runtimeOk)
  }
}
