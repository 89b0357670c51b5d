/** The program's cursor, parser and iterators over a message blob, and the client's printer. */
module MessageParser {
  import opened Base
  import opened MessageCodec
  import OwnerBytes

  class Cursor {
    const data: seq<byte>
    var pos: nat

    ghost predicate Valid()
      reads this
    {
      pos <= |data|
    }

    /** The bytes not yet read. */
    ghost function Rest(): seq<byte>
      requires Valid()
      reads this
    {
      data[pos..]
    }

    constructor (data: seq<byte>)
      ensures Valid() && this.data == data && pos == 0
    {
      this.data := data;
      pos := 0;
    }

    function Remaining(): (n: nat)
      requires Valid()
      reads this
      ensures n == |Rest()|
    {
      |data| - pos
    }

    method Take(len: nat) returns (r: Result<seq<byte>>)
      requires Valid()
      modifies this
      ensures Valid()
      ensures r.Ok? == (old(pos) + len <= |data|)
      ensures r.Ok? ==> pos == old(pos) + len && r.value == data[old(pos)..pos]
      ensures r.Err? ==> r.error == InvalidMessage && pos == old(pos)
    {
      if Remaining() < len {
        return Err(InvalidMessage);
      }
      r := Ok(data[pos..pos + len]);
      pos := pos + len;
    }

    method TakeU8() returns (r: Result<byte>)
      requires Valid()
      modifies this
      ensures Valid()
      ensures r.Ok? == (old(pos) + 1 <= |data|)
      ensures r.Ok? ==> r.value == data[old(pos)] && pos == old(pos) + 1
      ensures r.Err? ==> r.error == InvalidMessage && pos == old(pos)
    {
      var bytes :- Take(1);
      r := Ok(bytes[0]);
    }

    method TakeU16() returns (r: Result<nat>)
      requires Valid()
      modifies this
      ensures Valid()
      ensures r.Ok? == (old(pos) + 2 <= |data|)
      ensures r.Ok? ==>
                && r.value == data[old(pos)] as nat + 0x100 * (data[old(pos) + 1] as nat)
                && pos == old(pos) + 2
      ensures r.Err? ==> r.error == InvalidMessage && pos == old(pos)
    {
      var bytes :- Take(2);
      r := Ok(bytes[0] as nat + 0x100 * (bytes[1] as nat));
    }

    /** `InstructionIter::read`. */
    method ReadInstruction() returns (r: Result<Instruction>)
      requires Valid()
      modifies this
      ensures Valid()
      ensures pos >= old(pos)
      ensures var t := TakeInstruction(old(Rest()));
              && r.Ok? == t.Some?
              && (r.Err? ==> r.error == InvalidMessage)
              && (r.Ok? ==> r.value == t.value.0 && Rest() == t.value.1)
    {
      ghost var p, b := pos, Rest();
      var program :- TakeU8();
      var indexesLen :- TakeU8();
      var accounts :- Take(indexesLen);
      var dataLen :- TakeU16();
      var payload :- Take(dataLen);
      r := Ok(Instruction(program, accounts, payload));
      ghost var n: nat := indexesLen;
      SliceOfRest(data, p, 2, 2 + n);
      SliceOfRest(data, p, 4 + n, 4 + n + dataLen);
      RestOfRest(data, p, 4 + n + dataLen);
      assert b[0] == program && b[1] == n;
      assert b[2 + n] as nat + 0x100 * (b[3 + n] as nat) == dataLen;
    }

    /** `LookupIter::read`. */
    method ReadLookup() returns (r: Result<Lookup>)
      requires Valid()
      modifies this
      ensures Valid()
      ensures pos >= old(pos)
      ensures var t := TakeLookup(old(Rest()));
              && r.Ok? == t.Some?
              && (r.Err? ==> r.error == InvalidMessage)
              && (r.Ok? ==> r.value == t.value.0 && Rest() == t.value.1)
    {
      ghost var p, b := pos, Rest();
      var key :- Take(32);
      var writableLen :- TakeU8();
      var writable :- Take(writableLen);
      var readonlyLen :- TakeU8();
      var readonly :- Take(readonlyLen);
      r := Ok(Lookup(key, writable, readonly));
      ghost var at := 34 + writableLen as nat;
      SliceOfRest(data, p, 0, 32);
      SliceOfRest(data, p, 33, 33 + writableLen as nat);
      SliceOfRest(data, p, at, at + readonlyLen as nat);
      RestOfRest(data, p, at + readonlyLen as nat);
    }
  }

  lemma SliceOfRest(data: seq<byte>, p: nat, i: nat, j: nat)
    requires p + j <= |data| && i <= j
    ensures data[p..][i..j] == data[p + i..p + j]
  {
  }

  lemma RestOfRest(data: seq<byte>, p: nat, i: nat)
    requires p + i <= |data|
    ensures data[p..][i..] == data[p + i..]
  {
  }

  datatype MessageHeader = MessageHeader(
    numSigners: byte, numWritableSigners: byte, numWritableNonSigners: byte,
    numAccountKeys: byte, numInstructions: byte, numLookups: byte)

  /** A parsed message, borrowing its instructions and lookups as undecoded slices. */
  datatype MessageView = MessageView(
    header: MessageHeader, accountKeys: seq<Address>, instructions: seq<byte>, lookups: seq<byte>,
    numAllKeys: nat, numWritableLookupKeys: nat)
  {
    predicate IsWritable(index: nat) {
      if index >= header.numAccountKeys then index - header.numAccountKeys < numWritableLookupKeys
      else if index < header.numWritableSigners then true
      else if index < header.numSigners then false
      else index - header.numSigners < header.numWritableNonSigners
    }

    predicate IsSigner(index: nat) {
      index < header.numSigners
    }
  }

  /** `v` is what parsing the encoding of `m` should yield. */
  ghost predicate ViewOf(v: MessageView, m: Message) {
    && v.header.numSigners == m.numSigners
    && v.header.numWritableSigners == m.numWritableSigners
    && v.header.numWritableNonSigners == m.numWritableNonSigners
    && v.header.numAccountKeys == |m.keys|
    && v.header.numInstructions == |m.instructions|
    && v.header.numLookups == |m.lookups|
    && v.accountKeys == m.keys
    && v.instructions == EncodeInstructions(m.instructions)
    && v.lookups == EncodeLookups(m.lookups)
    && v.numAllKeys == NumAllKeys(m)
    && v.numWritableLookupKeys == WritableCount(m.lookups)
  }

  /** Walking a slice with no count, until nothing remains or an item does not parse. */
  function WalkInstructions(b: seq<byte>): seq<Option<Instruction>>
    decreases |b|
  {
    if b == [] then []
    else
      match TakeInstruction(b)
      case None => [None]
      case Some((ix, rest)) => [Some(ix)] + WalkInstructions(rest)
  }

  function WalkLookups(b: seq<byte>): seq<Option<Lookup>>
    decreases |b|
  {
    if b == [] then []
    else
      match TakeLookup(b)
      case None => [None]
      case Some((l, rest)) => [Some(l)] + WalkLookups(rest)
  }

  /** The uncounted walk finds every instruction, in order, and nothing else. */
  lemma {:induction false} WalkFindsInstructions(ixs: seq<Instruction>)
    requires forall i :: 0 <= i < |ixs| ==> InstructionFits(ixs[i])
    ensures WalkInstructions(EncodeInstructions(ixs)) == seq(|ixs|, i requires 0 <= i < |ixs| => Some(ixs[i]))
  {
    hide TakeInstruction, EncodeInstruction, InstructionFits;
    if ixs != [] {
      EncodedNotEmpty(ixs[0]);
      TakeEncodedInstruction(ixs[0], EncodeInstructions(ixs[1..]));
      WalkFindsInstructions(ixs[1..]);
    }
  }

  lemma {:induction false} WalkFindsLookups(ls: seq<Lookup>)
    requires forall i :: 0 <= i < |ls| ==> LookupFits(ls[i])
    ensures WalkLookups(EncodeLookups(ls)) == seq(|ls|, i requires 0 <= i < |ls| => Some(ls[i]))
  {
    hide TakeLookup, EncodeLookup, LookupFits;
    if ls != [] {
      EncodedLookupNotEmpty(ls[0]);
      TakeEncodedLookup(ls[0], EncodeLookups(ls[1..]));
      WalkFindsLookups(ls[1..]);
    }
  }

  lemma SliceOfSlice(b: seq<byte>, to: nat, at: nat)
    requires at + 32 <= to <= |b|
    ensures b[..to][at..at + 32] == b[at..at + 32]
  {
  }

  lemma KeyAfterFirst(b: seq<byte>, n: nat, i: nat)
    requires 0 < i < n && 32 * n <= |b|
    ensures OwnerBytes.OwnersIn(b[..32 * n], n)[i]
         == OwnerBytes.OwnersIn(b[32..][..32 * (n - 1)], n - 1)[i - 1]
  {
    SliceOfSlice(b, 32 * n, 32 * i);
    SliceOfSlice(b[32..], 32 * (n - 1), 32 * (i - 1));
    assert b[32..][32 * (i - 1)..32 * (i - 1) + 32] == b[32 * i..32 * i + 32];
  }

  lemma {:induction false} KeysAreSlices(b: seq<byte>, n: nat)
    ensures TakeKeys(b, n)
         == if |b| < 32 * n then None else Some((OwnerBytes.OwnersIn(b[..32 * n], n), b[32 * n..]))
  {
    if n > 0 && |b| >= 32 {
      KeysAreSlices(b[32..], n - 1);
      if |b| >= 32 * n {
        var keys := OwnerBytes.OwnersIn(b[..32 * n], n);
        var rest := OwnerBytes.OwnersIn(b[32..][..32 * (n - 1)], n - 1);
        assert keys[0] == b[..32];
        forall i | 0 < i < n ensures keys[i] == rest[i - 1] {
          KeyAfterFirst(b, n, i);
        }
        assert keys == [b[..32]] + rest;
      }
    } else if n == 0 {
      assert OwnerBytes.OwnersIn(b[..0], 0) == [];
    }
  }

  /** Iterates a message's instructions without a count. */
  class InstructionIter {
    const cursor: Cursor

    constructor (slice: seq<byte>)
      ensures fresh(cursor) && cursor.Valid() && cursor.Rest() == slice
    {
      cursor := new Cursor(slice);
    }

    method Next() returns (r: Option<Result<Instruction>>)
      requires cursor.Valid()
      modifies cursor
      ensures cursor.Valid()
      ensures r.None? == (old(cursor.Rest()) == [])
      ensures r.Some? ==>
                var t := TakeInstruction(old(cursor.Rest()));
                && r.value.Ok? == t.Some?
                && (r.value.Err? ==> r.value.error == InvalidMessage)
                && (r.value.Ok? ==> r.value.value == t.value.0 && cursor.Rest() == t.value.1)
    {
      if cursor.Remaining() == 0 {
        return None;
      }
      var item := cursor.ReadInstruction();
      r := Some(item);
    }
  }

  /** Iterates a message's lookup table references without a count. */
  class LookupIter {
    const cursor: Cursor

    constructor (slice: seq<byte>)
      ensures fresh(cursor) && cursor.Valid() && cursor.Rest() == slice
    {
      cursor := new Cursor(slice);
    }

    method Next() returns (r: Option<Result<Lookup>>)
      requires cursor.Valid()
      modifies cursor
      ensures cursor.Valid()
      ensures r.None? == (old(cursor.Rest()) == [])
      ensures r.Some? ==>
                var t := TakeLookup(old(cursor.Rest()));
                && r.value.Ok? == t.Some?
                && (r.value.Err? ==> r.value.error == InvalidMessage)
                && (r.value.Ok? ==> r.value.value == t.value.0 && cursor.Rest() == t.value.1)
    {
      if cursor.Remaining() == 0 {
        return None;
      }
      var item := cursor.ReadLookup();
      r := Some(item);
    }
  }

  ghost function After<T>(done: seq<T>, t: Option<(seq<T>, seq<byte>)>): Option<(seq<T>, seq<byte>)> {
    match t
    case None => None
    case Some((items, rest)) => Some((done + items, rest))
  }

  lemma AfterNothing<T>(t: Option<(seq<T>, seq<byte>)>)
    ensures After([], t) == t
  {
    if t.Some? {
      assert [] + t.value.0 == t.value.0;
    }
  }

  /** The first walk of `parse` over the instructions, which only finds where they end. */
  method SkipInstructions(cursor: Cursor, n: nat) returns (r: Outcome)
    requires cursor.Valid()
    modifies cursor
    ensures cursor.Valid() && cursor.pos >= old(cursor.pos)
    ensures var t := TakeInstructions(old(cursor.Rest()), n);
            && r.Ok? == t.Some?
            && (r.Err? ==> r.error == InvalidMessage)
            && (r.Ok? ==> cursor.Rest() == t.value.1)
  {
    hide TakeInstruction;
    ghost var b := cursor.Rest();
    ghost var done: seq<Instruction> := [];
    AfterNothing(TakeInstructions(b, n));
    for i := 0 to n
      invariant cursor.Valid() && cursor.pos >= old(cursor.pos)
      invariant After(done, TakeInstructions(cursor.Rest(), n - i)) == TakeInstructions(b, n)
    {
      var ix :- cursor.ReadInstruction();
      ghost var t := TakeInstructions(cursor.Rest(), n - i - 1);
      if t.Some? {
        assert done + ([ix] + t.value.0) == done + [ix] + t.value.0;
      }
      done := done + [ix];
    }
    r := Ok(());
  }

  /** The walk of `parse` over the lookups, with its two running sums. */
  method SkipLookups(cursor: Cursor, n: nat) returns (r: Result<(nat, nat)>)
    requires cursor.Valid()
    modifies cursor
    ensures cursor.Valid() && cursor.pos >= old(cursor.pos)
    ensures var t := TakeLookups(old(cursor.Rest()), n);
            && r.Ok? == t.Some?
            && (r.Err? ==> r.error == InvalidMessage)
            && (r.Ok? ==>
                  && cursor.Rest() == t.value.1
                  && r.value.0 == WritableCount(t.value.0) + ReadonlyCount(t.value.0)
                  && r.value.1 == WritableCount(t.value.0))
  {
    hide TakeLookup;
    ghost var b := cursor.Rest();
    ghost var done: seq<Lookup> := [];
    AfterNothing(TakeLookups(b, n));
    var numLookupKeys, numWritableLookupKeys := 0, 0;
    for i := 0 to n
      invariant cursor.Valid() && cursor.pos >= old(cursor.pos)
      invariant After(done, TakeLookups(cursor.Rest(), n - i)) == TakeLookups(b, n)
      invariant numWritableLookupKeys == WritableCount(done)
      invariant numLookupKeys == WritableCount(done) + ReadonlyCount(done)
    {
      var l :- cursor.ReadLookup();
      numLookupKeys := numLookupKeys + |l.writable| + |l.readonly|;
      numWritableLookupKeys := numWritableLookupKeys + |l.writable|;
      ghost var t := TakeLookups(cursor.Rest(), n - i - 1);
      if t.Some? {
        assert done + ([l] + t.value.0) == done + [l] + t.value.0;
      }
      CountsAppend(done, l);
      done := done + [l];
    }
    assert done + [] == done;
    r := Ok((numLookupKeys, numWritableLookupKeys));
  }

  lemma {:induction false} CountsAppend(ls: seq<Lookup>, l: Lookup)
    ensures WritableCount(ls + [l]) == WritableCount(ls) + |l.writable|
    ensures ReadonlyCount(ls + [l]) == ReadonlyCount(ls) + |l.readonly|
  {
    if ls != [] {
      CountsAppend(ls[1..], l);
      assert (ls + [l])[1..] == ls[1..] + [l];
    }
  }

  /** The second walk of `parse`, through the iterator, checking every index. */
  method ValidateIndexes(slice: seq<byte>, ghost ixs: seq<Instruction>, numAllKeys: nat) returns (r: Outcome)
    requires slice == EncodeInstructions(ixs)
    requires forall i :: 0 <= i < |ixs| ==> InstructionFits(ixs[i])
    ensures r.Ok? == AllInRange(ixs, numAllKeys)
    ensures r.Err? ==> r.error == InvalidMessage
  {
    hide TakeInstruction, EncodeInstruction, InstructionFits;
    var iter := new InstructionIter(slice);
    ghost var k := 0;
    while true
      invariant iter.cursor.Valid() && fresh(iter.cursor)
      invariant 0 <= k <= |ixs| && iter.cursor.Rest() == EncodeInstructions(ixs[k..])
      invariant AllInRange(ixs[..k], numAllKeys)
      decreases |ixs| - k
    {
      if k < |ixs| {
        TakeEncodedInstruction(ixs[k], EncodeInstructions(ixs[k + 1..]));
        assert ixs[k..][1..] == ixs[k + 1..];
        EncodedNotEmpty(ixs[k]);
      }
      var next := iter.Next();
      if next.None? {
        break;
      }
      // The first walk already read this item, so the iterator cannot fail on it.
      assert next.value.Ok?;
      var instruction := next.value.value;
      if instruction.program >= numAllKeys {
        return Err(InvalidMessage);
      }
      for j := 0 to |instruction.accounts|
        invariant forall a :: 0 <= a < j ==> instruction.accounts[a] < numAllKeys
      {
        if instruction.accounts[j] >= numAllKeys {
          return Err(InvalidMessage);
        }
      }
      assert ixs[..k + 1] == ixs[..k] + [instruction];
      k := k + 1;
    }
    assert ixs[..k] == ixs;
    r := Ok(());
  }

  lemma EncodedNotEmpty(ix: Instruction)
    ensures EncodeInstruction(ix) != []
  {
  }

  lemma EncodedLookupNotEmpty(l: Lookup)
    ensures EncodeLookup(l) != []
  {
  }

  /** The fixed prefix, with the checks on its privilege boundaries. */
  method ReadHeader(cursor: Cursor) returns (r: Result<MessageHeader>)
    requires cursor.Valid() && cursor.pos == 0
    modifies cursor
    ensures cursor.Valid()
    ensures r.Err? ==> r.error == InvalidMessage
    ensures r.Ok? == (|cursor.data| >= 6
                      && PrivilegesOk(cursor.data[0], cursor.data[1], cursor.data[2], cursor.data[3]))
    ensures r.Ok? ==>
              && cursor.pos == 6
              && r.value == MessageHeader(cursor.data[0], cursor.data[1], cursor.data[2],
                                          cursor.data[3], cursor.data[4], cursor.data[5])
  {
    var numSigners :- cursor.TakeU8();
    var numWritableSigners :- cursor.TakeU8();
    var numWritableNonSigners :- cursor.TakeU8();
    var numAccountKeys :- cursor.TakeU8();
    var numInstructions :- cursor.TakeU8();
    var numLookups :- cursor.TakeU8();
    if numSigners > numAccountKeys || numWritableSigners > numSigners {
      return Err(InvalidMessage);
    }
    if numWritableNonSigners > numAccountKeys - numSigners {
      return Err(InvalidMessage);
    }
    r := Ok(MessageHeader(numSigners, numWritableSigners, numWritableNonSigners,
                          numAccountKeys, numInstructions, numLookups));
  }

  /** `parse`: total validation of a blob, in the source's order. */
  method Parse(blob: seq<byte>) returns (r: Result<MessageView>)
    ensures r.Ok? == Decode(blob).Some?
    ensures r.Ok? ==> ViewOf(r.value, Decode(blob).value)
    ensures r.Err? ==> r.error == InvalidMessage
  {
    hide TakeKeys, TakeInstructions, TakeLookups, EncodeInstructions, EncodeLookups,
         WritableCount, ReadonlyCount, IndexesInRange, AllInRange;
    var cursor := new Cursor(blob);
    var header :- ReadHeader(cursor);
    var numAccountKeys := header.numAccountKeys;
    KeysAreSlices(blob[6..], numAccountKeys);
    var keyBytes :- cursor.Take(32 * numAccountKeys as nat);
    assert keyBytes == blob[6..][..32 * numAccountKeys as nat];
    var accountKeys := OwnerBytes.OwnersIn(keyBytes, numAccountKeys);
    var instructionsStart := cursor.pos;
    assert cursor.Rest() == blob[6..][32 * numAccountKeys as nat..];
    InstructionsTaken(cursor.Rest(), header.numInstructions);
    ghost var afterKeys := cursor.Rest();
    var _ :- SkipInstructions(cursor, header.numInstructions);
    var instructions := blob[instructionsStart..cursor.pos];
    ghost var ixs := TakeInstructions(afterKeys, header.numInstructions).value.0;
    SplitAt(blob, instructionsStart, cursor.pos, EncodeInstructions(ixs));
    var lookupsStart := cursor.pos;
    ghost var afterInstructions := cursor.Rest();
    LookupsTaken(afterInstructions, header.numLookups);
    var counts :- SkipLookups(cursor, header.numLookups);
    var (numLookupKeys, numWritableLookupKeys) := counts;
    var lookups := blob[lookupsStart..cursor.pos];
    ghost var ls := TakeLookups(afterInstructions, header.numLookups).value.0;
    SplitAt(blob, lookupsStart, cursor.pos, EncodeLookups(ls));
    if cursor.Remaining() != 0 {
      return Err(InvalidMessage);
    }
    var numAllKeys := numAccountKeys + numLookupKeys;
    var _ :- ValidateIndexes(instructions, ixs, numAllKeys);
    r := Ok(MessageView(header, accountKeys, instructions, lookups, numAllKeys, numWritableLookupKeys));
  }

  lemma SplitAt(data: seq<byte>, p: nat, q: nat, front: seq<byte>)
    requires p <= q <= |data| && data[p..] == front + data[q..]
    ensures data[p..q] == front
  {
    assert |front| == q - p;
    assert data[p..q] == data[p..][..q - p];
  }

  /** The client's `encode`, pushing onto a vector. */
  method EncodeMessage(m: Message) returns (blob: seq<byte>)
    ensures blob == Encode(m)
  {
    hide EncodeInstruction, EncodeLookup;
    blob := EncodeHeader(m);
    for i := 0 to |m.keys|
      invariant blob + EncodeKeys(m.keys[i..]) == EncodeHeader(m) + EncodeKeys(m.keys)
    {
      assert m.keys[i..][1..] == m.keys[i + 1..];
      assert blob + EncodeKeys(m.keys[i..]) == blob + m.keys[i] + EncodeKeys(m.keys[i + 1..]);
      blob := blob + m.keys[i];
    }
    assert blob + [] == blob;
    ghost var keyed := blob;
    for i := 0 to |m.instructions|
      invariant blob + EncodeInstructions(m.instructions[i..]) == keyed + EncodeInstructions(m.instructions)
    {
      var ix := m.instructions[i];
      assert m.instructions[i..][1..] == m.instructions[i + 1..];
      ghost var rest := EncodeInstructions(m.instructions[i + 1..]);
      assert blob + EncodeInstructions(m.instructions[i..]) == blob + EncodeInstruction(ix) + rest;
      blob := PushInstruction(blob, ix);
    }
    assert blob + [] == blob;
    ghost var instructed := blob;
    for i := 0 to |m.lookups|
      invariant blob + EncodeLookups(m.lookups[i..]) == instructed + EncodeLookups(m.lookups)
    {
      var l := m.lookups[i];
      assert m.lookups[i..][1..] == m.lookups[i + 1..];
      ghost var rest := EncodeLookups(m.lookups[i + 1..]);
      assert blob + EncodeLookups(m.lookups[i..]) == blob + EncodeLookup(l) + rest;
      blob := PushLookup(blob, l);
    }
    assert blob + [] == blob;
  }

  method PushInstruction(into: seq<byte>, ix: Instruction) returns (blob: seq<byte>)
    ensures blob == into + EncodeInstruction(ix)
  {
    blob := into + [ix.program];
    blob := blob + [U8(|ix.accounts|)];
    blob := blob + ix.accounts;
    blob := blob + U16(|ix.data|);
    blob := blob + ix.data;
  }

  method PushLookup(into: seq<byte>, l: Lookup) returns (blob: seq<byte>)
    ensures blob == into + EncodeLookup(l)
  {
    blob := into + l.key;
    blob := blob + [U8(|l.writable|)];
    blob := blob + l.writable;
    blob := blob + [U8(|l.readonly|)];
    blob := blob + l.readonly;
  }
}
