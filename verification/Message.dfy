/** The compiled message: the client's encoding, a functional reader of it, and their laws. */
module MessageCodec {
  import opened Base

  datatype Instruction = Instruction(program: byte, accounts: seq<byte>, data: seq<byte>)

  datatype Lookup = Lookup(key: Address, writable: seq<byte>, readonly: seq<byte>)

  datatype Message = Message(
    numSigners: byte, numWritableSigners: byte, numWritableNonSigners: byte,
    keys: seq<Address>, instructions: seq<Instruction>, lookups: seq<Lookup>)

  // Encoding, with the truncating casts of the source

  function U8(n: nat): byte {
    n % 0x100
  }

  function U16(n: nat): seq<byte> {
    [U8(n), U8(n / 0x100)]
  }

  function EncodeKeys(keys: seq<Address>): seq<byte> {
    if keys == [] then [] else keys[0] + EncodeKeys(keys[1..])
  }

  function EncodeInstruction(ix: Instruction): seq<byte> {
    [ix.program, U8(|ix.accounts|)] + ix.accounts + U16(|ix.data|) + ix.data
  }

  function EncodeInstructions(ixs: seq<Instruction>): seq<byte> {
    if ixs == [] then [] else EncodeInstruction(ixs[0]) + EncodeInstructions(ixs[1..])
  }

  function EncodeLookup(l: Lookup): seq<byte> {
    l.key + [U8(|l.writable|)] + l.writable + [U8(|l.readonly|)] + l.readonly
  }

  function EncodeLookups(ls: seq<Lookup>): seq<byte> {
    if ls == [] then [] else EncodeLookup(ls[0]) + EncodeLookups(ls[1..])
  }

  function EncodeHeader(m: Message): seq<byte> {
    [m.numSigners, m.numWritableSigners, m.numWritableNonSigners,
     U8(|m.keys|), U8(|m.instructions|), U8(|m.lookups|)]
  }

  function Encode(m: Message): seq<byte> {
    EncodeHeader(m) + (EncodeKeys(m.keys) + (EncodeInstructions(m.instructions) + EncodeLookups(m.lookups)))
  }

  // Counts

  function WritableCount(ls: seq<Lookup>): nat {
    if ls == [] then 0 else |ls[0].writable| + WritableCount(ls[1..])
  }

  function ReadonlyCount(ls: seq<Lookup>): nat {
    if ls == [] then 0 else |ls[0].readonly| + ReadonlyCount(ls[1..])
  }

  function NumAllKeys(m: Message): nat {
    |m.keys| + WritableCount(m.lookups) + ReadonlyCount(m.lookups)
  }

  // Well-formed messages: lengths fit their prefixes, privileges and indexes are in range

  ghost predicate InstructionFits(ix: Instruction) {
    |ix.accounts| < 0x100 && |ix.data| < 0x1_0000
  }

  ghost predicate LookupFits(l: Lookup) {
    |l.writable| < 0x100 && |l.readonly| < 0x100
  }

  ghost predicate Fits(m: Message) {
    && |m.keys| < 0x100 && |m.instructions| < 0x100 && |m.lookups| < 0x100
    && (forall i :: 0 <= i < |m.instructions| ==> InstructionFits(m.instructions[i]))
    && (forall i :: 0 <= i < |m.lookups| ==> LookupFits(m.lookups[i]))
  }

  predicate IndexesInRange(ix: Instruction, n: nat) {
    && ix.program < n
    && forall i :: 0 <= i < |ix.accounts| ==> ix.accounts[i] < n
  }

  predicate PrivilegesOk(numSigners: nat, numWritableSigners: nat, numWritableNonSigners: nat, numKeys: nat) {
    numWritableSigners <= numSigners <= numKeys && numWritableNonSigners <= numKeys - numSigners
  }

  ghost predicate WellFormed(m: Message) {
    && Fits(m)
    && PrivilegesOk(m.numSigners, m.numWritableSigners, m.numWritableNonSigners, |m.keys|)
    && forall i :: 0 <= i < |m.instructions| ==> IndexesInRange(m.instructions[i], NumAllKeys(m))
  }

  // Reading, one item at a time off the front

  function TakeKeys(b: seq<byte>, n: nat): Option<(seq<Address>, seq<byte>)> {
    if n == 0 then Some(([], b))
    else if |b| < 32 then None
    else
      match TakeKeys(b[32..], n - 1)
      case None => None
      case Some((keys, rest)) => Some(([b[..32]] + keys, rest))
  }

  function TakeInstruction(b: seq<byte>): Option<(Instruction, seq<byte>)> {
    if |b| < 2 || |b| < 4 + b[1] as nat then None
    else
      var n: nat := b[1];
      var d := b[2 + n] as nat + 0x100 * (b[3 + n] as nat);
      if |b| < 4 + n + d then None
      else Some((Instruction(b[0], b[2..2 + n], b[4 + n..4 + n + d]), b[4 + n + d..]))
  }

  function TakeInstructions(b: seq<byte>, n: nat): Option<(seq<Instruction>, seq<byte>)> {
    if n == 0 then Some(([], b))
    else
      match TakeInstruction(b)
      case None => None
      case Some((ix, rest)) =>
        match TakeInstructions(rest, n - 1)
        case None => None
        case Some((ixs, rest')) => Some(([ix] + ixs, rest'))
  }

  function TakeLookup(b: seq<byte>): Option<(Lookup, seq<byte>)> {
    if |b| < 33 || |b| < 34 + b[32] as nat then None
    else
      var w: nat := b[32];
      var r: nat := b[33 + w];
      if |b| < 34 + w + r then None
      else Some((Lookup(b[..32], b[33..33 + w], b[34 + w..34 + w + r]), b[34 + w + r..]))
  }

  function TakeLookups(b: seq<byte>, n: nat): Option<(seq<Lookup>, seq<byte>)> {
    if n == 0 then Some(([], b))
    else
      match TakeLookup(b)
      case None => None
      case Some((l, rest)) =>
        match TakeLookups(rest, n - 1)
        case None => None
        case Some((ls, rest')) => Some(([l] + ls, rest'))
  }

  /** Reads a whole message off the front, leaving the rest. */
  function TakeMessage(b: seq<byte>): Option<(Message, seq<byte>)> {
    if |b| < 6 || !PrivilegesOk(b[0], b[1], b[2], b[3]) then None
    else
      match TakeKeys(b[6..], b[3])
      case None => None
      case Some((keys, rest)) =>
        match TakeInstructions(rest, b[4])
        case None => None
        case Some((ixs, rest')) =>
          match TakeLookups(rest', b[5])
          case None => None
          case Some((ls, rest'')) => Some((Message(b[0], b[1], b[2], keys, ixs, ls), rest''))
  }

  /** The messages `parse` accepts: nothing may trail, and every index must be in range. */
  function Decode(b: seq<byte>): Option<Message> {
    match TakeMessage(b)
    case None => None
    case Some((m, rest)) =>
      if rest == [] && AllInRange(m.instructions, NumAllKeys(m)) then Some(m) else None
  }

  predicate AllInRange(ixs: seq<Instruction>, n: nat) {
    forall i :: 0 <= i < |ixs| ==> IndexesInRange(ixs[i], n)
  }

  // Reading undoes writing

  lemma {:induction false} TakeEncodedKeys(keys: seq<Address>, rest: seq<byte>)
    ensures TakeKeys(EncodeKeys(keys) + rest, |keys|) == Some((keys, rest))
  {
    var b := EncodeKeys(keys) + rest;
    if keys == [] {
      assert b == rest;
    } else {
      TakeEncodedKeys(keys[1..], rest);
      assert b == keys[0] + (EncodeKeys(keys[1..]) + rest);
      assert b[..32] == keys[0] && b[32..] == EncodeKeys(keys[1..]) + rest;
      assert keys == [keys[0]] + keys[1..];
    }
  }

  lemma TakeEncodedInstruction(ix: Instruction, rest: seq<byte>)
    requires InstructionFits(ix)
    ensures TakeInstruction(EncodeInstruction(ix) + rest) == Some((ix, rest))
  {
    var b := EncodeInstruction(ix) + rest;
    var n, d := |ix.accounts|, |ix.data|;
    assert |b| == 4 + n + d + |rest|;
    assert b[0] == ix.program && b[1] == n;
    assert b[2..2 + n] == ix.accounts;
    assert b[2 + n] == U8(d) && b[3 + n] == U8(d / 0x100);
    assert b[4 + n..4 + n + d] == ix.data;
    assert b[4 + n + d..] == rest;
  }

  lemma {:induction false} TakeEncodedInstructions(ixs: seq<Instruction>, rest: seq<byte>)
    requires forall i :: 0 <= i < |ixs| ==> InstructionFits(ixs[i])
    ensures TakeInstructions(EncodeInstructions(ixs) + rest, |ixs|) == Some((ixs, rest))
  {
    var b := EncodeInstructions(ixs) + rest;
    if ixs == [] {
      assert b == rest;
    } else {
      var tail := EncodeInstructions(ixs[1..]) + rest;
      assert b == EncodeInstruction(ixs[0]) + tail;
      TakeEncodedInstruction(ixs[0], tail);
      TakeEncodedInstructions(ixs[1..], rest);
      assert ixs == [ixs[0]] + ixs[1..];
    }
  }

  lemma TakeEncodedLookup(l: Lookup, rest: seq<byte>)
    requires LookupFits(l)
    ensures TakeLookup(EncodeLookup(l) + rest) == Some((l, rest))
  {
    var b := EncodeLookup(l) + rest;
    var w, r := |l.writable|, |l.readonly|;
    assert |b| == 34 + w + r + |rest|;
    assert b[..32] == l.key && b[32] == w;
    assert b[33..33 + w] == l.writable;
    assert b[33 + w] == r;
    assert b[34 + w..34 + w + r] == l.readonly;
    assert b[34 + w + r..] == rest;
  }

  lemma {:induction false} TakeEncodedLookups(ls: seq<Lookup>, rest: seq<byte>)
    requires forall i :: 0 <= i < |ls| ==> LookupFits(ls[i])
    ensures TakeLookups(EncodeLookups(ls) + rest, |ls|) == Some((ls, rest))
  {
    var b := EncodeLookups(ls) + rest;
    if ls == [] {
      assert b == rest;
    } else {
      var tail := EncodeLookups(ls[1..]) + rest;
      assert b == EncodeLookup(ls[0]) + tail;
      TakeEncodedLookup(ls[0], tail);
      TakeEncodedLookups(ls[1..], rest);
      assert ls == [ls[0]] + ls[1..];
    }
  }

  lemma TakeEncodedMessage(m: Message, rest: seq<byte>)
    requires Fits(m) && PrivilegesOk(m.numSigners, m.numWritableSigners, m.numWritableNonSigners, |m.keys|)
    ensures TakeMessage(Encode(m) + rest) == Some((m, rest))
  {
    hide TakeKeys, TakeInstructions, TakeLookups, EncodeKeys, EncodeInstructions, EncodeLookups;
    var b := Encode(m) + rest;
    var tail3 := EncodeLookups(m.lookups) + rest;
    var tail2 := EncodeInstructions(m.instructions) + tail3;
    var tail1 := EncodeKeys(m.keys) + tail2;
    assert b == EncodeHeader(m) + tail1;
    assert b[..6] == EncodeHeader(m) && b[6..] == tail1;
    TakeEncodedKeys(m.keys, tail2);
    TakeEncodedInstructions(m.instructions, tail3);
    TakeEncodedLookups(m.lookups, rest);
  }

  // What is read is well formed and encodes to exactly the bytes read

  lemma {:induction false} KeysTaken(b: seq<byte>, n: nat)
    ensures var t := TakeKeys(b, n);
            t.Some? ==> |t.value.0| == n && b == EncodeKeys(t.value.0) + t.value.1
  {
    if n > 0 && |b| >= 32 {
      KeysTaken(b[32..], n - 1);
      var t := TakeKeys(b, n);
      if t.Some? {
        assert t.value.0[1..] == TakeKeys(b[32..], n - 1).value.0;
        assert b == b[..32] + b[32..];
      }
    }
  }

  lemma InstructionTaken(b: seq<byte>)
    ensures var t := TakeInstruction(b);
            t.Some? ==> InstructionFits(t.value.0) && b == EncodeInstruction(t.value.0) + t.value.1
  {
    var t := TakeInstruction(b);
    if t.Some? {
      var n: nat := b[1];
      var d := b[2 + n] as nat + 0x100 * (b[3 + n] as nat);
      assert U16(d) == b[2 + n..4 + n];
      assert b == b[..2] + b[2..2 + n] + b[2 + n..4 + n] + b[4 + n..4 + n + d] + b[4 + n + d..];
    }
  }

  lemma {:induction false} InstructionsTaken(b: seq<byte>, n: nat)
    ensures var t := TakeInstructions(b, n);
            t.Some? ==>
              && |t.value.0| == n
              && (forall i :: 0 <= i < n ==> InstructionFits(t.value.0[i]))
              && b == EncodeInstructions(t.value.0) + t.value.1
    decreases n
  {
    hide TakeInstruction, EncodeInstruction, InstructionFits;
    if n > 0 && TakeInstruction(b).Some? {
      var (ix, rest) := TakeInstruction(b).value;
      InstructionTaken(b);
      InstructionsTaken(rest, n - 1);
      var t := TakeInstructions(b, n);
      if t.Some? {
        assert t.value.0[1..] == TakeInstructions(rest, n - 1).value.0;
      }
    }
  }

  lemma LookupTaken(b: seq<byte>)
    ensures var t := TakeLookup(b);
            t.Some? ==> LookupFits(t.value.0) && b == EncodeLookup(t.value.0) + t.value.1
  {
    var t := TakeLookup(b);
    if t.Some? {
      var w: nat := b[32];
      var r: nat := b[33 + w];
      assert b == b[..32] + [b[32]] + b[33..33 + w] + [b[33 + w]] + b[34 + w..34 + w + r] + b[34 + w + r..];
    }
  }

  lemma {:induction false} LookupsTaken(b: seq<byte>, n: nat)
    ensures var t := TakeLookups(b, n);
            t.Some? ==>
              && |t.value.0| == n
              && (forall i :: 0 <= i < n ==> LookupFits(t.value.0[i]))
              && b == EncodeLookups(t.value.0) + t.value.1
    decreases n
  {
    hide TakeLookup, EncodeLookup, LookupFits;
    if n > 0 && TakeLookup(b).Some? {
      var (l, rest) := TakeLookup(b).value;
      LookupTaken(b);
      LookupsTaken(rest, n - 1);
      var t := TakeLookups(b, n);
      if t.Some? {
        assert t.value.0[1..] == TakeLookups(rest, n - 1).value.0;
      }
    }
  }

  lemma MessageTaken(b: seq<byte>)
    ensures var t := TakeMessage(b);
            t.Some? ==>
              var (m, rest) := t.value;
              && Fits(m)
              && PrivilegesOk(m.numSigners, m.numWritableSigners, m.numWritableNonSigners, |m.keys|)
              && b == Encode(m) + rest
  {
    hide TakeKeys, TakeInstructions, TakeLookups, EncodeKeys, EncodeInstructions, EncodeLookups;
    var t := TakeMessage(b);
    if t.Some? {
      var (m, rest) := t.value;
      KeysTaken(b[6..], b[3]);
      var afterKeys := TakeKeys(b[6..], b[3]).value.1;
      InstructionsTaken(afterKeys, b[4]);
      var afterInstructions := TakeInstructions(afterKeys, b[4]).value.1;
      LookupsTaken(afterInstructions, b[5]);
      assert b[..6] == EncodeHeader(m);
      assert b == b[..6] + b[6..];
    }
  }

  // The laws

  /** A message survives encoding and parsing exactly when it is well formed. */
  lemma RoundTrip(m: Message)
    ensures Decode(Encode(m)) == Some(m) <==> WellFormed(m)
  {
    hide TakeMessage, Encode;
    if WellFormed(m) {
      TakeEncodedMessage(m, []);
      assert Encode(m) + [] == Encode(m);
    }
    if Decode(Encode(m)) == Some(m) {
      MessageTaken(Encode(m));
    }
  }

  /** Every blob that parses is the encoding of what it parses to. */
  lemma Canonical(b: seq<byte>)
    ensures var d := Decode(b); d.Some? ==> WellFormed(d.value) && Encode(d.value) == b
  {
    hide TakeMessage, Encode;
    MessageTaken(b);
    var d := Decode(b);
    if d.Some? {
      assert Encode(d.value) + [] == Encode(d.value);
    }
  }

  /** Two well-formed messages with the same encoding are the same message. */
  lemma EncodeInjective(m: Message, m': Message)
    requires WellFormed(m) && WellFormed(m') && Encode(m) == Encode(m')
    ensures m == m'
  {
    RoundTrip(m);
    RoundTrip(m');
  }

  /** No accepted blob is a strict prefix of another: truncation and trailing bytes both fail. */
  lemma PrefixFree(b: seq<byte>, extra: seq<byte>)
    requires Decode(b).Some? && Decode(b + extra).Some?
    ensures extra == []
  {
    hide TakeMessage, Encode;
    Canonical(b);
    TakeEncodedMessage(Decode(b).value, extra);
  }
}
