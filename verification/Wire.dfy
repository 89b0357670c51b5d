/** The compiled message byte by byte: where the encoding puts each field, and which headers are accepted. */
module WireFormat {
  import opened Base
  import opened MessageCodec

  /** `part` is what the bytes hold from `at` on. */
  ghost predicate HoldsAt(b: seq<byte>, at: nat, part: seq<byte>) {
    at + |part| <= |b| && b[at..at + |part|] == part
  }

  lemma HeldInside(b: seq<byte>, at: nat, whole: seq<byte>, within: nat, part: seq<byte>)
    requires HoldsAt(b, at, whole) && HoldsAt(whole, within, part)
    ensures HoldsAt(b, at + within, part)
  {
    forall k | 0 <= k < |part| ensures b[at + within + k] == part[k] {
      assert b[at + within + k] == b[at..at + |whole|][within + k] == whole[within..within + |part|][k];
    }
  }

  lemma HeldHalves(front: seq<byte>, back: seq<byte>)
    ensures HoldsAt(front + back, 0, front) && HoldsAt(front + back, |front|, back)
  {
  }

  // Sizes

  function InstructionSize(ix: Instruction): nat {
    4 + |ix.accounts| + |ix.data|
  }

  function LookupSize(l: Lookup): nat {
    34 + |l.writable| + |l.readonly|
  }

  /** The bytes the first `i` instructions take. */
  function InstructionBytes(ixs: seq<Instruction>, i: nat): nat
    requires i <= |ixs|
  {
    if i == 0 then 0 else InstructionBytes(ixs, i - 1) + InstructionSize(ixs[i - 1])
  }

  function LookupBytes(ls: seq<Lookup>, i: nat): nat
    requires i <= |ls|
  {
    if i == 0 then 0 else LookupBytes(ls, i - 1) + LookupSize(ls[i - 1])
  }

  function InstructionStart(m: Message, i: nat): nat
    requires i <= |m.instructions|
  {
    6 + 32 * |m.keys| + InstructionBytes(m.instructions, i)
  }

  function LookupStart(m: Message, i: nat): nat
    requires i <= |m.lookups|
  {
    InstructionStart(m, |m.instructions|) + LookupBytes(m.lookups, i)
  }

  // Each part of a list is where the sizes before it put it

  lemma {:induction false} KeyAt(keys: seq<Address>, i: nat)
    requires i < |keys|
    ensures |EncodeKeys(keys)| == 32 * |keys| && HoldsAt(EncodeKeys(keys), 32 * i, keys[i])
  {
    KeysSize(keys);
    if i > 0 {
      KeyAt(keys[1..], i - 1);
      assert HoldsAt(keys[0] + EncodeKeys(keys[1..]), 32, EncodeKeys(keys[1..]));
      HeldInside(EncodeKeys(keys), 32, EncodeKeys(keys[1..]), 32 * (i - 1), keys[i]);
    }
  }

  lemma {:induction false} KeysSize(keys: seq<Address>)
    ensures |EncodeKeys(keys)| == 32 * |keys|
  {
    if keys != [] {
      KeysSize(keys[1..]);
    }
  }

  lemma {:induction false} InstructionBytesTail(ixs: seq<Instruction>, i: nat)
    requires 0 < i <= |ixs|
    ensures InstructionBytes(ixs, i) == InstructionSize(ixs[0]) + InstructionBytes(ixs[1..], i - 1)
  {
    if i > 1 {
      InstructionBytesTail(ixs, i - 1);
    }
  }

  lemma {:induction false} InstructionsSize(ixs: seq<Instruction>)
    ensures |EncodeInstructions(ixs)| == InstructionBytes(ixs, |ixs|)
  {
    if ixs != [] {
      InstructionsSize(ixs[1..]);
      InstructionBytesTail(ixs, |ixs|);
    }
  }

  lemma {:induction false} InstructionAt(ixs: seq<Instruction>, i: nat)
    requires i < |ixs|
    ensures HoldsAt(EncodeInstructions(ixs), InstructionBytes(ixs, i), EncodeInstruction(ixs[i]))
  {
    hide EncodeInstruction, InstructionSize;
    var first, rest := EncodeInstruction(ixs[0]), EncodeInstructions(ixs[1..]);
    if i > 0 {
      InstructionAt(ixs[1..], i - 1);
      InstructionBytesTail(ixs, i);
      EncodedSize(ixs[0]);
      assert HoldsAt(first + rest, |first|, rest);
      HeldInside(first + rest, |first|, rest, InstructionBytes(ixs[1..], i - 1), EncodeInstruction(ixs[i]));
    }
  }

  lemma EncodedSize(ix: Instruction)
    ensures |EncodeInstruction(ix)| == InstructionSize(ix)
  {
  }

  lemma {:induction false} LookupBytesTail(ls: seq<Lookup>, i: nat)
    requires 0 < i <= |ls|
    ensures LookupBytes(ls, i) == LookupSize(ls[0]) + LookupBytes(ls[1..], i - 1)
  {
    if i > 1 {
      LookupBytesTail(ls, i - 1);
    }
  }

  lemma {:induction false} LookupsSize(ls: seq<Lookup>)
    ensures |EncodeLookups(ls)| == LookupBytes(ls, |ls|)
  {
    if ls != [] {
      LookupsSize(ls[1..]);
      LookupBytesTail(ls, |ls|);
    }
  }

  lemma {:induction false} LookupAt(ls: seq<Lookup>, i: nat)
    requires i < |ls|
    ensures HoldsAt(EncodeLookups(ls), LookupBytes(ls, i), EncodeLookup(ls[i]))
  {
    hide EncodeLookup, LookupSize;
    var first, rest := EncodeLookup(ls[0]), EncodeLookups(ls[1..]);
    if i > 0 {
      LookupAt(ls[1..], i - 1);
      LookupBytesTail(ls, i);
      EncodedLookupSize(ls[0]);
      assert HoldsAt(first + rest, |first|, rest);
      HeldInside(first + rest, |first|, rest, LookupBytes(ls[1..], i - 1), EncodeLookup(ls[i]));
    }
  }

  lemma EncodedLookupSize(l: Lookup)
    ensures |EncodeLookup(l)| == LookupSize(l)
  {
  }

  lemma FourParts(h: seq<byte>, ks: seq<byte>, ixs: seq<byte>, ls: seq<byte>)
    ensures var b := h + (ks + (ixs + ls));
            && |b| == |h| + |ks| + |ixs| + |ls|
            && HoldsAt(b, |h|, ks) && HoldsAt(b, |h| + |ks|, ixs) && HoldsAt(b, |h| + |ks| + |ixs|, ls)
  {
    HeldHalves(h, ks + (ixs + ls));
    HeldHalves(ks, ixs + ls);
    HeldHalves(ixs, ls);
    hide HoldsAt;
    var b := h + (ks + (ixs + ls));
    HeldInside(b, |h|, ks + (ixs + ls), 0, ks);
    HeldInside(b, |h|, ks + (ixs + ls), |ks|, ixs + ls);
    HeldInside(b, |h| + |ks|, ixs + ls, 0, ixs);
    HeldInside(b, |h| + |ks|, ixs + ls, |ixs|, ls);
  }

  lemma Regions(m: Message)
    ensures |Encode(m)| == LookupStart(m, |m.lookups|)
    ensures HoldsAt(Encode(m), 6, EncodeKeys(m.keys))
    ensures HoldsAt(Encode(m), InstructionStart(m, 0), EncodeInstructions(m.instructions))
    ensures HoldsAt(Encode(m), LookupStart(m, 0), EncodeLookups(m.lookups))
  {
    assert |EncodeHeader(m)| == 6;
    hide EncodeKeys, EncodeInstructions, EncodeLookups, EncodeHeader, HoldsAt, InstructionBytes, LookupBytes;
    KeysSize(m.keys);
    InstructionsSize(m.instructions);
    LookupsSize(m.lookups);
    NoBytes(m);
    FourParts(EncodeHeader(m), EncodeKeys(m.keys), EncodeInstructions(m.instructions), EncodeLookups(m.lookups));
  }

  lemma NoBytes(m: Message)
    ensures InstructionBytes(m.instructions, 0) == 0 == LookupBytes(m.lookups, 0)
  {
  }

  // The layout

  /** Six bytes of counts, which wrap, then the keys, 32 bytes each. */
  lemma HeaderLaidOut(m: Message)
    ensures var b := Encode(m);
            && |b| == LookupStart(m, |m.lookups|)
            && b[..6] == [m.numSigners, m.numWritableSigners, m.numWritableNonSigners,
                          |m.keys| % 256, |m.instructions| % 256, |m.lookups| % 256]
            && forall i :: 0 <= i < |m.keys| ==> 38 + 32 * i <= |b| && b[6 + 32 * i..38 + 32 * i] == m.keys[i]
  {
    hide EncodeKeys, EncodeInstructions, EncodeLookups, HoldsAt, InstructionBytes, LookupBytes;
    var b := Encode(m);
    Regions(m);
    forall i | 0 <= i < |m.keys| ensures 38 + 32 * i <= |b| && b[6 + 32 * i..38 + 32 * i] == m.keys[i] {
      KeyAt(m.keys, i);
      HeldInside(b, 6, EncodeKeys(m.keys), 32 * i, m.keys[i]);
      HeldSlice(b, 6 + 32 * i, m.keys[i]);
    }
  }

  lemma HeldSlice(b: seq<byte>, at: nat, part: seq<byte>)
    requires HoldsAt(b, at, part)
    ensures at + |part| <= |b| && b[at..at + |part|] == part
    ensures forall k :: 0 <= k < |part| ==> b[at + k] == part[k]
  {
    forall k | 0 <= k < |part| ensures b[at + k] == part[k] {
      assert b[at..at + |part|][k] == part[k];
    }
  }

  /**
   * Each instruction where those before it end: its program, the number of its accounts, the
   * accounts, the length of its data with the low byte first, and the data.
   */
  lemma InstructionLaidOut(m: Message, i: nat)
    requires i < |m.instructions|
    ensures var b, ix, o := Encode(m), m.instructions[i], InstructionStart(m, i);
            var a, d := |ix.accounts|, |ix.data|;
            && o + 4 + a + d <= |b|
            && b[o] == ix.program && b[o + 1] == a % 256 && b[o + 2..o + 2 + a] == ix.accounts
            && b[o + 2 + a] == d % 256 && b[o + 3 + a] == d / 256 % 256 && b[o + 4 + a..o + 4 + a + d] == ix.data
  {
    hide Encode, EncodeKeys, EncodeInstructions, EncodeLookups, HoldsAt, InstructionBytes, LookupBytes;
    var b, ix, o := Encode(m), m.instructions[i], InstructionStart(m, i);
    Regions(m);
    InstructionAt(m.instructions, i);
    HeldInside(b, InstructionStart(m, 0), EncodeInstructions(m.instructions),
               InstructionBytes(m.instructions, i), EncodeInstruction(ix));
    NoBytes(m);
    var e := EncodeInstruction(ix);
    var a, d := |ix.accounts|, |ix.data|;
    EncodedParts(ix);
    HeldInside(b, o, e, 2, ix.accounts);
    HeldInside(b, o, e, 4 + a, ix.data);
    HeldSlice(b, o, e);
    HeldSlice(b, o + 2, ix.accounts);
    HeldSlice(b, o + 4 + a, ix.data);
  }

  lemma EncodedParts(ix: Instruction)
    ensures var e, a, d := EncodeInstruction(ix), |ix.accounts|, |ix.data|;
            && |e| == 4 + a + d && HoldsAt(e, 2, ix.accounts) && HoldsAt(e, 4 + a, ix.data)
            && e[0] == ix.program && e[1] == a % 256
            && e[2 + a] == d % 256 && e[3 + a] == d / 256 % 256
  {
  }

  /** Each lookup where those before it end: its table's key, then each index list behind its length. */
  lemma LookupLaidOut(m: Message, i: nat)
    requires i < |m.lookups|
    ensures var b, l, o := Encode(m), m.lookups[i], LookupStart(m, i);
            var w, r := |l.writable|, |l.readonly|;
            && o + 34 + w + r <= |b|
            && b[o..o + 32] == l.key && b[o + 32] == w % 256 && b[o + 33..o + 33 + w] == l.writable
            && b[o + 33 + w] == r % 256 && b[o + 34 + w..o + 34 + w + r] == l.readonly
  {
    hide Encode, EncodeKeys, EncodeInstructions, EncodeLookups, HoldsAt, InstructionBytes, LookupBytes;
    var b, l, o := Encode(m), m.lookups[i], LookupStart(m, i);
    Regions(m);
    LookupAt(m.lookups, i);
    HeldInside(b, LookupStart(m, 0), EncodeLookups(m.lookups), LookupBytes(m.lookups, i), EncodeLookup(l));
    NoBytes(m);
    var e := EncodeLookup(l);
    var w := |l.writable|;
    EncodedLookupParts(l);
    HeldInside(b, o, e, 0, l.key);
    HeldInside(b, o, e, 33, l.writable);
    HeldInside(b, o, e, 34 + w, l.readonly);
    HeldSlice(b, o, e);
    HeldSlice(b, o, l.key);
    HeldSlice(b, o + 33, l.writable);
    HeldSlice(b, o + 34 + w, l.readonly);
  }

  lemma EncodedLookupParts(l: Lookup)
    ensures var e, w, r := EncodeLookup(l), |l.writable|, |l.readonly|;
            && |e| == 34 + w + r && HoldsAt(e, 0, l.key) && HoldsAt(e, 33, l.writable)
            && HoldsAt(e, 34 + w, l.readonly) && e[32] == w % 256 && e[33 + w] == r % 256
  {
  }

  /**
   * What is accepted of any message whose lengths fit: exactly one with its signers among its keys, its
   * writable signers among its signers, its writable non-signers among its other keys, and every
   * index below the number of keys; anything else is refused, not read as something else.
   */
  lemma AcceptedExactly(m: Message)
    requires Fits(m)
    ensures Decode(Encode(m))
         == if && m.numWritableSigners <= m.numSigners <= |m.keys|
               && m.numSigners + m.numWritableNonSigners <= |m.keys|
               && forall i :: 0 <= i < |m.instructions| ==>
                    && m.instructions[i].program < NumAllKeys(m)
                    && forall j :: 0 <= j < |m.instructions[i].accounts| ==>
                         m.instructions[i].accounts[j] < NumAllKeys(m)
            then Some(m) else None
  {
    hide TakeKeys, TakeInstructions, TakeLookups, EncodeKeys, EncodeInstructions, EncodeLookups, NumAllKeys;
    HeaderLaidOut(m);
    var b := Encode(m);
    assert forall k :: 0 <= k < 6 ==> b[..6][k] == b[k];
    if PrivilegesOk(m.numSigners, m.numWritableSigners, m.numWritableNonSigners, |m.keys|) {
      TakeEncodedMessage(m, []);
      assert b + [] == b;
    }
  }
}
