/** Resolving a message's accounts at execution, and the order in which the client passes them. */
module AccountResolution {
  import opened Base
  import opened MessageCodec
  import opened MessageParser

  datatype AccountInfo = AccountInfo(address: Address, owner: Address, data: seq<byte>)

  const ADDRESS_LOOKUP_TABLE_ID: Address :=
    [2, 119, 166, 175, 151, 51, 155, 122, 200, 141, 24, 146, 201, 4, 70, 245,
     0, 2, 48, 146, 102, 246, 46, 83, 193, 24, 36, 73, 130, 0, 0, 0]

  const LOOKUP_TABLE_META_SIZE := 56
  const LOOKUP_TABLE_DEACTIVATION_OFFSET := 4

  function LittleEndian64(b: seq<byte>): nat
    requires |b| == 8
  {
    LittleEndian32(b[..4]) + U32_LIMIT * LittleEndian32(b[4..])
  }

  /** A lookup table account of the right program, never deactivated. */
  predicate ActiveTable(t: AccountInfo) {
    && t.owner == ADDRESS_LOOKUP_TABLE_ID
    && |t.data| >= LOOKUP_TABLE_META_SIZE
    && LittleEndian64(t.data[LOOKUP_TABLE_DEACTIVATION_OFFSET..LOOKUP_TABLE_DEACTIVATION_OFFSET + 8])
       == U64_LIMIT - 1
  }

  function NumAddresses(t: AccountInfo): nat {
    if |t.data| < LOOKUP_TABLE_META_SIZE then 0 else (|t.data| - LOOKUP_TABLE_META_SIZE) / 32
  }

  /** The address a table holds at `index`. */
  function Entry(t: AccountInfo, index: nat): Address {
    var at := LOOKUP_TABLE_META_SIZE + 32 * index;
    if at + 32 <= |t.data| then t.data[at..at + 32] else DEFAULT_ADDRESS
  }

  ghost function Entries(t: AccountInfo, indexes: seq<byte>): seq<Address> {
    seq(|indexes|, j requires 0 <= j < |indexes| => Entry(t, indexes[j]))
  }

  ghost predicate InTable(t: AccountInfo, indexes: seq<byte>) {
    forall j :: 0 <= j < |indexes| ==> indexes[j] < NumAddresses(t)
  }

  ghost predicate TableOk(l: Lookup, t: AccountInfo) {
    t.address == l.key && ActiveTable(t) && InTable(t, l.writable) && InTable(t, l.readonly)
  }

  /** The tables' contributions in table order, flattened. */
  ghost function Flat(parts: seq<seq<Address>>): seq<Address> {
    if parts == [] then [] else Flat(parts[..|parts| - 1]) + parts[|parts| - 1]
  }

  ghost function WritableParts(ls: seq<Lookup>, tables: seq<AccountInfo>): seq<seq<Address>>
    requires |tables| == |ls|
  {
    seq(|ls|, i requires 0 <= i < |ls| => Entries(tables[i], ls[i].writable))
  }

  ghost function ReadonlyParts(ls: seq<Lookup>, tables: seq<AccountInfo>): seq<seq<Address>>
    requires |tables| == |ls|
  {
    seq(|ls|, i requires 0 <= i < |ls| => Entries(tables[i], ls[i].readonly))
  }

  /** What the approved message and its tables say the accounts are: static, writable, readonly. */
  ghost function Expected(m: Message, tables: seq<AccountInfo>): seq<Address>
    requires |tables| == |m.lookups|
  {
    m.keys + Flat(WritableParts(m.lookups, tables)) + Flat(ReadonlyParts(m.lookups, tables))
  }

  ghost function Addresses(views: seq<AccountInfo>): (a: seq<Address>)
    ensures |a| == |views|
  {
    seq(|views|, i requires 0 <= i < |views| => views[i].address)
  }

  /** The accounts `execute` admits for a message. */
  ghost predicate AccountsOk(m: Message, views: seq<AccountInfo>) {
    var n := NumAllKeys(m);
    && n + |m.lookups| <= |views|
    && var tables := views[n..n + |m.lookups|];
       && (forall i :: 0 <= i < |m.lookups| ==> TableOk(m.lookups[i], tables[i]))
       && Addresses(views[..n]) == Expected(m, tables)
  }

  // Flattening by windows

  /** `s` holds part `i` where the flattening would put it. */
  ghost predicate HasPart(parts: seq<seq<Address>>, s: seq<Address>, i: nat)
    requires i < |parts|
  {
    var at := |Flat(parts[..i])|;
    at + |parts[i]| <= |s| && s[at..at + |parts[i]|] == parts[i]
  }

  lemma {:induction false} FlatHasPart(parts: seq<seq<Address>>, i: nat)
    requires i < |parts|
    ensures |Flat(parts[..i])| + |parts[i]| <= |Flat(parts)|
    ensures HasPart(parts, Flat(parts), i)
  {
    var k := |parts| - 1;
    if i < k {
      FlatHasPart(parts[..k], i);
      assert parts[..k][..i] == parts[..i];
    }
  }

  lemma {:induction false} PartSizes(ls: seq<Lookup>, tables: seq<AccountInfo>, i: nat)
    requires |tables| == |ls| && i <= |ls|
    ensures |Flat(WritableParts(ls, tables)[..i])| == WritableCount(ls[..i])
    ensures |Flat(ReadonlyParts(ls, tables)[..i])| == ReadonlyCount(ls[..i])
  {
    if i > 0 {
      PartSizes(ls, tables, i - 1);
      CountsAppend(ls[..i - 1], ls[i - 1]);
      assert ls[..i] == ls[..i - 1] + [ls[i - 1]];
      assert WritableParts(ls, tables)[..i][..i - 1] == WritableParts(ls, tables)[..i - 1];
      assert ReadonlyParts(ls, tables)[..i][..i - 1] == ReadonlyParts(ls, tables)[..i - 1];
    }
  }

  /** The accounts at `at..` are the ones the indexes name in the table. */
  ghost predicate WindowOk(views: seq<AccountInfo>, at: nat, t: AccountInfo, indexes: seq<byte>) {
    && at + |indexes| <= |views|
    && forall j :: 0 <= j < |indexes| ==> views[at + j].address == Entry(t, indexes[j])
  }

  /** A right window extends a right region by one part. */
  lemma WindowExtends(views: seq<AccountInfo>, base: nat, at: nat, front: seq<Address>,
                      t: AccountInfo, indexes: seq<byte>)
    requires base <= at && at + |indexes| <= |views|
    requires Addresses(views[base..at]) == front
    requires WindowOk(views, at, t, indexes)
    ensures Addresses(views[base..at + |indexes|]) == front + Entries(t, indexes)
  {
    var s := Addresses(views[base..at + |indexes|]);
    assert s[..at - base] == Addresses(views[base..at]);
    forall j | 0 <= j < |indexes| ensures s[at - base + j] == Entries(t, indexes)[j] {
      assert s[at - base + j] == views[at + j].address;
    }
  }

  /** A right region has every window right. */
  lemma PartGivesWindow(views: seq<AccountInfo>, base: nat, parts: seq<seq<Address>>, i: nat,
                        t: AccountInfo, indexes: seq<byte>)
    requires i < |parts| && parts[i] == Entries(t, indexes)
    requires base + |Flat(parts)| <= |views|
    requires Addresses(views[base..base + |Flat(parts)|]) == Flat(parts)
    ensures WindowOk(views, base + |Flat(parts[..i])|, t, indexes)
  {
    hide Flat, Entry;
    FlatHasPart(parts, i);
    var s, at := Flat(parts), |Flat(parts[..i])|;
    forall j | 0 <= j < |indexes| ensures views[base + at + j].address == Entry(t, indexes[j]) {
      assert s[at + j] == s[at..at + |parts[i]|][j] == parts[i][j];
      assert s[at + j] == views[base..base + |Flat(parts)|][at + j].address;
    }
  }

  /** The admitted accounts, region by region. */
  lemma RegionsOfOk(m: Message, views: seq<AccountInfo>, tables: seq<AccountInfo>)
    requires |tables| == |m.lookups| && NumAllKeys(m) <= |views|
    ensures |Flat(WritableParts(m.lookups, tables))| == WritableCount(m.lookups)
    ensures |Flat(ReadonlyParts(m.lookups, tables))| == ReadonlyCount(m.lookups)
    ensures var k, w, n := |m.keys|, WritableCount(m.lookups), NumAllKeys(m);
            (Addresses(views[..n]) == Expected(m, tables)
             <==>
             && Addresses(views[..k]) == m.keys
             && Addresses(views[k..k + w]) == Flat(WritableParts(m.lookups, tables))
             && Addresses(views[k + w..n]) == Flat(ReadonlyParts(m.lookups, tables)))
  {
    hide Flat, Entries, Addresses;
    var ls := m.lookups;
    var k, w, n := |m.keys|, WritableCount(ls), NumAllKeys(m);
    var writable, readonly := WritableParts(ls, tables), ReadonlyParts(ls, tables);
    assert ls[..|ls|] == ls && writable[..|ls|] == writable && readonly[..|ls|] == readonly;
    PartSizes(ls, tables, |ls|);
    AddressesSplit(views, k, k + w, n);
    ThreeParts(Addresses(views[..k]), Addresses(views[k..k + w]), Addresses(views[k + w..n]),
               m.keys, Flat(writable), Flat(readonly));
  }

  lemma AddressesSplit(views: seq<AccountInfo>, i: nat, j: nat, n: nat)
    requires i <= j <= n <= |views|
    ensures Addresses(views[..n]) == Addresses(views[..i]) + Addresses(views[i..j]) + Addresses(views[j..n])
  {
  }

  lemma ThreeParts<T>(a: seq<T>, b: seq<T>, c: seq<T>, a': seq<T>, b': seq<T>, c': seq<T>)
    requires |a| == |a'| && |b| == |b'| && |c| == |c'|
    ensures a + b + c == a' + b' + c' <==> a == a' && b == b' && c == c'
  {
    var s, s' := a + b + c, a' + b' + c';
    if s == s' {
      assert a == s[..|a|] && b == s[|a|..|a| + |b|] && c == s[|a| + |b|..];
    }
  }

  // The first thing wrong with an account list, in the order it is looked for

  /** Of one list of table indexes from `j` on. Positions past the end of the accounts match nothing. */
  ghost function IndexesOutcome(
    views: seq<AccountInfo>, at: nat, t: AccountInfo, indexes: seq<byte>, j: nat): Outcome
    requires j <= |indexes|
    decreases |indexes| - j
  {
    if j == |indexes| then Ok(())
    else if indexes[j] >= NumAddresses(t) then Err(InvalidLookupTable)
    else if at + j >= |views| || views[at + j].address != Entry(t, indexes[j]) then Err(AccountMismatch)
    else IndexesOutcome(views, at, t, indexes, j + 1)
  }

  ghost function TableOutcome(l: Lookup, t: AccountInfo): Outcome {
    if t.address != l.key then Err(AccountMismatch)
    else if t.owner != ADDRESS_LOOKUP_TABLE_ID then Err(IllegalOwner)
    else if !ActiveTable(t) then Err(InvalidLookupTable)
    else Ok(())
  }

  ghost function OneTableOutcome(
    views: seq<AccountInfo>, l: Lookup, t: AccountInfo, writableAt: nat, readonlyAt: nat): Outcome
  {
    var table := TableOutcome(l, t);
    var writable := IndexesOutcome(views, writableAt, t, l.writable, 0);
    if table.Err? then table
    else if writable.Err? then writable
    else IndexesOutcome(views, readonlyAt, t, l.readonly, 0)
  }

  /** Of the tables from `i` on, with the two cursors where the tables before left them. */
  ghost function TablesOutcome(
    m: Message, views: seq<AccountInfo>, i: nat, writableAt: nat, readonlyAt: nat): Outcome
    requires i <= |m.lookups| && NumAllKeys(m) + |m.lookups| <= |views|
    decreases |m.lookups| - i
  {
    if i == |m.lookups| then Ok(())
    else
      var l, t := m.lookups[i], views[NumAllKeys(m) + i];
      var one := OneTableOutcome(views, l, t, writableAt, readonlyAt);
      if one.Err? then one
      else TablesOutcome(m, views, i + 1, writableAt + |l.writable|, readonlyAt + |l.readonly|)
  }

  ghost function ResolveAccounts(m: Message, views: seq<AccountInfo>): Outcome {
    if |views| < NumAllKeys(m) then Err(NotEnoughAccounts)
    else if Addresses(views[..|m.keys|]) != m.keys then Err(AccountMismatch)
    else if |views| < NumAllKeys(m) + |m.lookups| then Err(NotEnoughAccounts)
    else TablesOutcome(m, views, 0, |m.keys|, |m.keys| + WritableCount(m.lookups))
  }

  lemma {:induction false} IndexesOutcomeOk(
    views: seq<AccountInfo>, at: nat, t: AccountInfo, indexes: seq<byte>, j: nat)
    requires j <= |indexes| && at + |indexes| <= |views|
    ensures IndexesOutcome(views, at, t, indexes, j).Ok?
       <==> forall k :: j <= k < |indexes| ==>
                          indexes[k] < NumAddresses(t) && views[at + k].address == Entry(t, indexes[k])
    decreases |indexes| - j
  {
    hide NumAddresses, Entry;
    if j < |indexes| {
      IndexesOutcomeOk(views, at, t, indexes, j + 1);
    }
  }

  lemma OneTableOutcomeOk(views: seq<AccountInfo>, l: Lookup, t: AccountInfo, writableAt: nat, readonlyAt: nat)
    requires writableAt + |l.writable| <= |views| && readonlyAt + |l.readonly| <= |views|
    ensures OneTableOutcome(views, l, t, writableAt, readonlyAt).Ok?
       <==> && TableOk(l, t)
            && WindowOk(views, writableAt, t, l.writable) && WindowOk(views, readonlyAt, t, l.readonly)
  {
    hide NumAddresses, Entry, LittleEndian64;
    IndexesOutcomeOk(views, writableAt, t, l.writable, 0);
    IndexesOutcomeOk(views, readonlyAt, t, l.readonly, 0);
  }

  /** One pass of the inner loop: the accounts at `at..` against one list of table indexes. */
  method CheckIndexes(views: seq<AccountInfo>, at: nat, t: AccountInfo, indexes: seq<byte>)
    returns (r: Outcome)
    requires at + |indexes| <= |views|
    ensures r == IndexesOutcome(views, at, t, indexes, 0)
    ensures r.Ok? == (InTable(t, indexes) && WindowOk(views, at, t, indexes))
  {
    hide NumAddresses, Entry;
    IndexesOutcomeOk(views, at, t, indexes, 0);
    for j := 0 to |indexes|
      invariant IndexesOutcome(views, at, t, indexes, j) == IndexesOutcome(views, at, t, indexes, 0)
    {
      if indexes[j] >= NumAddresses(t) {
        return Err(InvalidLookupTable);
      }
      if views[at + j].address != Entry(t, indexes[j]) {
        return Err(AccountMismatch);
      }
    }
    r := Ok(());
  }

  /** The checks on the table account itself. */
  method CheckTable(l: Lookup, t: AccountInfo) returns (r: Outcome)
    ensures r == TableOutcome(l, t)
    ensures r.Ok? == (t.address == l.key && ActiveTable(t))
  {
    if t.address != l.key {
      return Err(AccountMismatch);
    }
    if t.owner != ADDRESS_LOOKUP_TABLE_ID {
      return Err(IllegalOwner);
    }
    if |t.data| < LOOKUP_TABLE_META_SIZE {
      return Err(InvalidLookupTable);
    }
    var deactivation := t.data[LOOKUP_TABLE_DEACTIVATION_OFFSET..LOOKUP_TABLE_DEACTIVATION_OFFSET + 8];
    if LittleEndian64(deactivation) != U64_LIMIT - 1 {
      return Err(InvalidLookupTable);
    }
    r := Ok(());
  }

  /** The loop over the static keys. */
  method CheckStatic(keys: seq<Address>, views: seq<AccountInfo>) returns (r: Outcome)
    requires |keys| <= |views|
    ensures r == Check(Addresses(views[..|keys|]) == keys, AccountMismatch)
  {
    for i := 0 to |keys|
      invariant forall k :: 0 <= k < i ==> views[k].address == keys[k]
    {
      if views[i].address != keys[i] {
        assert Addresses(views[..|keys|])[i] == views[i].address;
        return Err(AccountMismatch);
      }
    }
    r := Ok(());
  }

  /** Where the two cursors stand once the first `i` tables are consumed. */
  ghost predicate Consumed(m: Message, views: seq<AccountInfo>, tables: seq<AccountInfo>, i: nat,
                           writableAt: nat, readonlyAt: nat)
    requires |tables| == |m.lookups| && i <= |tables| && NumAllKeys(m) <= |views|
  {
    var k, w := |m.keys|, WritableCount(m.lookups);
    var writable := Flat(WritableParts(m.lookups, tables)[..i]);
    var readonly := Flat(ReadonlyParts(m.lookups, tables)[..i]);
    && (forall j :: 0 <= j < i ==> TableOk(m.lookups[j], tables[j]))
    && writableAt == k + |writable| <= k + w
    && readonlyAt == k + w + |readonly| <= NumAllKeys(m)
    && Addresses(views[k..writableAt]) == writable
    && Addresses(views[k + w..readonlyAt]) == readonly
  }

  lemma FlatSnoc(parts: seq<seq<Address>>, i: nat)
    requires i < |parts|
    ensures Flat(parts[..i + 1]) == Flat(parts[..i]) + parts[i]
  {
    assert parts[..i + 1][..i] == parts[..i];
  }

  lemma WindowsFit(m: Message, tables: seq<AccountInfo>, i: nat)
    requires |tables| == |m.lookups| && i < |tables|
    ensures |Flat(WritableParts(m.lookups, tables)[..i])| + |m.lookups[i].writable| <= WritableCount(m.lookups)
    ensures |Flat(ReadonlyParts(m.lookups, tables)[..i])| + |m.lookups[i].readonly| <= ReadonlyCount(m.lookups)
  {
    hide Flat;
    var ls := m.lookups;
    assert ls[..|ls|] == ls;
    var writable, readonly := WritableParts(ls, tables), ReadonlyParts(ls, tables);
    assert writable[..|ls|] == writable && readonly[..|ls|] == readonly;
    PartSizes(ls, tables, |ls|);
    FlatHasPart(writable, i);
    FlatHasPart(readonly, i);
  }

  lemma ConsumeOne(m: Message, views: seq<AccountInfo>, tables: seq<AccountInfo>, i: nat,
                   writableAt: nat, readonlyAt: nat)
    requires |tables| == |m.lookups| && i < |tables| && NumAllKeys(m) <= |views|
    requires Consumed(m, views, tables, i, writableAt, readonlyAt)
    requires TableOk(m.lookups[i], tables[i])
    requires WindowOk(views, writableAt, tables[i], m.lookups[i].writable)
    requires WindowOk(views, readonlyAt, tables[i], m.lookups[i].readonly)
    ensures Consumed(m, views, tables, i + 1,
                     writableAt + |m.lookups[i].writable|, readonlyAt + |m.lookups[i].readonly|)
  {
    hide Flat, Entries, TableOk, WindowOk;
    var ls, t := m.lookups, tables[i];
    var k, w := |m.keys|, WritableCount(ls);
    var writable, readonly := WritableParts(ls, tables), ReadonlyParts(ls, tables);
    WindowsFit(m, tables, i);
    FlatSnoc(writable, i);
    FlatSnoc(readonly, i);
    WindowExtends(views, k, writableAt, Flat(writable[..i]), t, ls[i].writable);
    WindowExtends(views, k + w, readonlyAt, Flat(readonly[..i]), t, ls[i].readonly);
  }

  lemma OkGivesWindows(m: Message, views: seq<AccountInfo>, i: nat, writableAt: nat, readonlyAt: nat)
    requires AccountsOk(m, views) && i < |m.lookups|
    requires var n := NumAllKeys(m);
             Consumed(m, views, views[n..n + |m.lookups|], i, writableAt, readonlyAt)
    ensures var n := NumAllKeys(m);
            && TableOk(m.lookups[i], views[n + i])
            && WindowOk(views, writableAt, views[n + i], m.lookups[i].writable)
            && WindowOk(views, readonlyAt, views[n + i], m.lookups[i].readonly)
  {
    hide Flat, Entries, WindowOk, TableOk, Addresses, Entry;
    var ls, n := m.lookups, NumAllKeys(m);
    var tables := views[n..n + |ls|];
    var k, w := |m.keys|, WritableCount(ls);
    RegionsOfOk(m, views, tables);
    PartGivesWindow(views, k, WritableParts(ls, tables), i, tables[i], ls[i].writable);
    PartGivesWindow(views, k + w, ReadonlyParts(ls, tables), i, tables[i], ls[i].readonly);
  }

  /**
   * The account checks of `execute`. Both cursors end on their boundaries, and the accounts are
   * admitted exactly when they are the ones the approved message and its tables name.
   */
  /** From any point of the loop: going on to the end succeeds exactly on an admissible list. */
  lemma {:induction false} TablesOutcomeOk(
    m: Message, views: seq<AccountInfo>, i: nat, writableAt: nat, readonlyAt: nat)
    requires i <= |m.lookups| && NumAllKeys(m) + |m.lookups| <= |views|
    requires var n := NumAllKeys(m); Consumed(m, views, views[n..n + |m.lookups|], i, writableAt, readonlyAt)
    requires Addresses(views[..|m.keys|]) == m.keys
    ensures TablesOutcome(m, views, i, writableAt, readonlyAt).Ok? <==> AccountsOk(m, views)
    decreases |m.lookups| - i
  {
    hide Flat, Entries, WindowOk, TableOk, Expected, Addresses, OneTableOutcome, Consumed;
    var n := NumAllKeys(m);
    var tables := views[n..n + |m.lookups|];
    if i == |m.lookups| {
      ConsumedAll(m, views, tables, writableAt, readonlyAt);
    } else {
      var l := m.lookups[i];
      ConsumedFits(m, views, tables, i, writableAt, readonlyAt);
      OneTableOutcomeOk(views, l, tables[i], writableAt, readonlyAt);
      if AccountsOk(m, views) {
        OkGivesWindows(m, views, i, writableAt, readonlyAt);
      }
      if OneTableOutcome(views, l, tables[i], writableAt, readonlyAt).Ok? {
        ConsumeOne(m, views, tables, i, writableAt, readonlyAt);
        TablesOutcomeOk(m, views, i + 1, writableAt + |l.writable|, readonlyAt + |l.readonly|);
      }
    }
  }

  lemma ConsumedFits(m: Message, views: seq<AccountInfo>, tables: seq<AccountInfo>, i: nat,
                     writableAt: nat, readonlyAt: nat)
    requires |tables| == |m.lookups| && i < |tables| && NumAllKeys(m) <= |views|
    requires Consumed(m, views, tables, i, writableAt, readonlyAt)
    ensures writableAt + |m.lookups[i].writable| <= |views| && readonlyAt + |m.lookups[i].readonly| <= |views|
  {
    hide Flat, Entries, Addresses, TableOk;
    WindowsFit(m, tables, i);
  }

  /** The checks in program order succeed exactly on the account lists the message describes. */
  lemma {:induction false} ResolveIff(m: Message, views: seq<AccountInfo>)
    ensures ResolveAccounts(m, views).Ok? <==> AccountsOk(m, views)
  {
    hide Flat, Entries, TableOk, Consumed, TablesOutcome, Addresses;
    var n := NumAllKeys(m);
    if n + |m.lookups| <= |views| {
      var tables := views[n..n + |m.lookups|];
      RegionsOfOk(m, views, tables);
      ConsumedNothing(m, views, tables);
      if Addresses(views[..|m.keys|]) == m.keys {
        TablesOutcomeOk(m, views, 0, |m.keys|, |m.keys| + WritableCount(m.lookups));
      }
    }
  }

  /** The whole of the account checks: the two cursors end on their boundaries, or the first fault is reported. */
  method CheckAccounts(v: MessageView, ghost m: Message, views: seq<AccountInfo>) returns (r: Outcome)
    requires Fits(m) && ViewOf(v, m)
    ensures r == ResolveAccounts(m, views)
    ensures r.Ok? == AccountsOk(m, views)
  {
    hide Flat, Entries, WindowOk, TakeLookup, EncodeLookup, LookupFits, Consumed, TableOk, Expected,
         ActiveTable, InTable, Addresses, AccountsOk, OneTableOutcome;
    ResolveIff(m, views);
    var numStatic, numAll := v.header.numAccountKeys, v.numAllKeys;
    if |views| < numAll {
      return Err(NotEnoughAccounts);
    }
    ghost var ls := m.lookups;
    r := CheckStatic(v.accountKeys, views);
    if r.Err? {
      return;
    }
    var numLookups := v.header.numLookups;
    if |views| < numAll + numLookups as nat {
      return Err(NotEnoughAccounts);
    }
    ghost var tables := views[numAll..numAll + |ls|];
    var writableAt: nat := numStatic;
    var readonlyAt: nat := numStatic + v.numWritableLookupKeys;
    var iter := new LookupIter(v.lookups);
    var i := 0;
    ConsumedNothing(m, views, tables);
    while true
      invariant iter.cursor.Valid() && fresh(iter.cursor)
      invariant 0 <= i <= |ls| && iter.cursor.Rest() == EncodeLookups(ls[i..])
      invariant Consumed(m, views, tables, i, writableAt, readonlyAt)
      invariant TablesOutcome(m, views, i, writableAt, readonlyAt) == ResolveAccounts(m, views)
      decreases |ls| - i
    {
      if i < |ls| {
        EncodedLookupNotEmpty(ls[i]);
        assert LookupFits(ls[i]);
        TakeEncodedLookup(ls[i], EncodeLookups(ls[i + 1..]));
        assert ls[i..][1..] == ls[i + 1..];
      }
      var next := iter.Next();
      if next.None? {
        break;
      }
      assert next.value.Ok?;
      var lookup, table := next.value.value, views[numAll + i];
      r := CheckOneTable(views, lookup, table, m, tables, i, writableAt, readonlyAt);
      if r.Err? {
        return;
      }
      ConsumeOne(m, views, tables, i, writableAt, readonlyAt);
      writableAt := writableAt + |lookup.writable|;
      readonlyAt := readonlyAt + |lookup.readonly|;
      i := i + 1;
    }
    ConsumedEnds(m, views, tables, writableAt, readonlyAt);
    assert writableAt == numStatic + v.numWritableLookupKeys && readonlyAt == numAll;
    r := Ok(());
  }

  method CheckOneTable(views: seq<AccountInfo>, lookup: Lookup, table: AccountInfo,
                       ghost m: Message, ghost tables: seq<AccountInfo>, ghost i: nat,
                       writableAt: nat, readonlyAt: nat) returns (r: Outcome)
    requires |tables| == |m.lookups| && i < |tables| && NumAllKeys(m) <= |views|
    requires lookup == m.lookups[i] && table == tables[i]
    requires Consumed(m, views, tables, i, writableAt, readonlyAt)
    ensures r == OneTableOutcome(views, lookup, table, writableAt, readonlyAt)
    ensures r.Ok? == (&& TableOk(lookup, table)
                      && WindowOk(views, writableAt, table, lookup.writable)
                      && WindowOk(views, readonlyAt, table, lookup.readonly))
  {
    hide Flat, Entries, WindowOk, InTable, IndexesOutcome, TableOutcome, ActiveTable;
    ConsumedFits(m, views, tables, i, writableAt, readonlyAt);
    r := CheckTable(lookup, table);
    if r.Err? {
      return;
    }
    r := CheckIndexes(views, writableAt, table, lookup.writable);
    if r.Err? {
      return;
    }
    r := CheckIndexes(views, readonlyAt, table, lookup.readonly);
  }

  lemma ConsumedNothing(m: Message, views: seq<AccountInfo>, tables: seq<AccountInfo>)
    requires |tables| == |m.lookups| && NumAllKeys(m) <= |views|
    ensures Consumed(m, views, tables, 0, |m.keys|, |m.keys| + WritableCount(m.lookups))
  {
  }

  lemma ConsumedEnds(m: Message, views: seq<AccountInfo>, tables: seq<AccountInfo>,
                     writableAt: nat, readonlyAt: nat)
    requires |tables| == |m.lookups| && NumAllKeys(m) <= |views|
    requires Consumed(m, views, tables, |tables|, writableAt, readonlyAt)
    ensures writableAt == |m.keys| + WritableCount(m.lookups) && readonlyAt == NumAllKeys(m)
  {
    hide Flat, Entries, TableOk, Addresses;
    var writable, readonly := WritableParts(m.lookups, tables), ReadonlyParts(m.lookups, tables);
    assert writable[..|tables|] == writable && readonly[..|tables|] == readonly;
    RegionsOfOk(m, views, tables);
  }

  lemma ConsumedAll(m: Message, views: seq<AccountInfo>, tables: seq<AccountInfo>,
                    writableAt: nat, readonlyAt: nat)
    requires |tables| == |m.lookups| && NumAllKeys(m) <= |views|
    requires Consumed(m, views, tables, |tables|, writableAt, readonlyAt)
    requires Addresses(views[..|m.keys|]) == m.keys
    ensures writableAt == |m.keys| + WritableCount(m.lookups) && readonlyAt == NumAllKeys(m)
    ensures Addresses(views[..NumAllKeys(m)]) == Expected(m, tables)
    ensures forall i :: 0 <= i < |tables| ==> TableOk(m.lookups[i], tables[i])
  {
    hide Flat, Entries, TableOk;
    RegionsOfOk(m, views, tables);
    var writable, readonly := WritableParts(m.lookups, tables), ReadonlyParts(m.lookups, tables);
    assert writable[..|tables|] == writable && readonly[..|tables|] == readonly;
  }

  // The client

  datatype AccountMeta = AccountMeta(address: Address, signer: bool, writable: bool)

  /** The client's own test of a static key's privilege. */
  predicate ClientIsWritable(m: Message, index: nat) {
    if index < m.numWritableSigners then true
    else if index < m.numSigners then false
    else index - m.numSigners < m.numWritableNonSigners
  }

  /** The account list a message needs: static keys, resolved addresses, then the tables. */
  ghost predicate MetasFor(m: Message, resolved: seq<Address>, metas: seq<AccountMeta>) {
    var k, n := |m.keys|, |m.keys| + |resolved|;
    && |metas| == n + |m.lookups|
    && (forall i :: 0 <= i < k ==> metas[i] == AccountMeta(m.keys[i], false, ClientIsWritable(m, i)))
    && (forall i :: k <= i < n ==>
          metas[i] == AccountMeta(resolved[i - k], false, i - k < WritableCount(m.lookups)))
    && (forall i :: n <= i < |metas| ==> metas[i] == AccountMeta(m.lookups[i - n].key, false, false))
  }

  method ExecuteAccounts(m: Message, resolved: seq<Address>) returns (metas: seq<AccountMeta>)
    ensures MetasFor(m, resolved, metas)
  {
    hide ClientIsWritable;
    metas := [];
    for i := 0 to |m.keys|
      invariant |metas| == i
      invariant forall j :: 0 <= j < i ==> metas[j] == AccountMeta(m.keys[j], false, ClientIsWritable(m, j))
    {
      metas := metas + [AccountMeta(m.keys[i], false, ClientIsWritable(m, i))];
    }
    var writableFromLookups := 0;
    for i := 0 to |m.lookups|
      invariant writableFromLookups == WritableCount(m.lookups[..i])
    {
      CountsAppend(m.lookups[..i], m.lookups[i]);
      assert m.lookups[..i + 1] == m.lookups[..i] + [m.lookups[i]];
      writableFromLookups := writableFromLookups + |m.lookups[i].writable|;
    }
    assert m.lookups[..|m.lookups|] == m.lookups;
    ghost var k := |m.keys|;
    ghost var keyed := metas;
    for i := 0 to |resolved|
      invariant |metas| == k + i && metas[..k] == keyed
      invariant forall j :: k <= j < k + i ==>
                  metas[j] == AccountMeta(resolved[j - k], false, j - k < WritableCount(m.lookups))
    {
      metas := metas + [AccountMeta(resolved[i], false, i < writableFromLookups)];
    }
    ghost var n := |metas|;
    ghost var loaded := metas;
    for i := 0 to |m.lookups|
      invariant |metas| == n + i && metas[..n] == loaded
      invariant forall j :: n <= j < n + i ==> metas[j] == AccountMeta(m.lookups[j - n].key, false, false)
    {
      metas := metas + [AccountMeta(m.lookups[i].key, false, false)];
    }
    assert metas[..k] == keyed;
    assert forall j :: 0 <= j < k ==> metas[j] == keyed[j];
    assert forall j :: k <= j < n ==> metas[j] == loaded[j];
  }

  /** What honest tables resolve to, in the order the runtime loads it. */
  ghost function Resolved(m: Message, tables: seq<AccountInfo>): seq<Address>
    requires |tables| == |m.lookups|
  {
    Flat(WritableParts(m.lookups, tables)) + Flat(ReadonlyParts(m.lookups, tables))
  }

  ghost function MetaAddresses(metas: seq<AccountMeta>): seq<Address> {
    seq(|metas|, i requires 0 <= i < |metas| => metas[i].address)
  }

  lemma ResolvedSize(m: Message, tables: seq<AccountInfo>)
    requires |tables| == |m.lookups|
    ensures |Resolved(m, tables)| == WritableCount(m.lookups) + ReadonlyCount(m.lookups)
  {
    hide Flat;
    var ls := m.lookups;
    assert ls[..|ls|] == ls;
    var writable, readonly := WritableParts(ls, tables), ReadonlyParts(ls, tables);
    assert writable[..|ls|] == writable && readonly[..|ls|] == readonly;
    PartSizes(ls, tables, |ls|);
  }

  /**
   * The program admits exactly the accounts the client lists, given tables that are active
   * and hold the indexes: no other addresses, and no other order.
   */
  lemma ClientListIsAdmitted(m: Message, views: seq<AccountInfo>, metas: seq<AccountMeta>)
    requires NumAllKeys(m) + |m.lookups| <= |views|
    requires var tables := views[NumAllKeys(m)..NumAllKeys(m) + |m.lookups|];
             && (forall i :: 0 <= i < |tables| ==>
                   && ActiveTable(tables[i])
                   && InTable(tables[i], m.lookups[i].writable)
                   && InTable(tables[i], m.lookups[i].readonly))
             && MetasFor(m, Resolved(m, tables), metas)
    ensures AccountsOk(m, views)
       <==> |metas| <= |views| && Addresses(views[..|metas|]) == MetaAddresses(metas)
  {
    hide Flat, Entries, InTable, ActiveTable, ClientIsWritable, WritableCount, ReadonlyCount;
    var n, ls := NumAllKeys(m), m.lookups;
    var tables := views[n..n + |ls|];
    ResolvedSize(m, tables);
    var named, passed := MetaAddresses(metas), Addresses(views[..n + |ls|]);
    assert named[..n] == Expected(m, tables);
    assert passed[..n] == Addresses(views[..n]);
    forall i | 0 <= i < |ls| ensures named[n + i] == ls[i].key && passed[n + i] == tables[i].address {
    }
    if passed == named {
      forall i | 0 <= i < |ls| ensures TableOk(ls[i], tables[i]) {
        assert passed[n + i] == named[n + i];
      }
    }
    if AccountsOk(m, views) {
      forall i | 0 <= i < |named| ensures passed[i] == named[i] {
        if i < n {
          assert passed[i] == passed[..n][i] && named[i] == named[..n][i];
        } else {
          assert TableOk(ls[i - n], tables[i - n]);
        }
      }
    }
  }

  lemma ListedCoversKeys(m: Message, tables: seq<AccountInfo>, metas: seq<AccountMeta>)
    requires |tables| == |m.lookups| && MetasFor(m, Resolved(m, tables), metas)
    ensures |metas| == NumAllKeys(m) + |m.lookups|
  {
    ResolvedSize(m, tables);
  }

  /** The client's writable flags are the program's, for every account it lists. */
  lemma ClientPrivilegesAgree(m: Message, v: MessageView, tables: seq<AccountInfo>, metas: seq<AccountMeta>, i: nat)
    requires ViewOf(v, m) && |tables| == |m.lookups|
    requires MetasFor(m, Resolved(m, tables), metas) && i < |metas|
    ensures metas[i].writable == v.IsWritable(i)
    ensures i < v.numAllKeys <==> i < |m.keys| + |Resolved(m, tables)|
  {
    ResolvedSize(m, tables);
  }
}
