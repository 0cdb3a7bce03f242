/** The two other readers and writers of the ACL wire form: the order-blind validator of
    packages/storage/native-probe/src/security-linux.cc and the encoder of rights-test-posix.cc. */
module AclWire {
  import opened Options
  import opened LinuxAcl
  import opened RightsTypes

  // ------------------------------------------------------------------ the counting validator

  /** Accepts exactly the framed complete lists, in any order, and reports how many entries. */
  method ReadAcl(bytes: seq<Byte>) returns (entries: Option<nat>)
    ensures entries.Some? <==> Framed(bytes) && Complete(Entries(bytes))
    ensures entries.Some? ==> entries.value == |Entries(bytes)|
  {
    if |bytes| < 4 || |bytes| > 65536 || (|bytes| - 4) % 8 != 0 || Le32(bytes, 0) != 2 {
      return None;
    }
    ghost var es := Entries(bytes);
    var owner, group, other, mask, named := 0, 0, 0, 0, 0;
    var k := 0;
    assert es[..0] == [];
    assert Tallied(es, 0, 0, 0, 0, 0, 0);
    hide Tallied, Entries, EntryAt;
    while 4 + 8 * k < |bytes|
      invariant k <= |es|
      invariant forall i | 0 <= i < k :: WellFormed(es[i])
      invariant Tallied(es, k, owner, group, other, mask, named)
      decreases |es| - k
    {
      var e := EntryAt(bytes, k);
      assert es[k] == e;
      CountNext(es, k, owner, group, other, mask, named);
      if e.perm > 7 {
        return None;
      }
      match e.tag {
        case 1 => owner := owner + 1;
        case 4 => group := group + 1;
        case 32 => other := other + 1;
        case 16 => mask := mask + 1;
        case 2 => named := named + 1;
        case 8 => named := named + 1;
        case _ => return None;
      }
      if ((e.tag == USER || e.tag == NAMED_GROUP) && e.id == NO_ID)
          || (e.tag != USER && e.tag != NAMED_GROUP && e.id != NO_ID) {
        return None;
      }
      k := k + 1;
    }
    assert es[..k] == es;
    TalliedAll(es, owner, group, other, mask, named);
    if owner != 1 || group != 1 || other != 1 || mask > 1 || (named > 0 && mask != 1) {
      return None;
    }
    entries := Some((|bytes| - 4) / 8);
  }

  /** The counters after the first `k` entries. */
  predicate Tallied(es: seq<Entry>, k: nat, owner: nat, group: nat, other: nat, mask: nat, named: nat) {
    && k <= |es|
    && owner == Count(es[..k], OWNER) && group == Count(es[..k], GROUP) && other == Count(es[..k], OTHER)
    && mask == Count(es[..k], MASK) && named == Count(es[..k], USER) + Count(es[..k], NAMED_GROUP)
  }

  lemma {:induction false} TalliedAll(es: seq<Entry>, owner: nat, group: nat, other: nat, mask: nat, named: nat)
    requires Tallied(es, |es|, owner, group, other, mask, named)
    ensures owner == Count(es, OWNER) && group == Count(es, GROUP) && other == Count(es, OTHER)
    ensures mask == Count(es, MASK) && named == Count(es, USER) + Count(es, NAMED_GROUP)
  {
    assert es[..|es|] == es;
  }

  lemma {:induction false} CountNext(es: seq<Entry>, k: nat, owner: nat, group: nat, other: nat, mask: nat, named: nat)
    requires k < |es| && Tallied(es, k, owner, group, other, mask, named)
    ensures var tag := es[k].tag;
      Tallied(es, k + 1,
        owner + (if tag == OWNER then 1 else 0), group + (if tag == GROUP then 1 else 0),
        other + (if tag == OTHER then 1 else 0), mask + (if tag == MASK then 1 else 0),
        named + if tag == USER || tag == NAMED_GROUP then 1 else 0)
  {
    assert es[..k + 1][..k] == es[..k];
  }

  // ------------------------------------------------------------------ the encoder

  function Le16Of(value: nat): seq<Byte> { [value % 256, value / 256 % 256] }

  function Le32Of(value: nat): seq<Byte> { Le16Of(value % 65536) + Le16Of(value / 65536) }

  function EntryBytes(e: Entry): seq<Byte> { Le16Of(e.tag) + Le16Of(e.perm) + Le32Of(e.id) }

  function BytesOf(es: seq<Entry>): seq<Byte> {
    if es == [] then Le32Of(2) else BytesOf(es[..|es| - 1]) + EntryBytes(es[|es| - 1])
  }

  /** The byte vector the encoder appends to. */
  class AclWriter {
    var out: seq<Byte>

    constructor ()
      ensures out == []
    {
      out := [];
    }

    method U16(value: nat)
      modifies this
      ensures out == old(out) + Le16Of(value)
    {
      out := out + [value % 256];
      out := out + [value / 256 % 256];
    }

    method U32(value: nat)
      requires value < 0x1_0000_0000
      modifies this
      ensures out == old(out) + Le32Of(value)
    {
      U16(value % 65536);
      U16(value / 65536);
    }

    method AppendEntry(tag: nat, permissions: nat, id: nat)
      requires id < 0x1_0000_0000
      modifies this
      ensures out == old(out) + EntryBytes(Entry(tag, permissions, id))
    {
      U16(tag);
      U16(permissions);
      U32(id);
    }
  }

  /** A whole list written entry by entry. */
  method WriteAcl(es: seq<Entry>) returns (bytes: seq<Byte>)
    requires forall i | 0 <= i < |es| :: es[i].id < 0x1_0000_0000
    ensures bytes == BytesOf(es)
  {
    var writer := new AclWriter();
    writer.U32(2);
    for k := 0 to |es|
      invariant writer.out == BytesOf(es[..k])
    {
      assert es[..k + 1][..k] == es[..k];
      writer.AppendEntry(es[k].tag, es[k].perm, es[k].id);
    }
    assert es[..|es|] == es;
    bytes := writer.out;
  }

  // ------------------------------------------------------------------ round trips

  predicate Encodable(e: Entry) {
    e.tag < 65536 && e.perm < 65536 && e.id < 0x1_0000_0000
  }

  lemma {:induction false} EntryRoundTrip(prefix: seq<Byte>, e: Entry, k: nat)
    requires Encodable(e) && |prefix| == 4 + 8 * k
    ensures EntryAt(prefix + EntryBytes(e), k) == e
  {
    var bytes, at := prefix + EntryBytes(e), 4 + 8 * k;
    assert bytes[at] == e.tag % 256 && bytes[at + 1] == e.tag / 256 % 256;
    assert bytes[at + 2] == e.perm % 256 && bytes[at + 3] == e.perm / 256 % 256;
    assert bytes[at + 4] == e.id % 65536 % 256 && bytes[at + 5] == e.id % 65536 / 256 % 256;
    assert bytes[at + 6] == e.id / 65536 % 256 && bytes[at + 7] == e.id / 65536 / 256 % 256;
  }

  lemma {:induction false} Le16RoundTrip(bytes: seq<Byte>, i: nat)
    requires i + 2 <= |bytes|
    ensures Le16(bytes, i) < 65536 && Le16Of(Le16(bytes, i)) == bytes[i..i + 2]
  {
    var low, high := bytes[i] as nat, bytes[i + 1] as nat;
    assert (low + 256 * high) % 256 == low && (low + 256 * high) / 256 == high;
  }

  lemma {:induction false} Le32RoundTrip(bytes: seq<Byte>, i: nat)
    requires i + 4 <= |bytes|
    ensures Le32(bytes, i) < 0x1_0000_0000 && Le32Of(Le32(bytes, i)) == bytes[i..i + 4]
  {
    Le16RoundTrip(bytes, i);
    Le16RoundTrip(bytes, i + 2);
    var low, high := Le16(bytes, i), Le16(bytes, i + 2);
    assert (low + 65536 * high) % 65536 == low && (low + 65536 * high) / 65536 == high;
    assert bytes[i..i + 4] == bytes[i..i + 2] + bytes[i + 2..i + 4];
    hide Le16, Le16Of;
  }

  lemma {:induction false} EntryBytesRoundTrip(bytes: seq<Byte>, k: nat)
    requires 4 + 8 * k + 8 <= |bytes|
    ensures Encodable(EntryAt(bytes, k))
    ensures EntryBytes(EntryAt(bytes, k)) == bytes[4 + 8 * k..4 + 8 * k + 8]
  {
    var e, at := EntryAt(bytes, k), 4 + 8 * k;
    Le16RoundTrip(bytes, at);
    Le16RoundTrip(bytes, at + 2);
    Le32RoundTrip(bytes, at + 4);
    hide Le16, Le32, Le16Of, Le32Of;
    assert bytes[at..at + 8] == bytes[at..at + 2] + bytes[at + 2..at + 4] + bytes[at + 4..at + 8];
  }

  lemma {:induction false} VersionAtPrefix(a: seq<Byte>, b: seq<Byte>)
    requires |a| >= 4
    ensures Le32(a + b, 0) == Le32(a, 0)
  {
  }

  lemma {:induction false} EntryAtPrefix(a: seq<Byte>, b: seq<Byte>, k: nat)
    requires 4 + 8 * k + 8 <= |a|
    ensures EntryAt(a + b, k) == EntryAt(a, k)
  {
  }

  /** Encoding and reading back gives the list. */
  lemma {:induction false} EntriesOfBytes(es: seq<Entry>)
    requires forall i | 0 <= i < |es| :: Encodable(es[i])
    ensures |BytesOf(es)| == 4 + 8 * |es| && Le32(BytesOf(es), 0) == 2
    ensures Entries(BytesOf(es)) == es
  {
    if es == [] {
      assert Le32(BytesOf(es), 0) == 2;
    } else {
      var last := |es| - 1;
      var before, bytes := BytesOf(es[..last]), BytesOf(es);
      EntriesOfBytes(es[..last]);
      assert bytes == before + EntryBytes(es[last]) && |EntryBytes(es[last])| == 8;
      hide BytesOf, EntryBytes, EntryAt, Le32, Le16, Le32Of, Le16Of;
      VersionAtPrefix(before, EntryBytes(es[last]));
      EntryRoundTrip(before, es[last], last);
      forall k | 0 <= k < last ensures EntryAt(bytes, k) == es[k] {
        EntryAtPrefix(before, EntryBytes(es[last]), k);
        assert EntryAt(before, k) == Entries(before)[k];
      }
    }
  }

  /** Reading and encoding again gives the bytes. */
  lemma {:induction false} BytesOfEntries(bytes: seq<Byte>, n: nat)
    requires 4 + 8 * n <= |bytes| && Le32(bytes, 0) == 2
    ensures BytesOf(FirstEntries(bytes, n)) == bytes[..4 + 8 * n]
  {
    if n == 0 {
      VersionBytes(bytes);
    } else {
      BytesOfEntries(bytes, n - 1);
      FirstEntriesGrow(bytes, n);
      hide Le16, Le32, Le16Of, Le32Of, EntryAt, EntryBytes, FirstEntries;
      EntryBytesRoundTrip(bytes, n - 1);
      var at := 4 + 8 * (n - 1);
      assert bytes[..at + 8] == bytes[..at] + bytes[at..at + 8];
    }
  }

  function FirstEntries(bytes: seq<Byte>, n: nat): seq<Entry>
    requires 4 + 8 * n <= |bytes|
  {
    seq(n, k requires 0 <= k < n => EntryAt(bytes, k))
  }

  lemma {:induction false} FirstEntriesGrow(bytes: seq<Byte>, n: nat)
    requires 0 < n && 4 + 8 * n <= |bytes|
    ensures var es := FirstEntries(bytes, n);
      |es| == n && es[n - 1] == EntryAt(bytes, n - 1) && es[..n - 1] == FirstEntries(bytes, n - 1)
  {
  }

  lemma {:induction false} VersionBytes(bytes: seq<Byte>)
    requires |bytes| >= 4 && Le32(bytes, 0) == 2
    ensures BytesOf(FirstEntries(bytes, 0)) == bytes[..4]
  {
    var low, high := Le16(bytes, 0), Le16(bytes, 2);
    assert high == 0 && low == 2;
    assert bytes[..4] == [2, 0, 0, 0];
  }

  // ------------------------------------------------------------------ the grammar

  /** An ACL as its parts; named entries are pairs of qualifier and permission digit. */
  datatype Acl = Acl(owner: nat, users: seq<(nat, nat)>, group: nat, groups: seq<(nat, nat)>, mask: Option<nat>,
      other: nat)

  predicate NamedOk(named: seq<(nat, nat)>) {
    && (forall i | 0 <= i < |named| :: named[i].0 < NO_ID && named[i].1 <= 7)
    && (forall i | 0 <= i < |named| - 1 :: named[i].0 < named[i + 1].0)
  }

  /** The grammar: digits, strictly ascending qualifiers, and a mask whenever anything is named. */
  predicate AclOk(a: Acl) {
    && a.owner <= 7 && a.group <= 7 && a.other <= 7 && (a.mask.Some? ==> a.mask.value <= 7)
    && NamedOk(a.users) && NamedOk(a.groups)
    && (a.users != [] || a.groups != [] ==> a.mask.Some?)
  }

  function Named(tag: nat, named: seq<(nat, nat)>): seq<Entry> {
    seq(|named|, i requires 0 <= i < |named| => Entry(tag, named[i].1, named[i].0))
  }

  function MaskEntries(mask: Option<nat>): seq<Entry> {
    if mask.Some? then [Entry(MASK, mask.value, NO_ID)] else []
  }

  function EntriesOf(a: Acl): seq<Entry> {
    [Entry(OWNER, a.owner, NO_ID)] + Named(USER, a.users) + [Entry(GROUP, a.group, NO_ID)]
    + Named(NAMED_GROUP, a.groups) + MaskEntries(a.mask) + [Entry(OTHER, a.other, NO_ID)]
  }

  lemma {:induction false} CountJoin(a: seq<Entry>, b: seq<Entry>, tag: nat)
    ensures Count(a + b, tag) == Count(a, tag) + Count(b, tag)
    decreases |b|
  {
    if b == [] {
      assert a + b == a;
    } else {
      assert (a + b)[..|a + b| - 1] == a + b[..|b| - 1];
      CountJoin(a, b[..|b| - 1], tag);
    }
  }

  lemma {:induction false} CountUniform(es: seq<Entry>, tag: nat, other: nat)
    requires forall i | 0 <= i < |es| :: es[i].tag == tag
    ensures Count(es, other) == if other == tag then |es| else 0
  {
    if es != [] {
      CountUniform(es[..|es| - 1], tag, other);
    }
  }

  lemma {:induction false} AscendJoin(a: seq<Entry>, b: seq<Entry>)
    requires Ascending(a) && Ascending(b)
    requires a != [] && b != [] ==> Before(a[|a| - 1], b[0])
    ensures Ascending(a + b)
  {
    forall i | 0 <= i < |a + b| - 1 ensures Before((a + b)[i], (a + b)[i + 1]) {
      if i + 1 < |a| {
        assert Before(a[i], a[i + 1]);
      } else if i >= |a| {
        assert Before(b[i - |a|], b[i - |a| + 1]);
      }
    }
  }

  lemma {:induction false} GrammarCounts(a: Acl, tag: nat)
    ensures Count(EntriesOf(a), tag)
         == if tag == OWNER || tag == GROUP || tag == OTHER then 1
            else if tag == USER then |a.users|
            else if tag == NAMED_GROUP then |a.groups|
            else if tag == MASK && a.mask.Some? then 1 else 0
  {
    var owner, users, group := [Entry(OWNER, a.owner, NO_ID)], Named(USER, a.users), [Entry(GROUP, a.group, NO_ID)];
    var groups, mask, other := Named(NAMED_GROUP, a.groups), MaskEntries(a.mask), [Entry(OTHER, a.other, NO_ID)];
    CountJoin(owner, users, tag);
    CountJoin(owner + users, group, tag);
    CountJoin(owner + users + group, groups, tag);
    CountJoin(owner + users + group + groups, mask, tag);
    CountJoin(owner + users + group + groups + mask, other, tag);
    CountUniform(owner, OWNER, tag);
    CountUniform(users, USER, tag);
    CountUniform(group, GROUP, tag);
    CountUniform(groups, NAMED_GROUP, tag);
    CountUniform(mask, MASK, tag);
    CountUniform(other, OTHER, tag);
    hide Count;
  }

  lemma {:induction false} GrammarAscends(a: Acl)
    requires NamedOk(a.users) && NamedOk(a.groups)
    ensures Ascending(EntriesOf(a))
  {
    var owner, users, group := [Entry(OWNER, a.owner, NO_ID)], Named(USER, a.users), [Entry(GROUP, a.group, NO_ID)];
    var groups, mask, other := Named(NAMED_GROUP, a.groups), MaskEntries(a.mask), [Entry(OTHER, a.other, NO_ID)];
    assert Ascending(owner) && Ascending(users) && Ascending(group) && Ascending(groups) && Ascending(mask)
        && Ascending(other);
    hide Ascending;
    AscendJoin(owner, users);
    AscendJoin(owner + users, group);
    AscendJoin(owner + users + group, groups);
    AscendJoin(owner + users + group + groups, mask);
    AscendJoin(owner + users + group + groups + mask, other);
  }

  /** Every sentence of the grammar is a canonical list. */
  lemma {:induction false} GrammarIsCanonical(a: Acl)
    requires AclOk(a)
    ensures Canonical(EntriesOf(a))
  {
    GrammarAscends(a);
    GrammarCounts(a, OWNER);
    GrammarCounts(a, USER);
    GrammarCounts(a, GROUP);
    GrammarCounts(a, NAMED_GROUP);
    GrammarCounts(a, MASK);
    GrammarCounts(a, OTHER);
    hide Count, Ascending;
  }

  /** Where the entries with at least a given tag begin. */
  function Cut(es: seq<Entry>, tag: nat): (c: nat)
    ensures c <= |es|
  {
    if es == [] then 0
    else if es[|es| - 1].tag < tag then |es|
    else Cut(es[..|es| - 1], tag)
  }

  function TagAt(es: seq<Entry>, i: int): nat { if 0 <= i < |es| then es[i].tag else OTHER }

  lemma {:induction false} CutSplits(es: seq<Entry>, tag: nat)
    requires Ascending(es)
    ensures forall i | 0 <= i < Cut(es, tag) :: es[i].tag < tag
    ensures forall i | Cut(es, tag) <= i < |es| :: es[i].tag >= tag
  {
    if es != [] {
      var last := |es| - 1;
      if es[last].tag < tag {
        forall i | 0 <= i < last ensures es[i].tag < tag {
          TagsAscend(es, i, last);
        }
      } else {
        assert forall i | 0 <= i < last - 1 :: Before(es[i], es[i + 1]);
        CutSplits(es[..last], tag);
        assert forall i | 0 <= i < last :: es[i] == es[..last][i];
      }
    }
  }

  lemma {:induction false} CutUnique(es: seq<Entry>, tag: nat, c: nat)
    requires Ascending(es) && c <= |es|
    requires forall i | 0 <= i < c :: es[i].tag < tag
    requires forall i | c <= i < |es| :: es[i].tag >= tag
    ensures Cut(es, tag) == c
  {
    CutSplits(es, tag);
    var d := Cut(es, tag);
    assert d < c ==> TagAt(es, d) < tag;
    assert c < d ==> TagAt(es, c) >= tag;
  }

  lemma {:induction false} CountIsWidth(es: seq<Entry>, tag: nat)
    requires Ascending(es)
    ensures Cut(es, tag) + Count(es, tag) == Cut(es, tag + 1)
  {
    CutSplits(es, tag);
    CutSplits(es, tag + 1);
    var lo, hi := Cut(es, tag), Cut(es, tag + 1);
    assert hi < lo ==> TagAt(es, hi) < tag;
    var below, at, above := es[..lo], es[lo..hi], es[hi..];
    assert es == below + at + above;
    CountJoin(below, at, tag);
    CountJoin(below + at, above, tag);
    CountNone(below, tag);
    CountNone(above, tag);
    CountUniform(at, tag, tag);
  }

  lemma {:induction false} NoTagBetween(es: seq<Entry>, low: nat, high: nat)
    requires Ascending(es) && low <= high
    requires forall i | 0 <= i < |es| :: es[i].tag < low || es[i].tag >= high
    ensures Cut(es, low) == Cut(es, high)
  {
    CutSplits(es, low);
    CutUnique(es, high, Cut(es, low));
  }

  /** The cuts of a canonical list, counted from its front. */
  lemma {:induction false} CutPositions(es: seq<Entry>)
    requires Canonical(es)
    ensures Cut(es, OWNER) == 0 && Cut(es, USER) == 1
    ensures Cut(es, GROUP) == 1 + Count(es, USER)
    ensures Cut(es, NAMED_GROUP) == Cut(es, GROUP) + 1
    ensures Cut(es, MASK) == Cut(es, NAMED_GROUP) + Count(es, NAMED_GROUP)
    ensures Cut(es, OTHER) == Cut(es, MASK) + Count(es, MASK)
    ensures |es| == Cut(es, OTHER) + 1
  {
    assert forall i | 0 <= i < |es| :: WellFormed(es[i]);
    CutUnique(es, OWNER, 0);
    CutUnique(es, OTHER + 1, |es|);
    hide Cut, Count, Ascending;
    NoTagBetween(es, USER + 1, GROUP);
    NoTagBetween(es, GROUP + 1, NAMED_GROUP);
    NoTagBetween(es, NAMED_GROUP + 1, MASK);
    NoTagBetween(es, MASK + 1, OTHER);
    CountIsWidth(es, OWNER);
    CountIsWidth(es, USER);
    CountIsWidth(es, GROUP);
    CountIsWidth(es, NAMED_GROUP);
    CountIsWidth(es, MASK);
    CountIsWidth(es, OTHER);
  }

  function PairsOf(es: seq<Entry>): seq<(nat, nat)> {
    seq(|es|, i requires 0 <= i < |es| => (es[i].id, es[i].perm))
  }

  /** The parts of a list whose named entries end at `g` and `m`. */
  function PartsOf(es: seq<Entry>, g: nat, m: nat): Acl
    requires 1 <= g < m < |es|
  {
    Acl(es[0].perm, PairsOf(es[1..g]), es[g].perm, PairsOf(es[g + 1..m]),
        if m == |es| - 1 then None else Some(es[m].perm), es[|es| - 1].perm)
  }

  /** Where the tags of a canonical list lie. */
  lemma {:induction false} TagLayout(es: seq<Entry>) returns (g: nat, m: nat)
    requires Canonical(es)
    ensures 1 <= g < m < |es| && |es| - 2 <= m
    ensures es[0].tag == OWNER && es[g].tag == GROUP && es[|es| - 1].tag == OTHER
    ensures forall i | 1 <= i < g :: es[i].tag == USER
    ensures forall i | g < i < m :: es[i].tag == NAMED_GROUP
    ensures m == |es| - 2 ==> es[m].tag == MASK
    ensures g > 1 || m > g + 1 ==> m == |es| - 2
  {
    assert forall i | 0 <= i < |es| :: WellFormed(es[i]);
    CutPositions(es);
    CutSplits(es, USER);
    CutSplits(es, GROUP);
    CutSplits(es, NAMED_GROUP);
    CutSplits(es, MASK);
    CutSplits(es, OTHER);
    g, m := Cut(es, GROUP), Cut(es, MASK);
    hide Cut, Count, Ascending;
  }

  lemma {:induction false} NamedRun(es: seq<Entry>, lo: nat, hi: nat, tag: nat)
    requires Ascending(es) && lo <= hi <= |es| && tag in {USER, NAMED_GROUP}
    requires forall i | lo <= i < hi :: es[i].tag == tag && WellFormed(es[i]) && es[i].id <= NO_ID
    ensures NamedOk(PairsOf(es[lo..hi])) && Named(tag, PairsOf(es[lo..hi])) == es[lo..hi]
  {
    var named := PairsOf(es[lo..hi]);
    forall i | 0 <= i < |named| - 1 ensures named[i].0 < named[i + 1].0 {
      assert Before(es[lo + i], es[lo + i + 1]);
    }
    forall i | 0 <= i < |named| ensures named[i].0 < NO_ID && named[i].1 <= 7 {
      assert WellFormed(es[lo + i]);
    }
  }

  /** Every canonical list of 32-bit qualifiers is a sentence of the grammar. */
  lemma {:induction false} CanonicalIsGrammar(es: seq<Entry>) returns (a: Acl)
    requires Canonical(es) && forall i | 0 <= i < |es| :: es[i].id <= NO_ID
    ensures AclOk(a) && EntriesOf(a) == es
  {
    assert forall i | 0 <= i < |es| :: WellFormed(es[i]);
    var g, m := TagLayout(es);
    a := PartsOf(es, g, m);
    assert Ascending(es);
    hide Canonical, Ascending, Count;
    NamedRun(es, 1, g, USER);
    NamedRun(es, g + 1, m, NAMED_GROUP);
    PartsEntries(es, g, m);
  }

  lemma {:induction false} PartsEntries(es: seq<Entry>, g: nat, m: nat)
    requires 1 <= g < m < |es| && |es| - 2 <= m
    requires forall i | 0 <= i < |es| :: WellFormed(es[i])
    requires es[0].tag == OWNER && es[g].tag == GROUP && es[|es| - 1].tag == OTHER
        && (m == |es| - 2 ==> es[m].tag == MASK)
    requires Named(USER, PairsOf(es[1..g])) == es[1..g] && Named(NAMED_GROUP, PairsOf(es[g + 1..m])) == es[g + 1..m]
    ensures EntriesOf(PartsOf(es, g, m)) == es
  {
    var n, a := |es|, PartsOf(es, g, m);
    assert WellFormed(es[0]) && WellFormed(es[g]) && WellFormed(es[m]) && WellFormed(es[n - 1]);
    assert es[m..n] == MaskEntries(a.mask) + [es[n - 1]];
    hide Named, PairsOf, MaskEntries, WellFormed;
    assert es == [es[0]] + es[1..g] + [es[g]] + es[g + 1..m] + es[m..n];
  }

  lemma {:induction false} DecodedIsEncoded(bytes: seq<Byte>) returns (a: Acl)
    requires Framed(bytes) && Canonical(Entries(bytes))
    ensures AclOk(a) && bytes == BytesOf(EntriesOf(a))
  {
    var es := Entries(bytes);
    BytesOfEntries(bytes, |es|);
    assert FirstEntries(bytes, |es|) == es;
    assert bytes[..4 + 8 * |es|] == bytes;
    a := CanonicalIsGrammar(es);
  }

  lemma {:induction false} EncodedIsDecoded(a: Acl)
    requires AclOk(a) && |BytesOf(EntriesOf(a))| <= 65536
    ensures Framed(BytesOf(EntriesOf(a))) && Entries(BytesOf(EntriesOf(a))) == EntriesOf(a) && Canonical(EntriesOf(a))
  {
    GrammarIsCanonical(a);
    SentencesEncodable(a);
    hide AclOk, EntriesOf, Encodable, Canonical, Entries, BytesOf, Le32;
    EntriesOfBytes(EntriesOf(a));
  }

  lemma {:induction false} SentencesEncodable(a: Acl)
    requires AclOk(a)
    ensures forall i | 0 <= i < |EntriesOf(a)| :: Encodable(EntriesOf(a)[i])
  {
  }

  /** The decoder's language: exactly the encodings of the grammar's sentences that fit the frame. */
  lemma {:induction false} LanguageOfDecoder(bytes: seq<Byte>)
    ensures Framed(bytes) && Canonical(Entries(bytes))
       <==> |bytes| <= 65536 && exists a :: AclOk(a) && bytes == BytesOf(EntriesOf(a))
  {
    hide Canonical, Entries, BytesOf, EntriesOf, AclOk;
    if Framed(bytes) && Canonical(Entries(bytes)) {
      var a := DecodedIsEncoded(bytes);
    }
    if |bytes| <= 65536 && exists a :: AclOk(a) && bytes == BytesOf(EntriesOf(a)) {
      var a :| AclOk(a) && bytes == BytesOf(EntriesOf(a));
      EncodedIsDecoded(a);
    }
  }

  /** Encoding an ACL and decoding the bytes is accepted, and reports the risks of its parts. */
  method EncodeThenDecode(a: Acl, service: nat) returns (facts: AclFacts)
    requires AclOk(a) && |EntriesOf(a)| <= 8191
    ensures facts == AclFacts(RightsCheck(Satisfied, 0), PosixRisks(Bound(EntriesOf(a), service)))
  {
    FitsFrame(a);
    EncodedIsDecoded(a);
    hide AclOk, EntriesOf, BytesOf, Entries, Canonical, Framed, Bound, PosixRisks;
    var bytes := WriteAcl(EntriesOf(a));
    facts := DecodeLinuxAcl(bytes, service);
  }

  lemma {:induction false} FitsFrame(a: Acl)
    requires AclOk(a) && |EntriesOf(a)| <= 8191
    ensures |BytesOf(EntriesOf(a))| <= 65536
    ensures forall i | 0 <= i < |EntriesOf(a)| :: EntriesOf(a)[i].id < 0x1_0000_0000
  {
    SentencesEncodable(a);
    assert forall i | 0 <= i < |EntriesOf(a)| :: Encodable(EntriesOf(a)[i]);
    hide AclOk, EntriesOf, Entries, BytesOf, Le32;
    EntriesOfBytes(EntriesOf(a));
  }
}
