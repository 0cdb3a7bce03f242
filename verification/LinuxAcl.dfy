/** The Linux ACL decoder of packages/storage/native-probe/src/rights-linux.cc and what the bytes it
    accepts mean. */
module LinuxAcl {
  import opened Options
  import opened RightsTypes

  type Byte = b: int | 0 <= b < 256

  const NO_ID: nat := 0xffff_ffff

  const OWNER: nat := 1
  const USER: nat := 2
  const GROUP: nat := 4
  const NAMED_GROUP: nat := 8
  const MASK: nat := 16
  const OTHER: nat := 32

  // ------------------------------------------------------------------ bytes and entries

  function Le16(bytes: seq<Byte>, i: nat): nat
    requires i + 2 <= |bytes|
  {
    bytes[i] as int + 256 * (bytes[i + 1] as int)
  }

  function Le32(bytes: seq<Byte>, i: nat): nat
    requires i + 4 <= |bytes|
  {
    Le16(bytes, i) + 65536 * Le16(bytes, i + 2)
  }

  datatype Entry = Entry(tag: nat, perm: nat, id: nat)

  /** The wire frame: version 2 and whole 8-byte entries, at most 64 KiB. */
  predicate Framed(bytes: seq<Byte>) {
    4 <= |bytes| <= 65536 && (|bytes| - 4) % 8 == 0 && Le32(bytes, 0) == 2
  }

  function EntryAt(bytes: seq<Byte>, k: nat): Entry
    requires 4 + 8 * k + 8 <= |bytes|
  {
    Entry(Le16(bytes, 4 + 8 * k), Le16(bytes, 4 + 8 * k + 2), Le32(bytes, 4 + 8 * k + 4))
  }

  function Entries(bytes: seq<Byte>): seq<Entry>
    requires |bytes| >= 4
  {
    seq((|bytes| - 4) / 8, k requires 0 <= k < (|bytes| - 4) / 8 => EntryAt(bytes, k))
  }

  // ------------------------------------------------------------------ which lists are ACLs

  predicate WellFormed(e: Entry) {
    && e.tag in {OWNER, USER, GROUP, NAMED_GROUP, MASK, OTHER}
    && e.perm <= 7
    && (if e.tag in {USER, NAMED_GROUP} then e.id != NO_ID else e.id == NO_ID)
  }

  predicate Before(a: Entry, b: Entry) {
    a.tag < b.tag || (a.tag == b.tag && a.id < b.id)
  }

  /** Strictly ascending by tag, then by qualifier. */
  predicate Ascending(es: seq<Entry>) {
    forall i | 0 <= i < |es| - 1 :: Before(es[i], es[i + 1])
  }

  function Count(es: seq<Entry>, tag: nat): nat {
    if es == [] then 0 else Count(es[..|es| - 1], tag) + if es[|es| - 1].tag == tag then 1 else 0
  }

  /** The order-blind rule: one owner, group and other, a mask whenever anything is named. */
  predicate Complete(es: seq<Entry>) {
    && (forall i | 0 <= i < |es| :: WellFormed(es[i]))
    && Count(es, OWNER) == 1 && Count(es, GROUP) == 1 && Count(es, OTHER) == 1 && Count(es, MASK) <= 1
    && (Count(es, USER) + Count(es, NAMED_GROUP) > 0 ==> Count(es, MASK) == 1)
  }

  predicate Canonical(es: seq<Entry>) {
    Complete(es) && Ascending(es)
  }

  lemma {:induction false} CountNone(es: seq<Entry>, tag: nat)
    ensures Count(es, tag) == 0 <==> forall i | 0 <= i < |es| :: es[i].tag != tag
  {
    if es != [] {
      CountNone(es[..|es| - 1], tag);
      assert forall i | 0 <= i < |es| - 1 :: es[i] == es[..|es| - 1][i];
    }
  }

  lemma {:induction false} TagsAscend(es: seq<Entry>, i: nat, j: nat)
    requires Ascending(es) && i < j < |es|
    ensures Before(es[i], es[j])
    decreases j - i
  {
    if i + 1 < j {
      TagsAscend(es, i + 1, j);
      assert Before(es[i], es[i + 1]);
    }
  }

  /** In an ascending list a tag that was skipped never comes back. */
  lemma {:induction false} SkippedStaysAbsent(es: seq<Entry>, k: nat, tag: nat)
    requires Ascending(es) && k < |es| && es[k].tag > tag && Count(es[..k], tag) == 0
    ensures Count(es, tag) == 0
  {
    CountNone(es[..k], tag);
    forall i | 0 <= i < |es| ensures es[i].tag != tag {
      if i < k {
        assert es[..k][i] == es[i];
      } else if i > k {
        TagsAscend(es, k, i);
      }
    }
    CountNone(es, tag);
  }

  // ------------------------------------------------------------------ what a list grants

  predicate InGroupClass(e: Entry, service: nat) {
    (e.tag == USER && e.id != service && e.id != 0) || e.tag == GROUP || e.tag == NAMED_GROUP
  }

  predicate Gives(e: Entry, p: Perm) { p in Bits(e.perm) }

  ghost predicate GroupGives(es: seq<Entry>, service: nat, p: Perm) {
    exists e :: e in es && InGroupClass(e, service) && Gives(e, p)
  }

  ghost predicate TagGives(es: seq<Entry>, tag: nat, p: Perm) {
    exists e :: e in es && e.tag == tag && Gives(e, p)
  }

  ghost function GroupBits(es: seq<Entry>, service: nat): set<Perm> {
    set p: Perm | GroupGives(es, service, p)
  }

  ghost function TagBits(es: seq<Entry>, tag: nat): set<Perm> {
    set p: Perm | TagGives(es, tag, p)
  }

  ghost function MaskBits(es: seq<Entry>): set<Perm> {
    if Count(es, MASK) == 0 then {Read, Write, Execute} else TagBits(es, MASK)
  }

  /** The decoder's bound: `ordinary | (grouped & mask)`. */
  ghost function Bound(es: seq<Entry>, service: nat): set<Perm> {
    TagBits(es, OTHER) + GroupBits(es, service) * MaskBits(es)
  }

  lemma {:induction false} GroupBitsExtend(es: seq<Entry>, e: Entry, service: nat)
    ensures GroupBits(es + [e], service) == GroupBits(es, service)
        + (if InGroupClass(e, service) then Bits(e.perm) else {})
  {
    assert forall x :: x in es + [e] <==> x in es || x == e;
    forall p: Perm
      ensures GroupGives(es + [e], service, p) <==>
              GroupGives(es, service, p) || (InGroupClass(e, service) && Gives(e, p))
    {
    }
  }

  lemma {:induction false} TagBitsExtend(es: seq<Entry>, e: Entry, tag: nat)
    ensures TagBits(es + [e], tag) == TagBits(es, tag) + (if e.tag == tag then Bits(e.perm) else {})
  {
    assert forall x :: x in es + [e] <==> x in es || x == e;
    forall p: Perm ensures TagGives(es + [e], tag, p) <==> TagGives(es, tag, p) || (e.tag == tag && Gives(e, p)) {
    }
  }

  lemma {:induction false} TagBitsNone(es: seq<Entry>, tag: nat)
    requires Count(es, tag) == 0
    ensures TagBits(es, tag) == {}
  {
    CountNone(es, tag);
  }

  // ------------------------------------------------------------------ the decoder

  datatype AclFacts = AclFacts(check: RightsCheck, risks: set<Risk>)

  const INVALID := AclFacts(RightsCheck(Unavailable, EINVAL), {})

  /** The parser's phase after an entry. */
  function PhaseOfTag(tag: nat): nat {
    if tag == OWNER then 1 else if tag == USER then 2 else if tag == GROUP then 3
    else if tag == NAMED_GROUP then 4 else if tag == MASK then 5 else 6
  }

  lemma {:induction false} ScanNone(es: seq<Entry>, service: nat)
    ensures forall tag :: Count(es[..0], tag) == 0
    ensures Ascending(es[..0])
    ensures GroupBits(es[..0], service) == {} && TagBits(es[..0], OTHER) == {}
        && MaskBits(es[..0]) == {Read, Write, Execute}
  {
    assert forall p :: !GroupGives(es[..0], service, p) && !TagGives(es[..0], OTHER, p);
  }

  /** How each quantity the loop tracks grows by one entry. */
  lemma {:induction false} ScanOne(es: seq<Entry>, k: nat, service: nat)
    requires k < |es| && WellFormed(es[k])
    ensures forall tag :: Count(es[..k + 1], tag) == Count(es[..k], tag) + if es[k].tag == tag then 1 else 0
    ensures Ascending(es[..k + 1]) <==> Ascending(es[..k]) && (k > 0 ==> Before(es[k - 1], es[k]))
    ensures GroupBits(es[..k + 1], service) == GroupBits(es[..k], service)
        + (if InGroupClass(es[k], service) then Bits(es[k].perm) else {})
    ensures TagBits(es[..k + 1], OTHER) == TagBits(es[..k], OTHER)
        + (if es[k].tag == OTHER then Bits(es[k].perm) else {})
    ensures es[k].tag != MASK ==> MaskBits(es[..k + 1]) == MaskBits(es[..k])
    ensures es[k].tag == MASK && Count(es[..k], MASK) == 0 ==> MaskBits(es[..k + 1]) == Bits(es[k].perm)
    ensures Count(es[..k], OTHER) == 0 ==> TagBits(es[..k], OTHER) == {}
  {
    var seen, next := es[..k], es[..k + 1];
    assert next == seen + [es[k]] && next[..k] == seen;
    assert forall i | 0 <= i < k :: next[i] == seen[i];
    GroupBitsExtend(seen, es[k], service);
    TagBitsExtend(seen, es[k], OTHER);
    TagBitsExtend(seen, es[k], MASK);
    if Count(seen, MASK) == 0 {
      TagBitsNone(seen, MASK);
    }
    if Count(seen, OTHER) == 0 {
      TagBitsNone(seen, OTHER);
    }
    AscendOne(es, k);
  }

  lemma {:induction false} AscendOne(es: seq<Entry>, k: nat)
    requires k < |es|
    ensures Ascending(es[..k + 1]) <==> Ascending(es[..k]) && (k > 0 ==> Before(es[k - 1], es[k]))
  {
    var seen, next := es[..k], es[..k + 1];
    if Ascending(next) {
      forall i | 0 <= i < |seen| - 1 ensures Before(seen[i], seen[i + 1]) {
        assert Before(next[i], next[i + 1]);
      }
      assert k > 0 ==> Before(next[k - 1], next[k - 1 + 1]);
    }
    if Ascending(seen) && (k > 0 ==> Before(es[k - 1], es[k])) {
      forall i | 0 <= i < |next| - 1 ensures Before(next[i], next[i + 1]) {
        assert i < k - 1 ==> Before(seen[i], seen[i + 1]);
      }
    }
  }

  /** The variables of the decoding loop. */
  datatype Scan = Scan(
    owner: nat, group: nat, other: nat, masks: nat, named: nat, phase: nat,
    previousUser: Option<nat>, previousGroup: Option<nat>,
    mask: set<Perm>, ordinary: set<Perm>, grouped: set<Perm>)

  const START := Scan(0, 0, 0, 0, 0, 0, None, None, {Read, Write, Execute}, {}, {})

  predicate NotAfter(id: nat, previous: Option<nat>) { previous.Some? && id <= previous.value }

  /** One round of the loop: the new variables, or none where the source returns EINVAL. */
  function Next(s: Scan, e: Entry, service: nat): Option<Scan> {
    if e.perm > 7 || (if e.tag == USER || e.tag == NAMED_GROUP then e.id == NO_ID else e.id != NO_ID) then None
    else if e.tag == OWNER then
      if s.phase != 0 || s.owner + 1 != 1 then None else Some(s.(owner := s.owner + 1, phase := 1))
    else if e.tag == USER then
      if s.phase > 2 || s.owner == 0 || NotAfter(e.id, s.previousUser) then None
      else Some(s.(phase := 2, previousUser := Some(e.id), named := s.named + 1,
                   grouped := if e.id != service && e.id != 0 then s.grouped + Bits(e.perm) else s.grouped))
    else if e.tag == GROUP then
      if s.phase > 2 || s.owner == 0 || s.group + 1 != 1 then None
      else Some(s.(group := s.group + 1, phase := 3, grouped := s.grouped + Bits(e.perm)))
    else if e.tag == NAMED_GROUP then
      if s.phase < 3 || s.phase > 4 || NotAfter(e.id, s.previousGroup) then None
      else Some(s.(phase := 4, previousGroup := Some(e.id), named := s.named + 1, grouped := s.grouped + Bits(e.perm)))
    else if e.tag == MASK then
      if s.phase < 3 || s.phase > 4 || s.masks + 1 != 1 then None
      else Some(s.(masks := s.masks + 1, phase := 5, mask := Bits(e.perm)))
    else if e.tag == OTHER then
      if s.phase < 3 || s.phase > 5 || s.other + 1 != 1 then None
      else Some(s.(other := s.other + 1, phase := 6, ordinary := Bits(e.perm)))
    else None
  }

  /** The loop's variables describe the first `k` entries, which are so far canonical. */
  ghost predicate Fits(s: Scan, es: seq<Entry>, k: nat, service: nat) {
    && k <= |es|
    && (forall i | 0 <= i < k :: WellFormed(es[i]))
    && Ascending(es[..k])
    && s.owner == Count(es[..k], OWNER) == (if s.phase >= 1 then 1 else 0)
    && s.group == Count(es[..k], GROUP) == (if s.phase >= 3 then 1 else 0)
    && s.other == Count(es[..k], OTHER) == (if s.phase >= 6 then 1 else 0)
    && s.masks == Count(es[..k], MASK) <= (if s.phase >= 5 then 1 else 0)
    && s.named == Count(es[..k], USER) + Count(es[..k], NAMED_GROUP)
    && s.phase == (if k == 0 then 0 else PhaseOfTag(es[k - 1].tag))
    && (s.phase < 2 ==> s.previousUser == None) && (s.phase == 2 ==> s.previousUser == Some(es[k - 1].id))
    && (s.phase < 4 ==> s.previousGroup == None) && (s.phase == 4 ==> s.previousGroup == Some(es[k - 1].id))
    && s.grouped == GroupBits(es[..k], service)
    && s.mask == MaskBits(es[..k])
    && s.ordinary == TagBits(es[..k], OTHER)
  }

  lemma {:induction false} NextFits(s: Scan, es: seq<Entry>, k: nat, service: nat)
    requires k < |es| && Fits(s, es, k, service)
    ensures Next(s, es[k], service).Some? ==> Fits(Next(s, es[k], service).value, es, k + 1, service)
    ensures Next(s, es[k], service).None? ==> !Canonical(es)
  {
    if WellFormed(es[k]) {
      ScanOne(es, k, service);
      hide Count, GroupBits, TagBits, MaskBits, Ascending;
      if Next(s, es[k], service).None? {
        OutOfOrder(es, k);
      }
    }
  }

  /** The phase machine accepts exactly the framed canonical lists, and its risks are those of the
      bound on the untrusted classes. */
  method DecodeLinuxAcl(bytes: seq<Byte>, service: nat) returns (r: AclFacts)
    ensures r.check.state == Satisfied <==> Framed(bytes) && Canonical(Entries(bytes))
    ensures r.check.state == Satisfied ==> r == AclFacts(RightsCheck(Satisfied, 0),
        PosixRisks(Bound(Entries(bytes), service)))
    ensures r.check.state != Satisfied ==> r == INVALID
  {
    if |bytes| < 28 || |bytes| > 65536 || (|bytes| - 4) % 8 != 0 || Le32(bytes, 0) != 2 {
      if Framed(bytes) && Complete(Entries(bytes)) {
        TooShort(Entries(bytes));
      }
      return INVALID;
    }
    ghost var es := Entries(bytes);
    ScanNone(es, service);
    var s := START;
    var k := 0;
    while 4 + 8 * k < |bytes|
      invariant Fits(s, es, k, service)
      decreases |es| - k
    {
      var next := Next(s, EntryAt(bytes, k), service);
      NextFits(s, es, k, service);
      if next.None? {
        return INVALID;
      }
      s, k := next.value, k + 1;
    }
    assert es[..k] == es;
    if s.owner != 1 || s.group != 1 || s.other != 1 || (s.named > 0 && s.masks != 1) {
      return INVALID;
    }
    r := AclFacts(RightsCheck(Satisfied, 0), PosixRisks(s.ordinary + s.grouped * s.mask));
  }

  /** Three entries are the least a complete list has. */
  lemma {:induction false} TooShort(es: seq<Entry>)
    requires Complete(es)
    ensures |es| >= 3
  {
    if |es| <= 2 {
      CountFew(es, OWNER);
      CountFew(es, GROUP);
      CountFew(es, OTHER);
    }
  }

  lemma {:induction false} CountFew(es: seq<Entry>, tag: nat)
    requires |es| <= 2
    ensures Count(es, tag) == (if |es| > 0 && es[0].tag == tag then 1 else 0)
        + (if |es| > 1 && es[1].tag == tag then 1 else 0)
  {
    if |es| == 2 {
      CountFew(es[..1], tag);
    }
  }

  /** Why each rejected step is right: the entry does not follow its predecessor, or it skips the
      owner or the owning group, which then can never appear. */
  lemma {:induction false} OutOfOrder(es: seq<Entry>, k: nat)
    requires k < |es|
    requires forall i | 0 <= i < k :: WellFormed(es[i])
    requires WellFormed(es[k])
    requires || (k > 0 && !Before(es[k - 1], es[k]))
             || (es[k].tag > OWNER && Count(es[..k], OWNER) == 0)
             || (es[k].tag > GROUP && Count(es[..k], GROUP) == 0)
    ensures !Canonical(es)
  {
    if Ascending(es) {
      if k > 0 {
        TagsAscend(es, k - 1, k);
      }
      if es[k].tag > OWNER && Count(es[..k], OWNER) == 0 {
        SkippedStaysAbsent(es, k, OWNER);
      } else {
        SkippedStaysAbsent(es, k, GROUP);
      }
    }
  }
}
