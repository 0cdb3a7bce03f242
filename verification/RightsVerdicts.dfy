/** The rights probe spelled out in numbers: which lists are ACLs, which permission digits count as which
    risk, and when each verdict on a directory is satisfied. */
module RightsVerdicts {
  import opened Options
  import opened AclAccess
  import opened DirectoryChain
  import opened LinuxAcl
  import opened RightsModel
  import opened RightsTypes

  // ------------------------------------------------------------------ lists in numbers

  predicate EntryPlainly(e: Entry) {
    && e.tag in {1, 2, 4, 8, 16, 32} && e.perm <= 7
    && (e.tag in {2, 8} <==> e.id != 4294967295)
  }

  /** Well-formed entries in strictly ascending order of tag and id; the owner, the owning group and the others
      have one, and the mask too where a user or a group is named. */
  ghost predicate AclPlainly(es: seq<Entry>) {
    && AllPlainly(es)
    && (exists e :: e in es && e.tag == 1) && (exists e :: e in es && e.tag == 4)
        && (exists e :: e in es && e.tag == 32)
    && ((exists e :: e in es && e.tag in {2, 8}) ==> exists e :: e in es && e.tag == 16)
  }

  lemma {:induction false} CountSome(es: seq<Entry>, tag: nat)
    ensures Count(es, tag) > 0 <==> exists e :: e in es && e.tag == tag
  {
    CountNone(es, tag);
    if e :| e in es && e.tag == tag {
      var i :| 0 <= i < |es| && es[i] == e;
    }
    if Count(es, tag) > 0 {
      var i :| 0 <= i < |es| && es[i].tag == tag;
      assert es[i] in es;
    }
  }

  /** A tag whose entries all have one id comes at most once. */
  lemma {:induction false} CountOnce(es: seq<Entry>, tag: nat)
    requires forall i, j | 0 <= i < j < |es| :: Before(es[i], es[j])
    requires forall i | 0 <= i < |es| && es[i].tag == tag :: es[i].id == NO_ID
    ensures Count(es, tag) <= 1
  {
    if es != [] {
      var last := |es| - 1;
      CountOnce(es[..last], tag);
      if es[last].tag == tag {
        CountNone(es[..last], tag);
        assert forall i | 0 <= i < last :: Before(es[i], es[last]);
      }
    }
  }

  lemma {:induction false} CanonicalPlainly(es: seq<Entry>)
    ensures Canonical(es) <==> AclPlainly(es)
  {
    EntriesPlainly(es);
    CountSome(es, 1);
    CountSome(es, 2);
    CountSome(es, 4);
    CountSome(es, 8);
    CountSome(es, 16);
    CountSome(es, 32);
    hide Count, WellFormed, EntryPlainly, Ascending;
    if AllPlainly(es) {
      CountOnce(es, 1);
      CountOnce(es, 4);
      CountOnce(es, 16);
      CountOnce(es, 32);
    }
  }

  /** The part of the rule that speaks of each entry and of the order. */
  ghost predicate AllPlainly(es: seq<Entry>) {
    && (forall i | 0 <= i < |es| :: EntryPlainly(es[i]))
    && (forall i, j | 0 <= i < j < |es| :: es[i].tag < es[j].tag || (es[i].tag == es[j].tag && es[i].id < es[j].id))
  }

  lemma {:induction false} EntriesPlainly(es: seq<Entry>)
    ensures AllPlainly(es) <==> (forall i | 0 <= i < |es| :: WellFormed(es[i])) && Ascending(es)
    ensures AllPlainly(es) ==>
              && (forall i, j | 0 <= i < j < |es| :: Before(es[i], es[j]))
              && forall i | 0 <= i < |es| && es[i].tag in {1, 4, 16, 32} :: es[i].id == NO_ID
  {
    assert forall i | 0 <= i < |es| :: WellFormed(es[i]) <==> EntryPlainly(es[i]);
    if Ascending(es) {
      forall i, j | 0 <= i < j < |es| ensures Before(es[i], es[j]) {
        TagsAscend(es, i, j);
      }
    }
  }

  // ------------------------------------------------------------------ risks in numbers

  predicate InClass(e: Entry, service: nat) {
    e.tag == 4 || e.tag == 8 || (e.tag == 2 && e.id != service && e.id != 0)
  }

  /** The others' entry has one of these digits; or a group or a user other than the service and the
      superuser has, and so does the mask where there is one. */
  ghost predicate Exposes(es: seq<Entry>, service: nat, digits: set<nat>) {
    || (exists e :: e in es && e.tag == 32 && e.perm in digits)
    || ((exists e :: e in es && InClass(e, service) && e.perm in digits)
        && forall m | m in es && m.tag == 16 :: m.perm in digits)
  }

  function Digits(r: Perm): set<nat> {
    match r
    case Read => {4, 5, 6, 7}
    case Write => {2, 3, 6, 7}
    case Execute => {1, 3, 5, 7}
  }

  lemma {:induction false} BitsAreDigits(n: nat, r: Perm)
    requires n <= 7
    ensures r in Bits(n) <==> n in Digits(r)
  {
  }

  lemma {:induction false} BoundPlainly(es: seq<Entry>, service: nat, r: Perm)
    requires Canonical(es)
    ensures r in Bound(es, service) <==> Exposes(es, service, Digits(r))
  {
    forall e | e in es ensures Gives(e, r) <==> e.perm in Digits(r) {
      var i :| 0 <= i < |es| && es[i] == e;
      assert WellFormed(es[i]);
      BitsAreDigits(e.perm, r);
    }
    MaskPlainly(es, r);
    hide Bits, Digits, Gives, Canonical, MaskBits;
    assert r in TagBits(es, OTHER) <==> exists e :: e in es && e.tag == 32 && e.perm in Digits(r);
    assert r in GroupBits(es, service) <==> exists e :: e in es && InClass(e, service) && e.perm in Digits(r);
  }

  lemma {:induction false} MaskPlainly(es: seq<Entry>, r: Perm)
    requires Canonical(es)
    ensures r in MaskBits(es) <==> forall m | m in es && m.tag == 16 :: m.perm in Digits(r)
  {
    CountSome(es, 16);
    forall e | e in es ensures Gives(e, r) <==> e.perm in Digits(r) {
      var i :| 0 <= i < |es| && es[i] == e;
      assert WellFormed(es[i]);
      BitsAreDigits(e.perm, r);
    }
    forall m, n | m in es && n in es && m.tag == n.tag == 16 ensures m == n {
      var i :| 0 <= i < |es| && es[i] == m;
      var j :| 0 <= j < |es| && es[j] == n;
      if i < j {
        TagsAscend(es, i, j);
      } else if j < i {
        TagsAscend(es, j, i);
      }
      assert WellFormed(es[i]) && WellFormed(es[j]);
    }
    hide Bits, Digits, Gives, Canonical, Count;
  }

  ghost predicate Accepted(q: Query) {
    && q.Answer? && 4 <= |q.bytes| <= 65536 && |q.bytes| % 8 == 4
    && q.bytes[0] == 2 && q.bytes[1] == q.bytes[2] == q.bytes[3] == 0
    && AclPlainly(Entries(q.bytes))
  }

  /** What the answer to a query establishes: nothing unless it is a list in the frame of version 2, and then
      reading, changing and searching exactly where a digit of at least 4, with a 2 in it or odd lets them. */
  lemma {:induction false} DecodedExactly(q: Query, service: nat)
    ensures var r := Decoded(q, service);
      && (r.check.state == Satisfied <==> Accepted(q))
      && (!Accepted(q) ==>
            && r.risks == {}
            && r.check == RightsCheck(if q == Failed(95) then Unsupported else Unavailable,
                                      if q.Failed? then q.errno else 22))
      && (Accepted(q) ==>
            var es := Entries(q.bytes);
            && (ReadContent in r.risks <==> Exposes(es, service, {4, 5, 6, 7}))
            && (ChangeNamespace in r.risks <==> Exposes(es, service, {2, 3, 6, 7}))
            && (DeleteChild in r.risks <==> Exposes(es, service, {2, 3, 6, 7}))
            && (Traverse in r.risks <==> Exposes(es, service, {1, 3, 5, 7}))
            && ChangeMetadata !in r.risks && DeleteObject !in r.risks)
  {
    AcceptedExactly(q);
    if Accepted(q) {
      RisksPlainly(Entries(q.bytes), service);
    }
    hide Accepted, Exposes, PosixRisks, Bound, Entries, Framed, Canonical;
  }

  lemma {:induction false} AcceptedExactly(q: Query)
    ensures Accepted(q) <==> q.Answer? && Framed(q.bytes) && Canonical(Entries(q.bytes))
  {
    if q.Answer? && |q.bytes| >= 4 {
      FramePlainly(q.bytes);
      CanonicalPlainly(Entries(q.bytes));
    }
    hide Canonical, AclPlainly, Entries;
  }

  lemma {:induction false} RisksPlainly(es: seq<Entry>, service: nat)
    requires Canonical(es)
    ensures var risks := PosixRisks(Bound(es, service));
      && (ReadContent in risks <==> Exposes(es, service, {4, 5, 6, 7}))
      && (ChangeNamespace in risks <==> Exposes(es, service, {2, 3, 6, 7}))
      && (DeleteChild in risks <==> Exposes(es, service, {2, 3, 6, 7}))
      && (Traverse in risks <==> Exposes(es, service, {1, 3, 5, 7}))
      && ChangeMetadata !in risks && DeleteObject !in risks
  {
    BoundPlainly(es, service, Read);
    BoundPlainly(es, service, Write);
    BoundPlainly(es, service, Execute);
    RisksOfBits(Bound(es, service));
    hide Exposes, Bound, Canonical, PosixRisks;
  }

  lemma {:induction false} RisksOfBits(bits: set<Perm>)
    ensures var risks := PosixRisks(bits);
      && (ReadContent in risks <==> Read in bits) && (Traverse in risks <==> Execute in bits)
      && (ChangeNamespace in risks <==> Write in bits) && (DeleteChild in risks <==> Write in bits)
      && ChangeMetadata !in risks && DeleteObject !in risks
  {
  }

  lemma {:induction false} FramePlainly(bytes: seq<Byte>)
    requires |bytes| >= 4
    ensures Framed(bytes) <==>
            && |bytes| <= 65536 && |bytes| % 8 == 4
            && bytes[0] == 2 && bytes[1] == bytes[2] == bytes[3] == 0
  {
  }

  // ------------------------------------------------------------------ the facts of one directory

  /** Whose a directory is. */
  function OwnerPlainly(uid: nat, service: nat): OwnerClass {
    if uid == service then Service else if uid == 0 then OsAdministratorCandidate else Other
  }

  /** The grants are known exactly when the mode could be read and the access list is absent or accepted; any
      other answer keeps them unknown, with its own error.  Absence never counts as a verified list. */
  lemma {:induction false} FactsExactly(o: Observation, service: nat)
    ensures var f := FactsOf(o, service);
      && (f.grants.state == Satisfied <==> o.stat.Some? && (o.access == Failed(61) || Accepted(o.access)))
      && (!Accepted(o.access) && o.access != Failed(61) ==>
            f.grants == RightsCheck(if o.access == Failed(95) then Unsupported else Unavailable,
                                    if o.access.Failed? then o.access.errno else 22))
      && (o.stat.None? && (Accepted(o.access) || o.access == Failed(61)) ==>
            f.grants == RightsCheck(Unavailable, o.statErrno))
      && (f.aclMetadata.state == Satisfied <==> Accepted(o.access))
      && (f.inheritance.state == Satisfied <==> Accepted(o.defaults))
      && f.owner == (if o.stat.Some? then OwnerPlainly(o.stat.value.uid, service) else Unknown)
      && f.serviceAccess == o.serviceAccess && f.posix && f.sticky == (o.stat.Some? && o.stat.value.sticky)
  {
    DecodedExactly(o.access, service);
    DecodedExactly(o.defaults, service);
    hide Decoded, Accepted;
  }

  // ------------------------------------------------------------------ the verdicts

  /** Some untrusted process that does not own the directory has this permission there. */
  ghost predicate OthersMay(d: Directory, service: nat, r: Perm) {
    exists p :: IsProcess(p) && Untrusted(p, service) && p.uid != d.uid && HasAccess(d, p, {r})
  }

  lemma {:induction false} OthersByMode(d: Directory, service: nat, r: Perm)
    requires d.acl.None?
    ensures OthersMay(d, service, r) <==> r in d.group + d.other
  {
    var u := Unused({service, 0, d.uid}, 4);
    if r in d.group {
      assert HasAccess(d, Process(u, {d.gid}), {r});
    } else if r in d.other {
      assert HasAccess(d, Process(u, {}), {r});
    }
    if p :| IsProcess(p) && Untrusted(p, service) && p.uid != d.uid && HasAccess(d, p, {r}) {
      assert r in {r};
    }
  }

  /** A directory without an ACL, seen as it is. */
  predicate PlainlySeen(o: Observation, d: Directory) {
    && o.stat == Some(Stat(d.uid, d.owner, d.group, d.other, d.sticky))
    && d.acl.None? && o.access == Failed(61)
  }

  /** When the grant verdict is satisfied.  Nobody untrusted but the owner may write, except: in a shared
      namespace, where it is the service's and sticky, or on the way down, where it is sticky and both it and
      the next component belong to the service or the superuser.  A private directory must not be readable. */
  lemma {:induction false} GrantVerdictExact(o: Observation, d: Directory, role: DirectoryRole,
      child: Option<RightsFacts>, service: nat)
    requires PlainlySeen(o, d)
    ensures var verdict, written := GrantVerdict(FactsOf(o, service), role, child), OthersMay(d, service, Write);
      && verdict == RightsCheck(if verdict.state == Satisfied then Satisfied else Violated, 0)
      && (role == SharedNamespace ==> (verdict.state == Satisfied <==> !written || (d.sticky && d.uid == service)))
      && (role == Ancestor ==>
            (verdict.state == Satisfied <==>
              || !written
              || (d.sticky && d.uid in {service, 0} && child.Some?
                && child.value.owner in {Service, OsAdministratorCandidate})))
      && (role == ProtectedParent ==> (verdict.state == Satisfied <==> !written))
      && (role == PrivateControl ==> (verdict.state == Satisfied <==> !written && !OthersMay(d, service, Read)))
  {
    OthersByMode(d, service, Write);
    OthersByMode(d, service, Read);
    var f := FactsOf(o, service);
    assert f.grants == PASS && f.currentRisks == PosixRisks(d.group + d.other) && f.posix && f.sticky == d.sticky;
    hide OthersMay, FactsOf;
  }

  /** Only the service owns what is in use; on the way down the superuser may.  Unknown owners stay unknown. */
  lemma {:induction false} OwnerVerdictExact(o: Observation, role: DirectoryRole, service: nat)
    ensures var verdict := OwnerVerdict(FactsOf(o, service).owner, role);
      && (verdict.state == Satisfied <==>
            o.stat.Some? && (o.stat.value.uid == service || (role == Ancestor && o.stat.value.uid == 0)))
      && (verdict.state == Unavailable <==> o.stat.None?) && verdict.state != Unsupported && verdict.osCode == 0
  {
    FactsExactly(o, service);
    hide FactsOf, Accepted;
  }

  /** Outside the way down the default list must be there, be accepted and expose no writing, and in a private
      directory no reading. */
  lemma {:induction false} InheritanceVerdictExact(o: Observation, role: DirectoryRole, service: nat)
    ensures InheritanceVerdict(FactsOf(o, service), role).state == Satisfied <==>
            || role == Ancestor
            || (Accepted(o.defaults)
                && !Exposes(Entries(o.defaults.bytes), service, {2, 3, 6, 7})
                && (role == PrivateControl ==> !Exposes(Entries(o.defaults.bytes), service, {4, 5, 6, 7})))
  {
    DecodedExactly(o.defaults, service);
    var f := FactsOf(o, service);
    assert f.inheritance == Decoded(o.defaults, service).check
        && f.inheritedRisks == Decoded(o.defaults, service).risks;
    hide Decoded, Accepted, Exposes, FactsOf;
    assert f.inheritedRisks !! Forbidden(role) <==>
      forall r | r in f.inheritedRisks :: r !in Forbidden(role);
  }

  /** What a chain's evidence says of itself: each component is judged as part of the way down, the last one in
      the role asked for, with its own facts; the first has no parent, and what is unknown of a parent or of
      the component stays unknown. */
  lemma {:induction false} EvidencePlainly(chain: seq<Observation>, role: DirectoryRole, service: nat,
      es: seq<Evidence>, i: nat)
    requires ChainJudged(chain, role, service, es) && i < |chain|
    ensures es[i].role == (if i == |chain| - 1 then role else Ancestor)
    ensures es[i].ownerClass == FactsOf(chain[i], service).owner && es[i].serviceAccess == chain[i].serviceAccess
    ensures es[i].aclMetadata == FactsOf(chain[i], service).aclMetadata
    ensures es[i].owner == OwnerVerdict(FactsOf(chain[i], service).owner, es[i].role)
    ensures es[i].inheritanceModel == InheritanceVerdict(FactsOf(chain[i], service), es[i].role)
    ensures FactsOf(chain[i], service).grants.state != Satisfied ==>
        es[i].grantModel == FactsOf(chain[i], service).grants
    ensures i == 0 ==> es[i].parentModel.state == Satisfied
    ensures i > 0 && FactsOf(chain[i - 1], service).grants.state != Satisfied ==>
              es[i].parentModel == FactsOf(chain[i - 1], service).grants
    ensures i > 0 ==> es[i].parentModel == ParentVerdict(FactsOf(chain[i], service),
        Some(FactsOf(chain[i - 1], service)))
    ensures es[i].grantModel == GrantVerdict(FactsOf(chain[i], service), es[i].role,
              if i + 1 < |chain| then Some(FactsOf(chain[i + 1], service)) else None)
  {
    assert es[i] == EvidenceAt(chain, role, service, i);
  }
}
