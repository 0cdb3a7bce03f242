/** What an accepted ACL lets a process do, after the access check algorithm of IEEE P1003.1e
    draft 17, section 23 (Access Control Lists), and how the decoder's bound relates to it. */
module AclAccess {
  import opened LinuxAcl
  import opened RightsTypes

  /** A process without privilege: its user and its effective and supplementary groups. */
  datatype Process = Process(uid: nat, groups: set<nat>)

  /** The file's owning user and group. */
  datatype FileOwner = FileOwner(uid: nat, gid: nat)

  /** A process that is neither the service nor the superuser. */
  predicate Untrusted(p: Process, service: nat) {
    p.uid != service && p.uid != 0
  }

  predicate MatchesUser(e: Entry, p: Process) {
    e.tag == USER && e.id == p.uid
  }

  predicate MatchesGroup(e: Entry, file: FileOwner, p: Process) {
    (e.tag == GROUP && file.gid in p.groups) || (e.tag == NAMED_GROUP && e.id in p.groups)
  }

  ghost predicate NamesUser(es: seq<Entry>, p: Process) {
    exists e :: e in es && MatchesUser(e, p)
  }

  ghost predicate NamesGroup(es: seq<Entry>, file: FileOwner, p: Process) {
    exists e :: e in es && MatchesGroup(e, file, p)
  }

  predicate Holds(e: Entry, mask: set<Perm>, requested: set<Perm>) {
    requested <= Bits(e.perm) * mask
  }

  /** The access check: owner, then a named user, then some matching group entry that holds every
      requested permission, and only then other. */
  ghost predicate Grants(es: seq<Entry>, file: FileOwner, p: Process, requested: set<Perm>) {
    var mask := MaskBits(es);
    if p.uid == file.uid then requested <= TagBits(es, OWNER)
    else if NamesUser(es, p) then exists e :: e in es && MatchesUser(e, p) && Holds(e, mask, requested)
    else if NamesGroup(es, file, p) then exists e :: e in es && MatchesGroup(e, file, p) && Holds(e, mask, requested)
    else requested <= TagBits(es, OTHER)
  }

  lemma {:induction false} ClassEntryGives(es: seq<Entry>, e: Entry, service: nat, requested: set<Perm>)
    requires e in es && InGroupClass(e, service) && Holds(e, MaskBits(es), requested)
    ensures requested <= GroupBits(es, service) * MaskBits(es)
  {
    forall r | r in requested ensures r in GroupBits(es, service) {
      assert Gives(e, r);
    }
  }

  /** The decoder's bound covers everything an untrusted process that is not the owner can get. */
  lemma {:induction false} BoundCovers(es: seq<Entry>, file: FileOwner, p: Process, service: nat, requested: set<Perm>)
    requires Untrusted(p, service) && p.uid != file.uid
    requires Grants(es, file, p, requested)
    ensures requested <= Bound(es, service)
  {
    var mask := MaskBits(es);
    if NamesUser(es, p) {
      var e :| e in es && MatchesUser(e, p) && Holds(e, mask, requested);
      ClassEntryGives(es, e, service, requested);
    } else if NamesGroup(es, file, p) {
      var e :| e in es && MatchesGroup(e, file, p) && Holds(e, mask, requested);
      ClassEntryGives(es, e, service, requested);
    }
  }

  /** Every permission in the bound is really held by some untrusted process, when the file belongs
      to the service or the superuser: no smaller bound would do. */
  lemma {:induction false} BoundIsLeast(es: seq<Entry>, file: FileOwner, service: nat, r: Perm)
    requires Canonical(es) && FitsWire(es) && file.uid in {service, 0}
    ensures r in Bound(es, service)
       <==> exists p :: IsProcess(p) && Untrusted(p, service) && Grants(es, file, p, {r})
  {
    if r in Bound(es, service) {
      var p := Holder(es, file, service, r);
    }
    if p :| IsProcess(p) && Untrusted(p, service) && Grants(es, file, p, {r}) {
      BoundCovers(es, file, p, service, {r});
    }
  }

  /** 32-bit user ids. */
  predicate IsProcess(p: Process) { p.uid < NO_ID }

  /** What fits the 64 KiB frame. */
  predicate FitsWire(es: seq<Entry>) {
    |es| <= 8191 && forall i | 0 <= i < |es| :: es[i].id <= NO_ID
  }

  lemma {:induction false} Unused(used: set<nat>, n: nat) returns (u: nat)
    requires |used| < n
    ensures u < n && u !in used
    decreases n
  {
    if n - 1 !in used {
      u := n - 1;
    } else {
      u := Unused(used - {n - 1}, n - 1);
    }
  }

  function Ids(es: seq<Entry>): (ids: set<nat>)
    ensures |ids| <= |es|
    ensures forall e | e in es :: e.id in ids
  {
    if es == [] then {} else Ids(es[..|es| - 1]) + {es[|es| - 1].id}
  }

  /** A process the list names nowhere falls through to the other entry. */
  lemma {:induction false} StrangerHolds(es: seq<Entry>, file: FileOwner, u: nat, r: Perm)
    requires u !in Ids(es) && u != file.uid && r in TagBits(es, OTHER)
    ensures Grants(es, file, Process(u, {}), {r})
  {
    assert !NamesUser(es, Process(u, {})) && !NamesGroup(es, file, Process(u, {}));
  }

  /** The process an entry of the group class names, and no other entry before it. */
  lemma {:induction false} NamedHolds(es: seq<Entry>, e: Entry, file: FileOwner, service: nat, u: nat, r: Perm)
      returns (p: Process)
    requires e in es && InGroupClass(e, service) && Gives(e, r) && r in MaskBits(es)
    requires u !in Ids(es) && u != service && u != 0 && file.uid in {service, 0}
    ensures p.uid == (if e.tag == USER then e.id else u)
    ensures Grants(es, file, p, {r})
  {
    if e.tag == USER {
      p := Process(e.id, {});
      assert MatchesUser(e, p) && Holds(e, MaskBits(es), {r});
    } else {
      p := Process(u, {if e.tag == GROUP then file.gid else e.id});
      assert MatchesGroup(e, file, p) && Holds(e, MaskBits(es), {r});
      assert !NamesUser(es, p);
    }
  }

  lemma {:induction false} Holder(es: seq<Entry>, file: FileOwner, service: nat, r: Perm) returns (p: Process)
    requires Canonical(es) && FitsWire(es) && file.uid in {service, 0} && r in Bound(es, service)
    ensures IsProcess(p) && Untrusted(p, service) && Grants(es, file, p, {r})
  {
    var u := Unused(Ids(es) + {service, 0}, 9000);
    if r in TagBits(es, OTHER) {
      StrangerHolds(es, file, u, r);
      p := Process(u, {});
    } else {
      assert GroupGives(es, service, r);
      var e :| e in es && InGroupClass(e, service) && Gives(e, r);
      var k :| 0 <= k < |es| && es[k] == e;
      assert WellFormed(es[k]);
      p := NamedHolds(es, e, file, service, u, r);
    }
  }

  // ------------------------------------------------------------------ mode bits and inheritance

  /** The group digit of the mode shows the mask when there is one, else the owning group's entry. */
  ghost function GroupDigit(es: seq<Entry>): set<Perm> {
    if Count(es, MASK) == 0 then TagBits(es, GROUP) else TagBits(es, MASK)
  }

  /** The bound read from the mode, `((mode >> 3) & 7) | (mode & 7)`, covers the bound read from
      the ACL. */
  lemma {:induction false} ModeBoundCovers(es: seq<Entry>, service: nat)
    requires Canonical(es)
    ensures Bound(es, service) <= GroupDigit(es) + TagBits(es, OTHER)
  {
    if Count(es, MASK) == 0 {
      CountNone(es, USER);
      CountNone(es, NAMED_GROUP);
      forall r | r in GroupBits(es, service) ensures r in TagBits(es, GROUP) {
        var e :| e in es && InGroupClass(e, service) && Gives(e, r);
      }
    }
  }

  /** A new directory's ACL under a default ACL and a creation mode: the default entries, with the
      group class limited through the mask, or through the owning group where there is no mask. */
  predicate CreatedFrom(created: seq<Entry>, base: seq<Entry>) {
    && |created| == |base|
    && forall i | 0 <= i < |base| ::
      && created[i].tag == base[i].tag && created[i].id == base[i].id
      && (if base[i].tag in {OWNER, GROUP, MASK, OTHER} then Bits(created[i].perm) <= Bits(base[i].perm)
          else created[i].perm == base[i].perm)
  }

  /** Inheritance never widens the bound, so an inheritance verdict holds for every child. */
  lemma {:induction false} InheritedBoundShrinks(created: seq<Entry>, base: seq<Entry>, service: nat)
    requires Canonical(base) && CreatedFrom(created, base)
    ensures Bound(created, service) <= Bound(base, service)
  {
    SameCounts(created, base, MASK);
    hide Count, Ascending, WellFormed;
    forall r | r in Bound(created, service) ensures r in Bound(base, service) {
      if TagGives(created, OTHER, r) {
        LiftTag(created, base, OTHER, r);
      } else {
        LiftGroup(created, base, service, r);
        if Count(base, MASK) != 0 {
          LiftTag(created, base, MASK, r);
        }
      }
    }
  }

  lemma {:induction false} LiftGroup(created: seq<Entry>, base: seq<Entry>, service: nat, r: Perm)
    requires CreatedFrom(created, base) && GroupGives(created, service, r)
    ensures GroupGives(base, service, r)
  {
    var e :| e in created && InGroupClass(e, service) && Gives(e, r);
    var i :| 0 <= i < |created| && created[i] == e;
    assert base[i] in base && InGroupClass(base[i], service) && Gives(base[i], r);
  }

  lemma {:induction false} LiftTag(created: seq<Entry>, base: seq<Entry>, tag: nat, r: Perm)
    requires CreatedFrom(created, base) && tag in {MASK, OTHER} && TagGives(created, tag, r)
    ensures TagGives(base, tag, r)
  {
    var e :| e in created && e.tag == tag && Gives(e, r);
    var i :| 0 <= i < |created| && created[i] == e;
    assert base[i] in base && Gives(base[i], r);
  }

  lemma {:induction false} SameCounts(a: seq<Entry>, b: seq<Entry>, tag: nat)
    requires |a| == |b| && forall i | 0 <= i < |a| :: a[i].tag == b[i].tag
    ensures Count(a, tag) == Count(b, tag)
  {
    if a != [] {
      SameCounts(a[..|a| - 1], b[..|b| - 1], tag);
    }
  }
}
