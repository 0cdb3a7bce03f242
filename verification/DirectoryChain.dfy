/** What a satisfied chain means for the file system: after POSIX.1-2017, XBD section 4.5 (File
    Access Permissions) and section 4.3 (Directory Protection), no untrusted process can take any
    component out of its parent. */
module DirectoryChain {
  import opened Options
  import opened AclAccess
  import opened LinuxAcl
  import opened RightsModel
  import opened RightsTypes

  /** A directory as the kernel sees it. */
  datatype Directory = Directory(uid: nat, gid: nat, owner: set<Perm>, group: set<Perm>, other: set<Perm>,
      sticky: bool, acl: Option<seq<Entry>>)

  /** With an access ACL the mode's group digit shows the mask and its last digit the other entry. */
  ghost predicate MirrorsAcl(d: Directory) {
    d.acl.Some? ==>
      && Canonical(d.acl.value)
      && d.group == GroupDigit(d.acl.value) && d.other == TagBits(d.acl.value, OTHER)
  }

  /** Permission by file class, or by the access ACL where there is one. */
  ghost predicate HasAccess(d: Directory, p: Process, requested: set<Perm>) {
    if d.acl.Some? then Grants(d.acl.value, FileOwner(d.uid, d.gid), p, requested)
    else if p.uid == d.uid then requested <= d.owner
    else if d.gid in p.groups then requested <= d.group
    else requested <= d.other
  }

  /** Removing or renaming an entry needs write and search permission on the directory, and in a
      sticky directory also ownership of the entry or of the directory.  Section 4.3 leaves it open to a
      system to let a writable file go as well; Linux does not (see `OptionEdge`). */
  ghost predicate CanRemove(p: Process, parent: Directory, child: Directory) {
    HasAccess(parent, p, {Write, Execute}) && (parent.sticky ==> p.uid == child.uid || p.uid == parent.uid)
  }

  /** The probe saw this directory: the mode facts are its own; the queries may answer anything. */
  predicate Observes(o: Observation, d: Directory) {
    o.stat == Some(Stat(d.uid, d.owner, d.group, d.other, d.sticky))
  }

  ghost predicate WorldObserved(chain: seq<Observation>, dirs: seq<Directory>) {
    && |chain| == |dirs|
    && forall i | 0 <= i < |dirs| :: Observes(chain[i], dirs[i]) && MirrorsAcl(dirs[i])
  }

  predicate AllSatisfied(e: Evidence) {
    e.owner.state == Satisfied && e.grantModel.state == Satisfied && e.parentModel.state == Satisfied
  }

  /** A process that does not own a directory gets no more than its group and other digits. */
  lemma {:induction false} ModeBoundsAccess(d: Directory, p: Process, service: nat, requested: set<Perm>)
    requires MirrorsAcl(d) && Untrusted(p, service) && p.uid != d.uid && HasAccess(d, p, requested)
    ensures requested <= d.group + d.other
  {
    if d.acl.Some? {
      BoundCovers(d.acl.value, FileOwner(d.uid, d.gid), p, service, requested);
      ModeBoundCovers(d.acl.value, service);
    }
  }

  lemma {:induction false} OwnersTrusted(chain: seq<Observation>, dirs: seq<Directory>, role: DirectoryRole,
      service: nat, es: seq<Evidence>, i: nat)
    requires WorldObserved(chain, dirs) && ChainJudged(chain, role, service, es) && i < |dirs|
    requires es[i].owner.state == Satisfied
    ensures dirs[i].uid == service || (dirs[i].uid == 0 && (i + 1 < |dirs| || role == Ancestor))
  {
    assert Observes(chain[i], dirs[i]) && es[i] == EvidenceAt(chain, role, service, i);
  }

  /** When owner, grant and parent verdicts are satisfied all along a chain, no untrusted process
      can unlink or rename any component out of its parent. */
  lemma {:induction false} ChainProtected(chain: seq<Observation>, dirs: seq<Directory>, role: DirectoryRole,
      service: nat, es: seq<Evidence>)
    requires WorldObserved(chain, dirs) && ChainJudged(chain, role, service, es)
    requires forall i | 0 <= i < |es| :: AllSatisfied(es[i])
    ensures forall i, p | 0 < i < |dirs| && Untrusted(p, service) :: !CanRemove(p, dirs[i - 1], dirs[i])
  {
    forall i, p | 0 < i < |dirs| && Untrusted(p, service) ensures !CanRemove(p, dirs[i - 1], dirs[i]) {
      assert AllSatisfied(es[i]) && AllSatisfied(es[i - 1]);
      EdgeProtected(chain, dirs, role, service, es, i, p);
    }
  }

  lemma {:induction false} EdgeProtected(chain: seq<Observation>, dirs: seq<Directory>, role: DirectoryRole,
      service: nat, es: seq<Evidence>, i: nat, p: Process)
    requires WorldObserved(chain, dirs) && ChainJudged(chain, role, service, es) && 0 < i < |dirs|
    requires AllSatisfied(es[i]) && es[i - 1].owner.state == Satisfied && Untrusted(p, service)
    ensures !CanRemove(p, dirs[i - 1], dirs[i])
  {
    hide HasAccess, MirrorsAcl, Decoded;
    var parent := dirs[i - 1];
    assert Observes(chain[i - 1], parent) && Observes(chain[i], dirs[i]) && MirrorsAcl(parent);
    assert es[i] == EvidenceAt(chain, role, service, i);
    OwnersTrusted(chain, dirs, role, service, es, i - 1);
    OwnersTrusted(chain, dirs, role, service, es, i);
    if HasAccess(parent, p, {Write, Execute}) {
      ModeBoundsAccess(parent, p, service, {Write, Execute});
      assert Write in parent.group + parent.other;
    }
  }

  /** Under the option a writable file may leave a sticky directory too.  Then all a satisfied edge leaves
      open is an entry that is itself a sticky directory, writable to the process, in a sticky directory. */
  lemma {:induction false} OptionEdge(chain: seq<Observation>, dirs: seq<Directory>, role: DirectoryRole, service: nat,
      es: seq<Evidence>, i: nat, p: Process)
    requires WorldObserved(chain, dirs) && ChainJudged(chain, role, service, es) && 0 < i < |dirs|
    requires AllSatisfied(es[i]) && es[i - 1].owner.state == Satisfied && Untrusted(p, service)
    requires HasAccess(dirs[i - 1], p, {Write, Execute}) && HasAccess(dirs[i], p, {Write})
    ensures dirs[i - 1].sticky && dirs[i].sticky
  {
    hide HasAccess, MirrorsAcl, Decoded;
    EdgeProtected(chain, dirs, role, service, es, i, p);
    OwnersTrusted(chain, dirs, role, service, es, i);
    var d := dirs[i];
    assert Observes(chain[i], d) && MirrorsAcl(d) && es[i] == EvidenceAt(chain, role, service, i);
    ModeBoundsAccess(d, p, service, {Write});
    assert Write in d.group + d.other;
  }

  /** What the role of the last component adds: a protected parent takes no entries from untrusted
      processes, and a private directory shows them nothing either. */
  lemma {:induction false} RoleKept(chain: seq<Observation>, dirs: seq<Directory>, role: DirectoryRole, service: nat,
      es: seq<Evidence>, p: Process)
    requires WorldObserved(chain, dirs) && ChainJudged(chain, role, service, es) && |dirs| >= 1
    requires AllSatisfied(es[|dirs| - 1]) && Untrusted(p, service)
    ensures role in {ProtectedParent, PrivateControl} ==> !HasAccess(dirs[|dirs| - 1], p, {Write})
    ensures role == PrivateControl ==> !HasAccess(dirs[|dirs| - 1], p, {Read})
  {
    hide HasAccess, MirrorsAcl, Decoded;
    var last := |dirs| - 1;
    var d := dirs[last];
    assert Observes(chain[last], d) && MirrorsAcl(d) && es[last] == EvidenceAt(chain, role, service, last);
    OwnersTrusted(chain, dirs, role, service, es, last);
    if HasAccess(d, p, {Write}) {
      ModeBoundsAccess(d, p, service, {Write});
      assert Write in d.group + d.other;
    }
    if HasAccess(d, p, {Read}) {
      ModeBoundsAccess(d, p, service, {Read});
      assert Read in d.group + d.other;
    }
  }

  /** Some untrusted process that does not own the directory may write there. */
  ghost predicate OthersMayWrite(d: Directory, service: nat) {
    exists p :: IsProcess(p) && Untrusted(p, service) && p.uid != d.uid && HasAccess(d, p, {Write})
  }

  /** Some untrusted process may, owning it or not. */
  ghost predicate AnyoneMayWrite(d: Directory, service: nat) {
    exists p :: IsProcess(p) && Untrusted(p, service) && HasAccess(d, p, {Write})
  }

  /** Stickiness protects the edge from a directory to an entry of the given owner. */
  predicate Shielded(d: Directory, service: nat, child: OwnerClass) {
    d.sticky && TrustedModelOwner(OwnerOf(d.uid, service)) && TrustedModelOwner(child)
  }

  /** For a directory without an ACL, whoever owns it, the parent verdict is violated just when some
      untrusted process that does not own it may write there and stickiness does not protect the edge.
      It speaks of the owner too, unless an untrusted owner alone may write: that is left to the owner
      verdict. */
  lemma {:induction false} ParentVerdictExact(parent: Observation, d: Directory, facts: RightsFacts, service: nat)
    requires Observes(parent, d) && d.acl.None? && parent.access == Failed(ENODATA) && d.uid < NO_ID
    ensures var violated := ParentVerdict(facts, Some(FactsOf(parent, service))).state == Violated;
            var shielded := Shielded(d, service, facts.owner);
      && (violated <==> OthersMayWrite(d, service) && !shielded)
      && ((violated <==> AnyoneMayWrite(d, service) && !shielded)
          <==> d.uid in {service, 0} || Write !in d.owner || OthersMayWrite(d, service))
  {
    WritersByMode(d, service);
    hide HasAccess, Untrusted, IsProcess;
  }

  /** Who may write to a directory, read off the mode. */
  lemma {:induction false} WritersByMode(d: Directory, service: nat)
    requires d.acl.None? && d.uid < NO_ID
    ensures OthersMayWrite(d, service) <==> Write in d.group + d.other
    ensures AnyoneMayWrite(d, service) <==>
            OthersMayWrite(d, service) || (d.uid !in {service, 0} && Write in d.owner)
  {
    var u := Unused({service, 0, d.uid}, 4);
    if Write in d.group {
      assert HasAccess(d, Process(u, {d.gid}), {Write});
    } else if Write in d.other {
      assert HasAccess(d, Process(u, {}), {Write});
    }
    if d.uid !in {service, 0} && Write in d.owner {
      assert HasAccess(d, Process(d.uid, {}), {Write});
    }
    if p :| IsProcess(p) && Untrusted(p, service) && HasAccess(d, p, {Write}) {
      assert Write in {Write};
    }
    if p :| IsProcess(p) && Untrusted(p, service) && p.uid != d.uid && HasAccess(d, p, {Write}) {
      assert Write in {Write};
    }
  }

  /** The mode shows a group digit that no entry makes use of. */
  ghost predicate MaskTooWide(acl: seq<Entry>, service: nat) {
    Write in GroupDigit(acl) && Write !in Bound(acl, service)
  }

  /** With an ACL the parent verdict never misses an untrusted writer, and it is exact unless the mask
      is wider than the entries it masks. */
  lemma {:induction false} ParentVerdictWithAcl(parent: Observation, d: Directory, facts: RightsFacts, service: nat)
    requires Observes(parent, d) && MirrorsAcl(d) && d.acl.Some? && FitsWire(d.acl.value)
    requires FactsOf(parent, service).grants.state == Satisfied && d.uid in {service, 0}
    ensures
      var violated := ParentVerdict(facts, Some(FactsOf(parent, service))).state == Violated;
      var shielded := d.sticky && TrustedModelOwner(facts.owner);
      var exposed := (exists p :: IsProcess(p) && Untrusted(p, service) && HasAccess(d, p, {Write})) && !shielded;
      && (exposed ==> violated)
      && ((violated <==> exposed) <==> !MaskTooWide(d.acl.value, service) || shielded)
  {
    var acl, file := d.acl.value, FileOwner(d.uid, d.gid);
    BoundIsLeast(acl, file, service, Write);
    ModeBoundCovers(acl, service);
    assert TagBits(acl, OTHER) <= Bound(acl, service);
    if p :| IsProcess(p) && Untrusted(p, service) && HasAccess(d, p, {Write}) {
      assert Grants(acl, file, p, {Write});
    }
    if p :| IsProcess(p) && Untrusted(p, service) && Grants(acl, file, p, {Write}) {
      assert HasAccess(d, p, {Write});
    }
    hide Bound, GroupDigit, TagBits, HasAccess, Grants, MirrorsAcl;
  }

  /** There are such lists: a mask that allows everything over entries that allow nothing. */
  lemma {:induction false} WideMask(service: nat) returns (acl: seq<Entry>)
    ensures Canonical(acl) && FitsWire(acl) && MaskTooWide(acl, service)
  {
    var owner, group := Entry(OWNER, 7, NO_ID), Entry(GROUP, 0, NO_ID);
    var mask, other := Entry(MASK, 7, NO_ID), Entry(OTHER, 0, NO_ID);
    acl := [owner, group, mask, other];
    forall tag: nat ensures Count(acl, tag) == if tag in {OWNER, GROUP, MASK, OTHER} then 1 else 0 {
      assert acl[..3] == [owner, group, mask] && acl[..3][..2] == [owner, group];
      assert [owner, group][..1] == [owner] && [owner][..0] == [];
      assert Count([owner], tag) == if tag == OWNER then 1 else 0;
      assert Count([owner, group], tag) == if tag in {OWNER, GROUP} then 1 else 0;
      assert Count([owner, group, mask], tag) == if tag in {OWNER, GROUP, MASK} then 1 else 0;
    }
    assert Bits(0) == {} && Bits(7) == {Read, Write, Execute};
    assert mask in acl && Gives(mask, Write);
    assert TagGives(acl, MASK, Write);
    assert !GroupGives(acl, service, Write) && !TagGives(acl, OTHER, Write);
  }

  /** The entries a list of bytes would hand down to a new child. */
  predicate HandedDown(created: seq<Entry>, bytes: seq<Byte>) {
    |bytes| >= 4 && CreatedFrom(created, Entries(bytes))
  }

  /** A satisfied inheritance verdict reaches the children: under any list inherited from the
      default ACL an untrusted process that does not own the child cannot write, nor read below a
      private directory. */
  lemma {:induction false} ChildrenProtected(o: Observation, role: DirectoryRole, service: nat, created: seq<Entry>,
      file: FileOwner, p: Process)
    requires role != Ancestor && InheritanceVerdict(FactsOf(o, service), role).state == Satisfied
    requires o.defaults.Answer? && HandedDown(created, o.defaults.bytes)
    requires Untrusted(p, service) && p.uid != file.uid
    ensures !Grants(created, file, p, {Write})
    ensures role == PrivateControl ==> !Grants(created, file, p, {Read})
  {
    var base := Entries(o.defaults.bytes);
    InheritedBoundShrinks(created, base, service);
    forall r: Perm | Grants(created, file, p, {r}) ensures r in Bound(base, service) {
      BoundCovers(created, file, p, service, {r});
      assert r in {r};
    }
  }
}
