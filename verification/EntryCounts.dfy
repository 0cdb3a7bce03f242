/** What the Windows and Darwin readings count, spelled out entry by entry on the fields of the lists. */
module EntryCounts {
  import opened Options
  import opened RightsTypes
  import opened RightsModel
  import opened AccessEntries

  /** Which of a directory's rights, or of the generic rights that stand for several, carry a risk. */
  predicate Lets(mask: set<Right>, generic: set<Generic>, k: Risk) {
    GenericLets(generic, k) || RightLets(mask, k)
  }

  predicate GenericLets(generic: set<Generic>, k: Risk) {
    || GenericAll in generic
    || (GenericRead in generic && k == ReadContent)
    || (GenericWrite in generic && k in {ChangeNamespace, ChangeMetadata})
    || (GenericExecute in generic && k == Traverse)
  }

  predicate RightLets(mask: set<Right>, k: Risk) {
    match k
    case ReadContent => ListDirectory in mask
    case ChangeNamespace => AddFile in mask || AddSubdirectory in mask
    case ChangeMetadata => WriteSecurity in mask || WriteOwner in mask || WriteAttributes in mask
        || WriteExtended in mask
    case DeleteObject => DeleteSelf in mask
    case DeleteChild => DeleteEntries in mask
    case Traverse => TraverseDirectory in mask
  }

  lemma {:induction false} RisksPlainly(mask: set<Right>, k: Risk)
    ensures k in Risks(mask) <==> RightLets(mask, k)
  {
    CarriedRisks(mask);
    hide Risks, Carries;
  }

  /** Which generic rights stand for a right of the file. */
  predicate StandsFor(generic: set<Generic>, right: Right) {
    || (GenericAll in generic && right != Beyond)
    || (GenericRead in generic && right in {ReadControl, Synchronize, ListDirectory, ReadAttributes, ReadExtended})
    || (GenericWrite in generic
        && right in {ReadControl, Synchronize, AddFile, AddSubdirectory, WriteAttributes, WriteExtended})
    || (GenericExecute in generic && right in {ReadControl, Synchronize, ReadAttributes, TraverseDirectory})
  }

  lemma {:induction false} MappedHas(a: Ace, right: Right)
    ensures right in Mapped(a) <==> right in a.mask || StandsFor(a.generic, right)
  {
    AllAccess(right);
    hide FILE_ALL_ACCESS;
  }

  lemma {:induction false} AllAccess(right: Right)
    ensures right in FILE_ALL_ACCESS <==> right != Beyond
  {
  }

  lemma {:induction false} MappedPlainly(a: Ace, k: Risk)
    ensures k in Risks(Mapped(a)) <==> Lets(a.mask, a.generic, k)
  {
    RisksPlainly(Mapped(a), k);
    forall right ensures right in Mapped(a) <==> right in a.mask || StandsFor(a.generic, right) {
      MappedHas(a, right);
    }
    hide Risks, Mapped;
  }

  lemma {:induction false} MappedWithin(a: Ace)
    ensures Mapped(a) <= FILE_ALL_ACCESS <==> Beyond !in a.mask
  {
    MappedHas(a, Beyond);
    forall right ensures right in FILE_ALL_ACCESS <==> right != Beyond {
      AllAccess(right);
    }
    hide Mapped, FILE_ALL_ACCESS;
  }

  // ------------------------------------------------------------------ what children take over

  lemma {:induction false} PassedStays<I>(es: seq<Entry<I>>, directory: bool, i: nat)
    requires i < |es| && Passed(es[i], directory).Some?
    ensures Passed(es[i], directory).value in PassedAll(es, directory)
  {
    if i > 0 {
      PassedStays(es[1..], directory, i - 1);
    }
  }

  /** A risk is counted as inherited exactly when it holds of a new file or of a new directory. */
  lemma {:induction false} InheritableIsLeast<I>(es: seq<Entry<I>>, trusted: set<I>, k: Risk)
    ensures k in Inheritable(es, trusted) <==>
            k in Current(PassedAll(es, false), trusted) || k in Current(PassedAll(es, true), trusted)
  {
    hide Risks, Current, Inheritable, PassedAll;
    StepCovered(es, false, trusted);
    StepCovered(es, true, trusted);
    InInheritable(es, trusted, k);
    if i :| 0 <= i < |es| && CountsBelow(es[i], trusted, k) {
      var directory := !es[i].toFiles;
      var child := PassedAll(es, directory);
      PassedStays(es, directory, i);
      var j :| 0 <= j < |child| && child[j] == Passed(es[i], directory).value;
      InCurrent(child, trusted, k);
      assert CountsNow(child[j], trusted, k);
    }
  }

  /** And a new directory hands it on exactly when some entry that carries it is not limited to one level. */
  lemma {:induction false} HandedOnExactly<I>(es: seq<Entry<I>>, trusted: set<I>, k: Risk)
    ensures k in Inheritable(PassedAll(es, true), trusted) <==>
            exists i :: 0 <= i < |es| && CountsBelow(es[i], trusted, k) && !es[i].limited
    ensures k !in Inheritable(PassedAll(es, false), trusted)
  {
    hide Risks, Inheritable, PassedAll;
    var child := PassedAll(es, true);
    InInheritable(child, trusted, k);
    InInheritable(PassedAll(es, false), trusted, k);
    forall f | f in PassedAll(es, false) ensures !CountsBelow(f, trusted, k) {
      PassedFrom(es, false, f);
    }
    if i :| 0 <= i < |es| && CountsBelow(es[i], trusted, k) && !es[i].limited {
      PassedStays(es, true, i);
      var j :| 0 <= j < |child| && child[j] == Passed(es[i], true).value;
      assert CountsBelow(child[j], trusted, k);
    }
    if j :| 0 <= j < |child| && CountsBelow(child[j], trusted, k) {
      PassedFrom(es, true, child[j]);
      var e :| e in es && Passed(e, true) == Some(child[j]);
      var i :| 0 <= i < |es| && es[i] == e;
      assert CountsBelow(es[i], trusted, k) && !es[i].limited;
    }
  }

  // ------------------------------------------------------------------ Windows

  /** An allow entry for somebody other than the service, the system and the administrators. */
  predicate AllowsOthers(a: Ace, service: Sid) {
    a.aceType == Allowed && a.sid != service && a.sid != LocalSystem && a.sid != Administrators
  }

  predicate Clear(a: Ace) {
    && a.readable && a.aceType in {Allowed, Denied} && OtherFlag !in a.flags && a.longEnough && a.sidOk
    && Beyond !in a.mask && a.sid !in {CreatorOwner, CreatorGroup, OwnerRights}
  }

  /** How the first entry that is not clear ends the reading: a broken one makes everything unknown, the
      metadata too; one that is understood but not supported leaves the metadata known. */
  predicate Stops(a: Ace, f: RightsFacts) {
    var broken, unknown := !a.readable || (a.aceType in {Allowed, Denied} && OtherFlag !in a.flags && !a.longEnough),
      a.readable && a.aceType in {Allowed, Denied} && OtherFlag !in a.flags && a.longEnough && !a.sidOk;
    && f.grants == f.inheritance
    && (if broken then f.grants == RightsCheck(Unavailable, 1336)
        else if unknown then f.grants == RightsCheck(Unavailable, 1337)
        else f.grants == RightsCheck(Unsupported, 50))
    && f.aclMetadata == if broken || unknown then f.grants else RightsCheck(Satisfied, 0)
  }

  lemma {:induction false} ClearPlainly(a: Ace)
    ensures Clear(a) <==> Trouble(a).None?
  {
    MappedWithin(a);
    hide Mapped, FILE_ALL_ACCESS;
  }

  lemma {:induction false} CountsPlainly(aces: seq<Ace>, service: Sid, k: Risk)
    ensures k in Current(Views(aces), TrustedSids(service)) <==>
            exists i :: 0 <= i < |aces| && AllowsOthers(aces[i], service) && InheritOnly !in aces[i].flags
                        && Lets(aces[i].mask, aces[i].generic, k)
    ensures k in Inheritable(Views(aces), TrustedSids(service)) <==>
            exists i :: 0 <= i < |aces| && AllowsOthers(aces[i], service)
                        && (ObjectInherit in aces[i].flags || ContainerInherit in aces[i].flags)
                        && Lets(aces[i].mask, aces[i].generic, k)
  {
    var es, trusted := Views(aces), TrustedSids(service);
    InCurrent(es, trusted, k);
    InInheritable(es, trusted, k);
    forall i | 0 <= i < |aces|
      ensures CountsNow(es[i], trusted, k) <==>
        AllowsOthers(aces[i], service) && InheritOnly !in aces[i].flags && Lets(aces[i].mask, aces[i].generic, k)
      ensures CountsBelow(es[i], trusted, k) <==>
        AllowsOthers(aces[i], service) && (ObjectInherit in aces[i].flags || ContainerInherit in aces[i].flags)
        && Lets(aces[i].mask, aces[i].generic, k)
    {
      MappedPlainly(aces[i], k);
      hide Risks, Lets, Mapped, Current, Inheritable;
    }
    hide Current, Inheritable, Lets, AllowsOthers, CountsNow, CountsBelow, Views;
  }

  /** The whole reading: every clear entry before the first that is not counts, for what its own rights and the
      generic ones let others do, now or below; and the grants are known exactly when every entry is clear. */
  lemma {:induction false} WindowsFactsPlainly(d: Descriptor, service: Sid, access: RightsCheck, k: Risk)
    requires d.dacl.Some? && |d.dacl.value| <= 4096
    ensures var f, aces := WindowsFacts(d, service, access), d.dacl.value;
      && (f.grants.state == Satisfied <==> forall i | 0 <= i < |aces| :: Clear(aces[i]))
      && (forall n | 0 <= n < |aces| && !Clear(aces[n]) && (forall i | 0 <= i < n :: Clear(aces[i])) ::
          Stops(aces[n], f))
      && (f.grants.state == Satisfied ==>
            && f.aclMetadata == f.grants == f.inheritance == RightsCheck(Satisfied, 0)
            && (k in f.currentRisks <==>
                  exists i :: 0 <= i < |aces| && AllowsOthers(aces[i], service) && InheritOnly !in aces[i].flags
                              && Lets(aces[i].mask, aces[i].generic, k))
            && (k in f.inheritedRisks <==>
                  exists i :: 0 <= i < |aces| && AllowsOthers(aces[i], service)
                              && (ObjectInherit in aces[i].flags || ContainerInherit in aces[i].flags)
                              && Lets(aces[i].mask, aces[i].generic, k)))
  {
    var aces, f := d.dacl.value, WindowsFacts(d, service, access);
    var n := Understood(aces);
    assert aces[..|aces|] == aces;
    forall i | 0 <= i < |aces| ensures Clear(aces[i]) <==> Trouble(aces[i]).None? {
      ClearPlainly(aces[i]);
    }
    CountsPlainly(aces, service, k);
    if n < |aces| {
      StopsPlainly(d, service, access);
    }
    forall m | 0 <= m < |aces| && !Clear(aces[m]) && (forall i | 0 <= i < m :: Clear(aces[i])) ensures m == n {
      UnderstoodIs(aces, m);
    }
    hide Current, Inheritable, Lets, AllowsOthers, Stops, Clear, Trouble, Understood;
  }

  lemma {:induction false} StopsPlainly(d: Descriptor, service: Sid, access: RightsCheck)
    requires d.dacl.Some? && |d.dacl.value| <= MAX_ACES && Understood(d.dacl.value) < |d.dacl.value|
    ensures WindowsFacts(d, service, access).grants.state != Satisfied
    ensures Stops(d.dacl.value[Understood(d.dacl.value)], WindowsFacts(d, service, access))
  {
    hide Mapped, Current, Inheritable, Understood;
  }

  /** Without a list everybody may do everything; a list of more than 4096 entries says nothing.  Whose the object
      is and what the service itself may do is told in any case. */
  lemma {:induction false} WindowsWithoutList(d: Descriptor, service: Sid, access: RightsCheck)
    ensures var f := WindowsFacts(d, service, access);
      && f.serviceAccess == access && !f.posix && !f.sticky
      && f.owner == (if d.owner == service then Service
                     else if d.owner in {LocalSystem, Administrators} then OsAdministratorCandidate else Other)
      && (d.dacl.None? ==>
            && f.grants == f.inheritance == f.aclMetadata == RightsCheck(Satisfied, 0)
            && f.currentRisks == f.inheritedRisks == {ReadContent, ChangeNamespace, ChangeMetadata, DeleteObject,
                DeleteChild})
      && (d.dacl.Some? && |d.dacl.value| > 4096 ==>
            && f.grants == f.inheritance == f.aclMetadata == RightsCheck(Unavailable, 1336)
            && f.currentRisks == f.inheritedRisks == {})
  {
  }

  /** A component of a Windows chain is judged in its own role by its own facts and its neighbours'. */
  lemma {:induction false} WindowsEvidencePlainly(chain: seq<Descriptor>, accesses: seq<RightsCheck>,
      role: DirectoryRole,
      service: Sid, es: seq<Evidence>, i: nat)
    requires WindowsJudged(chain, accesses, role, service, es) && i < |chain|
    ensures var facts := WindowsFacts(chain[i], service, accesses[i]);
            var below := if i + 1 < |chain| then Some(WindowsFacts(chain[i + 1], service, accesses[i + 1])) else None;
      && es[i].role == (if i == |chain| - 1 then role else Ancestor)
      && es[i].ownerClass == facts.owner && es[i].serviceAccess == accesses[i] && es[i].aclMetadata == facts.aclMetadata
      && es[i].owner == OwnerVerdict(facts.owner, es[i].role)
      && es[i].grantModel == GrantVerdict(facts, es[i].role, below)
      && es[i].inheritanceModel == InheritanceVerdict(facts, es[i].role)
      && (i == 0 ==> es[i].parentModel.state == Satisfied)
      && (i > 0 ==> es[i].parentModel == ParentVerdict(facts,
          Some(WindowsFacts(chain[i - 1], service, accesses[i - 1]))))
  {
    assert es[i] == WindowsEvidence(chain, accesses, role, service, i);
    hide GrantVerdict, InheritanceVerdict, ParentVerdict, OwnerVerdict;
  }

  // ------------------------------------------------------------------ Darwin

  predicate PermitsOthers(a: DarwinAce, service: Uuid) {
    a.kind == Permit && a.applicable != service && a.applicable != Root
  }

  /** Everything the Darwin entry loop adds up. */
  lemma {:induction false} DarwinPlainly(aces: seq<DarwinAce>, service: Uuid, k: Risk)
    ensures k in Current(DarwinViews(aces), {service, Root}) <==>
            exists i :: 0 <= i < |aces| && PermitsOthers(aces[i], service) && OnlyInherit !in aces[i].flags
                        && RightLets(aces[i].rights, k)
    ensures k in Inheritable(DarwinViews(aces), {service, Root}) <==>
            exists i :: 0 <= i < |aces| && PermitsOthers(aces[i], service)
                        && (FileInherit in aces[i].flags || DirectoryInherit in aces[i].flags)
                            && RightLets(aces[i].rights, k)
    ensures forall a: DarwinAce :: Supported(a) <==>
              a.kind in {Permit, Deny} && UnknownFlag !in a.flags && Beyond !in a.rights && a.applicable != Null
  {
    var es, trusted := DarwinViews(aces), {service, Root};
    InCurrent(es, trusted, k);
    InInheritable(es, trusted, k);
    forall i | 0 <= i < |aces|
      ensures CountsNow(es[i], trusted, k) <==>
        PermitsOthers(aces[i], service) && OnlyInherit !in aces[i].flags && RightLets(aces[i].rights, k)
      ensures CountsBelow(es[i], trusted, k) <==>
        PermitsOthers(aces[i], service) && (FileInherit in aces[i].flags || DirectoryInherit in aces[i].flags)
        && RightLets(aces[i].rights, k)
    {
      RisksPlainly(aces[i].rights, k);
      hide Risks, RightLets, Current, Inheritable;
    }
    hide Current, Inheritable, RightLets, PermitsOthers, CountsNow, CountsBelow, DarwinViews;
  }

  /** What a new directory hands on in turn, on either platform: nothing of what is limited to one level. */
  lemma {:induction false} LimitsPlainly(aces: seq<Ace>, others: seq<DarwinAce>, service: Sid, owner: Uuid, k: Risk)
    ensures k in Inheritable(PassedAll(Views(aces), true), TrustedSids(service)) <==>
            exists i :: 0 <= i < |aces| && CountsBelow(View(aces[i]), TrustedSids(service), k)
                        && NoPropagate !in aces[i].flags
    ensures k in Inheritable(PassedAll(DarwinViews(others), true), {owner, Root}) <==>
            exists i :: 0 <= i < |others| && CountsBelow(DarwinView(others[i]), {owner, Root}, k)
                        && LimitInherit !in others[i].flags
    ensures DARWIN_ENOTSUP == 45
  {
    HandedOnExactly(Views(aces), TrustedSids(service), k);
    HandedOnExactly(DarwinViews(others), {owner, Root}, k);
    assert forall i | 0 <= i < |aces| :: Views(aces)[i] == View(aces[i]);
    assert forall i | 0 <= i < |others| :: DarwinViews(others)[i] == DarwinView(others[i]);
    hide Inheritable, PassedAll, CountsBelow, Views, DarwinViews, TrustedSids;
  }
}
