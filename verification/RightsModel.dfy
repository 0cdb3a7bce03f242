/** The directory-role model of packages/storage/native-probe/src/rights-model.cc, the Linux facts
    it reads (rights-linux.cc, rights-posix.cc) and its application along a chain
    (rights-evidence.cc). */
module RightsModel {
  import opened Options
  import opened LinuxAcl
  import opened RightsTypes

  datatype DirectoryRole = Ancestor | SharedNamespace | ProtectedParent | PrivateControl

  datatype OwnerClass = Service | OsAdministratorCandidate | Other | Unknown

  datatype RightsFacts = RightsFacts(
    owner: OwnerClass, serviceAccess: RightsCheck, aclMetadata: RightsCheck, grants: RightsCheck,
    inheritance: RightsCheck, currentRisks: set<Risk>, inheritedRisks: set<Risk>, posix: bool, sticky: bool)

  datatype Evidence = Evidence(
    role: DirectoryRole, ownerClass: OwnerClass, owner: RightsCheck, serviceAccess: RightsCheck,
    aclMetadata: RightsCheck, grantModel: RightsCheck, inheritanceModel: RightsCheck, parentModel: RightsCheck)

  const PASS := RightsCheck(Satisfied, 0)
  const FAIL := RightsCheck(Violated, 0)
  const UNKNOWN := RightsCheck(Unavailable, 0)

  const MUTATIONS: set<Risk> := {ChangeNamespace, ChangeMetadata, DeleteObject, DeleteChild}

  // ------------------------------------------------------------------ one directory

  predicate TrustedModelOwner(owner: OwnerClass) {
    owner == Service || owner == OsAdministratorCandidate
  }

  function Forbidden(role: DirectoryRole): set<Risk> {
    MUTATIONS + if role == PrivateControl then {ReadContent} else {}
  }

  /** A sticky directory whose owner and whose entry's owner are both trusted. */
  predicate StickyProtects(parent: RightsFacts, child: RightsFacts) {
    parent.posix && parent.sticky && TrustedModelOwner(parent.owner) && TrustedModelOwner(child.owner)
  }

  /** The risks a role tolerates in a directory. */
  function Tolerated(facts: RightsFacts, role: DirectoryRole, child: Option<RightsFacts>): set<Risk> {
    match role
    case SharedNamespace =>
      {ChangeNamespace} + if facts.posix && facts.sticky && facts.owner == Service then {DeleteChild} else {}
    case Ancestor =>
      if child.Some? && StickyProtects(facts, child.value) then {ChangeNamespace, DeleteChild} else {}
    case ProtectedParent | PrivateControl => {}
  }

  predicate OwnerAdmitted(owner: OwnerClass, role: DirectoryRole) {
    owner == Service || (role == Ancestor && owner == OsAdministratorCandidate)
  }

  function OwnerVerdict(owner: OwnerClass, role: DirectoryRole): RightsCheck {
    if owner == Unknown then UNKNOWN else if OwnerAdmitted(owner, role) then PASS else FAIL
  }

  /** Nothing forbidden beyond what the role tolerates. */
  function GrantVerdict(facts: RightsFacts, role: DirectoryRole, child: Option<RightsFacts>): RightsCheck {
    if facts.grants.state != Satisfied then facts.grants
    else if forall r | r in facts.currentRisks && r in Forbidden(role) :: r in Tolerated(facts, role, child) then PASS
    else FAIL
  }

  function InheritanceVerdict(facts: RightsFacts, role: DirectoryRole): RightsCheck {
    if role == Ancestor then PASS
    else if facts.inheritance.state != Satisfied then facts.inheritance
    else if facts.inheritedRisks !! Forbidden(role) then PASS
    else FAIL
  }

  function ParentVerdict(facts: RightsFacts, parent: Option<RightsFacts>): RightsCheck {
    if parent.None? then PASS
    else if parent.value.grants.state != Satisfied then parent.value.grants
    else if DeleteChild in parent.value.currentRisks && !StickyProtects(parent.value, facts) then FAIL
    else PASS
  }

  /** The whole evidence for one directory between its neighbours. */
  function Judged(facts: RightsFacts, role: DirectoryRole, parent: Option<RightsFacts>,
      child: Option<RightsFacts>): Evidence {
    Evidence(role, facts.owner, OwnerVerdict(facts.owner, role), facts.serviceAccess, facts.aclMetadata,
      GrantVerdict(facts, role, child), InheritanceVerdict(facts, role), ParentVerdict(facts, parent))
  }

  /** Clears the tolerated bits one case at a time. */
  method EvaluateGrants(facts: RightsFacts, role: DirectoryRole, child: Option<RightsFacts>)
      returns (check: RightsCheck)
    ensures check == GrantVerdict(facts, role, child)
  {
    check := facts.grants;
    if facts.grants.state == Satisfied {
      var risks := facts.currentRisks;
      if role == SharedNamespace {
        if facts.posix && facts.sticky && facts.owner == Service {
          risks := risks - {DeleteChild};
        }
        risks := risks - {ChangeNamespace};
      } else if role == Ancestor && facts.posix && facts.sticky && TrustedModelOwner(facts.owner)
                && child.Some? && TrustedModelOwner(child.value.owner) {
        risks := risks - {ChangeNamespace, DeleteChild};
      }
      assert risks == facts.currentRisks - Tolerated(facts, role, child);
      if r :| r in risks * Forbidden(role) {
        check := FAIL;
      } else {
        check := PASS;
        assert forall r | r in facts.currentRisks && r in Forbidden(role) && r !in Tolerated(facts, role, child) ::
            r in risks * Forbidden(role);
      }
    }
  }

  method EvaluateDirectoryRights(facts: RightsFacts, role: DirectoryRole, parent: Option<RightsFacts>,
      child: Option<RightsFacts>)
    returns (result: Evidence)
    ensures result == Judged(facts, role, parent, child)
  {
    var owner := FAIL;
    if facts.owner == Unknown {
      owner := UNKNOWN;
    } else if facts.owner == Service || (role == Ancestor && facts.owner == OsAdministratorCandidate) {
      owner := PASS;
    }

    var grantModel := EvaluateGrants(facts, role, child);

    var inheritanceModel := PASS;
    if role != Ancestor {
      inheritanceModel := facts.inheritance;
      if facts.inheritance.state == Satisfied {
        inheritanceModel := if facts.inheritedRisks * Forbidden(role) != {} then FAIL else PASS;
      }
    }

    var parentModel := PASS;
    if parent.Some? {
      parentModel := parent.value.grants;
      if parent.value.grants.state == Satisfied {
        var protectedSticky := parent.value.posix && parent.value.sticky
                            && TrustedModelOwner(parent.value.owner) && TrustedModelOwner(facts.owner);
        parentModel := if DeleteChild in parent.value.currentRisks && !protectedSticky then FAIL else PASS;
      }
    }
    result := Evidence(role, facts.owner, owner, facts.serviceAccess, facts.aclMetadata, grantModel,
        inheritanceModel, parentModel);
  }

  // ------------------------------------------------------------------ Linux facts

  /** What `fstat` tells: the owner and the nine mode bits as three classes. */
  datatype Stat = Stat(uid: nat, owner: set<Perm>, group: set<Perm>, other: set<Perm>, sticky: bool)

  /** An extended-attribute query: its bytes or an errno. */
  datatype Query = Answer(bytes: seq<Byte>) | Failed(errno: nat)

  /** Everything read from one descriptor. */
  datatype Observation = Observation(stat: Option<Stat>, statErrno: nat, serviceAccess: RightsCheck, access: Query,
      defaults: Query)

  function OwnerOf(uid: nat, service: nat): OwnerClass {
    if uid == service then Service else if uid == 0 then OsAdministratorCandidate else Other
  }

  /** What a query establishes: a decoded canonical list, or nothing but the failure. */
  ghost function Decoded(q: Query, service: nat): AclFacts {
    match q
    case Failed(errno) => AclFacts(Failure(errno), {})
    case Answer(bytes) =>
      if Framed(bytes) && Canonical(Entries(bytes)) then AclFacts(PASS, PosixRisks(Bound(Entries(bytes), service)))
      else INVALID
  }

  method ReadAclQuery(q: Query, service: nat) returns (r: AclFacts)
    ensures r == Decoded(q, service)
  {
    match q {
      case Failed(errno) => r := AclFacts(Failure(errno), {});
      case Answer(bytes) => r := DecodeLinuxAcl(bytes, service);
    }
  }

  ghost function FactsOf(o: Observation, service: nat): RightsFacts {
    var current, inherited := Decoded(o.access, service), Decoded(o.defaults, service);
    RightsFacts(
      if o.stat.Some? then OwnerOf(o.stat.value.uid, service) else Unknown,
      o.serviceAccess,
      current.check,
      if current.check.state != Satisfied && current.check.osCode != ENODATA then current.check
      else if o.stat.Some? then PASS else RightsCheck(Unavailable, o.statErrno),
      inherited.check,
      if o.stat.Some? then PosixRisks(o.stat.value.group + o.stat.value.other) else {},
      inherited.risks,
      true,
      o.stat.Some? && o.stat.value.sticky)
  }

  /** Mode facts first, then the access query, which never turns absence into a verified list, then
      the default list. */
  method ReadDirectoryRights(o: Observation, service: nat) returns (result: RightsFacts)
    ensures result == FactsOf(o, service)
  {
    result := RightsFacts(Unknown, UNKNOWN, UNKNOWN, UNKNOWN, UNKNOWN, {}, {}, true, false);
    if o.stat.None? {
      var failed := RightsCheck(Unavailable, o.statErrno);
      result := result.(grants := failed, inheritance := failed, aclMetadata := failed);
    } else {
      var info := o.stat.value;
      result := result.(owner := OwnerOf(info.uid, service), sticky := info.sticky,
                        currentRisks := PosixRisks(info.group + info.other), grants := PASS);
    }
    result := result.(serviceAccess := o.serviceAccess);
    var current := ReadAclQuery(o.access, service);
    result := result.(aclMetadata := current.check);
    if current.check.state != Satisfied && current.check.osCode != ENODATA {
      result := result.(grants := current.check);
    }
    var inherited := ReadAclQuery(o.defaults, service);
    result := result.(inheritance := inherited.check, inheritedRisks := inherited.risks);
  }

  // ------------------------------------------------------------------ the chain

  function RoleAt(n: nat, i: nat, role: DirectoryRole): DirectoryRole {
    if i + 1 == n then role else Ancestor
  }

  ghost function Neighbour(chain: seq<Observation>, i: int, service: nat): Option<RightsFacts> {
    if 0 <= i < |chain| then Some(FactsOf(chain[i], service)) else None
  }

  /** The evidence for component `i`: judged between its neighbours, only the last one in `role`. */
  ghost function EvidenceAt(chain: seq<Observation>, role: DirectoryRole, service: nat, i: nat): Evidence
    requires i < |chain|
  {
    Judged(FactsOf(chain[i], service), RoleAt(|chain|, i, role), Neighbour(chain, i - 1, service),
        Neighbour(chain, i + 1, service))
  }

  ghost predicate ChainJudged(chain: seq<Observation>, role: DirectoryRole, service: nat, es: seq<Evidence>) {
    |es| == |chain| && forall i | 0 <= i < |chain| :: es[i] == EvidenceAt(chain, role, service, i)
  }

  method ReadChain(chain: seq<Observation>, service: nat) returns (facts: seq<RightsFacts>)
    ensures |facts| == |chain| && forall i | 0 <= i < |chain| :: facts[i] == FactsOf(chain[i], service)
  {
    hide FactsOf;
    facts := [];
    for index := 0 to |chain|
      invariant |facts| == index
      invariant forall i | 0 <= i < index :: facts[i] == FactsOf(chain[i], service)
    {
      var read := ReadDirectoryRights(chain[index], service);
      facts := facts + [read];
    }
  }

  /** Reads the facts of every component, then judges every component; an empty or an overlong
      chain is refused. */
  method InspectRoleRights(chain: seq<Observation>, role: DirectoryRole, service: nat)
      returns (result: Option<seq<Evidence>>)
    ensures result.Some? <==> 1 <= |chain| <= 1024
    ensures result.Some? ==> ChainJudged(chain, role, service, result.value)
  {
    if |chain| == 0 || |chain| > 1024 {
      return None;
    }
    hide FactsOf, Judged;
    var facts := ReadChain(chain, service);
    var es: seq<Evidence> := [];
    for index := 0 to |facts|
      invariant |es| == index
      invariant forall i | 0 <= i < index :: es[i] == EvidenceAt(chain, role, service, i)
    {
      var e := EvaluateDirectoryRights(facts[index], if index + 1 == |facts| then role else Ancestor,
        if index > 0 then Some(facts[index - 1]) else None,
        if index + 1 < |facts| then Some(facts[index + 1]) else None);
      assert e == EvidenceAt(chain, role, service, index);
      es := es + [e];
    }
    result := Some(es);
  }
}
