/** Allow and deny entries as packages/storage/native-probe/src/rights-win.cc and rights-darwin.cc
    add them up, against the ordered access check of section 2.5.3.2 of MS-DTYP, in which the first
    entry about a right decides it. */
module AccessEntries {
  import opened Options
  import opened RightsTypes
  import opened RightsModel

  /** The rights both platforms know on a directory, by what they allow; `Beyond` is any other bit. */
  datatype Right =
    | ListDirectory | AddFile | AddSubdirectory | TraverseDirectory | DeleteSelf | DeleteEntries
    | ReadAttributes | WriteAttributes | ReadExtended | WriteExtended | ReadControl | WriteSecurity | WriteOwner
    | Synchronize | Beyond

  /** What an entry says once its platform has been forgotten. */
  datatype Entry<I> = Entry(allow: bool, rights: set<Right>, identity: I, inheritOnly: bool, toFiles: bool,
      toDirectories: bool, limited: bool)

  // ------------------------------------------------------------------ risks

  function RiskOf(r: Right): Option<Risk> {
    match r
    case ListDirectory => Some(ReadContent)
    case AddFile => Some(ChangeNamespace)
    case AddSubdirectory => Some(ChangeNamespace)
    case WriteSecurity => Some(ChangeMetadata)
    case WriteOwner => Some(ChangeMetadata)
    case WriteAttributes => Some(ChangeMetadata)
    case WriteExtended => Some(ChangeMetadata)
    case DeleteSelf => Some(DeleteObject)
    case DeleteEntries => Some(DeleteChild)
    case TraverseDirectory => Some(Traverse)
    case _ => None
  }

  predicate Carries(mask: set<Right>, k: Risk) {
    exists right :: right in mask && RiskOf(right) == Some(k)
  }

  /** The source's table over a whole mask: a risk is in it exactly when some right carries it. */
  function Risks(mask: set<Right>): (r: set<Risk>)
    ensures forall k :: k in r <==> Carries(mask, k)
  {
    CarriedRisks(mask);
    (if ListDirectory in mask then {ReadContent} else {})
    + (if AddFile in mask || AddSubdirectory in mask then {ChangeNamespace} else {})
    + (if WriteSecurity in mask || WriteOwner in mask || WriteAttributes in mask || WriteExtended in mask
       then {ChangeMetadata} else {})
    + (if DeleteSelf in mask then {DeleteObject} else {})
    + (if DeleteEntries in mask then {DeleteChild} else {})
    + (if TraverseDirectory in mask then {Traverse} else {})
  }

  lemma {:induction false} CarriedRisks(mask: set<Right>)
    ensures Carries(mask, ReadContent) <==> ListDirectory in mask
    ensures Carries(mask, ChangeNamespace) <==> AddFile in mask || AddSubdirectory in mask
    ensures Carries(mask, ChangeMetadata) <==>
              WriteSecurity in mask || WriteOwner in mask || WriteAttributes in mask || WriteExtended in mask
    ensures Carries(mask, DeleteObject) <==> DeleteSelf in mask
    ensures Carries(mask, DeleteChild) <==> DeleteEntries in mask
    ensures Carries(mask, Traverse) <==> TraverseDirectory in mask
  {
    forall right | right in mask && RiskOf(right).Some? ensures Carries(mask, RiskOf(right).value) {
    }
    assert RiskOf(ListDirectory) == Some(ReadContent) && RiskOf(DeleteSelf) == Some(DeleteObject);
    assert RiskOf(DeleteEntries) == Some(DeleteChild) && RiskOf(TraverseDirectory) == Some(Traverse);
    assert RiskOf(AddFile) == RiskOf(AddSubdirectory) == Some(ChangeNamespace);
    assert RiskOf(WriteSecurity) == RiskOf(WriteOwner) == RiskOf(WriteAttributes) == RiskOf(WriteExtended)
        == Some(ChangeMetadata);
  }

  /** The risks one entry counts for: none for a deny or a trusted identity. */
  function Weight<I(==)>(e: Entry<I>, trusted: set<I>): set<Risk> {
    if e.allow && e.identity !in trusted then Risks(e.rights) else {}
  }

  function Current<I(==)>(es: seq<Entry<I>>, trusted: set<I>): set<Risk> {
    if es == [] then {}
    else
      var e := es[|es| - 1];
      Current(es[..|es| - 1], trusted) + if e.inheritOnly then {} else Weight(e, trusted)
  }

  function Inheritable<I(==)>(es: seq<Entry<I>>, trusted: set<I>): set<Risk> {
    if es == [] then {}
    else
      var e := es[|es| - 1];
      Inheritable(es[..|es| - 1], trusted) + if e.toFiles || e.toDirectories then Weight(e, trusted) else {}
  }

  predicate CountsNow<I(==)>(e: Entry<I>, trusted: set<I>, k: Risk) {
    !e.inheritOnly && k in Weight(e, trusted)
  }

  predicate CountsBelow<I(==)>(e: Entry<I>, trusted: set<I>, k: Risk) {
    (e.toFiles || e.toDirectories) && k in Weight(e, trusted)
  }

  lemma {:induction false} InCurrent<I>(es: seq<Entry<I>>, trusted: set<I>, k: Risk)
    ensures k in Current(es, trusted) <==> exists i :: 0 <= i < |es| && CountsNow(es[i], trusted, k)
  {
    hide Weight;
    if es != [] {
      var n := |es| - 1;
      InCurrent(es[..n], trusted, k);
      if i :| 0 <= i < n && CountsNow(es[i], trusted, k) {
        assert es[..n][i] == es[i];
      }
      if i :| 0 <= i < n && CountsNow(es[..n][i], trusted, k) {
        assert es[..n][i] == es[i];
      }
    }
  }

  lemma {:induction false} InInheritable<I>(es: seq<Entry<I>>, trusted: set<I>, k: Risk)
    ensures k in Inheritable(es, trusted) <==> exists i :: 0 <= i < |es| && CountsBelow(es[i], trusted, k)
  {
    hide Weight;
    if es != [] {
      var n := |es| - 1;
      InInheritable(es[..n], trusted, k);
      if i :| 0 <= i < n && CountsBelow(es[i], trusted, k) {
        assert es[..n][i] == es[i];
      }
      if i :| 0 <= i < n && CountsBelow(es[..n][i], trusted, k) {
        assert es[..n][i] == es[i];
      }
    }
  }

  // ------------------------------------------------------------------ the ordered check

  /** Walks the entries in order: an allow settles rights, a deny of anything unsettled refuses, and
      at the end nothing may be left. */
  predicate Granted<I(==)>(es: seq<Entry<I>>, ids: set<I>, remaining: set<Right>) {
    if es == [] then remaining == {}
    else
      var e := es[0];
      if e.inheritOnly || e.identity !in ids then Granted(es[1..], ids, remaining)
      else if e.allow then Granted(es[1..], ids, remaining - e.rights)
      else e.rights !! remaining && Granted(es[1..], ids, remaining)
  }

  predicate About<I(==)>(e: Entry<I>, ids: set<I>, r: Right) {
    !e.inheritOnly && e.identity in ids && r in e.rights
  }

  /** Entry `i` is the first about `r`, and it allows. */
  predicate DecidedBy<I(==)>(es: seq<Entry<I>>, ids: set<I>, r: Right, i: int) {
    0 <= i < |es| && About(es[i], ids, r) && es[i].allow && forall j | 0 <= j < i :: !About(es[j], ids, r)
  }

  /** The walk grants a set of rights exactly when each of them is decided by an allow: the first
      entry about a right decides. */
  lemma {:induction false} FirstDecides<I>(es: seq<Entry<I>>, ids: set<I>, remaining: set<Right>)
    ensures Granted(es, ids, remaining) <==> forall r | r in remaining :: exists i :: DecidedBy(es, ids, r, i)
    decreases |es|
  {
    if es == [] {
      assert remaining != {} ==> exists r :: r in remaining;
    } else {
      var e := es[0];
      var here := !e.inheritOnly && e.identity in ids;
      var left := if here && e.allow then remaining - e.rights else remaining;
      FirstDecides(es[1..], ids, left);
      forall r | r in remaining
        ensures (exists i :: DecidedBy(es, ids, r, i))
           <==> if About(e, ids, r) then e.allow else exists i :: DecidedBy(es[1..], ids, r, i)
      {
        DecidedShifts(es, ids, r);
      }
      if here && !e.allow && e.rights !! remaining {
        assert forall r | r in remaining :: !About(e, ids, r);
      }
    }
  }

  lemma {:induction false} DecidedShifts<I>(es: seq<Entry<I>>, ids: set<I>, r: Right)
    requires es != []
    ensures (exists i :: DecidedBy(es, ids, r, i))
       <==> if About(es[0], ids, r) then es[0].allow else exists i :: DecidedBy(es[1..], ids, r, i)
  {
    if About(es[0], ids, r) {
      if es[0].allow {
        assert DecidedBy(es, ids, r, 0);
      }
    } else {
      if i :| DecidedBy(es, ids, r, i) {
        forall j | 0 <= j < i - 1 ensures !About(es[1..][j], ids, r) { assert es[1..][j] == es[j + 1]; }
        assert DecidedBy(es[1..], ids, r, i - 1);
      }
      if i :| DecidedBy(es[1..], ids, r, i) {
        forall j | 0 <= j < i + 1 ensures !About(es[j], ids, r) { assert j > 0 ==> es[j] == es[1..][j - 1]; }
        assert DecidedBy(es, ids, r, i + 1);
      }
    }
  }

  /** Giving no credit for denies is sound: whatever the ordered check grants to identities that are
      not trusted, its risks were counted, whatever the order and number of the entries. */
  lemma {:induction false} CurrentCovers<I>(es: seq<Entry<I>>, ids: set<I>, trusted: set<I>, requested: set<Right>)
    requires ids !! trusted && Granted(es, ids, requested)
    ensures Risks(requested) <= Current(es, trusted)
  {
    hide Granted, Current, RiskOf, Risks;
    FirstDecides(es, ids, requested);
    forall k | k in Risks(requested) ensures k in Current(es, trusted) {
      var right :| right in requested && RiskOf(right) == Some(k);
      var i :| DecidedBy(es, ids, right, i);
      assert CountsNow(es[i], trusted, k);
      InCurrent(es, trusted, k);
    }
  }

  function Allows<I>(es: seq<Entry<I>>): seq<Entry<I>> {
    if es == [] then [] else (if es[0].allow then [es[0]] else []) + Allows(es[1..])
  }

  lemma {:induction false} AllowsKeep<I>(es: seq<Entry<I>>, e: Entry<I>)
    ensures e in Allows(es) <==> e in es && e.allow
  {
    if es != [] {
      AllowsKeep(es[1..], e);
    }
  }

  /** And it counts no more than that: a risk is counted exactly when, the denies taken away, some
      single untrusted identity is granted a right that carries it. */
  lemma {:induction false} CurrentIsLeast<I>(es: seq<Entry<I>>, trusted: set<I>, k: Risk)
    ensures k in Current(es, trusted)
       <==> exists id, right :: id !in trusted && RiskOf(right) == Some(k) && Granted(Allows(es), {id}, {right})
  {
    hide Current, Granted, Risks, RiskOf, Allows;
    InCurrent(es, trusted, k);
    var kept := Allows(es);
    if i :| 0 <= i < |es| && CountsNow(es[i], trusted, k) {
      var id := es[i].identity;
      var right :| right in es[i].rights && RiskOf(right) == Some(k);
      AllowsKeep(es, es[i]);
      SomeAllowGrants(kept, id, right, es[i]) by { forall e | e in kept ensures e.allow { AllowsKeep(es, e); } }
      assert Granted(kept, {id}, {right});
    }
    if id, right :| id !in trusted && RiskOf(right) == Some(k) && Granted(kept, {id}, {right}) {
      FirstDecides(kept, {id}, {right});
      assert right in {right};
      var i :| DecidedBy(kept, {id}, right, i);
      var e := kept[i];
      AllowsKeep(es, e);
      var j :| 0 <= j < |es| && es[j] == e;
      assert CountsNow(es[j], trusted, k);
    }
  }

  lemma {:induction false} SomeAllowGrants<I>(es: seq<Entry<I>>, id: I, right: Right, e: Entry<I>)
    requires e in es && e.identity == id && right in e.rights && !e.inheritOnly
    requires forall f | f in es :: f.allow
    ensures Granted(es, {id}, {right})
  {
    var i :| 0 <= i < |es| && es[i] == e;
    FirstDecides(es, {id}, {right});
    var j := FirstAbout(es, {id}, right, i);
    assert es[j] in es;
    assert DecidedBy(es, {id}, right, j);
  }

  lemma {:induction false} FirstAbout<I>(es: seq<Entry<I>>, ids: set<I>, r: Right, i: nat) returns (j: nat)
    requires i < |es| && About(es[i], ids, r)
    ensures j <= i && About(es[j], ids, r) && forall k | 0 <= k < j :: !About(es[k], ids, r)
  {
    j := 0;
    while !About(es[j], ids, r)
      invariant j <= i && forall k | 0 <= k < j :: !About(es[k], ids, r)
      decreases i - j
    {
      j := j + 1;
    }
  }

  // ------------------------------------------------------------------ inheritance

  /** The entry a new child takes over, after section 2.5.3.4 of MS-DTYP: a directory keeps what is meant for
      directories and passes on what is meant for files, unless propagation is limited. */
  function Passed<I>(e: Entry<I>, directory: bool): Option<Entry<I>> {
    if directory && e.toDirectories then
      Some(if e.limited then e.(inheritOnly := false, toFiles := false, toDirectories := false, limited := false)
           else e.(inheritOnly := false))
    else if directory && e.toFiles && !e.limited then Some(e.(inheritOnly := true))
    else if !directory && e.toFiles then
      Some(e.(inheritOnly := false, toFiles := false, toDirectories := false, limited := false))
    else None
  }

  function PassedAll<I>(es: seq<Entry<I>>, directory: bool): seq<Entry<I>> {
    if es == [] then []
    else
      var e, rest := Passed(es[0], directory), PassedAll(es[1..], directory);
      if e.None? then rest else [e.value] + rest
  }

  /** The entries at the end of a path of newly created children. */
  function Descend<I>(es: seq<Entry<I>>, kinds: seq<bool>): seq<Entry<I>>
    decreases |kinds|
  {
    if kinds == [] then es else Descend(PassedAll(es, kinds[0]), kinds[1..])
  }

  lemma {:induction false} PassedFrom<I>(es: seq<Entry<I>>, directory: bool, f: Entry<I>)
    requires f in PassedAll(es, directory)
    ensures exists e :: e in es && Passed(e, directory) == Some(f)
  {
    if Passed(es[0], directory) == Some(f) {
      assert es[0] in es;
    } else {
      PassedFrom(es[1..], directory, f);
    }
  }

  /** One step down neither risks nor passes on more than the parent passes on. */
  lemma {:induction false} StepCovered<I>(es: seq<Entry<I>>, directory: bool, trusted: set<I>)
    ensures Current(PassedAll(es, directory), trusted) <= Inheritable(es, trusted)
    ensures Inheritable(PassedAll(es, directory), trusted) <= Inheritable(es, trusted)
  {
    var child := PassedAll(es, directory);
    forall k | k in Current(child, trusted) || k in Inheritable(child, trusted) ensures k in Inheritable(es, trusted) {
      InCurrent(child, trusted, k);
      InInheritable(child, trusted, k);
      var i :| 0 <= i < |child| && k in Weight(child[i], trusted);
      PassedFrom(es, directory, child[i]);
      var e :| e in es && Passed(e, directory) == Some(child[i]);
      var j :| 0 <= j < |es| && es[j] == e;
      assert Weight(e, trusted) == Weight(child[i], trusted);
      assert CountsBelow(es[j], trusted, k);
      InInheritable(es, trusted, k);
    }
  }

  /** The inherited risks reach down: in any depth below, a check on what has been inherited grants
      untrusted identities only what was counted at the top. */
  lemma {:induction false} DescendantsCovered<I>(es: seq<Entry<I>>, kinds: seq<bool>, ids: set<I>, trusted: set<I>,
      requested: set<Right>)
    requires kinds != [] && ids !! trusted && Granted(Descend(es, kinds), ids, requested)
    ensures Risks(requested) <= Inheritable(es, trusted)
    decreases |kinds|
  {
    hide Risks;
    var child := PassedAll(es, kinds[0]);
    StepCovered(es, kinds[0], trusted);
    if kinds[1..] == [] {
      CurrentCovers(child, ids, trusted, requested);
    } else {
      DescendantsCovered(child, kinds[1..], ids, trusted, requested);
    }
  }

  // ------------------------------------------------------------------ Windows

  datatype Sid = LocalSystem | Administrators | CreatorOwner | CreatorGroup | OwnerRights | Account(id: nat)

  datatype AceType = Allowed | Denied | OtherType

  datatype AceFlag = ObjectInherit | ContainerInherit | NoPropagate | InheritOnly | Inherited | OtherFlag

  datatype Generic = GenericRead | GenericWrite | GenericExecute | GenericAll

  /** One entry of a list; `readable`, `longEnough` and `sidOk` are what the system calls answer. */
  datatype Ace = Ace(readable: bool, aceType: AceType, flags: set<AceFlag>, longEnough: bool, sidOk: bool,
      generic: set<Generic>, mask: set<Right>, sid: Sid)

  const ERROR_NOT_SUPPORTED: nat := 50
  const ERROR_INVALID_ACL: nat := 1336
  const ERROR_INVALID_SID: nat := 1337
  const MAX_ACES: nat := 4096

  const FILE_ALL_ACCESS: set<Right> :=
    {ListDirectory, AddFile, AddSubdirectory, TraverseDirectory, DeleteSelf, DeleteEntries, ReadAttributes,
     WriteAttributes, ReadExtended, WriteExtended, ReadControl, WriteSecurity, WriteOwner, Synchronize}

  /** The file mapping of the generic rights. */
  function Mapped(a: Ace): set<Right> {
    a.mask
    + (if GenericRead in a.generic then {ReadControl, Synchronize, ListDirectory, ReadAttributes, ReadExtended} else {})
    + (if GenericWrite in a.generic then {ReadControl, Synchronize, AddFile, AddSubdirectory, WriteAttributes,
        WriteExtended} else {})
    + (if GenericExecute in a.generic then {ReadControl, Synchronize, ReadAttributes, TraverseDirectory} else {})
    + (if GenericAll in a.generic then FILE_ALL_ACCESS else {})
  }

  function View(a: Ace): Entry<Sid> {
    Entry(a.aceType == Allowed, Mapped(a), a.sid,
      InheritOnly in a.flags, ObjectInherit in a.flags, ContainerInherit in a.flags, NoPropagate in a.flags)
  }

  function Views(aces: seq<Ace>): seq<Entry<Sid>> {
    seq(|aces|, i requires 0 <= i < |aces| => View(aces[i]))
  }

  function TrustedSids(service: Sid): set<Sid> { {service, LocalSystem, Administrators} }

  const UNSUPPORTED := RightsCheck(Unsupported, ERROR_NOT_SUPPORTED)

  /** What stops the reading at an entry: the check, and whether it also speaks of the metadata. */
  function Trouble(a: Ace): Option<(RightsCheck, bool)> {
    if !a.readable then Some((RightsCheck(Unavailable, ERROR_INVALID_ACL), true))
    else if a.aceType == OtherType || OtherFlag in a.flags then Some((UNSUPPORTED, false))
    else if !a.longEnough then Some((RightsCheck(Unavailable, ERROR_INVALID_ACL), true))
    else if !a.sidOk then Some((RightsCheck(Unavailable, ERROR_INVALID_SID), true))
    else if !(Mapped(a) <= FILE_ALL_ACCESS) || a.sid in {CreatorOwner, CreatorGroup, OwnerRights}
        then Some((UNSUPPORTED, false))
    else None
  }

  /** How many entries come before the first that stops the reading. */
  function Understood(aces: seq<Ace>): (n: nat)
    ensures n <= |aces| && forall i | 0 <= i < n :: Trouble(aces[i]).None?
    ensures n < |aces| ==> Trouble(aces[n]).Some?
  {
    if aces == [] || Trouble(aces[0]).Some? then 0 else 1 + Understood(aces[1..])
  }

  /** An object: its owner and its list; `None` is a list that is not there and grants everything. */
  datatype Descriptor = Descriptor(owner: Sid, dacl: Option<seq<Ace>>)

  function WindowsOwner(owner: Sid, service: Sid): OwnerClass {
    if owner == service then Service
    else if owner == LocalSystem || owner == Administrators then OsAdministratorCandidate
    else Other
  }

  /** The facts as a function: everything counted up to the entry that stops the reading, if any. */
  function WindowsFacts(d: Descriptor, service: Sid, access: RightsCheck): RightsFacts {
    var base := RightsFacts(WindowsOwner(d.owner, service), access, PASS, PASS, PASS, {}, {}, false, false);
    if d.dacl.None? then
      var all := {ReadContent, ChangeNamespace, ChangeMetadata, DeleteObject, DeleteChild};
      base.(currentRisks := all, inheritedRisks := all)
    else if |d.dacl.value| > MAX_ACES then
      var bad := RightsCheck(Unavailable, ERROR_INVALID_ACL);
      base.(aclMetadata := bad, grants := bad, inheritance := bad)
    else
      var aces := d.dacl.value;
      var n := Understood(aces);
      var counted := base.(
        currentRisks := Current(Views(aces[..n]), TrustedSids(service)),
        inheritedRisks := Inheritable(Views(aces[..n]), TrustedSids(service)));
      if n == |aces| then counted
      else
        var (check, metadata) := Trouble(aces[n]).value;
        counted.(aclMetadata := if metadata then check else PASS, grants := check, inheritance := check)
  }

  lemma {:induction false} UnderstoodIs(aces: seq<Ace>, n: nat)
    requires n <= |aces| && (forall i | 0 <= i < n :: Trouble(aces[i]).None?) && (n < |aces| ==> Trouble(aces[n]).Some?)
    ensures Understood(aces) == n
  {
    var m := Understood(aces);
    assert m >= n && m <= n;
  }

  lemma {:induction false} CountOne(aces: seq<Ace>, n: nat, trusted: set<Sid>)
    requires n < |aces|
    ensures var e := View(aces[n]);
      && Current(Views(aces[..n + 1]), trusted)
         == Current(Views(aces[..n]), trusted) + (if e.inheritOnly then {} else Weight(e, trusted))
      && Inheritable(Views(aces[..n + 1]), trusted)
         == Inheritable(Views(aces[..n]), trusted) + (if e.toFiles || e.toDirectories then Weight(e, trusted) else {})
  {
    assert Views(aces[..n + 1])[..n] == Views(aces[..n]);
  }

  method ReadWindowsRights(d: Descriptor, service: Sid, access: RightsCheck) returns (result: RightsFacts)
    ensures result == WindowsFacts(d, service, access)
  {
    hide Risks, Understood, Current, Inheritable, Mapped;
    var trusted := TrustedSids(service);
    result := RightsFacts(WindowsOwner(d.owner, service), access, PASS, PASS, PASS, {}, {}, false, false);
    if d.dacl.None? {
      var all := {ReadContent, ChangeNamespace, ChangeMetadata, DeleteObject, DeleteChild};
      result := result.(currentRisks := all, inheritedRisks := all);
      return;
    }
    var aces := d.dacl.value;
    if |aces| > MAX_ACES {
      var bad := RightsCheck(Unavailable, ERROR_INVALID_ACL);
      result := result.(aclMetadata := bad, grants := bad, inheritance := bad);
      return;
    }
    ghost var base := result;
    NothingCounted(trusted);
    assert aces[..0] == [];
    for index := 0 to |aces|
      invariant forall i | 0 <= i < index :: Trouble(aces[i]).None?
      invariant result == base.(currentRisks := Current(Views(aces[..index]), trusted),
          inheritedRisks := Inheritable(Views(aces[..index]), trusted))
    {
      var a := aces[index];
      var bad := RightsCheck(Unavailable, ERROR_INVALID_ACL);
      if Trouble(a).Some? {
        UnderstoodIs(aces, index);
      }
      if !a.readable {
        result := result.(aclMetadata := bad, grants := bad, inheritance := bad);
        return;
      }
      if (a.aceType != Allowed && a.aceType != Denied) || OtherFlag in a.flags {
        result := result.(grants := UNSUPPORTED, inheritance := UNSUPPORTED);
        return;
      }
      if !a.longEnough {
        result := result.(aclMetadata := bad, grants := bad, inheritance := bad);
        return;
      }
      if !a.sidOk {
        bad := RightsCheck(Unavailable, ERROR_INVALID_SID);
        result := result.(aclMetadata := bad, grants := bad, inheritance := bad);
        return;
      }
      var mask := Mapped(a);
      if !(mask <= FILE_ALL_ACCESS) || a.sid == CreatorOwner || a.sid == CreatorGroup || a.sid == OwnerRights {
        result := result.(grants := UNSUPPORTED, inheritance := UNSUPPORTED);
        return;
      }
      CountOne(aces, index, trusted);
      if a.aceType == Denied || a.sid == service || a.sid == LocalSystem || a.sid == Administrators {
        continue;
      }
      var risks := Risks(mask);
      if InheritOnly !in a.flags {
        result := result.(currentRisks := result.currentRisks + risks);
      }
      if ObjectInherit in a.flags || ContainerInherit in a.flags {
        result := result.(inheritedRisks := result.inheritedRisks + risks);
      }
    }
    UnderstoodIs(aces, |aces|);
    assert aces[..|aces|] == aces;
  }

  lemma {:induction false} NothingCounted(trusted: set<Sid>)
    ensures Current(Views([]), trusted) == {} && Inheritable(Views([]), trusted) == {}
  {
  }

  /** The access check for a token: no list grants everything; the owner may read and write the
      security of the object unless an owner-rights entry says otherwise. */
  predicate WindowsGrants(d: Descriptor, token: set<Sid>, requested: set<Right>) {
    d.dacl.Some? ==>
      var owns := d.owner in token && forall a | a in d.dacl.value :: a.sid != OwnerRights;
      var implied := if owns then {ReadControl, WriteSecurity} else {};
      Granted(Views(d.dacl.value), token, requested - implied)
  }

  predicate UntrustedToken(token: set<Sid>, service: Sid) { token !! TrustedSids(service) }

  /** What a satisfied reading says of an untrusted token; an owner may change the metadata besides. */
  lemma {:induction false} WindowsCovers(d: Descriptor, service: Sid, access: RightsCheck, token: set<Sid>,
      requested: set<Right>)
    requires WindowsFacts(d, service, access).grants.state == Satisfied
    requires UntrustedToken(token, service) && WindowsGrants(d, token, requested)
    ensures Risks(requested) <= WindowsFacts(d, service, access).currentRisks
      + (if d.dacl.None? then {Traverse} else {}) + (if d.owner in token then {ChangeMetadata} else {})
  {
    if d.dacl.Some? {
      ListCovers(d, service, access, token, requested);
    } else {
      NoListCovers(requested);
    }
  }

  lemma {:induction false} NoListCovers(requested: set<Right>)
    ensures Risks(requested) <= {ReadContent, ChangeNamespace, ChangeMetadata, DeleteObject, DeleteChild} + {Traverse}
  {
    hide Risks;
  }

  lemma {:induction false} ListCovers(d: Descriptor, service: Sid, access: RightsCheck, token: set<Sid>,
      requested: set<Right>)
    requires WindowsFacts(d, service, access).grants.state == Satisfied && d.dacl.Some?
    requires UntrustedToken(token, service) && WindowsGrants(d, token, requested)
    ensures Risks(requested) <=
            WindowsFacts(d, service, access).currentRisks + (if d.owner in token then {ChangeMetadata} else {})
  {
    hide Risks, Mapped, Granted, Current, Inheritable, Carries;
    var aces := d.dacl.value;
    assert Understood(aces) == |aces| && aces[..|aces|] == aces;
    var implied := if d.owner in token then {ReadControl, WriteSecurity} else {};
    NoOwnerRights(aces);
    CurrentCovers(Views(aces), token, TrustedSids(service), requested - implied);
    OwnerRisks(requested);
    assert requested - {} == requested;
    hide Understood, Views;
  }

  /** What an owner's implied rights add to a check on the others. */
  lemma {:induction false} OwnerRisks(requested: set<Right>)
    ensures Risks(requested) <= Risks(requested - {ReadControl, WriteSecurity}) + {ChangeMetadata}
  {
    hide Risks, RiskOf;
    forall k | k in Risks(requested) && k != ChangeMetadata
      ensures k in Risks(requested - {ReadControl, WriteSecurity})
    {
      var right :| right in requested && RiskOf(right) == Some(k);
      ImpliedRisk(right);
      assert right in requested - {ReadControl, WriteSecurity};
      assert Carries(requested - {ReadControl, WriteSecurity}, k);
    }
  }

  lemma {:induction false} ImpliedRisk(right: Right)
    ensures right in {ReadControl, WriteSecurity} && RiskOf(right).Some? ==> RiskOf(right).value == ChangeMetadata
  {
  }

  lemma {:induction false} NoOwnerRights(aces: seq<Ace>)
    requires Understood(aces) == |aces|
    ensures forall a | a in aces :: a.sid != OwnerRights
  {
    forall a | a in aces ensures a.sid != OwnerRights {
      var i :| 0 <= i < |aces| && aces[i] == a;
      assert Trouble(aces[i]).None?;
    }
  }

  /** The counted risks bound every untrusted token exactly when there is a list, and the owner is trusted
      or changing the metadata is counted anyway: without a list everybody may traverse, and an owner may
      change the security of the object, and neither is counted. */
  lemma {:induction false} WindowsBoundExactly(d: Descriptor, service: Sid, access: RightsCheck)
    requires WindowsFacts(d, service, access).grants.state == Satisfied
    ensures (forall token, requested | UntrustedToken(token, service) && WindowsGrants(d, token, requested)
               :: Risks(requested) <= WindowsFacts(d, service, access).currentRisks)
       <==> && d.dacl.Some?
            && (d.owner in TrustedSids(service) || ChangeMetadata in WindowsFacts(d, service, access).currentRisks)
  {
    hide Risks, Mapped, Granted;
    var counted := WindowsFacts(d, service, access).currentRisks;
    if d.dacl.Some? && (d.owner in TrustedSids(service) || ChangeMetadata in counted) {
      forall token, requested | UntrustedToken(token, service) && WindowsGrants(d, token, requested)
        ensures Risks(requested) <= counted
      {
        WindowsCovers(d, service, access, token, requested);
      }
    } else if d.dacl.Some? {
      OwnerMayRewrite(d, service, access);
      assert UntrustedToken({d.owner}, service) && RiskOf(WriteSecurity) == Some(ChangeMetadata);
      assert WriteSecurity in {WriteSecurity} && Carries({WriteSecurity}, ChangeMetadata);
    } else {
      assert WindowsGrants(d, {}, {TraverseDirectory}) && UntrustedToken({}, service);
      assert TraverseDirectory in {TraverseDirectory} && RiskOf(TraverseDirectory) == Some(Traverse);
      assert Traverse in Risks({TraverseDirectory});
    }
  }

  lemma {:induction false} OwnerMayRewrite(d: Descriptor, service: Sid, access: RightsCheck)
    requires WindowsFacts(d, service, access).grants.state == Satisfied && d.dacl.Some?
    ensures WindowsGrants(d, {d.owner}, {WriteSecurity})
  {
    var aces := d.dacl.value;
    NoOwnerRights(aces);
    FirstDecides(Views(aces), {d.owner}, {});
    assert {WriteSecurity} - {ReadControl, WriteSecurity} == {};
  }

  /** Counting traversal or not makes no difference to any verdict. */
  lemma {:induction false} TraverseNeverJudged(facts: RightsFacts, role: DirectoryRole, other: Option<RightsFacts>)
    ensures var more := facts.(currentRisks := facts.currentRisks + {Traverse});
      && GrantVerdict(more, role, other) == GrantVerdict(facts, role, other)
      && (other.Some? ==> ParentVerdict(other.value, Some(more)) == ParentVerdict(other.value, Some(facts)))
  {
    var more := facts.(currentRisks := facts.currentRisks + {Traverse});
    assert Tolerated(more, role, other) == Tolerated(facts, role, other);
    assert forall r | r in Forbidden(role) :: r in more.currentRisks <==> r in facts.currentRisks;
  }

  function WindowsNeighbour(chain: seq<Descriptor>, accesses: seq<RightsCheck>, i: int,
      service: Sid): Option<RightsFacts>
    requires |chain| == |accesses|
  {
    if 0 <= i < |chain| then Some(WindowsFacts(chain[i], service, accesses[i])) else None
  }

  /** The evidence for component `i`, judged between its neighbours. */
  function WindowsEvidence(chain: seq<Descriptor>, accesses: seq<RightsCheck>, role: DirectoryRole, service: Sid,
      i: nat): Evidence
    requires i < |chain| == |accesses|
  {
    Judged(WindowsFacts(chain[i], service, accesses[i]), RoleAt(|chain|, i, role),
      WindowsNeighbour(chain, accesses, i - 1, service), WindowsNeighbour(chain, accesses, i + 1, service))
  }

  predicate WindowsJudged(chain: seq<Descriptor>, accesses: seq<RightsCheck>, role: DirectoryRole, service: Sid,
      es: seq<Evidence>) {
    && |es| == |chain| == |accesses|
    && forall i | 0 <= i < |chain| :: es[i] == WindowsEvidence(chain, accesses, role, service, i)
  }

  /** A chain of any length whose owner and grant verdicts are satisfied: no untrusted token can delete or
      rename any component, which takes the right to on the component itself or on its parent. */
  lemma {:induction false} WindowsChainProtected(chain: seq<Descriptor>, accesses: seq<RightsCheck>,
      role: DirectoryRole, service: Sid, es: seq<Evidence>, i: nat, token: set<Sid>)
    requires WindowsJudged(chain, accesses, role, service, es) && 0 < i < |chain|
    requires forall j | 0 <= j < |es| :: es[j].owner.state == Satisfied && es[j].grantModel.state == Satisfied
    requires UntrustedToken(token, service)
    ensures !WindowsGrants(chain[i], token, {DeleteSelf}) && !WindowsGrants(chain[i - 1], token, {DeleteEntries})
  {
    hide WindowsFacts, WindowsGrants, Risks;
    NoMutation(chain, accesses, role, service, es, i, token, DeleteSelf, DeleteObject);
    NoMutation(chain, accesses, role, service, es, i - 1, token, DeleteEntries, DeleteChild);
  }

  /** A component with a satisfied owner and grant verdict withholds a right whose risk its role
      does not tolerate. */
  lemma {:induction false} NoMutation(chain: seq<Descriptor>, accesses: seq<RightsCheck>, role: DirectoryRole,
      service: Sid, es: seq<Evidence>, i: nat, token: set<Sid>, right: Right, k: Risk)
    requires WindowsJudged(chain, accesses, role, service, es) && i < |chain|
    requires es[i].owner.state == Satisfied && es[i].grantModel.state == Satisfied && UntrustedToken(token, service)
    requires RiskOf(right) == Some(k) && k in MUTATIONS && k != ChangeNamespace
    ensures !WindowsGrants(chain[i], token, {right})
  {
    hide WindowsGrants, Risks, WindowsFacts;
    var d, facts := chain[i], WindowsFacts(chain[i], service, accesses[i]);
    OwnerIsTrusted(d, service, accesses[i]);
    assert es[i] == WindowsEvidence(chain, accesses, role, service, i);
    assert d.owner !in token;
    assert facts.grants.state == Satisfied;
    assert right in {right} && Carries({right}, k);
    if WindowsGrants(d, token, {right}) {
      WindowsCovers(d, service, accesses[i], token, {right});
    }
  }

  lemma {:induction false} OwnerIsTrusted(d: Descriptor, service: Sid, access: RightsCheck)
    ensures WindowsFacts(d, service, access).owner == WindowsOwner(d.owner, service)
    ensures !WindowsFacts(d, service, access).posix
    ensures TrustedModelOwner(WindowsOwner(d.owner, service)) <==> d.owner in TrustedSids(service)
  {
  }

  // ------------------------------------------------------------------ Darwin

  datatype Uuid = Null | Root | Member(id: nat)

  datatype DarwinKind = Permit | Deny | OtherKind

  datatype DarwinFlag = FileInherit | DirectoryInherit | LimitInherit | OnlyInherit | WasInherited | UnknownFlag

  datatype DarwinAce = DarwinAce(kind: DarwinKind, flags: set<DarwinFlag>, rights: set<Right>, applicable: Uuid)

  datatype DarwinFacts = DarwinFacts(check: RightsCheck, current: set<Risk>, inherited: set<Risk>)

  const DARWIN_ENOTSUP: nat := 45

  function DarwinView(a: DarwinAce): Entry<Uuid> {
    Entry(a.kind == Permit, a.rights, a.applicable, OnlyInherit in a.flags, FileInherit in a.flags,
        DirectoryInherit in a.flags, LimitInherit in a.flags)
  }

  function DarwinViews(aces: seq<DarwinAce>): seq<Entry<Uuid>> {
    seq(|aces|, i requires 0 <= i < |aces| => DarwinView(aces[i]))
  }

  predicate Supported(a: DarwinAce) {
    UnknownFlag !in a.flags && Beyond !in a.rights && a.kind != OtherKind && a.applicable != Null
  }

  lemma {:induction false} CountDarwin(aces: seq<DarwinAce>, n: nat, trusted: set<Uuid>)
    requires n < |aces|
    ensures var e := DarwinView(aces[n]);
      && Current(DarwinViews(aces[..n + 1]), trusted)
         == Current(DarwinViews(aces[..n]), trusted) + (if e.inheritOnly then {} else Weight(e, trusted))
      && Inheritable(DarwinViews(aces[..n + 1]), trusted)
         == Inheritable(DarwinViews(aces[..n]), trusted)
             + (if e.toFiles || e.toDirectories then Weight(e, trusted) else {})
  {
    assert DarwinViews(aces[..n + 1])[..n] == DarwinViews(aces[..n]);
  }

  /** Everything an ordered check grants to untrusted identities, now or in any depth below, is within the
      given risks. */
  ghost predicate BoundsDarwin(aces: seq<DarwinAce>, service: Uuid, current: set<Risk>, inherited: set<Risk>) {
    && (forall ids, requested | ids !! {service, Root} && Granted(DarwinViews(aces), ids, requested)
          :: Risks(requested) <= current)
    && (forall kinds: seq<bool>, ids, requested |
          kinds != [] && ids !! {service, Root} && Granted(Descend(DarwinViews(aces), kinds), ids, requested)
          :: Risks(requested) <= inherited)
  }

  lemma {:induction false} DarwinCovers(aces: seq<DarwinAce>, service: Uuid)
    ensures BoundsDarwin(aces, service, Current(DarwinViews(aces), {service, Root}),
              Inheritable(DarwinViews(aces), {service, Root}))
  {
    hide Risks, Granted, Descend, Current, Inheritable;
    var es, trusted := DarwinViews(aces), {service, Root};
    forall ids, requested | ids !! trusted && Granted(es, ids, requested)
      ensures Risks(requested) <= Current(es, trusted)
    {
      CurrentCovers(es, ids, trusted, requested);
    }
    forall kinds: seq<bool>, ids, requested |
        kinds != [] && ids !! trusted && Granted(Descend(es, kinds), ids, requested)
      ensures Risks(requested) <= Inheritable(es, trusted)
    {
      DescendantsCovered(es, kinds, ids, trusted, requested);
    }
  }

  /** The entry loop: satisfied exactly when every entry is supported, and then everything granted
      to untrusted identities now, and in any depth below, was counted. */
  method AddUpDarwin(aces: seq<DarwinAce>, service: Uuid) returns (r: DarwinFacts)
    ensures (forall i | 0 <= i < |aces| :: Supported(aces[i])) ==>
              r == DarwinFacts(PASS, Current(DarwinViews(aces), {service, Root}),
                  Inheritable(DarwinViews(aces), {service, Root}))
    ensures (exists i :: 0 <= i < |aces| && !Supported(aces[i])) ==>
              r == DarwinFacts(RightsCheck(Unsupported, DARWIN_ENOTSUP), {}, {})
    ensures r.check == PASS ==> BoundsDarwin(aces, service, r.current, r.inherited)
  {
    hide Risks, Current, Inheritable, BoundsDarwin;
    DarwinCovers(aces, service);
    ghost var trusted := {service, Root};
    r := DarwinFacts(PASS, {}, {});
    NoDarwinCounted(trusted);
    assert aces[..0] == [];
    for index := 0 to |aces|
      invariant forall i | 0 <= i < index :: Supported(aces[i])
      invariant r == DarwinFacts(PASS, Current(DarwinViews(aces[..index]), trusted),
          Inheritable(DarwinViews(aces[..index]), trusted))
    {
      var entry := aces[index];
      if UnknownFlag in entry.flags || Beyond in entry.rights || (entry.kind != Permit && entry.kind != Deny) {
        return DarwinFacts(RightsCheck(Unsupported, DARWIN_ENOTSUP), {}, {});
      }
      if entry.applicable == Null {
        return DarwinFacts(RightsCheck(Unsupported, DARWIN_ENOTSUP), {}, {});
      }
      CountDarwin(aces, index, trusted);
      if entry.kind == Deny || entry.applicable == service || entry.applicable == Root {
        continue;
      }
      var risks := Risks(entry.rights);
      if OnlyInherit !in entry.flags {
        r := r.(current := r.current + risks);
      }
      if FileInherit in entry.flags || DirectoryInherit in entry.flags {
        r := r.(inherited := r.inherited + risks);
      }
    }
    assert aces[..|aces|] == aces;
  }

  lemma {:induction false} NoDarwinCounted(trusted: set<Uuid>)
    ensures Current(DarwinViews([]), trusted) == {} && Inheritable(DarwinViews([]), trusted) == {}
  {
  }
}
