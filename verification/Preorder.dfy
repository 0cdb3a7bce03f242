/** Where things are in a document: a trail says which child to take at each level.  Both traversals go
    through the trails in lexicographic order, and the structural guard names the first defect on the way. */
module Preorder {
  import opened Options
  import opened JsonHeap
  import opened DocumentStructure
  import opened DocumentValidation
  import opened EditorProfiles

  type Trail = seq<nat>

  /** The value a trail leads to, none where it leaves the graph. */
  function Descend(h: Heap, v: Value, t: Trail): Option<Value>
    decreases |t|
  {
    if t == [] then Some(v)
    else if IsRecord(h, v) && IsArray(h, Get(h, v, "content")) && t[0] < |Items(h, Get(h, v, "content"))| then
      Descend(h, Items(h, Get(h, v, "content"))[t[0]], t[1..])
    else None
  }

  function PathTo(path: Path, t: Trail): Path
    decreases |t|
  {
    if t == [] then path else PathTo(path + [Field("content"), Index(t[0])], t[1..])
  }

  /** Dictionary order, a trail before those that go on from it. */
  predicate Before(t: Trail, u: Trail) {
    u != [] && (t == [] || t[0] < u[0] || (t[0] == u[0] && Before(t[1..], u[1..])))
  }

  /** The type of the node one level up. */
  function ParentKind(h: Heap, v: Value, t: Trail): Option<string> {
    if t == [] then None
    else
      var above := Descend(h, v, t[..|t| - 1]);
      if above.Some? && IsRecord(h, above.value) && Get(h, above.value, "type").Text?
      then Some(Get(h, above.value, "type").s) else None
  }

  ghost predicate Located(h: Heap, v: Value, path: Path, parent: Option<string>, t: Trail, o: Occurrence) {
    && Descend(h, v, t) == Some(o.node) && o.path == PathTo(path, t)
    && o.parent == if t == [] then parent else ParentKind(h, v, t)
  }

  ghost predicate InOrder(ts: seq<Trail>) {
    forall j, k | 0 <= j < k < |ts| :: Before(ts[j], ts[k])
  }

  ghost predicate AllLocated(h: Heap, v: Value, path: Path, parent: Option<string>, ts: seq<Trail>,
      os: seq<Occurrence>) {
    |ts| == |os| && forall k | 0 <= k < |os| :: Located(h, v, path, parent, ts[k], os[k])
  }

  /** A trail that leads somewhere with nothing to stop at above its end. */
  ghost predicate Reached(h: Heap, stop: Value -> bool, v: Value, t: Trail)
    decreases |t|
  {
    t == [] || (!stop(v) && t[0] < |Children(h, v)| && Reached(h, stop, Children(h, v)[t[0]], t[1..]))
  }

  /** The nodes in preorder, none below one that stops the descent. */
  ghost function Pruned(h: Heap, stop: Value -> bool, v: Value, s: Shape, path: Path,
      parent: Option<string>): seq<Occurrence>
    requires Unfolds(h, v, s)
    decreases s, 1, 0
  {
    [Occurrence(v, path, parent)]
    + if stop(v) then [] else PrunedIn(h, stop, Children(h, v), s.children, |s.children|, path, KindOf(h, v))
  }

  ghost function PrunedIn(h: Heap, stop: Value -> bool, kids: seq<Value>, ss: seq<Shape>, n: nat, path: Path,
      parent: Option<string>): seq<Occurrence>
    requires AllUnfold(h, kids, ss) && n <= |ss|
    decreases ss, 0, n
  {
    if n == 0 then []
    else
      PrunedIn(h, stop, kids, ss, n - 1, path, parent)
      + Pruned(h, stop, kids[n - 1], ss[n - 1], ChildPath(path, n - 1), parent)
  }

  /** Every trail that reaches a node by one of the first `n` children. */
  ghost predicate Complete(h: Heap, stop: Value -> bool, v: Value, n: nat, ts: seq<Trail>) {
    forall t :: t in ts <==> t != [] && t[0] < n && Reached(h, stop, v, t)
  }

  function Under(i: nat, ts: seq<Trail>): (r: seq<Trail>)
    ensures |r| == |ts| && forall k | 0 <= k < |ts| :: r[k] == [i] + ts[k]
  {
    seq(|ts|, k requires 0 <= k < |ts| => [i] + ts[k])
  }

  lemma {:induction false} LocatedUnder(h: Heap, v: Value, path: Path, parent: Option<string>, i: nat, t: Trail,
      o: Occurrence)
    requires i < |Children(h, v)| && Located(h, Children(h, v)[i], ChildPath(path, i), KindOf(h, v), t, o)
    ensures Located(h, v, path, parent, [i] + t, o)
  {
    var u := [i] + t;
    assert u[1..] == t;
    if t != [] {
      assert u[..|u| - 1] == [i] + t[..|t| - 1];
      assert u[..|u| - 1][1..] == t[..|t| - 1];
    } else {
      assert u[..|u| - 1] == [];
    }
  }

  /** The pruned list goes through all trails that reach a node, in order, each once: every entry is the node
      its trail leads to, with its path and with the type of the node above. */
  lemma {:induction false} PrunedInOrder(h: Heap, stop: Value -> bool, v: Value, s: Shape, path: Path,
      parent: Option<string>) returns (ts: seq<Trail>)
    requires Unfolds(h, v, s)
    ensures InOrder(ts) && AllLocated(h, v, path, parent, ts, Pruned(h, stop, v, s, path, parent))
    ensures forall t :: t in ts <==> Reached(h, stop, v, t)
    decreases s, 1, 0
  {
    hide Located, Descend, Reached, InOrder, Complete, Children, KindOf;
    Roots(h, stop, v, s, path, parent);
    if stop(v) {
      return [[]];
    }
    var below := PrunedBelow(h, stop, v, s, |s.children|, path, parent);
    ts := [[]] + below;
    WithRoot(h, stop, v, s, below);
    JoinedLocated(h, v, path, parent, [[]], [Occurrence(v, path, parent)], below,
      PrunedIn(h, stop, Children(h, v), s.children, |s.children|, path, KindOf(h, v)));
    hide PrunedIn, AllLocated;
  }

  lemma {:induction false} WithRoot(h: Heap, stop: Value -> bool, v: Value, s: Shape, below: seq<Trail>)
    requires Unfolds(h, v, s) && !stop(v) && InOrder(below) && Complete(h, stop, v, |s.children|, below)
    ensures InOrder([[]] + below)
    ensures forall t :: t in [[]] + below <==> Reached(h, stop, v, t)
  {
    assert forall k | 0 <= k < |below| :: below[k] in below;
  }

  lemma {:induction false} Roots(h: Heap, stop: Value -> bool, v: Value, s: Shape, path: Path, parent: Option<string>)
    requires Unfolds(h, v, s)
    ensures AllLocated(h, v, path, parent, [[]], [Occurrence(v, path, parent)]) && InOrder([[]])
    ensures stop(v) ==> forall t :: t in [[]] <==> Reached(h, stop, v, t)
  {
  }

  lemma {:induction false} PrunedBelow(h: Heap, stop: Value -> bool, v: Value, s: Shape, n: nat, path: Path,
      parent: Option<string>) returns (ts: seq<Trail>)
    requires Unfolds(h, v, s) && n <= |s.children| && !stop(v)
    ensures InOrder(ts) && Complete(h, stop, v, n, ts)
    ensures AllLocated(h, v, path, parent, ts, PrunedIn(h, stop, Children(h, v), s.children, n, path, KindOf(h, v)))
    decreases s, 0, n
  {
    hide Located, Descend, Reached, Unfolds, Pruned, AllLocated, InOrder, Complete;
    if n == 0 {
      NothingBelow(h, stop, v, path, parent);
      return [];
    }
    var i := n - 1;
    KidUnfolds(h, v, s, i);
    var kid, at := Children(h, v)[i], ChildPath(path, i);
    hide Children, KindOf;
    var first := PrunedBelow(h, stop, v, s, i, path, parent);
    var inside := PrunedInOrder(h, stop, kid, s.children[i], at, KindOf(h, v));
    ts := first + Under(i, inside);
    JoinedComplete(h, stop, v, i, first, inside);
    JoinedInOrder(i, first, inside);
    UnderLocated(h, v, path, parent, i, inside, Pruned(h, stop, kid, s.children[i], at, KindOf(h, v)));
    JoinedLocated(h, v, path, parent, first, PrunedIn(h, stop, Children(h, v), s.children, i, path, KindOf(h, v)),
      Under(i, inside), Pruned(h, stop, kid, s.children[i], at, KindOf(h, v)));
  }

  lemma {:induction false} NothingBelow(h: Heap, stop: Value -> bool, v: Value, path: Path, parent: Option<string>)
    ensures InOrder([]) && Complete(h, stop, v, 0, []) && AllLocated(h, v, path, parent, [], [])
  {
  }

  lemma {:induction false} KidUnfolds(h: Heap, v: Value, s: Shape, i: nat)
    requires Unfolds(h, v, s) && i < |s.children|
    ensures AllUnfold(h, Children(h, v), s.children) && i < |Children(h, v)|
    ensures Unfolds(h, Children(h, v)[i], s.children[i])
  {
  }

  lemma {:induction false} UnderLocated(h: Heap, v: Value, path: Path, parent: Option<string>, i: nat,
      inside: seq<Trail>, os: seq<Occurrence>)
    requires i < |Children(h, v)| && AllLocated(h, Children(h, v)[i], ChildPath(path, i), KindOf(h, v), inside, os)
    ensures AllLocated(h, v, path, parent, Under(i, inside), os)
  {
    hide Located, Children, KindOf;
    forall k | 0 <= k < |os| ensures Located(h, v, path, parent, Under(i, inside)[k], os[k]) {
      LocatedUnder(h, v, path, parent, i, inside[k], os[k]);
    }
  }

  lemma {:induction false} JoinedLocated(h: Heap, v: Value, path: Path, parent: Option<string>, ts: seq<Trail>,
      os: seq<Occurrence>, us: seq<Trail>, ps: seq<Occurrence>)
    requires AllLocated(h, v, path, parent, ts, os) && AllLocated(h, v, path, parent, us, ps)
    ensures AllLocated(h, v, path, parent, ts + us, os + ps)
  {
    hide Located;
  }

  /** All begin with one of the first `i` children. */
  predicate EarlierThan(i: nat, ts: seq<Trail>) { forall t | t in ts :: t != [] && t[0] < i }

  lemma {:induction false} JoinedInOrder(i: nat, first: seq<Trail>, inside: seq<Trail>)
    requires InOrder(first) && InOrder(inside) && EarlierThan(i, first)
    ensures InOrder(first + Under(i, inside))
  {
    var ts := first + Under(i, inside);
    forall j, k | 0 <= j < k < |ts| ensures Before(ts[j], ts[k]) {
      if j >= |first| {
        var t, u := inside[j - |first|], inside[k - |first|];
        assert ts[j] == [i] + t && ts[k] == [i] + u;
        assert ([i] + t)[1..] == t && ([i] + u)[1..] == u;
      } else {
        assert ts[j] in first;
        assert k >= |first| ==> ts[k][0] == i;
      }
    }
  }

  lemma {:induction false} JoinedComplete(h: Heap, stop: Value -> bool, v: Value, i: nat, first: seq<Trail>,
      inside: seq<Trail>)
    requires i < |Children(h, v)| && Complete(h, stop, v, i, first) && !stop(v)
    requires forall t :: t in inside <==> Reached(h, stop, Children(h, v)[i], t)
    ensures Complete(h, stop, v, i + 1, first + Under(i, inside)) && EarlierThan(i, first)
  {
    forall t ensures t in first + Under(i, inside) <==> t != [] && t[0] < i + 1 && Reached(h, stop, v, t) {
      UnderMembers(i, inside, t);
    }
  }

  lemma {:induction false} UnderMembers(i: nat, ts: seq<Trail>, u: Trail)
    ensures u in Under(i, ts) <==> u != [] && u[0] == i && u[1..] in ts
    ensures u != [] && u[0] == i ==> u == [i] + u[1..]
  {
    if u in Under(i, ts) {
      var k :| 0 <= k < |ts| && Under(i, ts)[k] == u;
      assert ([i] + ts[k])[1..] == ts[k];
    }
    if u != [] && u[0] == i && u[1..] in ts {
      var k :| 0 <= k < |ts| && ts[k] == u[1..];
      assert Under(i, ts)[k] == u;
    }
  }

  // ------------------------------------------------------------------ the validator's two lists

  function Never(): Value -> bool { (v: Value) => false }

  /** Where the recursive check does not descend: below a node of a kind the profile does not know. */
  function Unknown(h: Heap, def: Definition): Value -> bool {
    (v: Value) => !(IsRecord(h, v) && Get(h, v, "type").Text? && Get(h, v, "type").s in def.allowedNodes)
  }

  lemma {:induction false} ReachedIsLed(h: Heap, v: Value, t: Trail)
    ensures Reached(h, Never(), v, t) <==> Descend(h, v, t).Some?
    decreases |t|
  {
    if t != [] && t[0] < |Children(h, v)| {
      ReachedIsLed(h, Children(h, v)[t[0]], t[1..]);
    }
  }

  lemma {:induction false} OccurrencesPruned(h: Heap, v: Value, s: Shape, path: Path, parent: Option<string>)
    requires Unfolds(h, v, s)
    ensures Occurrences(h, v, s, path, parent) == Pruned(h, Never(), v, s, path, parent)
    decreases s, 1, 0
  {
    OccurrencesInPruned(h, Children(h, v), s.children, |s.children|, path, KindOf(h, v));
  }

  lemma {:induction false} OccurrencesInPruned(h: Heap, kids: seq<Value>, ss: seq<Shape>, n: nat, path: Path,
      parent: Option<string>)
    requires AllUnfold(h, kids, ss) && n <= |ss|
    ensures OccurrencesIn(h, kids, ss, n, path, parent) == PrunedIn(h, Never(), kids, ss, n, path, parent)
    decreases ss, 0, n
  {
    if n > 0 {
      OccurrencesInPruned(h, kids, ss, n - 1, path, parent);
      OccurrencesPruned(h, kids[n - 1], ss[n - 1], ChildPath(path, n - 1), parent);
    }
  }

  lemma {:induction false} VisitsPruned(h: Heap, def: Definition, v: Value, s: Shape, path: Path,
      parent: Option<string>)
    requires Unfolds(h, v, s)
    ensures Visits(h, def, v, s, path, parent) == Pruned(h, Unknown(h, def), v, s, path, parent)
    decreases s, 1, 0
  {
    VisitsInPruned(h, def, Children(h, v), s.children, |s.children|, path, KindOf(h, v));
    assert Unknown(h, def)(v) <==> !Allowed(h, def, v);
  }

  lemma {:induction false} VisitsInPruned(h: Heap, def: Definition, kids: seq<Value>, ss: seq<Shape>, n: nat,
      path: Path, parent: Option<string>)
    requires AllUnfold(h, kids, ss) && n <= |ss|
    ensures VisitsIn(h, def, kids, ss, n, path, parent) == PrunedIn(h, Unknown(h, def), kids, ss, n, path, parent)
    decreases ss, 0, n
  {
    if n > 0 {
      VisitsInPruned(h, def, kids, ss, n - 1, path, parent);
      VisitsPruned(h, def, kids[n - 1], ss[n - 1], ChildPath(path, n - 1), parent);
    }
  }

  /** The flat list of nodes has exactly one entry for every trail that leads somewhere, in document order. */
  lemma {:induction false} OccurrencesInOrder(h: Heap, v: Value, s: Shape, path: Path, parent: Option<string>)
      returns (ts: seq<Trail>)
    requires Unfolds(h, v, s)
    ensures InOrder(ts) && AllLocated(h, v, path, parent, ts, Occurrences(h, v, s, path, parent))
    ensures forall t :: t in ts <==> Descend(h, v, t).Some?
  {
    OccurrencesPruned(h, v, s, path, parent);
    ts := PrunedInOrder(h, Never(), v, s, path, parent);
    forall t ensures Reached(h, Never(), v, t) <==> Descend(h, v, t).Some? {
      ReachedIsLed(h, v, t);
    }
    hide Descend, Reached;
  }

  /** The nodes the recursive check reaches: those with no node of an unknown kind above them, in document order. */
  lemma {:induction false} VisitsInOrder(h: Heap, def: Definition, v: Value, s: Shape, path: Path,
      parent: Option<string>)
      returns (ts: seq<Trail>)
    requires Unfolds(h, v, s)
    ensures InOrder(ts) && AllLocated(h, v, path, parent, ts, Visits(h, def, v, s, path, parent))
    ensures forall t :: t in ts <==> Reached(h, Unknown(h, def), v, t)
  {
    VisitsPruned(h, def, v, s, path, parent);
    ts := PrunedInOrder(h, Unknown(h, def), v, s, path, parent);
  }

  // ------------------------------------------------------------------ the guard's one error

  predicate AttributesAreRecord(h: Heap, v: Value)
    requires IsRecord(h, v)
  {
    Get(h, v, "attrs") == Undefined || IsRecord(h, Get(h, v, "attrs"))
  }

  predicate FineMarks(h: Heap, marks: seq<Value>) {
    forall m | m in marks :: IsRecord(h, m) && AttributesAreRecord(h, m)
  }

  predicate Node(h: Heap, v: Value) { IsRecord(h, v) && Get(h, v, "type").Text? }

  /** A value with nothing to complain about, apart from its children. */
  predicate Sound(h: Heap, v: Value) {
    && Node(h, v) && AttributesAreRecord(h, v)
    && (Get(h, v, "marks") == Undefined
        || (IsArray(h, Get(h, v, "marks")) && FineMarks(h, Items(h, Get(h, v, "marks")))))
    && (Get(h, v, "content") == Undefined || IsArray(h, Get(h, v, "content")))
  }

  /** The first defect of one value, in the order type, attributes, marks from the first on, content. */
  ghost predicate Defect(h: Heap, v: Value, path: Path, p: Problem) {
    if !Node(h, v) then p == Problem(path, NodeType)
    else if !AttributesAreRecord(h, v) then p == Problem(path + [Field("attrs")], AttributesType)
    else
      var marks, content := Get(h, v, "marks"), Get(h, v, "content");
      if marks != Undefined && !IsArray(h, marks) then p == Problem(path + [Field("marks")], MarksType)
      else if marks != Undefined && !FineMarks(h, Items(h, marks)) then
        exists i :: MarkDefect(h, Items(h, marks), i, path, p)
      else content != Undefined && !IsArray(h, content) && p == Problem(path + [Field("content")], ContentType)
  }

  ghost predicate MarkDefect(h: Heap, marks: seq<Value>, i: nat, path: Path, p: Problem) {
    && i < |marks| && FineMarks(h, marks[..i])
    && if !IsRecord(h, marks[i]) then p == Problem(path + [Field("marks"), Index(i)], MarkNotAllowed)
       else
         && !AttributesAreRecord(h, marks[i])
         && p == Problem(path + [Field("marks"), Index(i), Field("attrs")], MarkAttributesType)
  }

  lemma {:induction false} FirstBadMark(h: Heap, marks: seq<Value>, i: nat, path: Path) returns (j: nat)
    requires i <= |marks| && FineMarks(h, marks[..i]) && !FineMarks(h, marks)
    ensures MarkProblem(h, marks, i, path).Some? && MarkDefect(h, marks, j, path, MarkProblem(h, marks, i, path).value)
    decreases |marks| - i
  {
    assert marks[..|marks|] == marks;
    if MarkWellShaped(h, marks[i]) {
      assert marks[..i + 1] == marks[..i] + [marks[i]];
      j := FirstBadMark(h, marks, i + 1, path);
    } else {
      j := i;
      assert MarkPath(path, i) + [Field("attrs")] == path + [Field("marks"), Index(i), Field("attrs")];
    }
  }

  lemma {:induction false} DefectFound(h: Heap, v: Value, path: Path)
    ensures WellShaped(h, v) <==> Sound(h, v)
    ensures ShapeProblem(h, v, path).None? <==> Sound(h, v)
    ensures ShapeProblem(h, v, path).Some? ==> Defect(h, v, path, ShapeProblem(h, v, path).value)
  {
    if Node(h, v) && AttributesAreRecord(h, v) && IsArray(h, Get(h, v, "marks")) {
      var marks := Items(h, Get(h, v, "marks"));
      assert marks[..0] == [];
      if !FineMarks(h, marks) {
        var j := FirstBadMark(h, marks, 0, path);
      }
    }
  }

  /** A value not too deep, with nothing to complain about. */
  ghost predicate Clean(h: Heap, v: Value, depth: nat, t: Trail) {
    Descend(h, v, t).Some? && depth + |t| <= 64 && Sound(h, Descend(h, v, t).value)
  }

  /** What a walk says that stops at the trail `t` after `visited` values. */
  ghost predicate Stopped(h: Heap, v: Value, path: Path, depth: nat, visited: nat, maxNodes: nat, t: Trail,
      p: Problem) {
    && Descend(h, v, t).Some? && visited <= maxNodes
    && if depth + |t| > 64 then p == Problem(PathTo(path, t), DepthLimit)
       else if visited == maxNodes then p == Problem([Field("content")], NodeLimit)
       else Defect(h, Descend(h, v, t).value, PathTo(path, t), p)
  }

  /** The trails from child `i` on that come before `t`. */
  ghost predicate Preceding(h: Heap, v: Value, depth: nat, i: nat, t: Trail, ts: seq<Trail>) {
    && InOrder(ts) && (forall u | u in ts :: Clean(h, v, depth, u))
    && forall u :: u in ts <==> u != [] && i <= u[0] && Before(u, t) && Descend(h, v, u).Some?
  }

  lemma {:induction false} TrailWithin(h: Heap, v: Value, s: Shape, depth: nat, t: Trail)
    requires Unfolds(h, v, s) && AllShaped(h, v, s) && HeightAtMost(s, 64 - depth) && Descend(h, v, t).Some?
    ensures Clean(h, v, depth, t)
    decreases |t|
  {
    DefectFound(h, v, []);
    if t != [] {
      TrailWithin(h, Children(h, v)[t[0]], s.children[t[0]], depth + 1, t[1..]);
    }
  }

  /** All trails below a value that has been walked. */
  lemma {:induction false} WalkedTrails(h: Heap, v: Value, path: Path, depth: nat, nodes: nat, maxNodes: nat)
      returns (ts: seq<Trail>)
    requires nodes <= maxNodes && Walk(h, v, path, depth, nodes, maxNodes).Passed?
    ensures InOrder(ts) && Walk(h, v, path, depth, nodes, maxNodes).nodes == nodes + |ts|
    ensures forall t :: t in ts <==> Descend(h, v, t).Some?
    ensures forall t | t in ts :: Clean(h, v, depth, t)
  {
    hide Walk, Clean, Unfolds, AllShaped, HeightAtMost, Descend;
    var s := WalkUnfolds(h, v, path, depth, nodes, maxNodes);
    ts := OccurrencesInOrder(h, v, s, path, None);
    OccurrencesSized(h, v, s, path, None);
    forall t | t in ts ensures Clean(h, v, depth, t) {
      TrailWithin(h, v, s, depth, t);
    }
  }

  lemma {:induction false} OccurrencesSized(h: Heap, v: Value, s: Shape, path: Path, parent: Option<string>)
    requires Unfolds(h, v, s)
    ensures |Occurrences(h, v, s, path, parent)| == Size(s)
  {
    OccurrencesCounted(h, Definition(0, 0, [], [], []), v, s, path, parent);
  }

  /** A walk that fails stops at the first trail, in order, that is too deep, has used up the budget or leads
      to a defect; `ts` are the trails before it. */
  lemma {:induction false} WalkStops(h: Heap, v: Value, path: Path, depth: nat, nodes: nat, maxNodes: nat)
      returns (t: Trail, ts: seq<Trail>)
    requires nodes <= maxNodes && Walk(h, v, path, depth, nodes, maxNodes).Failed? && depth <= 65
    ensures InOrder(ts) && forall u | u in ts :: Clean(h, v, depth, u)
    ensures forall u :: u in ts <==> Before(u, t) && Descend(h, v, u).Some?
    ensures Stopped(h, v, path, depth, nodes + |ts|, maxNodes, t, Walk(h, v, path, depth, nodes, maxNodes).problem)
    decreases maxNodes - nodes, 0, 0
  {
    DefectFound(h, v, path);
    if depth > 64 || nodes == maxNodes || !Sound(h, v) {
      t, ts := [], [];
    } else {
      var rest;
      t, rest := ChildrenStop(h, v, 0, path, depth, nodes + 1, maxNodes);
      ts := [[]] + rest;
    }
  }

  lemma {:induction false} ChildrenStop(h: Heap, v: Value, i: nat, path: Path, depth: nat, nodes: nat, maxNodes: nat)
      returns (t: Trail, ts: seq<Trail>)
    requires i <= |Children(h, v)| && nodes <= maxNodes && depth <= 64
    requires WalkChildren(h, Children(h, v), i, path, depth, nodes, maxNodes).Failed?
    ensures t != [] && i <= t[0] && Preceding(h, v, depth, i, t, ts)
    ensures Stopped(h, v, path, depth, nodes + |ts|, maxNodes, t,
              WalkChildren(h, Children(h, v), i, path, depth, nodes, maxNodes).problem)
    decreases maxNodes - nodes, 1, |Children(h, v)| - i
  {
    var kid, at := Children(h, v)[i], ChildPath(path, i);
    if Walk(h, kid, at, depth + 1, nodes, maxNodes).Failed? {
      var u, us := WalkStops(h, kid, at, depth + 1, nodes, maxNodes);
      t, ts := [i] + u, Under(i, us);
      PrecedingUnder(h, v, depth, i, u, us);
      assert t[1..] == u;
      hide Walk, WalkChildren, Defect;
    } else {
      var us := WalkedTrails(h, kid, at, depth + 1, nodes, maxNodes);
      var rest;
      t, rest := ChildrenStop(h, v, i + 1, path, depth, nodes + |us|, maxNodes);
      ts := Under(i, us) + rest;
      PrecedingMore(h, v, depth, i, us, t, rest);
      hide Walk, WalkChildren, Defect;
    }
  }

  lemma {:induction false} CleanUnder(h: Heap, v: Value, depth: nat, i: nat, u: Trail)
    requires i < |Children(h, v)|
    ensures ([i] + u)[1..] == u
    ensures Descend(h, v, [i] + u) == Descend(h, Children(h, v)[i], u)
    ensures Clean(h, Children(h, v)[i], depth + 1, u) ==> Clean(h, v, depth, [i] + u)
  {
    assert ([i] + u)[1..] == u;
  }

  lemma {:induction false} PrecedingUnder(h: Heap, v: Value, depth: nat, i: nat, t: Trail, ts: seq<Trail>)
    requires i < |Children(h, v)| && InOrder(ts)
    requires forall u | u in ts :: Clean(h, Children(h, v)[i], depth + 1, u)
    requires forall u :: u in ts <==> Before(u, t) && Descend(h, Children(h, v)[i], u).Some?
    ensures Preceding(h, v, depth, i, [i] + t, Under(i, ts))
    ensures Descend(h, v, [i] + t) == Descend(h, Children(h, v)[i], t)
  {
    hide Descend, Clean;
    CleanUnder(h, v, depth, i, t);
    JoinedInOrder(i, [], ts);
    assert [] + Under(i, ts) == Under(i, ts);
    forall u ensures u in Under(i, ts) <==> u != [] && i <= u[0] && Before(u, [i] + t) && Descend(h, v, u).Some? {
      UnderMembers(i, ts, u);
      if u != [] && u[0] == i {
        CleanUnder(h, v, depth, i, u[1..]);
      }
    }
    forall u | u in Under(i, ts) ensures Clean(h, v, depth, u) {
      UnderMembers(i, ts, u);
      CleanUnder(h, v, depth, i, u[1..]);
    }
  }

  lemma {:induction false} PrecedingMore(h: Heap, v: Value, depth: nat, i: nat, us: seq<Trail>, t: Trail,
      rest: seq<Trail>)
    requires i < |Children(h, v)| && InOrder(us)
    requires forall u | u in us :: Clean(h, Children(h, v)[i], depth + 1, u)
    requires forall u :: u in us <==> Descend(h, Children(h, v)[i], u).Some?
    requires t != [] && i < t[0] && Preceding(h, v, depth, i + 1, t, rest)
    ensures Preceding(h, v, depth, i, t, Under(i, us) + rest)
  {
    hide Descend, Clean;
    var ts := Under(i, us) + rest;
    JoinedInOrder(i, [], us);
    assert [] + Under(i, us) == Under(i, us);
    forall u ensures u in ts <==> u != [] && i <= u[0] && Before(u, t) && Descend(h, v, u).Some? {
      UnderMembers(i, us, u);
      if u != [] && u[0] == i {
        CleanUnder(h, v, depth, i, u[1..]);
      }
    }
    forall u | u in ts ensures Clean(h, v, depth, u) {
      UnderMembers(i, us, u);
      if u !in rest {
        CleanUnder(h, v, depth, i, u[1..]);
      }
    }
    forall j, k | 0 <= j < k < |ts| ensures Before(ts[j], ts[k]) {
      if j < |us| <= k {
        assert Under(i, us)[j] == [i] + us[j];
        assert ts[k] in rest;
      }
    }
  }

  /** The guard's error is about the first value, in document order, that is too deep, comes after the budget
      is spent or has a defect; everything before it is clean. */
  lemma {:induction false} GuardNamesFirst(h: Heap, root: Value, maxNodes: nat) returns (t: Trail, ts: seq<Trail>)
    requires Walk(h, root, ContentPath(), 0, 0, maxNodes).Failed?
    ensures InOrder(ts) && forall u :: u in ts <==> Before(u, t) && Descend(h, root, u).Some?
    ensures forall u | u in ts :: |u| <= 64 && Sound(h, Descend(h, root, u).value)
    ensures Stopped(h, root, [Field("content")], 0, |ts|, maxNodes, t,
        Walk(h, root, ContentPath(), 0, 0, maxNodes).problem)
  {
    t, ts := WalkStops(h, root, ContentPath(), 0, 0, maxNodes);
    hide Walk, Defect;
  }
}
