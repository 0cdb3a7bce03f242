/** The structural guard of packages/editor/src/validation.ts: an explicit-stack walk over an
    untrusted object graph, bounded in depth and in the number of node visits. */
module DocumentStructure {
  import opened Options
  import opened JsonHeap

  const MAX_DEPTH: nat := 64

  datatype Step = Field(name: string) | Index(i: nat)
  type Path = seq<Step>

  datatype Code =
    | DocumentType | SchemaVersion | UnknownProfile | RootNode
    | DepthLimit | NodeLimit | NodeType | AttributesType | MarksType | MarkNotAllowed
    | MarkAttributesType | ContentType
    | NodeNotAllowed | TextRequired | UnexpectedText | NodePlacement | NodeContent
    | TextAlignment | HeadingLevel | CodeLanguage | UuidRequired | StringLength | TaskChecked
    | FootnoteId | LinkUrl
    | FootnotePair(noteId: string) | TableOfContentsLimit | CharacterLimit

  /** One validation error: where and what. */
  datatype Problem = Problem(path: Path, code: Code)

  function ContentPath(): Path { [Field("content")] }

  function ChildPath(path: Path, i: nat): Path { path + [Field("content"), Index(i)] }

  function MarkPath(path: Path, i: nat): Path { path + [Field("marks"), Index(i)] }

  /** The child nodes of a value: what both the guard and the recursive checks descend into. */
  function Children(h: Heap, v: Value): seq<Value> {
    if IsRecord(h, v) then ItemsOrNone(h, Get(h, v, "content")) else []
  }

  // ------------------------------------------------------------------ local shape

  predicate MarkWellShaped(h: Heap, mark: Value) {
    IsRecord(h, mark) && (Get(h, mark, "attrs") == Undefined || IsRecord(h, Get(h, mark, "attrs")))
  }

  /** What the guard demands of one node, apart from its children. */
  predicate WellShaped(h: Heap, v: Value) {
    && IsRecord(h, v)
    && Get(h, v, "type").Text?
    && (Get(h, v, "attrs") == Undefined || IsRecord(h, Get(h, v, "attrs")))
    && (Get(h, v, "marks") == Undefined
        || (IsArray(h, Get(h, v, "marks"))
            && forall m | m in Items(h, Get(h, v, "marks")) :: MarkWellShaped(h, m)))
    && (Get(h, v, "content") == Undefined || IsArray(h, Get(h, v, "content")))
  }

  /** The first ill-shaped mark from index `i` on. */
  function MarkProblem(h: Heap, marks: seq<Value>, i: nat, path: Path): (r: Option<Problem>)
    requires i <= |marks|
    ensures r.None? <==> forall m | m in marks[i..] :: MarkWellShaped(h, m)
    decreases |marks| - i
  {
    if i == |marks| then None
    else
      assert marks[i..] == [marks[i]] + marks[i + 1..] && marks[i] in marks[i..];
      if !IsRecord(h, marks[i]) then
        Some(Problem(MarkPath(path, i), MarkNotAllowed))
      else if Get(h, marks[i], "attrs") != Undefined && !IsRecord(h, Get(h, marks[i], "attrs")) then
        Some(Problem(MarkPath(path, i) + [Field("attrs")], MarkAttributesType))
      else
        MarkProblem(h, marks, i + 1, path)
  }

  /** The first shape error of one node. */
  function ShapeProblem(h: Heap, v: Value, path: Path): (r: Option<Problem>)
    ensures r.None? <==> WellShaped(h, v)
  {
    if !IsRecord(h, v) || !Get(h, v, "type").Text? then Some(Problem(path, NodeType))
    else if Get(h, v, "attrs") != Undefined && !IsRecord(h, Get(h, v, "attrs")) then
      Some(Problem(path + [Field("attrs")], AttributesType))
    else
      var marks := Get(h, v, "marks");
      if marks != Undefined && !IsArray(h, marks) then Some(Problem(path + [Field("marks")], MarksType))
      else if marks != Undefined && MarkProblem(h, Items(h, marks), 0, path).Some? then
        MarkProblem(h, Items(h, marks), 0, path)
      else if Get(h, v, "content") != Undefined && !IsArray(h, Get(h, v, "content")) then
        Some(Problem(path + [Field("content")], ContentType))
      else None
  }

  // ------------------------------------------------------------------ recursive specification

  datatype Outcome = Passed(nodes: nat) | Failed(problem: Problem)

  /** Preorder walk: `nodes` visits have been spent before this one.  Recursion ends on every
      graph, cyclic ones included, because each visit spends one of `maxNodes`. */
  function Walk(h: Heap, v: Value, path: Path, depth: nat, nodes: nat, maxNodes: nat): (r: Outcome)
    requires nodes <= maxNodes
    ensures r.Passed? ==> nodes < r.nodes <= maxNodes
    decreases maxNodes - nodes, 0, 0
  {
    if depth > MAX_DEPTH then Failed(Problem(path, DepthLimit))
    else if nodes + 1 > maxNodes then Failed(Problem(ContentPath(), NodeLimit))
    else match ShapeProblem(h, v, path)
      case Some(p) => Failed(p)
      case None => WalkChildren(h, Children(h, v), 0, path, depth, nodes + 1, maxNodes)
  }

  function WalkChildren(h: Heap, kids: seq<Value>, i: nat, path: Path, depth: nat, nodes: nat,
      maxNodes: nat): (r: Outcome)
    requires i <= |kids| && nodes <= maxNodes
    ensures r.Passed? ==> nodes <= r.nodes <= maxNodes
    decreases maxNodes - nodes, 1, |kids| - i
  {
    if i == |kids| then Passed(nodes)
    else match Walk(h, kids[i], ChildPath(path, i), depth + 1, nodes, maxNodes)
      case Failed(p) => Failed(p)
      case Passed(n) => WalkChildren(h, kids, i + 1, path, depth, n, maxNodes)
  }

  // ------------------------------------------------------------------ explicit stack

  datatype Frame = Frame(node: Value, path: Path, depth: nat, entered: bool, nextChild: nat)

  /** What is left to do for one frame. */
  function Pending(h: Heap, f: Frame, nodes: nat, maxNodes: nat): (r: Outcome)
    requires nodes <= maxNodes && f.nextChild <= |Children(h, f.node)|
    ensures r.Passed? ==> r.nodes <= maxNodes
  {
    if f.entered then WalkChildren(h, Children(h, f.node), f.nextChild, f.path, f.depth, nodes, maxNodes)
    else Walk(h, f.node, f.path, f.depth, nodes, maxNodes)
  }

  predicate FramesOk(h: Heap, frames: seq<Frame>) {
    forall k | 0 <= k < |frames| ::
      && frames[k].nextChild <= |Children(h, frames[k].node)|
      && frames[k].depth == k
      && (k < |frames| - 1 ==> frames[k].entered && k <= MAX_DEPTH)
      && (frames[k].entered ==> k <= MAX_DEPTH && WellShaped(h, frames[k].node))
      && (!frames[k].entered ==> frames[k].nextChild == 0)
  }

  /** The walk's outcome continued from a stack: the frames are finished from the top down. */
  function Resume(h: Heap, frames: seq<Frame>, nodes: nat, maxNodes: nat): Outcome
    requires nodes <= maxNodes && FramesOk(h, frames)
  {
    if frames == [] then Passed(nodes)
    else match Pending(h, frames[|frames| - 1], nodes, maxNodes)
      case Failed(p) => Failed(p)
      case Passed(n) => Resume(h, frames[..|frames| - 1], n, maxNodes)
  }

  /** The stack stands for a suspended walk whose outcome is `verdict`. */
  ghost predicate Stands(h: Heap, frames: seq<Frame>, nodes: nat, maxNodes: nat, verdict: Outcome) {
    nodes <= maxNodes && FramesOk(h, frames) && Resume(h, frames, nodes, maxNodes) == verdict
  }

  lemma {:induction false} StartStands(h: Heap, root: Value, maxNodes: nat)
    ensures Stands(h, [Frame(root, ContentPath(), 0, false, 0)], 0, maxNodes,
        Walk(h, root, ContentPath(), 0, 0, maxNodes))
  {
    var frames := [Frame(root, ContentPath(), 0, false, 0)];
    assert frames[..0] == [];
    assert FramesOk(h, frames);
  }

  lemma {:induction false} StandsWithin(h: Heap, frames: seq<Frame>, nodes: nat, maxNodes: nat, verdict: Outcome)
    requires Stands(h, frames, nodes, maxNodes, verdict)
    ensures nodes <= maxNodes && (frames == [] ==> verdict == Passed(nodes))
    ensures frames != [] ==> frames[|frames| - 1].nextChild <= |Children(h, frames[|frames| - 1].node)|
  {
  }

  /** A frame that fails on entry fails the whole walk. */
  lemma {:induction false} FailStep(h: Heap, frames: seq<Frame>, nodes: nat, maxNodes: nat, verdict: Outcome)
    requires Stands(h, frames, nodes, maxNodes, verdict) && Unentered(frames)
    ensures var top := frames[|frames| - 1];
            verdict == if top.depth > MAX_DEPTH then Failed(Problem(top.path, DepthLimit))
                       else if nodes + 1 > maxNodes then Failed(Problem(ContentPath(), NodeLimit))
                       else if ShapeProblem(h, top.node, top.path).Some?
                           then Failed(ShapeProblem(h, top.node, top.path).value)
                       else verdict
  {
  }

  /** Entering, descending into the next child and returning each leave the verdict unchanged. */
  lemma {:induction false} EnterStep(h: Heap, frames: seq<Frame>, nodes: nat, maxNodes: nat, verdict: Outcome)
    requires Stands(h, frames, nodes, maxNodes, verdict) && Unentered(frames) && nodes + 1 <= maxNodes
    requires frames[|frames| - 1].depth <= MAX_DEPTH && WellShaped(h, frames[|frames| - 1].node)
    ensures Stands(h, Entered(frames), nodes + 1, maxNodes, verdict) && !Unentered(Entered(frames))
  {
    var last := |frames| - 1;
    assert frames[last].depth == last && frames[last].nextChild == 0;
    assert Entered(frames)[..last] == frames[..last];
  }

  lemma {:induction false} DescendStep(h: Heap, frames: seq<Frame>, nodes: nat, maxNodes: nat, verdict: Outcome)
    requires Stands(h, frames, nodes, maxNodes, verdict) && frames != [] && !Unentered(frames)
    requires frames[|frames| - 1].nextChild < |Children(h, frames[|frames| - 1].node)|
    ensures |frames| <= MAX_DEPTH + 1
    ensures Stands(h, Descended(h, frames), nodes, maxNodes, verdict) && Unentered(Descended(h, frames))
  {
    var last := |frames| - 1;
    assert frames[last].entered;
    var deeper := Descended(h, frames);
    var parents := deeper[..last + 1];
    assert parents == frames[last := frames[last].(nextChild := frames[last].nextChild + 1)];
    assert parents[..last] == frames[..last];
    assert FramesOk(h, deeper);
  }

  lemma {:induction false} ReturnStep(h: Heap, frames: seq<Frame>, nodes: nat, maxNodes: nat, verdict: Outcome)
    requires Stands(h, frames, nodes, maxNodes, verdict) && frames != [] && !Unentered(frames)
    requires frames[|frames| - 1].nextChild >= |Children(h, frames[|frames| - 1].node)|
    ensures Stands(h, frames[..|frames| - 1], nodes, maxNodes, verdict) && !Unentered(frames[..|frames| - 1])
  {
    var last := |frames| - 1;
    assert frames[last].entered;
    assert last > 0 ==> frames[last - 1].entered;
  }

  predicate Unentered(frames: seq<Frame>) {
    frames != [] && !frames[|frames| - 1].entered
  }

  function Entered(frames: seq<Frame>): seq<Frame>
    requires frames != []
  {
    frames[|frames| - 1 := frames[|frames| - 1].(entered := true)]
  }

  function Descended(h: Heap, frames: seq<Frame>): seq<Frame>
    requires frames != [] && frames[|frames| - 1].nextChild < |Children(h, frames[|frames| - 1].node)|
  {
    var frame := frames[|frames| - 1];
    frames[|frames| - 1 := frame.(nextChild := frame.nextChild + 1)]
    + [Frame(Children(h, frame.node)[frame.nextChild], ChildPath(frame.path, frame.nextChild), frame.depth + 1,
        false, 0)]
  }

  /** The loop over an explicit stack gives the recursive walk's verdict, error included.  It ends
      on every heap; `pushed` counts the frames it ever pushes, `highest` its tallest stack. */
  method ValidateDocumentStructure(h: Heap, root: Value, maxNodes: nat)
    returns (error: Option<Problem>, ghost pushed: nat, ghost highest: nat)
    ensures Walk(h, root, ContentPath(), 0, 0, maxNodes).Passed? <==> error.None?
    ensures error.Some? ==> Walk(h, root, ContentPath(), 0, 0, maxNodes) == Failed(error.value)
    ensures pushed <= maxNodes + 1
    ensures highest <= MAX_DEPTH + 2
  {
    var frames := [Frame(root, ContentPath(), 0, false, 0)];
    var nodes := 0;
    pushed, highest := 1, 1;
    ghost var verdict := Walk(h, root, ContentPath(), 0, 0, maxNodes);
    StartStands(h, root, maxNodes);
    hide Stands, Walk, Children, ShapeProblem;
    while |frames| > 0
      invariant Stands(h, frames, nodes, maxNodes, verdict)
      invariant pushed == nodes + if Unentered(frames) then 1 else 0
      invariant |frames| <= MAX_DEPTH + 2 && highest <= MAX_DEPTH + 2
      decreases maxNodes - nodes, if Unentered(frames) then 0 else 1, |frames|
    {
      var top := |frames| - 1;
      StandsWithin(h, frames, nodes, maxNodes, verdict);
      if !frames[top].entered {
        error := CheckTop(h, frames, nodes, maxNodes, verdict);
        if error.Some? {
          return;
        }
        nodes := nodes + 1;
        frames := frames[top := frames[top].(entered := true)];
      }
      frames := AdvanceTop(h, frames, nodes, maxNodes, verdict);
      if Unentered(frames) {
        pushed := pushed + 1;
        highest := if |frames| > highest then |frames| else highest;
      }
    }
    StandsWithin(h, frames, nodes, maxNodes, verdict);
    error := None;
  }

  /** The other half of a round: one more child is pushed, or the finished frame is dropped. */
  method AdvanceTop(h: Heap, frames: seq<Frame>, nodes: nat, maxNodes: nat, ghost verdict: Outcome)
      returns (next: seq<Frame>)
    requires Stands(h, frames, nodes, maxNodes, verdict) && frames != [] && !Unentered(frames)
    ensures Stands(h, next, nodes, maxNodes, verdict)
    ensures if Unentered(next) then |next| == |frames| + 1 <= MAX_DEPTH + 2 else |next| == |frames| - 1
  {
    hide Stands, Children;
    StandsWithin(h, frames, nodes, maxNodes, verdict);
    var top := |frames| - 1;
    var frame := frames[top];
    var children := Children(h, frame.node);
    if frame.nextChild < |children| {
      DescendStep(h, frames, nodes, maxNodes, verdict);
      var index := frame.nextChild;
      next := frames[top := frame.(nextChild := index + 1)]
              + [Frame(children[index], ChildPath(frame.path, index), frame.depth + 1, false, 0)];
      assert next == Descended(h, frames);
    } else {
      ReturnStep(h, frames, nodes, maxNodes, verdict);
      next := frames[..top];
    }
  }

  /** What the loop checks when it enters a frame. */
  method CheckTop(h: Heap, frames: seq<Frame>, nodes: nat, maxNodes: nat, ghost verdict: Outcome)
      returns (error: Option<Problem>)
    requires Stands(h, frames, nodes, maxNodes, verdict) && Unentered(frames)
    ensures error.Some? ==> verdict == Failed(error.value)
    ensures error.None? ==>
              nodes + 1 <= maxNodes && Stands(h, Entered(frames), nodes + 1, maxNodes, verdict)
                  && !Unentered(Entered(frames))
  {
    hide Stands, ShapeProblem;
    FailStep(h, frames, nodes, maxNodes, verdict);
    var top := frames[|frames| - 1];
    if top.depth > MAX_DEPTH {
      return Some(Problem(top.path, DepthLimit));
    }
    if nodes + 1 > maxNodes {
      return Some(Problem(ContentPath(), NodeLimit));
    }
    error := CheckShape(h, top.node, top.path);
    if error.None? {
      EnterStep(h, frames, nodes, maxNodes, verdict);
    }
  }

  /** The guard's local checks in source order, with its loop over the marks. */
  method CheckShape(h: Heap, v: Value, path: Path) returns (r: Option<Problem>)
    ensures r == ShapeProblem(h, v, path)
  {
    if !IsRecord(h, v) || !Get(h, v, "type").Text? {
      return Some(Problem(path, NodeType));
    }
    var attrs := Get(h, v, "attrs");
    if attrs != Undefined && !IsRecord(h, attrs) {
      return Some(Problem(path + [Field("attrs")], AttributesType));
    }
    var marks := Get(h, v, "marks");
    if marks != Undefined {
      if !IsArray(h, marks) {
        return Some(Problem(path + [Field("marks")], MarksType));
      }
      var list := Items(h, marks);
      for i := 0 to |list|
        invariant MarkProblem(h, list, 0, path) == MarkProblem(h, list, i, path)
      {
        if !IsRecord(h, list[i]) {
          return Some(Problem(MarkPath(path, i), MarkNotAllowed));
        }
        if Get(h, list[i], "attrs") != Undefined && !IsRecord(h, Get(h, list[i], "attrs")) {
          return Some(Problem(MarkPath(path, i) + [Field("attrs")], MarkAttributesType));
        }
      }
    }
    if Get(h, v, "content") != Undefined && !IsArray(h, Get(h, v, "content")) {
      return Some(Problem(path + [Field("content")], ContentType));
    }
    r := None;
  }

  // ------------------------------------------------------------------ unfoldings

  /** The form of a finite tree. */
  datatype Shape = Shape(children: seq<Shape>)

  /** The graph below `v`, unfolded along child references, is the finite tree `s`.  No cyclic
      value has one; a shared value appears once for every way to reach it. */
  ghost predicate Unfolds(h: Heap, v: Value, s: Shape)
    decreases s
  {
    && |Children(h, v)| == |s.children|
    && forall i | 0 <= i < |s.children| :: Unfolds(h, Children(h, v)[i], s.children[i])
  }

  ghost predicate AllUnfold(h: Heap, kids: seq<Value>, ss: seq<Shape>) {
    |kids| == |ss| && forall i | 0 <= i < |ss| :: Unfolds(h, kids[i], ss[i])
  }

  ghost predicate AllShaped(h: Heap, v: Value, s: Shape)
    requires Unfolds(h, v, s)
    decreases s
  {
    WellShaped(h, v) && forall i | 0 <= i < |s.children| :: AllShaped(h, Children(h, v)[i], s.children[i])
  }

  ghost function Size(s: Shape): (n: nat)
    ensures n >= 1
    decreases s, 1
  {
    1 + SizeAll(s.children)
  }

  ghost function SizeAll(ss: seq<Shape>): nat
    decreases ss, 0
  {
    if ss == [] then 0 else Size(ss[0]) + SizeAll(ss[1..])
  }

  ghost predicate HeightAtMost(s: Shape, bound: int)
    decreases s
  {
    bound >= 0 && forall i | 0 <= i < |s.children| :: HeightAtMost(s.children[i], bound - 1)
  }

  /** What the guard is for: a finite tree of bounded depth and size, well shaped throughout. */
  ghost predicate BoundedTree(h: Heap, v: Value, s: Shape, maxNodes: nat) {
    Unfolds(h, v, s) && AllShaped(h, v, s) && HeightAtMost(s, MAX_DEPTH) && Size(s) <= maxNodes
  }

  lemma {:induction false} WalkUnfolds(h: Heap, v: Value, path: Path, depth: nat, nodes: nat, maxNodes: nat)
      returns (s: Shape)
    requires nodes <= maxNodes && Walk(h, v, path, depth, nodes, maxNodes).Passed?
    ensures Unfolds(h, v, s) && AllShaped(h, v, s) && HeightAtMost(s, MAX_DEPTH - depth)
    ensures Walk(h, v, path, depth, nodes, maxNodes).nodes == nodes + Size(s)
    decreases maxNodes - nodes, 0, 0
  {
    var ss := WalkChildrenUnfold(h, Children(h, v), 0, path, depth, nodes + 1, maxNodes);
    s := Shape(ss);
  }

  lemma {:induction false} WalkChildrenUnfold(h: Heap, kids: seq<Value>, i: nat, path: Path, depth: nat, nodes: nat,
      maxNodes: nat)
    returns (ss: seq<Shape>)
    requires i <= |kids| && nodes <= maxNodes
    requires WalkChildren(h, kids, i, path, depth, nodes, maxNodes).Passed?
    ensures UnfoldFrom(h, kids, i, ss, MAX_DEPTH - depth - 1)
    ensures WalkChildren(h, kids, i, path, depth, nodes, maxNodes).nodes == nodes + SizeAll(ss)
    decreases maxNodes - nodes, 1, |kids| - i
  {
    if i == |kids| {
      ss := [];
    } else {
      hide Unfolds, AllShaped, HeightAtMost, Walk, UnfoldFrom;
      var first := WalkUnfolds(h, kids[i], ChildPath(path, i), depth + 1, nodes, maxNodes);
      var n := Walk(h, kids[i], ChildPath(path, i), depth + 1, nodes, maxNodes).nodes;
      var rest := WalkChildrenUnfold(h, kids, i + 1, path, depth, n, maxNodes);
      UnfoldOneMore(h, kids, i, first, rest, MAX_DEPTH - depth - 1);
      ss := [first] + rest;
      assert ss[1..] == rest;
    }
  }

  /** The children from `i` on unfold to `ss`, all well shaped and none too high. */
  ghost predicate UnfoldFrom(h: Heap, kids: seq<Value>, i: nat, ss: seq<Shape>, bound: int) {
    && i + |ss| == |kids|
    && forall k | 0 <= k < |ss| ::
      Unfolds(h, kids[i + k], ss[k]) && AllShaped(h, kids[i + k], ss[k]) && HeightAtMost(ss[k], bound)
  }

  lemma {:induction false} UnfoldOneMore(h: Heap, kids: seq<Value>, i: nat, first: Shape, rest: seq<Shape>, bound: int)
    requires i < |kids| && UnfoldFrom(h, kids, i + 1, rest, bound)
    requires Unfolds(h, kids[i], first) && AllShaped(h, kids[i], first) && HeightAtMost(first, bound)
    ensures UnfoldFrom(h, kids, i, [first] + rest, bound)
  {
    hide Unfolds, AllShaped, HeightAtMost;
    var ss := [first] + rest;
    forall k | 0 <= k < |ss|
      ensures Unfolds(h, kids[i + k], ss[k]) && AllShaped(h, kids[i + k], ss[k]) && HeightAtMost(ss[k], bound)
    {
      assert k > 0 ==> ss[k] == rest[k - 1] && kids[i + k] == kids[i + 1 + (k - 1)];
    }
  }

  lemma {:induction false} UnfoldedWalks(h: Heap, v: Value, s: Shape, path: Path, depth: nat, nodes: nat, maxNodes: nat)
    requires Unfolds(h, v, s) && AllShaped(h, v, s) && HeightAtMost(s, MAX_DEPTH - depth)
    requires nodes + Size(s) <= maxNodes
    ensures Walk(h, v, path, depth, nodes, maxNodes) == Passed(nodes + Size(s))
    decreases s, 1, 0
  {
    UnfoldedChildrenWalk(h, Children(h, v), s.children, 0, path, depth, nodes + 1, maxNodes);
  }

  lemma {:induction false} UnfoldedChildrenWalk(h: Heap, kids: seq<Value>, ss: seq<Shape>, i: nat, path: Path,
      depth: nat, nodes: nat, maxNodes: nat)
    requires AllUnfold(h, kids, ss) && i <= |ss| && depth <= MAX_DEPTH
    requires forall k | i <= k < |ss| :: AllShaped(h, kids[k], ss[k]) && HeightAtMost(ss[k], MAX_DEPTH - depth - 1)
    requires nodes + SizeAll(ss[i..]) <= maxNodes
    ensures WalkChildren(h, kids, i, path, depth, nodes, maxNodes) == Passed(nodes + SizeAll(ss[i..]))
    decreases ss, 0, |ss| - i
  {
    if i < |ss| {
      assert ss[i..][1..] == ss[i + 1..];
      UnfoldedWalks(h, kids[i], ss[i], ChildPath(path, i), depth + 1, nodes, maxNodes);
      UnfoldedChildrenWalk(h, kids, ss, i + 1, path, depth, nodes + Size(ss[i]), maxNodes);
    }
  }

  /** The guard accepts exactly the bounded trees. */
  lemma {:induction false} AcceptsExactlyBoundedTrees(h: Heap, root: Value, maxNodes: nat)
    ensures Walk(h, root, ContentPath(), 0, 0, maxNodes).Passed? <==> exists s :: BoundedTree(h, root, s, maxNodes)
  {
    hide Walk, Unfolds, AllShaped, HeightAtMost, Size;
    if Walk(h, root, ContentPath(), 0, 0, maxNodes).Passed? {
      var s := WalkUnfolds(h, root, ContentPath(), 0, 0, maxNodes);
      assert BoundedTree(h, root, s, maxNodes);
    }
    if s :| BoundedTree(h, root, s, maxNodes) {
      UnfoldedWalks(h, root, s, ContentPath(), 0, 0, maxNodes);
    }
  }

  /** A value has at most one unfolding. */
  lemma {:induction false} UnfoldingUnique(h: Heap, v: Value, s: Shape, t: Shape)
    requires Unfolds(h, v, s) && Unfolds(h, v, t)
    ensures s == t
    decreases s
  {
    forall i | 0 <= i < |s.children| ensures s.children[i] == t.children[i] {
      UnfoldingUnique(h, Children(h, v)[i], s.children[i], t.children[i]);
    }
    assert s.children == t.children;
  }

  /** A value from which some trail of children comes back to where it has been has no finite unfolding,
      so the guard rejects it. */
  lemma {:induction false} CyclicRejected(h: Heap, trail: seq<Value>, again: nat, maxNodes: nat)
    requires again < |trail| - 1 && trail[again] == trail[|trail| - 1]
    requires forall i | 0 <= i < |trail| - 1 :: trail[i + 1] in Children(h, trail[i])
    ensures Walk(h, trail[0], ContentPath(), 0, 0, maxNodes).Failed?
  {
    hide Walk, Unfolds, Children;
    AcceptsExactlyBoundedTrees(h, trail[0], maxNodes);
    if s :| BoundedTree(h, trail[0], s, maxNodes) {
      var down, round := trail[..again + 1], trail[again..];
      forall i | 0 <= i < |round| - 1 ensures round[i + 1] in Children(h, round[i]) {
        assert trail[again + i + 1] in Children(h, trail[again + i]);
      }
      var first := DescendantUnfolds(h, down, s);
      var second := DescendantUnfolds(h, round, first);
      UnfoldingUnique(h, trail[again], first, second);
    }
  }

  lemma {:induction false} DescendantUnfolds(h: Heap, trail: seq<Value>, s: Shape) returns (t: Shape)
    requires |trail| >= 1 && Unfolds(h, trail[0], s)
    requires forall i | 0 <= i < |trail| - 1 :: trail[i + 1] in Children(h, trail[i])
    ensures Unfolds(h, trail[|trail| - 1], t)
    ensures |trail| >= 2 ==> Size(t) < Size(s)
    ensures Size(t) <= Size(s)
    decreases |trail|
  {
    if |trail| == 1 {
      t := s;
    } else {
      assert trail[0 + 1] in Children(h, trail[0]);
      var i :| 0 <= i < |s.children| && Children(h, trail[0])[i] == trail[1];
      SizeOfPart(s.children, i);
      t := DescendantUnfolds(h, trail[1..], s.children[i]);
    }
  }

  lemma {:induction false} SizeOfPart(ss: seq<Shape>, i: nat)
    requires i < |ss|
    ensures Size(ss[i]) <= SizeAll(ss)
  {
    if i > 0 {
      SizeOfPart(ss[1..], i - 1);
    }
  }
}
