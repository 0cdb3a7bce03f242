/** Which text a projection shows, read off the object graph: the texts of the nodes it meets, in document
    order, and a line end after every block. */
module ProjectedText {
  import opened Options
  import opened JsonHeap
  import opened DocumentStructure
  import opened DocumentValidation
  import opened PlainText
  import opened Preorder
  import opened Projections

  /** The kinds below which nothing is read. */
  predicate Closed(kind: Option<string>) {
    kind.Some? && kind.value in ["text", "hardBreak", "mention", "mediaReference", "attachment", "footnoteReference",
                                 "tableOfContents"]
  }

  predicate Gate(kind: Option<string>) { kind == Some("contentGate") }

  /** Where a projection does not read on: below a closed kind, and for the public one inside a content gate. */
  function Stopping(h: Heap, public: bool): Value -> bool {
    (v: Value) => Closed(KindOf(h, v)) || (public && Gate(KindOf(h, v)))
  }

  /** The nodes a projection meets, in document order. */
  ghost function Met(h: Heap, v: Value, s: Shape, path: Path, parent: Option<string>, public: bool): seq<Occurrence>
    requires Unfolds(h, v, s)
  {
    Pruned(h, Stopping(h, public), v, s, path, parent)
  }

  ghost function MetIn(h: Heap, kids: seq<Value>, ss: seq<Shape>, n: nat, path: Path, parent: Option<string>,
      public: bool): seq<Occurrence>
    requires AllUnfold(h, kids, ss) && n <= |ss|
  {
    PrunedIn(h, Stopping(h, public), kids, ss, n, path, parent)
  }

  lemma {:induction false} MetStep(h: Heap, v: Value, s: Shape, path: Path, parent: Option<string>, public: bool)
    requires Unfolds(h, v, s)
    ensures Met(h, v, s, path, parent, public) ==
      [Occurrence(v, path, parent)]
      + if Closed(KindOf(h, v)) || (public && Gate(KindOf(h, v))) then []
        else MetIn(h, Children(h, v), s.children, |s.children|, path, KindOf(h, v), public)
  {
  }

  /** Where closed kinds have no children, the authored projection meets every node there is. */
  lemma {:induction false} MeetsAll(h: Heap, v: Value, s: Shape, path: Path, parent: Option<string>)
    requires Unfolds(h, v, s)
    requires forall o | o in Occurrences(h, v, s, path, parent) :: Closed(KindOf(h, o.node)) ==>
        Children(h, o.node) == []
    ensures Met(h, v, s, path, parent, false) == Occurrences(h, v, s, path, parent)
    decreases s, 1, 0
  {
    MetStep(h, v, s, path, parent, false);
    var os := OccurrencesIn(h, Children(h, v), s.children, |s.children|, path, KindOf(h, v));
    assert Occurrence(v, path, parent) in Occurrences(h, v, s, path, parent);
    assert forall o | o in os :: o in Occurrences(h, v, s, path, parent);
    hide Closed, Met, MetIn;
    MeetsAllIn(h, Children(h, v), s.children, |s.children|, path, KindOf(h, v));
  }

  lemma {:induction false} MeetsAllIn(h: Heap, kids: seq<Value>, ss: seq<Shape>, n: nat, path: Path,
      parent: Option<string>)
    requires AllUnfold(h, kids, ss) && n <= |ss|
    requires forall o | o in OccurrencesIn(h, kids, ss, n, path, parent) ::
               Closed(KindOf(h, o.node)) ==> Children(h, o.node) == []
    ensures MetIn(h, kids, ss, n, path, parent, false) == OccurrencesIn(h, kids, ss, n, path, parent)
    decreases ss, 0, n
  {
    MetInStep(h, kids, ss, n, path, parent, false);
    hide Closed, Children, Met, MetIn;
    if n > 0 {
      MeetsAllIn(h, kids, ss, n - 1, path, parent);
      MeetsAll(h, kids[n - 1], ss[n - 1], ChildPath(path, n - 1), parent);
    }
  }

  /** What one node shows of itself. */
  function Piece(h: Heap, v: Value): string {
    match KindOf(h, v)
    case None => ""
    case Some(kind) =>
      if kind == "text" then
        if IsRecord(h, v) && Get(h, v, "text").Text? then Get(h, v, "text").s else ""
      else if kind == "hardBreak" then "\n"
      else if kind == "mention" then "@" + StringAttr(h, v, "username")
      else if kind == "mediaReference" then
        if StringAttr(h, v, "caption") == "" then StringAttr(h, v, "alt") else StringAttr(h, v, "caption")
      else if kind == "attachment" then StringAttr(h, v, "label")
      else if kind == "footnoteReference" then "[" + StringAttr(h, v, "noteId") + "]"
      else ""
  }

  function Pieces(h: Heap): Occurrence -> seq<char> { (o: Occurrence) => Piece(h, o.node) }

  lemma {:induction false} LeafRead(h: Heap, v: Value, s: Shape)
    requires Unfolds(h, v, s)
    ensures Closed(KindOf(h, v)) ==> LeafText(Read(h, v, s)) == Some(Piece(h, v))
    ensures !Closed(KindOf(h, v)) ==> LeafText(Read(h, v, s)) == None && Piece(h, v) == ""
  {
    AttrRead(h, v, s, "username");
    AttrRead(h, v, s, "caption");
    AttrRead(h, v, s, "alt");
    AttrRead(h, v, s, "label");
    AttrRead(h, v, s, "noteId");
    FieldsRead(h, v, s);
    hide NodeAttr, StringAttr, Read, Unfolds;
  }

  lemma {:induction false} AttrRead(h: Heap, v: Value, s: Shape, key: string)
    requires Unfolds(h, v, s)
    ensures NodeAttr(Read(h, v, s), key) == StringAttr(h, v, key)
  {
  }

  lemma {:induction false} FieldsRead(h: Heap, v: Value, s: Shape)
    requires Unfolds(h, v, s)
    ensures Read(h, v, s).kind == if KindOf(h, v).Some? then KindOf(h, v).value else ""
    ensures Read(h, v, s).text == if IsRecord(h, v) && Get(h, v, "text").Text? then Some(Get(h, v, "text").s) else None
    ensures |Read(h, v, s).content| == |s.children|
    ensures forall i | 0 <= i < |s.children| :: Read(h, v, s).content[i] == Read(h, Children(h, v)[i], s.children[i])
  {
  }

  lemma {:induction false} VisibleJoin(a: string, b: string)
    ensures Visible(a + b) == Visible(a) + Visible(b)
  {
    if a == "" {
      assert a + b == b;
    } else {
      assert (a + b)[1..] == a[1..] + b;
      VisibleJoin(a[1..], b);
    }
  }

  lemma {:induction false} EndingInvisible(kind: string)
    ensures Visible(Ending(kind)) == []
  {
    assert "\n"[1..] == "";
  }

  /** The tree a projection works on. */
  function Presented(n: EditorNode, public: bool): EditorNode {
    if public then EmptyGates(n) else n
  }

  lemma {:induction false} PresentedParts(n: EditorNode, public: bool)
    ensures var p := Presented(n, public);
      p.kind == n.kind && p.attrs == n.attrs && p.text == n.text && LeafText(p) == LeafText(n)
    ensures public && n.kind == "contentGate" ==> Presented(n, public).content == []
    ensures !(public && n.kind == "contentGate") ==>
              && |Presented(n, public).content| == |n.content|
              && forall i | 0 <= i < |n.content| :: Presented(n, public).content[i] == Presented(n.content[i], public)
  {
    LeafOf(n, Presented(n, public));
    hide LeafText;
  }

  /** The visible characters of a projection are those of the nodes it meets, in document order. */
  lemma {:induction false} VisibleInOrder(h: Heap, v: Value, s: Shape, path: Path, parent: Option<string>, public: bool)
    requires Unfolds(h, v, s)
    ensures Visible(Authored(Presented(Read(h, v, s), public)))
         == Visible(Collect(Pieces(h), Met(h, v, s, path, parent, public)))
    decreases s, 1, 0
  {
    var n := Read(h, v, s);
    var p := Presented(n, public);
    var here := Occurrence(v, path, parent);
    LeafRead(h, v, s);
    MetStep(h, v, s, path, parent, public);
    ContentRead(h, v, s, public);
    KidsUnfold(h, v, s);
    AuthoredIs(p);
    VisibleAlone(h, here);
    EndingInvisible(p.kind);
    hide Met, Read, Presented, LeafText, Pieces, Piece, KindOf, Ending, Unfolds, Visible, Children, AuthoredOf, MetIn;
    hide Authored, Collect, Closed, Gate;
    if !Closed(KindOf(h, v)) && !(public && Gate(KindOf(h, v))) {
      var below := MetIn(h, Children(h, v), s.children, |s.children|, path, KindOf(h, v), public);
      VisibleBelow(h, Children(h, v), s.children, p.content, |s.children|, path, KindOf(h, v), public);
      VisibleUnder(h, AuthoredOf(p.content, |p.content|), Ending(p.kind), here, below);
    }
  }

  lemma {:induction false} ContentRead(h: Heap, v: Value, s: Shape, public: bool)
    requires Unfolds(h, v, s)
    ensures var n, p := Read(h, v, s), Presented(Read(h, v, s), public);
      && LeafText(p) == LeafText(n)
      && (public && Gate(KindOf(h, v)) ==> p.content == [])
      && (!(public && Gate(KindOf(h, v))) ==>
            && |p.content| == |s.children|
            && forall i | 0 <= i < |s.children| :: p.content[i]
                == Presented(Read(h, Children(h, v)[i], s.children[i]), public))
  {
    FieldsRead(h, v, s);
    PresentedParts(Read(h, v, s), public);
    GateRead(h, v, s);
    hide Read, Presented, LeafText, KindOf, Gate, Children;
  }

  lemma {:induction false} GateRead(h: Heap, v: Value, s: Shape)
    requires Unfolds(h, v, s)
    ensures Gate(KindOf(h, v)) <==> Read(h, v, s).kind == "contentGate"
  {
    FieldsRead(h, v, s);
    hide Read, KindOf;
  }

  lemma {:induction false} AuthoredIs(n: EditorNode)
    ensures Authored(n) == if LeafText(n).Some? then LeafText(n).value
                           else AuthoredOf(n.content, |n.content|) + Ending(n.kind)
    ensures n.content == [] ==> AuthoredOf(n.content, |n.content|) + Ending(n.kind) == Ending(n.kind)
  {
    NothingAuthored(n.content);
    hide LeafText, Ending;
  }

  /** A node with nothing below it. */
  lemma {:induction false} VisibleAlone(h: Heap, here: Occurrence)
    ensures Collect(Pieces(h), [here]) == Pieces(h)(here) == Piece(h, here.node)
    ensures [here] + [] == [here]
    ensures Visible("") == []
  {
    CollectOne(Pieces(h), here);
    hide Piece;
  }

  lemma {:induction false} VisibleUnder(h: Heap, inner: string, end: string, here: Occurrence, below: seq<Occurrence>)
    requires Visible(inner) == Visible(Collect(Pieces(h), below)) && Visible(end) == [] && Pieces(h)(here) == ""
    ensures Visible(inner + end) == Visible(Collect(Pieces(h), [here] + below))
  {
    hide Pieces;
    CollectJoin(Pieces(h), [here], below);
    CollectOne(Pieces(h), here);
    assert "" + Collect(Pieces(h), below) == Collect(Pieces(h), below);
    VisibleJoin(inner, end);
  }

  lemma {:induction false} NothingAuthored(nodes: seq<EditorNode>)
    ensures AuthoredOf(nodes, 0) == ""
  {
  }

  lemma {:induction false} KidsUnfold(h: Heap, v: Value, s: Shape)
    requires Unfolds(h, v, s)
    ensures AllUnfold(h, Children(h, v), s.children)
  {
  }

  lemma {:induction false} MetInStep(h: Heap, kids: seq<Value>, ss: seq<Shape>, n: nat, path: Path,
      parent: Option<string>, public: bool)
    requires AllUnfold(h, kids, ss) && n <= |ss|
    ensures MetIn(h, kids, ss, n, path, parent, public) ==
      if n == 0 then []
      else
        MetIn(h, kids, ss, n - 1, path, parent, public)
        + Met(h, kids[n - 1], ss[n - 1], ChildPath(path, n - 1), parent, public)
  {
  }

  lemma {:induction false} VisibleBelow(h: Heap, kids: seq<Value>, ss: seq<Shape>, nodes: seq<EditorNode>, n: nat,
      path: Path, parent: Option<string>, public: bool)
    requires AllUnfold(h, kids, ss) && n <= |ss| == |nodes|
    requires forall i | 0 <= i < |ss| :: nodes[i] == Presented(Read(h, kids[i], ss[i]), public)
    ensures Visible(AuthoredOf(nodes, n)) == Visible(Collect(Pieces(h), MetIn(h, kids, ss, n, path, parent, public)))
    decreases ss, 0, n
  {
    hide Authored, Met, Presented, Read, Pieces, Visible, Unfolds;
    if n == 0 {
      NothingAuthored(nodes);
    } else {
      var before := MetIn(h, kids, ss, n - 1, path, parent, public);
      var last := Met(h, kids[n - 1], ss[n - 1], ChildPath(path, n - 1), parent, public);
      VisibleBelow(h, kids, ss, nodes, n - 1, path, parent, public);
      VisibleInOrder(h, kids[n - 1], ss[n - 1], ChildPath(path, n - 1), parent, public);
      VisibleSum(h, AuthoredOf(nodes, n - 1), Authored(nodes[n - 1]), before, last);
      hide Collect;
      MetInStep(h, kids, ss, n, path, parent, public);
    }
  }

  lemma {:induction false} VisibleSum(h: Heap, a: string, b: string, before: seq<Occurrence>, last: seq<Occurrence>)
    requires Visible(a) == Visible(Collect(Pieces(h), before)) && Visible(b) == Visible(Collect(Pieces(h), last))
    ensures Visible(a + b) == Visible(Collect(Pieces(h), before + last))
  {
    hide Visible, Collect, Pieces;
    CollectJoin(Pieces(h), before, last);
    VisibleJoin(a, b);
    VisibleJoin(Collect(Pieces(h), before), Collect(Pieces(h), last));
  }

  /** The flag is raised exactly when a gate is met. */
  lemma {:induction false} FlagExactly(h: Heap, v: Value, s: Shape, path: Path, parent: Option<string>)
    requires Unfolds(h, v, s)
    ensures ReachesGate(Read(h, v, s)) <==> GateAmong(h, Met(h, v, s, path, parent, true))
    decreases s, 1, 0
  {
    var here := Occurrence(v, path, parent);
    LeafRead(h, v, s);
    FieldsRead(h, v, s);
    KidsUnfold(h, v, s);
    MetStep(h, v, s, path, parent, true);
    assert GateAmong(h, [here]) <==> Gate(KindOf(h, v)) by { assert here in [here]; }
    assert Gate(KindOf(h, v)) <==> Read(h, v, s).kind == GATE;
    hide Met, Read, LeafText, Piece, KindOf, Closed, GateAmong, Gate, Unfolds, Children, MetIn;
    GateAmongJoin(h, [here], MetIn(h, Children(h, v), s.children, |s.children|, path, KindOf(h, v), true));
    if !Closed(KindOf(h, v)) && !Gate(KindOf(h, v)) {
      FlagBelow(h, Children(h, v), s.children, Read(h, v, s).content, |s.children|, path, KindOf(h, v));
    }
  }

  ghost predicate GateAmong(h: Heap, os: seq<Occurrence>) {
    exists o :: o in os && Gate(KindOf(h, o.node))
  }

  lemma {:induction false} GateAmongJoin(h: Heap, a: seq<Occurrence>, b: seq<Occurrence>)
    ensures GateAmong(h, a + b) <==> GateAmong(h, a) || GateAmong(h, b)
    ensures !GateAmong(h, [])
  {
    hide Gate, KindOf;
    assert forall o :: o in a + b <==> o in a || o in b;
  }

  ghost predicate OneReaches(nodes: seq<EditorNode>, n: nat)
    requires n <= |nodes|
  {
    exists i :: 0 <= i < n && ReachesGate(nodes[i])
  }

  lemma {:induction false} FlagBelow(h: Heap, kids: seq<Value>, ss: seq<Shape>, nodes: seq<EditorNode>, n: nat,
      path: Path, parent: Option<string>)
    requires AllUnfold(h, kids, ss) && n <= |ss| == |nodes|
    requires forall i | 0 <= i < |ss| :: nodes[i] == Read(h, kids[i], ss[i])
    ensures OneReaches(nodes, n) <==> GateAmong(h, MetIn(h, kids, ss, n, path, parent, true))
    decreases ss, 0, n
  {
    hide Met, Read, ReachesGate, GateAmong, Unfolds;
    if n == 0 {
      GateAmongJoin(h, [], []);
    } else {
      var before := MetIn(h, kids, ss, n - 1, path, parent, true);
      var last := Met(h, kids[n - 1], ss[n - 1], ChildPath(path, n - 1), parent, true);
      FlagBelow(h, kids, ss, nodes, n - 1, path, parent);
      FlagExactly(h, kids[n - 1], ss[n - 1], ChildPath(path, n - 1), parent);
      GateAmongJoin(h, before, last);
      OneMoreReaches(nodes, n);
      hide OneReaches;
      MetInStep(h, kids, ss, n, path, parent, true);
    }
  }

  lemma {:induction false} OneMoreReaches(nodes: seq<EditorNode>, n: nat)
    requires 0 < n <= |nodes|
    ensures OneReaches(nodes, n) <==> OneReaches(nodes, n - 1) || ReachesGate(nodes[n - 1])
  {
    hide ReachesGate;
  }

  /** The texts of a list, in its order. */
  function Joined(texts: seq<string>): string {
    if texts == [] then "" else texts[0] + Joined(texts[1..])
  }

  lemma {:induction false} JoinedMore(texts: seq<string>, last: string)
    ensures Joined(texts + [last]) == Joined(texts) + last
  {
    if texts == [] {
      assert [last][1..] == [] && texts + [last] == [last];
    } else {
      assert (texts + [last])[1..] == texts[1..] + [last];
      JoinedMore(texts[1..], last);
    }
  }

  lemma {:induction false} AuthoredJoins(nodes: seq<EditorNode>, n: nat)
    requires n <= |nodes|
    ensures AuthoredOf(nodes, n) == Joined(seq(n, i requires 0 <= i < n => Authored(nodes[i])))
  {
    if n > 0 {
      AuthoredJoins(nodes, n - 1);
      var texts := seq(n - 1, i requires 0 <= i < n - 1 => Authored(nodes[i]));
      JoinedMore(texts, Authored(nodes[n - 1]));
      assert seq(n, i requires 0 <= i < n => Authored(nodes[i])) == texts + [Authored(nodes[n - 1])];
    }
  }

  /** What the children show, from the first to the last. */
  ghost function Texts(h: Heap, v: Value, s: Shape): seq<string>
    requires Unfolds(h, v, s)
  {
    seq(|s.children|, i requires 0 <= i < |s.children| => Authored(Read(h, Children(h, v)[i], s.children[i])))
  }

  predicate EndsLine(kind: string) {
    kind in ["paragraph", "heading", "blockquote", "codeBlock", "listItem", "contentGate", "tableCell", "tableHeader",
             "tableRow", "taskItem", "footnoteDefinition"]
  }

  /** Exactly what a node adds: a closed kind its own text, any other the texts of its children and a line end
      after eleven kinds of block. */
  lemma {:induction false} AuthoredParts(h: Heap, v: Value, s: Shape)
    requires Unfolds(h, v, s) && KindOf(h, v).Some?
    ensures Closed(KindOf(h, v)) ==> Authored(Read(h, v, s)) == Piece(h, v)
    ensures !Closed(KindOf(h, v)) ==>
              Authored(Read(h, v, s)) == Joined(Texts(h, v, s)) + if EndsLine(KindOf(h, v).value) then "\n" else ""
  {
    var n := Read(h, v, s);
    LeafRead(h, v, s);
    FieldsRead(h, v, s);
    if !Closed(KindOf(h, v)) {
      BlockKinds(n.kind);
      AuthoredJoins(n.content, |n.content|);
      TextsRead(h, v, s);
    }
    hide Read, Piece, LeafText, Ending, EndsLine, Closed, Unfolds, Joined, AuthoredOf, Children, Texts, KindOf;
  }

  lemma {:induction false} TextsRead(h: Heap, v: Value, s: Shape)
    requires Unfolds(h, v, s)
    ensures var nodes := Read(h, v, s).content;
      seq(|nodes|, i requires 0 <= i < |nodes| => Authored(nodes[i])) == Texts(h, v, s)
  {
    FieldsRead(h, v, s);
    hide Read, Unfolds, Children, Authored;
  }

  lemma {:induction false} BlockKinds(kind: string)
    requires !Closed(Some(kind))
    ensures Ending(kind) == if EndsLine(kind) then "\n" else ""
  {
  }
}
