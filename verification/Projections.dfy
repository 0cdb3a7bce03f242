/** The text projections of packages/editor/src/projections.ts over canonical documents, and their
    agreement with the validator's reading of the object graph. */
module Projections {
  import opened Options
  import opened DocumentStructure
  import opened DocumentValidation
  import opened EditorProfiles
  import opened JsonHeap
  import opened PlainText

  datatype EditorNode = EditorNode(kind: string, attrs: map<string, Value>, text: Option<string>,
      content: seq<EditorNode>)

  const BLOCK_NODES := [
    "paragraph", "heading", "blockquote", "codeBlock", "listItem", "mediaReference", "attachment", "contentGate",
    "tableCell", "tableHeader", "tableRow", "taskItem", "footnoteDefinition"]

  const GATE := "contentGate"

  function NodeAttr(n: EditorNode, key: string): string {
    if key in n.attrs && n.attrs[key].Text? then n.attrs[key].s else ""
  }

  /** The text of the kinds that do not descend. */
  function LeafText(n: EditorNode): Option<string> {
    if n.kind == "text" then Some(if n.text.Some? then n.text.value else "")
    else if n.kind == "hardBreak" then Some("\n")
    else if n.kind == "mention" then Some("@" + NodeAttr(n, "username"))
    else if n.kind == "mediaReference" then
      Some(if NodeAttr(n, "caption") != "" then NodeAttr(n, "caption") else NodeAttr(n, "alt"))
    else if n.kind == "attachment" then Some(NodeAttr(n, "label"))
    else if n.kind == "footnoteReference" then Some("[" + NodeAttr(n, "noteId") + "]")
    else if n.kind == "tableOfContents" then Some("")
    else None
  }

  function Ending(kind: string): string {
    if kind in BLOCK_NODES then "\n" else ""
  }

  /** The authored projection. */
  function Authored(n: EditorNode): string
    decreases n, 1
  {
    if LeafText(n).Some? then LeafText(n).value else AuthoredOf(n.content, |n.content|) + Ending(n.kind)
  }

  /** The first `n` children, joined. */
  function AuthoredOf(nodes: seq<EditorNode>, n: nat): string
    requires n <= |nodes|
    decreases nodes, 0, n
  {
    if n == 0 then "" else AuthoredOf(nodes, n - 1) + Authored(nodes[n - 1])
  }

  /** The same tree with every content gate emptied. */
  function EmptyGates(n: EditorNode): EditorNode
    decreases n
  {
    if n.kind == GATE then n.(content := [])
    else n.(content := seq(|n.content|, i requires 0 <= i < |n.content| => EmptyGates(n.content[i])))
  }

  /** The projection meets a gate: none lies hidden below a kind that does not descend. */
  predicate ReachesGate(n: EditorNode)
    decreases n
  {
    n.kind == GATE || (LeafText(n).None? && exists i | 0 <= i < |n.content| :: ReachesGate(n.content[i]))
  }

  lemma {:induction false} GateIsBlock(n: EditorNode)
    requires n.kind == GATE
    ensures LeafText(n).None? && Ending(n.kind) == "\n"
  {
  }

  lemma {:induction false} EmptiedGate(n: EditorNode)
    requires n.kind == GATE
    ensures Authored(EmptyGates(n)) == "\n"
  {
    GateIsBlock(EmptyGates(n));
    assert EmptyGates(n).content == [];
    assert AuthoredOf([], 0) == "";
  }

  /** A leaf's text depends on its kind, attributes and text alone. */
  lemma {:induction false} LeafOf(a: EditorNode, b: EditorNode)
    requires a.kind == b.kind && a.attrs == b.attrs && a.text == b.text
    ensures LeafText(a) == LeafText(b)
  {
  }

  lemma {:induction false} EmptiedLeaf(n: EditorNode)
    requires LeafText(n).Some?
    ensures Authored(EmptyGates(n)) == LeafText(n).value
  {
    assert EmptyGates(n).kind == n.kind && EmptyGates(n).attrs == n.attrs && EmptyGates(n).text == n.text;
    assert LeafText(EmptyGates(n)) == LeafText(n);
  }

  class PublicProjection {
    var hasContentGates: bool

    constructor ()
      ensures !hasContentGates
    {
      hasContentGates := false;
    }
  }

  /** The recursive projection.  Without a projection object it is the authored text.  With one it is
      the authored text of the tree whose gates are emptied, and the flag is raised exactly when a
      gate is met. */
  method ProjectNode(node: EditorNode, public: PublicProjection?) returns (text: string)
    modifies public
    ensures public == null ==> text == Authored(node)
    ensures public != null ==> text == Authored(EmptyGates(node))
    ensures public != null ==> public.hasContentGates == (old(public.hasContentGates) || ReachesGate(node))
    decreases node
  {
    hide LeafText, Ending;
    if node.kind == GATE && public != null {
      public.hasContentGates := true;
      EmptiedGate(node);
      return "\n";
    }
    var leaf := LeafText(node);
    if leaf.Some? {
      EmptiedLeaf(node);
      if node.kind == GATE {
        GateIsBlock(node);
      }
      return leaf.value;
    }
    var content := "";
    ghost var emptied := EmptyGates(node).content;
    for i := 0 to |node.content|
      invariant public == null ==> content == AuthoredOf(node.content, i)
      invariant public != null ==> content == AuthoredOf(emptied, i)
      invariant public != null ==>
        public.hasContentGates == (old(public.hasContentGates) || exists k | 0 <= k < i :: ReachesGate(node.content[k]))
    {
      var child := ProjectNode(node.content[i], public);
      content := content + child;
    }
    LeafOf(node, EmptyGates(node));
    text := content + Ending(node.kind);
  }

  /** The platform's NFKC and lower-casing, before whitespace is collapsed. */
  function NormalizeSearchText(fold: string -> string, text: string): string {
    Collapse(fold(text))
  }

  function SearchText(fold: string -> string, document: EditorNode): string {
    NormalizeSearchText(fold, CleanPlainText(Authored(document)))
  }

  method ProjectEditorSearchText(fold: string -> string, document: EditorNode) returns (text: string)
    ensures text == SearchText(fold, document)
    ensures !ReachesGate(document) ==> text == SearchText(fold, EmptyGates(document))
  {
    if !ReachesGate(document) {
      UngatedIsAuthored(document);
    }
    var projected := ProjectNode(document, null);
    text := NormalizeSearchText(fold, CleanPlainText(projected));
  }

  method ProjectEditorPublicSearch(fold: string -> string, document: EditorNode)
      returns (text: string, hasContentGates: bool)
    ensures text == SearchText(fold, EmptyGates(document))
    ensures hasContentGates == ReachesGate(document)
    ensures !hasContentGates ==> text == SearchText(fold, document)
  {
    if !ReachesGate(document) {
      UngatedIsAuthored(document);
    }
    var public := new PublicProjection();
    var projected := ProjectNode(document, public);
    text, hasContentGates := NormalizeSearchText(fold, CleanPlainText(projected)), public.hasContentGates;
  }

  // ------------------------------------------------------------------ what the public text depends on

  /** Equal except inside content gates. */
  ghost predicate SameOutsideGates(a: EditorNode, b: EditorNode)
    decreases a
  {
    && a.kind == b.kind
    && (a.kind != GATE ==>
          && a.attrs == b.attrs && a.text == b.text && |a.content| == |b.content|
          && forall i | 0 <= i < |a.content| :: SameOutsideGates(a.content[i], b.content[i]))
  }

  /** The public projection does not depend on what gates contain. */
  lemma {:induction false} GatePayloadsInvisible(a: EditorNode, b: EditorNode)
    requires SameOutsideGates(a, b)
    ensures Authored(EmptyGates(a)) == Authored(EmptyGates(b))
    ensures ReachesGate(a) == ReachesGate(b)
    decreases a
  {
    hide LeafText, Ending;
    if a.kind == GATE {
      EmptiedGate(a);
      EmptiedGate(b);
    } else {
      forall i | 0 <= i < |a.content|
        ensures Authored(EmptyGates(a.content[i])) == Authored(EmptyGates(b.content[i]))
        ensures ReachesGate(a.content[i]) == ReachesGate(b.content[i])
      {
        GatePayloadsInvisible(a.content[i], b.content[i]);
      }
      SameText(EmptyGates(a).content, EmptyGates(b).content, |a.content|);
      LeafOf(a, b);
      LeafOf(a, EmptyGates(a));
      LeafOf(b, EmptyGates(b));
    }
  }

  lemma {:induction false} SameText(a: seq<EditorNode>, b: seq<EditorNode>, n: nat)
    requires n <= |a| == |b| && forall i | 0 <= i < |a| :: Authored(a[i]) == Authored(b[i])
    ensures AuthoredOf(a, n) == AuthoredOf(b, n)
  {
    if n > 0 {
      SameText(a, b, n - 1);
    }
  }

  /** Where no gate is met the public text is the authored text. */
  lemma {:induction false} UngatedIsAuthored(n: EditorNode)
    requires !ReachesGate(n)
    ensures Authored(EmptyGates(n)) == Authored(n)
    decreases n
  {
    if LeafText(n).Some? {
      EmptiedLeaf(n);
    } else {
      forall i | 0 <= i < |n.content| ensures Authored(EmptyGates(n.content[i])) == Authored(n.content[i]) {
        UngatedIsAuthored(n.content[i]);
      }
      SameText(EmptyGates(n).content, n.content, |n.content|);
      assert LeafText(EmptyGates(n)) == LeafText(n);
    }
  }

  // ------------------------------------------------------------------ from the validated graph

  /** The canonical document a value with a finite unfolding stands for. */
  ghost function Read(h: Heap, v: Value, s: Shape): EditorNode
    requires Unfolds(h, v, s)
    decreases s
  {
    EditorNode(
      if KindOf(h, v).Some? then KindOf(h, v).value else "",
      if IsRecord(h, v) && IsRecord(h, Get(h, v, "attrs")) then h[Get(h, v, "attrs").id].fields else map[],
      if IsRecord(h, v) && Get(h, v, "text").Text? then Some(Get(h, v, "text").s) else None,
      seq(|s.children|, i requires 0 <= i < |s.children| => Read(h, Children(h, v)[i], s.children[i])))
  }

  /** A gate the projection meets is a node the validator visited. */
  lemma {:induction false} MetGateOccurs(h: Heap, v: Value, s: Shape, path: Path, parent: Option<string>)
    requires Unfolds(h, v, s) && ReachesGate(Read(h, v, s))
    ensures exists o :: o in Occurrences(h, v, s, path, parent) && KindOf(h, o.node) == Some(GATE)
    decreases s
  {
    var n := Read(h, v, s);
    if n.kind == GATE {
      assert Occurrences(h, v, s, path, parent)[0] == Occurrence(v, path, parent);
    } else {
      var i :| 0 <= i < |n.content| && ReachesGate(n.content[i]);
      var kid, shape := Children(h, v)[i], s.children[i];
      MetGateOccurs(h, kid, shape, ChildPath(path, i), KindOf(h, v));
      var o :| o in Occurrences(h, kid, shape, ChildPath(path, i), KindOf(h, v)) && KindOf(h, o.node) == Some(GATE);
      ChildOccurs(h, Children(h, v), s.children, |s.children|, i, path, KindOf(h, v), o);
    }
  }

  lemma {:induction false} ChildOccurs(h: Heap, kids: seq<Value>, ss: seq<Shape>, n: nat, i: nat, path: Path,
      parent: Option<string>, o: Occurrence)
    requires AllUnfold(h, kids, ss) && i < n <= |ss|
    requires o in Occurrences(h, kids[i], ss[i], ChildPath(path, i), parent)
    ensures o in OccurrencesIn(h, kids, ss, n, path, parent)
    decreases n
  {
    if i < n - 1 {
      ChildOccurs(h, kids, ss, n - 1, i, path, parent, o);
    }
  }

  /** A validated document of a profile without gates has the same public and authored search text,
      and its flag stays down. */
  lemma {:induction false} GatelessProfilesSearchInFull(platform: Platform, h: Heap, profile: Profile,
      content: Value, s: Shape, fold: string -> string)
    requires profile in [Comment, Message, ForumReply] && BodyOk(platform, h, DefinitionOf(profile), content, s)
    ensures !ReachesGate(Read(h, content, s))
    ensures SearchText(fold, EmptyGates(Read(h, content, s))) == SearchText(fold, Read(h, content, s))
  {
    if ReachesGate(Read(h, content, s)) {
      MetGateOccurs(h, content, s, ContentPath(), None);
      var o :| o in Occurrences(h, content, s, ContentPath(), None) && KindOf(h, o.node) == Some(GATE);
      assert NodeOk(platform, h, DefinitionOf(profile), o);
      NoGateAllowed(profile);
      assert false;
    }
    UngatedIsAuthored(Read(h, content, s));
  }

  lemma {:induction false} NoGateAllowed(profile: Profile)
    requires profile in [Comment, Message, ForumReply]
    ensures GATE !in DefinitionOf(profile).allowedNodes
  {
    forall k | k in INLINE_NODES + BASIC_BLOCKS + MEDIA_NODES ensures |k| != 11 || k[0] != 'c' {
    }
  }

  /** Whatever the platform's folding gives, the search text has its words, one plain space between them and
      no white space at either end. */
  lemma {:induction false} SearchTextIsWords(fold: string -> string, document: EditorNode)
    ensures var text := SearchText(fold, document);
      && Spaced(text) && (text != "" ==> !IsSpace(text[0]) && !IsSpace(text[|text| - 1]))
      && Visible(text) == Visible(fold(CleanPlainText(Authored(document))))
      && text == Words(fold(CleanPlainText(Authored(document))), Before)
  {
    var folded := fold(CleanPlainText(Authored(document)));
    CollapseIsWords(folded);
    VisibleOfWords(folded, Before);
    CollapseIsSpaced(folded);
  }
}
