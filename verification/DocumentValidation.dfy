/** The recursive semantic checks of packages/editor/src/validation.ts and the whole validator.

    `validateNode`, the footnote visit and the node budget all read one preorder list of node
    occurrences; the theorems at the end state acceptance as a predicate over that list. */
module DocumentValidation {
  import opened Options
  import opened Utf16
  import opened JsonHeap
  import opened DocumentStructure
  import opened EditorProfiles

  /** The URL parser of the platform: the protocol of a reference, none when parsing throws. */
  datatype Platform = Platform(protocol: string -> Option<string>)

  const CODE_LANGUAGES := [
    "plaintext", "bash", "css", "graphql", "html", "javascript", "json", "jsx", "markdown", "prisma",
    "python", "sql", "tsx", "typescript", "yaml"]

  // ------------------------------------------------------------------ rules on one node

  predicate IsDigit(c: char) { '0' <= c <= '9' }
  predicate IsLetter(c: char) { 'a' <= c <= 'z' || 'A' <= c <= 'Z' }
  predicate IsHex(c: char) { IsDigit(c) || 'a' <= c <= 'f' || 'A' <= c <= 'F' }

  predicate IsUuid(s: string) {
    && |s| == 36
    && (forall i | 0 <= i < 36 :: if i in {8, 13, 18, 23} then s[i] == '-' else IsHex(s[i]))
    && '1' <= s[14] <= '8'
    && s[19] in {'8', '9', 'a', 'b', 'A', 'B'}
  }

  predicate IsFootnoteId(s: string) {
    && 1 <= |s| <= 64
    && (IsLetter(s[0]) || IsDigit(s[0]))
    && forall i | 1 <= i < |s| :: IsLetter(s[i]) || IsDigit(s[i]) || s[i] == '_' || s[i] == '-'
  }

  predicate IsSafeHref(platform: Platform, href: string) {
    match platform.protocol(href)
    case None => false
    case Some(p) => (href != [] && href[0] == '/') || p in ["https:", "http:", "mailto:"]
  }

  predicate TextWithin(s: string, min: nat, max: nat) { min <= |CodeUnits(s)| <= max }

  predicate OptionalTextWithin(v: Value, max: nat) {
    v == Undefined || (v.Text? && |CodeUnits(v.s)| <= max)
  }

  /** Codes the guard has already ruled out when the semantic checks start. */
  predicate IsShapeCode(c: Code) {
    c.DepthLimit? || c.NodeLimit? || c.NodeType? || c.AttributesType? || c.MarksType? || c.MarkAttributesType?
        || c.ContentType?
  }

  function Unless(ok: bool, path: Path, code: Code): (r: seq<Problem>)
    ensures forall p | p in r :: p == Problem(path, code)
  {
    if ok then [] else [Problem(path, code)]
  }

  function AttrPath(path: Path, key: string): Path { path + [Field("attrs"), Field(key)] }

  predicate AlignmentOk(h: Heap, v: Value) {
    Attr(h, v, "textAlign") in [Undefined, Text("left"), Text("center")]
  }

  predicate LevelOk(h: Heap, v: Value, levels: seq<int>) {
    var level := Attr(h, v, "level");
    level.Number? && level.n.Floor as real == level.n && level.n.Floor in levels
  }

  function InlineProblems(h: Heap, v: Value, kind: string, path: Path, levels: seq<int>): (r: seq<Problem>)
    ensures forall p | p in r :: !IsShapeCode(p.code)
  {
    Unless(kind in ["paragraph", "heading"] ==> AlignmentOk(h, v), AttrPath(path, "textAlign"), TextAlignment)
    + Unless(kind == "heading" ==> LevelOk(h, v, levels), AttrPath(path, "level"), HeadingLevel)
    + Unless(kind == "codeBlock" ==> StringAttr(h, v, "language") in CODE_LANGUAGES, AttrPath(path, "language"),
        CodeLanguage)
    + Unless(kind == "mention" ==> IsUuid(StringAttr(h, v, "userId")), AttrPath(path, "userId"), UuidRequired)
    + Unless(kind == "mention" ==> TextWithin(StringAttr(h, v, "username"), 1, 32), AttrPath(path, "username"),
        StringLength)
  }

  function MediaProblems(h: Heap, v: Value, kind: string, path: Path): (r: seq<Problem>)
    ensures forall p | p in r :: !IsShapeCode(p.code)
  {
    Unless(kind in ["mediaReference", "attachment"] ==> IsUuid(StringAttr(h, v, "mediaId")),
      AttrPath(path, "mediaId"), UuidRequired)
    + Unless(kind == "mediaReference" ==> OptionalTextWithin(Attr(h, v, "alt"), 500), AttrPath(path, "alt"),
        StringLength)
    + Unless(kind == "mediaReference" ==> OptionalTextWithin(Attr(h, v, "caption"), 1000), AttrPath(path, "caption"),
        StringLength)
    + Unless(kind == "attachment" ==> TextWithin(StringAttr(h, v, "label"), 1, 255), AttrPath(path, "label"),
        StringLength)
  }

  function GradeProblems(h: Heap, v: Value, kind: string, path: Path): (r: seq<Problem>)
    ensures forall p | p in r :: !IsShapeCode(p.code)
  {
    Unless(kind == "contentGate" ==> IsUuid(StringAttr(h, v, "gateId")), AttrPath(path, "gateId"), UuidRequired)
    + Unless(kind == "taskItem" ==> Attr(h, v, "checked").Bool?, AttrPath(path, "checked"), TaskChecked)
    + Unless(kind in ["footnoteReference", "footnoteDefinition"] ==> IsFootnoteId(StringAttr(h, v, "noteId")),
             AttrPath(path, "noteId"), FootnoteId)
  }

  /** What `validateNodeAttributes` reports, in its order. */
  function AttributeProblems(h: Heap, v: Value, kind: string, path: Path, levels: seq<int>): (r: seq<Problem>)
    ensures forall p | p in r :: !IsShapeCode(p.code)
  {
    InlineProblems(h, v, kind, path, levels) + MediaProblems(h, v, kind, path) + GradeProblems(h, v, kind, path)
  }

  /** The parents a document-grade node may have; no entry means any parent. */
  function AllowedParents(kind: string): Option<seq<string>> {
    if kind in ["table", "taskList"] then Some(["doc", "contentGate", "listItem", "taskItem", "footnoteDefinition"])
    else if kind == "tableRow" then Some(["table"])
    else if kind in ["tableHeader", "tableCell"] then Some(["tableRow"])
    else if kind == "taskItem" then Some(["taskList"])
    else if kind == "footnoteReference" then Some(["paragraph", "heading"])
    else if kind in ["footnoteDefinition", "tableOfContents"] then Some(["doc", "contentGate"])
    else None
  }

  predicate PlacedWell(kind: string, parent: Option<string>) {
    AllowedParents(kind).Some? ==> parent.Some? && parent.value in AllowedParents(kind).value
  }

  /** `!content || content.length === 0`. */
  predicate IsEmptyContent(h: Heap, content: Value) {
    match content
    case Undefined | Null | NaN => true
    case Bool(b) => !b
    case Number(n) => n == 0.0
    case Text(s) => s == ""
    case Reference(_) =>
      (IsArray(h, content) && Items(h, content) == [])
      || (IsRecord(h, content) && Get(h, content, "length") == Number(0.0))
    case Infinite | Callable => false
  }

  const STRUCTURED := ["table", "tableRow", "tableHeader", "tableCell", "taskList", "taskItem", "footnoteDefinition"]

  predicate FilledWell(h: Heap, v: Value, kind: string)
    requires IsRecord(h, v)
  {
    kind in STRUCTURED ==> !IsEmptyContent(h, Get(h, v, "content"))
  }

  function PlacementProblems(h: Heap, v: Value, kind: string, path: Path, parent: Option<string>): seq<Problem>
    requires IsRecord(h, v)
  {
    Unless(PlacedWell(kind, parent), path, NodePlacement) + Unless(FilledWell(h, v, kind), path, NodeContent)
  }

  predicate MarkOk(platform: Platform, h: Heap, mark: Value, allowed: seq<string>) {
    && IsRecord(h, mark) && Get(h, mark, "type").Text? && Get(h, mark, "type").s in allowed
    && (Get(h, mark, "type").s == "link" ==>
          Attr(h, mark, "href").Text? && IsSafeHref(platform, Attr(h, mark, "href").s))
  }

  /** What `validateMark` reports. */
  function MarkProblemsAt(platform: Platform, h: Heap, mark: Value, path: Path, allowed: seq<string>): (r: seq<Problem>)
    ensures r == [] <==> MarkOk(platform, h, mark, allowed)
    ensures forall p | p in r :: !IsShapeCode(p.code)
  {
    if !IsRecord(h, mark) || !Get(h, mark, "type").Text? || Get(h, mark, "type").s !in allowed then
      [Problem(path, MarkNotAllowed)]
    else Unless(MarkOk(platform, h, mark, allowed), AttrPath(path, "href"), LinkUrl)
  }

  /** The problems of the first `n` marks. */
  function MarkProblems(platform: Platform, h: Heap, marks: seq<Value>, n: nat, path: Path,
      allowed: seq<string>): (r: seq<Problem>)
    requires n <= |marks|
    ensures r == [] <==> forall i | 0 <= i < n :: MarkOk(platform, h, marks[i], allowed)
    ensures NoShapeCode(r)
  {
    hide MarkOk, NoShapeCode;
    if n == 0 then
      NoShapeJoin([], []);
      []
    else
      var before := MarkProblems(platform, h, marks, n - 1, path, allowed);
      var last := MarkProblemsAt(platform, h, marks[n - 1], MarkPath(path, n - 1), allowed);
      NoShapeJoin(before, last);
      before + last
  }

  predicate NoShapeCode(r: seq<Problem>) { forall p | p in r :: !IsShapeCode(p.code) }

  lemma {:induction false} NoShapeJoin(a: seq<Problem>, b: seq<Problem>)
    ensures NoShapeCode([])
    ensures NoShapeCode(a) && NoShapeCode(b) ==> NoShapeCode(a + b)
    ensures a + b == [] <==> a == [] && b == []
  {
    assert |a + b| == |a| + |b|;
  }

  predicate TextOk(h: Heap, v: Value, kind: string)
    requires IsRecord(h, v)
  {
    if kind == "text" then Get(h, v, "text").Text? && Get(h, v, "text").s != ""
    else Get(h, v, "text") == Undefined
  }

  function TextProblems(h: Heap, v: Value, kind: string, path: Path): seq<Problem>
    requires IsRecord(h, v)
  {
    Unless(TextOk(h, v, kind), path + [Field("text")], if kind == "text" then TextRequired else UnexpectedText)
  }

  function KindOf(h: Heap, v: Value): Option<string> {
    if IsRecord(h, v) && Get(h, v, "type").Text? then Some(Get(h, v, "type").s) else None
  }

  /** What `validateNode` reports for one node before it looks at the children. */
  function LocalProblems(platform: Platform, h: Heap, def: Definition, o: Occurrence): seq<Problem> {
    var v := o.node;
    match KindOf(h, v)
    case None => [Problem(o.path, NodeType)]
    case Some(kind) =>
      if kind !in def.allowedNodes then [Problem(o.path + [Field("type")], NodeNotAllowed)]
      else
        TextProblems(h, v, kind, o.path)
        + AttributeProblems(h, v, kind, o.path, def.headingLevels)
        + PlacementProblems(h, v, kind, o.path, o.parent)
        + (var marks := ItemsOrNone(h, Get(h, v, "marks"));
           MarkProblems(platform, h, marks, |marks|, o.path, def.allowedMarks))
        + Unless(Get(h, v, "content") == Undefined || IsArray(h, Get(h, v, "content")), o.path + [Field("content")],
            ContentType)
  }

  predicate AttributesOk(h: Heap, v: Value, kind: string, levels: seq<int>) {
    && (kind in ["paragraph", "heading"] ==> AlignmentOk(h, v))
    && (kind == "heading" ==> LevelOk(h, v, levels))
    && (kind == "codeBlock" ==> StringAttr(h, v, "language") in CODE_LANGUAGES)
    && (kind == "mention" ==> IsUuid(StringAttr(h, v, "userId")) && TextWithin(StringAttr(h, v, "username"), 1, 32))
    && (kind == "mediaReference" ==>
          && IsUuid(StringAttr(h, v, "mediaId"))
          && OptionalTextWithin(Attr(h, v, "alt"), 500) && OptionalTextWithin(Attr(h, v, "caption"), 1000))
    && (kind == "attachment" ==> IsUuid(StringAttr(h, v, "mediaId")) && TextWithin(StringAttr(h, v, "label"), 1, 255))
    && (kind == "contentGate" ==> IsUuid(StringAttr(h, v, "gateId")))
    && (kind == "taskItem" ==> Attr(h, v, "checked").Bool?)
    && (kind in ["footnoteReference", "footnoteDefinition"] ==> IsFootnoteId(StringAttr(h, v, "noteId")))
  }

  /** A node that breaks no rule of a profile. */
  predicate NodeOk(platform: Platform, h: Heap, def: Definition, o: Occurrence) {
    var v := o.node;
    && KindOf(h, v).Some?
    && var kind := KindOf(h, v).value;
    && kind in def.allowedNodes
    && TextOk(h, v, kind)
    && AttributesOk(h, v, kind, def.headingLevels)
    && PlacedWell(kind, o.parent) && FilledWell(h, v, kind)
    && (forall m | m in ItemsOrNone(h, Get(h, v, "marks")) :: MarkOk(platform, h, m, def.allowedMarks))
    && (Get(h, v, "content") == Undefined || IsArray(h, Get(h, v, "content")))
  }

  lemma {:induction false} AttributesDecided(h: Heap, v: Value, kind: string, path: Path, levels: seq<int>)
    ensures AttributeProblems(h, v, kind, path, levels) == [] <==> AttributesOk(h, v, kind, levels)
  {
    var media := kind in ["mediaReference", "attachment"];
    assert media <==> kind == "mediaReference" || kind == "attachment";
    EmptyJoin(InlineProblems(h, v, kind, path, levels), MediaProblems(h, v, kind, path),
        GradeProblems(h, v, kind, path));
  }

  lemma {:induction false} EmptyJoin(a: seq<Problem>, b: seq<Problem>, c: seq<Problem>)
    ensures a + b + c == [] <==> a == [] && b == [] && c == []
  {
    assert |a + b + c| == |a| + |b| + |c|;
  }

  /** A node has no local problem exactly when it breaks no rule. */
  lemma {:induction false} LocalDecided(platform: Platform, h: Heap, def: Definition, o: Occurrence)
    ensures LocalProblems(platform, h, def, o) == [] <==> NodeOk(platform, h, def, o)
  {
    if KindOf(h, o.node).Some? {
      var kind := KindOf(h, o.node).value;
      AttributesDecided(h, o.node, kind, o.path, def.headingLevels);
      var marks := ItemsOrNone(h, Get(h, o.node, "marks"));
      if kind in def.allowedNodes {
        var a := TextProblems(h, o.node, kind, o.path);
        var b := AttributeProblems(h, o.node, kind, o.path, def.headingLevels);
        var c := PlacementProblems(h, o.node, kind, o.path, o.parent);
        var d := MarkProblems(platform, h, marks, |marks|, o.path, def.allowedMarks);
        EmptyJoin(a, b, c);
        var content := Get(h, o.node, "content");
        EmptyJoin(a + b + c, d,
          Unless(content == Undefined || IsArray(h, content), o.path + [Field("content")], ContentType));
      }
    }
  }

  // ------------------------------------------------------------------ preorder

  datatype Occurrence = Occurrence(node: Value, path: Path, parent: Option<string>)

  /** Every node of the unfolded tree, in preorder. */
  ghost function Occurrences(h: Heap, v: Value, s: Shape, path: Path, parent: Option<string>): seq<Occurrence>
    requires Unfolds(h, v, s)
    decreases s, 1, 0
  {
    [Occurrence(v, path, parent)] + OccurrencesIn(h, Children(h, v), s.children, |s.children|, path, KindOf(h, v))
  }

  /** Those below the first `n` children. */
  ghost function OccurrencesIn(h: Heap, kids: seq<Value>, ss: seq<Shape>, n: nat, path: Path,
      parent: Option<string>): seq<Occurrence>
    requires AllUnfold(h, kids, ss) && n <= |ss|
    decreases ss, 0, n
  {
    if n == 0 then []
    else
      OccurrencesIn(h, kids, ss, n - 1, path, parent)
      + Occurrences(h, kids[n - 1], ss[n - 1], ChildPath(path, n - 1), parent)
  }

  lemma {:induction false} SizeAllUpTo(ss: seq<Shape>, n: nat)
    requires n <= |ss|
    ensures n > 0 ==> SizeAll(ss[..n]) == SizeAll(ss[..n - 1]) + Size(ss[n - 1])
    ensures n == |ss| ==> ss[..n] == ss
  {
    if n > 1 {
      SizeAllUpTo(ss[1..], n - 1);
      assert ss[..n][1..] == ss[1..][..n - 1] && ss[..n - 1][1..] == ss[1..][..n - 2];
    }
  }

  predicate Allowed(h: Heap, def: Definition, v: Value) {
    KindOf(h, v).Some? && KindOf(h, v).value in def.allowedNodes
  }

  /** The nodes `validateNode` reaches: it does not descend below a node the profile forbids. */
  ghost function Visits(h: Heap, def: Definition, v: Value, s: Shape, path: Path,
      parent: Option<string>): seq<Occurrence>
    requires Unfolds(h, v, s)
    decreases s, 1, 0
  {
    [Occurrence(v, path, parent)]
    + if Allowed(h, def, v) then VisitsIn(h, def, Children(h, v), s.children, |s.children|, path, KindOf(h, v)) else []
  }

  ghost function VisitsIn(h: Heap, def: Definition, kids: seq<Value>, ss: seq<Shape>, n: nat, path: Path,
      parent: Option<string>): seq<Occurrence>
    requires AllUnfold(h, kids, ss) && n <= |ss|
    decreases ss, 0, n
  {
    if n == 0 then []
    else
      VisitsIn(h, def, kids, ss, n - 1, path, parent)
      + Visits(h, def, kids[n - 1], ss[n - 1], ChildPath(path, n - 1), parent)
  }

  /** The list has one entry for each node of the tree; the recursive check visits no more. */
  lemma {:induction false} OccurrencesCounted(h: Heap, def: Definition, v: Value, s: Shape, path: Path,
      parent: Option<string>)
    requires Unfolds(h, v, s)
    ensures |Occurrences(h, v, s, path, parent)| == Size(s)
    ensures |Visits(h, def, v, s, path, parent)| <= Size(s)
    decreases s, 1, 0
  {
    SizeAllUpTo(s.children, |s.children|);
    OccurrencesInCounted(h, def, Children(h, v), s.children, |s.children|, path, KindOf(h, v));
  }

  lemma {:induction false} OccurrencesInCounted(h: Heap, def: Definition, kids: seq<Value>, ss: seq<Shape>, n: nat,
      path: Path, parent: Option<string>)
    requires AllUnfold(h, kids, ss) && n <= |ss|
    ensures |OccurrencesIn(h, kids, ss, n, path, parent)| == SizeAll(ss[..n])
    ensures |VisitsIn(h, def, kids, ss, n, path, parent)| <= SizeAll(ss[..n])
    decreases ss, 0, n
  {
    if n > 0 {
      SizeAllUpTo(ss, n);
      OccurrencesInCounted(h, def, kids, ss, n - 1, path, parent);
      OccurrencesCounted(h, def, kids[n - 1], ss[n - 1], ChildPath(path, n - 1), parent);
    }
  }

  ghost predicate AllAllowed(h: Heap, def: Definition, os: seq<Occurrence>) {
    forall o | o in os :: Allowed(h, def, o.node)
  }

  lemma {:induction false} AllowedJoin(h: Heap, def: Definition, a: seq<Occurrence>, b: seq<Occurrence>)
    ensures AllAllowed(h, def, a + b) <==> AllAllowed(h, def, a) && AllAllowed(h, def, b)
  {
    assert forall o :: o in a + b <==> o in a || o in b;
  }

  /** When the profile allows every visited node, the visit misses none. */
  lemma {:induction false} VisitsAll(h: Heap, def: Definition, v: Value, s: Shape, path: Path, parent: Option<string>)
    requires Unfolds(h, v, s)
    ensures AllAllowed(h, def, Visits(h, def, v, s, path, parent))
        <==> AllAllowed(h, def, Occurrences(h, v, s, path, parent))
    ensures AllAllowed(h, def, Visits(h, def, v, s, path, parent))
         ==> Visits(h, def, v, s, path, parent) == Occurrences(h, v, s, path, parent)
    decreases s, 1, 0
  {
    var here := Occurrence(v, path, parent);
    var kids, kind, n := Children(h, v), KindOf(h, v), |s.children|;
    VisitsAllIn(h, def, kids, s.children, n, path, kind);
    assert AllAllowed(h, def, [here]) <==> Allowed(h, def, v) by {
      assert here in [here];
    }
    hide AllAllowed, VisitsIn, OccurrencesIn, Unfolds, AllUnfold, Children, KindOf, Allowed;
    AllowedJoin(h, def, [here], VisitsIn(h, def, kids, s.children, n, path, kind));
    AllowedJoin(h, def, [here], OccurrencesIn(h, kids, s.children, n, path, kind));
  }

  lemma {:induction false} VisitsAllIn(h: Heap, def: Definition, kids: seq<Value>, ss: seq<Shape>, n: nat,
      path: Path, parent: Option<string>)
    requires AllUnfold(h, kids, ss) && n <= |ss|
    ensures AllAllowed(h, def, VisitsIn(h, def, kids, ss, n, path, parent))
       <==> AllAllowed(h, def, OccurrencesIn(h, kids, ss, n, path, parent))
    ensures AllAllowed(h, def, VisitsIn(h, def, kids, ss, n, path, parent))
         ==> VisitsIn(h, def, kids, ss, n, path, parent) == OccurrencesIn(h, kids, ss, n, path, parent)
    decreases ss, 0, n
  {
    hide AllAllowed, Visits, Occurrences, Children, KindOf;
    if n > 0 {
      var kid, s, at := kids[n - 1], ss[n - 1], ChildPath(path, n - 1);
      VisitsAllIn(h, def, kids, ss, n - 1, path, parent);
      VisitsAll(h, def, kid, s, at, parent);
      AllowedJoin(h, def, VisitsIn(h, def, kids, ss, n - 1, path, parent), Visits(h, def, kid, s, at, parent));
      AllowedJoin(h, def, OccurrencesIn(h, kids, ss, n - 1, path, parent), Occurrences(h, kid, s, at, parent));
    }
  }

  // ------------------------------------------------------------------ folds over the list

  /** The lists `f` gives for each occurrence, joined in order. */
  ghost function Collect<T>(f: Occurrence -> seq<T>, os: seq<Occurrence>): seq<T> {
    if os == [] then [] else Collect(f, os[..|os| - 1]) + f(os[|os| - 1])
  }

  lemma {:induction false} CollectJoin<T>(f: Occurrence -> seq<T>, a: seq<Occurrence>, b: seq<Occurrence>)
    ensures Collect(f, a + b) == Collect(f, a) + Collect(f, b)
    decreases |b|
  {
    if b == [] {
      assert a + b == a;
    } else {
      assert (a + b)[..|a + b| - 1] == a + b[..|b| - 1];
      CollectJoin(f, a, b[..|b| - 1]);
    }
  }

  lemma {:induction false} CollectOne<T>(f: Occurrence -> seq<T>, o: Occurrence)
    ensures Collect(f, [o]) == f(o)
  {
    assert [o][..0] == [];
  }

  lemma {:induction false} CollectEmpty<T>(f: Occurrence -> seq<T>, os: seq<Occurrence>)
    ensures Collect(f, os) == [] <==> forall o | o in os :: f(o) == []
  {
    if os != [] {
      var last := |os| - 1;
      CollectEmpty(f, os[..last]);
      assert forall o :: o in os <==> o in os[..last] || o == os[last];
    }
  }

  lemma {:induction false} Reassociate<T>(a: seq<T>, b: seq<T>, c: seq<T>)
    ensures a + (b + c) == (a + b) + c
  {
  }

  /** The checks of one node as a function of its occurrence. */
  function Checker(platform: Platform, h: Heap, def: Definition): Occurrence -> seq<Problem> {
    (o: Occurrence) => LocalProblems(platform, h, def, o)
  }

  /** The text a node adds to the character budget, one item per code unit. */
  function Typed(h: Heap, def: Definition): Occurrence -> seq<CodeUnit> {
    (o: Occurrence) => TypedBy(h, def, o.node)
  }

  function TypedBy(h: Heap, def: Definition, v: Value): seq<CodeUnit> {
    if Allowed(h, def, v) && KindOf(h, v) == Some("text") && Get(h, v, "text").Text? then
      CodeUnits(Get(h, v, "text").s)
    else []
  }

  // ------------------------------------------------------------------ validateNode

  datatype Totals = Totals(characters: nat, nodes: nat, problems: seq<Problem>)

  /** The totals after the occurrences `os` have been checked. */
  ghost function Checked(platform: Platform, h: Heap, def: Definition, t: Totals, os: seq<Occurrence>): Totals {
    Totals(t.characters + |Collect(Typed(h, def), os)|, t.nodes + |os|,
        t.problems + Collect(Checker(platform, h, def), os))
  }

  lemma {:induction false} CheckedJoin(platform: Platform, h: Heap, def: Definition, t: Totals, a: seq<Occurrence>,
      b: seq<Occurrence>)
    ensures Checked(platform, h, def, t, []) == t
    ensures Checked(platform, h, def, t, a + b) == Checked(platform, h, def, Checked(platform, h, def, t, a), b)
  {
    CollectJoin(Typed(h, def), a, b);
    CollectJoin(Checker(platform, h, def), a, b);
  }

  /** The counters and the error list that the recursion shares. */
  class Report {
    var characters: nat
    var nodes: nat
    var problems: seq<Problem>

    constructor ()
      ensures State() == Totals(0, 0, [])
    {
      characters, nodes, problems := 0, 0, [];
    }

    function State(): Totals
      reads this
    {
      Totals(characters, nodes, problems)
    }

    /** The part of `validateNode` that concerns the node itself; `descend` tells whether its
        children are visited. */
    method CheckNode(platform: Platform, h: Heap, def: Definition, o: Occurrence) returns (descend: bool)
      modifies this
      ensures State() == Checked(platform, h, def, old(State()), [o])
      ensures descend == Allowed(h, def, o.node)
    {
      CollectOne(Typed(h, def), o);
      CollectOne(Checker(platform, h, def), o);
      nodes := nodes + 1;
      descend := Allowed(h, def, o.node);
      if descend {
        characters := characters + |TypedBy(h, def, o.node)|;
      }
      problems := problems + LocalProblems(platform, h, def, o);
    }
  }

  /** The recursive check over a value with a finite unfolding: it visits the allowed part of the
      tree in preorder and adds exactly that part's problems, characters and nodes. */
  method ValidateNode(platform: Platform, h: Heap, def: Definition, v: Value, ghost s: Shape, path: Path,
                      parent: Option<string>, report: Report)
    requires Unfolds(h, v, s)
    modifies report
    ensures report.State() == Checked(platform, h, def, old(report.State()), Visits(h, def, v, s, path, parent))
    decreases s
  {
    var here := Occurrence(v, path, parent);
    hide Checked;
    ghost var start := report.State();
    var descend := report.CheckNode(platform, h, def, here);
    if !descend {
      assert Visits(h, def, v, s, path, parent) == [here];
      return;
    }
    ghost var entered := report.State();
    CheckedJoin(platform, h, def, entered, [], []);
    var kind := KindOf(h, v);
    var children := Children(h, v);
    for i := 0 to |children|
      invariant report.State() == Checked(platform, h, def, entered,
          VisitsIn(h, def, children, s.children, i, path, kind))
    {
      ghost var before := VisitsIn(h, def, children, s.children, i, path, kind);
      ghost var child := Visits(h, def, children[i], s.children[i], ChildPath(path, i), kind);
      CheckedJoin(platform, h, def, entered, before, child);
      ValidateNode(platform, h, def, children[i], s.children[i], ChildPath(path, i), kind, report);
    }
    CheckedJoin(platform, h, def, start, [here], VisitsIn(h, def, children, s.children, |children|, path, kind));
  }

  // ------------------------------------------------------------------ document-grade invariants

  /** A JavaScript Map from note ids to counts: keys keep their insertion order. */
  datatype Counter = Counter(keys: seq<string>, counts: map<string, nat>)

  const NO_NOTES := Counter([], map[])

  function CountOf(c: Counter, key: string): nat {
    if key in c.counts then c.counts[key] else 0
  }

  function Increment(c: Counter, key: string): Counter {
    Counter(if key in c.counts then c.keys else c.keys + [key], c.counts[key := CountOf(c, key) + 1])
  }

  function IncrementAll(c: Counter, keys: seq<string>): Counter {
    if keys == [] then c else Increment(IncrementAll(c, keys[..|keys| - 1]), keys[|keys| - 1])
  }

  lemma {:induction false} IncrementAllJoin(c: Counter, a: seq<string>, b: seq<string>)
    ensures IncrementAll(c, a + b) == IncrementAll(IncrementAll(c, a), b)
    decreases |b|
  {
    if b == [] {
      assert a + b == a;
    } else {
      assert (a + b)[..|a + b| - 1] == a + b[..|b| - 1];
      IncrementAllJoin(c, a, b[..|b| - 1]);
    }
  }

  lemma {:induction false} IncrementOne(c: Counter, key: string)
    ensures IncrementAll(c, [key]) == Increment(c, key)
  {
    assert [key][..0] == [];
  }

  /** A counter filled from a list holds every id of the list once as a key, with its multiplicity. */
  lemma {:induction false} CounterCounts(keys: seq<string>)
    ensures var c := IncrementAll(NO_NOTES, keys);
      && (forall k :: k in c.counts <==> k in keys)
      && (forall k :: k in c.keys <==> k in keys)
      && (forall k :: CountOf(c, k) == multiset(keys)[k])
  {
    if keys != [] {
      var last := |keys| - 1;
      CounterCounts(keys[..last]);
      assert keys == keys[..last] + [keys[last]];
    }
  }

  function Notes(h: Heap, kind: string): Occurrence -> seq<string> {
    (o: Occurrence) => if KindOf(h, o.node) == Some(kind) then [StringAttr(h, o.node, "noteId")] else []
  }

  function ContentsTables(h: Heap): Occurrence -> seq<Path> {
    (o: Occurrence) => if KindOf(h, o.node) == Some("tableOfContents") then [o.path] else []
  }

  /** What the footnote visit has counted. */
  datatype Counts = Counts(references: Counter, definitions: Counter, tables: nat)

  const NOTHING := Counts(NO_NOTES, NO_NOTES, 0)

  ghost function After(h: Heap, c: Counts, os: seq<Occurrence>): Counts {
    Counts(
      IncrementAll(c.references, Collect(Notes(h, "footnoteReference"), os)),
      IncrementAll(c.definitions, Collect(Notes(h, "footnoteDefinition"), os)),
      c.tables + |Collect(ContentsTables(h), os)|)
  }

  lemma {:induction false} AfterJoin(h: Heap, c: Counts, a: seq<Occurrence>, b: seq<Occurrence>)
    ensures After(h, c, []) == c
    ensures After(h, c, a + b) == After(h, After(h, c, a), b)
  {
    var r, d := Notes(h, "footnoteReference"), Notes(h, "footnoteDefinition");
    CollectJoin(ContentsTables(h), a, b);
    CollectJoin(r, a, b);
    CollectJoin(d, a, b);
    IncrementAllJoin(c.references, Collect(r, a), Collect(r, b));
    IncrementAllJoin(c.definitions, Collect(d, a), Collect(d, b));
  }

  class Tally {
    var references: Counter
    var definitions: Counter
    var tables: nat

    constructor ()
      ensures State() == NOTHING
    {
      references, definitions, tables := NO_NOTES, NO_NOTES, 0;
    }

    function State(): Counts
      reads this
    {
      Counts(references, definitions, tables)
    }

    /** Counts one node. */
    method CountNode(h: Heap, o: Occurrence)
      modifies this
      ensures State() == After(h, old(State()), [o])
    {
      var kind := KindOf(h, o.node);
      var noteId := StringAttr(h, o.node, "noteId");
      CollectOne(Notes(h, "footnoteReference"), o);
      CollectOne(Notes(h, "footnoteDefinition"), o);
      CollectOne(ContentsTables(h), o);
      IncrementOne(references, noteId);
      IncrementOne(definitions, noteId);
      if kind == Some("footnoteReference") {
        references := Increment(references, noteId);
      }
      if kind == Some("footnoteDefinition") {
        definitions := Increment(definitions, noteId);
      }
      if kind == Some("tableOfContents") {
        tables := tables + 1;
      }
    }
  }

  /** The second traversal: it counts over every node of the tree, forbidden ones included. */
  method VisitNotes(h: Heap, v: Value, ghost s: Shape, path: Path, parent: Option<string>, tally: Tally)
    requires Unfolds(h, v, s)
    modifies tally
    ensures tally.State() == After(h, old(tally.State()), Occurrences(h, v, s, path, parent))
    decreases s
  {
    var here := Occurrence(v, path, parent);
    hide After;
    ghost var start := tally.State();
    tally.CountNode(h, here);
    ghost var entered := tally.State();
    AfterJoin(h, entered, [], []);
    var kind := KindOf(h, v);
    var children := Children(h, v);
    for i := 0 to |children|
      invariant tally.State() == After(h, entered, OccurrencesIn(h, children, s.children, i, path, kind))
    {
      ghost var before := OccurrencesIn(h, children, s.children, i, path, kind);
      ghost var child := Occurrences(h, children[i], s.children[i], ChildPath(path, i), kind);
      AfterJoin(h, entered, before, child);
      VisitNotes(h, children[i], s.children[i], ChildPath(path, i), kind, tally);
    }
    AfterJoin(h, start, [here], OccurrencesIn(h, children, s.children, |children|, path, kind));
  }

  predicate Paired(references: Counter, definitions: Counter, id: string) {
    CountOf(references, id) == 1 && CountOf(definitions, id) == 1
  }

  /** `new Set(ids)` in iteration order, over the first `n` of them. */
  function Distinct(ids: seq<string>, n: nat): (r: seq<string>)
    requires n <= |ids|
    ensures forall id :: id in r <==> id in ids[..n]
    ensures forall i, j | 0 <= i < j < |r| :: r[i] != r[j]
  {
    if n == 0 then []
    else
      assert ids[..n] == ids[..n - 1] + [ids[n - 1]];
      var r := Distinct(ids, n - 1);
      if ids[n - 1] in r then r else r + [ids[n - 1]]
  }

  function PairProblems(references: Counter, definitions: Counter, ids: seq<string>, n: nat): (r: seq<Problem>)
    requires n <= |ids|
    ensures forall p :: p in r <==> p.path == ContentPath() && p.code.FootnotePair? && p.code.noteId in ids[..n]
                                    && !Paired(references, definitions, p.code.noteId)
  {
    if n == 0 then []
    else
      assert ids[..n] == ids[..n - 1] + [ids[n - 1]];
      PairProblems(references, definitions, ids, n - 1)
      + Unless(Paired(references, definitions, ids[n - 1]), ContentPath(), FootnotePair(ids[n - 1]))
  }

  function GradeErrors(c: Counts): seq<Problem> {
    var all := c.references.keys + c.definitions.keys;
    var ids := Distinct(all, |all|);
    PairProblems(c.references, c.definitions, ids, |ids|) + Unless(c.tables <= 1, ContentPath(), TableOfContentsLimit)
  }

  method CheckPairs(references: Counter, definitions: Counter, ids: seq<string>) returns (found: seq<Problem>)
    ensures found == PairProblems(references, definitions, ids, |ids|)
  {
    found := [];
    for i := 0 to |ids|
      invariant found == PairProblems(references, definitions, ids, i)
    {
      if CountOf(references, ids[i]) != 1 || CountOf(definitions, ids[i]) != 1 {
        found := found + [Problem(ContentPath(), FootnotePair(ids[i]))];
      }
    }
  }

  method ValidateDocumentGradeInvariants(h: Heap, root: Value, ghost s: Shape, report: Report)
    requires Unfolds(h, root, s) && AllShaped(h, root, s)
    modifies report`problems
    ensures report.problems
         == old(report.problems) + GradeErrors(After(h, NOTHING, Occurrences(h, root, s, ContentPath(), None)))
  {
    var tally := new Tally();
    VisitNotes(h, root, s, ContentPath(), None, tally);
    var all := tally.references.keys + tally.definitions.keys;
    var pairs := CheckPairs(tally.references, tally.definitions, Distinct(all, |all|));
    Reassociate(report.problems, pairs, Unless(tally.tables <= 1, ContentPath(), TableOfContentsLimit));
    report.problems := report.problems + pairs;
    if tally.tables > 1 {
      report.problems := report.problems + [Problem(ContentPath(), TableOfContentsLimit)];
    }
  }

  predicate NoRepeats(ids: seq<string>) {
    forall i, j | 0 <= i < j < |ids| :: ids[i] != ids[j]
  }

  /** Reading a reference as its note id is a bijection from the references to the definitions. */
  ghost predicate NotesPaired(references: seq<string>, definitions: seq<string>) {
    NoRepeats(references) && NoRepeats(definitions) && forall id :: id in references <==> id in definitions
  }

  lemma {:induction false} RepeatsCounted(ids: seq<string>)
    ensures NoRepeats(ids) <==> forall id | id in ids :: multiset(ids)[id] == 1
  {
    if ids != [] {
      var last := |ids| - 1;
      RepeatsCounted(ids[..last]);
      assert ids == ids[..last] + [ids[last]];
      if ids[last] in ids[..last] {
        assert multiset(ids)[ids[last]] >= 2;
        var i :| 0 <= i < last && ids[..last][i] == ids[last];
        assert ids[i] == ids[last];
      } else {
        assert forall id | id in ids[..last] :: multiset(ids)[id] == multiset(ids[..last])[id];
        assert forall i | 0 <= i < last :: ids[i] == ids[..last][i];
      }
    }
  }

  /** One footnote problem for each id that is not referenced exactly once and defined exactly once. */
  lemma {:induction false} PairsDecided(references: seq<string>, definitions: seq<string>, tables: nat)
    ensures var errors := GradeErrors(Counts(IncrementAll(NO_NOTES, references), IncrementAll(NO_NOTES, definitions),
        tables));
      && (forall p :: p in errors && p.code.FootnotePair? <==>
            && p.path == ContentPath() && p.code.FootnotePair?
            && p.code.noteId in references + definitions
            && !(multiset(references)[p.code.noteId] == 1 == multiset(definitions)[p.code.noteId]))
      && (Problem(ContentPath(), TableOfContentsLimit) in errors <==> tables > 1)
      && (forall p | p in errors :: p.code.FootnotePair? || p.code.TableOfContentsLimit?)
  {
    CounterCounts(references);
    CounterCounts(definitions);
    var all := IncrementAll(NO_NOTES, references).keys + IncrementAll(NO_NOTES, definitions).keys;
    var ids := Distinct(all, |all|);
    assert all[..|all|] == all && ids[..|ids|] == ids;
    assert forall id :: id in ids <==> id in references || id in definitions;
  }

  lemma {:induction false} PairedMeansNoProblem(references: seq<string>, definitions: seq<string>)
    ensures NotesPaired(references, definitions) <==>
      forall id | id in references + definitions :: multiset(references)[id] == 1 == multiset(definitions)[id]
  {
    RepeatsCounted(references);
    RepeatsCounted(definitions);
    if forall id | id in references + definitions :: multiset(references)[id] == 1 == multiset(definitions)[id] {
      forall id ensures id in references <==> id in definitions {
        assert id in references ==> id in references + definitions;
        assert id in definitions ==> id in references + definitions;
      }
    }
  }

  /** The counting loops report nothing exactly when the notes pair up and there is at most one
      table of contents. */
  lemma {:induction false} GradeDecided(references: seq<string>, definitions: seq<string>, tables: nat)
    ensures GradeErrors(Counts(IncrementAll(NO_NOTES, references), IncrementAll(NO_NOTES, definitions), tables)) == []
       <==> NotesPaired(references, definitions) && tables <= 1
  {
    var errors := GradeErrors(Counts(IncrementAll(NO_NOTES, references), IncrementAll(NO_NOTES, definitions), tables));
    PairsDecided(references, definitions, tables);
    PairedMeansNoProblem(references, definitions);
    if errors == [] {
      forall id | id in references + definitions
        ensures multiset(references)[id] == 1 == multiset(definitions)[id]
      {
        assert Problem(ContentPath(), FootnotePair(id)) !in errors;
      }
    } else {
      assert errors[0] in errors;
    }
  }

  // ------------------------------------------------------------------ validateEditorDocument

  datatype Verdict = Valid | Invalid(errors: seq<Problem>)

  function Judge(errors: seq<Problem>): Verdict {
    if errors == [] then Valid else Invalid(errors)
  }

  function SchemaOk(h: Heap, value: Value): bool
    requires IsRecord(h, value)
  {
    Get(h, value, "schemaVersion") == Number(1.0)
  }

  function ProfileOf(h: Heap, value: Value): Option<Profile>
    requires IsRecord(h, value)
  {
    if Get(h, value, "profile").Text? then ParseProfile(Get(h, value, "profile").s) else None
  }

  predicate RootOk(h: Heap, value: Value)
    requires IsRecord(h, value)
  {
    IsRecord(h, Get(h, value, "content")) && Get(h, Get(h, value, "content"), "type") == Text("doc")
  }

  function HeaderProblems(h: Heap, value: Value): seq<Problem>
    requires IsRecord(h, value)
  {
    Unless(SchemaOk(h, value), [Field("schemaVersion")], SchemaVersion)
    + Unless(ProfileOf(h, value).Some?, [Field("profile")], UnknownProfile)
    + Unless(RootOk(h, value), ContentPath(), RootNode)
  }

  /** A document body a profile admits, stated over the flat list of its nodes. */
  ghost predicate BodyOk(platform: Platform, h: Heap, def: Definition, content: Value, s: Shape) {
    && BoundedTree(h, content, s, def.maxNodes)
    && var os := Occurrences(h, content, s, ContentPath(), None);
    && (forall o | o in os :: NodeOk(platform, h, def, o))
    && NotesPaired(Collect(Notes(h, "footnoteReference"), os), Collect(Notes(h, "footnoteDefinition"), os))
    && |Collect(ContentsTables(h), os)| <= 1
    && |Collect(Letters(h), os)| <= def.maxCharacters
  }

  /** All text of a tree, whatever the profile. */
  function Letters(h: Heap): Occurrence -> seq<CodeUnit> {
    (o: Occurrence) =>
      if KindOf(h, o.node) == Some("text") && Get(h, o.node, "text").Text? then
        CodeUnits(Get(h, o.node, "text").s)
      else []
  }

  ghost predicate AdmittedAs(platform: Platform, h: Heap, profile: Profile, content: Value) {
    exists s :: BodyOk(platform, h, DefinitionOf(profile), content, s)
  }

  ghost predicate Acceptable(platform: Platform, h: Heap, value: Value) {
    && IsRecord(h, value) && SchemaOk(h, value) && ProfileOf(h, value).Some? && RootOk(h, value)
    && AdmittedAs(platform, h, ProfileOf(h, value).value, Get(h, value, "content"))
  }

  /** The errors after structural acceptance, in the order they are pushed. */
  ghost function SemanticErrors(platform: Platform, h: Heap, def: Definition, content: Value, s: Shape): seq<Problem>
    requires Unfolds(h, content, s)
  {
    var visits := Visits(h, def, content, s, ContentPath(), None);
    Collect(Checker(platform, h, def), visits)
    + GradeErrors(After(h, NOTHING, Occurrences(h, content, s, ContentPath(), None)))
    + Unless(|Collect(Typed(h, def), visits)| <= def.maxCharacters, ContentPath(), CharacterLimit)
  }

  lemma {:induction false} CollectSame<T>(f: Occurrence -> seq<T>, g: Occurrence -> seq<T>, os: seq<Occurrence>)
    requires forall o | o in os :: f(o) == g(o)
    ensures Collect(f, os) == Collect(g, os)
  {
    if os != [] {
      CollectSame(f, g, os[..|os| - 1]);
    }
  }

  lemma {:induction false} CollectMember<T>(f: Occurrence -> seq<T>, os: seq<Occurrence>, x: T)
    requires x in Collect(f, os)
    ensures exists o :: o in os && x in f(o)
  {
    if x in f(os[|os| - 1]) {
      assert os[|os| - 1] in os;
    } else {
      CollectMember(f, os[..|os| - 1], x);
    }
  }

  lemma {:induction false} EmptyCollect(platform: Platform, h: Heap, def: Definition, os: seq<Occurrence>)
    ensures Collect(Checker(platform, h, def), os) == [] <==> forall o | o in os :: NodeOk(platform, h, def, o)
  {
    CollectEmpty(Checker(platform, h, def), os);
    forall o: Occurrence ensures Checker(platform, h, def)(o) == [] <==> NodeOk(platform, h, def, o) {
      LocalDecided(platform, h, def, o);
    }
  }

  /** After structural acceptance nothing is reported exactly when the body is admitted. */
  lemma {:induction false} SemanticDecided(platform: Platform, h: Heap, def: Definition, content: Value, s: Shape)
    requires BoundedTree(h, content, s, def.maxNodes)
    ensures SemanticErrors(platform, h, def, content, s) == [] <==> BodyOk(platform, h, def, content, s)
  {
    var visits := Visits(h, def, content, s, ContentPath(), None);
    var os := Occurrences(h, content, s, ContentPath(), None);
    hide Visits, Occurrences, Collect, Typed, Letters, Checker, GradeErrors, After, AllAllowed, BoundedTree, Notes,
        ContentsTables, NodeOk, NotesPaired;
    EmptyJoin(Collect(Checker(platform, h, def), visits), GradeErrors(After(h, NOTHING, os)),
              Unless(|Collect(Typed(h, def), visits)| <= def.maxCharacters, ContentPath(), CharacterLimit));
    CountedGrade(h, os);
    EmptyCollect(platform, h, def, visits);
    VisitsAll(h, def, content, s, ContentPath(), None);
    OkIsAllowed(platform, h, def, os);
    OkIsAllowed(platform, h, def, visits);
    if AllAllowed(h, def, visits) {
      TypedIsLetters(h, def, os);
    }
  }

  lemma {:induction false} CountedGrade(h: Heap, os: seq<Occurrence>)
    ensures GradeErrors(After(h, NOTHING, os)) == [] <==>
            && NotesPaired(Collect(Notes(h, "footnoteReference"), os), Collect(Notes(h, "footnoteDefinition"), os))
            && |Collect(ContentsTables(h), os)| <= 1
    ensures forall p | p in GradeErrors(After(h, NOTHING, os)) :: !IsShapeCode(p.code)
  {
    var references := Collect(Notes(h, "footnoteReference"), os);
    var definitions := Collect(Notes(h, "footnoteDefinition"), os);
    var tables := |Collect(ContentsTables(h), os)|;
    assert After(h, NOTHING, os)
        == Counts(IncrementAll(NO_NOTES, references), IncrementAll(NO_NOTES, definitions), tables);
    GradeDecided(references, definitions, tables);
    PairsDecided(references, definitions, tables);
    hide GradeErrors, After, Collect, IncrementAll, NotesPaired, Notes, ContentsTables;
  }

  lemma {:induction false} OkIsAllowed(platform: Platform, h: Heap, def: Definition, os: seq<Occurrence>)
    ensures (forall o | o in os :: NodeOk(platform, h, def, o)) ==> AllAllowed(h, def, os)
  {
  }

  lemma {:induction false} TypedIsLetters(h: Heap, def: Definition, os: seq<Occurrence>)
    requires AllAllowed(h, def, os)
    ensures Collect(Typed(h, def), os) == Collect(Letters(h), os)
  {
    CollectSame(Typed(h, def), Letters(h), os);
  }

  lemma {:induction false} OccurrencesShaped(h: Heap, v: Value, s: Shape, path: Path, parent: Option<string>)
    requires Unfolds(h, v, s) && AllShaped(h, v, s)
    ensures forall o | o in Occurrences(h, v, s, path, parent) :: WellShaped(h, o.node)
    decreases s, 1, 0
  {
    OccurrencesInShaped(h, Children(h, v), s.children, |s.children|, path, KindOf(h, v));
  }

  lemma {:induction false} OccurrencesInShaped(h: Heap, kids: seq<Value>, ss: seq<Shape>, n: nat, path: Path,
      parent: Option<string>)
    requires AllUnfold(h, kids, ss) && n <= |ss|
    requires forall i | 0 <= i < |ss| :: AllShaped(h, kids[i], ss[i])
    ensures forall o | o in OccurrencesIn(h, kids, ss, n, path, parent) :: WellShaped(h, o.node)
    decreases ss, 0, n
  {
    if n > 0 {
      OccurrencesInShaped(h, kids, ss, n - 1, path, parent);
      OccurrencesShaped(h, kids[n - 1], ss[n - 1], ChildPath(path, n - 1), parent);
    }
  }

  lemma {:induction false} VisitsWithin(h: Heap, def: Definition, v: Value, s: Shape, path: Path,
      parent: Option<string>)
    requires Unfolds(h, v, s)
    ensures forall o | o in Visits(h, def, v, s, path, parent) :: o in Occurrences(h, v, s, path, parent)
    decreases s, 1, 0
  {
    VisitsInWithin(h, def, Children(h, v), s.children, |s.children|, path, KindOf(h, v));
  }

  lemma {:induction false} VisitsInWithin(h: Heap, def: Definition, kids: seq<Value>, ss: seq<Shape>, n: nat,
      path: Path, parent: Option<string>)
    requires AllUnfold(h, kids, ss) && n <= |ss|
    ensures forall o | o in VisitsIn(h, def, kids, ss, n, path, parent) ::
        o in OccurrencesIn(h, kids, ss, n, path, parent)
    decreases ss, 0, n
  {
    if n > 0 {
      VisitsInWithin(h, def, kids, ss, n - 1, path, parent);
      VisitsWithin(h, def, kids[n - 1], ss[n - 1], ChildPath(path, n - 1), parent);
    }
  }

  lemma {:induction false} InJoin<T>(a: seq<T>, b: seq<T>, c: seq<T>, d: seq<T>, x: T)
    ensures x in a + b + c + d + [] <==> x in a || x in b || x in c || x in d
  {
  }

  /** A well-shaped node has its type, and its content is no problem. */
  lemma {:induction false} LocalParts(platform: Platform, h: Heap, def: Definition, o: Occurrence)
    requires WellShaped(h, o.node)
    ensures IsRecord(h, o.node) && KindOf(h, o.node).Some?
    ensures var kind, marks := KindOf(h, o.node).value, ItemsOrNone(h, Get(h, o.node, "marks"));
      LocalProblems(platform, h, def, o) ==
      if kind !in def.allowedNodes then [Problem(o.path + [Field("type")], NodeNotAllowed)]
      else
        TextProblems(h, o.node, kind, o.path)
        + AttributeProblems(h, o.node, kind, o.path, def.headingLevels)
        + PlacementProblems(h, o.node, kind, o.path, o.parent)
        + MarkProblems(platform, h, marks, |marks|, o.path, def.allowedMarks)
        + []
  {
    hide TextOk, AttributeProblems, PlacementProblems, MarkProblems;
  }

  lemma {:induction false} LocalCodes(platform: Platform, h: Heap, def: Definition, o: Occurrence, p: Problem)
    requires WellShaped(h, o.node) && p in LocalProblems(platform, h, def, o)
    ensures !IsShapeCode(p.code)
  {
    LocalParts(platform, h, def, o);
    hide KindOf;
    var kind := KindOf(h, o.node).value;
    if kind in def.allowedNodes {
      var marks := ItemsOrNone(h, Get(h, o.node, "marks"));
      hide LocalProblems, Get, WellShaped, TextOk, AttributeProblems, MarkProblems, PlacedWell, FilledWell, ItemsOrNone;
      InJoin(TextProblems(h, o.node, kind, o.path), AttributeProblems(h, o.node, kind, o.path, def.headingLevels),
        PlacementProblems(h, o.node, kind, o.path, o.parent),
        MarkProblems(platform, h, marks, |marks|, o.path, def.allowedMarks), p);
    }
  }

  /** The shape branches of the recursive checks and the second node limit never fire. */
  lemma {:induction false} ShapeBranchesUnreachable(platform: Platform, h: Heap, def: Definition, content: Value,
      s: Shape)
    requires BoundedTree(h, content, s, def.maxNodes)
    ensures |Visits(h, def, content, s, ContentPath(), None)| <= def.maxNodes
    ensures forall p | p in SemanticErrors(platform, h, def, content, s) :: !IsShapeCode(p.code)
  {
    assert !IsShapeCode(CharacterLimit);
    hide Visits, Occurrences, AllShaped, HeightAtMost, Collect, Checker, Typed, GradeErrors, After, IsShapeCode,
        WellShaped;
    var visits := Visits(h, def, content, s, ContentPath(), None);
    var os := Occurrences(h, content, s, ContentPath(), None);
    OccurrencesCounted(h, def, content, s, ContentPath(), None);
    VisitsShaped(h, def, content, s);
    CheckedCodes(platform, h, def, visits);
    CountedGrade(h, os);
    var limit := Unless(|Collect(Typed(h, def), visits)| <= def.maxCharacters, ContentPath(), CharacterLimit);
    AllThree(Collect(Checker(platform, h, def), visits), GradeErrors(After(h, NOTHING, os)), limit);
  }

  lemma {:induction false} AllThree(a: seq<Problem>, b: seq<Problem>, c: seq<Problem>)
    requires forall p | p in a :: !IsShapeCode(p.code)
    requires forall p | p in b :: !IsShapeCode(p.code)
    requires forall p | p in c :: !IsShapeCode(p.code)
    ensures forall p | p in a + b + c :: !IsShapeCode(p.code)
  {
    hide IsShapeCode;
  }

  lemma {:induction false} VisitsShaped(h: Heap, def: Definition, content: Value, s: Shape)
    requires Unfolds(h, content, s) && AllShaped(h, content, s)
    ensures forall o | o in Visits(h, def, content, s, ContentPath(), None) :: WellShaped(h, o.node)
  {
    OccurrencesShaped(h, content, s, ContentPath(), None);
    VisitsWithin(h, def, content, s, ContentPath(), None);
    hide Visits, Occurrences, Unfolds, AllShaped, WellShaped;
  }

  lemma {:induction false} CheckedCodes(platform: Platform, h: Heap, def: Definition, os: seq<Occurrence>)
    requires forall o | o in os :: WellShaped(h, o.node)
    ensures forall p | p in Collect(Checker(platform, h, def), os) :: !IsShapeCode(p.code)
  {
    var check := Checker(platform, h, def);
    hide Collect, WellShaped, LocalProblems, IsShapeCode;
    forall p: Problem | p in Collect(check, os) ensures !IsShapeCode(p.code) {
      CollectMember(check, os, p);
      var o :| o in os && p in check(o);
      LocalCodes(platform, h, def, o, p);
    }
  }

  /** The whole validator.  It terminates on every heap and accepts exactly the acceptable
      documents; a structural rejection carries the guard's one error, and a rejected bounded tree
      carries exactly the semantic errors, none of them about shape. */
  method ValidateEditorDocument(platform: Platform, h: Heap, value: Value) returns (r: Verdict)
    ensures r.Valid? <==> Acceptable(platform, h, value)
    ensures r.Invalid? ==> r.errors != []
    ensures !IsRecord(h, value) ==> r == Invalid([Problem([], DocumentType)])
    ensures IsRecord(h, value) && HeaderProblems(h, value) != [] ==> r == Invalid(HeaderProblems(h, value))
    ensures IsRecord(h, value) && HeaderProblems(h, value) == [] ==>
              var content, def := Get(h, value, "content"), DefinitionOf(ProfileOf(h, value).value);
              && (Walk(h, content, ContentPath(), 0, 0, def.maxNodes).Failed? ==>
                    r == Invalid([Walk(h, content, ContentPath(), 0, 0, def.maxNodes).problem]))
              && (forall s | BoundedTree(h, content, s, def.maxNodes) ::
                    r == Judge(SemanticErrors(platform, h, def, content, s)))
  {
    if !IsRecord(h, value) {
      return Invalid([Problem([], DocumentType)]);
    }
    var errors: seq<Problem> := [];
    if !SchemaOk(h, value) {
      errors := errors + [Problem([Field("schemaVersion")], SchemaVersion)];
    }
    var profile := ProfileOf(h, value);
    if profile.None? {
      errors := errors + [Problem([Field("profile")], UnknownProfile)];
    }
    if !RootOk(h, value) {
      errors := errors + [Problem(ContentPath(), RootNode)];
    }
    if |errors| > 0 {
      return Invalid(errors);
    }
    r := ValidateBody(platform, h, DefinitionOf(profile.value), Get(h, value, "content"));
  }

  /** The validator from the structural check on. */
  method ValidateBody(platform: Platform, h: Heap, def: Definition, content: Value) returns (r: Verdict)
    ensures r.Valid? <==> exists s :: BodyOk(platform, h, def, content, s)
    ensures r.Invalid? ==> r.errors != []
    ensures Walk(h, content, ContentPath(), 0, 0, def.maxNodes).Failed? ==>
              r == Invalid([Walk(h, content, ContentPath(), 0, 0, def.maxNodes).problem])
    ensures forall s | BoundedTree(h, content, s, def.maxNodes) ::
              r == Judge(SemanticErrors(platform, h, def, content, s))
  {
    hide Walk, SemanticErrors, Visits, Unfolds, AllShaped, HeightAtMost, Size;
    var structureError, _, _ := ValidateDocumentStructure(h, content, def.maxNodes);
    AcceptsExactlyBoundedTrees(h, content, def.maxNodes);
    if structureError.Some? {
      return Invalid([structureError.value]);
    }
    ghost var s := WalkUnfolds(h, content, ContentPath(), 0, 0, def.maxNodes);
    OneBody(platform, h, def, content, s);
    var report := SemanticChecks(platform, h, def, content, s);
    var errors := report.problems;
    if report.nodes > def.maxNodes {
      errors := errors + [Problem(ContentPath(), NodeLimit)];
    }
    r := Judge(errors);
  }

  /** The two recursive traversals and the character budget. */
  method SemanticChecks(platform: Platform, h: Heap, def: Definition, content: Value, ghost s: Shape)
      returns (report: Report)
    requires Unfolds(h, content, s) && AllShaped(h, content, s)
    ensures fresh(report)
    ensures report.nodes == |Visits(h, def, content, s, ContentPath(), None)|
    ensures report.problems == SemanticErrors(platform, h, def, content, s)
  {
    hide Visits, Occurrences, AllShaped;
    ghost var visits := Visits(h, def, content, s, ContentPath(), None);
    report := new Report();
    ValidateNode(platform, h, def, content, s, ContentPath(), None, report);
    assert report.problems == Collect(Checker(platform, h, def), visits);
    ValidateDocumentGradeInvariants(h, content, s, report);
    if report.characters > def.maxCharacters {
      report.problems := report.problems + [Problem(ContentPath(), CharacterLimit)];
    }
  }

  /** The unfolding is unique, so verdicts over it speak of the document itself. */
  lemma {:induction false} OneBody(platform: Platform, h: Heap, def: Definition, content: Value, s: Shape)
    requires BoundedTree(h, content, s, def.maxNodes)
    ensures forall t | BoundedTree(h, content, t, def.maxNodes) :: t == s
    ensures (exists t :: BodyOk(platform, h, def, content, t)) <==> SemanticErrors(platform, h, def, content, s) == []
    ensures |Visits(h, def, content, s, ContentPath(), None)| <= def.maxNodes
  {
    forall t | BoundedTree(h, content, t, def.maxNodes) ensures t == s {
      UnfoldingUnique(h, content, s, t);
    }
    SemanticDecided(platform, h, def, content, s);
    ShapeBranchesUnreachable(platform, h, def, content, s);
  }
}
