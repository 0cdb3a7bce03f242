/** The rules of the validator spelled out on the raw fields, apart from the functions that apply them:
    which errors a node gets, what an accepted document looks like, and what single documents show. */
module ValidationRules {
  import opened Options
  import opened Utf16
  import opened JsonHeap
  import opened DocumentStructure
  import opened DocumentValidation
  import opened EditorProfiles

  // ------------------------------------------------------------------ the errors of one node

  predicate AllHex(s: string) {
    forall c | c in s :: '0' <= c <= '9' || 'a' <= c <= 'f' || 'A' <= c <= 'F'
  }

  /** Five groups of hexadecimal digits, a version from 1 to 8 and a variant from 8 to b. */
  predicate UuidGroups(s: string, a: string, b: string, c: string, d: string, e: string) {
    && s == a + "-" + b + "-" + c + "-" + d + "-" + e
    && |a| == 8 && |b| == 4 && |c| == 4 && |d| == 4 && |e| == 12
    && AllHex(a) && AllHex(b) && AllHex(c) && AllHex(d) && AllHex(e)
    && c[0] in "12345678" && d[0] in "89abAB"
  }

  predicate UuidText(v: Value) {
    v.Text? && |v.s| == 36 && UuidGroups(v.s, v.s[..8], v.s[9..13], v.s[14..18], v.s[19..23], v.s[24..])
  }

  predicate NoteText(v: Value) {
    && v.Text? && 1 <= |v.s| <= 64 && v.s[0] !in "_-"
    && forall c | c in v.s :: '0' <= c <= '9' || 'a' <= c <= 'z' || 'A' <= c <= 'Z' || c == '_' || c == '-'
  }

  /** A text of so many UTF-16 units; the empty one where there is no text. */
  predicate UnitsBetween(v: Value, min: nat, max: nat) {
    min <= (if v.Text? then |CodeUnits(v.s)| else 0) <= max
  }

  /** Which attribute of which node must be a UUID. */
  predicate NeedsUuid(kind: string, key: string) {
    || (kind == "mention" && key == "userId")
    || (kind in {"mediaReference", "attachment"} && key == "mediaId")
    || (kind == "contentGate" && key == "gateId")
  }

  /** An attribute that is too short or too long. */
  predicate BadLength(h: Heap, v: Value, kind: string, key: string) {
    var a := Attr(h, v, key);
    || (kind == "mention" && key == "username" && !UnitsBetween(a, 1, 32))
    || (kind == "attachment" && key == "label" && !UnitsBetween(a, 1, 255))
    || (kind == "mediaReference" && key == "alt" && a != Undefined && !(a.Text? && UnitsBetween(a, 0, 500)))
    || (kind == "mediaReference" && key == "caption" && a != Undefined && !(a.Text? && UnitsBetween(a, 0, 1000)))
  }

  predicate Language(v: Value) {
    v.Text? && v.s in ["plaintext", "bash", "css", "graphql", "html", "javascript", "json", "jsx", "markdown", "prisma",
                       "python", "sql", "tsx", "typescript", "yaml"]
  }

  /** The error an attribute calls for. */
  ghost predicate AttributeFault(h: Heap, levels: seq<int>, v: Value, kind: string, key: string, code: Code) {
    var a := Attr(h, v, key);
    match code
    case TextAlignment => key == "textAlign" && kind in {"paragraph", "heading"}
                          && a != Undefined && a != Text("left") && a != Text("center")
    case HeadingLevel => key == "level" && kind == "heading" && forall l | l in levels :: a != Number(l as real)
    case CodeLanguage => key == "language" && kind == "codeBlock" && !Language(a)
    case UuidRequired => NeedsUuid(kind, key) && !UuidText(a)
    case StringLength => BadLength(h, v, kind, key)
    case TaskChecked => key == "checked" && kind == "taskItem" && !a.Bool?
    case FootnoteId => key == "noteId" && kind in {"footnoteReference", "footnoteDefinition"} && !NoteText(a)
    case _ => false
  }

  /** A document-grade node under a parent it may not have; the root has none. */
  predicate Misplaced(kind: string, parent: string) {
    || (kind in {"table", "taskList"}
        && parent !in {"doc", "contentGate", "listItem", "taskItem", "footnoteDefinition"})
    || (kind == "tableRow" && parent != "table")
    || (kind in {"tableHeader", "tableCell"} && parent != "tableRow")
    || (kind == "taskItem" && parent != "taskList")
    || (kind == "footnoteReference" && parent !in {"paragraph", "heading"})
    || (kind in {"footnoteDefinition", "tableOfContents"} && parent !in {"doc", "contentGate"})
  }

  predicate NeedsContent(kind: string) {
    kind in {"table", "tableRow", "tableHeader", "tableCell", "taskList", "taskItem", "footnoteDefinition"}
  }

  /** A link that begins with a slash or has one of three protocols; what cannot be parsed is no link. */
  predicate Link(platform: Platform, v: Value) {
    && v.Text? && platform.protocol(v.s).Some?
    && ((|v.s| > 0 && v.s[0] == '/') || platform.protocol(v.s).value in {"https:", "http:", "mailto:"})
  }

  predicate MarkFault(platform: Platform, h: Heap, mark: Value, allowed: seq<string>, code: Code) {
    var known := IsRecord(h, mark) && Get(h, mark, "type").Text? && Get(h, mark, "type").s in allowed;
    match code
    case MarkNotAllowed => !known
    case LinkUrl => known && Get(h, mark, "type") == Text("link") && !Link(platform, Attr(h, mark, "href"))
    case _ => false
  }

  predicate TextFault(kind: string, text: Value, path: Path, p: Problem) {
    || (p == Problem(path + [Field("text")], TextRequired) && kind == "text" && (!text.Text? || text == Text("")))
    || (p == Problem(path + [Field("text")], UnexpectedText) && kind != "text" && text != Undefined)
  }

  predicate PlacementFault(h: Heap, kind: string, content: Value, parent: Option<string>, path: Path, p: Problem)
    requires content == Undefined || IsArray(h, content)
  {
    || (p == Problem(path, NodePlacement) && Misplaced(kind, if parent.Some? then parent.value else ""))
    || (p == Problem(path, NodeContent) && NeedsContent(kind) && (content == Undefined || Items(h, content) == []))
  }

  ghost predicate FaultAt(h: Heap, levels: seq<int>, v: Value, kind: string, path: Path, key: string, p: Problem) {
    p.path == path + [Field("attrs"), Field(key)] && AttributeFault(h, levels, v, kind, key, p.code)
  }

  /** Exactly which errors a node that the guard has let through gets, and where. */
  ghost predicate Faulty(platform: Platform, h: Heap, def: Definition, o: Occurrence, p: Problem)
    requires WellShaped(h, o.node)
  {
    var kind, marks := Get(h, o.node, "type").s, ItemsOrNone(h, Get(h, o.node, "marks"));
    if kind !in def.allowedNodes then p == Problem(o.path + [Field("type")], NodeNotAllowed)
    else
      || TextFault(kind, Get(h, o.node, "text"), o.path, p)
      || (exists key :: FaultAt(h, def.headingLevels, o.node, kind, o.path, key, p))
      || PlacementFault(h, kind, Get(h, o.node, "content"), o.parent, o.path, p)
      || (exists i: nat :: i < |marks| && MarkFaultAt(platform, h, def, o.path, marks, i, p))
  }

  predicate MarkFaultAt(platform: Platform, h: Heap, def: Definition, path: Path, marks: seq<Value>, i: nat, p: Problem)
    requires i < |marks|
  {
    && MarkFault(platform, h, marks[i], def.allowedMarks, p.code)
    && p.path == path + [Field("marks"), Index(i)]
       + if p.code.LinkUrl? then [Field("attrs"), Field("href")] else []
  }

  // ------------------------------------------------------------------ the functions agree

  lemma {:induction false} LanguagesAgree(h: Heap, v: Value)
    ensures StringAttr(h, v, "language") in CODE_LANGUAGES <==> Language(Attr(h, v, "language"))
  {
    hide Attr;
    assert |""| == 0 && forall l | l in CODE_LANGUAGES :: |l| > 0;
  }

  lemma {:induction false} UuidsAgree(h: Heap, v: Value, key: string)
    ensures IsUuid(StringAttr(h, v, key)) <==> UuidText(Attr(h, v, key))
  {
    var a := Attr(h, v, key);
    if a.Text? && |a.s| == 36 {
      var s := a.s;
      if IsUuid(s) {
        assert s == s[..8] + "-" + s[9..13] + "-" + s[14..18] + "-" + s[19..23] + "-" + s[24..];
      }
      if UuidText(a) {
        var x := s[..8] + "-" + s[9..13] + "-" + s[14..18] + "-" + s[19..23] + "-" + s[24..];
        assert x[8] == x[13] == x[18] == x[23] == '-';
        forall i | 0 <= i < 36 && i !in {8, 13, 18, 23} ensures IsHex(s[i]) {
          HexAt(s, i);
        }
      }
    }
  }

  lemma {:induction false} HexAt(s: string, i: nat)
    requires |s| == 36 && i < 36 && i !in {8, 13, 18, 23}
    requires AllHex(s[..8]) && AllHex(s[9..13]) && AllHex(s[14..18]) && AllHex(s[19..23]) && AllHex(s[24..])
    ensures IsHex(s[i])
  {
    assert i < 8 ==> s[i] in s[..8];
    assert 9 <= i < 13 ==> s[i] in s[9..13];
    assert 14 <= i < 18 ==> s[i] in s[14..18];
    assert 19 <= i < 23 ==> s[i] in s[19..23];
    assert 24 <= i ==> s[i] in s[24..];
  }

  lemma {:induction false} NotesAgree(h: Heap, v: Value, key: string)
    ensures IsFootnoteId(StringAttr(h, v, key)) <==> NoteText(Attr(h, v, key))
  {
    var a := Attr(h, v, key);
    if a.Text? && NoteText(a) {
      assert forall i | 0 <= i < |a.s| :: a.s[i] in a.s;
    }
  }

  lemma {:induction false} LevelsAgree(h: Heap, v: Value, levels: seq<int>)
    ensures LevelOk(h, v, levels) <==> exists l :: l in levels && Attr(h, v, "level") == Number(l as real)
  {
  }

  lemma {:induction false} InUnless(ok: bool, path: Path, code: Code, p: Problem)
    ensures p in Unless(ok, path, code) <==> !ok && p == Problem(path, code)
  {
  }

  /** One attribute rule: the error appears exactly when it is called for. */
  lemma {:induction false} RuleAgrees(h: Heap, levels: seq<int>, v: Value, kind: string, path: Path, key: string,
      code: Code, ok: bool, p: Problem)
    requires ok <==> !AttributeFault(h, levels, v, kind, key, code)
    ensures p in Unless(ok, AttrPath(path, key), code) <==> p.code == code && FaultAt(h, levels, v, kind, path, key, p)
  {
    hide AttributeFault;
    InUnless(ok, AttrPath(path, key), code, p);
  }

  lemma {:induction false} InlineAgrees(h: Heap, levels: seq<int>, v: Value, kind: string, path: Path, p: Problem)
    ensures p in InlineProblems(h, v, kind, path, levels) <==>
            || (p.code == TextAlignment && FaultAt(h, levels, v, kind, path, "textAlign", p))
            || (p.code == HeadingLevel && FaultAt(h, levels, v, kind, path, "level", p))
            || (p.code == CodeLanguage && FaultAt(h, levels, v, kind, path, "language", p))
            || (p.code == UuidRequired && FaultAt(h, levels, v, kind, path, "userId", p))
            || (p.code == StringLength && FaultAt(h, levels, v, kind, path, "username", p))
  {
    BlockRules(h, levels, v, kind);
    MentionRules(h, levels, v, kind);
    hide FaultAt, AttributeFault, AttrPath, Attr, IsUuid, AlignmentOk, LevelOk, TextWithin, StringAttr;
    RuleAgrees(h, levels, v, kind, path, "textAlign", TextAlignment, kind in ["paragraph", "heading"] ==>
        AlignmentOk(h, v), p);
    RuleAgrees(h, levels, v, kind, path, "level", HeadingLevel, kind == "heading" ==> LevelOk(h, v, levels), p);
    RuleAgrees(h, levels, v, kind, path, "language", CodeLanguage,
      kind == "codeBlock" ==> StringAttr(h, v, "language") in CODE_LANGUAGES, p);
    RuleAgrees(h, levels, v, kind, path, "userId", UuidRequired, kind == "mention" ==>
        IsUuid(StringAttr(h, v, "userId")), p);
    RuleAgrees(h, levels, v, kind, path, "username", StringLength,
      kind == "mention" ==> TextWithin(StringAttr(h, v, "username"), 1, 32), p);
  }

  lemma {:induction false} BlockRules(h: Heap, levels: seq<int>, v: Value, kind: string)
    ensures AttributeFault(h, levels, v, kind, "textAlign", TextAlignment)
       <==> !(kind in ["paragraph", "heading"] ==> AlignmentOk(h, v))
    ensures AttributeFault(h, levels, v, kind, "level", HeadingLevel)
        <==> !(kind == "heading" ==> LevelOk(h, v, levels))
    ensures AttributeFault(h, levels, v, kind, "language", CodeLanguage)
       <==> !(kind == "codeBlock" ==> StringAttr(h, v, "language") in CODE_LANGUAGES)
  {
    LevelsAgree(h, v, levels);
    LanguagesAgree(h, v);
    hide LevelOk, Attr, StringAttr, Language, CODE_LANGUAGES;
  }

  lemma {:induction false} MentionRules(h: Heap, levels: seq<int>, v: Value, kind: string)
    ensures AttributeFault(h, levels, v, kind, "userId", UuidRequired)
       <==> !(kind == "mention" ==> IsUuid(StringAttr(h, v, "userId")))
    ensures AttributeFault(h, levels, v, kind, "username", StringLength)
       <==> !(kind == "mention" ==> TextWithin(StringAttr(h, v, "username"), 1, 32))
  {
    UuidsAgree(h, v, "userId");
    assert CodeUnits("") == [];
    hide UuidText, IsUuid, CodeUnits, Attr;
  }

  lemma {:induction false} MediaRules(h: Heap, levels: seq<int>, v: Value, kind: string)
    ensures AttributeFault(h, levels, v, kind, "mediaId", UuidRequired)
       <==> !(kind in ["mediaReference", "attachment"] ==> IsUuid(StringAttr(h, v, "mediaId")))
    ensures AttributeFault(h, levels, v, kind, "label", StringLength)
       <==> !(kind == "attachment" ==> TextWithin(StringAttr(h, v, "label"), 1, 255))
  {
    UuidsAgree(h, v, "mediaId");
    assert CodeUnits("") == [];
    hide UuidText, IsUuid, CodeUnits, Attr;
  }

  lemma {:induction false} CaptionRules(h: Heap, levels: seq<int>, v: Value, kind: string)
    ensures AttributeFault(h, levels, v, kind, "alt", StringLength)
       <==> !(kind == "mediaReference" ==> OptionalTextWithin(Attr(h, v, "alt"), 500))
    ensures AttributeFault(h, levels, v, kind, "caption", StringLength)
       <==> !(kind == "mediaReference" ==> OptionalTextWithin(Attr(h, v, "caption"), 1000))
  {
    hide CodeUnits, Attr;
  }

  lemma {:induction false} DocumentRules(h: Heap, levels: seq<int>, v: Value, kind: string)
    ensures AttributeFault(h, levels, v, kind, "gateId", UuidRequired)
       <==> !(kind == "contentGate" ==> IsUuid(StringAttr(h, v, "gateId")))
    ensures AttributeFault(h, levels, v, kind, "checked", TaskChecked)
       <==> !(kind == "taskItem" ==> Attr(h, v, "checked").Bool?)
    ensures AttributeFault(h, levels, v, kind, "noteId", FootnoteId)
       <==> !(kind in ["footnoteReference", "footnoteDefinition"] ==> IsFootnoteId(StringAttr(h, v, "noteId")))
  {
    UuidsAgree(h, v, "gateId");
    NotesAgree(h, v, "noteId");
    hide UuidText, IsUuid, NoteText, IsFootnoteId, Attr, StringAttr;
  }

  lemma {:induction false} MediaAgrees(h: Heap, levels: seq<int>, v: Value, kind: string, path: Path, p: Problem)
    ensures p in MediaProblems(h, v, kind, path) <==>
            || (p.code == UuidRequired && FaultAt(h, levels, v, kind, path, "mediaId", p))
            || (p.code == StringLength && FaultAt(h, levels, v, kind, path, "alt", p))
            || (p.code == StringLength && FaultAt(h, levels, v, kind, path, "caption", p))
            || (p.code == StringLength && FaultAt(h, levels, v, kind, path, "label", p))
  {
    MediaRules(h, levels, v, kind);
    CaptionRules(h, levels, v, kind);
    hide FaultAt, AttributeFault, AttrPath, Attr, IsUuid, TextWithin, OptionalTextWithin, StringAttr;
    RuleAgrees(h, levels, v, kind, path, "mediaId", UuidRequired,
      kind in ["mediaReference", "attachment"] ==> IsUuid(StringAttr(h, v, "mediaId")), p);
    RuleAgrees(h, levels, v, kind, path, "alt", StringLength,
      kind == "mediaReference" ==> OptionalTextWithin(Attr(h, v, "alt"), 500), p);
    RuleAgrees(h, levels, v, kind, path, "caption", StringLength,
      kind == "mediaReference" ==> OptionalTextWithin(Attr(h, v, "caption"), 1000), p);
    RuleAgrees(h, levels, v, kind, path, "label", StringLength,
      kind == "attachment" ==> TextWithin(StringAttr(h, v, "label"), 1, 255), p);
  }

  lemma {:induction false} GradeAgrees(h: Heap, levels: seq<int>, v: Value, kind: string, path: Path, p: Problem)
    ensures p in GradeProblems(h, v, kind, path) <==>
            || (p.code == UuidRequired && FaultAt(h, levels, v, kind, path, "gateId", p))
            || (p.code == TaskChecked && FaultAt(h, levels, v, kind, path, "checked", p))
            || (p.code == FootnoteId && FaultAt(h, levels, v, kind, path, "noteId", p))
  {
    DocumentRules(h, levels, v, kind);
    hide FaultAt, AttributeFault, AttrPath, Attr, IsUuid, IsFootnoteId, StringAttr;
    RuleAgrees(h, levels, v, kind, path, "gateId", UuidRequired, kind == "contentGate" ==>
        IsUuid(StringAttr(h, v, "gateId")), p);
    RuleAgrees(h, levels, v, kind, path, "checked", TaskChecked, kind == "taskItem" ==> Attr(h, v, "checked").Bool?, p);
    RuleAgrees(h, levels, v, kind, path, "noteId", FootnoteId,
      kind in ["footnoteReference", "footnoteDefinition"] ==> IsFootnoteId(StringAttr(h, v, "noteId")), p);
  }

  /** The attribute checks report exactly the faults there are. */
  lemma {:induction false} AttributesAgree(h: Heap, levels: seq<int>, v: Value, kind: string, path: Path, p: Problem)
    ensures p in AttributeProblems(h, v, kind, path, levels) <==> exists key ::
        FaultAt(h, levels, v, kind, path, key, p)
  {
    InlineAgrees(h, levels, v, kind, path, p);
    MediaAgrees(h, levels, v, kind, path, p);
    GradeAgrees(h, levels, v, kind, path, p);
    hide InlineProblems, MediaProblems, GradeProblems;
    if key :| FaultAt(h, levels, v, kind, path, key, p) {
      FaultKeys(h, levels, v, kind, key, p.code);
      hide FaultAt, AttributeFault;
    } else {
      hide FaultAt, AttributeFault;
    }
  }

  /** Which attribute an error can be about. */
  lemma {:induction false} FaultKeys(h: Heap, levels: seq<int>, v: Value, kind: string, key: string, code: Code)
    requires AttributeFault(h, levels, v, kind, key, code)
    ensures (code == TextAlignment && key == "textAlign") || (code == HeadingLevel && key == "level")
         || (code == CodeLanguage && key == "language")
         || (code == UuidRequired && key in ["userId", "gateId", "mediaId"])
         || (code == StringLength && key in ["username", "alt", "caption", "label"])
         || (code == TaskChecked && key == "checked") || (code == FootnoteId && key == "noteId")
  {
    hide UuidText, NoteText, CodeUnits, Language;
  }

  lemma {:induction false} MarkAgrees(platform: Platform, h: Heap, mark: Value, path: Path, allowed: seq<string>,
      p: Problem)
    ensures p in MarkProblemsAt(platform, h, mark, path, allowed) <==>
            && MarkFault(platform, h, mark, allowed, p.code)
            && p.path == path + if p.code.LinkUrl? then [Field("attrs"), Field("href")] else []
  {
    assert path + [] == path;
  }

  lemma {:induction false} MarksAgree(platform: Platform, h: Heap, def: Definition, marks: seq<Value>, n: nat,
      path: Path, p: Problem)
    requires n <= |marks|
    ensures p in MarkProblems(platform, h, marks, n, path, def.allowedMarks) <==>
            exists i: nat :: i < n && MarkFaultAt(platform, h, def, path, marks, i, p)
  {
    hide MarkFault, MarkProblemsAt, MarkOk;
    if n > 0 {
      MarksAgree(platform, h, def, marks, n - 1, path, p);
      MarkAgrees(platform, h, marks[n - 1], MarkPath(path, n - 1), def.allowedMarks, p);
      assert p in MarkProblems(platform, h, marks, n, path, def.allowedMarks) <==>
        p in MarkProblems(platform, h, marks, n - 1, path, def.allowedMarks)
        || p in MarkProblemsAt(platform, h, marks[n - 1], MarkPath(path, n - 1), def.allowedMarks);
      assert MarkFaultAt(platform, h, def, path, marks, n - 1, p) <==>
        p in MarkProblemsAt(platform, h, marks[n - 1], MarkPath(path, n - 1), def.allowedMarks);
      hide MarkFaultAt, MarkProblems;
      if i: nat :| i < n && MarkFaultAt(platform, h, def, path, marks, i, p) {
        assert i == n - 1 || i < n - 1;
      }
    }
  }

  /** The recursive check reports exactly the faults of a node, each where it is. */
  lemma {:induction false} LocalErrorsExactly(platform: Platform, h: Heap, def: Definition, o: Occurrence, p: Problem)
    requires WellShaped(h, o.node)
    ensures p in LocalProblems(platform, h, def, o) <==> Faulty(platform, h, def, o, p)
  {
    LocalParts(platform, h, def, o);
    var kind := Get(h, o.node, "type").s;
    var marks := ItemsOrNone(h, Get(h, o.node, "marks"));
    if kind in def.allowedNodes {
      InJoin(TextProblems(h, o.node, kind, o.path), AttributeProblems(h, o.node, kind, o.path, def.headingLevels),
        PlacementProblems(h, o.node, kind, o.path, o.parent),
        MarkProblems(platform, h, marks, |marks|, o.path, def.allowedMarks), p);
      AttributesAgree(h, def.headingLevels, o.node, kind, o.path, p);
      MarksAgree(platform, h, def, marks, |marks|, o.path, p);
      PlacementAgrees(h, o.node, kind, o.path, o.parent, p);
      InUnless(TextOk(h, o.node, kind), o.path + [Field("text")], if kind == "text" then TextRequired
          else UnexpectedText, p);
      hide LocalProblems, AttributeProblems, PlacementProblems, PlacementFault, MarkProblems, FaultAt, MarkFaultAt;
      hide ItemsOrNone, WellShaped;
    }
  }

  lemma {:induction false} PlacementAgrees(h: Heap, v: Value, kind: string, path: Path, parent: Option<string>,
      p: Problem)
    requires WellShaped(h, v)
    ensures p in PlacementProblems(h, v, kind, path, parent)
        <==> PlacementFault(h, kind, Get(h, v, "content"), parent, path, p)
  {
  }

  // ------------------------------------------------------------------ whole documents

  lemma {:induction false} CollectedExactly<T>(f: Occurrence -> seq<T>, os: seq<Occurrence>, x: T)
    ensures x in Collect(f, os) <==> exists o :: o in os && x in f(o)
  {
    if os != [] {
      var last := |os| - 1;
      CollectedExactly(f, os[..last], x);
      assert os[last] in os && forall o :: o in os <==> o in os[..last] || o == os[last];
    }
  }

  ghost predicate FaultAmong(platform: Platform, h: Heap, def: Definition, os: seq<Occurrence>, p: Problem) {
    exists o :: o in os && WellShaped(h, o.node) && Faulty(platform, h, def, o, p)
  }

  /** A note id that is not referred to exactly once or not defined exactly once. */
  predicate Unpaired(references: seq<string>, definitions: seq<string>, p: Problem) {
    && p.code.FootnotePair? && p.path == [Field("content")] && p.code.noteId in references + definitions
    && (multiset(references)[p.code.noteId] != 1 || multiset(definitions)[p.code.noteId] != 1)
  }

  /** The note ids of one kind of node, the places of tables of contents and the typed text, per node. */
  function NoteIds(h: Heap, kind: string): Occurrence -> seq<string> {
    (o: Occurrence) =>
      if IsRecord(h, o.node) && Get(h, o.node, "type") == Text(kind) then
        [if Attr(h, o.node, "noteId").Text? then Attr(h, o.node, "noteId").s else ""]
      else []
  }

  function TablePlaces(h: Heap): Occurrence -> seq<Path> {
    (o: Occurrence) =>
      if IsRecord(h, o.node) && Get(h, o.node, "type") == Text("tableOfContents") then [o.path] else []
  }

  function TypedUnits(h: Heap, def: Definition): Occurrence -> seq<CodeUnit> {
    (o: Occurrence) =>
      if IsRecord(h, o.node) && Get(h, o.node, "type") == Text("text") && "text" in def.allowedNodes
         && Get(h, o.node, "text").Text?
      then CodeUnits(Get(h, o.node, "text").s) else []
  }

  lemma {:induction false} SameLists(h: Heap, def: Definition, os: seq<Occurrence>)
    ensures Collect(NoteIds(h, "footnoteReference"), os) == Collect(Notes(h, "footnoteReference"), os)
    ensures Collect(NoteIds(h, "footnoteDefinition"), os) == Collect(Notes(h, "footnoteDefinition"), os)
    ensures Collect(TablePlaces(h), os) == Collect(ContentsTables(h), os)
    ensures Collect(TypedUnits(h, def), os) == Collect(Typed(h, def), os)
  {
    hide Collect, CodeUnits, Attr;
    CollectSame(NoteIds(h, "footnoteReference"), Notes(h, "footnoteReference"), os);
    CollectSame(NoteIds(h, "footnoteDefinition"), Notes(h, "footnoteDefinition"), os);
    CollectSame(TablePlaces(h), ContentsTables(h), os);
    CollectSame(TypedUnits(h, def), Typed(h, def), os);
  }

  /** After the guard exactly these errors are reported: the faults of the nodes the profile lets the check
      reach, one for each unpaired note, one for a second table of contents, one for too much text. */
  lemma {:induction false} ErrorsExactly(platform: Platform, h: Heap, def: Definition, content: Value, s: Shape,
      p: Problem)
    requires BoundedTree(h, content, s, def.maxNodes)
    ensures
      var os := Occurrences(h, content, s, ContentPath(), None);
      var visits := Visits(h, def, content, s, ContentPath(), None);
      p in SemanticErrors(platform, h, def, content, s) <==>
      || FaultAmong(platform, h, def, visits, p)
      || Unpaired(Collect(NoteIds(h, "footnoteReference"), os), Collect(NoteIds(h, "footnoteDefinition"), os), p)
      || (p == Problem([Field("content")], TableOfContentsLimit) && |Collect(TablePlaces(h), os)| > 1)
      || (p == Problem([Field("content")], CharacterLimit) && |Collect(TypedUnits(h, def), visits)| > def.maxCharacters)
  {
    var os := Occurrences(h, content, s, ContentPath(), None);
    var visits := Visits(h, def, content, s, ContentPath(), None);
    VisitsShaped(h, def, content, s);
    hide BoundedTree, Visits, Occurrences, WellShaped, Unfolds, AllShaped, LocalProblems, Faulty;
    SameLists(h, def, os);
    SameLists(h, def, visits);
    FaultsCollected(platform, h, def, visits, p);
    GradeExactly(h, os, p);
    InUnless(|Collect(Typed(h, def), visits)| <= def.maxCharacters, ContentPath(), CharacterLimit, p);
    InThree(Collect(Checker(platform, h, def), visits), GradeErrors(After(h, NOTHING, os)),
      Unless(|Collect(Typed(h, def), visits)| <= def.maxCharacters, ContentPath(), CharacterLimit), p);
    hide Collect, Typed, Checker, GradeErrors, After, FaultAmong, Unpaired;
  }

  lemma {:induction false} InThree<T>(a: seq<T>, b: seq<T>, c: seq<T>, x: T)
    ensures x in a + b + c <==> x in a || x in b || x in c
  {
  }

  lemma {:induction false} FaultsCollected(platform: Platform, h: Heap, def: Definition, os: seq<Occurrence>,
      p: Problem)
    requires forall o | o in os :: WellShaped(h, o.node)
    ensures p in Collect(Checker(platform, h, def), os) <==> FaultAmong(platform, h, def, os, p)
  {
    hide WellShaped, LocalProblems, Faulty, Collect;
    CollectedExactly(Checker(platform, h, def), os, p);
    forall o | o in os ensures p in Checker(platform, h, def)(o) <==> Faulty(platform, h, def, o, p) {
      LocalErrorsExactly(platform, h, def, o, p);
    }
  }

  lemma {:induction false} GradeExactly(h: Heap, os: seq<Occurrence>, p: Problem)
    ensures p in GradeErrors(After(h, NOTHING, os)) <==>
      || Unpaired(Collect(Notes(h, "footnoteReference"), os), Collect(Notes(h, "footnoteDefinition"), os), p)
      || (p == Problem([Field("content")], TableOfContentsLimit) && |Collect(ContentsTables(h), os)| > 1)
  {
    var references := Collect(Notes(h, "footnoteReference"), os);
    var definitions := Collect(Notes(h, "footnoteDefinition"), os);
    var tables := |Collect(ContentsTables(h), os)|;
    assert After(h, NOTHING, os) == Counts(IncrementAll(NO_NOTES, references), IncrementAll(NO_NOTES, definitions),
        tables);
    hide GradeErrors, After, Collect, IncrementAll, Notes, ContentsTables, Unpaired;
    CountsExactly(references, definitions, tables, p);
  }

  lemma {:induction false} CountsExactly(references: seq<string>, definitions: seq<string>, tables: nat, p: Problem)
    ensures p in GradeErrors(Counts(IncrementAll(NO_NOTES, references), IncrementAll(NO_NOTES, definitions),
        tables)) <==>
      || Unpaired(references, definitions, p) || (p == Problem([Field("content")], TableOfContentsLimit) && tables > 1)
  {
    var errors := GradeErrors(Counts(IncrementAll(NO_NOTES, references), IncrementAll(NO_NOTES, definitions), tables));
    PairsDecided(references, definitions, tables);
    if p in errors {
      TablesExactly(Counts(IncrementAll(NO_NOTES, references), IncrementAll(NO_NOTES, definitions), tables), p);
    }
    hide GradeErrors, IncrementAll;
  }

  lemma {:induction false} TablesExactly(c: Counts, p: Problem)
    requires p in GradeErrors(c)
    ensures p.code.FootnotePair? || p == Problem([Field("content")], TableOfContentsLimit)
  {
    hide Distinct;
  }

  /** In an accepted document every link is a text that parses and begins with a slash or has one of
      three protocols. */
  lemma {:induction false} LinksAdmitted(platform: Platform, h: Heap, value: Value, s: Shape, o: Occurrence)
    requires Acceptable(platform, h, value)
    requires Unfolds(h, Get(h, value, "content"), s)
    requires o in Occurrences(h, Get(h, value, "content"), s, [Field("content")], None)
    ensures IsRecord(h, o.node)
    ensures forall m | m in ItemsOrNone(h, Get(h, o.node, "marks")) && IsRecord(h, m)
        && Get(h, m, "type") == Text("link") ::
      var href := Attr(h, m, "href");
      && href.Text? && platform.protocol(href.s).Some?
      && ((href.s != "" && href.s[0] == '/') || platform.protocol(href.s).value in {"https:", "http:", "mailto:"})
  {
    var content, def := Get(h, value, "content"), DefinitionOf(ProfileOf(h, value).value);
    hide Occurrences, Unfolds, DefinitionOf;
    var t :| BodyOk(platform, h, def, content, t);
    UnfoldingUnique(h, content, s, t);
    assert NodeOk(platform, h, def, o);
  }

  // ------------------------------------------------------------------ headers and profiles

  /** The three checks of the outermost fields. */
  lemma {:induction false} HeaderErrorsExactly(h: Heap, value: Value, p: Problem)
    requires IsRecord(h, value)
    ensures var profile, content := Get(h, value, "profile"), Get(h, value, "content");
      p in HeaderProblems(h, value) <==>
      || (p == Problem([Field("schemaVersion")], SchemaVersion) && Get(h, value, "schemaVersion") != Number(1.0))
      || (p == Problem([Field("profile")], UnknownProfile)
          && !(profile.Text? && profile.s in ["COMMENT", "FORUM_REPLY", "FORUM_TOPIC", "NEWS", "RESEARCH_ARTICLE",
              "WIKI",
                                              "MESSAGE", "ADMIN"]))
      || (p == Problem([Field("content")], RootNode)
          && !(IsRecord(h, content) && Get(h, content, "type") == Text("doc")))
  {
    NamesKnown(if Get(h, value, "profile").Text? then Get(h, value, "profile").s else "");
    InThree(Unless(SchemaOk(h, value), [Field("schemaVersion")], SchemaVersion),
      Unless(ProfileOf(h, value).Some?, [Field("profile")], UnknownProfile),
      Unless(RootOk(h, value), ContentPath(), RootNode), p);
    hide ParseProfile;
  }

  lemma {:induction false} NamesKnown(name: string)
    ensures ParseProfile(name).Some? <==> name in ["COMMENT", "FORUM_REPLY", "FORUM_TOPIC", "NEWS", "RESEARCH_ARTICLE",
                                                   "WIKI", "MESSAGE", "ADMIN"]
  {
  }

  /** Which kinds of node a profile knows. */
  predicate KindKnown(name: string, kind: string) {
    || kind in ["text", "hardBreak", "mention", "doc", "paragraph", "bulletList", "orderedList", "listItem",
      "blockquote",
                "codeBlock", "horizontalRule", "mediaReference", "attachment"]
    || (kind in ["heading", "contentGate"] && name !in ["COMMENT", "MESSAGE", "FORUM_REPLY"])
    || (kind in ["table", "tableRow", "tableHeader", "tableCell", "taskList", "taskItem", "footnoteReference",
                 "footnoteDefinition", "tableOfContents"] && name in ["WIKI", "ADMIN"])
  }

  predicate LevelKnown(name: string, level: int) {
    name !in ["COMMENT", "MESSAGE", "FORUM_REPLY"] && (if name == "FORUM_TOPIC" then 2 else 1) <= level <= 4
  }

  function NodeBudget(name: string): nat {
    if name in ["COMMENT", "MESSAGE"] then 750
    else if name == "FORUM_REPLY" then 3000
    else if name == "FORUM_TOPIC" then 4000
    else if name == "NEWS" then 8000
    else if name == "RESEARCH_ARTICLE" then 12000
    else 15000
  }

  lemma {:induction false} ProfilesByName(name: string, kind: string, mark: string, level: int)
    requires ParseProfile(name).Some?
    ensures var def := DefinitionOf(ParseProfile(name).value);
      && (kind in def.allowedNodes <==> KindKnown(name, kind))
      && (mark in def.allowedMarks <==> mark in ["bold", "italic", "strike", "code", "link"])
      && (level in def.headingLevels <==> LevelKnown(name, level))
      && def.maxNodes == NodeBudget(name)
  {
    var p := ParseProfile(name).value;
    NameDecides(name);
    KindsOf(p, kind);
    hide ParseProfile;
  }

  lemma {:induction false} NameDecides(name: string)
    requires ParseProfile(name).Some?
    ensures var p := ParseProfile(name).value;
      && (p in {Comment, Message} <==> name in ["COMMENT", "MESSAGE"]) && (p == ForumReply <==> name == "FORUM_REPLY")
      && (p == ForumTopic <==> name == "FORUM_TOPIC") && (p == News <==> name == "NEWS")
      && (p == ResearchArticle <==> name == "RESEARCH_ARTICLE") && (p in {Wiki, Admin} <==> name in ["WIKI", "ADMIN"])
      && (name in ["COMMENT", "MESSAGE", "FORUM_REPLY"] <==> p in {Comment, Message, ForumReply})
  {
  }

  lemma {:induction false} KindsOf(p: Profile, kind: string)
    ensures kind in DefinitionOf(p).allowedNodes <==>
      || kind in INLINE_NODES || kind in BASIC_BLOCKS || kind in MEDIA_NODES
      || (kind in ["heading", "contentGate"] && p !in {Comment, Message, ForumReply})
      || (kind in DOCUMENT_NODES && p in {Wiki, Admin})
  {
    hide INLINE_NODES, BASIC_BLOCKS, MEDIA_NODES, DOCUMENT_NODES;
  }
}
