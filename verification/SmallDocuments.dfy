/** Documents of one text node: what the validator says of them, read off their fields. */
module SmallDocuments {
  import opened Options
  import opened Utf16
  import opened JsonHeap
  import opened DocumentStructure
  import opened DocumentValidation
  import opened EditorProfiles

  const ROOT := Reference(0)
  const LEAF := Reference(2)

  const ROOT_AT := Occurrence(ROOT, [Field("content")], None)
  const LEAF_AT := Occurrence(LEAF, [Field("content"), Field("content"), Index(0)], Some("doc"))

  /** A heap in which the root is a doc with one text node and nothing else. */
  predicate OneText(h: Heap, text: string) {
    && WellShaped(h, ROOT) && Get(h, ROOT, "type") == Text("doc") && Children(h, ROOT) == [LEAF]
    && WellShaped(h, LEAF) && Get(h, LEAF, "type") == Text("text") && Children(h, LEAF) == []
    && Get(h, LEAF, "text") == Text(text)
  }

  lemma {:induction false} OneTextNodes(h: Heap, text: string) returns (s: Shape)
    requires OneText(h, text)
    ensures Unfolds(h, ROOT, s) && AllShaped(h, ROOT, s) && HeightAtMost(s, 64) && Size(s) == 2
    ensures Occurrences(h, ROOT, s, ContentPath(), None) == [ROOT_AT, LEAF_AT]
  {
    var leaf := Shape([]);
    s := Shape([leaf]);
    assert AllUnfold(h, [LEAF], [leaf]) && AllUnfold(h, [], []);
    assert ChildPath(ContentPath(), 0) == LEAF_AT.path;
    assert Occurrences(h, LEAF, leaf, LEAF_AT.path, Some("doc")) == [LEAF_AT];
    assert [leaf][1..] == [] && SizeAll([leaf]) == Size(leaf) && Size(leaf) == 1;
    assert OccurrencesIn(h, [LEAF], [leaf], 0, ContentPath(), Some("doc")) == [];
  }

  lemma {:induction false} OneTextFolds(h: Heap, text: string)
    requires OneText(h, text)
    ensures Collect(Letters(h), [ROOT_AT, LEAF_AT]) == CodeUnits(text)
    ensures Collect(Notes(h, "footnoteReference"), [ROOT_AT, LEAF_AT]) == []
    ensures Collect(Notes(h, "footnoteDefinition"), [ROOT_AT, LEAF_AT]) == []
    ensures Collect(ContentsTables(h), [ROOT_AT, LEAF_AT]) == []
  {
    assert |"doc"| == 3 && |"text"| == 4 && |"footnoteReference"| > 4 && |"footnoteDefinition"| > 4
        && |"tableOfContents"| > 4;
    assert Letters(h)(ROOT_AT) == [] && Letters(h)(LEAF_AT) == CodeUnits(text);
    assert Notes(h, "footnoteReference")(ROOT_AT) == [] && Notes(h, "footnoteReference")(LEAF_AT) == [];
    assert Notes(h, "footnoteDefinition")(ROOT_AT) == [] && Notes(h, "footnoteDefinition")(LEAF_AT) == [];
    assert ContentsTables(h)(ROOT_AT) == [] && ContentsTables(h)(LEAF_AT) == [];
    hide OneText, Letters, Notes, ContentsTables;
    CollectPair(Letters(h), ROOT_AT, LEAF_AT);
    CollectPair(Notes(h, "footnoteReference"), ROOT_AT, LEAF_AT);
    CollectPair(Notes(h, "footnoteDefinition"), ROOT_AT, LEAF_AT);
    CollectPair(ContentsTables(h), ROOT_AT, LEAF_AT);
  }

  lemma {:induction false} CollectPair<T>(f: Occurrence -> seq<T>, a: Occurrence, b: Occurrence)
    ensures Collect(f, [a, b]) == f(a) + f(b)
  {
    assert [a, b] == [a] + [b];
    CollectJoin(f, [a], [b]);
    CollectOne(f, a);
    CollectOne(f, b);
  }

  lemma {:induction false} SmallEnough(p: Profile)
    ensures DefinitionOf(p).maxNodes >= 2
    ensures "doc" in DefinitionOf(p).allowedNodes && "text" in DefinitionOf(p).allowedNodes
  {
    assert "doc" in INLINE_NODES + BASIC_BLOCKS && "text" in INLINE_NODES + BASIC_BLOCKS;
  }

  /** Such a document is admitted exactly when its two nodes are and its text fits. */
  lemma {:induction false} OneTextAdmitted(platform: Platform, h: Heap, text: string, p: Profile)
    requires OneText(h, text)
    ensures AdmittedAs(platform, h, p, ROOT) <==>
            && NodeOk(platform, h, DefinitionOf(p), ROOT_AT) && NodeOk(platform, h, DefinitionOf(p), LEAF_AT)
            && |CodeUnits(text)| <= DefinitionOf(p).maxCharacters
  {
    var def := DefinitionOf(p);
    var s := OneTextNodes(h, text);
    SmallEnough(p);
    OneTextFolds(h, text);
    hide OneText, DefinitionOf, NodeOk, Occurrences, Unfolds, AllShaped, Letters, Notes, ContentsTables, Collect;
    assert NotesPaired([], []);
    if NodeOk(platform, h, def, ROOT_AT) && NodeOk(platform, h, def, LEAF_AT)
        && |CodeUnits(text)| <= def.maxCharacters {
      assert BodyOk(platform, h, def, ROOT, s);
    }
    if t :| BodyOk(platform, h, def, ROOT, t) {
      UnfoldingUnique(h, ROOT, s, t);
      assert ROOT_AT in [ROOT_AT, LEAF_AT] && LEAF_AT in [ROOT_AT, LEAF_AT];
    }
  }

  // ------------------------------------------------------------------ plain text

  function Letter(n: nat): string { seq(n, _ => 'x') }

  lemma {:induction false} LetterUnits(n: nat)
    ensures |CodeUnits(Letter(n))| == n
  {
    if n > 0 {
      LetterUnits(n - 1);
      assert Letter(n)[..n - 1] == Letter(n - 1);
    }
  }

  /** A document whose only text node has `n` characters. */
  function Plain(n: nat): Heap {
    map[
      0 := Record(map["type" := Text("doc"), "content" := Reference(1)]),
      1 := Array([LEAF]),
      2 := Record(map["type" := Text("text"), "text" := Text(Letter(n))])]
  }

  lemma {:induction false} PlainNodesOk(platform: Platform, h: Heap, text: string, p: Profile)
    requires OneText(h, text) && text != "" && Get(h, ROOT, "text") == Undefined
    requires Get(h, ROOT, "marks") == Undefined && Get(h, LEAF, "marks") == Undefined
    ensures NodeOk(platform, h, DefinitionOf(p), ROOT_AT) && NodeOk(platform, h, DefinitionOf(p), LEAF_AT)
  {
    SmallEnough(p);
    hide DefinitionOf;
  }

  lemma {:induction false} PlainIsOneText(n: nat, h: Heap)
    requires forall i | i in {0, 1, 2} :: i in h && h[i] == Plain(n)[i]
    ensures OneText(h, Letter(n)) && Get(h, ROOT, "text") == Get(h, ROOT, "marks") == Get(h, LEAF, "marks") == Undefined
  {
  }

  /** It is admitted exactly up to the character budget. */
  lemma {:induction false} PlainAdmitted(platform: Platform, n: nat, p: Profile)
    requires n >= 1
    ensures AdmittedAs(platform, Plain(n), p, ROOT) <==> n <= DefinitionOf(p).maxCharacters
  {
    PlainIsOneText(n, Plain(n));
    PlainNodesOk(platform, Plain(n), Letter(n), p);
    OneTextAdmitted(platform, Plain(n), Letter(n), p);
    LetterUnits(n);
  }

  // ------------------------------------------------------------------ whole documents, by the name of their profile

  /** How many characters a document may have that says so. */
  function Budget(name: string): Option<nat> {
    if name == "COMMENT" then Some(5000)
    else if name == "MESSAGE" then Some(10000)
    else if name == "FORUM_REPLY" then Some(30000)
    else if name == "FORUM_TOPIC" then Some(75000)
    else if name == "NEWS" then Some(150000)
    else if name == "RESEARCH_ARTICLE" then Some(250000)
    else if name == "WIKI" || name == "ADMIN" then Some(300000)
    else None
  }

  const DOCUMENT := Reference(3)

  function Whole(version: real, name: string, n: nat): Heap {
    Plain(n)[3 := Record(map["schemaVersion" := Number(version), "profile" := Text(name), "content" := ROOT])]
  }

  /** A whole document of plain text is valid exactly when its version is 1, its profile is known by name
      and its text fits what that name allows. */
  lemma {:induction false} WholeAccepted(platform: Platform, version: real, name: string, n: nat)
    requires n >= 1
    ensures Acceptable(platform, Whole(version, name, n), DOCUMENT) <==>
            version == 1.0 && Budget(name).Some? && n <= Budget(name).value
  {
    var h := Whole(version, name, n);
    PlainIsOneText(n, h);
    WholeHeader(version, name, n);
    BudgetsByName(name);
    LetterUnits(n);
    hide Whole, Plain, OneText, AdmittedAs, DefinitionOf, ParseProfile, Budget, CodeUnits, NodeOk;
    if ParseProfile(name).Some? {
      PlainNodesOk(platform, h, Letter(n), ParseProfile(name).value);
      OneTextAdmitted(platform, h, Letter(n), ParseProfile(name).value);
    }
  }

  lemma {:induction false} WholeHeader(version: real, name: string, n: nat)
    ensures var h := Whole(version, name, n);
      && IsRecord(h, DOCUMENT) && Get(h, DOCUMENT, "content") == ROOT && RootOk(h, DOCUMENT)
      && (SchemaOk(h, DOCUMENT) <==> version == 1.0) && ProfileOf(h, DOCUMENT) == ParseProfile(name)
  {
    var h := Whole(version, name, n);
    assert IsRecord(h, DOCUMENT) && Get(h, DOCUMENT, "schemaVersion") == Number(version);
    assert Get(h, DOCUMENT, "profile") == Text(name) && Get(h, DOCUMENT, "content") == ROOT;
    hide ParseProfile;
  }

  lemma {:induction false} BudgetsByName(name: string)
    ensures ParseProfile(name).Some? <==> Budget(name).Some?
    ensures ParseProfile(name).Some? ==> DefinitionOf(ParseProfile(name).value).maxCharacters == Budget(name).value
  {
  }

  // ------------------------------------------------------------------ one link

  /** A document whose only text carries a link. */
  function Linked(href: string): Heap {
    map[
      0 := Record(map["type" := Text("doc"), "content" := Reference(1)]),
      1 := Array([LEAF]),
      2 := Record(map["type" := Text("text"), "text" := Text("x"), "marks" := Reference(3)]),
      3 := Array([Reference(4)]),
      4 := Record(map["type" := Text("link"), "attrs" := Reference(5)]),
      5 := Record(map["href" := Text(href)])]
  }

  /** It is admitted, in any profile, exactly when the reference parses and either begins with a slash
      or has one of three protocols. */
  lemma {:induction false} LinkedAdmitted(platform: Platform, href: string, p: Profile)
    ensures AdmittedAs(platform, Linked(href), p, ROOT) <==>
            && platform.protocol(href).Some?
            && ((href != "" && href[0] == '/') || platform.protocol(href).value in {"https:", "http:", "mailto:"})
  {
    var h, def := Linked(href), DefinitionOf(p);
    SmallEnough(p);
    SomeBudget(p);
    LinkedIsOneText(href);
    LinkedMarks(href);
    OneUnit();
    hide DefinitionOf, Linked, NodeOk, OneText, CodeUnits, IsRecord, Attr;
    OneTextAdmitted(platform, h, "x", p);
    LeafIsLink(platform, h, def, href);
    assert NodeOk(platform, h, def, ROOT_AT) by {
      RootIsOk(platform, h, def);
    }
  }

  lemma {:induction false} LinkedIsOneText(href: string)
    ensures OneText(Linked(href), "x")
    ensures Get(Linked(href), ROOT, "text") == Get(Linked(href), ROOT, "marks") == Undefined
  {
    LinkedMarks(href);
    var h := Linked(href);
    assert IsRecord(h, Reference(5)) && Get(h, Reference(4), "attrs") == Reference(5);
    assert MarkWellShaped(h, Reference(4)) && Get(h, LEAF, "marks") == Reference(3)
        && Items(h, Reference(3)) == [Reference(4)];
    hide MarkWellShaped;
  }

  lemma {:induction false} LinkedMarks(href: string)
    ensures IsRecord(Linked(href), LEAF) && ItemsOrNone(Linked(href), Get(Linked(href), LEAF, "marks"))
        == [Reference(4)]
    ensures IsRecord(Linked(href), Reference(4)) && Get(Linked(href), Reference(4), "type") == Text("link")
    ensures Attr(Linked(href), Reference(4), "href") == Text(href)
  {
  }

  lemma {:induction false} OneUnit()
    ensures |CodeUnits("x")| == 1
  {
    assert CodeUnits("x") == CodeUnits("") + UnitsOf('x') && CodeUnits("") == [] by { assert "x"[..0] == ""; }
  }

  lemma {:induction false} RootIsOk(platform: Platform, h: Heap, def: Definition)
    requires OneText(h, "x") && "doc" in def.allowedNodes
    requires Get(h, ROOT, "text") == Get(h, ROOT, "marks") == Undefined
    ensures NodeOk(platform, h, def, ROOT_AT)
  {
  }

  lemma {:induction false} LeafIsLink(platform: Platform, h: Heap, def: Definition, href: string)
    requires OneText(h, "x") && ItemsOrNone(h, Get(h, LEAF, "marks")) == [Reference(4)]
    requires IsRecord(h, Reference(4)) && Get(h, Reference(4), "type") == Text("link") && "link" in def.allowedMarks
    requires Attr(h, Reference(4), "href") == Text(href) && "text" in def.allowedNodes
    ensures NodeOk(platform, h, def, LEAF_AT) <==>
            && platform.protocol(href).Some?
            && ((href != "" && href[0] == '/') || platform.protocol(href).value in {"https:", "http:", "mailto:"})
  {
    assert Reference(4) in [Reference(4)];
    assert MarkOk(platform, h, Reference(4), def.allowedMarks) <==> IsSafeHref(platform, href);
  }

  lemma {:induction false} SomeBudget(p: Profile)
    ensures DefinitionOf(p).maxCharacters >= 1 && "link" in DefinitionOf(p).allowedMarks
  {
  }
}
