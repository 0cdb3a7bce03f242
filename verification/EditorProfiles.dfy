/** packages/editor/src/profiles.ts: the profile table, without toolbars and capabilities. */
module EditorProfiles {
  import opened Options
  import opened JsonHeap

  datatype Profile = Comment | ForumReply | ForumTopic | News | ResearchArticle | Wiki | Message | Admin

  datatype Definition = Definition(
    maxCharacters: nat,
    maxNodes: nat,
    allowedNodes: seq<string>,
    allowedMarks: seq<string>,
    headingLevels: seq<int>)

  function ParseProfile(name: string): Option<Profile> {
    if name == "COMMENT" then Some(Comment)
    else if name == "FORUM_REPLY" then Some(ForumReply)
    else if name == "FORUM_TOPIC" then Some(ForumTopic)
    else if name == "NEWS" then Some(News)
    else if name == "RESEARCH_ARTICLE" then Some(ResearchArticle)
    else if name == "WIKI" then Some(Wiki)
    else if name == "MESSAGE" then Some(Message)
    else if name == "ADMIN" then Some(Admin)
    else None
  }

  const INLINE_NODES := ["text", "hardBreak", "mention"]
  const BASIC_BLOCKS := [
    "doc", "paragraph", "bulletList", "orderedList", "listItem", "blockquote", "codeBlock", "horizontalRule"]
  const MEDIA_NODES := ["mediaReference", "attachment"]
  const DOCUMENT_NODES := [
    "table", "tableRow", "tableHeader", "tableCell", "taskList", "taskItem",
    "footnoteReference", "footnoteDefinition", "tableOfContents"]
  const MARKS := ["bold", "italic", "strike", "code", "link"]

  function Compact(maxCharacters: nat): Definition {
    Definition(maxCharacters, 750, INLINE_NODES + BASIC_BLOCKS + MEDIA_NODES, MARKS, [])
  }

  function Reply(maxCharacters: nat): Definition {
    Definition(maxCharacters, 3000, INLINE_NODES + BASIC_BLOCKS + MEDIA_NODES, MARKS, [])
  }

  function Publication(maxCharacters: nat, maxNodes: nat, levels: seq<int>): Definition {
    Definition(maxCharacters, maxNodes,
      INLINE_NODES + BASIC_BLOCKS + MEDIA_NODES + ["heading", "contentGate"], MARKS, levels)
  }

  function DocumentProfile(maxCharacters: nat, maxNodes: nat): Definition {
    var base := Publication(maxCharacters, maxNodes, [1, 2, 3, 4]);
    base.(allowedNodes := base.allowedNodes + DOCUMENT_NODES)
  }

  function DefinitionOf(p: Profile): Definition {
    match p
    case Comment => Compact(5_000)
    case Message => Compact(10_000)
    case ForumReply => Reply(30_000)
    case ForumTopic => Publication(75_000, 4_000, [2, 3, 4])
    case News => Publication(150_000, 8_000, [1, 2, 3, 4])
    case ResearchArticle => Publication(250_000, 12_000, [1, 2, 3, 4])
    case Wiki => DocumentProfile(300_000, 15_000)
    case Admin => DocumentProfile(300_000, 15_000)
  }

  /** Position in the promotion order; the two document profiles share the last one. */
  function Rank(p: Profile): nat {
    match p
    case Comment => 0
    case Message => 1
    case ForumReply => 2
    case ForumTopic => 3
    case News => 4
    case ResearchArticle => 5
    case Wiki => 6
    case Admin => 6
  }

  /** Everything the smaller definition admits, the larger one admits. */
  ghost predicate Extends(larger: Definition, smaller: Definition) {
    && smaller.maxCharacters <= larger.maxCharacters
    && smaller.maxNodes <= larger.maxNodes
    && (forall k | k in smaller.allowedNodes :: k in larger.allowedNodes)
    && smaller.allowedMarks == larger.allowedMarks
    && (forall l | l in smaller.headingLevels :: l in larger.headingLevels)
  }

  lemma {:induction false} RankExtends(p: Profile, q: Profile)
    requires Rank(p) <= Rank(q)
    ensures Extends(DefinitionOf(q), DefinitionOf(p))
  {
  }

  /** A strictly lower rank has a strictly smaller character budget. */
  lemma {:induction false} RankSeparates(p: Profile, q: Profile)
    ensures Rank(q) < Rank(p) <==> DefinitionOf(q).maxCharacters < DefinitionOf(p).maxCharacters
  {
  }
}
