/** Which profile may replace which: content valid under one profile stays valid under another
    for every document exactly when the second has at least the rank of the first. */
module ProfilePromotion {
  import opened Options
  import opened JsonHeap
  import opened DocumentStructure
  import opened DocumentValidation
  import opened EditorProfiles
  import opened SmallDocuments

  lemma {:induction false} NodeStaysOk(platform: Platform, h: Heap, smaller: Definition, larger: Definition,
      o: Occurrence)
    requires Extends(larger, smaller) && NodeOk(platform, h, smaller, o)
    ensures NodeOk(platform, h, larger, o)
  {
  }

  /** Promotion keeps a document acceptable, through the guard and through the recursive checks. */
  lemma {:induction false} PromotionKeeps(platform: Platform, h: Heap, p: Profile, q: Profile, content: Value)
    requires Rank(p) <= Rank(q) && AdmittedAs(platform, h, p, content)
    ensures AdmittedAs(platform, h, q, content)
  {
    RankExtends(p, q);
    var smaller, larger := DefinitionOf(p), DefinitionOf(q);
    var s :| BodyOk(platform, h, smaller, content, s);
    forall o | o in Occurrences(h, content, s, ContentPath(), None) ensures NodeOk(platform, h, larger, o) {
      NodeStaysOk(platform, h, smaller, larger, o);
    }
    assert BodyOk(platform, h, larger, content, s);
  }

  /** Replacing `p` by `q` is safe for every document exactly when `q` ranks at least as high. */
  lemma {:induction false} PromotionExactlyByRank(platform: Platform, p: Profile, q: Profile)
    ensures (forall h: Heap, content: Value :: AdmittedAs(platform, h, p, content) ==>
        AdmittedAs(platform, h, q, content))
       <==> Rank(p) <= Rank(q)
  {
    if Rank(p) <= Rank(q) {
      forall h: Heap, content: Value | AdmittedAs(platform, h, p, content) ensures AdmittedAs(platform, h, q, content) {
        PromotionKeeps(platform, h, p, q, content);
      }
    } else {
      RankSeparates(p, q);
      var n := DefinitionOf(p).maxCharacters;
      PlainAdmitted(platform, n, p);
      PlainAdmitted(platform, n, q);
    }
  }
}
