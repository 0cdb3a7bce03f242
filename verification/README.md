# DSS Universe: verified models

Dafny models of the parts of DSS Universe where a mistake is hard to see, and proofs about them.
`dafny verify dfyconfig.toml` checks everything.

- **Editor documents** (`JsonHeap`, `Utf16`, `EditorProfiles`, `DocumentStructure`,
  `DocumentValidation`, `Preorder`, `ValidationRules`, `SmallDocuments`, `ProfilePromotion`, `PlainText`,
  `Projections`, `ProjectedText`). Untrusted JSON is a heap of records and arrays that
  may be shared or cyclic. An explicit-stack guard is proved to end on all of them and to accept exactly
  the finite, bounded, well-shaped trees; the recursive checks behind it decide a declarative predicate;
  profiles form an order of promotion; the public search projection is the authored projection of the
  document with its content gates emptied.
- **Storage rights** (`RightsTypes`, `LinuxAcl`, `AclWire`, `AclAccess`, `RightsModel`,
  `DirectoryChain`, `RightsVerdicts`, `AccessEntries`, `EntryCounts`, `RootChain`). A phase machine decodes
  ACL bytes; its language and its meaning under the access check of IEEE P1003.1e draft 17, section 23, are
  proved exact. The verdicts derived from it protect a whole chain of directories in the sense of
  POSIX.1-2017, XBD sections 4.3 and 4.5. The allow and deny lists of Windows and Darwin are compared with the ordered check
  of MS-DTYP, section 2.5.3.2, and inheritance with section 2.5.3.4.
- **Media processing** (`MediaStore`, `MediaProtocol`, `MediaRuns`, `MediaProcessor`). Any number of
  attempts on one row interleave store call by store call; each call may also fail, or take effect and lose
  its reply. The structured processor is proved to be one attempt of that system under any interference.
- **Autosave** (`Autosave`, `AutosaveCalls`, `AutosaveSteps`) with its timer, the save in flight, the
  suspended `flush` calls, and the calls that listeners and the `save` callback make from inside.
- **Activity events** (`ActivityEvents`, `ActivityRows`): at-least-once delivery in front of an insert-once
  projection.

A method that changes state or loops is proved equal to a function of the old state, and the lemmas are
about that function and its runs. What the functions' building blocks decide, which links pass, what a
permission digit or an access right exposes, which text and which file a reader is shown, is stated once
more on the raw fields and numbers, apart from the functions (`ValidationRules`, `Preorder`,
`ProjectedText`, `RightsVerdicts`, `EntryCounts`, `ActivityRows`, `AutosaveSteps`).

Where the code does not do what a reader might expect, the code was kept and the exact condition is
proved:

- Autosave: `schedule` does nothing while `activeSave` is still set, which it is until a settled save's
  owner goes on. A document edited during a save that then succeeds, or by a listener that hears how the
  save has settled, be it a failure, stays dirty with no timer until the next edit or flush. Exactly these
  turns of a live coordinator do that (`AutosaveCalls.SettleStallsExactly`, `TurnStallsExactly`), and
  there are such runs (`Autosave.StallReachable`, `StallAfterFailure`).
- Autosave: listeners and the `save` callback run before `flush` assigns `activeSave`, and a suspended
  `flush` does not look at it again. Calls made from there can put two saves in flight, or leave the timer
  armed during a save or after `dispose`. When a whole turn does so is decided by the calls alone
  (`AutosaveCalls.TurnSerializesExactly`, `TurnKeepsExactly`, `OverlapReachable`).
- Media: a claim is a compare-and-set on the status and not a lease, so an attempt that finds malware does
  not always stop another one. `MediaRuns.InfectionStopsExactly` says when it does for the attempts there
  are, whether its quarantine write takes effect or fails; `InfectionOvertaken`, `InfectionTooLate` and
  `InfectionUnrecorded` are three runs past it. A later attempt is never stopped
  (`NewcomerPublishes`); it scans for itself if its job asks for a scan (`MediaProtocol.CommitsWereScanned`).
- Media: at most one commit holds as long as nobody moves a terminal row back. The upload service writes
  FAILED without a condition when its own intake fails
  (`apps/api/src/modules/media/application/services/media-binary-upload.service.ts`, line 202), so the
  bound counts such revivals (`MediaProtocol.CommitsBounded`), and it is reached
  (`MediaRuns.BoundReached`).
- Activity: handling events again does not matter exactly when every row is spared an old retraction
  (`ActivityEvents.AtLeastOnceLooksOnceExactly`); creating each post before it is retracted is one way to
  have that.
- Storage: with an ACL the parent verdict errs on the safe side when the mask is wider than the entries it
  masks (`DirectoryChain.ParentVerdictWithAcl`).
- Windows: an object without an access list grants traversal to everybody, and any object lets its owner
  change its security; neither is among the risks counted for it (`AccessEntries.WindowsBoundExactly`). No
  verdict depends on traversal (`TraverseNeverJudged`), and owners have a verdict of their own.

## Model

| member | source | states |
|---|---|---|
| `DocumentStructure.ValidateDocumentStructure` | packages/editor/src/validation.ts:126-219 | the explicit-stack loop ends on every heap, cyclic or shared, and reports exactly what the recursive preorder walk reports, first error included; it pushes at most maxNodes + 1 frames and the stack never exceeds 66 |
| `DocumentStructure.CheckTop` | packages/editor/src/validation.ts:144-201 | what the loop checks on entering a frame either is the walk's own error for the whole document or leaves its verdict as it was |
| `DocumentStructure.AdvanceTop` | packages/editor/src/validation.ts:203-216 | the other half of a round pushes one child or drops a finished frame, leaves the verdict as it was and never makes the stack taller than 66 |
| `DocumentStructure.CheckShape` | packages/editor/src/validation.ts:159-200 | the guard's local checks with its loop over marks find the first shape problem in source order |
| `DocumentStructure.AcceptsExactlyBoundedTrees` | packages/editor/src/validation.ts:126-219 | accepted if and only if the unfolding from the root is a finite tree of depth at most 64 with at most maxNodes nodes, every one well shaped |
| `DocumentStructure.UnfoldingUnique` | packages/editor/src/validation.ts:203-216 | a value unfolds to at most one tree, so a verdict about the tree is about the value |
| `DocumentStructure.CyclicRejected` | packages/editor/src/validation.ts:126-219 | a value from which some trail of children comes back to where it has been is rejected under every budget |
| `DocumentValidation.ValidateNode` | packages/editor/src/validation.ts:221-292 | the recursion visits exactly the nodes below allowed ancestors in preorder and adds their errors, characters and node count to what was there |
| `DocumentValidation.VisitsAll` | packages/editor/src/validation.ts:234-243 | the visited nodes all have allowed types exactly when all nodes of the tree do, and then the visit is the whole tree in preorder |
| `DocumentValidation.VisitNotes` | packages/editor/src/validation.ts:353-363 | the counting traversal visits every node of the tree, forbidden ones included |
| `DocumentValidation.CounterCounts` | packages/editor/src/validation.ts:387-389 | incrementing along a list of ids counts for each id its occurrences, and its keys are exactly the ids that occur |
| `DocumentValidation.CheckPairs` | packages/editor/src/validation.ts:365-375 | one footnote error per unpaired id, in the order the ids are iterated |
| `DocumentValidation.PairsDecided` | packages/editor/src/validation.ts:365-384 | an id is reported exactly when it occurs and is not referenced once and defined once; the table-of-contents error appears exactly beyond one table |
| `DocumentValidation.GradeDecided` | packages/editor/src/validation.ts:346-385 | no error exactly when references and definitions correspond one to one by note id and there is at most one table of contents |
| `DocumentValidation.ValidateDocumentGradeInvariants` | packages/editor/src/validation.ts:346-385 | what the second traversal appends to the error list is a function of the counts over all nodes of the tree |
| `DocumentValidation.SemanticDecided` | packages/editor/src/validation.ts:82-111 | after structural acceptance the error list is empty exactly when a predicate over the flat list of nodes holds |
| `DocumentValidation.ShapeBranchesUnreachable` | packages/editor/src/validation.ts:101-109 | after structural acceptance the second NODE_LIMIT and the NODE_TYPE and CONTENT_TYPE branches never fire |
| `DocumentValidation.ValidateEditorDocument` | packages/editor/src/validation.ts:54-112 | valid if and only if the declarative predicate Acceptable holds; otherwise the errors are exactly the header's, the guard's one, or all semantic ones |
| `DocumentValidation.ValidateBody` | packages/editor/src/validation.ts:76-111 | the same equivalence from the structural check on, for any profile definition |
| `DocumentValidation.SemanticChecks` | packages/editor/src/validation.ts:82-100 | both traversals and the character budget give the semantic errors in the order they are pushed |
| `DocumentValidation.OneBody` | packages/editor/src/validation.ts:76-111 | the verdict does not depend on how the finite unfolding is presented |
| `Preorder.GuardNamesFirst` | packages/editor/src/validation.ts:126-219 | the guard's one error is about the first value in document order that is deeper than 64, comes after the node budget is spent or has a defect, and it tells which; every value before it is sound |
| `Preorder.WalkedTrails` | packages/editor/src/validation.ts:126-219 | when the guard passes, every value any trail of children leads to is sound and at most 64 levels down, and their number is the node count |
| `Preorder.OccurrencesInOrder` | packages/editor/src/validation.ts:346-363 | the flat list of nodes has one entry for every trail of child positions that leads anywhere, in dictionary order of the trails, with its path and the type of the node above |
| `Preorder.VisitsInOrder` | packages/editor/src/validation.ts:221-292 | the nodes the recursive check reaches are those with no node of an unknown type above them, in that order |
| `ValidationRules.LocalErrorsExactly` | packages/editor/src/validation.ts:221-580 | which errors one node gets and at which path, rule by rule on the raw fields: text, UUIDs, lengths in UTF-16 units, alignment, levels, languages, note ids, placement, content, marks and links |
| `ValidationRules.ErrorsExactly` | packages/editor/src/validation.ts:82-111 | after the guard an error is reported if and only if it is such an error of a reached node, a note id not referenced once and defined once, a second table of contents or too much text |
| `ValidationRules.HeaderErrorsExactly` | packages/editor/src/validation.ts:54-74 | the three header errors appear exactly when the version is not 1, the profile is none of the eight names, the root is no doc record |
| `ValidationRules.LinksAdmitted` | packages/editor/src/validation.ts:481-516 | in an accepted document every link of every node is a text that parses and begins with a slash or has one of three protocols |
| `ValidationRules.ProfilesByName` | packages/editor/src/profiles.ts:124-227 | which node types, marks, heading levels and how many nodes each profile name allows |
| `SmallDocuments.LinkedAdmitted` | packages/editor/src/validation.ts:481-516 | a document whose only text carries one link is admitted if and only if the link parses and begins with a slash or has one of three protocols |
| `SmallDocuments.WholeAccepted` | packages/editor/src/validation.ts:54-112 | a whole document of n plain characters is valid if and only if its version is 1, its profile is one of the eight names and n is within that name's budget |
| `Utf16.UnitsCounted` | packages/editor/src/validation.ts:244-250 | a text's length is the number of its characters, those outside the basic plane counted twice |
| `ProfilePromotion.PromotionKeeps` | packages/editor/src/validation.ts:76-111 | content admitted under a profile is admitted under every later one, through the guard and the recursive checks |
| `SmallDocuments.PlainAdmitted` | packages/editor/src/validation.ts:92-100 | a document of n plain characters is admitted exactly up to the profile's character budget |
| `ProfilePromotion.PromotionExactlyByRank` | packages/editor/src/profiles.ts:210-227 | one profile may replace another for every document if and only if it ranks at least as high |
| `PlainText.CleanedIsClean` | packages/editor/src/projections.ts:70-75 | the output has no blank before a newline, no three newlines in a row and no outer whitespace |
| `PlainText.CleanExactlyFixed` | packages/editor/src/projections.ts:70-75 | the clean texts are exactly the fixed points, hence cleaning is idempotent |
| `PlainText.CollapseIsWords` | packages/editor/src/projections.ts:77-83 | the two regular-expression steps of whitespace collapsing compute the words joined by single spaces |
| `PlainText.CleanKeepsWords` | packages/editor/src/projections.ts:70-83 | cleaning keeps the sequence of visible characters, and collapsing a cleaned text equals collapsing the original |
| `Projections.ProjectNode` | packages/editor/src/projections.ts:85-109 | without a flag object the authored text; with one, the authored text of the tree with every gate emptied, and the flag is raised exactly when a gate is reached |
| `Projections.ProjectEditorPublicSearch` | packages/editor/src/projections.ts:57-68 | the public search text is the authored search text of the tree with emptied gates, for any case folding, and of the document itself when the flag stays down |
| `Projections.ProjectEditorSearchText` | packages/editor/src/projections.ts:53-55 | the authored search text, which is the public one when no gate is reached |
| `Projections.GatePayloadsInvisible` | packages/editor/src/projections.ts:89-92 | two documents that differ only inside gates have the same public text and flag |
| `Projections.UngatedIsAuthored` | packages/editor/src/projections.ts:85-109 | when no gate is reached the public text equals the authored text |
| `Projections.MetGateOccurs` | packages/editor/src/projections.ts:85-109 | a gate the projection reaches is a node the validator looked at |
| `Projections.GatelessProfilesSearchInFull` | packages/editor/src/projections.ts:57-68 | a valid COMMENT, MESSAGE or FORUM_REPLY never raises the flag and is searched in full |
| `PlainText.TidyExactlyFixed` | packages/editor/src/projections.ts:70-75 | in characters: no space or tab before a line end, no three line ends, no ECMAScript white space at either end; the output is so, and exactly such texts stay as they are |
| `PlainText.DropsTrailing` | packages/editor/src/projections.ts:72 | the first replacement removes exactly the spaces and tabs of runs that end in a line end |
| `PlainText.CapsLineEnds` | packages/editor/src/projections.ts:73 | the second removes exactly the line ends that follow two others |
| `Projections.SearchTextIsWords` | packages/editor/src/projections.ts:77-83 | whatever the platform's folding gives, the search text has its visible characters in order, single spaces between words and none outside |
| `ProjectedText.VisibleInOrder` | packages/editor/src/projections.ts:85-109 | the visible characters of the authored and of the public text are those of the nodes the projection meets, collected in document order: texts, user names, captions or alternatives, labels, note ids |
| `ProjectedText.MeetsAll` | packages/editor/src/projections.ts:94-102 | where kinds that are not read on have no children, the authored projection meets exactly the validator's list of nodes |
| `ProjectedText.AuthoredParts` | packages/editor/src/projections.ts:94-108 | the exact text of a node: its own where it is not read on, else its children's from the first to the last and a line end after eleven kinds of block |
| `ProjectedText.FlagExactly` | packages/editor/src/projections.ts:89-92 | the flag is raised if and only if a gate is among the nodes met |
| `LinuxAcl.DecodeLinuxAcl` | packages/storage/native-probe/src/rights-linux.cc:41-77 | accepts exactly the framed lists that are complete and strictly ascending by tag and qualifier, and reports the risks of ordinary plus group class under the mask |
| `LinuxAcl.NextFits` | packages/storage/native-probe/src/rights-linux.cc:49-73 | each step of the phase machine either keeps its counters true of the prefix or proves the whole list not canonical |
| `LinuxAcl.OutOfOrder` | packages/storage/native-probe/src/rights-linux.cc:54-72 | why each phase error is right: a list with an entry out of place cannot be completed |
| `AclWire.ReadAcl` | packages/storage/native-probe/src/security-linux.cc:36-76 | the counting validator accepts exactly the framed complete lists in any order, so everything the ordered decoder accepts is accepted here |
| `AclWire.WriteAcl` | packages/storage/native-probe/rights-test-posix.cc:37-60 | the encoder's byte vector is the concatenation of version and entries |
| `AclWire.AclWriter.U16` | packages/storage/native-probe/rights-test-posix.cc:37-39 | appends two bytes, low first |
| `AclWire.AclWriter.U32` | packages/storage/native-probe/rights-test-posix.cc:40 | appends four bytes, low half first |
| `AclWire.AclWriter.AppendEntry` | packages/storage/native-probe/rights-test-posix.cc:41-43 | appends the eight bytes of one entry |
| `AclWire.EntriesOfBytes` | packages/storage/native-probe/src/rights-linux.cc:48-50 | reading back what was written gives the same entries |
| `AclWire.BytesOfEntries` | packages/storage/native-probe/src/rights-linux.cc:48-50 | writing what was read gives the same bytes |
| `AclWire.GrammarIsCanonical` | packages/storage/native-probe/src/rights-linux.cc:53-75 | owner, named users ascending, owning group, named groups ascending, mask as needed, other: every such sentence is accepted |
| `AclWire.CanonicalIsGrammar` | packages/storage/native-probe/src/rights-linux.cc:53-75 | every accepted list is such a sentence |
| `AclWire.LanguageOfDecoder` | packages/storage/native-probe/src/rights-linux.cc:41-76 | the decoder's language is exactly the encodings of the grammar's sentences that fit 64 KiB |
| `AclWire.EncodeThenDecode` | packages/storage/native-probe/rights-test-posix.cc:37-60 | encoding any ACL of the grammar and decoding it succeeds with the risks of its parts |
| `AclAccess.BoundCovers` | packages/storage/native-probe/src/rights-linux.cc:57-76 | whatever the P1003.1e access check grants a process that is neither owner, service nor root, with any groups, lies within the decoded bound |
| `AclAccess.BoundIsLeast` | packages/storage/native-probe/src/rights-linux.cc:57-76 | for a file of the service or root, a permission is in the bound if and only if some untrusted process is granted it |
| `AclAccess.ModeBoundCovers` | packages/storage/native-probe/src/rights-posix.cc:126 | when mode bits mirror an ACL, the bound decoded from the ACL lies within the bound read from the mode |
| `AclAccess.InheritedBoundShrinks` | packages/storage/native-probe/src/rights-linux.cc:94-96 | no ACL created from a default list exceeds the default list's bound |
| `RightsModel.EvaluateGrants` | packages/storage/native-probe/src/rights-model.cc:72-85 | clearing bits case by case satisfies exactly when no forbidden risk goes beyond what the role tolerates |
| `RightsModel.EvaluateDirectoryRights` | packages/storage/native-probe/src/rights-model.cc:61-104 | owner, grant, inheritance and parent verdicts of one directory between its neighbours |
| `RightsModel.ReadDirectoryRights` | packages/storage/native-probe/src/rights-linux.cc:78-98 | how mode facts and the two ACL queries combine; an absent list never becomes a verified one |
| `RightsModel.InspectRoleRights` | packages/storage/native-probe/src/rights-evidence.cc:17-38 | evidence for every component of a chain of 1 to 1024, the last in the asked role and all others as ancestors, each with its own neighbours |
| `DirectoryChain.ModeBoundsAccess` | packages/storage/native-probe/src/rights-posix.cc:126 | a process that does not own a directory has at most the permissions of its group and other digits |
| `DirectoryChain.ChainProtected` | packages/storage/native-probe/src/rights-evidence.cc:26-36 | if owner, grant and parent verdicts are satisfied all along a chain of any length, no untrusted process can unlink or rename any component out of its parent |
| `DirectoryChain.EdgeProtected` | packages/storage/native-probe/src/rights-model.cc:95-102 | for one edge the parent verdict and the two owner verdicts suffice |
| `DirectoryChain.RoleKept` | packages/storage/native-probe/src/rights-model.cc:72-85 | an untrusted process cannot write a protected parent, nor read or write a private directory |
| `DirectoryChain.ParentVerdictExact` | packages/storage/native-probe/src/rights-model.cc:95-102 | without an ACL, whoever owns the parent: its verdict is violated if and only if some untrusted process that does not own it may write there and stickiness does not protect the edge; it misses an untrusted writer if and only if an untrusted owner alone may write |
| `DirectoryChain.ParentVerdictWithAcl` | packages/storage/native-probe/src/rights-model.cc:95-102 | with an ACL, for a parent owned by the service or root: the verdict never misses an untrusted writer, and it is exact if and only if the mask is not wider than the entries it masks, or stickiness protects the edge anyway |
| `DirectoryChain.OptionEdge` | packages/storage/native-probe/src/rights-model.cc:72-102 | were writable files allowed to leave sticky directories, as XBD section 4.3 permits, a satisfied edge would leave open only a sticky directory writable to the process inside another one |
| `DirectoryChain.WideMask` | packages/storage/native-probe/src/rights-posix.cc:126 | there are accepted ACLs whose mask is wider than that |
| `DirectoryChain.ChildrenProtected` | packages/storage/native-probe/src/rights-model.cc:86-94 | a satisfied inheritance verdict holds for every child created from the default list |
| `RightsVerdicts.CanonicalPlainly` | packages/storage/native-probe/src/rights-linux.cc:49-75 | in numbers: which tags, permissions and ids make a list, in which order, and which entries it must have |
| `RightsVerdicts.DecodedExactly` | packages/storage/native-probe/src/rights-linux.cc:41-77 | an accepted list exposes reading, changing and searching exactly where the others' digit, or a group-class digit and the mask's where there is one, is at least 4, has a 2 in it, is odd; any other answer is a failure with its own number |
| `RightsVerdicts.FactsExactly` | packages/storage/native-probe/src/rights-linux.cc:78-98 | the grants are known if and only if the mode could be read and the access list is absent or accepted; any other answer keeps them unknown, and absence never counts as a verified list |
| `RightsVerdicts.GrantVerdictExact` | packages/storage/native-probe/src/rights-model.cc:72-85 | for a directory without an ACL, role by role: satisfied if and only if no untrusted process but the owner may write, or the shared namespace is sticky and the service's, or stickiness protects the edge on the way down; a private one must not be readable either |
| `RightsVerdicts.OwnerVerdictExact` | packages/storage/native-probe/src/rights-model.cc:66-70 | satisfied if and only if the service owns the directory, or the superuser does on the way down; unknown exactly when the mode could not be read |
| `RightsVerdicts.InheritanceVerdictExact` | packages/storage/native-probe/src/rights-model.cc:86-94 | outside the way down satisfied if and only if the default list is accepted and exposes no writing, and in a private directory no reading |
| `RightsVerdicts.EvidencePlainly` | packages/storage/native-probe/src/rights-evidence.cc:17-38 | each component's evidence is about its own facts in its own role; what is unknown of it or of its parent stays unknown |
| `AccessEntries.FirstDecides` | packages/storage/native-probe/src/rights-win.cc:166-199 | the ordered check of MS-DTYP 2.5.3.2 grants a set of rights exactly when for each of them the first entry about it is an allow |
| `AccessEntries.CurrentCovers` | packages/storage/native-probe/src/rights-win.cc:194-197 | giving no credit for denies is sound: what the ordered check grants to identities without service or administrator was counted, in any order and number |
| `AccessEntries.CurrentIsLeast` | packages/storage/native-probe/src/rights-win.cc:194-197 | a risk is counted if and only if, the denies taken away, some single untrusted identity is granted a right that carries it |
| `AccessEntries.StepCovered` | packages/storage/native-probe/src/rights-win.cc:198 | what a new child takes over carries and passes on only what was counted as inherited |
| `AccessEntries.DescendantsCovered` | packages/storage/native-probe/src/rights-win.cc:198 | at any depth below, a check on inherited entries grants untrusted identities only what was counted as inherited at the top |
| `AccessEntries.ReadWindowsRights` | packages/storage/native-probe/src/rights-win.cc:150-200 | the loop counts up to the first entry it does not understand and reports that entry's failure; with a missing list everything but traversal is counted |
| `AccessEntries.WindowsCovers` | packages/storage/native-probe/src/rights-win.cc:157-199 | a satisfied reading bounds every untrusted token, but for traversal where there is no list and metadata changes by the object's owner |
| `AccessEntries.WindowsBoundExactly` | packages/storage/native-probe/src/rights-win.cc:150-199 | the bound holds for all untrusted tokens without exception if and only if the object has a list, and its owner is trusted or changing metadata is counted anyway |
| `AccessEntries.WindowsChainProtected` | packages/storage/native-probe/src/rights-model.cc:72-85 | on Windows a chain with satisfied owner and grant verdicts lets no untrusted token delete or rename any component |
| `AccessEntries.AddUpDarwin` | packages/storage/native-probe/src/rights-darwin.cc:89-103 | the entry loop is satisfied exactly when every entry is supported, and then whatever an ordered check grants to untrusted identities, now or in any depth below, lies within the risks it counted |
| `EntryCounts.WindowsFactsPlainly` | packages/storage/native-probe/src/rights-win.cc:166-200 | a risk is counted now, or below, if and only if some allow entry for others that applies now, or is inherited, carries it by a right of its own or a generic one; the first entry that is not understood ends the reading in its own way |
| `EntryCounts.WindowsWithoutList` | packages/storage/native-probe/src/rights-win.cc:149-165 | what is said of owner and access in any case, and of a missing or an overlong list |
| `EntryCounts.MappedHas` | packages/storage/native-probe/src/rights-win.cc:188-190 | what each generic right of an entry stands for |
| `EntryCounts.InheritableIsLeast` | packages/storage/native-probe/src/rights-win.cc:198 | a risk is counted as inherited if and only if it holds of a file or of a directory newly created below |
| `EntryCounts.HandedOnExactly` | packages/storage/native-probe/src/rights-win.cc:198 | and such a directory hands it on if and only if an entry that carries it is not limited to one level |
| `EntryCounts.LimitsPlainly` | packages/storage/native-probe/src/rights-win.cc:198 | which flag of an entry, on either platform, keeps it from being handed on by a new directory |
| `EntryCounts.WindowsEvidencePlainly` | packages/storage/native-probe/src/rights-evidence.cc:17-38 | each component of a Windows chain is judged in its own role by its own facts and those of its own neighbours |
| `EntryCounts.DarwinPlainly` | packages/storage/native-probe/src/rights-darwin.cc:89-103 | the same for permit entries, and which entries are supported |
| `RootChain.PlanRootChain` | packages/storage/native-probe/src/root-chain.cc:30-67 | an accepted path is the anchor and its components joined with at most one trailing slash, and every list of components is planned back from its path |
| `RootChain.PlannedExactly` | packages/storage/native-probe/src/root-chain.cc:46-61 | parsing inverts joining: a path is plannable exactly when some list of components joins to it, and its parse is that one list |
| `RootChain.ParseSound` | packages/storage/native-probe/src/root-chain.cc:46-61 | whatever is parsed consists of valid components and joins to the text again |
| `RootChain.ParseSlashed` | packages/storage/native-probe/src/root-chain.cc:46-61 | joining with a trailing slash and parsing gives the list back |
| `RootChain.ParseShort` | packages/storage/native-probe/src/root-chain.cc:46-61 | joining without it gives the list back as well |
| `RootChain.PlannedPlainly` | packages/storage/native-probe/src/root-chain.cc:30-67 | a plan has fewer than 4294967295 names, none empty, ".", ".." or with a slash or NUL in it |
| `RootChain.PathGrows` | packages/storage/native-probe/src/root-chain.cc:46-61 | each further component adds its name to the path and a slash between |
| `MediaStore.LastFileWins` | apps/worker/src/postgres-media-processing.store.ts:87-113 | after upserting a result a name shows the last file of that name, keeping provider and bucket of a row that was there |
| `MediaStore.PostgresMediaProcessingStore.MarkProcessing` | apps/worker/src/postgres-media-processing.store.ts:45-52 | only QUARANTINED moves to PROCESSING, clearing the failure |
| `MediaStore.PostgresMediaProcessingStore.ClaimFailedRetry` | apps/worker/src/postgres-media-processing.store.ts:54-63 | compare-and-set: true exactly when the row was FAILED and not deleted, and then it is PROCESSING |
| `MediaStore.PostgresMediaProcessingStore.MarkQuarantined` | apps/worker/src/postgres-media-processing.store.ts:65-78 | only PROCESSING or QUARANTINED is quarantined, the reason cut to 2000 |
| `MediaStore.PostgresMediaProcessingStore.MarkFailed` | apps/worker/src/postgres-media-processing.store.ts:147-158 | only PROCESSING fails, the reason cut to 2000 |
| `MediaStore.PostgresMediaProcessingStore.MarkReady` | apps/worker/src/postgres-media-processing.store.ts:80-145 | all upserts and the READY update, or nothing: it commits exactly when no statement fails and the row is PROCESSING |
| `MediaProtocol.RunKeepsInv` | apps/worker/src/media-processing.processor.ts:41-121 | the protocol invariant holds after every interleaving of any number of attempts with each other and with other writers |
| `MediaProtocol.CommitsBounded` | apps/worker/src/postgres-media-processing.store.ts:114-138 | at most one commit more than the number of times another writer revived a terminal row |
| `MediaRuns.BoundReached` | apps/worker/src/postgres-media-processing.store.ts:114-138 | that bound is reached: for every number of revivals there is a run with one commit more |
| `MediaRuns.WorkersCommitOnce` | apps/worker/src/postgres-media-processing.store.ts:114-138 | left to themselves any number of attempts commit at most once |
| `MediaProtocol.OneCommitDecidesVariants` | apps/worker/src/postgres-media-processing.store.ts:80-145 | without revivals at most one transaction commits; original and variants are untouched, or the original is the committing attempt's, the variants are exactly the last-wins overwrite by it and no failure is left |
| `MediaProtocol.CommitsWereScanned` | apps/worker/src/media-processing.processor.ts:70-102 | every commit for a job that requires scanning was made by an attempt that itself received CLEAN |
| `MediaProtocol.ReadyWasCommitted` | apps/worker/src/media-processing.processor.ts:101-102 | a row that is READY although nobody else wrote READY was committed by some attempt |
| `MediaProtocol.TerminalIsFinal` | apps/worker/src/postgres-media-processing.store.ts:45-158 | workers never change a row that is READY, REJECTED, DELETING or DELETED in any way |
| `MediaProtocol.ClaimsPaidByFailures` | apps/worker/src/postgres-media-processing.store.ts:54-63 | along any stretch of a run claims are paid for one by one by entries into FAILED |
| `MediaProtocol.OneClaimPerFailure` | apps/worker/src/postgres-media-processing.store.ts:54-63 | between two entries into FAILED at most one claim takes effect |
| `MediaProtocol.LosersWriteNothing` | apps/worker/src/media-processing.processor.ts:52-66 | an attempt that lost the claim, or ended as a duplicate, has written nothing in the whole run |
| `MediaProtocol.LosersChangeNothing` | apps/worker/src/media-processing.processor.ts:52-66 | and no step it took anywhere in the run has changed the row |
| `MediaProtocol.QuarantineLiftedOnlyByResume` | apps/worker/src/media-processing.processor.ts:98-100 | a worker step lifts a quarantine if and only if it is the resuming write, made by an attempt that itself first read QUARANTINED and, if asked to scan, scanned clean |
| `MediaRuns.QuarantineHoldsExactly` | apps/worker/src/media-processing.processor.ts:98-100 | workers keep a quarantined row quarantined at every point of a run, newcomers included, if and only if no resuming write takes effect in it |
| `MediaRuns.InfectionRecorded` | apps/worker/src/postgres-media-processing.store.ts:70-76 | an infection's quarantine write leaves the row quarantined if and only if it was PROCESSING or QUARANTINED |
| `MediaRuns.InfectionStopsExactly` | apps/worker/src/media-processing.processor.ts:85-118 | after an infection has been found, whatever becomes of its quarantine write, none of the attempts there are can make the row READY under any interleaving and any replies, if and only if: the write took effect, the row was not READY and no attempt is about to resume from the quarantine or to claim an undeleted failed row; or it failed, and no attempt could have published or claimed the row anyway |
| `MediaRuns.NewcomerPublishes` | apps/worker/src/media-processing.processor.ts:98-102 | a later attempt is not stopped by the quarantine: it scans for itself and may publish |
| `MediaRuns.StuckStays` | apps/worker/src/media-processing.processor.ts:41-121 | a system in which no attempt can publish stays one, and never makes the row READY, under every interleaving |
| `MediaRuns.UnstuckPublishes` | apps/worker/src/media-processing.processor.ts:109-118 | any other, with an attempt in its error handler, can: that one may fail the row and another claim it |
| `MediaRuns.Drive` | apps/worker/src/media-processing.processor.ts:69-108 | an attempt that can publish, left alone, does: one commit and READY |
| `MediaRuns.InfectionOvertaken` | apps/worker/src/media-processing.processor.ts:85-102 | a run in which malware is found and another attempt, past its own clean scan of the quarantined row, still publishes |
| `MediaRuns.InfectionTooLate` | apps/worker/src/media-processing.processor.ts:85-102 | a run without any resume in which malware is reported after another attempt has published, its quarantine write matching no row |
| `MediaRuns.InfectionUnrecorded` | apps/worker/src/media-processing.processor.ts:85-118 | a run in which malware is found, the quarantine write fails, and another attempt commits |
| `MediaProcessor.Process` | apps/worker/src/media-processing.processor.ts:41-121 | the structured processor, try and catch included, ends with the outcome and leaves the row of one attempt of the protocol, whatever others write between its calls and however each call ends |
| `MediaProcessor.Admit` | apps/worker/src/media-processing.processor.ts:43-66 | the code before the try block, claim losers and their recheck included, follows the protocol on the rows it sees |
| `MediaProcessor.Work` | apps/worker/src/media-processing.processor.ts:69-108 | so does the body of the try block |
| `MediaProcessor.Publish` | apps/worker/src/media-processing.processor.ts:98-108 | and the part after the scan |
| `MediaProcessor.FinishedIsScripted` | apps/worker/src/media-processing.processor.ts:41-121 | every finished attempt of every interleaved run is what the code does when others leave the rows that attempt saw |
| `MediaProtocol.OriginalIsLastCommitted` | apps/worker/src/postgres-media-processing.store.ts:114-130 | in every reachable state the row points to the original of the last commit, or to the initial one while nothing has been committed |
| `MediaProtocol.WritesExactly` | apps/worker/src/postgres-media-processing.store.ts:45-158 | each other write in full: over which statuses, with which code and the longest beginning of the reason within 2000 units, and nothing else changed |
| `MediaProtocol.CountsPlainly` | apps/worker/src/media-processing.processor.ts:41-121 | what the runs count: commits, effective claims, entries into FAILED, and finished rows taken back by others |
| `MediaProtocol.StepsPlainly` | apps/worker/src/media-processing.processor.ts:41-121 | where an attempt goes on after each call |
| `MediaProtocol.FinishedRows` | apps/worker/src/media-processing.processor.ts:43-66 | an attempt stops as a duplicate exactly on READY, REJECTED, DELETED and DELETING rows |
| `MediaProtocol.ProcessedExactly` | apps/worker/src/postgres-media-processing.store.ts:80-145 | an attempt ends as processed if and only if its transaction was on a PROCESSING row, every file had a name and the reply arrived |
| `AutosaveCalls.RunKeeps` | packages/editor/src/autosave.ts:110-177 | after every run at most one save is in flight, an armed timer implies no active save, a pending document and a live coordinator, the phase is truthful, and the newest document is pending, else in flight, else the last acknowledged |
| `AutosaveCalls.QuietTurns` | packages/editor/src/autosave.ts:110-177 | turns in which nobody calls from inside are the turns of the simple coordinator |
| `AutosaveCalls.QuietRuns` | packages/editor/src/autosave.ts:110-177 | and runs of such turns are its runs, and never overlap |
| `AutosaveCalls.TurnSerializesExactly` | packages/editor/src/autosave.ts:117-129 | one whole turn with calls from listeners and from the save callback keeps saves serialized, and with them everything but the timer clause, if and only if no such call starts a save before line 123 and no suspended flush finds an edit made there |
| `AutosaveCalls.RunSerializesExactly` | packages/editor/src/autosave.ts:110-177 | a run keeps them serialized at every turn if and only if none of its turns overlaps |
| `AutosaveCalls.TurnKeepsExactly` | packages/editor/src/autosave.ts:117-149 | the timer clause survives a turn as well if and only if in addition no edit made before line 123 leaves the timer armed and nobody disposes from inside an edit |
| `AutosaveCalls.Waking` | packages/editor/src/autosave.ts:120-123 | of any number of resumed flush calls the first starts a save; the others start one exactly when an edit from inside it left something pending |
| `AutosaveCalls.LandingTurn` | packages/editor/src/autosave.ts:158-176 | whatever listeners call when a save lands, they join the save that settles and start none |
| `AutosaveCalls.OverlapFromInside` | packages/editor/src/autosave.ts:121-123 | an edit and a flush made from inside a starting save overlap with it; the edit alone arms the timer during the save |
| `AutosaveCalls.OverlapOfWaiters` | packages/editor/src/autosave.ts:120-123 | with two suspended flush calls an edit from inside the first one's save is enough |
| `AutosaveCalls.ArmedAfterDispose` | packages/editor/src/autosave.ts:110-115 | disposing from inside an edit leaves the timer armed on a disposed coordinator |
| `AutosaveCalls.OverlapReachable` | packages/editor/src/autosave.ts:117-129 | a run that ends with two saves in flight on one base version and no suspended call at all |
| `Autosave.VersionsIncrease` | packages/editor/src/autosave.ts:155-167 | acknowledged versions strictly increase |
| `AutosaveCalls.RetrySendsNewest` | packages/editor/src/autosave.ts:131-134 | after a failure retry sends the newest content, even if it changed during the save, whatever is called from inside without overlapping |
| `AutosaveCalls.SettleStallsExactly` | packages/editor/src/autosave.ts:142-176 | a settling turn, calls from inside included, leaves unsaved content without timer or save if and only if no flush waits, and either it succeeds and the document changed meanwhile, or a listener edits when it hears how the save settled |
| `AutosaveCalls.QuietSettleStalls` | packages/editor/src/autosave.ts:142-168 | without calls from inside: it succeeds, the document changed meanwhile and no flush waits |
| `AutosaveCalls.TurnStallsExactly` | packages/editor/src/autosave.ts:110-177 | of all turns, calls from inside included, that leave the coordinator live, exactly those settling turns stall it |
| `AutosaveCalls.ListenerStalls` | packages/editor/src/autosave.ts:142-176 | a listener that edits when told stalls it however the save settles, one that flushes keeps it going |
| `AutosaveCalls.StallAfterFailure` | packages/editor/src/autosave.ts:169-176 | a run that stalls after a failed save |
| `Autosave.StallReachable` | packages/editor/src/autosave.ts:142-168 | the run that shows it: edit, save, edit during the save, success |
| `AutosaveCalls.StallEnds` | packages/editor/src/autosave.ts:110-129 | an edit or a flush ends the stall, whatever is called from inside; a flush saves the newest content |
| `AutosaveCalls.EditorAutosaveCoordinator.UpdateDocument` | packages/editor/src/autosave.ts:110-115 | throws without change when disposed or invalid, else the document is pending, listeners have made their calls and the timer is armed if no save is active then |
| `AutosaveCalls.EditorAutosaveCoordinator.FlushNow` | packages/editor/src/autosave.ts:117-129 | waits behind an active save, else starts one if something is pending |
| `AutosaveCalls.EditorAutosaveCoordinator.RunSave` | packages/editor/src/autosave.ts:121-158 | document and base version are taken, then calls from inside run, and only then the save becomes the active one |
| `AutosaveCalls.EditorAutosaveCoordinator.RetryNow` | packages/editor/src/autosave.ts:131-134 | flushes exactly when something is pending |
| `AutosaveCalls.EditorAutosaveCoordinator.OnTimer` | packages/editor/src/autosave.ts:145-148 | an armed timer flushes once |
| `AutosaveCalls.EditorAutosaveCoordinator.DisposeNow` | packages/editor/src/autosave.ts:136-140 | disposes and disarms |
| `AutosaveCalls.EditorAutosaveCoordinator.SettleSave` | packages/editor/src/autosave.ts:120-177 | continuation with the listeners' calls, then the owner's finally, then the suspended calls in order |
| `AutosaveSteps.EditPlainly` | packages/editor/src/autosave.ts:110-115 | one edit field by field: refused unless live and valid, else unsaved, with the timer armed unless a save is active |
| `AutosaveSteps.FlushPlainly` | packages/editor/src/autosave.ts:117-129 | one flush field by field: it waits, or sends what is unsaved on the version known now, or only stops the timer |
| `AutosaveSteps.OthersPlainly` | packages/editor/src/autosave.ts:131-149 | timer, retry and dispose |
| `AutosaveSteps.ReplyPlainly` | packages/editor/src/autosave.ts:155-177 | a reply is acknowledged if and only if its version is larger than the save's base; else the version stays and the newest document stays unsaved, as conflict or error |
| `ActivityEvents.RunKeeps` | packages/jobs/src/index.ts:156-166 | under every schedule of deliveries, repetitions and crashes the table is the replay of the handled events and only handled events are marked |
| `ActivityEvents.RowsOnlyGrow` | apps/worker/src/postgres-activity.projector.ts:129-136 | rows are never removed or rewritten, and a set retraction time never changes |
| `ActivityEvents.RowsExplained` | apps/worker/src/postgres-activity.projector.ts:59-136 | in every history a row shows the first retraction of its post handled after its insertion; in the table of handling each event once only first handlings count |
| `ActivityEvents.RepeatIsHarmlessExactly` | apps/worker/src/postgres-activity.projector.ts:129-136 | handling a handled event again changes nothing if and only if it is no retraction or every row of its post has a retraction after its insertion |
| `ActivityEvents.RepeatsDoNotMatterExactly` | apps/worker/src/postgres-activity.projector.ts:59-136 | the table equals that of handling each event once if and only if for every row the first retraction after its insertion had not been handled before it, or a first-handled one with the same time follows |
| `ActivityEvents.AtLeastOnceLooksOnceExactly` | packages/jobs/src/index.ts:156-166 | the same, under every schedule of the consumer |
| `ActivityEvents.RepeatIsHarmless` | apps/worker/src/postgres-activity.projector.ts:59-136 | when each post's creations are first handled before any of its retractions, any repetition is harmless |
| `ActivityEvents.RepeatsDoNotMatter` | apps/worker/src/postgres-activity.projector.ts:59-136 | and the table is that of handling each event once |
| `ActivityEvents.AtLeastOnceLooksOnce` | packages/jobs/src/index.ts:156-166 | and so it is under every schedule of the consumer |
| `ActivityEvents.OutOfOrderMatters` | apps/worker/src/postgres-activity.projector.ts:129-136 | a retraction handled before its post and delivered again retracts it, handled once it does not |
| `ActivityEvents.Database.HasProcessed` | apps/worker/src/processed-event.store.ts:12-18 | whether the mark exists |
| `ActivityEvents.Database.MarkProcessed` | apps/worker/src/processed-event.store.ts:19-36 | sets the mark, again or anew |
| `ActivityEvents.Database.InsertEntry` | apps/worker/src/postgres-activity.projector.ts:59-69 | a row already there for the source event stays as it is |
| `ActivityEvents.Database.Project` | apps/worker/src/postgres-activity.projector.ts:31-137 | runs the accepted event's statement, or throws before any |
| `ActivityRows.RowsPlainly` | apps/worker/src/postgres-activity.projector.ts:47-127 | in every history each row is, but for its retraction, the row of an event handled under its id, field by field: a wall post is for members only, an article as its event says |
| `ActivityRows.StatementPlainly` | apps/worker/src/postgres-activity.projector.ts:31-137 | which events are accepted and what each does to every row of the table |
| `ActivityRows.CallsPlainly` | packages/jobs/src/index.ts:156-166 | where a delivery goes on after each call, and that one that ends with an error stops it |
| `ActivityRows.DeliveryPlainly` | packages/jobs/src/index.ts:156-166 | one undisturbed delivery: refused, skipped, stopped, or handled and marked, and exactly when each |
| `ActivityEvents.Database.Process` | packages/jobs/src/index.ts:156-166 | one undisturbed delivery is the run of its three calls, with the same tables and result |

## Left out

- Message and reason texts, toolbars and editor capabilities: they decide nothing.
- Case folding, NFKC and URL parsing: library behaviour, taken as function parameters over which every result holds.
- Strings are sequences of Unicode scalar values, so a lone surrogate is not modelled, nor a reason cut in the middle of a surrogate pair; every `length` limit and `slice` counts UTF-16 code units. `\s` and `trim` use the ECMAScript white-space set.
- JavaScript exceptions on input the guard has not accepted: the recursive checks are modelled behind the guard, as the source calls them.
- Objects with accessors, proxies or changing fields: a heap does not change while it is validated.
- System calls, descriptors, process credentials and their re-reading: their answers are inputs.
- Service access checks (`AccessCheck`, `faccessat`): their verdict is an input of the evidence.
- Failures of the Windows descriptor query itself (`rights-win.cc` lines 143-156): the model starts from an owner and a list, or none.
- Byte layout of Windows and Darwin lists, SID and UUID comparison beyond equality, and the Darwin re-import of the whole list.
- Darwin mode bits combined with its list: the entry loop alone is modelled; POSIX modes are covered on Linux.
- Privileges of a Windows token and creator identities: the source refuses creator entries, and privileges are not part of a list.
- Splitting of inherited entries with generic rights into two, and the copies a parent's later change would push down: inheritance at creation only.
- Windows path planning: drive letters, backslashes and the colon rule.
- Columns that no guard reads (times, sizes, checksums, ids): files and rows carry an opaque description.
- The unique index on storage keys: it appears only as a statement that may fail.
- `cleanupSource` and the contents of files during concurrent transforms: no row effect, and the source gives no lease.
- `getSnapshot`, error texts and the length of the autosave delay: they decide nothing. Listeners appear by the calls they make; a listener that throws, and a `save` that throws instead of returning a promise, do not.
- Activity metadata: the row keeps the event's whole payload, of which the source stores a selection.
- Queues, retries and dead letters: a schedule is any sequence of deliveries and steps.
- AutosaveCalls.RunKeeps: runs without calls from inside; with them `TurnKeepsExactly` and `RunSerializesExactly` say what remains.
- MediaRuns.InfectionStopsExactly: speaks of the attempts there are at the report; a newcomer is bound by its own scan only.
- MediaProtocol.LosersWriteNothing: counts writes issued, so a claim that matched no row is not a write.
- DirectoryChain.ParentVerdictWithAcl: a parent owned by the service or root; an entry that names an untrusted owner is never used by the access check.
