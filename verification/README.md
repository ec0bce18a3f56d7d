# Verified model of Guru Terminal's knowledge and runtime core

This project models, in Dafny, the parts of Guru Terminal whose code reaches a simple meaning by a harder
route, and proves that it reaches it. `dafny verify dfyconfig.toml` checks all of it.

- **Memory search** (`Ordering`, `Lists`, `Ranking`, `TopK`, `Relevance`, `Matching`,
  `Search`): documents are filtered,
  cut into chunks, ranked chunk by chunk with a running top list and merged. Every worker count gives what one
  global sort and deduplication gives, and a query that is a record ID leads with that ID. `Matching`
  says what each field and section is worth.
- **Catalogue** (`Strings`, `Sections`, `Records`, `Health`, `Folders`, `Listings`, `Catalog`, `Framing`,
  `RuntimeTree`): headings and their paths, referential integrity, lookup in one kind folder, the one-pass context
  capture against the separate passes, and the byte streams behind the two digests, which determine the tree and do
  not depend on the order in which directories are listed.
- **Crash-safe deletion** (`Journals`, `Storage`, `World`, `Deletion`, `Protection`, `Recovery`, `Startup`,
  `Histories`, `Nested`, `Stranded`): every call of the store and of the private storage may fail or be cut off by a
  crash, before or after it took effect, and a rename moves everything below the entry. While the row stands every
  original is whole on exactly one side; once it is gone nothing is live; after one clean startup the deletion is
  undone or done in full. `Nested` and `Stranded` decide the one overlap, a Chat deletion beside the deletion of
  its Guru.
- **Chat progress** (`Timeline`, `Progress`, `Projection`, `Watching`, `PlainTimeline`): the mutable projection with
  its index map and its dirty, published and removed sets, and the viewers that rebuild it from patches.
- **Tool broker** (`Cardinality`, `Connections`, `Broker`): shared budgets with reservations, one connection
  through its calls, and many connections as interleaved steps through result, acknowledgement, commit and barrier.
- **Licence closure** (`LockFile`, `LockClosure`): the worklist over packages and extras as a least closed set.
- **KIS rules** (`KisTree`, `KisRules`): flat rules from if-trees, and exactly when flattening keeps the meaning.
- **Releases** (`Releases`): tags, qualification and the chain of update feeds.
- **Pi-stop marker** (`PiStop`): the quarantine that survives torn writes.

Mutable objects of the source are classes whose methods are proved against functions of their old state; the
properties of whole runs are lemmas about those functions. Clocks, schedules, failures and crash points are
parameters, so each result holds for all of them.

Four promises do not hold of the code as it stands; the code is modelled as it is, with the exact condition:

- `recover` (`apps/guruterminal/src-tauri/src/deletion.rs:146-151`) stops with an error, before the remaining
  journals, when the Guru of an invalid record cannot be looked up. `Startup.Recover` says that this and a failed
  listing are the only ways to stop, and `Histories.LookupFailureStopsRecovery` shows the case.
- A committed Chat deletion whose cleanup failed is to be retried until its tombstone is gone. It keeps its journal
  without quarantining the Guru (`apps/guruterminal/src-tauri/src/commands/records.rs:101-122`), and deleting the
  Guru does not look at pending journals (`apps/guruterminal/src-tauri/src/commands/guru.rs:603-650`). If that
  deletion ends after the Guru's home was renamed, the next startup works on the older Chat journal first, finds
  nothing under the home's name, and removes the journal; rolling the Guru back then brings the Chat's tombstone
  back for good. `Stranded.StrandedChat` is this history, for any Chat with something stored;
  `Nested.NestedSettled` says exactly when the Chat is settled.
- `extract_tr_id_rules` keeps the meaning of a row exactly under the condition in `KisRules.MeansIffFaithful`;
  `KisRules.MarkerSpelledOut` and `KisRules.UnfaithfulRow` give the inputs on which it does not. A whole tree of
  faithful rows keeps its meaning exactly when its run skips nothing behind its end that it does not also assign
  (`KisRules.AgreeIffNothingSkipped`); `KisRules.EarlyReturn` shows a tree that does not.
- Contiguous candidates are to keep every installed one on its feed
  (`apps/guruterminal/scripts/release-qualification.py:85-91`). The tag patterns take the digits of every script and
  compare numbers by value, while the feed's name is spelled in ASCII: `Releases.NextCandidatePublished` says exactly
  when the next feed is there, `Releases.ForeignDigitSkipsFeed` shows a history in which it is not.

The viewer in `apps/guruterminal/src/chat/ai-sdk.ts:97-127` removes items before it upserts others;
`Projection.PatchOrdersAgree` shows that for the patches that are emitted the order makes no difference.

## Model

| member | source | states |
|---|---|---|
| Search.Chunks | src/knowledge/query.rs:350-389 | chunks are consecutive pieces of the input in order, none empty, never more than the worker count |
| Search.RetainTop | src/knowledge/query.rs:210-231 | adding one candidate to the running list keeps exactly the top `limit` of everything seen, one result per ID |
| Search.SearchChunk | src/knowledge/query.rs:167-208 | a chunk scan reports the top `limit` of that chunk's candidates |
| Search.FinalizeResults | src/knowledge/query.rs:319-328 | sorting, keeping the first result of each ID and truncating is the reference ranking |
| TopK.ChunkKeepsTop | src/knowledge/query.rs:215-231 | cutting any one stretch of the candidates to its own top k leaves the global top k unchanged |
| TopK.ChunksKeepTop | src/knowledge/query.rs:106-143 | for every way of cutting the candidates, merging the chunk tops has the same top k as all candidates |
| Search.ScanAll | src/knowledge/query.rs:114-142 | for every worker count the merged chunk results have the global top, and are empty exactly when nothing matches at all, so the semantic fallback does not depend on chunking |
| Search.SearchDocuments | src/knowledge/query.rs:106-143 | a search equals one global sort, deduplication and cut, lexical if anything matched lexically, semantic otherwise; every result belongs to one of the documents, dated by the cutoff and not revoked unless asked for; results stand best first, each ID once, and are no more than the limit |
| Search.ResultsAdmitted | src/knowledge/query.rs:167-191 | every result stands for a searched document whose date is on or before the cutoff, and that is no revoked wiki or lens unless asked for |
| Search.CutoffIsFilter | src/knowledge/query.rs:181-188 | a search as of a day is the search without a day over the documents dated on or before it |
| Search.LaterCutoffKeeps | src/knowledge/query.rs:181-188 | raising or removing the cutoff never removes a candidate |
| Search.RevokedIsFilter | src/knowledge/query.rs:178-180 | leaving out revoked records is searching the other documents |
| Search.MatchesShown | src/knowledge/query.rs:106-143 | an admitted document that matches lexically is shown, by a result of its ID that scores as much, or the limit is filled with results that do; and the embedding then changes nothing |
| Search.ResultsRated | src/knowledge/query.rs:251-317 | every lexical result shows the part of its document that the fields, the sections and the query make the best, with the score they add up to |
| Search.SemanticResults | src/knowledge/query.rs:122-142 | when nothing matches lexically, each result is a document as a whole with the score the embedding gives it |
| Ranking.KeyOrderTotal | src/knowledge/search.rs:588-594 | the result order is a strict total order on score, timestamp, ID and heading path |
| Ranking.KeyMeaning | src/knowledge/search.rs:588-594 | the order spelled out: higher score, newer, then the ID and the heading path in the order of their characters |
| Ranking.RankUnique | src/knowledge/search.rs:588-594 | the ranking is the only strictly ordered list that shows, for each ID, the earliest of its best results |
| TopK.RelabelTop | src/knowledge/query.rs:190-207 | attaching explanations commutes with ranking |
| Relevance.ScoreDocument | src/knowledge/search.rs:310-361 | the accumulating passes over a document's fields compute the specified relevance |
| Relevance.FindBestResult | src/knowledge/query.rs:251-317 | the loop over sections keeps the specified best result of a document |
| Relevance.BandsDisjoint | src/knowledge/search.rs:57-75 | a higher tier always outscores a lower one, whatever the points |
| Relevance.ExactIdTier | src/knowledge/search.rs:268-287 | tier 5 is reached exactly by documents whose normalised ID is the query |
| Relevance.ExactIdScore | src/knowledge/query.rs:251-317 | through every section, number and coverage branch a valid document named by the query scores at least 5000 and every other stays below |
| Matching.FieldMeaning | src/knowledge/search.rs:219-264 | a field is the query, quotes it, has all its terms, or has some: tiers 4 to 1, with points for each shared term by the field's weight; what counts as shared is said of the texts |
| Matching.DocumentMeaning | src/knowledge/search.rs:287-361 | the accumulated document score, spelled out over the list of fields with their weights: best field, points up to 999, terms found, and what an anchor or full coverage adds |
| Matching.SectionMeaning | src/knowledge/search.rs:363-387 | a section's score: its heading counts in full, its text only as a phrase or a mention |
| Matching.SearchDocumentMeaning | src/knowledge/query.rs:251-317 | a valid document shows its best fitting section by rating, then heading path, or itself when no section fits; fitting, covering the query's numbers and terms, and the rating are all said of fields and sections |
| Matching.ExactScore | src/knowledge/search.rs:219-264 | a result scores 4000 or more if and only if the query is the document's ID, one of its fields, or the heading of the section shown |
| Search.ExactIdFirst | src/knowledge/query.rs:106-143 | if an eligible valid document is named by the query, the first result's ID normalises to the query |
| Sections.SplitSections | src/knowledge/catalog.rs:202-238 | the stack-based reader produces the sections defined by enclosing headings |
| Sections.HeadingMeaning | src/knowledge/catalog.rs:209-219 | a line is a heading exactly when it is hash signs, as many as its level, a space and its name, which is trimmed |
| Sections.SectionsMeaning | src/knowledge/catalog.rs:202-238 | a section is reported if and only if a stretch of lines between headings has its trimmed text, its path being the headings that enclose the stretch |
| Sections.NextHeading | src/knowledge/catalog.rs:219-229 | a new heading keeps exactly the enclosing headings of smaller level |
| Sections.PopIsBelow | src/knowledge/catalog.rs:221-223 | on an increasing stack popping is filtering by level |
| Sections.AncestorsNest | src/knowledge/catalog.rs:207-229 | the levels on the stack strictly increase |
| Sections.PathEndsHere | src/knowledge/catalog.rs:225-229 | a heading's path ends with the heading itself |
| Sections.EveryLineOnce | src/knowledge/catalog.rs:217-233 | before trimming and filtering every body line lies in exactly one section, in order |
| Records.RecordIdRoundTrip | src/memory_kind.rs:38-55 | a parsed record ID is its kind, a colon and its suffix |
| Records.IdMeaning | src/memory_kind.rs:38-55 | which IDs belong to a kind, character by character: the kind's name, a colon and slash-separated segments, with their lengths in bytes |
| Records.ValidateMeaning | src/knowledge/catalog.rs:330-500 | an issue is reported for a document if and only if its field has that problem, every rule spelled out |
| Records.ValidMeaning | src/knowledge/catalog.rs:250-252 | a document is valid if and only if no field has any problem |
| Records.IdKindUnique | src/knowledge/catalog.rs:497-504 | an ID belongs to a kind exactly when its canonical prefix is that kind, and only known kinds occur |
| Records.ValidIdNamesKind | src/knowledge/catalog.rs:330-361 | a valid document lies in the folder its own ID names |
| Strings.TrimMeaning | src/knowledge/query.rs:54-71 | trimming cuts off exactly the Unicode white space at both ends |
| Strings.LinesMeaning | src/knowledge/catalog.rs:202-210 | lines end at line feeds, with one carriage return before |
| Strings.LastLine | src/knowledge/catalog.rs:202-210 | a last line without line feed counts unless it is empty, and keeps its carriage return |
| Strings.ByteLenMeaning | src/memory_kind.rs:38-55 | lengths are in UTF-8 bytes, one to four for a character |
| Health.CheckDocuments | src/knowledge/health.rs:12-95 | the two passes with their maps report the specified issues |
| Health.CheckReports | src/knowledge/health.rs:12-95 | an issue is reported if and only if the layout, a document's own validation, a repeated ID or a missing or unsuitable reference gives it |
| Health.CheckMeaning | src/knowledge/health.rs:12-95 | the check is valid if and only if the layout is clean, every document validates, IDs are unique and every revoker, relationship and see_also target exists with an allowed kind |
| Health.MemoryCheckMeaning | src/knowledge/health.rs:12-95 | the same equivalence for the validator that the memory itself uses |
| Health.NoReturn | src/knowledge/catalog.rs:513-532 | in a healthy catalogue no chain of relationships returns to a kind it has left |
| Health.UniqueValidDocuments | src/knowledge/query.rs:145-165 | counting IDs in a map keeps exactly the valid documents that alone carry their ID |
| Health.UniqueValidMeaning | src/knowledge/query.rs:145-165 | a document is kept if and only if it validates and no other valid document carries its ID |
| Health.FilterDropsNothing | src/knowledge/query.rs:145-165 | in a healthy catalogue that filter drops nothing |
| Folders.CollectMarkdownFiles | src/knowledge/catalog.rs:608-632 | the recursive listing finds the Markdown files below a folder |
| Folders.CollectLayoutIssues | src/knowledge/catalog.rs:554-585 | the recursive check reports symlinks and foreign files |
| Folders.CollectContextPaths | src/knowledge/catalog.rs:83-123 | one walk finds what the listing and the layout check find separately |
| Folders.CapturePaths | src/knowledge/catalog.rs:40-60 | the capture's walk, in its own kind order, gives the sorted listing and the layout issues |
| Folders.LayoutIssues | src/knowledge/catalog.rs:534-552 | the separate layout pass over the kind folders |
| Folders.LocalMarkdownFilesForKinds | src/knowledge/catalog.rs:587-606 | the sorted listing of the requested kind folders, each visited once |
| Listings.LocalMeaning | src/knowledge/catalog.rs:587-635 | a path is listed exactly when it leads from a wanted kind folder through directories to a regular file with a Markdown name |
| Listings.LayoutMeaning | src/knowledge/catalog.rs:534-585 | an issue is reported exactly when one of the four kind folders is there but no directory, or has the offending entry below it |
| Listings.DisplayMeaning | src/knowledge/catalog.rs:637-642 | a displayed path is guruterminal/ and the path, every backslash shown as a slash |
| Folders.ListingByKind | src/knowledge/catalog.rs:591-606 | listing some kinds is listing all and keeping the paths under those folders |
| Catalog.CaptureLocalCatalog | src/knowledge/catalog.rs:40-81 | the capture succeeds exactly when every listed file can be read; it then equals the separate load, layout and revision passes, and otherwise names the first unreadable file |
| Catalog.Context | src/knowledge/context.rs:3-21 | check, records, health and charter of one capture equal `check`, `catalog_local`, `health` and reading lens:charter |
| Catalog.CharterIsRead | src/knowledge/context.rs:23-36 | the charter picked from the records is what reading its ID finds |
| Catalog.CheckRoot | src/knowledge/health.rs:3-10 | `check` reports on the separately loaded records and layout |
| Catalog.FindDocumentById | src/knowledge/catalog.rs:159-200 | the chunked lookup in the ID's own folder: missing, found or ambiguous |
| Catalog.FindMeaning | src/knowledge/catalog.rs:159-200 | reading an ID in its folder finds the document of the whole catalogue that is valid and alone in carrying it, or says that none or several carry it |
| Catalog.LoadedMeaning | src/knowledge/catalog.rs:254-328 | a record is what its file's text parses to under its own folder, path and text; a file that cannot be read or decoded is an unreadable record |
| Catalog.MatchesInFolder | src/knowledge/catalog.rs:159-200 | the folder named by the ID's prefix holds every valid document with that ID |
| Catalog.ReadIsUniqueValid | src/knowledge/catalog.rs:159-200 | reading an ID finds a document if and only if search, over all kinds, sees that document under that ID |
| Catalog.Read | src/knowledge/catalog.rs:128-157 | reading a document and one section of it: the only one whose heading or joined path is the name but for the case of ASCII letters, or an error that says whether none or several are |
| Catalog.OnlySectionSelected | src/knowledge/catalog.rs:134-157 | if only one section goes by the name asked for, in any ASCII case, that section is the one chosen |
| Catalog.KindsBeforeUniqueness | src/knowledge/query.rs:145-165 | restricting kinds before counting IDs equals restricting after |
| Catalog.MemoryValidatorNamesKind | src/knowledge/catalog.rs:359-361 | `validate_document` accepts only documents whose ID names their kind |
| Catalog.RevisionIdentifiesTree | src/knowledge/catalog.rs:61-75 | equal revision streams mean equal paths and equal file bytes |
| Catalog.SearchMemory | src/knowledge/query.rs:45-92 | the search entry point: an error exactly for blank text, else for the first unknown kind, else for a limit outside 1 to 50; then the reference search, each result of a record that is valid, alone in its ID, of a wanted kind, within the cutoff and not revoked unless asked for |
| Catalog.ReadableIdLeads | src/knowledge/query.rs:45-92 | searching a readable ID in its kind leads with that ID |
| Framing.FileStreamInjective | src/knowledge/catalog.rs:61-75 | the length-prefixed stream of a file list determines the list |
| Framing.FileStreamMeaning | src/knowledge/catalog.rs:61-75 | the stream's bytes: eight bytes of length, the path, eight bytes of length, the content, file after file |
| Framing.BigEndianReads | src/knowledge/catalog.rs:66-70 | a length's bytes, read most significant first, give the length |
| RuntimeTree.CollectRuntimeRecords | apps/guruterminal/src-tauri/build.rs:135-180 | the recursive walk collects one record for each file and directory below, and fails exactly when something below is neither or cannot be read |
| RuntimeTree.RuntimeTreeStream | apps/guruterminal/src-tauri/build.rs:120-133 | the digest is fed the tagged records of the whole tree in the order of their names |
| RuntimeTree.StreamExists | apps/guruterminal/src-tauri/build.rs:120-180 | there is a stream exactly for a directory below which there are only directories and readable files |
| RuntimeTree.StreamMeaning | apps/guruterminal/src-tauri/build.rs:120-180 | the stream is the bytes of one entry for each directory, d with no size and a zero digest, and each file, f with the size and digest of its content, in the order of their names |
| RuntimeTree.VisitedPlaces | apps/guruterminal/src-tauri/build.rs:135-180 | what is listed as a directory or file at a path is one there |
| Framing.TreeStreamInjective | apps/guruterminal/src-tauri/build.rs:120-133 | the tagged stream of a record list determines the list |
| RuntimeTree.TreeStreamIgnoresListing | apps/guruterminal/src-tauri/build.rs:120-180 | two listings of one tree, every directory in any order, have the same stream or both fail |
| Catalog.RevisionIgnoresListing | src/knowledge/catalog.rs:61-75 | two listings of one memory, every directory in any order, have the same revision stream, load the same records in the same order and give the same catalogue |
| Listings.ListedMeaning | src/knowledge/catalog.rs:608-632 | a path is listed if and only if it leads through directories to a regular file named *.md |
| Listings.ReportedMeaning | src/knowledge/catalog.rs:554-585 | an issue is reported if and only if a path through directories leads to the symlink or foreign file it complains about |
| Listings.ListingIgnoresOrder | src/knowledge/catalog.rs:587-632 | the sorted listing does not depend on the order of directory listings |
| Listings.LayoutIgnoresOrder | src/knowledge/catalog.rs:534-585 | nor does the set of layout issues, with how often each occurs |
| Journals.PathsDistinct | apps/guruterminal/src-tauri/src/deletion.rs:242-279 | of the entries of one valid journal none contains another |
| Journals.DetachedMeaning | apps/guruterminal/src-tauri/src/deletion.rs:105-107 | detaching changes a journal's phase, and its time by one unless that is the largest |
| Journals.ApartIff | apps/guruterminal/src-tauri/src/deletion.rs:242-279 | the entries of two valid journals are disjoint, none inside another, exactly when neither deletes the other's Guru and they are not the same deletion |
| World.World.RenameExpected | apps/guruterminal/src-tauri/src/secure_delete.rs:186-270 | a rename never replaces an entry, checks the identity, and may fail after taking effect |
| World.World.RemoveTreeExpected | apps/guruterminal/src-tauri/src/secure_delete.rs:276-312 | removal is idempotent and a failed one may leave part of the tree |
| World.World.CreateJournal | apps/guruterminal/src-tauri/src/store.rs:223-237 | a journal row is created only under fresh keys |
| World.World.ReplaceJournal | apps/guruterminal/src-tauri/src/store.rs:239-270 | a journal row is replaced only if it is still the expected one |
| World.World.DeleteJournal | apps/guruterminal/src-tauri/src/store.rs:303-317 | a journal row is removed only if it is still the expected one |
| World.World.DeleteTarget | apps/guruterminal/src-tauri/src/store.rs:583-626 | the row is deleted atomically and only if unchanged; a Guru takes its Chats with it |
| Deletion.DetachPaths | apps/guruterminal/src-tauri/src/deletion.rs:281-310 | renames conserve what stands at each path; success leaves no live entry; without failures it succeeds exactly when every path can be detached |
| Deletion.RollbackDetached | apps/guruterminal/src-tauri/src/deletion.rs:312-328 | undoing some renames conserves what stands at each path |
| Deletion.RollbackPaths | apps/guruterminal/src-tauri/src/deletion.rs:330-374 | rollback conserves what stands at each path; success leaves every path live; without failures it succeeds exactly when each path has one side, its required entry and the right identity |
| Deletion.CleanupPaths | apps/guruterminal/src-tauri/src/deletion.rs:376-381 | cleanup touches tombstones only; success leaves none |
| Storage.MoveMoves | apps/guruterminal/src-tauri/src/secure_delete.rs:182-270 | a rename moves the entry with everything below it and leaves nothing behind |
| Storage.MoveConserves | apps/guruterminal/src-tauri/src/deletion.rs:281-374 | moving one entry to its other side loses and changes nothing at or below any path of the deletion, and nothing elsewhere |
| Recovery.ExecuteDeletion | apps/guruterminal/src-tauri/src/deletion.rs:81-129 | under any failures and a crash anywhere the deletion stays protected; success means row, entries and journal are gone; without failures it succeeds exactly when the row is still the expected one, and else changes nothing |
| Recovery.UndoDeletion | apps/guruterminal/src-tauri/src/deletion.rs:91-103 | the shared error path: journal removed only after a complete rollback |
| Protection.ProtectedSettles | apps/guruterminal/src-tauri/src/deletion.rs:81-129 | a protected deletion without journal is settled: row and all originals back with everything below them, or both gone, and nothing at or below a tombstone |
| Protection.ProtectedFiles | apps/guruterminal/src-tauri/src/deletion.rs:81-129 | what protection says of the stored files, by name: while the row stands each is whole under its own or its hidden name, and once it is gone none is live |
| Protection.ResolvedDone | apps/guruterminal/src-tauri/src/deletion.rs:81-129 | settled, by name: a Chat's sessions, runtime and attachments, or a Guru's home and runs, are all back with everything below them or all gone |
| Protection.OthersUntouched | apps/guruterminal/src-tauri/src/deletion.rs:242-279 | work on a deletion's entries changes nothing but the entries that the Chat or the Guru owns, by name |
| Protection.ElsewhereProtects | apps/guruterminal/src-tauri/src/deletion.rs:131-220 | work on other entries, rows and records leaves a deletion protected |
| Startup.ReconcileRecord | apps/guruterminal/src-tauri/src/deletion.rs:137-218 | one turn of recovery: what it may change, when it quarantines, when it gives up, when it completes |
| Startup.TurnLeavesOthers | apps/guruterminal/src-tauri/src/deletion.rs:137-218 | a turn changes nothing that the turn of a journal with disjoint entries looks at |
| Startup.Recover | apps/guruterminal/src-tauri/src/deletion.rs:131-220 | under any failures every deletion stays protected, every remaining journal whose row stands has its Guru quarantined, no Guru is quarantined without a row that stands or a lookup that failed, and a deletion whose own calls work is settled whatever fails elsewhere; recovery gives up exactly when the listing or the lookup for an unusable record fails |
| Startup.QuarantineMeaning | apps/guruterminal/src-tauri/src/deletion.rs:131-220 | which rows those are: the Guru of an invalid record or of a Guru deletion, the Chat of a Chat deletion |
| Histories.JournalsValid | apps/guruterminal/src-tauri/src/domain/guru.rs:184-211 | the journals that deletion writes are valid exactly for IDs of one or more ASCII letters, digits, hyphens and underscores and a time that is not negative |
| Histories.DeleteChat | apps/guruterminal/src-tauri/src/deletion.rs:27-44 | a fresh Chat deletion is protected; on success the Chat's row and its entries under pi-sessions, pi-runtime and workbench/attachments are gone, hidden ones too; no other entry or row changes |
| Histories.DeleteGuru | apps/guruterminal/src-tauri/src/deletion.rs:46-79 | a Guru deletion first refuses a missing or replaced tree without changing anything; on success the Guru's row, its Chats' rows, its home and its runs are gone, hidden ones too; no other entry, Guru or Chat changes |
| Histories.ExecutionSparesOthers | apps/guruterminal/src-tauri/src/deletion.rs:81-129 | deleting one target leaves every other pending deletion protected |
| Histories.DeleteAndRestart | apps/guruterminal/src-tauri/src/deletion.rs:81-220 | a deletion cut off anywhere, any number of failing or crashing startups, then one clean startup: it and every other pending deletion with entries of its own is settled |
| Nested.GuruDeletionNests | apps/guruterminal/src-tauri/src/deletion.rs:81-129 | deleting a Guru under any failures keeps a pending deletion of one of its Chats in order: its entries are in the home, wherever that stands, or gone with it |
| Nested.TurnLoses | apps/guruterminal/src-tauri/src/deletion.rs:137-218 | in every turn of recovery, whatever fails, the Chat is lost exactly by removing its journal while its tombstone stands inside the hidden home of a standing Guru |
| Nested.KeysDiffer | apps/guruterminal/src-tauri/src/store/schema.rs:219-226 | while both journals are stored, the table's keys see to it that every other usable journal deletes something else |
| Nested.NestedSettled | apps/guruterminal/src-tauri/src/deletion.rs:131-220 | a recovery whose calls for the two journals work settles the Chat if and only if it was not lost before and it is not so that the Guru stands with its home hidden, a tombstone of the Chat is inside, and the Chat's journal comes first |
| Stranded.RecoverBoth | apps/guruterminal/src-tauri/src/deletion.rs:131-220 | `recover` under any failures keeps both deletions in order, and settles the Chat under exactly that condition when the calls for both work |
| Stranded.DeleteGuruBesideChat | apps/guruterminal/src-tauri/src/deletion.rs:81-220 | deleting a Guru cut off anywhere while a deletion of its Chat is pending, any number of failing startups, then a clean one: the Chat is settled exactly when that startup does not find it in that condition |
| Stranded.StrandedChat | apps/guruterminal/src-tauri/src/deletion.rs:81-220 | for every Chat with something stored: its cleanup fails, its Guru's deletion is cut off after the first rename, and the next startup, without any failure, removes the Chat's journal and leaves its tombstone in the restored Guru |
| Histories.LookupFailureStopsRecovery | apps/guruterminal/src-tauri/src/deletion.rs:140-151 | a concrete case where the failed lookup for an unusable record stops recovery before a healthy journal |
| Progress.ChatProgressProjection.AppendCommentary | apps/guruterminal/src-tauri/src/chat_progress.rs:346-369 | the text goes to the open commentary item or to a new one, which is marked dirty |
| Progress.ChatProgressProjection.RemoveItem | apps/guruterminal/src-tauri/src/chat_progress.rs:576-589 | an item is removed, later indices move up, and a published one is announced as removed |
| Progress.ChatProgressProjection.StartTool | apps/guruterminal/src-tauri/src/chat_progress.rs:381-407 | a running tool item is pushed under a new ID, started at the time given or at 0 if that is negative |
| Progress.ChatProgressProjection.FinishTool | apps/guruterminal/src-tauri/src/chat_progress.rs:409-431 | the item of that call, and no other, is ended in place, at the time given or when it started if that is later |
| Progress.ChatProgressProjection.TakePatch | apps/guruterminal/src-tauri/src/chat_progress.rs:492-520 | the dirty items, removals and finish time go out as one patch and are forgotten |
| Progress.ChatProgressProjection.Finish | apps/guruterminal/src-tauri/src/chat_progress.rs:522-568 | every open item is stopped or failed and given an end no earlier than its start, marked dirty, and the finish time is no earlier than the start time |
| Progress.ValidateTimes | apps/guruterminal/src-tauri/src/chat_progress.rs:241-259 | the times, states and IDs part of validation, both directions |
| Timeline.TextInjective | apps/guruterminal/src-tauri/src/chat_progress.rs:591-595 | item IDs are written in different ways |
| Timeline.TextMeaning | apps/guruterminal/src-tauri/src/chat_progress.rs:591-595 | an item ID is written commentary-, tool- or system- and its number |
| Strings.DecimalMeaning | apps/guruterminal/src-tauri/src/chat_progress.rs:591-595 | a number is written in its decimal digits without leading zeros |
| Timeline.PatchCompletes | apps/guruterminal/src/chat/ai-sdk.ts:97-127 | a viewer that follows the timeline shows exactly it after removals and upserts |
| Timeline.OrdersAgree | apps/guruterminal/src/chat/ai-sdk.ts:97-127 | removing after the upserts instead of before gives the same items |
| Projection.RemoveSound | apps/guruterminal/src-tauri/src/chat_progress.rs:576-589 | removal keeps indices, dirty, published and removed bookkeeping sound |
| Projection.PatchIsExact | apps/guruterminal/src-tauri/src/chat_progress.rs:492-520 | the patch turns what the viewer shows into the timeline |
| Projection.PatchOrdersAgree | apps/guruterminal/src-tauri/src/chat_progress.rs:492-520 | an emitted patch may be applied in either order |
| Watching.RunInStep | apps/guruterminal/src-tauri/src/chat_progress.rs:346-596 | in every interleaving the k-th patch has sequence k and a viewer that applies all of them stays in step |
| Watching.PatchShowsSnapshot | apps/guruterminal/src-tauri/src/chat_progress.rs:484-520 | right after take_patch the viewer shows exactly the snapshot, finish time and sequence included |
| Watching.NoneMeansNoChange | apps/guruterminal/src-tauri/src/chat_progress.rs:508-510 | take_patch returns nothing only when the viewer already shows the snapshot |
| Watching.LossyBehind | apps/guruterminal/src/chat/ai-sdk.ts:97-101 | a viewer that misses patches is behind or exact, never wrong at the latest sequence |
| Watching.SnapshotResyncs | apps/guruterminal/src-tauri/src/commands/chat_runtime.rs:741-758 | the terminal snapshot brings every viewer up to date, whatever it missed |
| Watching.SnapshotsValid | apps/guruterminal/src-tauri/src/chat_progress.rs:241-259 | every snapshot has valid times, states and IDs exactly when the start time is valid |
| Watching.FinishIsDurable | apps/guruterminal/src-tauri/src/chat_progress.rs:522-568 | after finish they are valid for durable storage exactly when the start time is valid |
| PlainTimeline.PerformIsPlain | apps/guruterminal/src-tauri/src/chat_progress.rs:346-596 | each call does to the items, found through the index map, what it means for a plain list of items found by ID |
| PlainTimeline.RunIsPlain | apps/guruterminal/src-tauri/src/chat_progress.rs:346-596 | in every run the projection shows the plain timeline of its calls, without any bookkeeping |
| PlainTimeline.PlayInOrder | apps/guruterminal/src-tauri/src/chat_progress.rs:381-407 | items, parallel tools included, stand in the order in which they were started |
| Watching.RunOn | apps/guruterminal/src-tauri/src/chat_progress.rs:316-596 | an object put through any calls is in the state of that run and emitted its patches |
| Cardinality.TransactionCardinality.Consume | apps/guruterminal/src-tauri/src/broker.rs:486-519 | a call is counted unless its budget is used up |
| Cardinality.ParsedName | apps/guruterminal/src-tauri/src/broker.rs:240-300 | which name each tool method has, both directions |
| Cardinality.BudgetsSpelledOut | apps/guruterminal/src-tauri/src/broker.rs:486-533 | which calls are in budget and which counter each one takes from, call by call, and that giving back undoes it |
| Cardinality.TransactionCardinality.Rollback | apps/guruterminal/src-tauri/src/broker.rs:521-533 | one unit goes back, never below zero |
| Cardinality.TransactionReservation.Drop | apps/guruterminal/src-tauri/src/broker.rs:566-575 | dropping gives the unit back unless committed |
| Cardinality.ReserveThenDrop | apps/guruterminal/src-tauri/src/broker.rs:551-575 | a reservation that is dropped gives back exactly what it took |
| Connections.Execute | apps/guruterminal/src-tauri/src/broker.rs:1057-1111 | a reservation is held exactly while an admitted request with budget left has succeeded; a failed one has given its unit back |
| Connections.DriveEnds | apps/guruterminal/src-tauri/src/broker.rs:869-981 | a connection of the interleaved model, resumed alone with the events of a script, ends with the counters, commits, discards and frames of that script |
| Connections.HandleConnection | apps/guruterminal/src-tauri/src/broker.rs:869-981 | one connection without interruption: committed once, exactly when admitted, in budget, executed, written and acknowledged; a request with a wrong token, a wrong protocol, an unusable ID or a method the policy forbids is answered with an error and discarded, and changes no counter; a commit had an acknowledgement of this protocol and ID that says delivered |
| Connections.RunsMeaning | apps/guruterminal/src-tauri/src/broker.rs:1057-1111 | a call is executed exactly when protocol, ID, token, method, policy and budget allow it, each spelled out |
| Broker.AdmittedMeaning | apps/guruterminal/src-tauri/src/broker.rs:1057-1111 | a request is admitted for a method exactly when ID, protocol, token and name fit and the policy allows that method, field by field |
| Broker.RunVouched | apps/guruterminal/src-tauri/src/broker.rs:869-981 | in every interleaving a connection that holds or has kept a unit carried the broker's token, protocol and an allowed method |
| Broker.RunBalanced | apps/guruterminal/src-tauri/src/broker.rs:869-981 | in every interleaving, drops at any await included, each counter is live plus committed reservations and within its limit |
| Broker.NeverSaturates | apps/guruterminal/src-tauri/src/broker.rs:521-533 | no reservation is given back to a counter at zero |
| Broker.BudgetLimits | apps/guruterminal/src-tauri/src/broker.rs:486-519 | at most 1 decision, 3 evidence, 8 or fewer proposals and 4 artifacts and charts together |
| Broker.DrainedIsCommitted | apps/guruterminal/src-tauri/src/broker.rs:566-575 | once all connections have ended the counters are the commits |
| Broker.CommittedOrDiscarded | apps/guruterminal/src-tauri/src/broker.rs:895-972 | a connection run to its end was committed exactly when its success frame was written and acknowledged; with a request and no commit it was discarded; never both; a unit is kept exactly when committed |
| Broker.BarrierMeansCommitted | apps/guruterminal/src-tauri/src/broker.rs:968-981 | success frame and commit barrier together mean the delivery is committed |
| LockFile.CanonicalIsNormal | apps/guruterminal/openbb/license_bundle.py:52-55 | canonical names are in PEP 503 normal form |
| LockFile.CanonicalTwice | apps/guruterminal/openbb/license_bundle.py:52-55 | canonicalisation is idempotent |
| LockFile.CanonicalPlain | apps/guruterminal/openbb/license_bundle.py:52-55 | a name without separators only has its capital letters made small |
| LockFile.CanonicalRun | apps/guruterminal/openbb/license_bundle.py:52-55 | each run of separators in a name becomes one hyphen |
| LockFile.RequestedMeaning | apps/guruterminal/openbb/license_bundle.py:81-88 | which extras a dependency asks for: the one or the list under extra, or if that is missing under extras |
| LockFile.LockPackages | apps/guruterminal/openbb/license_bundle.py:66-78 | succeeds exactly when names are present and distinct and the root is listed; then one entry per canonical name |
| LockClosure.LockedRuntimeClosure | apps/guruterminal/openbb/license_bundle.py:91-131 | the worklist terminates; it succeeds exactly when every package reached is in the lockfile, and then returns exactly the packages that a chain of dependencies, over regular ones and over extras asked for singly or in a list, leads to, but for the root |
| LockClosure.ReachedIsLeast | apps/guruterminal/openbb/license_bundle.py:91-131 | what is reached lies in every set closed under regular and requested-extra dependencies |
| LockClosure.ReachedIsClosed | apps/guruterminal/openbb/license_bundle.py:91-131 | what is reached is itself closed |
| LockClosure.LeadsMeaning | apps/guruterminal/openbb/license_bundle.py:98-128 | one step of such a chain, said of the packages' own dependency lists and the extras asked for |
| LockClosure.PoppedShrinks | apps/guruterminal/openbb/license_bundle.py:98-128 | each turn expands a package, expands an extra or shortens the list |
| KisTree.VisitBlock | apps/guruterminal/scripts/generate-kis-read-api.py:330-361 | the visitor's pushes and pops collect each assignment with the conditions around it, or fail on a test it cannot parse |
| KisTree.BlockRunsRows | apps/guruterminal/scripts/generate-kis-read-api.py:330-361 | the path of a row with this value holds if and only if the run assigns the value or skips it behind the return or raise that ended it |
| KisTree.HeldSplits | apps/guruterminal/scripts/generate-kis-read-api.py:330-361 | the assignments whose own tests hold are those the run makes and those it skips |
| KisTree.LateStopsSkipNothing | apps/guruterminal/scripts/generate-kis-read-api.py:330-361 | a tree with nothing assigned behind a return or raise skips nothing |
| KisTree.AcceptedOr | apps/guruterminal/scripts/generate-kis-read-api.py:299-317 | an accepted disjunction is true of every known environment |
| KisTree.ParsedMeaning | apps/guruterminal/scripts/generate-kis-read-api.py:308-316 | a parsed test means name equals literal |
| KisTree.ParseMeaning | apps/guruterminal/scripts/generate-kis-read-api.py:299-317 | which tests are accepted, and as what: a comparison, or an alternative of real and demo on env_dv |
| KisTree.PyEqMeaning | apps/guruterminal/scripts/generate-kis-read-api.py:299-317 | how literals compare: text with text, and truth values with the numbers 0 and 1 |
| KisTree.BlockParses | apps/guruterminal/scripts/generate-kis-read-api.py:330-361 | a tree is accepted exactly when every test on the path of an assignment is, and every path extends the path of its block |
| KisRules.ExtractTrIdRules | apps/guruterminal/scripts/generate-kis-read-api.py:320-421 | the loops produce the specified rules or fail |
| KisRules.RowAccepted | apps/guruterminal/scripts/generate-kis-read-api.py:363-385 | a row is accepted exactly when each test on its path compares or asks for either environment, those taken of one name agree, and a name that is refused is also taken, the environment marker aside |
| KisRules.RuleConditions | apps/guruterminal/scripts/generate-kis-read-api.py:363-403 | a rule has a condition for each variable taken on its path, env_dv under the name environment, with a value it is compared with |
| KisRules.CoverageMeaning | apps/guruterminal/scripts/generate-kis-read-api.py:405-421 | what the final check on environments asks of the rows |
| KisRules.TreeAccepted | apps/guruterminal/scripts/generate-kis-read-api.py:320-421 | a tree is accepted exactly when it assigns something, every row has a value and is accepted, and the rows serve both environments |
| KisRules.MeansIffFaithful | apps/guruterminal/scripts/generate-kis-read-api.py:368-403 | a row's rule matches exactly the valuations on which its path holds, if and only if no taken test spells the marker out, no real-or-demo test is refused, no refused equality repeats its name's taken value and no parameter is called environment |
| KisRules.UnfaithfulRow | apps/guruterminal/scripts/generate-kis-read-api.py:363-403 | every row that breaks the condition has a valuation that its rule matches and its path refuses |
| KisRules.MarkerSpelledOut | apps/guruterminal/scripts/generate-kis-read-api.py:370-373 | an accepted tree that compares env_dv with the text real_or_demo itself: its rule always matches and its assignment is made for that text only |
| KisRules.RulesMeanRuns | apps/guruterminal/scripts/generate-kis-read-api.py:320-421 | for every accepted tree of faithful rows and every known environment, a rule with a value matches if and only if the run assigns the value or skips it behind its end |
| KisRules.AgreeIffNothingSkipped | apps/guruterminal/scripts/generate-kis-read-api.py:320-421 | rules and run agree on every value if and only if the run skips no value that it does not also assign |
| KisRules.EarlyReturn | apps/guruterminal/scripts/generate-kis-read-api.py:333-361 | an accepted tree of faithful rows with a return before an assignment: a rule matches and the run assigns nothing |
| Releases.TagRoundTrip | apps/guruterminal/scripts/release-qualification.py:15-16 | a tag is read back from its text |
| Releases.TagTextUnique | apps/guruterminal/scripts/release-qualification.py:15-16 | a text the patterns accept, in digits of any script, is its tag's own text if and only if it is written in ASCII digits |
| Releases.TagTextMeaning | apps/guruterminal/scripts/release-qualification.py:15-16 | a tag's own text: v, three numbers with dots and, for a candidate, -rc. and its number |
| Releases.TagMeaning | apps/guruterminal/scripts/release-qualification.py:15-16 | an accepted text is such a text, each number in digits of any script that add up to it, the first from 1 to 9 in ASCII unless it is 0 |
| Releases.OrderMeaning | apps/guruterminal/scripts/release-qualification.py:57-82 | the order of releases: earlier versions first, then the candidates of a version by number, then its stable |
| Releases.StableMeaning | apps/guruterminal/scripts/release-qualification.py:57-82 | a stable is accepted exactly after the latest stable, if earlier, or as the first after a candidate of its own version |
| Releases.RcMeaning | apps/guruterminal/scripts/release-qualification.py:85-120 | a candidate N is accepted exactly when its spelling's candidates published are 1 to N-1 and its stable is not published |
| Releases.OrderImplied | apps/guruterminal/scripts/release-qualification.py:57-82 | the order check is implied by the other checks of a stable release |
| Releases.ValidateRcReleaseSequence | apps/guruterminal/scripts/release-qualification.py:85-120 | accepts exactly the next contiguous candidate of a version, as it is spelled, whose stable is not published |
| Releases.HistoryOrderly | apps/guruterminal/scripts/release-qualification.py:52-120 | over every run of accepted publications the candidates of each spelled version are rc.1 to rc.n, none follows its stable, and the stables form one increasing chain of qualifications, the first from its own candidate |
| Releases.AsciiHistory | apps/guruterminal/scripts/release-qualification.py:52-120 | while all published tags are in ASCII digits, spellings are versions: no candidate follows the stable of its version, and each number up to the last is published under its own tag |
| Releases.UpdateEndpoints | apps/guruterminal/scripts/create-release-config.py:46-61 | a candidate asks for the next candidate's feed first and then for the stable feed, a stable for the stable feed only, at the addresses spelled out |
| Releases.NextCandidatePublished | apps/guruterminal/scripts/release-qualification.py:85-120 | beside an installed rc.k with a later candidate the number k+1 is published, and the tag its fixed feed names is there if and only if that number is published in ASCII digits |
| Releases.ForeignDigitSkipsFeed | apps/guruterminal/scripts/release-qualification.py:85-120 | eleven accepted publications after which an installed rc.9 does not find rc.10, although rc.11 is published |
| PiStop.MarkerRoundTrip | apps/guruterminal/src-tauri/src/chat_execution_session.rs:247-339 | a complete marker parses back to its group |
| PiStop.TornMarkerRejected | apps/guruterminal/src-tauri/src/chat_execution_session.rs:325-339 | every proper prefix of a marker is rejected |
| PiStop.MarkerFits | apps/guruterminal/src-tauri/src/chat_execution_session.rs:289-312 | every marker fits the size the reader accepts |
| PiStop.ReadMeaning | apps/guruterminal/src-tauri/src/chat_execution_session.rs:247-339 | a marker is read exactly when it is a private regular file of at most 64 bytes, decimal digits and a line feed, that name a group from 2 to 2147483647 |
| PiStop.ChatExecutionSession.Record | apps/guruterminal/src-tauri/src/chat_execution_session.rs:122-143 | a record that took effect is guarded by the marker, torn or complete; an existing marker is never overwritten |
| PiStop.ChatExecutionSession.FinishResolve | apps/guruterminal/src-tauri/src/chat_execution_session.rs:163-189 | only a confirmed stop releases a group, and only the marker that was read is removed |
| PiStop.ChatExecutionSession.Wipe | apps/guruterminal/src-tauri/src/chat_execution_session.rs:191-206 | a wipe succeeds, or touches the cache at all, only when no recorded group is owed |
| PiStop.RunGuarded | apps/guruterminal/src-tauri/src/chat_execution_session.rs:122-206 | in every run, resolves overlapping with everything else and any call failing, when a wipe succeeds each group recorded before it has since been confirmed exited |
| PiStop.WipeNeedsStops | apps/guruterminal/src-tauri/src/chat_execution_session.rs:191-206 | after any run, a wipe that succeeds or empties the cache finds each record confirmed, and is itself recorded |
| PiStop.Perform | apps/guruterminal/src-tauri/src/chat_execution_session.rs:122-206 | one action of a run: a record that took effect adds its group to the groups owed, a confirmed stop takes away the group it was for, and nothing else changes them |
| PiStop.Run | apps/guruterminal/src-tauri/src/chat_execution_session.rs:122-206 | an object put through any actions is in the state of that run |

## Left out

- Threads: chunk scans and broker connections run as an ordered map and as interleaved steps; a panicking scan thread and the 64-connection limit are not modelled.
- Relevance: the multiplication in a field's points saturates only where the source saturates; 32-bit overflow of a single product is not modelled. Tokens, stems, Unicode lower-casing, number extraction, bounded phrases and RFC 3339 parsing are uninterpreted functions; embeddings are an uninterpreted score.
- Wording of messages: issues carry a tag instead of text, and a document that cannot be decoded carries one wording on both loading paths.
- Front matter: the parser is a function from text to document; `health_documents` is an uninterpreted function of the records.
- Files: the tree does not change between the walk and the reads, names are UTF-8, and equal revisions are equal streams, SHA-256 itself being left out.
- World.World.DeleteTarget: a reported failure is taken to mean that the transaction did not commit; every other call may also fail after taking effect.
- Histories.DeleteAndRestart: the deletions pending at once have entries of their own; the one other case, a Chat deletion beside the deletion of its Guru (`Journals.ApartIff`), is decided by `Stranded.DeleteGuruBesideChat`. A Chat deletion that begins while its Guru's deletion is pending is refused by the quarantine, which is not part of this model.
- Deletion: directory handles, fsync ordering, device checks and the Windows branch are left out, and so is `has_pending_for`, which only reads the journal table.
- Timeline: the text and link rules of item validation, `summarize_tool` and path redaction are left out; whitespace-only commentary can fail full validation. Sequence numbers are followed for the first 2^64 - 2 patches, before they saturate; JavaScript number precision is not modelled.
- Broker: an abort inside `commit_delivery`, JSON encoding, timeouts as such and the identity lease are left out; an error response may be discarded twice, so discards are counted as at least one.
- LockFile: names are ASCII and TOML parsing is left out; the legal-metadata archive is left out.
- KisTree: assignments inside loops, with or try blocks and parameters reassigned before a test are not modelled; doc strings, columns and the table's consumer are left out.
- Releases: receipts and the other qualification checks are left out.
- PiStop.ChatExecutionSession.Record: a power loss that loses a marker whose directory was not yet synced is not modelled; inode numbers are not reused.
- Not part of this model: user interface, browser, charts, command line, packaging and audits.
