/**
 Loading the Memory catalogue, the one-pass context capture, lookup by record
 ID and the search entry point (src/knowledge/catalog.rs:21-81, 131-200,
 256-330; src/knowledge/context.rs; src/knowledge/query.rs:45-89, 145-165).
 */
module Catalog {
  import opened Folders
  import opened Framing
  import opened Health
  import Listings
  import opened Lists
  import opened Ordering
  import opened Records
  import Ranking
  import Relevance
  import Search
  import Sections
  import opened Strings
  import opened Wrappers

  /**
   The Memory tree, the bytes of its files (None: the read fails), UTF-8
   decoding and encoding, and the front-matter parser.
   */
  datatype Memory = Memory(
    tree: Tree, bytes: Path -> Option<seq<Byte>>, decode: seq<Byte> -> Option<string>,
    encode: string -> seq<Byte>, parse: string -> Document)

  function KindFolder(path: Path): string {
    if |path| == 0 then "" else path[0]
  }

  function FromContent(m: Memory, path: Path, content: string): Document {
    m.parse(content).(kind := KindFolder(path), path := Display(path), content := content)
  }

  function Unreadable(path: Path): Document {
    Document("", KindFolder(path), "", "", "", Display(path), [], [], [], [], None, None, None, None, [], "", "",
             Some("cannot read Markdown"), {}, [])
  }

  function LoadLocal(m: Memory, path: Path): Document {
    match m.bytes(path)
    case None => Unreadable(path)
    case Some(bytes) => FromBytes(m, path, bytes)
  }

  function FromBytes(m: Memory, path: Path, bytes: seq<Byte>): Document {
    match m.decode(bytes)
    case None => Unreadable(path)
    case Some(content) => FromContent(m, path, content)
  }

  function Loader(m: Memory): Path -> Document {
    (path: Path) => LoadLocal(m, path)
  }

  function LoadAll(m: Memory, kinds: seq<string>): seq<Document> {
    Map(Loader(m), LocalMarkdown(m.tree, kinds))
  }

  predicate DocumentBefore(a: Document, b: Document) {
    StringsLess([a.kind, a.id], [b.kind, b.id])
  }

  /** `catalog_local_unchecked`: every record, by kind and ID. */
  function CatalogUnchecked(m: Memory): seq<Document> {
    Sort(DocumentBefore, LoadAll(m, []))
  }

  function CatalogLocal(validate: Validator, m: Memory): seq<Document> {
    ValidOnes(validate, CatalogUnchecked(m))
  }

  /** `check`: the separate walk for issues, the separate load of the records. */
  method CheckRoot(validate: Validator, m: Memory) returns (check: KnowledgeCheck)
    ensures check == Check(validate, CatalogUnchecked(m), Layout(m.tree))
  {
    var paths := LocalMarkdownFilesForKinds(m.tree, []);
    var docs := Sort(DocumentBefore, Map(Loader(m), paths));
    var layout := LayoutIssues(m.tree);
    check := CheckDocuments(validate, docs, layout);
  }

  // -------------------------------------------------------------- revision

  function RelativeName(path: Path): string {
    Join(path, "/")
  }

  function RevisionRecord(m: Memory): Path -> FileRecord {
    (path: Path) =>
      FileRecord(m.encode(RelativeName(path)), if m.bytes(path).Some? then m.bytes(path).value else [])
  }

  /** The bytes hashed for the catalogue revision. */
  function RevisionStream(m: Memory): seq<Byte> {
    FileStream(Map(RevisionRecord(m), LocalMarkdown(m.tree, [])))
  }

  // --------------------------------------------------------------- capture

  datatype Capture = Capture(stream: seq<Byte>, documents: seq<Document>, layout: seq<Issue>)

  method UpdateStream(m: Memory, stream: seq<Byte>, path: Path, bytes: seq<Byte>) returns (updated: seq<Byte>)
    requires m.bytes(path) == Some(bytes)
    ensures updated == stream + FileFrame(RevisionRecord(m)(path))
  {
    var relative := m.encode(RelativeName(path));
    updated := stream + Be64(|relative|);
    updated := updated + relative;
    updated := updated + Be64(|bytes|);
    updated := updated + bytes;
    Regroup(stream, Be64(|relative|), relative);
    Regroup(stream + Prefixed(relative), Be64(|bytes|), bytes);
    Regroup(stream, Prefixed(relative), Prefixed(bytes));
  }

  lemma {:induction false} ReadNext(m: Memory, paths: seq<Path>, i: nat)
    requires i < |paths|
    ensures FileStream(Map(RevisionRecord(m), paths[..i + 1])) ==
            FileStream(Map(RevisionRecord(m), paths[..i])) + FileFrame(RevisionRecord(m)(paths[i]))
    ensures Map(Loader(m), paths[..i + 1]) == Map(Loader(m), paths[..i]) + [Loader(m)(paths[i])]
  {
    assert Map(RevisionRecord(m), paths[..i + 1])[..i] == Map(RevisionRecord(m), paths[..i]);
  }

  ghost predicate FirstUnreadable(m: Memory, paths: seq<Path>, path: Path) {
    exists i :: 0 <= i < |paths| && path == paths[i] && m.bytes(paths[i]).None? &&
                forall j :: 0 <= j < i ==> m.bytes(paths[j]).Some?
  }

  /** Reads each file once; fails at the first file that cannot be read. */
  method ReadFiles(m: Memory, paths: seq<Path>) returns (read: Result<(seq<Byte>, seq<Document>), Path>)
    ensures read.Ok? ==> (forall path :: path in paths ==> m.bytes(path).Some?) &&
                         read.value == (FileStream(Map(RevisionRecord(m), paths)), Map(Loader(m), paths))
    ensures read.Err? ==> FirstUnreadable(m, paths, read.error)
  {
    var stream: seq<Byte>, documents: seq<Document> := [], [];
    for i := 0 to |paths|
      invariant stream == FileStream(Map(RevisionRecord(m), paths[..i]))
      invariant documents == Map(Loader(m), paths[..i])
      invariant forall j :: 0 <= j < i ==> m.bytes(paths[j]).Some?
    {
      var path := paths[i];
      var bytes := m.bytes(path);
      if bytes.None? {
        return Err(path);
      }
      ReadNext(m, paths, i);
      var updated := UpdateStream(m, stream, path, bytes.value);
      stream := updated;
      documents := documents + [FromBytes(m, path, bytes.value)];
    }
    assert paths[..|paths|] == paths;
    read := Ok((stream, documents));
  }

  /** One pass gives what the separate listing, loading and layout passes give. */
  method CaptureLocalCatalog(m: Memory) returns (capture: Result<Capture, Path>)
    ensures capture.Ok? <==> forall path :: path in LocalMarkdown(m.tree, []) ==> m.bytes(path).Some?
    ensures capture.Ok? ==> capture.value == Capture(RevisionStream(m), CatalogUnchecked(m), Layout(m.tree))
    ensures capture.Err? ==> FirstUnreadable(m, LocalMarkdown(m.tree, []), capture.error)
  {
    var paths, layout := CapturePaths(m.tree);
    var read := ReadFiles(m, paths);
    match read {
      case Err(path) => capture := Err(path);
      case Ok((stream, documents)) => capture := Ok(Capture(stream, Sort(DocumentBefore, documents), layout));
    }
  }

  // ----------------------------------------------------------- lookup by ID

  datatype Lookup = Missing | Found(document: Document) | Ambiguous

  function Verdict(matches: seq<Document>): Lookup {
    if |matches| == 0 then Missing else if |matches| == 1 then Found(matches[0]) else Ambiguous
  }

  function CarriesId(validate: Validator, id: string): Document -> bool {
    (doc: Document) => doc.id == id && Passes(validate, doc)
  }

  /** `find_document_by_id`: only the folder named by the ID is searched. */
  function FindById(validate: Validator, m: Memory, id: string): Lookup {
    match CanonicalIdKind(id)
    case None => Missing
    case Some(kind) => Verdict(Filter(CarriesId(validate, id), LoadAll(m, [kind])))
  }

  method FindInChunk(validate: Validator, m: Memory, chunk: seq<Path>, id: string, found: seq<Document>,
                     ghost before: seq<Path>)
    returns (matches: seq<Document>)
    requires found == Filter(CarriesId(validate, id), Map(Loader(m), before))
    ensures matches == Filter(CarriesId(validate, id), Map(Loader(m), before + chunk))
  {
    assert Map(Loader(m), before + chunk) == Map(Loader(m), before) + Map(Loader(m), chunk);
    FilterConcat(CarriesId(validate, id), Map(Loader(m), before), Map(Loader(m), chunk));
    matches := found + Filter(CarriesId(validate, id), Map(Loader(m), chunk));
  }

  /** `find_document_in_paths`, before the matches are counted. */
  method FindInPaths(validate: Validator, m: Memory, paths: seq<Path>, id: string, workers: nat)
    returns (matches: seq<Document>)
    ensures matches == Filter(CarriesId(validate, id), Map(Loader(m), paths))
  {
    var chunks := Search.Chunks(paths, workers);
    matches := [];
    for i := 0 to |chunks|
      invariant matches == Filter(CarriesId(validate, id), Map(Loader(m), Flatten(chunks[..i])))
    {
      assert chunks[..i + 1][..i] == chunks[..i];
      matches := FindInChunk(validate, m, chunks[i], id, matches, Flatten(chunks[..i]));
    }
    assert chunks[..|chunks|] == chunks;
  }

  method FindDocumentById(validate: Validator, m: Memory, id: string, workers: nat) returns (lookup: Lookup)
    ensures lookup == FindById(validate, m, id)
  {
    var kind := CanonicalIdKind(id);
    if kind.None? {
      return Missing;
    }
    var paths := LocalMarkdownFilesForKinds(m.tree, [kind.value]);
    var matches := FindInPaths(validate, m, paths, id, workers);
    lookup := Verdict(matches);
  }

  datatype ReadError = NotFound | AmbiguousId | NoSection | AmbiguousSection

  datatype ReadResult = ReadResult(document: Document, section: Option<Sections.Section>)

  predicate SectionNamed(section: Sections.Section, wanted: string) {
    || AsciiLower(section.heading) == wanted
    || AsciiLower(Join(section.headingPath, " / ")) == wanted
  }

  function Named(wanted: string): Sections.Section -> bool {
    (section: Sections.Section) => SectionNamed(section, wanted)
  }

  /** The i-th section is the only one that goes by this name. */
  ghost predicate OnlySection(sections: seq<Sections.Section>, wanted: string, i: nat) {
    && i < |sections| && SectionNamed(sections[i], wanted)
    && forall j :: 0 <= j < |sections| && j != i ==> !SectionNamed(sections[j], wanted)
  }

  ghost predicate NoSectionNamed(sections: seq<Sections.Section>, wanted: string) {
    forall section :: section in sections ==> !SectionNamed(section, wanted)
  }

  lemma {:induction false} NamedAround(sections: seq<Sections.Section>, wanted: string, i: nat)
    requires i < |sections| && SectionNamed(sections[i], wanted)
    ensures Filter(Named(wanted), sections) ==
            Filter(Named(wanted), sections[..i]) + [sections[i]] + Filter(Named(wanted), sections[i + 1..])
  {
    assert sections == sections[..i] + [sections[i]] + sections[i + 1..];
    FilterConcat(Named(wanted), sections[..i] + [sections[i]], sections[i + 1..]);
    FilterNext(Named(wanted), sections[..i], sections[i]);
  }

  lemma {:induction false} NoneFiltered(sections: seq<Sections.Section>, wanted: string)
    ensures Filter(Named(wanted), sections) == [] <==> NoSectionNamed(sections, wanted)
  {
    if NoSectionNamed(sections, wanted) {
      FilterNone(Named(wanted), sections);
    } else {
      var section :| section in sections && SectionNamed(section, wanted);
      assert section in Filter(Named(wanted), sections);
    }
  }

  /** A single match is the only section by the name, and the other way round. */
  lemma {:induction false} OneFiltered(sections: seq<Sections.Section>, wanted: string, i: nat)
    requires i < |sections| && SectionNamed(sections[i], wanted)
    ensures |Filter(Named(wanted), sections)| == 1 <==> OnlySection(sections, wanted, i)
    ensures |Filter(Named(wanted), sections)| == 1 ==> Filter(Named(wanted), sections) == [sections[i]]
  {
    NamedAround(sections, wanted, i);
    NoneFiltered(sections[..i], wanted);
    NoneFiltered(sections[i + 1..], wanted);
    NoneAround(sections, wanted, i);
  }

  lemma {:induction false} NoneAround(sections: seq<Sections.Section>, wanted: string, i: nat)
    requires i < |sections| && SectionNamed(sections[i], wanted)
    ensures OnlySection(sections, wanted, i) <==>
            NoSectionNamed(sections[..i], wanted) && NoSectionNamed(sections[i + 1..], wanted)
  {
    var before, after := sections[..i], sections[i + 1..];
    if NoSectionNamed(before, wanted) && NoSectionNamed(after, wanted) {
      forall j | 0 <= j < |sections| && j != i
        ensures !SectionNamed(sections[j], wanted)
      {
        if j < i {
          assert before[j] == sections[j];
        } else {
          assert after[j - i - 1] == sections[j];
        }
      }
    }
  }

  /** Success is the only section by that name; failure says whether there is none or several. */
  ghost predicate Selects(sections: seq<Sections.Section>, wanted: string,
                          selected: Result<Sections.Section, ReadError>) {
    match selected
    case Ok(section) => exists i: nat :: OnlySection(sections, wanted, i) && section == sections[i]
    case Err(NoSection) => NoSectionNamed(sections, wanted)
    case Err(AmbiguousSection) => !NoSectionNamed(sections, wanted) &&
                                  forall i: nat :: !OnlySection(sections, wanted, i)
    case _ => false
  }

  method SelectSection(sections: seq<Sections.Section>, wanted: string)
    returns (selected: Result<Sections.Section, ReadError>)
    ensures Selects(sections, wanted, selected)
  {
    var matches := Filter(Named(wanted), sections);
    NoneFiltered(sections, wanted);
    forall i: nat | i < |sections| && SectionNamed(sections[i], wanted)
      ensures |matches| == 1 <==> OnlySection(sections, wanted, i)
    {
      OneFiltered(sections, wanted, i);
    }
    if |matches| == 1 {
      assert matches[0] in matches;
      ghost var i :| 0 <= i < |sections| && sections[i] == matches[0];
      OneFiltered(sections, wanted, i);
    }
    selected := if |matches| == 0 then Err(NoSection)
                else if |matches| == 1 then Ok(matches[0])
                else Err(AmbiguousSection);
  }

  // What SelectSection finds, in terms of the name as it was asked for.

  /** The same text, but for the case of ASCII letters. */
  predicate SameLetters(a: string, b: string) {
    |a| == |b| && forall i | 0 <= i < |a| :: a[i] == b[i] || SameLetter(a[i], b[i]) || SameLetter(b[i], a[i])
  }

  predicate SameLetter(upper: char, lower: char) {
    'A' <= upper <= 'Z' && 'a' <= lower <= 'z' && upper as int - 'A' as int == lower as int - 'a' as int
  }

  /** The section's heading, or its path joined by slashes, is this name. */
  predicate GoesBy(section: Sections.Section, name: string) {
    SameLetters(section.heading, name) || SameLetters(Join(section.headingPath, " / "), name)
  }

  ghost predicate OnlyOneBy(sections: seq<Sections.Section>, name: string, i: nat) {
    i < |sections| && forall j :: 0 <= j < |sections| ==> (GoesBy(sections[j], name) <==> j == i)
  }

  /** The only section by the name, or an error that says whether there is none or several. */
  ghost predicate Chosen(sections: seq<Sections.Section>, name: string, chosen: Result<Sections.Section, ReadError>) {
    match chosen
    case Ok(section) => exists i: nat :: OnlyOneBy(sections, name, i) && section == sections[i]
    case Err(NoSection) => forall section :: section in sections ==> !GoesBy(section, name)
    case Err(AmbiguousSection) =>
      exists i, j :: 0 <= i < j < |sections| && GoesBy(sections[i], name) && GoesBy(sections[j], name)
    case _ => false
  }

  lemma {:induction false} LowerMeaning(a: string, b: string)
    ensures AsciiLower(a) == AsciiLower(b) <==> SameLetters(a, b)
  {
    if AsciiLower(a) == AsciiLower(b) {
      assert |a| == |AsciiLower(a)| == |b|;
      forall i | 0 <= i < |a|
        ensures a[i] == b[i] || SameLetter(a[i], b[i]) || SameLetter(b[i], a[i])
      {
        assert AsciiLower(a)[i] == AsciiLower(b)[i];
      }
    }
  }

  lemma {:induction false} NamedMeaning(section: Sections.Section, name: string)
    ensures SectionNamed(section, AsciiLower(name)) <==> GoesBy(section, name)
  {
    LowerMeaning(section.heading, name);
    LowerMeaning(Join(section.headingPath, " / "), name);
  }

  lemma {:induction false} SelectsMeaning(sections: seq<Sections.Section>, name: string,
                                          selected: Result<Sections.Section, ReadError>)
    requires Selects(sections, AsciiLower(name), selected)
    ensures Chosen(sections, name, selected)
  {
    forall section
      ensures SectionNamed(section, AsciiLower(name)) <==> GoesBy(section, name)
    {
      NamedMeaning(section, name);
    }
    match selected {
      case Ok(section) =>
        var i: nat :| OnlySection(sections, AsciiLower(name), i) && section == sections[i];
        assert OnlyOneBy(sections, name, i);
      case Err(AmbiguousSection) =>
        var section :| section in sections && SectionNamed(section, AsciiLower(name));
        var i :| 0 <= i < |sections| && sections[i] == section;
        assert !OnlySection(sections, AsciiLower(name), i);
        var j :| 0 <= j < |sections| && j != i && SectionNamed(sections[j], AsciiLower(name));
        assert GoesBy(sections[i], name) && GoesBy(sections[j], name);
        assert if i < j then 0 <= i < j < |sections| else 0 <= j < i < |sections|;
      case _ =>
    }
  }

  /** Asking for a name that only one section goes by finds that section. */
  lemma {:induction false} OnlySectionSelected(sections: seq<Sections.Section>, name: string, i: nat,
                                               chosen: Result<Sections.Section, ReadError>)
    requires OnlyOneBy(sections, name, i) && Chosen(sections, name, chosen)
    ensures chosen == Ok(sections[i])
  {
    assert sections[i] in sections && GoesBy(sections[i], name);
  }

  /** What reading leaves of a selected section. */
  function ReadSection(doc: Document, selected: Result<Sections.Section, ReadError>): Result<ReadResult, ReadError> {
    match selected
    case Ok(section) => Ok(ReadResult(doc, Some(section)))
    case Err(error) => Err(error)
  }

  /**
   `read_internal`: a document is read if it is found; a section of it if exactly
   one section goes by the heading or path asked for, in any letter case.
   */
  method Read(validate: Validator, m: Memory, id: string, section: Option<string>, workers: nat)
    returns (read: Result<ReadResult, ReadError>)
    ensures match FindById(validate, m, id)
            case Missing => read == Err(NotFound)
            case Ambiguous => read == Err(AmbiguousId)
            case Found(doc) =>
              if section.None? then read == Ok(ReadResult(doc, None))
              else
                match read
                case Ok(result) =>
                  result.document == doc && result.section.Some? &&
                  Chosen(Sections.SectionsOf(doc.body), section.value, Ok(result.section.value))
                case Err(error) => Chosen(Sections.SectionsOf(doc.body), section.value, Err(error))
  {
    var lookup := FindDocumentById(validate, m, id, workers);
    match lookup {
      case Missing => read := Err(NotFound);
      case Ambiguous => read := Err(AmbiguousId);
      case Found(doc) =>
        if section.None? {
          return Ok(ReadResult(doc, None));
        }
        var sections := Sections.SplitSections(doc.body);
        var selected := SelectSection(sections, AsciiLower(section.value));
        SelectsMeaning(sections, section.value, selected);
        read := ReadSection(doc, selected);
    }
  }

  // ---------------------------------- one folder is enough: IDs name folders

  /** What validation must promise about IDs: they name the document's kind. */
  ghost predicate NamesKind(validate: Validator) {
    forall doc :: Passes(validate, doc) ==> CanonicalIdKind(doc.id) == Some(doc.kind)
  }

  /** `validate_document` promises it. */
  lemma {:induction false} MemoryValidatorNamesKind(isTimestamp: string -> bool)
    ensures NamesKind(MemoryValidator(isTimestamp))
  {
    forall doc | Passes(MemoryValidator(isTimestamp), doc)
      ensures CanonicalIdKind(doc.id) == Some(doc.kind)
    {
      ValidIdNamesKind(isTimestamp, doc);
    }
  }

  lemma {:induction false} CanonicalKindKnown(id: string)
    requires CanonicalIdKind(id).Some?
    ensures KnownKinds([CanonicalIdKind(id).value])
  {
    IdKindUnique(id, CanonicalIdKind(id).value);
  }

  lemma {:induction false} LoadedKind(m: Memory, path: Path)
    requires path in LocalMarkdown(m.tree, [])
    ensures |path| > 0 && Loader(m)(path).kind == path[0]
  {
    ListedPathsRooted(m.tree, [], path);
  }

  lemma {:induction false} CarrierInFolder(validate: Validator, m: Memory, id: string, kind: string, path: Path)
    requires NamesKind(validate) && CanonicalIdKind(id) == Some(kind)
    requires path in LocalMarkdown(m.tree, []) && CarriesId(validate, id)(Loader(m)(path))
    ensures UnderKinds([kind])(path)
  {
    LoadedKind(m, path);
  }

  lemma {:induction false} MatchesInKind(validate: Validator, m: Memory, id: string, kind: string)
    requires NamesKind(validate) && CanonicalIdKind(id) == Some(kind)
    ensures Filter(CarriesId(validate, id), LoadAll(m, [kind])) == Filter(CarriesId(validate, id), LoadAll(m, []))
  {
    CanonicalKindKnown(id);
    ListingByKind(m.tree, [kind]);
    forall path | path in LocalMarkdown(m.tree, []) && CarriesId(validate, id)(Loader(m)(path))
      ensures UnderKinds([kind])(path)
    {
      CarrierInFolder(validate, m, id, kind, path);
    }
    FilterEarly(Loader(m), UnderKinds([kind]), CarriesId(validate, id), LocalMarkdown(m.tree, []));
  }

  /** The matches in the named folder are all the matches there are. */
  lemma {:induction false} MatchesInFolder(validate: Validator, m: Memory, id: string)
    requires NamesKind(validate)
    ensures var matches := Filter(CarriesId(validate, id), LoadAll(m, []));
            match CanonicalIdKind(id)
            case None => matches == []
            case Some(kind) => Filter(CarriesId(validate, id), LoadAll(m, [kind])) == matches
  {
    match CanonicalIdKind(id) {
      case None => FilterNone(CarriesId(validate, id), LoadAll(m, []));
      case Some(kind) => MatchesInKind(validate, m, id, kind);
    }
  }

  function HasId(id: string): Document -> bool {
    (doc: Document) => doc.id == id
  }

  lemma {:induction false} CountIsFilter(docs: seq<Document>, id: string)
    ensures CountId(docs, id) == |Filter(HasId(id), docs)|
  {
    if |docs| > 0 {
      CountIsFilter(docs[..|docs| - 1], id);
    }
  }

  lemma {:induction false} MatchesAmongValid(validate: Validator, docs: seq<Document>, id: string)
    ensures Filter(CarriesId(validate, id), docs) == Filter(HasId(id), ValidOnes(validate, docs))
  {
    FilterTwice(ValidTest(validate), HasId(id), CarriesId(validate, id), docs);
  }

  lemma {:induction false} OnlyMember<T>(s: seq<T>, x: T)
    requires |s| == 1
    ensures x in s <==> s[0] == x
  {
  }

  /** Reading an ID finds exactly the document search sees under that ID. */
  lemma {:induction false} ReadIsUniqueValid(validate: Validator, m: Memory, id: string, doc: Document)
    requires NamesKind(validate)
    ensures FindById(validate, m, id) == Found(doc) <==> doc.id == id && doc in UniqueValid(validate, LoadAll(m, []))
  {
    var all := LoadAll(m, []);
    var valid := ValidOnes(validate, all);
    var matches := Filter(HasId(id), valid);
    MatchesInFolder(validate, m, id);
    MatchesAmongValid(validate, all, id);
    CountIsFilter(valid, id);
    assert FindById(validate, m, id) == Verdict(matches);
    assert doc in UniqueValid(validate, all) <==> doc in valid && CountId(valid, doc.id) == 1;
    assert doc in matches <==> doc in valid && doc.id == id;
    if |matches| == 1 {
      OnlyMember(matches, doc);
    }
  }

  /** No valid document carries the ID, exactly one does, or several do. */
  ghost predicate CarriedAs(validate: Validator, docs: seq<Document>, id: string, lookup: Lookup) {
    match lookup
    case Missing => forall i :: 0 <= i < |docs| ==> !Carries(validate, docs, i, id)
    case Found(doc) => exists i: nat :: i < |docs| && docs[i] == doc && Alone(validate, docs, i, id)
    case Ambiguous => exists i: nat, j: nat ::
      i < j < |docs| && Carries(validate, docs, i, id) && Carries(validate, docs, j, id)
  }

  lemma {:induction false} MatchesCounted(validate: Validator, docs: seq<Document>, id: string)
    ensures |Filter(CarriesId(validate, id), docs)| == CountId(ValidOnes(validate, docs), id)
  {
    MatchesAmongValid(validate, docs, id);
    CountIsFilter(ValidOnes(validate, docs), id);
  }

  lemma {:induction false} SeveralCarry(validate: Validator, docs: seq<Document>, id: string)
    requires exists i :: 0 <= i < |docs| && Carries(validate, docs, i, id)
    requires !exists i :: 0 <= i < |docs| && Alone(validate, docs, i, id)
    ensures CarriedAs(validate, docs, id, Ambiguous)
  {
    var i :| 0 <= i < |docs| && Carries(validate, docs, i, id);
    assert !Alone(validate, docs, i, id);
    var j :| 0 <= j < |docs| && Carries(validate, docs, j, id) && j != i;
    if i < j {
      assert Carries(validate, docs, i, id) && Carries(validate, docs, j, id);
    }
  }

  lemma {:induction false} VerdictMeaning(validate: Validator, docs: seq<Document>, id: string)
    ensures CarriedAs(validate, docs, id, Verdict(Filter(CarriesId(validate, id), docs)))
  {
    var matches := Filter(CarriesId(validate, id), docs);
    MatchesCounted(validate, docs, id);
    CountZero(validate, docs, id);
    CountOne(validate, docs, id);
    if |matches| == 1 {
      var i: nat :| i < |docs| && Alone(validate, docs, i, id);
      assert CarriesId(validate, id)(docs[i]) && docs[i] in matches;
    } else if |matches| > 1 {
      SeveralCarry(validate, docs, id);
    }
  }

  /** Reading an ID finds the document of the whole catalogue that is valid and alone in carrying it. */
  lemma {:induction false} FindMeaning(validate: Validator, m: Memory, id: string)
    requires NamesKind(validate)
    ensures CarriedAs(validate, LoadAll(m, []), id, FindById(validate, m, id))
  {
    MatchesInFolder(validate, m, id);
    VerdictMeaning(validate, LoadAll(m, []), id);
  }

  /** A record is what its file's text parses to, under its own folder and path; or it cannot be read. */
  lemma {:induction false} LoadedMeaning(m: Memory, path: Path)
    requires |path| > 0
    ensures var doc := Loader(m)(path);
            && doc.kind == path[0] && doc.path == Display(path)
            && match m.bytes(path)
               case Some(bytes) =>
                 (match m.decode(bytes)
                  case Some(text) => doc == m.parse(text).(kind := path[0], path := Display(path), content := text)
                  case None => doc.readError.Some? && doc.id == "" && doc.body == "")
               case None => doc.readError.Some? && doc.id == "" && doc.body == ""
  {
  }

  // --------------------------- restricting kinds before or after uniqueness

  function OfKinds(kinds: seq<string>): Document -> bool {
    (doc: Document) => Wanted(kinds, doc.kind)
  }

  lemma {:induction false} LoadByKind(m: Memory, kinds: seq<string>)
    requires KnownKinds(kinds)
    ensures LoadAll(m, kinds) == Filter(OfKinds(kinds), LoadAll(m, []))
  {
    ListingByKind(m.tree, kinds);
    forall path | path in LocalMarkdown(m.tree, [])
      ensures UnderKinds(kinds)(path) == OfKinds(kinds)(Loader(m)(path))
    {
      LoadedKind(m, path);
    }
    MapFilter(Loader(m), UnderKinds(kinds), OfKinds(kinds), LocalMarkdown(m.tree, []));
  }

  lemma {:induction false} CountWithinKinds(docs: seq<Document>, kinds: seq<string>, id: string)
    requires forall doc :: doc in docs && doc.id == id ==> Wanted(kinds, doc.kind)
    ensures CountId(Filter(OfKinds(kinds), docs), id) == CountId(docs, id)
  {
    if |docs| > 0 {
      var front, last := docs[..|docs| - 1], docs[|docs| - 1];
      CountWithinKinds(front, kinds, id);
      var kept := Filter(OfKinds(kinds), front);
      assert (kept + [last])[..|kept|] == kept;
      assert kept + [] == kept;
    }
  }

  /** Restricting the kinds before counting IDs is restricting them after it. */
  lemma {:induction false} KindsBeforeUniqueness(validate: Validator, m: Memory, kinds: seq<string>)
    requires NamesKind(validate) && KnownKinds(kinds)
    ensures UniqueValid(validate, LoadAll(m, kinds)) == Filter(OfKinds(kinds), UniqueValid(validate, LoadAll(m, [])))
  {
    var all := LoadAll(m, []);
    LoadByKind(m, kinds);
    FiltersSwap(ValidTest(validate), OfKinds(kinds), all);
    var valid := ValidOnes(validate, all);
    var wanted := Filter(OfKinds(kinds), valid);
    assert ValidOnes(validate, LoadAll(m, kinds)) == wanted;
    forall doc | doc in wanted
      ensures AloneIn(wanted)(doc) == AloneIn(valid)(doc)
    {
      forall other | other in valid && other.id == doc.id
        ensures Wanted(kinds, other.kind)
      {
        assert Passes(validate, other) && Passes(validate, doc);
      }
      CountWithinKinds(valid, kinds, doc.id);
    }
    FilterSame(AloneIn(wanted), AloneIn(valid), wanted);
    FiltersSwap(AloneIn(valid), OfKinds(kinds), valid);
  }

  // --------------------------------------------------------------- context

  datatype KnowledgeContext<H> = KnowledgeContext(
    check: KnowledgeCheck, health: H, stream: seq<Byte>, records: seq<Document>, charter: Option<Document>)

  const CHARTER: string := "lens:charter"

  function CharterFromRecords(records: seq<Document>): Option<Document> {
    var matches := Filter(HasId(CHARTER), records);
    if |matches| == 0 || |matches| > 1 then None else Some(matches[0])
  }

  lemma {:induction false} SameSingle<T(!new)>(s: seq<T>, t: seq<T>)
    requires multiset(s) == multiset(t)
    ensures |s| == |t| && (|s| == 1 ==> s[0] == t[0])
  {
    assert |s| == |multiset(s)| == |multiset(t)| == |t|;
    if |s| == 1 {
      assert s[0] in multiset(t);
    }
  }

  lemma {:induction false} DocumentOrder()
    ensures StrictWeak(DocumentBefore)
  {
    StringOrdersTotal();
    TotalIsWeak(StringsLess);
    assert forall a: Document, b: Document :: DocumentBefore(a, b) == StringsLess([a.kind, a.id], [b.kind, b.id]);
  }

  /** The captured charter is what reading the charter's ID finds. */
  lemma {:induction false} CharterIsRead(validate: Validator, m: Memory)
    requires NamesKind(validate)
    ensures CharterFromRecords(CatalogLocal(validate, m)) ==
            match FindById(validate, m, "lens:charter") case Found(doc) => Some(doc) case _ => None
  {
    var loaded, sorted := LoadAll(m, []), CatalogUnchecked(m);
    MatchesInFolder(validate, m, CHARTER);
    MatchesAmongValid(validate, sorted, CHARTER);
    DocumentOrder();
    SortSorts(DocumentBefore, loaded);
    FilterSameMembers(CarriesId(validate, CHARTER), sorted, loaded);
    SameSingle(Filter(CarriesId(validate, CHARTER), sorted), Filter(CarriesId(validate, CHARTER), loaded));
  }

  /** `context`: one capture agrees with check, catalogue, health and read. */
  method Context<H>(validate: Validator, healthOf: seq<Document> -> H, m: Memory)
    returns (context: Result<KnowledgeContext<H>, Path>)
    requires NamesKind(validate)
    ensures context.Ok? <==> forall path :: path in LocalMarkdown(m.tree, []) ==> m.bytes(path).Some?
    ensures context.Ok? ==>
              && context.value.check == Check(validate, CatalogUnchecked(m), Layout(m.tree))
              && context.value.records == CatalogLocal(validate, m)
              && context.value.health == healthOf(CatalogLocal(validate, m))
              && context.value.stream == RevisionStream(m)
              && context.value.charter == match FindById(validate, m, "lens:charter")
                                          case Found(doc) => Some(doc)
                                          case _ => None
  {
    var capture := CaptureLocalCatalog(m);
    match capture {
      case Err(path) => context := Err(path);
      case Ok(captured) =>
        var check := CheckDocuments(validate, captured.documents, captured.layout);
        var records := Filter(ValidTest(validate), captured.documents);
        CharterIsRead(validate, m);
        var charter := CharterFromRecords(records);
        context := Ok(KnowledgeContext(check, healthOf(records), captured.stream, records, charter));
    }
  }

  // ---------------------------------------------- the revision names the tree

  predicate NoSlash(path: Path) {
    |path| > 0 && forall name :: name in path ==> '/' !in name
  }

  /** What the platform promises about names, encoding and sizes. */
  ghost predicate Ordinary(m: Memory) {
    && (forall s: string, t: string :: m.encode(s) == m.encode(t) ==> s == t)
    && (forall path :: path in LocalMarkdown(m.tree, []) ==>
          NoSlash(path) && m.bytes(path).Some? && FileFits(RevisionRecord(m)(path)))
  }

  /** Equal revisions (up to hash collisions) mean equal paths and equal bytes. */
  lemma {:induction false} RevisionIdentifiesTree(m: Memory, n: Memory)
    requires Ordinary(m) && Ordinary(n) && m.encode == n.encode
    requires RevisionStream(m) == RevisionStream(n)
    ensures LocalMarkdown(m.tree, []) == LocalMarkdown(n.tree, [])
    ensures forall path :: path in LocalMarkdown(m.tree, []) ==> m.bytes(path) == n.bytes(path)
  {
    var paths, others := LocalMarkdown(m.tree, []), LocalMarkdown(n.tree, []);
    var a, b := Map(RevisionRecord(m), paths), Map(RevisionRecord(n), others);
    FileStreamInjective(a, b);
    assert |paths| == |a| == |b| == |others|;
    forall i | 0 <= i < |paths|
      ensures paths[i] == others[i] && m.bytes(paths[i]) == n.bytes(paths[i])
    {
      assert a[i] == b[i];
      assert paths[i] in paths && others[i] in others;
      SplitJoined(paths[i], '/');
      SplitJoined(others[i], '/');
    }
  }

  /** The same files, every directory listed in any order. */
  ghost predicate ListedAnew(m: Memory, n: Memory) {
    && Listings.TreeRelisted(m.tree, n.tree)
    && m.bytes == n.bytes && m.decode == n.decode && m.encode == n.encode && m.parse == n.parse
  }

  lemma {:induction false} SameRecords(m: Memory, n: Memory, paths: seq<Path>)
    requires m.bytes == n.bytes && m.decode == n.decode && m.encode == n.encode && m.parse == n.parse
    ensures Map(RevisionRecord(m), paths) == Map(RevisionRecord(n), paths)
    ensures Map(Loader(m), paths) == Map(Loader(n), paths)
  {
  }

  /** Neither the revision nor the loaded records depend on the order of directory listings. */
  lemma {:induction false} RevisionIgnoresListing(m: Memory, n: Memory)
    requires ListedAnew(m, n)
    ensures RevisionStream(m) == RevisionStream(n)
    ensures forall kinds :: LoadAll(m, kinds) == LoadAll(n, kinds)
    ensures CatalogUnchecked(m) == CatalogUnchecked(n)
  {
    forall kinds: seq<string>
      ensures LocalMarkdown(m.tree, kinds) == LocalMarkdown(n.tree, kinds)
      ensures LoadAll(m, kinds) == LoadAll(n, kinds)
    {
      Listings.ListingIgnoresOrder(m.tree, n.tree, kinds);
      SameRecords(m, n, LocalMarkdown(m.tree, kinds));
    }
    SameRecords(m, n, LocalMarkdown(m.tree, []));
  }

  // ---------------------------------------------------------- memory search

  datatype SearchError = EmptyQuery | UnknownKind(kind: string) | BadLimit

  function FirstUnknown(kinds: seq<string>): (kind: Option<string>)
    ensures kind.None? <==> KnownKinds(kinds)
    ensures kind.Some? ==> kind.value in kinds && FromSlug(kind.value).None?
  {
    if |kinds| == 0 then None
    else if FromSlug(kinds[0]).None? then Some(kinds[0])
    else FirstUnknown(kinds[1..])
  }

  /** One search over every record, the kinds restricted afterwards. */
  function MemorySearch(request: Search.Request, m: Memory, kinds: seq<string>): seq<Ranking.Item<Search.Shown>> {
    Search.SearchMeaning(request, Filter(OfKinds(kinds),
                                         UniqueValid(MemoryValidator(request.lex.isTimestamp), LoadAll(m, []))))
  }

  method LoadChunks(m: Memory, paths: seq<Path>, workers: nat) returns (docs: seq<Document>)
    ensures docs == Map(Loader(m), paths)
  {
    var chunks := Search.Chunks(paths, workers);
    docs := [];
    for i := 0 to |chunks|
      invariant docs == Map(Loader(m), Flatten(chunks[..i]))
    {
      assert chunks[..i + 1][..i] == chunks[..i];
      docs := docs + Map(Loader(m), chunks[i]);
    }
    assert chunks[..|chunks|] == chunks;
  }

  /** Nothing but white space. */
  ghost predicate OnlyWhite(text: string) {
    forall c :: c in text ==> IsWhite(c)
  }

  /** Blank text asks for nothing. */
  lemma {:induction false} BlankMeaning(text: string)
    ensures Trim(text) == "" <==> OnlyWhite(text)
  {
    TrimMeaning(text);
    var a: nat, b: nat :| CutAt(text, a, b, Trim(text));
    if Trim(text) != "" {
      assert text[a] == Trim(text)[0] && text[a] in text;
    }
  }

  predicate IsMemoryKind(kind: string) {
    kind == "wiki" || kind == "lens" || kind == "evidence" || kind == "decision"
  }

  /** The item is of a record that is valid, alone in its ID, of a wanted kind, and may be shown. */
  ghost predicate AnswerFrom(request: Search.Request, docs: seq<Document>, kinds: seq<string>, i: nat,
                             item: Ranking.Item<Search.Shown>) {
    && i < |docs| && Alone(MemoryValidator(request.lex.isTimestamp), docs, i, docs[i].id)
    && (kinds == [] || docs[i].kind in kinds)
    && Search.Admitted(request, docs[i]) && Search.HitFor(request, docs[i], item.key, item.payload.hit)
  }

  ghost predicate Answers(request: Search.Request, docs: seq<Document>, kinds: seq<string>,
                          results: seq<Ranking.Item<Search.Shown>>) {
    forall item :: item in results ==> exists i: nat :: AnswerFrom(request, docs, kinds, i, item)
  }

  lemma {:induction false} MemoryAnswers(request: Search.Request, m: Memory, kinds: seq<string>)
    ensures Answers(request, LoadAll(m, []), kinds, MemorySearch(request, m, kinds))
  {
    var validate, all := MemoryValidator(request.lex.isTimestamp), LoadAll(m, []);
    var docs := Filter(OfKinds(kinds), UniqueValid(validate, all));
    Search.ResultsAdmitted(request, docs);
    forall item | item in MemorySearch(request, m, kinds)
      ensures exists i: nat :: AnswerFrom(request, all, kinds, i, item)
    {
      assert Search.ShownFrom(request, docs, item);
      var doc :| doc in docs && Search.Admitted(request, doc) &&
                 Search.HitFor(request, doc, item.key, item.payload.hit);
      UniqueValidMeaning(validate, all, doc);
      var i: nat :| i < |all| && all[i] == doc && Alone(validate, all, i, doc.id);
      assert AnswerFrom(request, all, kinds, i, item);
    }
  }

  /** What is looked for: the normalized text with its compact form, numbers and tokens. */
  function QueryText(lex: Relevance.Lexicon, text: string): Relevance.SearchText {
    var plain := lex.normalize(text);
    Relevance.SearchText(plain, lex.compact(plain), lex.compactEligible(plain), lex.numbers(plain), lex.tokens(plain))
  }

  /** `search_internal`; settings carries the options that are passed through. */
  method SearchMemory(settings: Search.Request, m: Memory, text: string, kinds: seq<string>, limit: int, workers: nat)
    returns (result: Result<seq<Ranking.Item<Search.Shown>>, SearchError>)
    ensures if Trim(text) == "" then result == Err(EmptyQuery)
            else if FirstUnknown(kinds).Some? then result == Err(UnknownKind(FirstUnknown(kinds).value))
            else if !(1 <= limit <= 50) then result == Err(BadLimit)
            else
              var request := settings.(query := QueryText(settings.lex, Trim(text)), limit := limit);
              result == Ok(MemorySearch(request, m, kinds)) && Answers(request, LoadAll(m, []), kinds, result.value)
    ensures result.Err? && result.error.EmptyQuery? <==> OnlyWhite(text)
    ensures result.Ok? ==>
              && (forall kind :: kind in kinds ==> IsMemoryKind(kind))
              && |result.value| <= limit <= 50 && Ranking.BestFirst(result.value)
    ensures result.Err? && result.error.UnknownKind? ==>
              result.error.kind in kinds && !IsMemoryKind(result.error.kind)
    ensures result.Err? && result.error.BadLimit? ==> limit < 1 || limit > 50
  {
    BlankMeaning(text);
    if Trim(text) == "" {
      return Err(EmptyQuery);
    }
    var unknown := FirstUnknown(kinds);
    if unknown.Some? {
      return Err(UnknownKind(unknown.value));
    }
    if !(1 <= limit <= 50) {
      return Err(BadLimit);
    }
    var validate := MemoryValidator(settings.lex.isTimestamp);
    var paths := LocalMarkdownFilesForKinds(m.tree, kinds);
    var request := settings.(query := Relevance.NewText(settings.lex, Trim(text)), limit := limit);
    var loaded := LoadChunks(m, paths, workers);
    var docs := UniqueValidDocuments(validate, loaded);
    MemoryValidatorNamesKind(settings.lex.isTimestamp);
    KindsBeforeUniqueness(validate, m, kinds);
    var final := Search.SearchDocuments(request, docs, workers);
    MemoryAnswers(request, m, kinds);
    result := Ok(final);
  }

  /** Searching for a readable ID, in its kind, leads with that ID. */
  lemma {:induction false} ReadableIdLeads(settings: Search.Request, m: Memory, text: string, kinds: seq<string>,
                                           limit: nat, doc: Document)
    requires FindById(MemoryValidator(settings.lex.isTimestamp), m, doc.id) == Found(doc)
    requires 1 <= limit && Wanted(kinds, doc.kind)
    requires settings.lex.normalize(doc.id) == settings.lex.normalize(Trim(text))
    ensures var request := settings.(query := Relevance.NewText(settings.lex, Trim(text)), limit := limit);
            Search.Eligible(request, doc) ==>
              var final := MemorySearch(request, m, kinds);
              && |final| > 0 && final[0].key.score >= 5000
              && settings.lex.normalize(final[0].key.id) == settings.lex.normalize(doc.id)
  {
    var request := settings.(query := Relevance.NewText(settings.lex, Trim(text)), limit := limit);
    var validate := MemoryValidator(settings.lex.isTimestamp);
    MemoryValidatorNamesKind(settings.lex.isTimestamp);
    ReadIsUniqueValid(validate, m, doc.id, doc);
    var docs := Filter(OfKinds(kinds), UniqueValid(validate, LoadAll(m, [])));
    assert doc in docs && Passes(validate, doc);
    if Search.Eligible(request, doc) {
      Search.ExactIdFirst(request, docs, Trim(text), doc);
    }
  }
}
