/**
 Memory kinds, record IDs, documents and per-document validation
 (src/memory_kind.rs, src/knowledge/model.rs, src/knowledge/catalog.rs).
 */
module Records {
  import opened Wrappers
  import opened Strings
  import Sections

  datatype Kind = Wiki | Lens | Evidence | Decision

  function Slug(kind: Kind): string {
    match kind
    case Wiki => "wiki"
    case Lens => "lens"
    case Evidence => "evidence"
    case Decision => "decision"
  }

  function FromSlug(value: string): Option<Kind> {
    if value == "wiki" then Some(Wiki)
    else if value == "lens" then Some(Lens)
    else if value == "evidence" then Some(Evidence)
    else if value == "decision" then Some(Decision)
    else None
  }

  predicate GoodSegment(segment: string) {
    && segment != ""
    && ByteLen(segment) <= 128
    && Trim(segment) == segment
    && segment != "." && segment != ".."
    && '\\' !in segment && ':' !in segment
    && forall c | c in segment :: !IsControl(c)
  }

  function ParseRecordId(value: string): Option<(Kind, string)> {
    if value == "" || ByteLen(value) > 512 || Trim(value) != value then None
    else
      match SplitOnce(value, ':')
      case None => None
      case Some((slug, suffix)) =>
        match FromSlug(slug)
        case None => None
        case Some(kind) =>
          if forall segment | segment in Split(suffix, '/') :: GoodSegment(segment)
          then Some((kind, suffix))
          else None
  }

  predicate IdMatchesKind(id: string, expected: string) {
    match ParseRecordId(id)
    case None => false
    case Some((kind, _)) => Slug(kind) == expected
  }

  /** The kind named by a record ID's prefix, if the whole ID is canonical. */
  function CanonicalIdKind(id: string): Option<string> {
    match SplitOnce(id, ':')
    case None => None
    case Some((prefix, _)) => if IdMatchesKind(id, prefix) then Some(prefix) else None
  }

  lemma {:induction false} SplitOnceJoins(s: string, sep: char)
    ensures match SplitOnce(s, sep)
            case None => sep !in s
            case Some((head, tail)) => s == head + [sep] + tail && sep !in head
  {
    if |s| > 0 && s[0] != sep {
      SplitOnceJoins(s[1..], sep);
      assert s == [s[0]] + s[1..];
    }
  }

  /** Parsing loses nothing: the ID is rebuilt from its kind and suffix. */
  lemma {:induction false} RecordIdRoundTrip(id: string)
    requires ParseRecordId(id).Some?
    ensures var (kind, suffix) := ParseRecordId(id).value; id == Slug(kind) + ":" + suffix
  {
    SplitOnceJoins(id, ':');
  }

  /** An ID belongs to at most one kind, and that kind is its prefix. */
  lemma {:induction false} IdKindUnique(id: string, kind: string)
    ensures IdMatchesKind(id, kind) <==> CanonicalIdKind(id) == Some(kind)
    ensures IdMatchesKind(id, kind) ==> FromSlug(kind).Some?
  {
    if ParseRecordId(id).Some? {
      assert Slug(ParseRecordId(id).value.0) == SplitOnce(id, ':').value.0;
    }
  }

  // --------------------------------------------------------------- documents

  datatype Relationship = Relationship(kind: string, target: string)

  datatype Document = Document(
    id: string, kind: string, title: string, summary: string, asOf: string, path: string,
    entities: seq<string>, aliases: seq<string>, tags: seq<string>, seeAlso: seq<string>,
    source: Option<string>, period: Option<string>, status: Option<string>, revokedBy: Option<string>,
    relationships: seq<Relationship>, content: string, body: string, readError: Option<string>,
    declaredFields: set<string>, duplicateFields: seq<string>)

  const RELATIONSHIP_TYPES: seq<string> := ["uses", "supports", "contradicts", "updates"]

  datatype Problem =
    | Unreadable | DeclaredTwice | Required | NotCanonicalId | NotTimestamp | EmptySource | EmptyBody
    | NoSource | NotPermitted | BadStatus | MissingRevoker | UnexpectedRevoker | NotCanonicalRevoker
    | SelfReference | NotWikiTarget | RepeatedTarget | MissingTarget | WrongTargetKind
    | DuplicateOf(path: string) | NotDirectory | IsSymlink | NotMarkdown

  datatype Issue = Issue(path: string, field: string, problem: Problem)

  function When(condition: bool, doc: Document, field: string, problem: Problem): seq<Issue> {
    if condition then [Issue(doc.path, field, problem)] else []
  }

  function OrEmpty(value: Option<string>): string {
    match value
    case None => ""
    case Some(text) => text
  }

  function AsciiLower(s: string): string {
    seq(|s|, i requires 0 <= i < |s| => if 'A' <= s[i] <= 'Z' then ((s[i] as int) + 32) as char else s[i])
  }

  predicate RelationshipFieldAllowed(source: string, relationship: string) {
    match source
    case "evidence" => relationship in {"updates", "contradicts"}
    case "decision" => relationship in {"uses", "supports", "updates", "contradicts"}
    case _ => false
  }

  predicate RelationshipTargetAllowed(source: string, relationship: string, target: string) {
    if source == "evidence" && relationship in {"updates", "contradicts"} then target == "evidence"
    else if source == "decision" && relationship == "uses" then target in {"wiki", "lens"}
    else if source == "decision" && relationship == "supports" then target == "evidence"
    else if source == "decision" && relationship in {"updates", "contradicts"} then target == "decision"
    else false
  }

  function DuplicateFieldIssues(doc: Document, fields: seq<string>): seq<Issue> {
    if |fields| == 0 then []
    else [Issue(doc.path, fields[0], DeclaredTwice)] + DuplicateFieldIssues(doc, fields[1..])
  }

  function EvidenceIssues(doc: Document): seq<Issue> {
    if doc.kind != "evidence" then []
    else
      var hasSource := doc.source.Some? && Trim(doc.source.value) != "";
      var hasSourcesSection := exists s | s in Sections.SectionsOf(doc.body) ::
        AsciiLower(s.heading) == "sources" && Trim(s.text) != "";
      When(doc.source.Some? && Trim(doc.source.value) == "", doc, "source", EmptySource) +
      When(Trim(doc.body) == "", doc, "body", EmptyBody) +
      When(!hasSource && !hasSourcesSection, doc, "body", NoSource)
  }

  function StatusIssues(doc: Document): seq<Issue> {
    match doc.status
    case Some(status) =>
      When(status !in {"active", "revoked"}, doc, "status", BadStatus) +
      When(status == "revoked" && Trim(OrEmpty(doc.revokedBy)) == "", doc, "revoked_by", MissingRevoker) +
      When(status != "revoked" && OrEmpty(doc.revokedBy) != "", doc, "revoked_by", UnexpectedRevoker)
    case None =>
      When(OrEmpty(doc.revokedBy) != "", doc, "revoked_by", UnexpectedRevoker)
  }

  function SeeAlsoIssues(doc: Document, n: nat): seq<Issue>
    requires n <= |doc.seeAlso|
  {
    if n == 0 then []
    else
      var target := doc.seeAlso[n - 1];
      SeeAlsoIssues(doc, n - 1) +
      When(target == doc.id, doc, "see_also", SelfReference) +
      When(!("wiki:" <= target), doc, "see_also", NotWikiTarget) +
      When(target in doc.seeAlso[..n - 1], doc, "see_also", RepeatedTarget)
  }

  function FieldIssues(doc: Document, types: seq<string>): seq<Issue> {
    if |types| == 0 then []
    else
      When(types[0] in doc.declaredFields && !RelationshipFieldAllowed(doc.kind, types[0]), doc, types[0],
           NotPermitted) +
      FieldIssues(doc, types[1..])
  }

  function RequiredIssues(doc: Document): seq<Issue> {
    When(Trim(doc.id) == "", doc, "id", Required) +
    When(Trim(doc.title) == "", doc, "title", Required) +
    When(Trim(doc.summary) == "", doc, "summary", Required) +
    When(Trim(doc.asOf) == "", doc, "as_of", Required)
  }

  function FormatIssues(isTimestamp: string -> bool, doc: Document): seq<Issue> {
    When(doc.id != "" && !IdMatchesKind(doc.id, doc.kind), doc, "id", NotCanonicalId) +
    When(doc.asOf != "" && !isTimestamp(doc.asOf), doc, "as_of", NotTimestamp)
  }

  function PermissionIssues(doc: Document): seq<Issue> {
    When("see_also" in doc.declaredFields && doc.kind != "wiki", doc, "see_also", NotPermitted) +
    When({"status", "revoked_by"} * doc.declaredFields != {} && doc.kind !in {"wiki", "lens"}, doc, "status",
         NotPermitted)
  }

  function RevokerFormIssues(doc: Document): seq<Issue> {
    When(Trim(OrEmpty(doc.revokedBy)) != "" && CanonicalIdKind(OrEmpty(doc.revokedBy)).None?, doc, "revoked_by",
         NotCanonicalRevoker)
  }

  /** `validate_document`; isTimestamp is the RFC 3339 check with seconds and zone. */
  function Validate(isTimestamp: string -> bool, doc: Document): seq<Issue> {
    When(doc.readError.Some?, doc, "frontmatter", Unreadable) +
    DuplicateFieldIssues(doc, doc.duplicateFields) +
    RequiredIssues(doc) +
    FormatIssues(isTimestamp, doc) +
    EvidenceIssues(doc) +
    PermissionIssues(doc) +
    StatusIssues(doc) +
    RevokerFormIssues(doc) +
    SeeAlsoIssues(doc, |doc.seeAlso|) +
    FieldIssues(doc, RELATIONSHIP_TYPES)
  }

  predicate IsValid(isTimestamp: string -> bool, doc: Document) {
    Validate(isTimestamp, doc) == []
  }

  /** A valid document sits in the folder its own ID names. */
  lemma {:induction false} ValidIdNamesKind(isTimestamp: string -> bool, doc: Document)
    requires IsValid(isTimestamp, doc)
    ensures doc.id != "" && CanonicalIdKind(doc.id) == Some(doc.kind)
  {
    IdKindUnique(doc.id, doc.kind);
    assert |RequiredIssues(doc)| == 0 && |FormatIssues(isTimestamp, doc)| == 0;
    assert |When(Trim(doc.id) == "", doc, "id", Required)| == 0;
    assert |When(doc.id != "" && !IdMatchesKind(doc.id, doc.kind), doc, "id", NotCanonicalId)| == 0;
  }

  // ------------------------------------- what validation reports, spelled out

  predicate Blank(s: string) {
    Trim(s) == ""
  }

  /** A part of a record ID between slashes. */
  predicate SegmentOk(segment: string) {
    && 1 <= |segment| && ByteLen(segment) < 129 && Trim(segment) == segment
    && !(segment == "." || segment == "..")
    && forall c | c in segment :: c != '\\' && c != ':' && c as int >= 0x20 && !(0x7F <= c as int <= 0x9F)
  }

  /** The ID is the kind, a colon and well-formed segments, 512 bytes at most and nothing to trim. */
  ghost predicate NamedFor(id: string, kind: string) {
    && (kind == "wiki" || kind == "lens" || kind == "evidence" || kind == "decision")
    && ByteLen(id) < 513 && Trim(id) == id
    && exists suffix :: id == kind + ":" + suffix && forall segment :: segment in Split(suffix, '/') ==>
       SegmentOk(segment)
  }

  lemma {:induction false} SegmentMeaning(segment: string)
    ensures GoodSegment(segment) <==> SegmentOk(segment)
  {
  }

  lemma {:induction false} KindHasNoColon(kind: Kind, suffix: string)
    ensures SplitOnce(Slug(kind) + ":" + suffix, ':') == Some((Slug(kind), suffix))
    ensures FromSlug(Slug(kind)) == Some(kind)
  {
    assert Slug(kind) + ":" + suffix == Slug(kind) + [':'] + suffix;
    SplitOnceAt(Slug(kind), ':', suffix);
  }

  /** Which IDs belong to a kind. */
  lemma {:induction false} IdMeaning(id: string, kind: string)
    ensures IdMatchesKind(id, kind) <==> NamedFor(id, kind)
  {
    forall segment
      ensures GoodSegment(segment) <==> SegmentOk(segment)
    {
      SegmentMeaning(segment);
    }
    if IdMatchesKind(id, kind) {
      RecordIdRoundTrip(id);
    }
    if NamedFor(id, kind) {
      var suffix :| id == kind + ":" + suffix && forall segment :: segment in Split(suffix, '/') ==> SegmentOk(segment);
      var k := FromSlug(kind).value;
      assert Slug(k) == kind;
      KindHasNoColon(k, suffix);
    }
  }

  lemma {:induction false} AnyIdMeaning(id: string)
    ensures CanonicalIdKind(id).Some? <==> exists kind :: NamedFor(id, kind)
  {
    if CanonicalIdKind(id).Some? {
      IdMeaning(id, CanonicalIdKind(id).value);
    }
    if kind :| NamedFor(id, kind) {
      IdMeaning(id, kind);
      IdKindUnique(id, kind);
    }
  }

  predicate SourcesSection(section: Sections.Section) {
    AsciiLower(section.heading) == "sources" && !Blank(section.text)
  }

  /** The document names where its evidence is from. */
  predicate HasSource(doc: Document) {
    || (doc.source.Some? && !Blank(doc.source.value))
    || (exists section | section in Sections.SectionsOf(doc.body) :: SourcesSection(section))
  }

  /** The relationship fields a document of this kind must not declare. */
  predicate Forbidden(kind: string, field: string) {
    match field
    case "uses" => kind != "decision"
    case "supports" => kind != "decision"
    case "contradicts" => kind != "decision" && kind != "evidence"
    case "updates" => kind != "decision" && kind != "evidence"
    case _ => false
  }

  /** When each problem is reported for each field. */
  ghost predicate Reported(isTimestamp: string -> bool, doc: Document, field: string, problem: Problem) {
    match problem
    case Unreadable => field == "frontmatter" && doc.readError.Some?
    case DeclaredTwice => field in doc.duplicateFields
    case Required =>
      || (field == "id" && Blank(doc.id)) || (field == "title" && Blank(doc.title))
      || (field == "summary" && Blank(doc.summary)) || (field == "as_of" && Blank(doc.asOf))
    case NotCanonicalId => field == "id" && doc.id != "" && !NamedFor(doc.id, doc.kind)
    case NotTimestamp => field == "as_of" && doc.asOf != "" && !isTimestamp(doc.asOf)
    case EmptySource => field == "source" && doc.kind == "evidence" && doc.source.Some? && Blank(doc.source.value)
    case EmptyBody => field == "body" && doc.kind == "evidence" && Blank(doc.body)
    case NoSource => field == "body" && doc.kind == "evidence" && !HasSource(doc)
    case NotPermitted =>
      || (field == "see_also" && "see_also" in doc.declaredFields && doc.kind != "wiki")
      || (field == "status" && ("status" in doc.declaredFields || "revoked_by" in doc.declaredFields) &&
          doc.kind != "wiki" && doc.kind != "lens")
      || (field in doc.declaredFields && Forbidden(doc.kind, field))
    case BadStatus => field == "status" && doc.status.Some? && doc.status.value != "active" &&
                      doc.status.value != "revoked"
    case MissingRevoker =>
      field == "revoked_by" && doc.status == Some("revoked") && (doc.revokedBy.None? || Blank(doc.revokedBy.value))
    case UnexpectedRevoker =>
      field == "revoked_by" && doc.status != Some("revoked") && doc.revokedBy.Some? && doc.revokedBy.value != ""
    case NotCanonicalRevoker =>
      field == "revoked_by" && doc.revokedBy.Some? && !Blank(doc.revokedBy.value) &&
      !exists kind :: NamedFor(doc.revokedBy.value, kind)
    case SelfReference => field == "see_also" && doc.id in doc.seeAlso
    case NotWikiTarget => field == "see_also" && exists target :: target in doc.seeAlso && !("wiki:" <= target)
    case RepeatedTarget =>
      field == "see_also" && exists i, j :: 0 <= i < j < |doc.seeAlso| && doc.seeAlso[i] == doc.seeAlso[j]
    case _ => false
  }

  lemma {:induction false} DuplicateFieldsReported(doc: Document, fields: seq<string>)
    ensures forall issue :: issue in DuplicateFieldIssues(doc, fields) <==>
              issue.path == doc.path && issue.problem == DeclaredTwice && issue.field in fields
  {
    if |fields| > 0 {
      DuplicateFieldsReported(doc, fields[1..]);
    }
  }

  /** What the first n targets of see_also give rise to. */
  ghost predicate SeeAlsoProblem(doc: Document, n: nat, problem: Problem)
    requires n <= |doc.seeAlso|
  {
    match problem
    case SelfReference => exists i :: 0 <= i < n && doc.seeAlso[i] == doc.id
    case NotWikiTarget => exists i :: 0 <= i < n && !("wiki:" <= doc.seeAlso[i])
    case RepeatedTarget => exists i, j :: 0 <= i < j < n && doc.seeAlso[i] == doc.seeAlso[j]
    case _ => false
  }

  /** What the n-th target adds to that. */
  predicate SeeAlsoNew(doc: Document, n: nat, problem: Problem)
    requires 0 < n <= |doc.seeAlso|
  {
    match problem
    case SelfReference => doc.seeAlso[n - 1] == doc.id
    case NotWikiTarget => !("wiki:" <= doc.seeAlso[n - 1])
    case RepeatedTarget => doc.seeAlso[n - 1] in doc.seeAlso[..n - 1]
    case _ => false
  }

  lemma {:induction false} SeeAlsoNext(doc: Document, n: nat, problem: Problem)
    requires 0 < n <= |doc.seeAlso|
    ensures SeeAlsoProblem(doc, n, problem) <==> SeeAlsoProblem(doc, n - 1, problem) || SeeAlsoNew(doc, n, problem)
  {
    if problem.RepeatedTarget? && doc.seeAlso[n - 1] in doc.seeAlso[..n - 1] {
      var i :| 0 <= i < n - 1 && doc.seeAlso[..n - 1][i] == doc.seeAlso[n - 1];
      assert doc.seeAlso[i] == doc.seeAlso[n - 1];
    }
    if i, j :| 0 <= i < j < n && doc.seeAlso[i] == doc.seeAlso[j] && j == n - 1 {
      assert doc.seeAlso[..n - 1][i] == doc.seeAlso[n - 1];
    }
  }

  lemma {:induction false} SeeAlsoReported(doc: Document, n: nat)
    requires n <= |doc.seeAlso|
    ensures forall issue :: issue in SeeAlsoIssues(doc, n) <==>
              issue.path == doc.path && issue.field == "see_also" && SeeAlsoProblem(doc, n, issue.problem)
  {
    if n > 0 {
      SeeAlsoReported(doc, n - 1);
      forall problem
        ensures SeeAlsoProblem(doc, n, problem) <==> SeeAlsoProblem(doc, n - 1, problem) || SeeAlsoNew(doc, n, problem)
      {
        SeeAlsoNext(doc, n, problem);
      }
    }
  }

  lemma {:induction false} SourceMeaning(doc: Document)
    ensures HasSource(doc) <==>
            || (doc.source.Some? && Trim(doc.source.value) != "")
            || (exists s | s in Sections.SectionsOf(doc.body) ::
                  AsciiLower(s.heading) == "sources" && Trim(s.text) != "")
  {
    assert forall section :: SourcesSection(section) <==>
             AsciiLower(section.heading) == "sources" && Trim(section.text) != "";
  }

  lemma {:induction false} EvidenceReported(doc: Document)
    ensures forall issue :: issue in EvidenceIssues(doc) <==>
              issue.path == doc.path && doc.kind == "evidence" &&
              match issue.problem
              case EmptySource => issue.field == "source" && doc.source.Some? && Blank(doc.source.value)
              case EmptyBody => issue.field == "body" && Blank(doc.body)
              case NoSource => issue.field == "body" && !HasSource(doc)
              case _ => false
  {
    SourceMeaning(doc);
    var empty := When(doc.source.Some? && Trim(doc.source.value) == "", doc, "source", EmptySource);
    var bare := When(Trim(doc.body) == "", doc, "body", EmptyBody);
    var unsourced := When(!HasSource(doc), doc, "body", NoSource);
    assert doc.kind == "evidence" ==> EvidenceIssues(doc) == empty + bare + unsourced;
  }

  lemma {:induction false} StatusReported(doc: Document)
    ensures forall issue :: issue in StatusIssues(doc) <==>
              issue.path == doc.path &&
              match issue.problem
              case BadStatus =>
                issue.field == "status" && doc.status.Some? && doc.status.value != "active" &&
                    doc.status.value != "revoked"
              case MissingRevoker =>
                issue.field == "revoked_by" && doc.status == Some("revoked") &&
                    (doc.revokedBy.None? || Blank(doc.revokedBy.value))
              case UnexpectedRevoker =>
                issue.field == "revoked_by" && doc.status != Some("revoked") && doc.revokedBy.Some? &&
                    doc.revokedBy.value != ""
              case _ => false
  {
    assert Trim("") == "";
  }

  lemma {:induction false} FieldsReported(doc: Document, types: seq<string>)
    ensures forall issue :: issue in FieldIssues(doc, types) <==>
              issue.path == doc.path && issue.problem == NotPermitted && issue.field in types &&
              issue.field in doc.declaredFields && !RelationshipFieldAllowed(doc.kind, issue.field)
  {
    if |types| > 0 {
      FieldsReported(doc, types[1..]);
    }
  }

  lemma {:induction false} ForbiddenMeaning(kind: string, field: string)
    ensures field in RELATIONSHIP_TYPES && !RelationshipFieldAllowed(kind, field) <==> Forbidden(kind, field)
  {
  }

  lemma {:induction false} RequiredReported(isTimestamp: string -> bool, doc: Document)
    ensures forall issue :: issue in RequiredIssues(doc) <==>
              issue.path == doc.path && issue.problem == Required && Reported(isTimestamp, doc, issue.field, Required)
  {
  }

  lemma {:induction false} FormatReported(isTimestamp: string -> bool, doc: Document)
    ensures forall issue :: issue in FormatIssues(isTimestamp, doc) <==>
              issue.path == doc.path && issue.problem in {NotCanonicalId, NotTimestamp} &&
              Reported(isTimestamp, doc, issue.field, issue.problem)
  {
    IdMeaning(doc.id, doc.kind);
  }

  lemma {:induction false} PermissionReported(doc: Document)
    ensures forall issue :: issue in PermissionIssues(doc) <==>
              issue.path == doc.path && issue.problem == NotPermitted &&
              ((issue.field == "see_also" && "see_also" in doc.declaredFields && doc.kind != "wiki") ||
               (issue.field == "status" && ("status" in doc.declaredFields || "revoked_by" in doc.declaredFields) &&
                doc.kind != "wiki" && doc.kind != "lens"))
  {
    var both := {"status", "revoked_by"} * doc.declaredFields;
    assert both != {} <==> "status" in both || "revoked_by" in both;
  }

  lemma {:induction false} RevokerReported(isTimestamp: string -> bool, doc: Document)
    ensures forall issue :: issue in RevokerFormIssues(doc) <==>
              issue.path == doc.path && issue.problem == NotCanonicalRevoker &&
              Reported(isTimestamp, doc, issue.field, NotCanonicalRevoker)
  {
    AnyIdMeaning(OrEmpty(doc.revokedBy));
    assert Trim("") == "";
  }

  /** The relationship fields that are not permitted. */
  lemma {:induction false} ForbiddenReported(doc: Document)
    ensures forall issue :: issue in FieldIssues(doc, RELATIONSHIP_TYPES) <==>
              issue.path == doc.path && issue.problem == NotPermitted && issue.field in doc.declaredFields &&
              Forbidden(doc.kind, issue.field)
  {
    FieldsReported(doc, RELATIONSHIP_TYPES);
    forall field
      ensures field in RELATIONSHIP_TYPES && !RelationshipFieldAllowed(doc.kind, field) <==> Forbidden(doc.kind, field)
    {
      ForbiddenMeaning(doc.kind, field);
    }
  }

  /** Which of the passes reports an issue. */
  lemma {:induction false} ValidateParts(isTimestamp: string -> bool, doc: Document, issue: Issue)
    ensures issue in Validate(isTimestamp, doc) <==>
            || issue in When(doc.readError.Some?, doc, "frontmatter", Unreadable)
            || issue in DuplicateFieldIssues(doc, doc.duplicateFields)
            || issue in RequiredIssues(doc) || issue in FormatIssues(isTimestamp, doc) || issue in EvidenceIssues(doc)
            || issue in PermissionIssues(doc) || issue in StatusIssues(doc) || issue in RevokerFormIssues(doc)
            || issue in SeeAlsoIssues(doc, |doc.seeAlso|) || issue in FieldIssues(doc, RELATIONSHIP_TYPES)
  {
  }

  /** The passes over the fields that every document has. */
  ghost predicate CommonPart(isTimestamp: string -> bool, doc: Document, issue: Issue) {
    match issue.problem
    case Unreadable => Reported(isTimestamp, doc, issue.field, Unreadable)
    case DeclaredTwice => Reported(isTimestamp, doc, issue.field, DeclaredTwice)
    case Required => Reported(isTimestamp, doc, issue.field, Required)
    case NotCanonicalId => Reported(isTimestamp, doc, issue.field, NotCanonicalId)
    case NotTimestamp => Reported(isTimestamp, doc, issue.field, NotTimestamp)
    case _ => false
  }

  lemma {:induction false} CommonReported(isTimestamp: string -> bool, doc: Document, issue: Issue)
    ensures issue in When(doc.readError.Some?, doc, "frontmatter", Unreadable) ||
            issue in DuplicateFieldIssues(doc, doc.duplicateFields) || issue in RequiredIssues(doc) ||
            issue in FormatIssues(isTimestamp, doc) <==>
            issue.path == doc.path && CommonPart(isTimestamp, doc, issue)
  {
    DuplicateFieldsReported(doc, doc.duplicateFields);
    RequiredReported(isTimestamp, doc);
    FormatReported(isTimestamp, doc);
  }

  lemma {:induction false} PermittedReported(isTimestamp: string -> bool, doc: Document, issue: Issue)
    ensures issue in PermissionIssues(doc) || issue in FieldIssues(doc, RELATIONSHIP_TYPES) <==>
            issue.path == doc.path && issue.problem == NotPermitted &&
            Reported(isTimestamp, doc, issue.field, NotPermitted)
  {
    PermissionReported(doc);
    ForbiddenReported(doc);
  }

  lemma {:induction false} SelfReported(isTimestamp: string -> bool, doc: Document, issue: Issue)
    ensures issue in SeeAlsoIssues(doc, |doc.seeAlso|) <==>
            issue.path == doc.path && issue.problem in {SelfReference, NotWikiTarget, RepeatedTarget} &&
            Reported(isTimestamp, doc, issue.field, issue.problem)
  {
    SeeAlsoReported(doc, |doc.seeAlso|);
    SeeAlsoSpelledOut(doc);
  }

  lemma {:induction false} RestReported(isTimestamp: string -> bool, doc: Document, issue: Issue)
    ensures issue in EvidenceIssues(doc) || issue in StatusIssues(doc) || issue in RevokerFormIssues(doc) <==>
            issue.path == doc.path && Reported(isTimestamp, doc, issue.field, issue.problem) &&
            issue.problem in {EmptySource, EmptyBody, NoSource, BadStatus, MissingRevoker, UnexpectedRevoker,
              NotCanonicalRevoker}
  {
    EvidenceReported(doc);
    StatusReported(doc);
    RevokerReported(isTimestamp, doc);
  }

  lemma {:induction false} IssueMeaning(isTimestamp: string -> bool, doc: Document, issue: Issue)
    ensures issue in Validate(isTimestamp, doc) <==>
            issue.path == doc.path && Reported(isTimestamp, doc, issue.field, issue.problem)
  {
    ValidateParts(isTimestamp, doc, issue);
    CommonReported(isTimestamp, doc, issue);
    PermittedReported(isTimestamp, doc, issue);
    SelfReported(isTimestamp, doc, issue);
    RestReported(isTimestamp, doc, issue);
  }

  /** `validate_document` reports exactly these problems. */
  lemma {:induction false} ValidateMeaning(isTimestamp: string -> bool, doc: Document)
    ensures forall issue :: issue in Validate(isTimestamp, doc) <==>
              issue.path == doc.path && Reported(isTimestamp, doc, issue.field, issue.problem)
  {
    forall issue
      ensures issue in Validate(isTimestamp, doc) <==>
              issue.path == doc.path && Reported(isTimestamp, doc, issue.field, issue.problem)
    {
      IssueMeaning(isTimestamp, doc, issue);
    }
  }

  lemma {:induction false} SeeAlsoSpelledOut(doc: Document)
    ensures SeeAlsoProblem(doc, |doc.seeAlso|, SelfReference) <==> doc.id in doc.seeAlso
    ensures SeeAlsoProblem(doc, |doc.seeAlso|, NotWikiTarget) <==>
            exists target :: target in doc.seeAlso && !("wiki:" <= target)
  {
    if i :| 0 <= i < |doc.seeAlso| && !("wiki:" <= doc.seeAlso[i]) {
      assert doc.seeAlso[i] in doc.seeAlso;
    }
    if target :| target in doc.seeAlso && !("wiki:" <= target) {
      var i :| 0 <= i < |doc.seeAlso| && doc.seeAlso[i] == target;
      assert !("wiki:" <= doc.seeAlso[i]);
    }
  }

  /** So a document is valid exactly if nothing is reported. */
  lemma {:induction false} ValidMeaning(isTimestamp: string -> bool, doc: Document)
    ensures IsValid(isTimestamp, doc) <==> forall field, problem :: !Reported(isTimestamp, doc, field, problem)
  {
    ValidateMeaning(isTimestamp, doc);
    var all := Validate(isTimestamp, doc);
    if all != [] {
      assert all[0] in all;
    }
    if field, problem :| Reported(isTimestamp, doc, field, problem) {
      assert Issue(doc.path, field, problem) in all;
    }
  }
}
