/**
 The whole-catalogue check (src/knowledge/health.rs:12-103) and the uniqueness
 filter of search (src/knowledge/query.rs:145-165).
 */
module Health {
  import opened Lists
  import opened Records
  import Strings
  import opened Wrappers

  /** The per-document validation the catalogue check is run with. */
  type Validator = Document -> seq<Issue>

  predicate Passes(validate: Validator, doc: Document) {
    validate(doc) == []
  }

  function MemoryKinds(): set<string> {
    {"wiki", "lens", "evidence", "decision"}
  }

  /** All the catalogue check needs from validation: a real ID and a known kind. */
  ghost predicate Sound(validate: Validator) {
    forall doc :: Passes(validate, doc) ==> doc.id != "" && doc.kind in MemoryKinds()
  }

  function MemoryValidator(isTimestamp: string -> bool): Validator {
    (doc: Document) => Validate(isTimestamp, doc)
  }

  /** `validate_document` is such a validation. */
  lemma {:induction false} MemoryValidatorSound(isTimestamp: string -> bool)
    ensures Sound(MemoryValidator(isTimestamp))
  {
    forall doc | Passes(MemoryValidator(isTimestamp), doc)
      ensures doc.id != "" && doc.kind in MemoryKinds()
    {
      ValidIdNamesKind(isTimestamp, doc);
      IdKindUnique(doc.id, doc.kind);
    }
  }

  datatype KnowledgeCheck = KnowledgeCheck(valid: bool, documents: nat, errors: seq<Issue>)

  // ------------------------------------------------------ what check reports

  /** The last of these documents carrying the ID. */
  function LastWith(docs: seq<Document>, id: string): (doc: Option<Document>)
    ensures doc.Some? ==> doc.value in docs && doc.value.id == id
    ensures doc.None? ==> forall d | d in docs :: d.id != id
  {
    if |docs| == 0 then None
    else if docs[|docs| - 1].id == id then Some(docs[|docs| - 1])
    else LastWith(docs[..|docs| - 1], id)
  }

  /** The kind recorded for a non-empty ID. */
  function KindOf(docs: seq<Document>, id: string): Option<string> {
    match LastWith(docs, id)
    case None => None
    case Some(doc) => if id == "" then None else Some(doc.kind)
  }

  function DocumentIssues(validate: Validator, docs: seq<Document>): seq<Issue> {
    if |docs| == 0 then []
    else
      var front, doc := docs[..|docs| - 1], docs[|docs| - 1];
      var earlier := LastWith(front, doc.id);
      DocumentIssues(validate, front) + validate(doc) +
      if doc.id != "" && earlier.Some? then [Issue(doc.path, "id", DuplicateOf(earlier.value.path))] else []
  }

  function RevokerIssues(docs: seq<Document>, doc: Document): seq<Issue> {
    var target := OrEmpty(doc.revokedBy);
    if Strings.Trim(target) == "" then []
    else if target == doc.id then [Issue(doc.path, "revoked_by", SelfReference)]
    else if KindOf(docs, target).None? then [Issue(doc.path, "revoked_by", MissingTarget)]
    else []
  }

  function RelationshipIssue(docs: seq<Document>, doc: Document, relationship: Relationship): seq<Issue> {
    match KindOf(docs, relationship.target)
    case None => [Issue(doc.path, relationship.kind, MissingTarget)]
    case Some(kind) =>
      if RelationshipTargetAllowed(doc.kind, relationship.kind, kind) then []
      else [Issue(doc.path, relationship.kind, WrongTargetKind)]
  }

  function SeeAlsoIssue(docs: seq<Document>, doc: Document, target: string): seq<Issue> {
    match KindOf(docs, target)
    case None => [Issue(doc.path, "see_also", MissingTarget)]
    case Some(kind) => if kind == "wiki" then [] else [Issue(doc.path, "see_also", WrongTargetKind)]
  }

  function RelationshipCheck(docs: seq<Document>, doc: Document): Relationship -> seq<Issue> {
    (relationship: Relationship) => RelationshipIssue(docs, doc, relationship)
  }

  function SeeAlsoCheck(docs: seq<Document>, doc: Document): string -> seq<Issue> {
    (target: string) => SeeAlsoIssue(docs, doc, target)
  }

  function TargetCheck(docs: seq<Document>): Document -> seq<Issue> {
    (doc: Document) => TargetIssues(docs, doc)
  }

  function TargetIssues(docs: seq<Document>, doc: Document): seq<Issue> {
    RevokerIssues(docs, doc) +
    Flatten(Map(RelationshipCheck(docs, doc), doc.relationships)) +
    Flatten(Map(SeeAlsoCheck(docs, doc), doc.seeAlso))
  }

  function CheckErrors(validate: Validator, docs: seq<Document>, layout: seq<Issue>): seq<Issue> {
    layout + DocumentIssues(validate, docs) + Flatten(Map(TargetCheck(docs), docs))
  }

  function Check(validate: Validator, docs: seq<Document>, layout: seq<Issue>): KnowledgeCheck {
    var errors := CheckErrors(validate, docs, layout);
    KnowledgeCheck(errors == [], |docs|, errors)
  }

  // --------------------------------------------------------- the algorithm

  lemma {:induction false} LastWithNext(docs: seq<Document>, i: nat, id: string)
    requires i < |docs|
    ensures LastWith(docs[..i + 1], id) == if docs[i].id == id then Some(docs[i]) else LastWith(docs[..i], id)
  {
    assert docs[..i + 1][..i] == docs[..i];
  }

  lemma {:induction false} DocumentIssuesNext(validate: Validator, docs: seq<Document>, i: nat)
    requires i < |docs|
    ensures var doc, earlier := docs[i], LastWith(docs[..i], docs[i].id);
            DocumentIssues(validate, docs[..i + 1]) ==
            DocumentIssues(validate, docs[..i]) + validate(doc) +
            if doc.id != "" && earlier.Some? then [Issue(doc.path, "id", DuplicateOf(earlier.value.path))] else []
  {
    assert docs[..i + 1][..i] == docs[..i];
  }

  /** A map from every non-empty ID to the last document with it, seen through f. */
  ghost predicate Indexes(index: map<string, string>, docs: seq<Document>, f: Document -> string) {
    forall id :: if id != "" && LastWith(docs, id).Some?
      then id in index && index[id] == f(LastWith(docs, id).value)
      else id !in index
  }

  method FirstPass(validate: Validator, docs: seq<Document>) returns (issues: seq<Issue>, kinds: map<string, string>)
    ensures issues == DocumentIssues(validate, docs)
    ensures Indexes(kinds, docs, (doc: Document) => doc.kind)
  {
    issues := [];
    var ids: map<string, string> := map[];
    kinds := map[];
    for i := 0 to |docs|
      invariant issues == DocumentIssues(validate, docs[..i])
      invariant Indexes(ids, docs[..i], (doc: Document) => doc.path)
      invariant Indexes(kinds, docs[..i], (doc: Document) => doc.kind)
    {
      var doc := docs[i];
      DocumentIssuesNext(validate, docs, i);
      forall id
        ensures LastWith(docs[..i + 1], id) == if doc.id == id then Some(doc) else LastWith(docs[..i], id)
      {
        LastWithNext(docs, i, id);
      }
      issues := issues + validate(doc);
      if doc.id != "" {
        if doc.id in ids {
          issues := issues + [Issue(doc.path, "id", DuplicateOf(ids[doc.id]))];
        }
        ids := ids[doc.id := doc.path];
        kinds := kinds[doc.id := doc.kind];
      }
    }
    assert docs[..|docs|] == docs;
  }

  method CheckRevoker(docs: seq<Document>, kinds: map<string, string>, doc: Document) returns (issues: seq<Issue>)
    requires Indexes(kinds, docs, (d: Document) => d.kind)
    ensures issues == RevokerIssues(docs, doc)
  {
    issues := [];
    if doc.revokedBy.Some? && Strings.Trim(doc.revokedBy.value) != "" {
      var target := doc.revokedBy.value;
      if target == doc.id {
        issues := [Issue(doc.path, "revoked_by", SelfReference)];
      } else if target !in kinds {
        issues := [Issue(doc.path, "revoked_by", MissingTarget)];
      }
    }
  }

  method CheckTargets(docs: seq<Document>, kinds: map<string, string>, doc: Document) returns (issues: seq<Issue>)
    requires Indexes(kinds, docs, (d: Document) => d.kind)
    ensures issues == TargetIssues(docs, doc)
  {
    var revoker := CheckRevoker(docs, kinds, doc);
    issues := revoker;
    for i := 0 to |doc.relationships|
      invariant issues == revoker + Flatten(Map(RelationshipCheck(docs, doc), doc.relationships[..i]))
    {
      var relationship := doc.relationships[i];
      FlattenMapNext(RelationshipCheck(docs, doc), doc.relationships, i);
      assert RelationshipCheck(docs, doc)(relationship) == RelationshipIssue(docs, doc, relationship);
      if relationship.target !in kinds {
        issues := issues + [Issue(doc.path, relationship.kind, MissingTarget)];
        continue;
      }
      if !RelationshipTargetAllowed(doc.kind, relationship.kind, kinds[relationship.target]) {
        issues := issues + [Issue(doc.path, relationship.kind, WrongTargetKind)];
      }
    }
    assert doc.relationships[..|doc.relationships|] == doc.relationships;
    var seeAlso := CheckSeeAlso(docs, kinds, doc);
    issues := issues + seeAlso;
  }

  method CheckSeeAlso(docs: seq<Document>, kinds: map<string, string>, doc: Document) returns (issues: seq<Issue>)
    requires Indexes(kinds, docs, (d: Document) => d.kind)
    ensures issues == Flatten(Map(SeeAlsoCheck(docs, doc), doc.seeAlso))
  {
    issues := [];
    for i := 0 to |doc.seeAlso|
      invariant issues == Flatten(Map(SeeAlsoCheck(docs, doc), doc.seeAlso[..i]))
    {
      var target := doc.seeAlso[i];
      FlattenMapNext(SeeAlsoCheck(docs, doc), doc.seeAlso, i);
      assert SeeAlsoCheck(docs, doc)(target) == SeeAlsoIssue(docs, doc, target);
      if target !in kinds {
        issues := issues + [Issue(doc.path, "see_also", MissingTarget)];
        continue;
      }
      if kinds[target] != "wiki" {
        issues := issues + [Issue(doc.path, "see_also", WrongTargetKind)];
      }
    }
    assert doc.seeAlso[..|doc.seeAlso|] == doc.seeAlso;
  }

  method SecondPass(docs: seq<Document>, kinds: map<string, string>) returns (issues: seq<Issue>)
    requires Indexes(kinds, docs, (d: Document) => d.kind)
    ensures issues == Flatten(Map(TargetCheck(docs), docs))
  {
    issues := [];
    for i := 0 to |docs|
      invariant issues == Flatten(Map(TargetCheck(docs), docs[..i]))
    {
      var found := CheckTargets(docs, kinds, docs[i]);
      FlattenMapNext(TargetCheck(docs), docs, i);
      assert TargetCheck(docs)(docs[i]) == found;
      issues := issues + found;
    }
    assert docs[..|docs|] == docs;
  }

  method CheckDocuments(validate: Validator, docs: seq<Document>, layout: seq<Issue>) returns (check: KnowledgeCheck)
    ensures check == Check(validate, docs, layout)
  {
    var own, kinds := FirstPass(validate, docs);
    var targets := SecondPass(docs, kinds);
    var issues := layout + own + targets;
    check := KnowledgeCheck(issues == [], |docs|, issues);
  }

  // ------------------------------------------------------- what valid means

  ghost predicate UniqueIds(docs: seq<Document>) {
    forall i, j :: 0 <= i < j < |docs| ==> docs[i].id != docs[j].id
  }

  ghost predicate Exists(docs: seq<Document>, id: string, kinds: set<string>) {
    exists target :: target in docs && target.id == id && target.kind in kinds
  }

  /** Evidence builds on evidence; a decision uses knowledge, is supported by evidence and amends decisions. */
  function AllowedTargets(source: string, relationship: string): set<string> {
    if source == "evidence" && (relationship == "updates" || relationship == "contradicts") then {"evidence"}
    else if source == "decision" && relationship == "uses" then {"wiki", "lens"}
    else if source == "decision" && relationship == "supports" then {"evidence"}
    else if source == "decision" && (relationship == "updates" || relationship == "contradicts") then {"decision"}
    else {}
  }

  lemma {:induction false} AllowedMeaning(source: string, relationship: string, kind: string)
    ensures RelationshipTargetAllowed(source, relationship, kind) <==> kind in AllowedTargets(source, relationship)
  {
  }

  ghost predicate RevokerHolds(docs: seq<Document>, doc: Document) {
    var target := OrEmpty(doc.revokedBy);
    Strings.Trim(target) != "" ==> target != doc.id && Exists(docs, target, MemoryKinds())
  }

  /** Every reference of one document reaches a document of a permitted kind. */
  ghost predicate ReferencesHold(docs: seq<Document>, doc: Document) {
    && RevokerHolds(docs, doc)
    && (forall r :: r in doc.relationships ==> Exists(docs, r.target, AllowedTargets(doc.kind, r.kind)))
    && (forall target :: target in doc.seeAlso ==> Exists(docs, target, {"wiki"}))
  }

  lemma {:induction false} FlattenEmpty<T(!new), U>(f: T -> seq<U>, s: seq<T>)
    ensures Flatten(Map(f, s)) == [] <==> forall x :: x in s ==> f(x) == []
  {
    if |s| > 0 {
      var front, last := s[..|s| - 1], s[|s| - 1];
      FlattenEmpty(f, front);
      assert Map(f, s)[..|s| - 1] == Map(f, front);
      assert s == front + [last];
    }
  }

  lemma {:induction false} UniqueNext(docs: seq<Document>, doc: Document)
    ensures UniqueIds(docs + [doc]) <==> UniqueIds(docs) && forall d :: d in docs ==> d.id != doc.id
  {
    var all := docs + [doc];
    assert forall i :: 0 <= i < |docs| ==> all[i] == docs[i];
    assert all[|docs|] == doc;
  }

  lemma {:induction false} DocumentIssuesEmpty(validate: Validator, docs: seq<Document>)
    requires Sound(validate)
    ensures DocumentIssues(validate, docs) == [] <==>
            (forall doc :: doc in docs ==> Passes(validate, doc)) && UniqueIds(docs)
  {
    if |docs| > 0 {
      var front, doc := docs[..|docs| - 1], docs[|docs| - 1];
      DocumentIssuesEmpty(validate, front);
      UniqueNext(front, doc);
      assert docs == front + [doc];
      var earlier := LastWith(front, doc.id);
      NothingJoined(DocumentIssues(validate, front), validate(doc),
                    if doc.id != "" && earlier.Some? then [Issue(doc.path, "id", DuplicateOf(earlier.value.path))]
                       else []);
      assert earlier.Some? <==> !forall d :: d in front ==> d.id != doc.id;
    }
  }

  lemma {:induction false} NothingJoined<T>(a: seq<T>, b: seq<T>, c: seq<T>)
    ensures a + b + c == [] <==> a == [] && b == [] && c == []
  {
    assert |a + b + c| == |a| + |b| + |c|;
  }

  lemma {:induction false} KindOfUnique(docs: seq<Document>, id: string, target: Document)
    requires UniqueIds(docs) && target in docs && target.id == id && id != ""
    ensures KindOf(docs, id) == Some(target.kind)
  {
  }

  lemma {:induction false} ExistsIffKind(validate: Validator, docs: seq<Document>, id: string, kinds: set<string>)
    requires Sound(validate) && UniqueIds(docs) && forall doc :: doc in docs ==> Passes(validate, doc)
    ensures Exists(docs, id, kinds) <==> KindOf(docs, id).Some? && KindOf(docs, id).value in kinds
    ensures KindOf(docs, id).Some? ==> KindOf(docs, id).value in MemoryKinds()
  {
    if Exists(docs, id, kinds) {
      var target :| target in docs && target.id == id && target.kind in kinds;
      assert Passes(validate, target);
      KindOfUnique(docs, id, target);
    }
    if KindOf(docs, id).Some? {
      assert Passes(validate, LastWith(docs, id).value);
    }
  }

  ghost predicate Catalogue(validate: Validator, docs: seq<Document>) {
    Sound(validate) && UniqueIds(docs) && forall d :: d in docs ==> Passes(validate, d)
  }

  lemma {:induction false} RelationshipsEmpty(validate: Validator, docs: seq<Document>, doc: Document)
    requires Catalogue(validate, docs)
    ensures Flatten(Map(RelationshipCheck(docs, doc), doc.relationships)) == [] <==>
            forall r :: r in doc.relationships ==> Exists(docs, r.target, AllowedTargets(doc.kind, r.kind))
  {
    FlattenEmpty(RelationshipCheck(docs, doc), doc.relationships);
    forall r | r in doc.relationships
      ensures RelationshipCheck(docs, doc)(r) == [] <==> Exists(docs, r.target, AllowedTargets(doc.kind, r.kind))
    {
      ExistsIffKind(validate, docs, r.target, AllowedTargets(doc.kind, r.kind));
      if KindOf(docs, r.target).Some? {
        AllowedMeaning(doc.kind, r.kind, KindOf(docs, r.target).value);
      }
    }
  }

  lemma {:induction false} SeeAlsoEmpty(validate: Validator, docs: seq<Document>, doc: Document)
    requires Catalogue(validate, docs)
    ensures Flatten(Map(SeeAlsoCheck(docs, doc), doc.seeAlso)) == [] <==>
            forall target :: target in doc.seeAlso ==> Exists(docs, target, {"wiki"})
  {
    FlattenEmpty(SeeAlsoCheck(docs, doc), doc.seeAlso);
    forall target | target in doc.seeAlso
      ensures SeeAlsoCheck(docs, doc)(target) == [] <==> Exists(docs, target, {"wiki"})
    {
      ExistsIffKind(validate, docs, target, {"wiki"});
    }
  }

  lemma {:induction false} TargetIssuesEmpty(validate: Validator, docs: seq<Document>, doc: Document)
    requires Catalogue(validate, docs)
    ensures TargetIssues(docs, doc) == [] <==> ReferencesHold(docs, doc)
  {
    RelationshipsEmpty(validate, docs, doc);
    SeeAlsoEmpty(validate, docs, doc);
    ExistsIffKind(validate, docs, OrEmpty(doc.revokedBy), MemoryKinds());
  }

  ghost predicate Healthy(validate: Validator, docs: seq<Document>) {
    Catalogue(validate, docs) && forall doc :: doc in docs ==> ReferencesHold(docs, doc)
  }

  /** The check passes exactly for clean, valid, unique and closed catalogues. */
  lemma {:induction false} CheckMeaning(validate: Validator, docs: seq<Document>, layout: seq<Issue>)
    requires Sound(validate)
    ensures Check(validate, docs, layout).valid <==> layout == [] && Healthy(validate, docs)
  {
    DocumentIssuesEmpty(validate, docs);
    FlattenEmpty(TargetCheck(docs), docs);
    if Catalogue(validate, docs) {
      forall doc | doc in docs
        ensures TargetCheck(docs)(doc) == [] <==> ReferencesHold(docs, doc)
      {
        TargetIssuesEmpty(validate, docs, doc);
      }
    }
  }

  /** For `validate_document` itself: valid exactly for clean, healthy catalogues. */
  lemma {:induction false} MemoryCheckMeaning(isTimestamp: string -> bool, docs: seq<Document>, layout: seq<Issue>)
    ensures Check(MemoryValidator(isTimestamp), docs, layout).valid <==>
            layout == [] && Healthy(MemoryValidator(isTimestamp), docs)
  {
    MemoryValidatorSound(isTimestamp);
    CheckMeaning(MemoryValidator(isTimestamp), docs, layout);
  }

  // ------------------------------------------------ what is reported, in full

  /** No document carries this ID. */
  ghost predicate Unknown(docs: seq<Document>, id: string) {
    id == "" || forall doc :: doc in docs ==> doc.id != id
  }

  /** The last document with this ID is of this kind. */
  ghost predicate Known(docs: seq<Document>, id: string, kind: string) {
    id != "" && exists i :: 0 <= i < |docs| && LastHolder(docs, i, id) && docs[i].kind == kind
  }

  ghost predicate LastHolder(docs: seq<Document>, i: nat, id: string)
    requires i < |docs|
  {
    docs[i].id == id && forall k :: i < k < |docs| ==> docs[k].id != id
  }

  /** An ID met again is reported at the later document, with the path of the one before it. */
  ghost predicate Repeats(docs: seq<Document>, issue: Issue) {
    exists i, j :: 0 <= j < i < |docs| && RepeatsAt(docs, i, j) &&
                   issue == Issue(docs[i].path, "id", DuplicateOf(docs[j].path))
  }

  ghost predicate RepeatsAt(docs: seq<Document>, i: nat, j: nat)
    requires j < i < |docs|
  {
    docs[i].id != "" && docs[j].id == docs[i].id && forall k :: j < k < i ==> docs[k].id != docs[i].id
  }

  ghost predicate RevokerReported(docs: seq<Document>, doc: Document, problem: Problem) {
    && doc.revokedBy.Some? && !Blank(doc.revokedBy.value)
    && match problem
       case SelfReference => doc.revokedBy.value == doc.id
       case MissingTarget => doc.revokedBy.value != doc.id && Unknown(docs, doc.revokedBy.value)
       case _ => false
  }

  /** A target that is missing or of a kind that is not allowed. */
  ghost predicate TargetReported(docs: seq<Document>, target: string, allowed: set<string>, problem: Problem) {
    match problem
    case MissingTarget => Unknown(docs, target)
    case WrongTargetKind => exists kind :: Known(docs, target, kind) && kind !in allowed
    case _ => false
  }

  ghost predicate ReferenceReported(docs: seq<Document>, doc: Document, issue: Issue) {
    && issue.path == doc.path
    && (|| (issue.field == "revoked_by" && RevokerReported(docs, doc, issue.problem))
        || (exists r :: r in doc.relationships && issue.field == r.kind &&
                        TargetReported(docs, r.target, AllowedTargets(doc.kind, r.kind), issue.problem))
        || (exists target :: target in doc.seeAlso && issue.field == "see_also" &&
                             TargetReported(docs, target, {"wiki"}, issue.problem)))
  }

  lemma {:induction false} LastWithMeaning(docs: seq<Document>, id: string)
    ensures LastWith(docs, id).None? <==> forall doc :: doc in docs ==> doc.id != id
    ensures LastWith(docs, id).Some? ==>
              exists i :: 0 <= i < |docs| && LastHolder(docs, i, id) && docs[i] == LastWith(docs, id).value
  {
    if |docs| > 0 && docs[|docs| - 1].id != id {
      var front := docs[..|docs| - 1];
      LastWithMeaning(front, id);
      assert docs == front + [docs[|docs| - 1]];
      if LastWith(front, id).Some? {
        var i :| 0 <= i < |front| && LastHolder(front, i, id) && front[i] == LastWith(front, id).value;
        assert LastHolder(docs, i, id);
      }
    } else if |docs| > 0 {
      assert LastHolder(docs, |docs| - 1, id);
    }
  }

  lemma {:induction false} KindOfMeaning(docs: seq<Document>, id: string)
    ensures KindOf(docs, id).None? <==> Unknown(docs, id)
    ensures forall kind :: KindOf(docs, id) == Some(kind) <==> Known(docs, id, kind)
  {
    LastWithMeaning(docs, id);
    forall i, j | 0 <= i < |docs| && 0 <= j < |docs| && LastHolder(docs, i, id) && LastHolder(docs, j, id)
      ensures i == j
    {
    }
    if id != "" && LastWith(docs, id).Some? {
      var i :| 0 <= i < |docs| && LastHolder(docs, i, id) && docs[i] == LastWith(docs, id).value;
      assert Known(docs, id, docs[i].kind);
    }
  }

  lemma {:induction false} TargetMeaning(docs: seq<Document>, target: string, allowed: set<string>, problem: Problem)
    ensures TargetReported(docs, target, allowed, problem) <==>
            match KindOf(docs, target)
            case None => problem == MissingTarget
            case Some(kind) => kind !in allowed && problem == WrongTargetKind
  {
    KindOfMeaning(docs, target);
    match KindOf(docs, target) {
      case None =>
      case Some(kind) => assert Known(docs, target, kind);
    }
  }

  lemma {:induction false} RevokerMeaning(docs: seq<Document>, doc: Document, issue: Issue)
    ensures issue in RevokerIssues(docs, doc) <==>
            issue.path == doc.path && issue.field == "revoked_by" && RevokerReported(docs, doc, issue.problem)
  {
    KindOfMeaning(docs, OrEmpty(doc.revokedBy));
    assert Strings.Trim("") == "";
  }

  lemma {:induction false} RelationshipsMeaning(docs: seq<Document>, doc: Document, issue: Issue)
    ensures issue in Flatten(Map(RelationshipCheck(docs, doc), doc.relationships)) <==>
            issue.path == doc.path &&
            exists r :: r in doc.relationships && issue.field == r.kind &&
                        TargetReported(docs, r.target, AllowedTargets(doc.kind, r.kind), issue.problem)
  {
    FlattenMember(RelationshipCheck(docs, doc), doc.relationships, issue);
    forall r
      ensures issue in RelationshipCheck(docs, doc)(r) <==>
              issue.path == doc.path && issue.field == r.kind &&
              TargetReported(docs, r.target, AllowedTargets(doc.kind, r.kind), issue.problem)
    {
      TargetMeaning(docs, r.target, AllowedTargets(doc.kind, r.kind), issue.problem);
      if KindOf(docs, r.target).Some? {
        AllowedMeaning(doc.kind, r.kind, KindOf(docs, r.target).value);
      }
    }
  }

  lemma {:induction false} SeeAlsoMeaning(docs: seq<Document>, doc: Document, issue: Issue)
    ensures issue in Flatten(Map(SeeAlsoCheck(docs, doc), doc.seeAlso)) <==>
            issue.path == doc.path &&
            exists target :: target in doc.seeAlso && issue.field == "see_also" &&
                             TargetReported(docs, target, {"wiki"}, issue.problem)
  {
    FlattenMember(SeeAlsoCheck(docs, doc), doc.seeAlso, issue);
    forall target
      ensures issue in SeeAlsoCheck(docs, doc)(target) <==>
              issue.path == doc.path && issue.field == "see_also" &&
              TargetReported(docs, target, {"wiki"}, issue.problem)
    {
      TargetMeaning(docs, target, {"wiki"}, issue.problem);
    }
  }

  lemma {:induction false} ReferencesMeaning(docs: seq<Document>, doc: Document, issue: Issue)
    ensures issue in TargetIssues(docs, doc) <==> ReferenceReported(docs, doc, issue)
  {
    RevokerMeaning(docs, doc, issue);
    RelationshipsMeaning(docs, doc, issue);
    SeeAlsoMeaning(docs, doc, issue);
  }

  predicate RepeatsLast(front: seq<Document>, doc: Document, issue: Issue) {
    && doc.id != "" && LastWith(front, doc.id).Some?
    && issue == Issue(doc.path, "id", DuplicateOf(LastWith(front, doc.id).value.path))
  }

  lemma {:induction false} RepeatsStay(front: seq<Document>, doc: Document, issue: Issue)
    requires Repeats(front, issue)
    ensures Repeats(front + [doc], issue)
  {
    var docs := front + [doc];
    var i, j :| 0 <= j < i < |front| && RepeatsAt(front, i, j) &&
                issue == Issue(front[i].path, "id", DuplicateOf(front[j].path));
    assert RepeatsAt(docs, i, j) && docs[i] == front[i] && docs[j] == front[j];
  }

  lemma {:induction false} RepeatsAdded(front: seq<Document>, doc: Document, issue: Issue)
    requires RepeatsLast(front, doc, issue)
    ensures Repeats(front + [doc], issue)
  {
    var docs := front + [doc];
    LastWithMeaning(front, doc.id);
    var j :| 0 <= j < |front| && LastHolder(front, j, doc.id) && front[j] == LastWith(front, doc.id).value;
    assert RepeatsAt(docs, |front|, j) && docs[j] == front[j];
  }

  lemma {:induction false} RepeatsFrom(front: seq<Document>, doc: Document, issue: Issue)
    requires Repeats(front + [doc], issue)
    ensures Repeats(front, issue) || RepeatsLast(front, doc, issue)
  {
    var docs := front + [doc];
    var i, j :| 0 <= j < i < |docs| && RepeatsAt(docs, i, j) &&
                issue == Issue(docs[i].path, "id", DuplicateOf(docs[j].path));
    assert forall k :: 0 <= k < |front| ==> docs[k] == front[k];
    if i < |front| {
      assert front[i].id == docs[i].id && front[j].id == docs[j].id;
      assert RepeatsAt(front, i, j);
    } else {
      LastWithMeaning(front, doc.id);
      assert docs[i] == doc && docs[j] == front[j] && front[j] in front;
      assert forall k :: j < k < |front| ==> docs[k].id != doc.id;
      assert LastHolder(front, j, doc.id);
      var k :| 0 <= k < |front| && LastHolder(front, k, doc.id) && front[k] == LastWith(front, doc.id).value;
      assert k == j;
    }
  }

  lemma {:induction false} DocumentsMeaning(validate: Validator, docs: seq<Document>, issue: Issue)
    ensures issue in DocumentIssues(validate, docs) <==>
            (exists doc :: doc in docs && issue in validate(doc)) || Repeats(docs, issue)
  {
    if |docs| > 0 {
      var front, doc := docs[..|docs| - 1], docs[|docs| - 1];
      DocumentsMeaning(validate, front, issue);
      assert docs == front + [doc];
      if Repeats(front, issue) {
        RepeatsStay(front, doc, issue);
      }
      if RepeatsLast(front, doc, issue) {
        RepeatsAdded(front, doc, issue);
      }
      if Repeats(docs, issue) {
        RepeatsFrom(front, doc, issue);
      }
    }
  }

  /**
   The check reports the layout issues, what validation reports of a document,
   every ID met again, and every reference that is missing or not allowed.
   */
  lemma {:induction false} CheckReports(validate: Validator, docs: seq<Document>, layout: seq<Issue>)
    ensures var check := Check(validate, docs, layout);
            && check.documents == |docs| && (check.valid <==> check.errors == [])
            && forall issue :: issue in check.errors <==>
                 || issue in layout || (exists doc :: doc in docs && issue in validate(doc)) || Repeats(docs, issue)
                 || (exists doc :: doc in docs && ReferenceReported(docs, doc, issue))
  {
    forall issue
      ensures issue in CheckErrors(validate, docs, layout) <==>
              || issue in layout || (exists doc :: doc in docs && issue in validate(doc)) || Repeats(docs, issue)
              || (exists doc :: doc in docs && ReferenceReported(docs, doc, issue))
    {
      DocumentsMeaning(validate, docs, issue);
      FlattenMember(TargetCheck(docs), docs, issue);
      forall doc
        ensures issue in TargetCheck(docs)(doc) <==> ReferenceReported(docs, doc, issue)
      {
        ReferencesMeaning(docs, doc, issue);
      }
    }
  }

  // -------------------------------------------------- relationships by kind

  ghost predicate Linked(a: Document, b: Document) {
    exists r :: r in a.relationships && r.target == b.id
  }

  /** A chain of documents, each related to the next. */
  ghost predicate Chain(docs: seq<Document>, path: seq<Document>) {
    && (forall doc :: doc in path ==> doc in docs)
    && (forall i :: 0 <= i < |path| - 1 ==> Linked(path[i], path[i + 1]))
  }

  lemma {:induction false} AllowedKind(source: string, relationship: string, kind: string)
    requires kind in AllowedTargets(source, relationship)
    ensures source == kind || (source == "decision" && kind != "decision")
  {
  }

  lemma {:induction false} SameId(docs: seq<Document>, a: Document, b: Document)
    requires UniqueIds(docs) && a in docs && b in docs && a.id == b.id
    ensures a == b
  {
    var i :| 0 <= i < |docs| && docs[i] == a;
    var j :| 0 <= j < |docs| && docs[j] == b;
  }

  lemma {:induction false} LinkStays(docs: seq<Document>, a: Document, b: Document)
    requires UniqueIds(docs) && ReferencesHold(docs, a) && b in docs && Linked(a, b)
    ensures a.kind == b.kind || (a.kind == "decision" && b.kind != "decision")
  {
    var r :| r in a.relationships && r.target == b.id;
    assert Exists(docs, r.target, AllowedTargets(a.kind, r.kind));
    var target :| target in docs && target.id == r.target && target.kind in AllowedTargets(a.kind, r.kind);
    SameId(docs, target, b);
    AllowedKind(a.kind, r.kind, b.kind);
  }

  /** Once a relationship chain leaves a kind it never comes back to it. */
  lemma {:induction false} NoReturn(validate: Validator, docs: seq<Document>, path: seq<Document>, i: nat, j: nat,
                                    k: nat)
    requires Healthy(validate, docs) && Chain(docs, path)
    requires i <= j <= k < |path| && path[i].kind == path[k].kind
    ensures path[j].kind == path[i].kind
  {
    LeavesDecision(validate, docs, path, i, j);
    LeavesDecision(validate, docs, path, j, k);
  }

  lemma {:induction false} LeavesDecision(validate: Validator, docs: seq<Document>, path: seq<Document>, i: nat, j: nat)
    requires Healthy(validate, docs) && Chain(docs, path) && i <= j < |path|
    ensures path[i].kind == path[j].kind || (path[i].kind == "decision" && path[j].kind != "decision")
    decreases j - i
  {
    if i < j {
      assert path[i] in path && path[i + 1] in path;
      LinkStays(docs, path[i], path[i + 1]);
      LeavesDecision(validate, docs, path, i + 1, j);
    }
  }

  // ---------------------------------------------- search's uniqueness filter

  function CountId(docs: seq<Document>, id: string): nat {
    if |docs| == 0 then 0
    else CountId(docs[..|docs| - 1], id) + if docs[|docs| - 1].id == id then 1 else 0
  }

  function AloneIn(docs: seq<Document>): Document -> bool {
    (doc: Document) => CountId(docs, doc.id) == 1
  }

  function ValidTest(validate: Validator): Document -> bool {
    (doc: Document) => Passes(validate, doc)
  }

  function ValidOnes(validate: Validator, docs: seq<Document>): seq<Document> {
    Filter(ValidTest(validate), docs)
  }

  /** The documents search looks at: valid, and alone in carrying their ID. */
  function UniqueValid(validate: Validator, docs: seq<Document>): seq<Document> {
    var valid := ValidOnes(validate, docs);
    Filter(AloneIn(valid), valid)
  }

  method UniqueValidDocuments(validate: Validator, docs: seq<Document>) returns (unique: seq<Document>)
    ensures unique == UniqueValid(validate, docs)
  {
    var valid := Filter(ValidTest(validate), docs);
    var counts: map<string, nat> := map[];
    for i := 0 to |valid|
      invariant forall id :: (if id in counts then counts[id] else 0) == CountId(valid[..i], id)
    {
      assert valid[..i + 1][..i] == valid[..i];
      var id := valid[i].id;
      counts := counts[id := 1 + if id in counts then counts[id] else 0];
    }
    assert valid[..|valid|] == valid;
    var alone := (doc: Document) => doc.id in counts && counts[doc.id] == 1;
    unique := Filter(alone, valid);
    FilterSame(alone, AloneIn(valid), valid);
  }

  /** The i-th document is valid and carries this ID. */
  predicate Carries(validate: Validator, docs: seq<Document>, i: nat, id: string)
    requires i < |docs|
  {
    validate(docs[i]) == [] && docs[i].id == id
  }

  ghost predicate Alone(validate: Validator, docs: seq<Document>, i: nat, id: string)
    requires i < |docs|
  {
    Carries(validate, docs, i, id) && forall j :: 0 <= j < |docs| && Carries(validate, docs, j, id) ==> j == i
  }

  lemma {:induction false} CountNext(validate: Validator, front: seq<Document>, doc: Document, id: string)
    ensures CountId(ValidOnes(validate, front + [doc]), id) ==
            CountId(ValidOnes(validate, front), id) + if validate(doc) == [] && doc.id == id then 1 else 0
  {
    var docs := front + [doc];
    assert docs[..|docs| - 1] == front && docs[|docs| - 1] == doc;
    var valid := ValidOnes(validate, front);
    if ValidTest(validate)(doc) {
      assert ValidOnes(validate, docs) == valid + [doc] && (valid + [doc])[..|valid|] == valid;
    } else {
      assert ValidOnes(validate, docs) == valid + [] == valid;
    }
  }

  lemma {:induction false} AloneLast(validate: Validator, front: seq<Document>, doc: Document, id: string)
    requires validate(doc) == [] && doc.id == id
    ensures (exists i :: 0 <= i < |front| + 1 && Alone(validate, front + [doc], i, id)) <==>
            forall i :: 0 <= i < |front| ==> !Carries(validate, front, i, id)
  {
    CarriesFront(validate, front, doc, id);
    if forall i :: 0 <= i < |front| ==> !Carries(validate, front, i, id) {
      assert Alone(validate, front + [doc], |front|, id);
    }
  }

  lemma {:induction false} AloneFront(validate: Validator, front: seq<Document>, doc: Document, id: string)
    requires !(validate(doc) == [] && doc.id == id)
    ensures (exists i :: 0 <= i < |front| + 1 && Alone(validate, front + [doc], i, id)) <==>
            exists i :: 0 <= i < |front| && Alone(validate, front, i, id)
  {
    CarriesFront(validate, front, doc, id);
    assert forall i :: 0 <= i < |front| ==> Alone(validate, front + [doc], i, id) == Alone(validate, front, i, id);
    assert !Alone(validate, front + [doc], |front|, id);
  }

  lemma {:induction false} CarriesFront(validate: Validator, front: seq<Document>, doc: Document, id: string)
    ensures forall i :: 0 <= i < |front| ==> Carries(validate, front + [doc], i, id) == Carries(validate, front, i, id)
    ensures Carries(validate, front + [doc], |front|, id) == (validate(doc) == [] && doc.id == id)
  {
  }

  lemma {:induction false} NoneCarry(validate: Validator, front: seq<Document>, doc: Document, id: string)
    ensures (forall i :: 0 <= i < |front| + 1 ==> !Carries(validate, front + [doc], i, id)) <==>
            (forall i :: 0 <= i < |front| ==> !Carries(validate, front, i, id)) &&
                !(validate(doc) == [] && doc.id == id)
  {
    CarriesFront(validate, front, doc, id);
    if forall i :: 0 <= i < |front| + 1 ==> !Carries(validate, front + [doc], i, id) {
      forall i | 0 <= i < |front|
        ensures !Carries(validate, front, i, id)
      {
        assert !Carries(validate, front + [doc], i, id);
      }
      assert !Carries(validate, front + [doc], |front|, id);
    }
  }

  lemma {:induction false} CountZero(validate: Validator, docs: seq<Document>, id: string)
    ensures CountId(ValidOnes(validate, docs), id) == 0 <==>
            forall i :: 0 <= i < |docs| ==> !Carries(validate, docs, i, id)
  {
    if |docs| > 0 {
      var front, doc := docs[..|docs| - 1], docs[|docs| - 1];
      assert docs == front + [doc];
      CountNext(validate, front, doc, id);
      CountZero(validate, front, id);
      NoneCarry(validate, front, doc, id);
    }
  }

  lemma {:induction false} CountOne(validate: Validator, docs: seq<Document>, id: string)
    ensures CountId(ValidOnes(validate, docs), id) == 1 <==>
            exists i :: 0 <= i < |docs| && Alone(validate, docs, i, id)
  {
    if |docs| > 0 {
      var front, doc := docs[..|docs| - 1], docs[|docs| - 1];
      assert docs == front + [doc];
      CountNext(validate, front, doc, id);
      CountZero(validate, front, id);
      CountOne(validate, front, id);
      if validate(doc) == [] && doc.id == id {
        AloneLast(validate, front, doc, id);
      } else {
        AloneFront(validate, front, doc, id);
      }
    }
  }

  /** Search looks at a document exactly if it is the only valid one with its ID. */
  lemma {:induction false} UniqueValidMeaning(validate: Validator, docs: seq<Document>, doc: Document)
    ensures doc in UniqueValid(validate, docs) <==>
            exists i :: 0 <= i < |docs| && docs[i] == doc && Alone(validate, docs, i, doc.id)
  {
    CountOne(validate, docs, doc.id);
    if doc in UniqueValid(validate, docs) {
      var i :| 0 <= i < |docs| && Alone(validate, docs, i, doc.id);
      var k :| 0 <= k < |docs| && docs[k] == doc;
      assert Carries(validate, docs, k, doc.id);
    }
    if i :| 0 <= i < |docs| && docs[i] == doc && Alone(validate, docs, i, doc.id) {
      assert doc in docs && ValidTest(validate)(doc);
    }
  }

  lemma {:induction false} CountUnique(docs: seq<Document>, doc: Document)
    requires UniqueIds(docs)
    ensures CountId(docs, doc.id) == if exists d :: d in docs && d.id == doc.id then 1 else 0
  {
    if |docs| > 0 {
      var front := docs[..|docs| - 1];
      CountUnique(front, doc);
      assert docs == front + [docs[|docs| - 1]];
    }
  }

  /** In a catalogue that passes the check, search drops nothing. */
  lemma {:induction false} FilterDropsNothing(validate: Validator, docs: seq<Document>)
    requires Healthy(validate, docs)
    ensures UniqueValid(validate, docs) == docs
  {
    FilterAll(ValidTest(validate), docs);
    forall doc | doc in docs
      ensures CountId(docs, doc.id) == 1
    {
      CountUnique(docs, doc);
    }
    FilterAll(AloneIn(docs), docs);
  }
}
