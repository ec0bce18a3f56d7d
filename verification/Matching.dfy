/**
 What a lexical match is worth, said of the document's fields and sections
 themselves: which fields count, what they weigh, when a section is shown and
 what a query must find (src/knowledge/search.rs:219-387;
 src/knowledge/query.rs:251-317).
 */
module Matching {
  import opened Ordering
  import opened Ranking
  import opened Records
  import opened Relevance
  import opened Wrappers
  import Sections

  /** A searched text with its weight; spaceless: spacing may be ignored in it. */
  datatype Part = Part(text: string, weight: nat, spaceless: bool)

  function Each(texts: seq<string>, weight: nat, spaceless: bool): seq<Part> {
    if |texts| == 0 then []
    else Each(texts[..|texts| - 1], weight, spaceless) + [Part(texts[|texts| - 1], weight, spaceless)]
  }

  function Related(doc: Document): seq<string> {
    seq(|doc.relationships|, i requires 0 <= i < |doc.relationships| => doc.relationships[i].target)
  }

  function Period(doc: Document): string {
    match doc.period
    case Some(period) => period
    case None => ""
  }

  /** The fields that are searched. */
  function Parts(doc: Document): seq<Part> {
    [Part(doc.id, 14, false), Part(doc.title, 12, true)] +
    Each(doc.aliases, 12, true) + Each(doc.entities, 12, false) + Each(doc.tags, 8, true) +
    [Part(Period(doc), 8, false), Part(doc.summary, 7, false)] + Each(Related(doc), 4, false)
  }

  function HeadingPart(section: Sections.Section): Part {
    Part(section.heading, 8, true)
  }

  function BodyPart(section: Sections.Section): Part {
    Part(section.text, 4, false)
  }

  // ------------------------------------------------------------- one field

  ghost predicate IgnoresSpacing(part: Part, query: SearchText) {
    part.spaceless && query.compactEligible && |query.compact| >= 3
  }

  ghost predicate Inside(inner: string, outer: string) {
    exists before, after :: outer == before + inner + after
  }

  /** The field is the query. */
  ghost predicate Is(lex: Lexicon, part: Part, query: SearchText) {
    var text := lex.normalize(part.text);
    part.text != "" && (text == query.normalized || (IgnoresSpacing(part, query) && lex.compact(text) == query.compact))
  }

  /** The field has the query in it as a phrase. */
  ghost predicate Quotes(lex: Lexicon, part: Part, query: SearchText) {
    var text := lex.normalize(part.text);
    && part.text != ""
    && ((|query.tokens| >= 2 && lex.bounded(text, query.normalized)) ||
        (IgnoresSpacing(part, query) && Inside(query.compact, lex.compact(text))))
  }

  ghost function Shared(lex: Lexicon, part: Part, query: SearchText): set<string> {
    set token | token in query.tokens && part.text != "" && token in lex.tokens(lex.normalize(part.text))
  }

  ghost predicate Covers(lex: Lexicon, part: Part, query: SearchText) {
    query.tokens != {} && Shared(lex, part, query) == query.tokens
  }

  /** The query terms the field stands for. */
  ghost function Matched(lex: Lexicon, part: Part, query: SearchText): set<string> {
    if Shared(lex, part, query) == {} && part.text != "" && IgnoresSpacing(part, query) &&
       Inside(query.compact, lex.compact(lex.normalize(part.text)))
    then query.tokens else Shared(lex, part, query)
  }

  /** How well a field matches. */
  ghost function Grade(lex: Lexicon, part: Part, query: SearchText): int {
    if Is(lex, part, query) then 4
    else if Quotes(lex, part, query) then 3
    else if Covers(lex, part, query) then 2
    else if Shared(lex, part, query) != {} then 1
    else 0
  }

  /** How well the best of these fields matches. */
  ghost function Strength(lex: Lexicon, parts: seq<Part>, query: SearchText): int {
    if |parts| == 0 then 0
    else Max(Strength(lex, parts[..|parts| - 1], query), Grade(lex, parts[|parts| - 1], query))
  }

  ghost function Worth(lex: Lexicon, part: Part, query: SearchText): nat {
    var shared := |Shared(lex, part, query)|;
    if Grade(lex, part, query) == 0 then 0 else part.weight * (if shared == 0 then 1 else shared)
  }

  ghost function Points(lex: Lexicon, parts: seq<Part>, query: SearchText): nat {
    if |parts| == 0 then 0
    else Points(lex, parts[..|parts| - 1], query) + Worth(lex, parts[|parts| - 1], query)
  }

  ghost function Terms(lex: Lexicon, parts: seq<Part>, query: SearchText): set<string> {
    if |parts| == 0 then {}
    else Terms(lex, parts[..|parts| - 1], query) + Matched(lex, parts[|parts| - 1], query)
  }

  lemma {:induction false} InsideMeaning(inner: string, outer: string)
    ensures Contains(outer, inner) <==> Inside(inner, outer)
  {
    if Contains(outer, inner) {
      var i :| 0 <= i <= |outer| && PartAt(outer, inner, i);
      assert outer == outer[..i] + inner + outer[i + |inner|..];
    }
    if before, after :| outer == before + inner + after {
      assert PartAt(outer, inner, |before|);
    }
  }

  lemma {:induction false} SharedMeaning(lex: Lexicon, part: Part, query: SearchText)
    requires part.text != ""
    ensures var terms := lex.tokens(lex.normalize(part.text)) * query.tokens;
            && terms == Shared(lex, part, query) && (|terms| > 0 <==> terms != {})
            && (|query.tokens| > 0 && |terms| == |query.tokens| <==> Covers(lex, part, query))
  {
    var terms := lex.tokens(lex.normalize(part.text)) * query.tokens;
    assert terms == Shared(lex, part, query);
    if |terms| == |query.tokens| {
      SameSize(terms, query.tokens);
    }
  }

  lemma {:induction false} SameSize(a: set<string>, b: set<string>)
    requires a <= b && |a| == |b|
    ensures a == b
  {
    assert |b - a| == 0;
  }

  /** Scoring a field gives its strength, its worth and its terms. */
  lemma {:induction false} FieldMeaning(lex: Lexicon, part: Part, query: SearchText)
    ensures ScoreField(lex, part.text, part.weight, query, part.spaceless) ==
            Field(Score(Grade(lex, part, query), Worth(lex, part, query)), Matched(lex, part, query))
  {
    if part.text != "" {
      SharedMeaning(lex, part, query);
      InsideMeaning(query.compact, lex.compact(lex.normalize(part.text)));
    }
  }

  // ------------------------------------------------------- all the fields

  lemma {:induction false} TotalNext(lex: Lexicon, parts: seq<Part>, part: Part, query: SearchText)
    ensures Strength(lex, parts + [part], query) == Max(Strength(lex, parts, query), Grade(lex, part, query))
    ensures Points(lex, parts + [part], query) == Points(lex, parts, query) + Worth(lex, part, query)
    ensures Terms(lex, parts + [part], query) == Terms(lex, parts, query) + Matched(lex, part, query)
  {
    assert (parts + [part])[..|parts|] == parts;
  }

  lemma {:induction false} TermsNext(lex: Lexicon, parts: seq<Part>, part: Part, query: SearchText)
    ensures Terms(lex, parts + [part], query) == Terms(lex, parts, query) + Matched(lex, part, query)
  {
    assert (parts + [part])[..|parts|] == parts;
  }

  /** Points count up to 999. */
  function Counted(points: int): int {
    if points > 999 then 999 else points
  }

  /** What has been added up so far is what these fields are worth; tier at least top. */
  ghost predicate Tallied(lex: Lexicon, query: SearchText, parts: seq<Part>, top: int, result: DocumentScore) {
    && result.score.tier == Max(top, Strength(lex, parts, query))
    && result.score.points >= 0 && Counted(result.score.points) == Counted(Points(lex, parts, query))
    && result.concise == Terms(lex, parts, query)
  }

  lemma {:induction false} TallyNext(lex: Lexicon, query: SearchText, parts: seq<Part>, top: int, result: DocumentScore,
                                     part: Part)
    requires Tallied(lex, query, parts, top, result)
    ensures var next := AddField(lex, result, part.text, part.weight, query, part.spaceless);
            Tallied(lex, query, parts + [part], top, next) && next.authoredAnchor == result.authoredAnchor
  {
    FieldMeaning(lex, part, query);
    TotalNext(lex, parts, part, query);
  }

  lemma {:induction false} TallyLast(lex: Lexicon, query: SearchText, parts: seq<Part>, top: int, result: DocumentScore,
                                     part: Part, all: seq<Part>, end: DocumentScore)
    requires Tallied(lex, query, parts, top, result)
    requires all == parts + [part] && end == AddField(lex, result, part.text, part.weight, query, part.spaceless)
    ensures Tallied(lex, query, all, top, end) && end.authoredAnchor == result.authoredAnchor
  {
    TallyNext(lex, query, parts, top, result, part);
  }

  lemma {:induction false} TallyEach(lex: Lexicon, query: SearchText, parts: seq<Part>, top: int, result: DocumentScore,
                                     texts: seq<string>, weight: nat, spaceless: bool)
    requires Tallied(lex, query, parts, top, result)
    ensures var end := AddFields(lex, result, texts, weight, query, spaceless);
            && Tallied(lex, query, parts + Each(texts, weight, spaceless), top, end)
            && end.authoredAnchor == result.authoredAnchor
  {
    if |texts| == 0 {
      assert parts + Each(texts, weight, spaceless) == parts;
    } else {
      var front, last := texts[..|texts| - 1], texts[|texts| - 1];
      TallyEach(lex, query, parts, top, result, front, weight, spaceless);
      TallyLast(lex, query, parts + Each(front, weight, spaceless), top,
                AddFields(lex, result, front, weight, query, spaceless), Part(last, weight, spaceless),
                parts + Each(texts, weight, spaceless), AddFields(lex, result, texts, weight, query, spaceless));
    }
  }

  /** The query asks for this document by its ID. */
  ghost predicate IsNamed(lex: Lexicon, doc: Document, query: SearchText) {
    lex.normalize(doc.id) == query.normalized
  }

  ghost predicate Anchors(lex: Lexicon, name: string, query: SearchText) {
    var text := lex.normalize(name);
    text != "" && text != query.normalized && lex.bounded(query.normalized, text)
  }

  /** The query quotes the document's ID, an alias or an entity, and says more than that. */
  ghost predicate Anchored(lex: Lexicon, doc: Document, query: SearchText) {
    || Anchors(lex, doc.id, query)
    || (exists alias :: alias in doc.aliases && Anchors(lex, alias, query))
    || (exists entity :: entity in doc.entities && Anchors(lex, entity, query))
  }

  ghost function TopTier(lex: Lexicon, doc: Document, query: SearchText): int {
    if IsNamed(lex, doc, query) then 5 else 0
  }

  lemma {:induction false} TallyId(lex: Lexicon, doc: Document, query: SearchText)
    ensures Tallied(lex, query, [Part(doc.id, 14, false)], TopTier(lex, doc, query), IdScore(lex, doc, query))
    ensures IdScore(lex, doc, query).authoredAnchor <==> Anchored(lex, doc, query)
  {
    var part := Part(doc.id, 14, false);
    FieldMeaning(lex, part, query);
    TotalNext(lex, [], part, query);
    assert [] + [part] == [part];
  }

  lemma {:induction false} TallyNames(lex: Lexicon, doc: Document, query: SearchText)
    ensures Tallied(lex, query, NamedParts(doc), TopTier(lex, doc, query), NameScores(lex, doc, query))
    ensures NameScores(lex, doc, query).authoredAnchor <==> Anchored(lex, doc, query)
  {
    var top := TopTier(lex, doc, query);
    var id, two := [Part(doc.id, 14, false)], [Part(doc.id, 14, false), Part(doc.title, 12, true)];
    TallyId(lex, doc, query);
    TallyNext(lex, query, id, top, IdScore(lex, doc, query), Part(doc.title, 12, true));
    assert id + [Part(doc.title, 12, true)] == two;
    var title := AddField(lex, IdScore(lex, doc, query), doc.title, 12, query, true);
    TallyEach(lex, query, two, top, title, doc.aliases, 12, true);
    var aliases := AddFields(lex, title, doc.aliases, 12, query, true);
    TallyEach(lex, query, two + Each(doc.aliases, 12, true), top, aliases, doc.entities, 12, false);
  }

  function NamedParts(doc: Document): seq<Part> {
    [Part(doc.id, 14, false), Part(doc.title, 12, true)] + Each(doc.aliases, 12, true) + Each(doc.entities, 12, false)
  }

  lemma {:induction false} TallyTags(lex: Lexicon, doc: Document, query: SearchText, parts: seq<Part>, top: int,
                                     names: DocumentScore)
    requires Tallied(lex, query, parts, top, names)
    ensures var tags := AddFields(lex, names, doc.tags, 8, query, true);
            var period := AddField(lex, tags, OrEmpty(doc.period), 8, query, false);
            && Tallied(lex, query, parts + Each(doc.tags, 8, true) + [Part(Period(doc), 8, false)], top, period)
            && period.authoredAnchor == names.authoredAnchor
  {
    TallyEach(lex, query, parts, top, names, doc.tags, 8, true);
    var tags := AddFields(lex, names, doc.tags, 8, query, true);
    TallyNext(lex, query, parts + Each(doc.tags, 8, true), top, tags, Part(Period(doc), 8, false));
  }

  lemma {:induction false} TallyRest(lex: Lexicon, doc: Document, query: SearchText, parts: seq<Part>, top: int,
                                     period: DocumentScore)
    requires Tallied(lex, query, parts, top, period)
    ensures var summary := AddField(lex, period, doc.summary, 7, query, false);
            var all := AddFields(lex, summary, Targets(doc), 4, query, false);
            && Tallied(lex, query, parts + [Part(doc.summary, 7, false)] + Each(Related(doc), 4, false), top, all)
            && all.authoredAnchor == period.authoredAnchor
  {
    TallyNext(lex, query, parts, top, period, Part(doc.summary, 7, false));
    var summary := AddField(lex, period, doc.summary, 7, query, false);
    TallyEach(lex, query, parts + [Part(doc.summary, 7, false)], top, summary, Related(doc), 4, false);
    assert Related(doc) == Targets(doc);
  }

  lemma {:induction false} TallyFields(lex: Lexicon, doc: Document, query: SearchText)
    ensures Tallied(lex, query, Parts(doc), TopTier(lex, doc, query), FieldScores(lex, doc, query))
    ensures FieldScores(lex, doc, query).authoredAnchor <==> Anchored(lex, doc, query)
  {
    var top, names := TopTier(lex, doc, query), NameScores(lex, doc, query);
    var tags := AddFields(lex, names, doc.tags, 8, query, true);
    var period := AddField(lex, tags, OrEmpty(doc.period), 8, query, false);
    var dated := NamedParts(doc) + Each(doc.tags, 8, true) + [Part(Period(doc), 8, false)];
    TallyNames(lex, doc, query);
    TallyTags(lex, doc, query, NamedParts(doc), top, names);
    TallyRest(lex, doc, query, dated, top, period);
    RestIsAll(lex, doc, query, period);
    PartsInOrder(doc);
  }

  lemma {:induction false} RestIsAll(lex: Lexicon, doc: Document, query: SearchText, period: DocumentScore)
    requires period == AddField(lex, AddFields(lex, NameScores(lex, doc, query), doc.tags, 8, query, true),
                                OrEmpty(doc.period), 8, query, false)
    ensures AddFields(lex, AddField(lex, period, doc.summary, 7, query, false), Targets(doc), 4, query, false) ==
            FieldScores(lex, doc, query)
  {
  }

  lemma {:induction false} PartsInOrder(doc: Document)
    ensures NamedParts(doc) + Each(doc.tags, 8, true) + [Part(Period(doc), 8, false)] + [Part(doc.summary, 7, false)] +
            Each(Related(doc), 4, false) == Parts(doc)
  {
  }

  // ---------------------------------------------- documents and their sections

  /** Every query term is found in one of these fields. */
  ghost predicate Complete(lex: Lexicon, parts: seq<Part>, query: SearchText) {
    query.tokens != {} && query.tokens <= Terms(lex, parts, query)
  }

  ghost function DocumentLevel(lex: Lexicon, doc: Document, query: SearchText): int {
    if IsNamed(lex, doc, query) then 5
    else
      Max(Strength(lex, Parts(doc), query),
          if Anchored(lex, doc, query) then 3 else if Complete(lex, Parts(doc), query) then 2 else 0)
  }

  ghost function DocumentPoints(lex: Lexicon, doc: Document, query: SearchText): nat {
    Points(lex, Parts(doc), query) + if Complete(lex, Parts(doc), query) then 6 * |query.tokens| else 0
  }

  /** A section's text never counts as much as its heading: a phrase of several terms, or a mention. */
  ghost function BodyGrade(lex: Lexicon, body: Part, query: SearchText): int {
    if |query.tokens| >= 2 && (Is(lex, body, query) || Quotes(lex, body, query)) then 3
    else if Is(lex, body, query) || Shared(lex, body, query) != {} then 1
    else 0
  }

  ghost function SectionLevel(lex: Lexicon, section: Sections.Section, query: SearchText): int {
    Max(Grade(lex, HeadingPart(section), query), BodyGrade(lex, BodyPart(section), query))
  }

  ghost function SectionPoints(lex: Lexicon, section: Sections.Section, query: SearchText): nat {
    Worth(lex, HeadingPart(section), query) + Worth(lex, BodyPart(section), query)
  }

  /** The fields that are short enough to stand for what a result is about. */
  ghost function ConciseParts(doc: Document, section: Option<Sections.Section>): seq<Part> {
    match section
    case None => Parts(doc)
    case Some(s) => Parts(doc) + [HeadingPart(s)]
  }

  ghost function AllParts(doc: Document, section: Option<Sections.Section>): seq<Part> {
    match section
    case None => Parts(doc)
    case Some(s) => Parts(doc) + [HeadingPart(s)] + [BodyPart(s)]
  }

  ghost function Level(lex: Lexicon, doc: Document, section: Option<Sections.Section>, query: SearchText): int {
    match section
    case None => DocumentLevel(lex, doc, query)
    case Some(s) =>
      Max(Max(DocumentLevel(lex, doc, query), SectionLevel(lex, s, query)),
          if Complete(lex, ConciseParts(doc, section), query) then 2 else 0)
  }

  /** A thousand for each level, and up to 999 for the points within it. */
  ghost function Rating(lex: Lexicon, doc: Document, section: Option<Sections.Section>, query: SearchText): int {
    var inSection := match section
      case None => 0
      case Some(s) => SectionPoints(lex, s, query) +
                      if Complete(lex, ConciseParts(doc, section), query) then 4 * |query.tokens| else 0;
    1000 * Level(lex, doc, section, query) + Counted(DocumentPoints(lex, doc, query) + inSection)
  }

  ghost predicate Says(lex: Lexicon, text: string, number: string) {
    number in lex.numbers(lex.normalize(text))
  }

  ghost predicate DocumentSays(lex: Lexicon, doc: Document, number: string) {
    || Says(lex, doc.id, number) || Says(lex, doc.title, number) || Says(lex, doc.summary, number)
    || Says(lex, Period(doc), number)
    || (exists text :: (text in doc.aliases || text in doc.entities || text in doc.tags) && Says(lex, text, number))
    || (exists link :: link in doc.relationships && Says(lex, link.target, number))
  }

  /** Every number of the query that must not be mistaken stands in the document or in the section. */
  ghost predicate NumbersSaid(lex: Lexicon, doc: Document, section: Option<Sections.Section>, query: SearchText) {
    forall number :: number in query.numbers ==>
      || DocumentSays(lex, doc, number)
      || (section.Some? && (Says(lex, section.value.heading, number) || Says(lex, section.value.text, number)))
  }

  /** The section matches, unless it is a mere mention in a document that matches better as a whole. */
  ghost predicate Fits(lex: Lexicon, doc: Document, section: Sections.Section, query: SearchText) {
    && SectionLevel(lex, section, query) >= 1
    && NumbersSaid(lex, doc, Some(section), query)
    && (DocumentLevel(lex, doc, query) >= 3 || Complete(lex, Parts(doc), query) ==>
          SectionLevel(lex, section, query) >= 2)
  }

  /** A query of several terms needs more than one of them, or something better than single terms. */
  ghost predicate Enough(lex: Lexicon, doc: Document, section: Option<Sections.Section>, query: SearchText) {
    || Anchored(lex, doc, query) || Level(lex, doc, section, query) >= 2
    || (|query.tokens| >= 2 ==> exists a, b :: a != b && Found(lex, doc, section, query, a) &&
                                               Found(lex, doc, section, query, b))
  }

  ghost predicate Found(lex: Lexicon, doc: Document, section: Option<Sections.Section>, query: SearchText,
                        token: string) {
    token in query.tokens && token in Terms(lex, AllParts(doc, section), query)
  }

  lemma {:induction false} StrengthBound(lex: Lexicon, parts: seq<Part>, query: SearchText)
    ensures 0 <= Strength(lex, parts, query) <= 4
  {
    if |parts| > 0 {
      StrengthBound(lex, parts[..|parts| - 1], query);
    }
  }

  lemma {:induction false} CountedSum(a: int, b: int, c: int, d: int)
    requires a >= 0 && b >= 0 && c >= 0 && d >= 0 && Counted(a) == Counted(c) && Counted(b) == Counted(d)
    ensures SaturatingAdd(a, b) >= 0 && Counted(SaturatingAdd(a, b)) == Counted(c + d)
  {
  }

  ghost predicate DocumentRated(lex: Lexicon, doc: Document, query: SearchText, d: DocumentScore) {
    && d.score.tier == DocumentLevel(lex, doc, query)
    && d.score.points >= 0 && Counted(d.score.points) == Counted(DocumentPoints(lex, doc, query))
    && d.concise == Terms(lex, Parts(doc), query)
    && (d.authoredAnchor <==> Anchored(lex, doc, query))
  }

  lemma {:induction false} DocumentMeaning(lex: Lexicon, doc: Document, query: SearchText)
    ensures DocumentRated(lex, doc, query, DocumentRelevance(lex, doc, query))
  {
    TallyFields(lex, doc, query);
    StrengthBound(lex, Parts(doc), query);
    AdjustedRated(lex, doc, query, FieldScores(lex, doc, query));
  }

  lemma {:induction false} AdjustedRated(lex: Lexicon, doc: Document, query: SearchText, sum: DocumentScore)
    requires Tallied(lex, query, Parts(doc), TopTier(lex, doc, query), sum)
    requires sum.authoredAnchor <==> Anchored(lex, doc, query)
    requires 0 <= Strength(lex, Parts(doc), query) <= 4
    ensures DocumentRated(lex, doc, query, Adjusted(sum, query))
  {
    var extra := 6 * |query.tokens|;
    CountedSum(sum.score.points, extra, Points(lex, Parts(doc), query), extra);
  }

  ghost predicate SectionRated(lex: Lexicon, section: Sections.Section, query: SearchText, s: SectionScore) {
    && s.score.tier == SectionLevel(lex, section, query)
    && s.score.points >= 0 && Counted(s.score.points) == Counted(SectionPoints(lex, section, query))
    && s.concise == Matched(lex, HeadingPart(section), query)
    && s.all == s.concise + Matched(lex, BodyPart(section), query)
  }

  lemma {:induction false} BodyMeaning(lex: Lexicon, body: Part, query: SearchText)
    requires !body.spaceless
    ensures BodyGrade(lex, body, query) ==
            match Grade(lex, body, query)
            case 4 => if |query.tokens| > 1 then 3 else 1
            case 3 => 3
            case 2 => 1
            case tier => tier
  {
  }

  lemma {:induction false} SectionMeaning(lex: Lexicon, section: Sections.Section, query: SearchText)
    ensures SectionRated(lex, section, query, SectionRelevance(lex, section, query))
  {
    var heading, body := HeadingPart(section), BodyPart(section);
    FieldMeaning(lex, heading, query);
    FieldMeaning(lex, body, query);
    BodyMeaning(lex, body, query);
    var a, b := Worth(lex, heading, query), Worth(lex, body, query);
    CountedSum(a, b, a, b);
  }

  lemma {:induction false} CompleteMeaning(lex: Lexicon, doc: Document, section: Sections.Section, query: SearchText,
                                           d: DocumentScore, s: SectionScore)
    requires DocumentRated(lex, doc, query, d) && SectionRated(lex, section, query, s)
    ensures query.tokens != {} && query.tokens <= d.concise + s.concise <==>
            Complete(lex, ConciseParts(doc, Some(section)), query)
    ensures d.concise + s.all == Terms(lex, AllParts(doc, Some(section)), query)
  {
    TermsNext(lex, Parts(doc), HeadingPart(section), query);
    TermsNext(lex, Parts(doc) + [HeadingPart(section)], BodyPart(section), query);
    assert d.concise + s.all == d.concise + s.concise + Matched(lex, BodyPart(section), query);
  }

  lemma {:induction false} TotalMeaning(a: Score, b: Score, complete: bool, tokens: nat, points: nat, more: nat)
    requires a.points >= 0 && b.points >= 0
    requires Counted(a.points) == Counted(points) && Counted(b.points) == Counted(more)
    ensures var sum := a.Add(b);
            var score := if complete then Score(Max(sum.tier, 2), SaturatingAdd(sum.points, tokens * 4)) else sum;
            && score.tier == Max(Max(a.tier, b.tier), if complete then 2 else sum.tier)
            && score.Total() == 1000 * score.tier + Counted(points + more + if complete then 4 * tokens else 0)
  {
    CountedSum(a.points, b.points, points, more);
    CountedSum(SaturatingAdd(a.points, b.points), 4 * tokens, points + more, 4 * tokens);
  }

  lemma {:induction false} LevelMeaning(lex: Lexicon, doc: Document, section: Sections.Section, query: SearchText)
    ensures var least := Max(DocumentLevel(lex, doc, query), SectionLevel(lex, section, query));
            && least >= 0
            && Level(lex, doc, Some(section), query) ==
               if Complete(lex, ConciseParts(doc, Some(section)), query) then Max(least, 2) else least
  {
    StrengthBound(lex, Parts(doc), query);
  }

  lemma {:induction false} CombinedMeaning(lex: Lexicon, doc: Document, section: Sections.Section, query: SearchText,
                                           d: DocumentScore, s: SectionScore)
    requires DocumentRated(lex, doc, query, d) && SectionRated(lex, section, query, s)
    ensures var score := CombinedRelevance(d, s, query);
            && score.tier == Level(lex, doc, Some(section), query)
            && score.Total() == Rating(lex, doc, Some(section), query)
  {
    CompleteMeaning(lex, doc, section, query, d, s);
    LevelMeaning(lex, doc, section, query);
    TotalMeaning(d.score, s.score, Complete(lex, ConciseParts(doc, Some(section)), query), |query.tokens|,
                 DocumentPoints(lex, doc, query), SectionPoints(lex, section, query));
  }

  // --------------------------------------------------- which results are shown

  lemma {:induction false} DocumentNumbersMeaning(lex: Lexicon, doc: Document, number: string)
    ensures number in DocumentNumbers(lex, doc) <==> DocumentSays(lex, doc, number)
  {
    var four := [doc.id, doc.title, doc.summary, OrEmpty(doc.period)];
    var texts := four + doc.aliases + doc.entities + doc.tags + Targets(doc);
    assert four[0] == doc.id && four[1] == doc.title && four[2] == doc.summary && four[3] == Period(doc);
    assert forall text :: text in texts <==> text in four || text in doc.aliases || text in doc.entities ||
                                             text in doc.tags || text in Targets(doc);
    TargetsMeaning(doc);
  }

  lemma {:induction false} TargetsMeaning(doc: Document)
    ensures forall text :: text in Targets(doc) <==> exists link :: link in doc.relationships && link.target == text
  {
    forall link | link in doc.relationships
      ensures link.target in Targets(doc)
    {
      var i :| 0 <= i < |doc.relationships| && doc.relationships[i] == link;
      assert Targets(doc)[i] == link.target;
    }
  }

  lemma {:induction false} NumbersMeaning(lex: Lexicon, doc: Document, section: Sections.Section, query: SearchText)
    ensures query.numbers <= DocumentNumbers(lex, doc) + SectionNumbers(lex, section) <==>
            NumbersSaid(lex, doc, Some(section), query)
    ensures query.numbers <= DocumentNumbers(lex, doc) <==> NumbersSaid(lex, doc, None, query)
  {
    forall number
      ensures number in DocumentNumbers(lex, doc) <==> DocumentSays(lex, doc, number)
    {
      DocumentNumbersMeaning(lex, doc, number);
    }
  }

  lemma {:induction false} TwoMembers(s: set<string>)
    ensures |s| >= 2 <==> exists a, b :: a != b && a in s && b in s
  {
    if |s| >= 2 {
      var a :| a in s;
      assert |s - {a}| >= 1;
      var b :| b in s - {a};
      assert a != b && a in s && b in s;
    }
    if a, b :| a != b && a in s && b in s {
      assert {a, b} <= s && |{a, b}| == 2;
      assert s == {a, b} + (s - {a, b});
    }
  }

  lemma {:induction false} EnoughMeaning(lex: Lexicon, doc: Document, section: Option<Sections.Section>,
                                         query: SearchText, score: Score, d: DocumentScore, s: SectionScore)
    requires score.tier == Level(lex, doc, section, query) && (d.authoredAnchor <==> Anchored(lex, doc, query))
    requires d.concise + s.all == Terms(lex, AllParts(doc, section), query)
    ensures HasMinimumCoverage(score, d, s, query) <==> Enough(lex, doc, section, query)
  {
    var both := query.tokens * (d.concise + s.all);
    TwoMembers(both);
    assert forall token :: token in both <==> Found(lex, doc, section, query, token);
  }

  ghost predicate Shows(lex: Lexicon, doc: Document, section: Sections.Section, query: SearchText) {
    Fits(lex, doc, section, query) && Enough(lex, doc, Some(section), query)
  }

  lemma {:induction false} MatchesMeaning(lex: Lexicon, doc: Document, section: Sections.Section, query: SearchText)
    ensures SectionMatches(lex, ScoredDocument(lex, doc, query), section, query) <==> Fits(lex, doc, section, query)
  {
    DocumentMeaning(lex, doc, query);
    SectionMeaning(lex, section, query);
    NumbersMeaning(lex, doc, section, query);
  }

  lemma {:induction false} ResultMeaning(lex: Lexicon, doc: Document, section: Sections.Section, query: SearchText)
    ensures SectionResult(lex, ScoredDocument(lex, doc, query), section, query) ==
            if Shows(lex, doc, section, query)
            then Some(HitOf(lex, doc, section, Rating(lex, doc, Some(section), query))) else None
  {
    var d, s := DocumentRelevance(lex, doc, query), SectionRelevance(lex, section, query);
    DocumentMeaning(lex, doc, query);
    SectionMeaning(lex, section, query);
    MatchesMeaning(lex, doc, section, query);
    CombinedMeaning(lex, doc, section, query, d, s);
    CompleteMeaning(lex, doc, section, query, d, s);
    EnoughMeaning(lex, doc, Some(section), query, CombinedRelevance(d, s, query), d, s);
  }

  /** The best section that is shown: the highest rating, then the smallest heading path. */
  ghost predicate BestShown(lex: Lexicon, doc: Document, query: SearchText, sections: seq<Sections.Section>,
                            best: Option<Item<Hit>>) {
    match best
    case None => forall section :: section in sections ==> !Shows(lex, doc, section, query)
    case Some(hit) =>
      && hit.payload.section in sections && Shows(lex, doc, hit.payload.section, query)
      && hit == HitOf(lex, doc, hit.payload.section, Rating(lex, doc, Some(hit.payload.section), query))
      && forall section :: section in sections && Shows(lex, doc, section, query) ==>
           NoBetter(Rating(lex, doc, Some(section), query), section.headingPath, hit.key)
  }

  ghost predicate NoBetter(rating: int, path: seq<string>, best: Key) {
    rating < best.score || (rating == best.score && !PathPrecedes(path, best.path))
  }

  lemma {:induction false} NotBefore(lex: Lexicon, doc: Document, section: Sections.Section, rating: int,
                                     best: Item<Hit>)
    requires best.key.time == lex.timestamp(doc.asOf) && best.key.id == doc.id
    ensures Before(HitOf(lex, doc, section, rating), best) <==> !NoBetter(rating, section.headingPath, best.key)
  {
    var hit := HitOf(lex, doc, section, rating);
    StringOrdersTotal();
    KeyMeaning(hit.key, best.key);
    StringLessMeaning(doc.id, doc.id);
  }

  /** The first of the best results that pass. */
  ghost predicate BestOf(passes: Sections.Section -> bool, result: Sections.Section -> Item<Hit>,
                         sections: seq<Sections.Section>, best: Option<Item<Hit>>) {
    match best
    case None => forall section :: section in sections ==> !passes(section)
    case Some(hit) =>
      && (exists section :: section in sections && passes(section) && hit == result(section))
      && forall section :: section in sections && passes(section) ==> !Before(result(section), hit)
  }

  lemma {:induction false} BestNext(passes: Sections.Section -> bool, result: Sections.Section -> Item<Hit>,
                                    front: seq<Sections.Section>, last: Sections.Section, best: Option<Item<Hit>>)
    requires BestOf(passes, result, front, best)
    ensures BestOf(passes, result, front + [last], Pick(best, if passes(last) then Some(result(last)) else None))
  {
    KeyOrderTotal();
    assert forall section :: section in front + [last] <==> section in front || section == last;
  }

  lemma {:induction false} BestMeaning(lex: Lexicon, scored: Scored, query: SearchText,
                                       passes: Sections.Section -> bool, result: Sections.Section -> Item<Hit>,
                                       sections: seq<Sections.Section>)
    requires forall section :: SectionResult(lex, scored, section, query) ==
                               if passes(section) then Some(result(section)) else None
    ensures BestOf(passes, result, sections, BestSection(lex, scored, sections, query))
  {
    if |sections| > 0 {
      var front, last := sections[..|sections| - 1], sections[|sections| - 1];
      BestMeaning(lex, scored, query, passes, result, front);
      BestNext(passes, result, front, last, BestSection(lex, scored, front, query));
      assert sections == front + [last];
    }
  }

  lemma {:induction false} AnyLast(fits: Sections.Section -> bool, front: seq<Sections.Section>, last: Sections.Section)
    ensures AnyFits(fits, front + [last]) <==> AnyFits(fits, front) || fits(last)
  {
    if section :| section in front && fits(section) {
      assert section in front + [last];
    }
    assert last in front + [last];
  }

  lemma {:induction false} AnyNext(lex: Lexicon, scored: Scored, query: SearchText, front: seq<Sections.Section>,
                                   last: Sections.Section)
    ensures AnyMatches(lex, scored, front + [last], query) <==>
            AnyMatches(lex, scored, front, query) || SectionMatches(lex, scored, last, query)
  {
    assert (front + [last])[..|front|] == front;
  }

  ghost predicate AnyFits(fits: Sections.Section -> bool, sections: seq<Sections.Section>) {
    exists section :: section in sections && fits(section)
  }

  lemma {:induction false} AnyMeaning(lex: Lexicon, scored: Scored, query: SearchText,
                                      fits: Sections.Section -> bool, sections: seq<Sections.Section>)
    requires forall section :: SectionMatches(lex, scored, section, query) == fits(section)
    ensures AnyMatches(lex, scored, sections, query) <==> AnyFits(fits, sections)
  {
    if |sections| > 0 {
      var front, last := sections[..|sections| - 1], sections[|sections| - 1];
      AnyMeaning(lex, scored, query, fits, front);
      AnyNext(lex, scored, query, front, last);
      AnyLast(fits, front, last);
      assert sections == front + [last];
    }
  }

  ghost function Passes(lex: Lexicon, doc: Document, query: SearchText): Sections.Section -> bool {
    (section: Sections.Section) => Shows(lex, doc, section, query)
  }

  ghost function Fitting(lex: Lexicon, doc: Document, query: SearchText): Sections.Section -> bool {
    (section: Sections.Section) => Fits(lex, doc, section, query)
  }

  ghost function Rated(lex: Lexicon, doc: Document, query: SearchText): Sections.Section -> Item<Hit> {
    (section: Sections.Section) => HitOf(lex, doc, section, Rating(lex, doc, Some(section), query))
  }

  lemma {:induction false} BestIsShown(lex: Lexicon, doc: Document, query: SearchText, sections: seq<Sections.Section>,
                                       best: Option<Item<Hit>>)
    requires BestOf(Passes(lex, doc, query), Rated(lex, doc, query), sections, best)
    ensures BestShown(lex, doc, query, sections, best)
  {
    if best.Some? {
      forall section | section in sections && Passes(lex, doc, query)(section)
        ensures NoBetter(Rating(lex, doc, Some(section), query), section.headingPath, best.value.key)
      {
        assert !Before(Rated(lex, doc, query)(section), best.value);
        NotBefore(lex, doc, section, Rating(lex, doc, Some(section), query), best.value);
      }
    }
  }

  lemma {:induction false} SectionsMeaning(lex: Lexicon, doc: Document, query: SearchText,
                                           sections: seq<Sections.Section>)
    ensures BestShown(lex, doc, query, sections, BestSection(lex, ScoredDocument(lex, doc, query), sections, query))
    ensures AnyMatches(lex, ScoredDocument(lex, doc, query), sections, query) <==>
            exists section :: section in sections && Fits(lex, doc, section, query)
  {
    var scored := ScoredDocument(lex, doc, query);
    forall section
      ensures SectionMatches(lex, scored, section, query) == Fitting(lex, doc, query)(section)
      ensures SectionResult(lex, scored, section, query) ==
              if Passes(lex, doc, query)(section) then Some(Rated(lex, doc, query)(section)) else None
    {
      MatchesMeaning(lex, doc, section, query);
      ResultMeaning(lex, doc, section, query);
    }
    AnyMeaning(lex, scored, query, Fitting(lex, doc, query), sections);
    BestMeaning(lex, scored, query, Passes(lex, doc, query), Rated(lex, doc, query), sections);
    BestIsShown(lex, doc, query, sections, BestSection(lex, scored, sections, query));
  }

  /** The document as a whole is shown, for want of a section. */
  ghost predicate ShowsWhole(lex: Lexicon, doc: Document, query: SearchText) {
    && DocumentLevel(lex, doc, query) >= 1 && NumbersSaid(lex, doc, None, query) && Enough(lex, doc, None, query)
  }

  lemma {:induction false} WholeEnough(lex: Lexicon, doc: Document, query: SearchText, d: DocumentScore)
    requires DocumentRated(lex, doc, query, d)
    ensures HasMinimumCoverage(d.score, d, NO_SECTION_SCORE, query) <==> Enough(lex, doc, None, query)
    ensures d.score.Total() == Rating(lex, doc, None, query)
  {
    assert d.concise + NO_SECTION_SCORE.all == d.concise;
    EnoughMeaning(lex, doc, None, query, d.score, d, NO_SECTION_SCORE);
  }

  lemma {:induction false} WholeMeaning(lex: Lexicon, doc: Document, query: SearchText)
    ensures WholeDocumentResult(lex, ScoredDocument(lex, doc, query), query) ==
            if ShowsWhole(lex, doc, query)
            then Some(HitOf(lex, doc, Sections.Section("", [], ""), Rating(lex, doc, None, query))) else None
  {
    DocumentMeaning(lex, doc, query);
    NumbersMeaning(lex, doc, NO_SECTION, query);
    WholeEnough(lex, doc, query, DocumentRelevance(lex, doc, query));
  }

  /** What a lexical search shows of a document. */
  ghost predicate ShownOf(lex: Lexicon, doc: Document, query: SearchText, shown: Option<Item<Hit>>) {
    var sections := Sections.SectionsOf(doc.body);
    if exists section :: section in sections && Fits(lex, doc, section, query)
    then BestShown(lex, doc, query, sections, shown)
    else shown == if ShowsWhole(lex, doc, query)
                  then Some(HitOf(lex, doc, Sections.Section("", [], ""), Rating(lex, doc, None, query))) else None
  }

  /** The best fitting section of a valid document, or the document itself when no section fits. */
  lemma {:induction false} SearchDocumentMeaning(lex: Lexicon, doc: Document, query: SearchText)
    requires IsValid(lex.isTimestamp, doc)
    ensures ShownOf(lex, doc, query, SearchDocument(lex, doc, query))
  {
    var sections := Sections.SectionsOf(doc.body);
    SectionsMeaning(lex, doc, query, sections);
    WholeMeaning(lex, doc, query);
  }

  // -------------------------------------------------------------- exact fields

  lemma {:induction false} StrongestIs(lex: Lexicon, parts: seq<Part>, query: SearchText)
    ensures Strength(lex, parts, query) >= 4 <==> exists part :: part in parts && Is(lex, part, query)
  {
    if |parts| > 0 {
      var front, last := parts[..|parts| - 1], parts[|parts| - 1];
      StrongestIs(lex, front, query);
      assert parts == front + [last];
    }
  }

  lemma {:induction false} ExactDocument(lex: Lexicon, doc: Document, query: SearchText)
    ensures Rating(lex, doc, None, query) >= 4000 <==> DocumentIs(lex, doc, query)
    ensures DocumentLevel(lex, doc, query) >= 4 <==> DocumentIs(lex, doc, query)
  {
    StrongestIs(lex, Parts(doc), query);
  }

  lemma {:induction false} ExactSection(lex: Lexicon, doc: Document, section: Sections.Section, query: SearchText)
    ensures Rating(lex, doc, Some(section), query) >= 4000 <==>
            DocumentIs(lex, doc, query) || Is(lex, HeadingPart(section), query)
  {
    ExactDocument(lex, doc, query);
    LevelMeaning(lex, doc, section, query);
    SectionExact(lex, section, query);
    RatingBand(lex, doc, section, query);
  }

  lemma {:induction false} SectionExact(lex: Lexicon, section: Sections.Section, query: SearchText)
    ensures SectionLevel(lex, section, query) >= 4 <==> Is(lex, HeadingPart(section), query)
  {
  }

  lemma {:induction false} RatingBand(lex: Lexicon, doc: Document, section: Sections.Section, query: SearchText)
    ensures var level, rating := Level(lex, doc, Some(section), query), Rating(lex, doc, Some(section), query);
            1000 * level <= rating < 1000 * level + 1000
  {
  }

  /** The query is the document's ID or another of its fields. */
  ghost predicate DocumentIs(lex: Lexicon, doc: Document, query: SearchText) {
    IsNamed(lex, doc, query) || exists part :: part in Parts(doc) && Is(lex, part, query)
  }

  lemma {:induction false} NoHeading(lex: Lexicon, query: SearchText)
    ensures !Is(lex, HeadingPart(Sections.Section("", [], "")), query)
  {
  }

  lemma {:induction false} ExactShown(lex: Lexicon, doc: Document, query: SearchText, shown: Item<Hit>)
    requires ShownOf(lex, doc, query, Some(shown))
    ensures shown.key.score >= 4000 <==>
            DocumentIs(lex, doc, query) || Is(lex, HeadingPart(shown.payload.section), query)
  {
    NoHeading(lex, query);
    ExactDocument(lex, doc, query);
    ExactSection(lex, doc, shown.payload.section, query);
  }

  /**
   A result scores 4000 or more exactly if the query is the document's ID, one of
   its fields, or the heading of the section that is shown.
   */
  lemma {:induction false} ExactScore(lex: Lexicon, doc: Document, query: SearchText)
    requires IsValid(lex.isTimestamp, doc) && SearchDocument(lex, doc, query).Some?
    ensures var hit := SearchDocument(lex, doc, query).value;
            hit.key.score >= 4000 <==>
              || lex.normalize(doc.id) == query.normalized
              || (exists part :: part in Parts(doc) && Is(lex, part, query))
              || Is(lex, HeadingPart(hit.payload.section), query)
  {
    SearchDocumentMeaning(lex, doc, query);
    ExactShown(lex, doc, query, SearchDocument(lex, doc, query).value);
  }
}
