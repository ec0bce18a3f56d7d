/**
 Lexical relevance of a document to a query (src/knowledge/search.rs) and the best
 result of one document (src/knowledge/query.rs:251-317).
 */
module Relevance {
  import opened Ordering
  import opened Ranking
  import opened Records
  import opened Wrappers
  import Sections

  const I32_MAX: int := 0x7FFF_FFFF

  /** Unicode-dependent text functions, of which nothing is assumed. */
  datatype Lexicon = Lexicon(
    normalize: string -> string, tokens: string -> set<string>, numbers: string -> set<string>,
    compact: string -> string, compactEligible: string -> bool, bounded: (string, string) -> bool,
    timestamp: string -> int, isTimestamp: string -> bool)

  datatype SearchText = SearchText(
    normalized: string, compact: string, compactEligible: bool, numbers: set<string>, tokens: set<string>)

  function NewText(lex: Lexicon, value: string): SearchText {
    var normalized := lex.normalize(value);
    SearchText(normalized, lex.compact(normalized), lex.compactEligible(normalized),
               lex.numbers(normalized), lex.tokens(normalized))
  }

  /** A tier band plus points inside the band. */
  datatype Score = Score(tier: int, points: int) {
    function Add(other: Score): Score {
      Score(Max(tier, other.tier), SaturatingAdd(points, other.points))
    }

    predicate IsMatch() {
      tier > 0
    }

    function Total(): int {
      tier * 1000 + if points < 999 then points else 999
    }
  }

  function Max(a: int, b: int): int {
    if a < b then b else a
  }

  function SaturatingAdd(a: int, b: int): int {
    if a + b > I32_MAX then I32_MAX else if a + b < -I32_MAX - 1 then -I32_MAX - 1 else a + b
  }

  datatype Field = Field(score: Score, terms: set<string>)

  datatype DocumentScore = DocumentScore(score: Score, concise: set<string>, authoredAnchor: bool)

  datatype SectionScore = SectionScore(score: Score, concise: set<string>, all: set<string>)

  const NO_SECTION: Sections.Section := Sections.Section("", [], "")

  const NO_SECTION_SCORE: SectionScore := SectionScore(Score(0, 0), {}, {})

  predicate PartAt(value: string, part: string, i: nat) {
    i + |part| <= |value| && value[i..i + |part|] == part
  }

  predicate Contains(value: string, part: string) {
    exists i | 0 <= i <= |value| :: PartAt(value, part, i)
  }

  function ScoreField(lex: Lexicon, text: string, weight: int, query: SearchText, allowCompact: bool): Field {
    if text == "" then Field(Score(0, 0), {})
    else
      var value := NewText(lex, text);
      var compactMatch := allowCompact && query.compactEligible && |query.compact| >= 3;
      var exact := value.normalized == query.normalized || (compactMatch && value.compact == query.compact);
      var phrase := (|query.tokens| > 1 && lex.bounded(value.normalized, query.normalized)) ||
                    (compactMatch && Contains(value.compact, query.compact));
      var terms := value.tokens * query.tokens;
      var matched := |terms|;
      var tier :=
        if exact then 4
        else if phrase then 3
        else if |query.tokens| > 0 && matched == |query.tokens| then 2
        else if matched > 0 then 1
        else 0;
      var shown := if compactMatch && Contains(value.compact, query.compact) && terms == {}
                   then query.tokens else terms;
      Field(Score(tier, if tier > 0 then Max(matched, 1) * weight else 0), shown)
  }

  function AddField(lex: Lexicon, result: DocumentScore, text: string, weight: int, query: SearchText,
                    allowCompact: bool): DocumentScore {
    var field := ScoreField(lex, text, weight, query, allowCompact);
    result.(score := result.score.Add(field.score), concise := result.concise + field.terms)
  }

  function AddFields(lex: Lexicon, result: DocumentScore, texts: seq<string>, weight: int, query: SearchText,
                     allowCompact: bool): DocumentScore {
    if |texts| == 0 then result
    else AddField(lex, AddFields(lex, result, texts[..|texts| - 1], weight, query, allowCompact), texts[|texts| - 1],
                  weight, query, allowCompact)
  }

  predicate IsAnchor(lex: Lexicon, text: string, query: SearchText) {
    var value := lex.normalize(text);
    value != "" && value != query.normalized && lex.bounded(query.normalized, value)
  }

  function Targets(doc: Document): seq<string> {
    seq(|doc.relationships|, i requires 0 <= i < |doc.relationships| => doc.relationships[i].target)
  }

  predicate NamesDocument(lex: Lexicon, doc: Document, query: SearchText) {
    lex.normalize(doc.id) == query.normalized
  }

  /** The ID field and the authored anchors, before the other fields are added. */
  function IdScore(lex: Lexicon, doc: Document, query: SearchText): DocumentScore {
    var id := ScoreField(lex, doc.id, 14, query, false);
    var anchor :=
      IsAnchor(lex, doc.id, query) ||
      (exists value | value in doc.aliases :: IsAnchor(lex, value, query)) ||
      (exists value | value in doc.entities :: IsAnchor(lex, value, query));
    var tier := if NamesDocument(lex, doc, query) then 5 else id.score.tier;
    DocumentScore(Score(tier, id.score.points), id.terms, anchor)
  }

  function NameScores(lex: Lexicon, doc: Document, query: SearchText): DocumentScore {
    var title := AddField(lex, IdScore(lex, doc, query), doc.title, 12, query, true);
    var aliases := AddFields(lex, title, doc.aliases, 12, query, true);
    AddFields(lex, aliases, doc.entities, 12, query, false)
  }

  function FieldScores(lex: Lexicon, doc: Document, query: SearchText): DocumentScore {
    var tags := AddFields(lex, NameScores(lex, doc, query), doc.tags, 8, query, true);
    var period := AddField(lex, tags, OrEmpty(doc.period), 8, query, false);
    var summary := AddField(lex, period, doc.summary, 7, query, false);
    AddFields(lex, summary, Targets(doc), 4, query, false)
  }

  /** The last two adjustments: an authored anchor, then complete concise coverage. */
  function Adjusted(result: DocumentScore, query: SearchText): DocumentScore {
    var anchored := if result.authoredAnchor
      then result.(score := result.score.(tier := Max(result.score.tier, 3)))
      else result;
    if query.tokens != {} && query.tokens <= anchored.concise
    then anchored.(score := Score(Max(anchored.score.tier, 2),
                                  SaturatingAdd(anchored.score.points, |query.tokens| * 6)))
    else anchored
  }

  function DocumentRelevance(lex: Lexicon, doc: Document, query: SearchText): DocumentScore {
    Adjusted(FieldScores(lex, doc, query), query)
  }

  function SectionRelevance(lex: Lexicon, section: Sections.Section, query: SearchText): SectionScore {
    var heading := ScoreField(lex, section.heading, 8, query, true);
    var body := ScoreField(lex, section.text, 4, query, false);
    var tier :=
      if body.score.tier == 4 then (if |query.tokens| > 1 then 3 else 1)
      else if body.score.tier == 2 then 1
      else body.score.tier;
    SectionScore(heading.score.Add(body.score.(tier := tier)), heading.terms, heading.terms + body.terms)
  }

  function CombinedRelevance(document: DocumentScore, section: SectionScore, query: SearchText): Score {
    var sum := document.score.Add(section.score);
    if query.tokens != {} && query.tokens <= document.concise + section.concise
    then Score(Max(sum.tier, 2), SaturatingAdd(sum.points, |query.tokens| * 4))
    else sum
  }

  predicate HasMinimumCoverage(score: Score, document: DocumentScore, section: SectionScore, query: SearchText) {
    || |query.tokens| <= 1
    || document.authoredAnchor
    || score.tier >= 2
    || |query.tokens * (document.concise + section.all)| >= 2
  }

  function DocumentNumbers(lex: Lexicon, doc: Document): set<string> {
    var texts := [doc.id, doc.title, doc.summary, OrEmpty(doc.period)] + doc.aliases + doc.entities + doc.tags +
                 Targets(doc);
    set text, number | text in texts && number in lex.numbers(lex.normalize(text)) :: number
  }

  function SectionNumbers(lex: Lexicon, section: Sections.Section): set<string> {
    lex.numbers(lex.normalize(section.heading)) + lex.numbers(lex.normalize(section.text))
  }

  // ------------------------------------------------ the best of one document

  datatype Hit = Hit(document: Document, section: Sections.Section)

  function HitOf(lex: Lexicon, doc: Document, section: Sections.Section, score: int): Item<Hit> {
    Item(Key(score, lex.timestamp(doc.asOf), doc.id, section.headingPath), Hit(doc, section))
  }

  /** What `search_document` works out once for the whole document. */
  datatype Scored = Scored(doc: Document, score: DocumentScore, numbers: set<string>)

  function ScoredDocument(lex: Lexicon, doc: Document, query: SearchText): Scored {
    Scored(doc, DocumentRelevance(lex, doc, query), DocumentNumbers(lex, doc))
  }

  predicate SectionMatches(lex: Lexicon, scored: Scored, section: Sections.Section, query: SearchText) {
    var score := SectionRelevance(lex, section, query).score;
    var numbersMatch := query.numbers <= scored.numbers + SectionNumbers(lex, section);
    var complete := query.tokens != {} && query.tokens <= scored.score.concise;
    var weak := (scored.score.score.tier >= 3 || complete) && score.tier == 1;
    score.IsMatch() && numbersMatch && !weak
  }

  function SectionResult(lex: Lexicon, scored: Scored, section: Sections.Section,
                         query: SearchText): Option<Item<Hit>> {
    var s := SectionRelevance(lex, section, query);
    var score := CombinedRelevance(scored.score, s, query);
    if SectionMatches(lex, scored, section, query) && HasMinimumCoverage(score, scored.score, s, query)
    then Some(HitOf(lex, scored.doc, section, score.Total()))
    else None
  }

  function BestSection(lex: Lexicon, scored: Scored, sections: seq<Sections.Section>,
                       query: SearchText): Option<Item<Hit>> {
    if |sections| == 0 then None
    else Pick(BestSection(lex, scored, sections[..|sections| - 1], query),
              SectionResult(lex, scored, sections[|sections| - 1], query))
  }

  predicate AnyMatches(lex: Lexicon, scored: Scored, sections: seq<Sections.Section>, query: SearchText) {
    |sections| > 0 &&
    (AnyMatches(lex, scored, sections[..|sections| - 1], query) ||
     SectionMatches(lex, scored, sections[|sections| - 1], query))
  }

  function WholeDocumentResult(lex: Lexicon, scored: Scored, query: SearchText): Option<Item<Hit>> {
    var d := scored.score;
    if d.score.IsMatch() && query.numbers <= scored.numbers && HasMinimumCoverage(d.score, d, NO_SECTION_SCORE, query)
    then Some(HitOf(lex, scored.doc, NO_SECTION, d.score.Total()))
    else None
  }

  function BestResult(lex: Lexicon, scored: Scored, sections: seq<Sections.Section>,
                      query: SearchText): Option<Item<Hit>> {
    if AnyMatches(lex, scored, sections, query)
    then BestSection(lex, scored, sections, query)
    else WholeDocumentResult(lex, scored, query)
  }

  function SearchDocument(lex: Lexicon, doc: Document, query: SearchText): Option<Item<Hit>> {
    if !IsValid(lex.isTimestamp, doc) then None
    else BestResult(lex, ScoredDocument(lex, doc, query), Sections.SectionsOf(doc.body), query)
  }

  // ----------------------------------------------------------- the algorithm

  method ScoreDocument(lex: Lexicon, doc: Document, query: SearchText) returns (result: DocumentScore)
    ensures result == DocumentRelevance(lex, doc, query)
  {
    result := IdScore(lex, doc, query);
    result := AddField(lex, result, doc.title, 12, query, true);
    result := AddEach(lex, result, doc.aliases, 12, query, true);
    result := AddEach(lex, result, doc.entities, 12, query, false);
    result := AddEach(lex, result, doc.tags, 8, query, true);
    result := AddField(lex, result, OrEmpty(doc.period), 8, query, false);
    result := AddField(lex, result, doc.summary, 7, query, false);
    result := AddEach(lex, result, Targets(doc), 4, query, false);
    if result.authoredAnchor {
      result := result.(score := result.score.(tier := Max(result.score.tier, 3)));
    }
    if query.tokens != {} && query.tokens <= result.concise {
      var points := SaturatingAdd(result.score.points, |query.tokens| * 6);
      result := result.(score := Score(Max(result.score.tier, 2), points));
    }
  }

  method AddEach(lex: Lexicon, start: DocumentScore, texts: seq<string>, weight: int, query: SearchText,
                 allowCompact: bool)
    returns (result: DocumentScore)
    ensures result == AddFields(lex, start, texts, weight, query, allowCompact)
  {
    result := start;
    for i := 0 to |texts|
      invariant result == AddFields(lex, start, texts[..i], weight, query, allowCompact)
    {
      assert texts[..i + 1][..i] == texts[..i];
      result := AddField(lex, result, texts[i], weight, query, allowCompact);
    }
    assert texts[..|texts|] == texts;
  }

  method FindBestResult(lex: Lexicon, doc: Document, query: SearchText) returns (best: Option<Item<Hit>>)
    ensures best == SearchDocument(lex, doc, query)
  {
    if !IsValid(lex.isTimestamp, doc) {
      return None;
    }
    var score := ScoreDocument(lex, doc, query);
    var sections := Sections.SplitSections(doc.body);
    best := BestOf(lex, Scored(doc, score, DocumentNumbers(lex, doc)), sections, query);
  }

  method ScoreSection(lex: Lexicon, scored: Scored, section: Sections.Section, query: SearchText)
    returns (matched: bool, result: Option<Item<Hit>>)
    ensures matched == SectionMatches(lex, scored, section, query)
    ensures result == SectionResult(lex, scored, section, query)
  {
    var score := SectionRelevance(lex, section, query);
    var numbersMatch := query.numbers <= scored.numbers + SectionNumbers(lex, section);
    var complete := query.tokens != {} && query.tokens <= scored.score.concise;
    var weak := (scored.score.score.tier >= 3 || complete) && score.score.tier == 1;
    matched := score.score.IsMatch() && numbersMatch && !weak;
    result := None;
    if matched {
      var relevance := CombinedRelevance(scored.score, score, query);
      if HasMinimumCoverage(relevance, scored.score, score, query) {
        result := Some(HitOf(lex, scored.doc, section, relevance.Total()));
      }
    }
  }

  method BestOf(lex: Lexicon, scored: Scored, sections: seq<Sections.Section>, query: SearchText)
    returns (best: Option<Item<Hit>>)
    ensures best == BestResult(lex, scored, sections, query)
  {
    best := None;
    var anyMatched := false;
    for i := 0 to |sections|
      invariant best == BestSection(lex, scored, sections[..i], query)
      invariant anyMatched == AnyMatches(lex, scored, sections[..i], query)
    {
      assert sections[..i + 1][..i] == sections[..i];
      var matched, result := ScoreSection(lex, scored, sections[i], query);
      anyMatched := anyMatched || matched;
      if result.Some? && (best.None? || Before(result.value, best.value)) {
        best := result;
      }
    }
    assert sections[..|sections|] == sections;
    var d := scored.score;
    if !anyMatched {
      if d.score.IsMatch() && query.numbers <= scored.numbers &&
         HasMinimumCoverage(d.score, d, NO_SECTION_SCORE, query) {
        best := Some(HitOf(lex, scored.doc, NO_SECTION, d.score.Total()));
      } else {
        NoMatchNoBest(lex, scored, sections, query);
      }
    }
  }

  lemma {:induction false} NoMatchNoBest(lex: Lexicon, scored: Scored, sections: seq<Sections.Section>,
                                         query: SearchText)
    requires !AnyMatches(lex, scored, sections, query)
    ensures BestSection(lex, scored, sections, query) == None
  {
    if |sections| > 0 {
      NoMatchNoBest(lex, scored, sections[..|sections| - 1], query);
    }
  }

  // -------------------------------------------------------------- tier bands

  /** Points never leave a tier's band, so bands never overlap. */
  lemma {:induction false} BandsDisjoint(a: Score, b: Score)
    requires a.points >= 0 && b.points >= 0
    ensures a.tier * 1000 <= a.Total() <= a.tier * 1000 + 999
    ensures a.tier < b.tier ==> a.Total() < b.Total()
  {
  }

  ghost predicate Within(score: Score, top: int) {
    0 <= score.tier <= top && score.points >= 0
  }

  lemma {:induction false} FieldWithin(lex: Lexicon, text: string, weight: nat, query: SearchText, allowCompact: bool)
    ensures Within(ScoreField(lex, text, weight, query, allowCompact).score, 4)
  {
    var terms := NewText(lex, text).tokens * query.tokens;
    assert Max(|terms|, 1) * weight >= 0;
  }

  lemma {:induction false} FieldsWithin(lex: Lexicon, start: DocumentScore, texts: seq<string>, weight: nat,
                                        query: SearchText, allowCompact: bool, top: int)
    requires Within(start.score, top) && top >= 4
    ensures var end := AddFields(lex, start, texts, weight, query, allowCompact);
            Within(end.score, top) && start.score.tier <= end.score.tier
  {
    if |texts| > 0 {
      FieldsWithin(lex, start, texts[..|texts| - 1], weight, query, allowCompact, top);
      FieldWithin(lex, texts[|texts| - 1], weight, query, allowCompact);
    }
  }

  lemma {:induction false} OneFieldWithin(lex: Lexicon, start: DocumentScore, text: string, weight: nat,
                                          query: SearchText, allowCompact: bool, top: int)
    requires Within(start.score, top) && top >= 4
    ensures var end := AddField(lex, start, text, weight, query, allowCompact);
            Within(end.score, top) && start.score.tier <= end.score.tier
  {
    FieldWithin(lex, text, weight, query, allowCompact);
  }

  lemma {:induction false} NameScoresWithin(lex: Lexicon, doc: Document, query: SearchText, top: int)
    requires top == if NamesDocument(lex, doc, query) then 5 else 4
    ensures Within(NameScores(lex, doc, query).score, top)
    ensures NamesDocument(lex, doc, query) ==> NameScores(lex, doc, query).score.tier == 5
  {
    FieldWithin(lex, doc.id, 14, query, false);
    var start := IdScore(lex, doc, query);
    OneFieldWithin(lex, start, doc.title, 12, query, true, top);
    var title := AddField(lex, start, doc.title, 12, query, true);
    FieldsWithin(lex, title, doc.aliases, 12, query, true, top);
    var aliases := AddFields(lex, title, doc.aliases, 12, query, true);
    FieldsWithin(lex, aliases, doc.entities, 12, query, false, top);
  }

  lemma {:induction false} FieldScoresWithin(lex: Lexicon, doc: Document, query: SearchText, top: int)
    requires top == if NamesDocument(lex, doc, query) then 5 else 4
    ensures Within(FieldScores(lex, doc, query).score, top)
    ensures NamesDocument(lex, doc, query) ==> FieldScores(lex, doc, query).score.tier == 5
  {
    NameScoresWithin(lex, doc, query, top);
    var names := NameScores(lex, doc, query);
    FieldsWithin(lex, names, doc.tags, 8, query, true, top);
    var tags := AddFields(lex, names, doc.tags, 8, query, true);
    OneFieldWithin(lex, tags, OrEmpty(doc.period), 8, query, false, top);
    var period := AddField(lex, tags, OrEmpty(doc.period), 8, query, false);
    OneFieldWithin(lex, period, doc.summary, 7, query, false, top);
    var summary := AddField(lex, period, doc.summary, 7, query, false);
    FieldsWithin(lex, summary, Targets(doc), 4, query, false, top);
  }

  /** Tier 5 belongs to documents whose normalized ID is the query, and to no others. */
  lemma {:induction false} ExactIdTier(lex: Lexicon, doc: Document, query: SearchText)
    ensures var d := DocumentRelevance(lex, doc, query);
            && Within(d.score, 5)
            && (d.score.tier == 5 <==> NamesDocument(lex, doc, query))
  {
    FieldScoresWithin(lex, doc, query, if NamesDocument(lex, doc, query) then 5 else 4);
  }

  lemma {:induction false} SectionWithin(lex: Lexicon, section: Sections.Section, query: SearchText)
    ensures Within(SectionRelevance(lex, section, query).score, 4)
  {
    FieldWithin(lex, section.heading, 8, query, true);
    FieldWithin(lex, section.text, 4, query, false);
  }

  /** A result of this document lies above the 5000 line iff its ID is the query. */
  ghost predicate OnItsSide(scored: Scored, best: Option<Item<Hit>>) {
    best.Some? ==>
      && best.value.key.id == scored.doc.id
      && (best.value.key.score >= 5000 <==> scored.score.score.tier == 5)
  }

  lemma {:induction false} SectionResultBand(lex: Lexicon, scored: Scored, section: Sections.Section, query: SearchText)
    requires Within(scored.score.score, 5)
    ensures OnItsSide(scored, SectionResult(lex, scored, section, query))
    ensures scored.score.score.tier == 5 && SectionMatches(lex, scored, section, query) ==>
              SectionResult(lex, scored, section, query).Some?
  {
    SectionWithin(lex, section, query);
    var score := CombinedRelevance(scored.score, SectionRelevance(lex, section, query), query);
    assert Within(score, 5) && (score.tier == 5 <==> scored.score.score.tier == 5);
  }

  lemma {:induction false} BestSectionBand(lex: Lexicon, scored: Scored, sections: seq<Sections.Section>,
                                           query: SearchText)
    requires Within(scored.score.score, 5)
    ensures OnItsSide(scored, BestSection(lex, scored, sections, query))
    ensures scored.score.score.tier == 5 && AnyMatches(lex, scored, sections, query) ==>
              BestSection(lex, scored, sections, query).Some?
  {
    if |sections| > 0 {
      var front, last := sections[..|sections| - 1], sections[|sections| - 1];
      BestSectionBand(lex, scored, front, query);
      SectionResultBand(lex, scored, last, query);
    }
  }

  lemma {:induction false} OwnNumbersCovered(lex: Lexicon, doc: Document)
    ensures lex.numbers(lex.normalize(doc.id)) <= DocumentNumbers(lex, doc)
  {
    var texts := [doc.id, doc.title, doc.summary, OrEmpty(doc.period)] + doc.aliases + doc.entities + doc.tags +
                 Targets(doc);
    assert texts[0] == doc.id && doc.id in texts;
  }

  /** The exact-ID guarantee for one document, through every branch of the search. */
  lemma {:induction false} ExactIdScore(lex: Lexicon, doc: Document, text: string)
    ensures var query := NewText(lex, text);
            var best := SearchDocument(lex, doc, query);
            && (best.Some? ==> best.value.key.id == doc.id)
            && (best.Some? ==> (best.value.key.score >= 5000 <==> NamesDocument(lex, doc, query)))
            && (NamesDocument(lex, doc, query) && IsValid(lex.isTimestamp, doc) ==> best.Some?)
  {
    var query := NewText(lex, text);
    var scored := ScoredDocument(lex, doc, query);
    var sections := Sections.SectionsOf(doc.body);
    ExactIdTier(lex, doc, query);
    OwnNumbersCovered(lex, doc);
    assert NamesDocument(lex, doc, query) ==> query.numbers <= scored.numbers;
    BestResultBand(lex, scored, sections, query);
  }

  lemma {:induction false} BestResultBand(lex: Lexicon, scored: Scored, sections: seq<Sections.Section>,
                                          query: SearchText)
    requires Within(scored.score.score, 5)
    ensures OnItsSide(scored, BestResult(lex, scored, sections, query))
    ensures scored.score.score.tier == 5 && query.numbers <= scored.numbers ==>
              BestResult(lex, scored, sections, query).Some?
  {
    BestSectionBand(lex, scored, sections, query);
  }
}
