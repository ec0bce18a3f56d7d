/**
 Parallel memory search (src/knowledge/query.rs): documents are filtered, cut into
 chunks, ranked chunk by chunk and merged. Chunk scans run as an ordered map.
 */
module Search {
  import opened Lists
  import Matching
  import opened Ordering
  import opened Ranking
  import opened Records
  import opened Relevance
  import opened TopK
  import opened Wrappers

  // --------------------------------------------------------------- chunking

  function Least(a: nat, b: nat): nat {
    if a < b then a else b
  }

  /** How many items fit into n chunks. */
  ghost function Room(n: nat, size: nat): nat {
    if n == 0 then 0 else size + Room(n - 1, size)
  }

  lemma {:induction false} RoomIsProduct(n: nat, size: nat)
    ensures Room(n, size) == n * size
  {
    if n > 0 {
      RoomIsProduct(n - 1, size);
      assert n * size == (n - 1) * size + size;
    }
  }

  /** `usize::div_ceil`, the chunk size: that many chunks hold everything. */
  method DivCeil(count: nat, workers: nat) returns (size: nat)
    requires workers > 0
    ensures count <= Room(workers, size)
    ensures count > 0 ==> size > 0
  {
    size := (count + workers - 1) / workers;
    assert count + workers - 1 == size * workers + (count + workers - 1) % workers;
    RoomIsProduct(workers, size);
  }

  lemma {:induction false} AppendChunk<T>(items: seq<T>, chunks: seq<seq<T>>, start: nat, end: nat)
    requires start <= end <= |items| && Flatten(chunks) == items[..start]
    ensures Flatten(chunks + [items[start..end]]) == items[..end]
  {
    var chunk := items[start..end];
    assert (chunks + [chunk])[..|chunks|] == chunks;
    assert items[..end] == items[..start] + chunk;
  }

  /** Contiguous, non-empty chunks in order, at most one for each worker. */
  method Chunks<T(!new)>(items: seq<T>, requested: nat) returns (chunks: seq<seq<T>>)
    ensures Flatten(chunks) == items
    ensures 1 <= |chunks| <= (if requested == 0 then 1 else requested)
    ensures |items| > 0 ==> forall chunk :: chunk in chunks ==> |chunk| > 0
  {
    var workers := Least(if requested == 0 then 1 else requested, if |items| == 0 then 1 else |items|);
    if workers == 1 {
      chunks := [items];
      assert chunks[..0] == [];
      return;
    }
    var size := DivCeil(|items|, workers);
    chunks := [];
    var start := 0;
    while start < |items|
      invariant start <= |items| && |chunks| <= workers
      invariant |items| - start <= Room(workers - |chunks|, size)
      invariant start > 0 ==> |chunks| > 0
      invariant Flatten(chunks) == items[..start]
      invariant forall chunk :: chunk in chunks ==> |chunk| > 0
    {
      var end := Least(start + size, |items|);
      AppendChunk(items, chunks, start, end);
      chunks := chunks + [items[start..end]];
      start := end;
    }
    assert items[..|items|] == items;
  }

  // ------------------------------------------------------------- retention

  /** Where an item with this ID sits in the running top list. */
  function PositionOf<P>(top: seq<Item<P>>, id: string): (index: Option<nat>)
    ensures match index
            case None => forall i :: 0 <= i < |top| ==> top[i].key.id != id
            case Some(i) => i < |top| && top[i].key.id == id
  {
    if |top| == 0 then None
    else if top[|top| - 1].key.id == id then Some(|top| - 1)
    else PositionOf(top[..|top| - 1], id)
  }

  ghost predicate DistinctIds<P>(s: seq<Item<P>>) {
    forall i, j :: 0 <= i < j < |s| ==> s[i].key.id != s[j].key.id
  }

  lemma {:induction false} JoinRanked<P>(u: seq<Item<P>>, x: Item<P>, v: seq<Item<P>>)
    requires Ranked(u + v)
    requires forall j :: 0 <= j < |u| ==> Before(u[j], x) && u[j].key.id != x.key.id
    requires forall j :: 0 <= j < |v| ==> Before(x, v[j]) && v[j].key.id != x.key.id
    ensures Ranked(u + [x] + v)
  {
    var before, after := u + v, u + [x] + v;
    forall i, j | 0 <= i < j < |after|
      ensures Before(after[i], after[j]) && after[i].key.id != after[j].key.id
    {
      var a := if i < |u| then i else i - 1;
      var b := if j < |u| then j else j - 1;
      if i != |u| && j != |u| {
        assert after[i] == before[a] && after[j] == before[b];
      }
    }
  }

  lemma {:induction false} InsertRanked<P(!new)>(s: seq<Item<P>>, x: Item<P>)
    requires Ranked(s) && forall y :: y in s ==> y.key.id != x.key.id
    ensures Ranked(Insert(Before, s, x)) && |Insert(Before, s, x)| == |s| + 1
    ensures forall y :: y in Insert(Before, s, x) <==> y in s || y == x
  {
    var i := SplitRanked(s, x);
    var u, v := s[..i], s[i..];
    assert s == u + v;
    forall j | 0 <= j < |u|
      ensures u[j].key.id != x.key.id
    {
      assert u[j] in s;
    }
    forall j | 0 <= j < |v|
      ensures v[j].key.id != x.key.id
    {
      assert v[j] in s;
    }
    JoinRanked(u, x, v);
  }

  lemma {:induction false} SplitRanked<P(!new)>(s: seq<Item<P>>, x: Item<P>) returns (i: nat)
    requires Ranked(s) && forall y :: y in s ==> y.key.id != x.key.id
    ensures i <= |s| && Insert(Before, s, x) == s[..i] + [x] + s[i..]
    ensures forall j :: 0 <= j < i ==> Before(s[j], x)
    ensures forall j :: i <= j < |s| ==> Before(x, s[j])
  {
    BeforeWeak<P>();
    i := InsertSorted(Before, s, x);
    forall j | 0 <= j < i
      ensures Before(s[j], x)
    {
      assert s[j] in s;
    }
  }

  /** Sorting items with distinct IDs gives the ranked list of the same winners. */
  lemma {:induction false} SortDistinct<P(!new)>(s: seq<Item<P>>)
    requires DistinctIds(s)
    ensures Ranked(Sort(Before, s)) && |Sort(Before, s)| == |s|
    ensures forall y :: y in Sort(Before, s) <==> y in s
    ensures Sort(Before, s) == Rank(s)
  {
    if |s| > 0 {
      var front, x := s[..|s| - 1], s[|s| - 1];
      SortDistinct(front);
      assert s == front + [x];
      forall y | y in Sort(Before, front)
        ensures y.key.id != x.key.id
      {
        assert y in front;
      }
      InsertRanked(Sort(Before, front), x);
    }
    forall id
      ensures Winner(Sort(Before, s), id) == Winner(s, id)
    {
      SortKeepsWinners(s, id);
    }
    RankUnique(Sort(Before, s), s);
  }

  /** `retain_top_ranked_result`: the running list stays the top of what was seen. */
  method RetainTop<P(!new)>(top: seq<Item<P>>, candidate: Item<P>, limit: nat) returns (kept: seq<Item<P>>)
    requires Ranked(top) && |top| <= limit
    ensures kept == Top(top + [candidate], limit)
    ensures Ranked(kept) && |kept| <= limit
  {
    kept := top;
    var index := PositionOf(top, candidate.key.id);
    if index.Some? {
      if Before(candidate, top[index.value]) {
        kept := kept[index.value := candidate];
        ReplaceWins(top, candidate, index.value);
        kept := Sort(Before, kept);
      } else {
        KeepWins(top, candidate, index.value);
      }
      return;
    }
    PushWins(top, candidate);
    kept := Sort(Before, kept + [candidate]);
    kept := if |kept| <= limit then kept else kept[..limit];
  }

  lemma {:induction false} ReplaceWins<P(!new)>(top: seq<Item<P>>, candidate: Item<P>, i: nat)
    requires Ranked(top) && i < |top|
    requires top[i].key.id == candidate.key.id && Before(candidate, top[i])
    ensures var t := Sort(Before, top[i := candidate]);
            Ranked(t) && |t| == |top| && t == Rank(top + [candidate])
  {
    var u, v := top[..i], top[i + 1..];
    var s := top[i := candidate];
    assert s == u + [candidate] + v && top == u + [top[i]] + v;
    SortDistinct(s);
    RankRanks(s);
    forall id
      ensures Winner(s, id) == Winner(top + [candidate], id)
    {
      WinnerMiddle(u, candidate, v, id);
      WinnerMiddle(u, top[i], v, id);
      WinnerConcat(top, [candidate], id);
      WinnerSingle(candidate, id);
      if id == candidate.key.id {
        assert Winner(u, id).None? && Winner(v, id).None?;
      }
    }
    RankUnique(Sort(Before, s), top + [candidate]);
  }

  lemma {:induction false} KeepWins<P(!new)>(top: seq<Item<P>>, candidate: Item<P>, i: nat)
    requires Ranked(top) && i < |top|
    requires top[i].key.id == candidate.key.id && !Before(candidate, top[i])
    ensures top == Rank(top + [candidate])
  {
    forall id
      ensures Winner(top, id) == Winner(top + [candidate], id)
    {
      WinnerConcat(top, [candidate], id);
      WinnerSingle(candidate, id);
      WinnerOfRanked(top, top[i]);
    }
    RankUnique(top, top + [candidate]);
  }

  lemma {:induction false} PushWins<P(!new)>(top: seq<Item<P>>, candidate: Item<P>)
    requires Ranked(top)
    requires forall i :: 0 <= i < |top| ==> top[i].key.id != candidate.key.id
    ensures Ranked(Sort(Before, top + [candidate]))
    ensures Sort(Before, top + [candidate]) == Rank(top + [candidate])
  {
    SortDistinct(top + [candidate]);
  }

  /** `finalize_search_results`: sort, keep the first of each ID, truncate. */
  method FinalizeResults<P(!new)>(results: seq<Item<P>>, limit: nat) returns (final: seq<Item<P>>)
    ensures final == Top(results, limit)
  {
    var sorted := Sort(Before, results);
    var seen: set<string> := {};
    final := [];
    for i := 0 to |sorted|
      invariant final + Dedup(sorted[i..], seen) == Dedup(sorted, {})
    {
      assert sorted[i..][1..] == sorted[i + 1..];
      if sorted[i].key.id !in seen {
        seen := seen + {sorted[i].key.id};
        final := final + [sorted[i]];
      }
    }
    if |final| > limit {
      final := final[..limit];
    }
  }

  // --------------------------------------------------------- one search run

  datatype Explanation = Explanation(tier: string, fields: seq<string>, terms: seq<string>)

  datatype Shown = Shown(hit: Hit, explanation: Option<Explanation>)

  /** One search; `embedding` scores a document semantically, if the query allows it. */
  datatype Request = Request(
    lex: Lexicon, query: SearchText, limit: nat, explain: bool, explainHit: Hit -> Explanation,
    includeRevoked: bool, cutoff: Option<int>, dateOf: string -> Option<int>,
    embedding: Option<Document -> Option<int>>)

  predicate IsRevoked(doc: Document) {
    doc.kind in {"wiki", "lens"} && doc.status == Some("revoked")
  }

  predicate Eligible(request: Request, doc: Document) {
    && (request.includeRevoked || !IsRevoked(doc))
    && (request.cutoff.Some? ==>
          request.dateOf(doc.asOf).Some? && request.dateOf(doc.asOf).value <= request.cutoff.value)
  }

  function Candidate(request: Request, semantic: Option<Document -> Option<int>>, doc: Document): Option<Item<Hit>> {
    if !Eligible(request, doc) then None
    else
      match semantic
      case None => SearchDocument(request.lex, doc, request.query)
      case Some(score) =>
        match score(doc)
        case None => None
        case Some(points) => Some(HitOf(request.lex, doc, NO_SECTION, points))
  }

  function Finder(request: Request, semantic: Option<Document -> Option<int>>): Document -> Option<Item<Hit>> {
    (doc: Document) => Candidate(request, semantic, doc)
  }

  function Candidates(request: Request, semantic: Option<Document -> Option<int>>,
                      docs: seq<Document>): seq<Item<Hit>> {
    FilterMap(Finder(request, semantic), docs)
  }

  function Show(request: Request): Item<Hit> -> Shown {
    (item: Item<Hit>) => Shown(item.payload, if request.explain then Some(request.explainHit(item.payload)) else None)
  }

  /** The meaning of a search: one global ranking, lexical if anything matched. */
  function SearchMeaning(request: Request, docs: seq<Document>): seq<Item<Shown>> {
    var lexical := Candidates(request, None, docs);
    var all := if lexical != [] || request.embedding.None? then lexical
               else Candidates(request, request.embedding, docs);
    Relabel(Show(request), Top(all, request.limit))
  }

  method FindCandidate(request: Request, semantic: Option<Document -> Option<int>>, doc: Document)
    returns (candidate: Option<Item<Hit>>)
    requires Eligible(request, doc)
    ensures candidate == Candidate(request, semantic, doc)
  {
    match semantic {
      case Some(score) =>
        match score(doc) {
          case None => candidate := None;
          case Some(points) => candidate := Some(HitOf(request.lex, doc, NO_SECTION, points));
        }
      case None => candidate := FindBestResult(request.lex, doc, request.query);
    }
  }

  lemma {:induction false} TopNext<P(!new)>(seen: seq<Item<P>>, item: Item<P>, k: nat)
    ensures Top(Top(seen, k) + [item], k) == Top(seen + [item], k)
  {
    ChunkKeepsTop([], seen, [item], k);
    assert [] + seen + [item] == seen + [item];
    assert [] + Top(seen, k) + [item] == Top(seen, k) + [item];
  }

  /** One turn of the chunk loop. */
  method Consider(request: Request, semantic: Option<Document -> Option<int>>, doc: Document, top: seq<Item<Hit>>,
                  ghost seen: seq<Item<Hit>>)
    returns (kept: seq<Item<Hit>>)
    requires top == Top(seen, request.limit) && Ranked(top)
    ensures kept == Top(seen + Listed(Candidate(request, semantic, doc)), request.limit)
    ensures Ranked(kept)
  {
    kept := top;
    if (!request.includeRevoked && IsRevoked(doc)) ||
       (request.cutoff.Some? && (request.dateOf(doc.asOf).None? ||
                                 request.dateOf(doc.asOf).value > request.cutoff.value)) {
      assert Candidate(request, semantic, doc) == None;
      assert seen + [] == seen;
      return;
    }
    var candidate := FindCandidate(request, semantic, doc);
    if candidate.None? {
      assert seen + [] == seen;
    } else {
      TopNext(seen, candidate.value, request.limit);
      kept := RetainTop(top, candidate.value, request.limit);
    }
  }

  method SearchChunk(request: Request, semantic: Option<Document -> Option<int>>, docs: seq<Document>)
    returns (shown: seq<Item<Shown>>)
    ensures shown == Relabel(Show(request), Top(Candidates(request, semantic, docs), request.limit))
  {
    var top: seq<Item<Hit>> := [];
    assert Top<Hit>([], request.limit) == [];
    for i := 0 to |docs|
      invariant top == Top(Candidates(request, semantic, docs[..i]), request.limit) && Ranked(top)
    {
      FilterMapNext(Finder(request, semantic), docs, i);
      top := Consider(request, semantic, docs[i], top, Candidates(request, semantic, docs[..i]));
    }
    assert docs[..|docs|] == docs;
    shown := Relabel(Show(request), top);
  }

  ghost function ChunkCandidates(request: Request, semantic: Option<Document -> Option<int>>,
                                 chunks: seq<seq<Document>>): (lists: seq<seq<Item<Hit>>>)
    ensures |lists| == |chunks|
  {
    if |chunks| == 0 then []
    else
      ChunkCandidates(request, semantic, chunks[..|chunks| - 1]) + [Candidates(request, semantic, chunks[|chunks| - 1])]
  }

  lemma {:induction false} ChunkCandidatesAll(request: Request, semantic: Option<Document -> Option<int>>,
                                              chunks: seq<seq<Document>>)
    ensures Flatten(ChunkCandidates(request, semantic, chunks)) == Candidates(request, semantic, Flatten(chunks))
  {
    if |chunks| > 0 {
      var front := chunks[..|chunks| - 1];
      ChunkCandidatesAll(request, semantic, front);
      FilterMapConcat(Finder(request, semantic), Flatten(front), chunks[|chunks| - 1]);
      assert ChunkCandidates(request, semantic, chunks)[..|front|] == ChunkCandidates(request, semantic, front);
    }
  }

  /** What the chunks report, one after another. */
  ghost function Reported(request: Request, semantic: Option<Document -> Option<int>>,
                          chunks: seq<seq<Document>>): seq<Item<Shown>> {
    Relabel(Show(request), Flatten(TopOfEach(ChunkCandidates(request, semantic, chunks), request.limit)))
  }

  lemma {:induction false} ReportNext(request: Request, semantic: Option<Document -> Option<int>>,
                                      chunks: seq<seq<Document>>, n: nat)
    requires n < |chunks|
    ensures Reported(request, semantic, chunks[..n + 1]) ==
            Reported(request, semantic, chunks[..n]) +
            Relabel(Show(request), Top(Candidates(request, semantic, chunks[n]), request.limit))
  {
    var lists := ChunkCandidates(request, semantic, chunks[..n]);
    var list := Candidates(request, semantic, chunks[n]);
    assert chunks[..n + 1][..n] == chunks[..n];
    assert ChunkCandidates(request, semantic, chunks[..n + 1]) == lists + [list];
    TopOfNext(lists, list, request.limit);
    RelabelConcat(Show(request), Flatten(TopOfEach(lists, request.limit)), Top(list, request.limit));
  }

  lemma {:induction false} ReportedMeaning(request: Request, semantic: Option<Document -> Option<int>>,
                                           chunks: seq<seq<Document>>)
    ensures var found, all := Reported(request, semantic, chunks), Candidates(request, semantic, Flatten(chunks));
            && Top(found, request.limit) == Relabel(Show(request), Top(all, request.limit))
            && (request.limit > 0 ==> (found == [] <==> all == []))
  {
    var lists := ChunkCandidates(request, semantic, chunks);
    var tops := Flatten(TopOfEach(lists, request.limit));
    ChunkCandidatesAll(request, semantic, chunks);
    ChunksKeepTop(lists, [], request.limit);
    assert tops + [] == tops && Flatten(lists) + [] == Flatten(lists);
    RelabelTop(Show(request), tops, request.limit);
    NoneFound(tops, request.limit);
    NoneFound(Flatten(lists), request.limit);
  }

  /** Scans every chunk; the concatenated results have the right global top. */
  method ScanAll(request: Request, semantic: Option<Document -> Option<int>>, docs: seq<Document>, workers: nat)
    returns (found: seq<Item<Shown>>)
    ensures Top(found, request.limit) == Relabel(Show(request), Top(Candidates(request, semantic, docs), request.limit))
    ensures request.limit > 0 ==> (found == [] <==> Candidates(request, semantic, docs) == [])
  {
    var chunks := Chunks(docs, workers);
    found := [];
    for i := 0 to |chunks|
      invariant found == Reported(request, semantic, chunks[..i])
    {
      var shown := SearchChunk(request, semantic, chunks[i]);
      ReportNext(request, semantic, chunks, i);
      found := found + shown;
    }
    assert chunks[..|chunks|] == chunks;
    ReportedMeaning(request, semantic, chunks);
  }

  lemma {:induction false} NoneFound<P(!new)>(xs: seq<Item<P>>, k: nat)
    ensures k > 0 ==> (Top(xs, k) == [] <==> xs == [])
  {
    RankRanks(xs);
    if xs != [] {
      WinnerBeatsAll(xs, xs[0]);
      assert Winner(Rank(xs), xs[0].key.id).Some?;
    } else {
      assert Sort(Before, xs) == xs;
    }
  }

  // --------------------------------------------- which documents are searched

  /** This hit stands for this document as a whole or for one of its sections. */
  ghost predicate HitFor(request: Request, doc: Document, key: Key, hit: Hit) {
    && hit.document == doc && key.id == doc.id && key.time == request.lex.timestamp(doc.asOf)
    && key.path == hit.section.headingPath
    && (hit.section in Sections.SectionsOf(doc.body) || hit.section == Sections.Section("", [], ""))
  }

  /** The document may be shown: dated no later than the cutoff, and not revoked unless asked for. */
  ghost predicate Admitted(request: Request, doc: Document) {
    && (request.cutoff.Some? ==>
          match request.dateOf(doc.asOf)
          case None => false
          case Some(day) => !(day > request.cutoff.value))
    && (doc.status == Some("revoked") && (doc.kind == "wiki" || doc.kind == "lens") ==> request.includeRevoked)
  }

  lemma {:induction false} BestSectionFor(request: Request, scored: Scored, sections: seq<Sections.Section>)
    ensures var best := BestSection(request.lex, scored, sections, request.query);
            best.Some? ==>
              && best.value.payload.section in sections
              && best.value == HitOf(request.lex, scored.doc, best.value.payload.section, best.value.key.score)
  {
    if |sections| > 0 {
      BestSectionFor(request, scored, sections[..|sections| - 1]);
    }
  }

  lemma {:induction false} CandidateFor(request: Request, semantic: Option<Document -> Option<int>>, doc: Document)
    ensures var found := Candidate(request, semantic, doc);
            found.Some? ==> HitFor(request, doc, found.value.key, found.value.payload) && Admitted(request, doc)
  {
    if semantic.None? && Eligible(request, doc) {
      DocumentFor(request, doc);
    }
  }

  lemma {:induction false} ResultFor(request: Request, scored: Scored, sections: seq<Sections.Section>)
    ensures var best := BestResult(request.lex, scored, sections, request.query);
            best.Some? ==>
              && (best.value.payload.section in sections || best.value.payload.section == NO_SECTION)
              && best.value == HitOf(request.lex, scored.doc, best.value.payload.section, best.value.key.score)
  {
    BestSectionFor(request, scored, sections);
  }

  lemma {:induction false} DocumentFor(request: Request, doc: Document)
    ensures var found := SearchDocument(request.lex, doc, request.query);
            found.Some? ==> HitFor(request, doc, found.value.key, found.value.payload)
  {
    ResultFor(request, ScoredDocument(request.lex, doc, request.query), Sections.SectionsOf(doc.body));
    assert NO_SECTION == Sections.Section("", [], "");
  }

  lemma {:induction false} RelabelSource<P, Q>(f: Item<P> -> Q, xs: seq<Item<P>>, y: Item<Q>) returns (x: Item<P>)
    requires y in Relabel(f, xs)
    ensures x in xs && y == Item(x.key, f(x))
  {
    var i :| 0 <= i < |xs| && Relabel(f, xs)[i] == y;
    x := xs[i];
  }

  lemma {:induction false} TopMember<P(!new)>(xs: seq<Item<P>>, k: nat, x: Item<P>)
    requires x in Top(xs, k)
    ensures x in xs
  {
    RankRanks(xs);
    WinnerOfRanked(Rank(xs), x);
  }

  ghost predicate ShownFrom(request: Request, docs: seq<Document>, item: Item<Shown>) {
    && (exists doc :: doc in docs && Admitted(request, doc) && HitFor(request, doc, item.key, item.payload.hit))
    && match item.payload.explanation
       case Some(explanation) => request.explain && explanation == request.explainHit(item.payload.hit)
       case None => !request.explain
  }

  /** Whatever a search shows is of one of the documents, within the cutoff and not revoked. */
  lemma {:induction false} ResultsAdmitted(request: Request, docs: seq<Document>)
    ensures forall item :: item in SearchMeaning(request, docs) ==> ShownFrom(request, docs, item)
  {
    var lexical := Candidates(request, None, docs);
    var semantic := if lexical != [] || request.embedding.None? then None else request.embedding;
    var all := Candidates(request, semantic, docs);
    forall item | item in SearchMeaning(request, docs)
      ensures ShownFrom(request, docs, item)
    {
      var hit := RelabelSource(Show(request), Top(all, request.limit), item);
      TopMember(all, request.limit, hit);
      var doc := FilterMapSource(Finder(request, semantic), docs, hit);
      CandidateFor(request, semantic, doc);
      assert Admitted(request, doc) && HitFor(request, doc, item.key, item.payload.hit);
    }
  }

  /** This is what the document's own fields and sections are worth to the query. */
  ghost predicate WorthShowing(request: Request, doc: Document, item: Item<Shown>) {
    Matching.ShownOf(request.lex, doc, request.query, Some(Item(item.key, item.payload.hit)))
  }

  /** A lexical search shows of each document what the document is worth, and scores it so. */
  lemma {:induction false} ResultsRated(request: Request, docs: seq<Document>)
    requires request.embedding.None?
    ensures forall item :: item in SearchMeaning(request, docs) ==>
              exists doc :: doc in docs && Admitted(request, doc) && WorthShowing(request, doc, item)
  {
    var all := Candidates(request, None, docs);
    forall item | item in SearchMeaning(request, docs)
      ensures exists doc :: doc in docs && Admitted(request, doc) && WorthShowing(request, doc, item)
    {
      var hit := RelabelSource(Show(request), Top(all, request.limit), item);
      TopMember(all, request.limit, hit);
      var doc := FilterMapSource(Finder(request, None), docs, hit);
      CandidateFor(request, None, doc);
      CandidateRated(request, doc, hit);
      assert doc in docs && Admitted(request, doc) && WorthShowing(request, doc, item);
    }
  }

  /** When nothing matches lexically, the embedding's own scores are shown, each for a whole document. */
  lemma {:induction false} SemanticResults(request: Request, docs: seq<Document>, item: Item<Shown>)
    requires request.embedding.Some? && item in SearchMeaning(request, docs)
    requires forall doc :: doc in docs && Admitted(request, doc) ==>
                           SearchDocument(request.lex, doc, request.query).None?
    ensures exists doc :: doc in docs && Admitted(request, doc) && item.key.id == doc.id &&
                          request.embedding.value(doc) == Some(item.key.score) &&
                          item.payload.hit == Hit(doc, Sections.Section("", [], ""))
  {
    if Candidates(request, None, docs) != [] {
      var hit := Candidates(request, None, docs)[0];
      var doc := FilterMapSource(Finder(request, None), docs, hit);
      AdmittedEligible(request, doc);
      assert false;
    }
    var all := Candidates(request, request.embedding, docs);
    var hit := RelabelSource(Show(request), Top(all, request.limit), item);
    TopMember(all, request.limit, hit);
    var doc := FilterMapSource(Finder(request, request.embedding), docs, hit);
    AdmittedEligible(request, doc);
    assert NO_SECTION == Sections.Section("", [], "");
  }

  lemma {:induction false} CandidateRated(request: Request, doc: Document, hit: Item<Hit>)
    requires Candidate(request, None, doc) == Some(hit)
    ensures Matching.ShownOf(request.lex, doc, request.query, Some(hit))
  {
    Matching.SearchDocumentMeaning(request.lex, doc, request.query);
  }

  function DatedBy(dateOf: string -> Option<int>, day: int): Document -> bool {
    (doc: Document) => dateOf(doc.asOf).Some? && dateOf(doc.asOf).value <= day
  }

  function NotRevoked(): Document -> bool {
    (doc: Document) => !(doc.status == Some("revoked") && (doc.kind == "wiki" || doc.kind == "lens"))
  }

  /** Refusing what a filter drops is searching what the filter keeps. */
  lemma {:induction false} RefusedIsFiltered(narrow: Request, wide: Request, keep: Document -> bool,
                                             semantic: Option<Document -> Option<int>>, docs: seq<Document>)
    requires forall doc :: Candidate(narrow, semantic, doc) ==
                           if keep(doc) then Candidate(wide, semantic, doc) else None
    ensures Candidates(narrow, semantic, docs) == Candidates(wide, semantic, Filter(keep, docs))
  {
    if |docs| > 0 {
      var front, last := docs[..|docs| - 1], docs[|docs| - 1];
      assert docs == front + [last];
      RefusedIsFiltered(narrow, wide, keep, semantic, front);
      FilterMapConcat(Finder(narrow, semantic), front, [last]);
      FilterMapConcat(Finder(wide, semantic), Filter(keep, front), if keep(last) then [last] else []);
      OneListed(Finder(narrow, semantic), last);
      OneListed(Finder(wide, semantic), last);
      if !keep(last) {
        assert Filter(keep, front) + [] == Filter(keep, front);
      }
    }
  }

  lemma {:induction false} OneListed<T(!new), U>(f: T -> Option<U>, x: T)
    ensures FilterMap(f, [x]) == match f(x) case None => [] case Some(y) => [y]
    ensures FilterMap(f, []) == []
  {
    assert [x][..0] == [];
  }

  lemma {:induction false} LaterRefused(request: Request, day: int, semantic: Option<Document -> Option<int>>,
                                        doc: Document)
    requires request.cutoff == None
    ensures Candidate(request.(cutoff := Some(day)), semantic, doc) ==
            if DatedBy(request.dateOf, day)(doc) then Candidate(request, semantic, doc) else None
  {
    var narrow := request.(cutoff := Some(day));
    assert Eligible(narrow, doc) <==> Eligible(request, doc) && DatedBy(request.dateOf, day)(doc);
  }

  /** A search as of a day is the search without a day over the documents dated on or before it. */
  lemma {:induction false} CutoffIsFilter(request: Request, day: int, docs: seq<Document>)
    requires request.cutoff == None
    ensures SearchMeaning(request.(cutoff := Some(day)), docs) ==
            SearchMeaning(request, Filter(DatedBy(request.dateOf, day), docs))
  {
    var narrow, keep := request.(cutoff := Some(day)), DatedBy(request.dateOf, day);
    forall semantic, doc
      ensures Candidate(narrow, semantic, doc) == if keep(doc) then Candidate(request, semantic, doc) else None
    {
      LaterRefused(request, day, semantic, doc);
    }
    RefusedIsFiltered(narrow, request, keep, None, docs);
    RefusedIsFiltered(narrow, request, keep, request.embedding, docs);
    SameShow(narrow, request);
  }

  lemma {:induction false} RevokedRefused(request: Request, semantic: Option<Document -> Option<int>>, doc: Document)
    requires request.includeRevoked
    ensures Candidate(request.(includeRevoked := false), semantic, doc) ==
            if NotRevoked()(doc) then Candidate(request, semantic, doc) else None
  {
    assert Eligible(request.(includeRevoked := false), doc) <==> Eligible(request, doc) && NotRevoked()(doc);
  }

  /** A later cutoff, or none, never takes a candidate away. */
  lemma {:induction false} LaterCutoffKeeps(request: Request, day: int, later: int,
                                            semantic: Option<Document -> Option<int>>, docs: seq<Document>)
    requires request.cutoff == None && day <= later
    ensures forall hit :: hit in Candidates(request.(cutoff := Some(day)), semantic, docs) ==>
              hit in Candidates(request.(cutoff := Some(later)), semantic, docs) &&
                  hit in Candidates(request, semantic, docs)
  {
    var narrow, wide := request.(cutoff := Some(day)), request.(cutoff := Some(later));
    forall hit | hit in Candidates(narrow, semantic, docs)
      ensures hit in Candidates(wide, semantic, docs) && hit in Candidates(request, semantic, docs)
    {
      var doc := FilterMapSource(Finder(narrow, semantic), docs, hit);
      LaterRefused(request, day, semantic, doc);
      LaterRefused(request, later, semantic, doc);
      FilterMapListed(Finder(wide, semantic), docs, doc);
      FilterMapListed(Finder(request, semantic), docs, doc);
    }
  }

  /** Leaving out revoked records is searching everything else. */
  lemma {:induction false} RevokedIsFilter(request: Request, docs: seq<Document>)
    requires request.includeRevoked
    ensures SearchMeaning(request.(includeRevoked := false), docs) ==
            SearchMeaning(request, Filter(NotRevoked(), docs))
  {
    var narrow := request.(includeRevoked := false);
    forall semantic, doc
      ensures Candidate(narrow, semantic, doc) ==
              if NotRevoked()(doc) then Candidate(request, semantic, doc) else None
    {
      RevokedRefused(request, semantic, doc);
    }
    RefusedIsFiltered(narrow, request, NotRevoked(), None, docs);
    RefusedIsFiltered(narrow, request, NotRevoked(), request.embedding, docs);
    SameShow(narrow, request);
  }

  lemma {:induction false} SameShow(a: Request, b: Request)
    requires a.explain == b.explain && a.explainHit == b.explainHit
    ensures forall xs :: Relabel(Show(a), xs) == Relabel(Show(b), xs)
  {
  }

  lemma {:induction false} ResultsInOrder(request: Request, docs: seq<Document>)
    ensures BestFirst(SearchMeaning(request, docs)) && |SearchMeaning(request, docs)| <= request.limit
  {
    var lexical := Candidates(request, None, docs);
    var all := if lexical != [] || request.embedding.None? then lexical
               else Candidates(request, request.embedding, docs);
    TopRanked(all, request.limit);
    RankedLeads(Top(all, request.limit));
  }

  lemma {:induction false} RelabelRepresents<P, Q>(f: Item<P> -> Q, top: seq<Item<P>>, k: nat, key: Key)
    requires Represented(top, k, key)
    ensures Represented(Relabel(f, top), k, key)
  {
    if y :| y in top && y.key.id == key.id && y.key.score >= key.score {
      var i :| 0 <= i < |top| && top[i] == y;
      assert Relabel(f, top)[i] in Relabel(f, top);
    }
  }

  lemma {:induction false} AdmittedEligible(request: Request, doc: Document)
    ensures Eligible(request, doc) <==> Admitted(request, doc)
  {
  }

  /** Every admitted document that matches lexically is shown, unless better ones fill the limit. */
  lemma {:induction false} MatchesShown(request: Request, docs: seq<Document>, doc: Document)
    requires doc in docs && Admitted(request, doc) && SearchDocument(request.lex, doc, request.query).Some?
    ensures var found := SearchDocument(request.lex, doc, request.query).value;
            Represented(SearchMeaning(request, docs), request.limit, found.key)
    ensures SearchMeaning(request, docs) == SearchMeaning(request.(embedding := None), docs)
  {
    var lexical := Candidates(request, None, docs);
    AdmittedEligible(request, doc);
    FilterMapListed(Finder(request, None), docs, doc);
    var found := SearchDocument(request.lex, doc, request.query).value;
    TopRepresents(lexical, request.limit, found);
    RelabelRepresents(Show(request), Top(lexical, request.limit), request.limit, found.key);
    LexicalAlone(request, docs);
  }

  lemma {:induction false} LexicalAlone(request: Request, docs: seq<Document>)
    requires Candidates(request, None, docs) != []
    ensures SearchMeaning(request, docs) == SearchMeaning(request.(embedding := None), docs)
  {
    var plain := request.(embedding := None);
    FilterMapSame(Finder(plain, None), Finder(request, None), docs);
    SameShow(plain, request);
  }

  /** Every worker count gives what one global sort and deduplication gives. */
  method SearchDocuments(request: Request, docs: seq<Document>, workers: nat) returns (final: seq<Item<Shown>>)
    requires 1 <= request.limit
    ensures final == SearchMeaning(request, docs)
    ensures |final| <= request.limit && forall item :: item in final ==> ShownFrom(request, docs, item)
    ensures BestFirst(final)
  {
    ResultsAdmitted(request, docs);
    ResultsInOrder(request, docs);
    var found := ScanAll(request, None, docs, workers);
    if found == [] && request.embedding.Some? {
      found := ScanAll(request, request.embedding, docs, workers);
    }
    final := FinalizeResults(found, request.limit);
  }

  // ------------------------------------------------------- exact record IDs

  /** The first ranked item scores at least as much as any candidate. */
  lemma {:induction false} FirstScoresBest<P(!new)>(xs: seq<Item<P>>, x: Item<P>)
    requires x in xs
    ensures |Rank(xs)| > 0 && Rank(xs)[0] in xs && Rank(xs)[0].key.score >= x.key.score
  {
    var r := Rank(xs);
    RankRanks(xs);
    WinnerBeatsAll(xs, x);
    var w := Winner(xs, x.key.id).value;
    WinnerOfRanked(r, w);
    var i :| 0 <= i < |r| && r[i] == w;
    assert i > 0 ==> Before(r[0], r[i]);
    WinnerOfRanked(r, r[0]);
  }

  lemma {:induction false} CandidateBand(request: Request, text: string, doc: Document)
    requires request.query == NewText(request.lex, text)
    ensures var best := Finder(request, None)(doc);
            && (best.Some? && best.value.key.score >= 5000 ==>
                request.lex.normalize(best.value.key.id) == request.query.normalized)
            && (NamesDocument(request.lex, doc, request.query) && Eligible(request, doc) &&
                IsValid(request.lex.isTimestamp, doc) ==>
                  best.Some? && best.value.key.score >= 5000)
  {
    ExactIdScore(request.lex, doc, text);
  }

  /** Only documents named by the query score 5000 or more. */
  lemma {:induction false} NamedAbove(request: Request, docs: seq<Document>, text: string, hit: Item<Hit>)
    requires request.query == NewText(request.lex, text)
    requires hit in Candidates(request, None, docs) && hit.key.score >= 5000
    ensures request.lex.normalize(hit.key.id) == request.query.normalized
  {
    var source := FilterMapSource(Finder(request, None), docs, hit);
    CandidateBand(request, text, source);
  }

  lemma {:induction false} ShownAbove(request: Request, docs: seq<Document>, text: string, item: Item<Shown>)
    requires request.query == NewText(request.lex, text)
    requires item in Relabel(Show(request), Top(Candidates(request, None, docs), request.limit))
    requires item.key.score >= 5000
    ensures request.lex.normalize(item.key.id) == request.query.normalized
  {
    var lexical := Candidates(request, None, docs);
    var hit := RelabelSource(Show(request), Top(lexical, request.limit), item);
    TopMember(lexical, request.limit, hit);
    NamedAbove(request, docs, text, hit);
  }

  lemma {:induction false} ExactIdLeads(request: Request, docs: seq<Document>, text: string, doc: Document)
    requires request.query == NewText(request.lex, text)
    requires doc in docs && Eligible(request, doc) && IsValid(request.lex.isTimestamp, doc)
    requires NamesDocument(request.lex, doc, request.query)
    ensures var lexical := Candidates(request, None, docs);
            lexical != [] && |Rank(lexical)| > 0 && Rank(lexical)[0].key.score >= 5000
  {
    CandidateBand(request, text, doc);
    FilterMapListed(Finder(request, None), docs, doc);
    FirstScoresBest(Candidates(request, None, docs), Finder(request, None)(doc).value);
  }

  lemma {:induction false} FirstShown<P, Q>(f: Item<P> -> Q, xs: seq<Item<P>>, k: nat)
    requires k >= 1 && |Rank(xs)| > 0
    ensures |Relabel(f, Top(xs, k))| > 0 && Relabel(f, Top(xs, k))[0].key == Rank(xs)[0].key
  {
  }

  /** An eligible valid document whose ID is the query puts such an ID first. */
  lemma {:induction false} ExactIdFirst(request: Request, docs: seq<Document>, text: string, doc: Document)
    requires request.query == NewText(request.lex, text) && request.limit >= 1
    requires doc in docs && Eligible(request, doc) && IsValid(request.lex.isTimestamp, doc)
    requires NamesDocument(request.lex, doc, request.query)
    ensures var final := SearchMeaning(request, docs);
            && |final| > 0 && final[0].key.score >= 5000
            && request.lex.normalize(final[0].key.id) == request.query.normalized
  {
    var lexical := Candidates(request, None, docs);
    ExactIdLeads(request, docs, text, doc);
    FirstShown(Show(request), lexical, request.limit);
    var final := Relabel(Show(request), Top(lexical, request.limit));
    ShownAbove(request, docs, text, final[0]);
  }
}
