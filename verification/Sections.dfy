/**
 `split_sections` (src/knowledge/catalog.rs:202-238): one pass with a heading
 stack computes, for every heading, the path of its enclosing headings.
 */
module Sections {
  import opened Wrappers
  import opened Strings

  datatype Section = Section(heading: string, headingPath: seq<string>, text: string)

  datatype Heading = Heading(level: nat, name: string)

  function Hashes(line: string): (n: nat)
    ensures n <= |line|
    ensures forall i :: 0 <= i < n ==> line[i] == '#'
    ensures n < |line| ==> line[n] != '#'
  {
    if |line| > 0 && line[0] == '#' then 1 + Hashes(line[1..]) else 0
  }

  /** A run of '#' followed by a space starts a heading. */
  function ParseHeading(line: string): Option<Heading> {
    var hashes := Hashes(line);
    if hashes > 0 && hashes < |line| && line[hashes] == ' '
    then Some(Heading(hashes, Trim(line[hashes + 1..])))
    else None
  }

  // ------------------------------------------- the declarative meaning

  /** Headings in document order. */
  function Headings(lines: seq<string>): seq<Heading> {
    if |lines| == 0 then []
    else
      var front := Headings(lines[..|lines| - 1]);
      match ParseHeading(lines[|lines| - 1])
      case None => front
      case Some(h) => front + [h]
  }

  /** Heading j encloses heading i: nothing after j up to i is at j's level or above. */
  predicate Encloses(hs: seq<Heading>, j: nat, i: nat)
    requires j <= i < |hs|
  {
    forall k | j < k <= i :: hs[j].level < hs[k].level
  }

  /** The enclosing headings of i among the first n, outermost first. */
  function Ancestors(hs: seq<Heading>, i: nat, n: nat): seq<Heading>
    requires i < |hs| && n <= i + 1
  {
    if n == 0 then []
    else Ancestors(hs, i, n - 1) + if Encloses(hs, n - 1, i) then [hs[n - 1]] else []
  }

  function Names(hs: seq<Heading>): seq<string> {
    seq(|hs|, i requires 0 <= i < |hs| => hs[i].name)
  }

  /** A heading with the body lines below it; index -1 is the text before any heading. */
  datatype Raw = Raw(index: int, body: seq<string>)

  function RawSections(lines: seq<string>): (raws: seq<Raw>)
    ensures |raws| == |Headings(lines)| + 1
    ensures forall i :: 0 <= i < |raws| ==> raws[i].index == i - 1
  {
    if |lines| == 0 then [Raw(-1, [])]
    else
      var front := RawSections(lines[..|lines| - 1]);
      var line := lines[|lines| - 1];
      var last := |front| - 1;
      if ParseHeading(line).Some? then front + [Raw(last, [])]
      else front[..last] + [Raw(front[last].index, front[last].body + [line])]
  }

  function Render(hs: seq<Heading>, raw: Raw): Section
    requires -1 <= raw.index < |hs|
  {
    var text := Trim(Join(raw.body, "\n"));
    if raw.index < 0 then Section("", [], text)
    else Section(hs[raw.index].name, Names(Ancestors(hs, raw.index, raw.index + 1)), text)
  }

  predicate Visible(s: Section) {
    s.text != "" || s.heading != ""
  }

  function RenderVisible(hs: seq<Heading>, raws: seq<Raw>): seq<Section>
    requires forall raw | raw in raws :: -1 <= raw.index < |hs|
  {
    if |raws| == 0 then []
    else
      var s := Render(hs, raws[|raws| - 1]);
      RenderVisible(hs, raws[..|raws| - 1]) + if Visible(s) then [s] else []
  }

  /** What the sections of a document body are. */
  function SectionsOf(body: string): seq<Section> {
    var lines := Lines(body);
    RenderVisible(Headings(lines), RawSections(lines))
  }

  // ------------------------------------------------- facts about the spec

  ghost predicate FromEnclosing(hs: seq<Heading>, i: nat, n: nat, h: Heading)
    requires i < |hs| && n <= i + 1
  {
    exists j :: 0 <= j < n && Encloses(hs, j, i) && h == hs[j]
  }

  /** Enclosing headings are nested: their levels strictly increase. */
  lemma {:induction false} AncestorsNest(hs: seq<Heading>, i: nat, n: nat)
    requires i < |hs| && n <= i + 1
    ensures forall a, b :: 0 <= a < b < |Ancestors(hs, i, n)| ==>
              Ancestors(hs, i, n)[a].level < Ancestors(hs, i, n)[b].level
    ensures forall h :: h in Ancestors(hs, i, n) <==> FromEnclosing(hs, i, n, h)
  {
    if n > 0 {
      var front := Ancestors(hs, i, n - 1);
      AncestorsNest(hs, i, n - 1);
      forall h | FromEnclosing(hs, i, n - 1, h)
        ensures FromEnclosing(hs, i, n, h)
        ensures h.level < hs[n - 1].level
      {
        var j :| 0 <= j < n - 1 && Encloses(hs, j, i) && h == hs[j];
      }
      forall h | FromEnclosing(hs, i, n, h)
        ensures h in Ancestors(hs, i, n)
      {
        var j :| 0 <= j < n && Encloses(hs, j, i) && h == hs[j];
        assert j < n - 1 ==> FromEnclosing(hs, i, n - 1, h);
      }
      forall a | 0 <= a < |front|
        ensures front[a].level < hs[n - 1].level
      {
        assert front[a] in front;
      }
    }
  }

  /** The path of heading i ends with heading i itself. */
  lemma {:induction false} PathEndsHere(hs: seq<Heading>, i: nat)
    requires i < |hs|
    ensures Ancestors(hs, i, i + 1) == Ancestors(hs, i, i) + [hs[i]]
  {
    assert Encloses(hs, i, i);
  }

  lemma {:induction false} AncestorsStable(hs: seq<Heading>, h: Heading, i: nat, n: nat)
    requires i < |hs| && n <= i + 1
    ensures Ancestors(hs + [h], i, n) == Ancestors(hs, i, n)
  {
    if n > 0 {
      AncestorsStable(hs, h, i, n - 1);
      assert forall k :: 0 <= k <= i ==> (hs + [h])[k] == hs[k];
    }
  }

  lemma {:induction false} AncestorsIncrease(hs: seq<Heading>, i: nat, n: nat)
    requires i < |hs| && n <= i + 1
    ensures forall a, b :: 0 <= a < b < |Ancestors(hs, i, n)| ==>
              Ancestors(hs, i, n)[a].level < Ancestors(hs, i, n)[b].level
  {
    AncestorsNest(hs, i, n);
  }

  function Below(path: seq<Heading>, level: nat): seq<Heading> {
    if |path| == 0 then []
    else Below(path[..|path| - 1], level) + if path[|path| - 1].level < level then [path[|path| - 1]] else []
  }

  lemma {:induction false} StillEncloses(hs: seq<Heading>, h: Heading, j: nat)
    requires j < |hs|
    ensures Encloses(hs + [h], j, |hs|) == (Encloses(hs, j, |hs| - 1) && hs[j].level < h.level)
  {
    var next := hs + [h];
    assert forall k :: 0 <= k < |hs| ==> next[k] == hs[k];
    assert next[|hs|] == h;
    if Encloses(next, j, |hs|) {
      assert forall k :: j < k <= |hs| ==> next[j].level < next[k].level;
    }
  }

  /** A new heading keeps exactly the open headings of smaller level. */
  lemma {:induction false} NextHeading(hs: seq<Heading>, h: Heading, n: nat)
    requires |hs| > 0 && n <= |hs|
    ensures Ancestors(hs + [h], |hs|, n) == Below(Ancestors(hs, |hs| - 1, n), h.level)
  {
    if n > 0 {
      NextHeading(hs, h, n - 1);
      StillEncloses(hs, h, n - 1);
      var front := Ancestors(hs, |hs| - 1, n - 1);
      assert (front + [hs[n - 1]])[..|front|] == front;
      assert (front + []) == front;
    }
  }

  /** On a strictly increasing stack, popping from the end is filtering. */
  lemma {:induction false} PopIsBelow(path: seq<Heading>, level: nat, n: nat)
    requires forall a, b :: 0 <= a < b < |path| ==> path[a].level < path[b].level
    requires n <= |path|
    requires n > 0 ==> path[n - 1].level < level
    requires forall a :: n <= a < |path| ==> path[a].level >= level
    ensures Below(path, level) == path[..n]
  {
    if |path| > 0 {
      var front := path[..|path| - 1];
      if n < |path| {
        PopIsBelow(front, level, n);
        assert front[..n] == path[..n];
      } else {
        if n > 1 { assert path[n - 2].level < path[n - 1].level; }
        PopIsBelow(front, level, n - 1);
        assert path[..n] == front + [path[n - 1]];
      }
    }
  }

  lemma {:induction false} RenderStable(hs: seq<Heading>, h: Heading, raws: seq<Raw>)
    requires forall raw | raw in raws :: -1 <= raw.index < |hs|
    ensures RenderVisible(hs + [h], raws) == RenderVisible(hs, raws)
  {
    if |raws| > 0 {
      var raw := raws[|raws| - 1];
      RenderStable(hs, h, raws[..|raws| - 1]);
      if raw.index >= 0 {
        AncestorsStable(hs, h, raw.index, raw.index + 1);
      }
    }
  }

  function BodyLines(lines: seq<string>): seq<string> {
    if |lines| == 0 then []
    else BodyLines(lines[..|lines| - 1]) + if ParseHeading(lines[|lines| - 1]).Some? then [] else [lines[|lines| - 1]]
  }

  function AllBodies(raws: seq<Raw>): seq<string> {
    if |raws| == 0 then [] else AllBodies(raws[..|raws| - 1]) + raws[|raws| - 1].body
  }

  /** Every body line lands in exactly one section, and the order is kept. */
  lemma {:induction false} EveryLineOnce(lines: seq<string>)
    ensures AllBodies(RawSections(lines)) == BodyLines(lines)
  {
    if |lines| == 0 {
      assert RawSections(lines) == [Raw(-1, [])];
      assert AllBodies([Raw(-1, [])]) == AllBodies([]) + [];
    } else {
      var front := RawSections(lines[..|lines| - 1]);
      var raws := RawSections(lines);
      EveryLineOnce(lines[..|lines| - 1]);
      if ParseHeading(lines[|lines| - 1]).Some? {
        assert raws[..|raws| - 1] == front;
      } else {
        assert raws[..|raws| - 1] == front[..|front| - 1];
      }
    }
  }

  // --------------------------------------------------------- the algorithm

  function OnlyVisible(out: seq<Section>): seq<Section> {
    if |out| == 0 then []
    else OnlyVisible(out[..|out| - 1]) + if Visible(out[|out| - 1]) then [out[|out| - 1]] else []
  }

  /** Closes the section being read; the very first one is kept even when blank. */
  method Flush(out: seq<Section>, heading: string, path: seq<string>, buf: seq<string>) returns (r: seq<Section>)
    ensures var s := Section(heading, path, Trim(Join(buf, "\n")));
            OnlyVisible(r) == OnlyVisible(out) + if Visible(s) then [s] else []
  {
    var text := Trim(Join(buf, "\n"));
    r := out;
    if text != "" || heading != "" || |out| == 0 {
      r := out + [Section(heading, path, text)];
      assert r[..|r| - 1] == out;
    }
  }

  /** After popping to height n, pushing h gives the path of the new heading. */
  lemma {:induction false} OpenHeading(hs: seq<Heading>, h: Heading, open: seq<Heading>, n: nat)
    requires hs == [] ==> open == []
    requires hs != [] ==> open == Ancestors(hs, |hs| - 1, |hs|)
    requires n <= |open|
    requires n > 0 ==> open[n - 1].level < h.level
    requires forall a :: n <= a < |open| ==> open[a].level >= h.level
    ensures Ancestors(hs + [h], |hs|, |hs| + 1) == open[..n] + [h]
  {
    PathEndsHere(hs + [h], |hs|);
    assert (hs + [h])[|hs|] == h;
    if hs != [] {
      NextHeading(hs, h, |hs|);
      AncestorsIncrease(hs, |hs| - 1, |hs|);
      PopIsBelow(open, h.level, n);
    }
  }

  /** How one more line changes the headings and the raw sections. */
  lemma {:induction false} NextLine(lines: seq<string>, n: nat)
    requires n < |lines|
    ensures var raws := RawSections(lines[..n]);
            var last := |raws| - 1;
            match ParseHeading(lines[n])
            case Some(h) =>
              && Headings(lines[..n + 1]) == Headings(lines[..n]) + [h]
              && RawSections(lines[..n + 1]) == raws + [Raw(last, [])]
            case None =>
              && Headings(lines[..n + 1]) == Headings(lines[..n])
              && RawSections(lines[..n + 1]) == raws[..last] + [Raw(last - 1, raws[last].body + [lines[n]])]
  {
    assert lines[..n + 1][..n] == lines[..n] && lines[..n + 1][n] == lines[n];
  }

  /** The stack, path and heading a reader of the first lines must hold. */
  ghost predicate Open(hs: seq<Heading>, stack: seq<Heading>, heading: string, path: seq<string>) {
    && stack == (if hs == [] then [] else Ancestors(hs, |hs| - 1, |hs|))
    && path == Names(stack)
    && heading == (if hs == [] then "" else hs[|hs| - 1].name)
  }

  /** Closing the current section renders the current raw section. */
  lemma {:induction false} CloseCurrent(hs: seq<Heading>, raws: seq<Raw>, stack: seq<Heading>, heading: string,
                                        path: seq<string>)
    requires Open(hs, stack, heading, path)
    requires |raws| == |hs| + 1 && forall i :: 0 <= i < |raws| ==> raws[i].index == i - 1
    ensures var s := Section(heading, path, Trim(Join(raws[|hs|].body, "\n")));
            RenderVisible(hs, raws) == RenderVisible(hs, raws[..|hs|]) + if Visible(s) then [s] else []
  {
    assert raws[..|raws| - 1] == raws[..|hs|];
  }

  method PopOpen(stack: seq<Heading>, level: nat) returns (rest: seq<Heading>)
    ensures rest <= stack
    ensures |rest| > 0 ==> rest[|rest| - 1].level < level
    ensures forall a :: |rest| <= a < |stack| ==> stack[a].level >= level
  {
    rest := stack;
    while |rest| > 0 && rest[|rest| - 1].level >= level
      invariant rest <= stack
      invariant forall a :: |rest| <= a < |stack| ==> stack[a].level >= level
    {
      rest := rest[..|rest| - 1];
    }
  }

  /** The state of the reader after n lines. */
  datatype Reader = Reader(out: seq<Section>, stack: seq<Heading>, heading: string, path: seq<string>, buf: seq<string>)

  ghost predicate Reading(lines: seq<string>, n: nat, r: Reader)
    requires n <= |lines|
  {
    var hs, raws := Headings(lines[..n]), RawSections(lines[..n]);
    && Open(hs, r.stack, r.heading, r.path)
    && r.buf == raws[|hs|].body
    && OnlyVisible(r.out) == RenderVisible(hs, raws[..|hs|])
  }

  lemma {:induction false} OpenAfter(hs: seq<Heading>, h: Heading, stack: seq<Heading>, heading: string,
                                     path: seq<string>, rest: seq<Heading>)
    requires Open(hs, stack, heading, path)
    requires rest <= stack
    requires |rest| > 0 ==> rest[|rest| - 1].level < h.level
    requires forall a :: |rest| <= a < |stack| ==> stack[a].level >= h.level
    ensures Open(hs + [h], rest + [h], h.name, Names(rest + [h]))
  {
    OpenHeading(hs, h, stack, |rest|);
    assert rest == stack[..|rest|];
  }

  lemma {:induction false} AfterHeading(lines: seq<string>, n: nat, r: Reader, out: seq<Section>, rest: seq<Heading>)
    requires n < |lines| && Reading(lines, n, r) && ParseHeading(lines[n]).Some?
    requires OnlyVisible(out) == RenderVisible(Headings(lines[..n]), RawSections(lines[..n]))
    requires Open(Headings(lines[..n + 1]), rest, ParseHeading(lines[n]).value.name, Names(rest))
    ensures Reading(lines, n + 1, Reader(out, rest, ParseHeading(lines[n]).value.name, Names(rest), []))
  {
    var h := ParseHeading(lines[n]).value;
    var hs, raws := Headings(lines[..n]), RawSections(lines[..n]);
    NextLine(lines, n);
    RenderStable(hs, h, raws);
    assert RawSections(lines[..n + 1])[..|hs| + 1] == raws;
  }

  lemma {:induction false} AfterBody(lines: seq<string>, n: nat, r: Reader)
    requires n < |lines| && Reading(lines, n, r) && ParseHeading(lines[n]).None?
    ensures Reading(lines, n + 1, r.(buf := r.buf + [lines[n]]))
  {
    var hs, raws := Headings(lines[..n]), RawSections(lines[..n]);
    NextLine(lines, n);
    assert RawSections(lines[..n + 1])[..|hs|] == raws[..|hs|];
  }

  lemma {:induction false} HeadingOpens(lines: seq<string>, n: nat, r: Reader, rest: seq<Heading>)
    requires n < |lines| && Reading(lines, n, r) && ParseHeading(lines[n]).Some?
    requires rest <= r.stack && (|rest| > 0 ==> rest[|rest| - 1].level < ParseHeading(lines[n]).value.level)
    requires forall a :: |rest| <= a < |r.stack| ==> r.stack[a].level >= ParseHeading(lines[n]).value.level
    ensures var h := ParseHeading(lines[n]).value;
            Open(Headings(lines[..n + 1]), rest + [h], h.name, Names(rest + [h]))
  {
    NextLine(lines, n);
    OpenAfter(Headings(lines[..n]), ParseHeading(lines[n]).value, r.stack, r.heading, r.path, rest);
  }

  /** A heading line closes the section being read and opens the next one. */
  method ReadHeading(r: Reader, line: string, hashes: nat, ghost lines: seq<string>, ghost n: nat)
    returns (next: Reader)
    requires n < |lines| && line == lines[n] && Reading(lines, n, r)
    requires hashes == Hashes(line) && 0 < hashes < |line| && line[hashes] == ' '
    ensures Reading(lines, n + 1, next)
  {
    CloseCurrent(Headings(lines[..n]), RawSections(lines[..n]), r.stack, r.heading, r.path);
    var out := Flush(r.out, r.heading, r.path, r.buf);
    var stack := PopOpen(r.stack, hashes);
    var name := Trim(line[hashes + 1..]);
    assert ParseHeading(lines[n]) == Some(Heading(hashes, name));
    HeadingOpens(lines, n, r, stack);
    stack := stack + [Heading(hashes, name)];
    AfterHeading(lines, n, r, out, stack);
    next := Reader(out, stack, name, Names(stack), []);
  }

  method SplitSections(body: string) returns (sections: seq<Section>)
    ensures sections == SectionsOf(body)
  {
    var lines := Lines(body);
    var r := Reader([], [], "", [], []);
    for n := 0 to |lines|
      invariant Reading(lines, n, r)
    {
      var line := lines[n];
      var hashes := Hashes(line);
      if hashes > 0 && hashes < |line| && line[hashes] == ' ' {
        r := ReadHeading(r, line, hashes, lines, n);
      } else {
        AfterBody(lines, n, r);
        r := r.(buf := r.buf + [line]);
      }
    }
    assert lines[..|lines|] == lines;
    CloseCurrent(Headings(lines), RawSections(lines), r.stack, r.heading, r.path);
    var out := Flush(r.out, r.heading, r.path, r.buf);
    sections := OnlyVisible(out);
  }

  // ------------------------------------------ the sections of a text, line by line

  /** The line is a heading of this level and name. */
  predicate HeadingText(line: string, level: nat, name: string) {
    && 1 <= level < |line| && line[level] == ' ' && (forall i | 0 <= i < level :: line[i] == '#')
    && name == Trim(line[level + 1..])
  }

  lemma {:induction false} HashesAre(line: string, n: nat)
    requires n < |line| && line[n] != '#' && forall i :: 0 <= i < n ==> line[i] == '#'
    ensures Hashes(line) == n
  {
    if n > 0 {
      HashesAre(line[1..], n - 1);
    }
  }

  lemma {:induction false} HeadingMeaning(line: string)
    ensures forall level, name :: ParseHeading(line) == Some(Heading(level, name)) <==> HeadingText(line, level, name)
  {
    forall level: nat, name | HeadingText(line, level, name)
      ensures level == Hashes(line)
    {
      HashesAre(line, level);
    }
  }

  ghost predicate IsHeading(line: string) {
    exists level, name :: HeadingText(line, level, name)
  }

  /** The heading in line j encloses line a: no heading after it, up to a, is of its level or above. */
  ghost predicate EnclosesLine(lines: seq<string>, j: nat, a: nat)
    requires j <= a < |lines|
  {
    exists level, name :: HeadingText(lines[j], level, name) && DeeperAfter(lines, j, a, level)
  }

  ghost predicate DeeperAfter(lines: seq<string>, j: nat, a: nat, level: nat)
    requires j <= a < |lines|
  {
    forall k, deeper, other :: j < k <= a && HeadingText(lines[k], deeper, other) ==> level < deeper
  }

  /** The names of the headings that enclose line a, in order. */
  ghost predicate PathTo(lines: seq<string>, a: nat, path: seq<string>)
    requires a < |lines|
  {
    exists js: seq<nat> :: PathAlong(lines, a, path, js)
  }

  ghost predicate PathAlong(lines: seq<string>, a: nat, path: seq<string>, js: seq<nat>)
    requires a < |lines|
  {
    && |js| == |path| && (forall i, k :: 0 <= i < k < |js| ==> js[i] < js[k])
    && (forall i :: 0 <= i < |js| ==> js[i] <= a && exists level :: HeadingText(lines[js[i]], level, path[i]))
    && (forall j :: 0 <= j <= a ==> (j in js <==> EnclosesLine(lines, j, a)))
  }

  /** Lines a + 1 to b - 1 are the section that the heading in line a starts, or the text before any. */
  ghost predicate SectionAt(lines: seq<string>, a: int, b: nat, s: Section) {
    && -1 <= a < b <= |lines|
    && (forall k :: a < k < b ==> !IsHeading(lines[k])) && (b < |lines| ==> IsHeading(lines[b]))
    && s.text == Trim(Join(lines[a + 1..b], "\n"))
    && if a == -1 then s.heading == "" && s.headingPath == []
       else (exists level :: HeadingText(lines[a], level, s.heading)) && PathTo(lines, a, s.headingPath)
  }

  /** Where the headings are. */
  function HeadingLines(lines: seq<string>): (places: seq<nat>)
    ensures |places| == |Headings(lines)|
  {
    if |lines| == 0 then []
    else
      var n := |lines| - 1;
      HeadingLines(lines[..n]) + if ParseHeading(lines[n]).Some? then [n] else []
  }

  predicate PlaceParses(lines: seq<string>, i: nat)
    requires i < |Headings(lines)|
  {
    HeadingLines(lines)[i] < |lines| && ParseHeading(lines[HeadingLines(lines)[i]]) == Some(Headings(lines)[i])
  }

  ghost predicate PlacesSorted(lines: seq<string>) {
    forall i, k :: 0 <= i < k < |HeadingLines(lines)| ==> HeadingLines(lines)[i] < HeadingLines(lines)[k]
  }

  ghost predicate PlacesAll(lines: seq<string>) {
    forall k :: 0 <= k < |lines| ==> (k in HeadingLines(lines) <==> ParseHeading(lines[k]).Some?)
  }

  /** The places are in order, and they are those of the headings. */
  ghost predicate PlacesOk(lines: seq<string>) {
    && (forall i :: 0 <= i < |Headings(lines)| ==> PlaceParses(lines, i))
    && PlacesSorted(lines) && PlacesAll(lines)
  }

  /** The line after which the i-th raw section starts, and the one at which it ends. */
  function StartOf(lines: seq<string>, i: nat): int
    requires i <= |Headings(lines)|
  {
    if i == 0 then -1 else HeadingLines(lines)[i - 1]
  }

  function EndOf(lines: seq<string>, i: nat): nat
    requires i <= |Headings(lines)|
  {
    if i == |Headings(lines)| then |lines| else HeadingLines(lines)[i]
  }

  /** The i-th raw section's body is the lines of its place. */
  predicate BodyOk(lines: seq<string>, i: nat)
    requires i <= |Headings(lines)|
  {
    && -1 <= StartOf(lines, i) < EndOf(lines, i) <= |lines|
    && RawSections(lines)[i].body == lines[StartOf(lines, i) + 1..EndOf(lines, i)]
  }

  /** One more line: a heading starts a section, any other line joins the last one. */
  lemma {:induction false} LineAdded(front: seq<string>, line: string)
    ensures var lines, n := front + [line], |Headings(front)|;
            if ParseHeading(line).Some? then
              && |Headings(lines)| == n + 1 && HeadingLines(lines) == HeadingLines(front) + [|front|]
              && RawSections(lines) == RawSections(front) + [Raw(n, [])]
            else
              && |Headings(lines)| == n && HeadingLines(lines) == HeadingLines(front)
              && |RawSections(front)| == n + 1
              && RawSections(lines) == RawSections(front)[..n] +
                                       [Raw(RawSections(front)[n].index, RawSections(front)[n].body + [line])]
  {
    var lines := front + [line];
    assert lines[..|lines| - 1] == front && lines[|lines| - 1] == line;
  }

  lemma {:induction false} PlaceParsesNext(front: seq<string>, line: string, i: nat)
    requires PlacesOk(front) && i < |Headings(front + [line])|
    ensures PlaceParses(front + [line], i)
  {
    LineAdded(front, line);
    HeadingsAdded(front, line, i);
    if i < |Headings(front)| {
      assert PlaceParses(front, i);
    }
  }

  lemma {:induction false} PlacesWithin(lines: seq<string>)
    requires PlacesOk(lines)
    ensures forall i :: 0 <= i < |HeadingLines(lines)| ==> HeadingLines(lines)[i] < |lines|
  {
    forall i | 0 <= i < |HeadingLines(lines)|
      ensures HeadingLines(lines)[i] < |lines|
    {
      assert PlaceParses(lines, i);
    }
  }

  lemma {:induction false} PlacesSortedNext(front: seq<string>, line: string)
    requires PlacesOk(front)
    ensures PlacesSorted(front + [line])
  {
    LineAdded(front, line);
    PlacesWithin(front);
  }

  lemma {:induction false} PlacesAllNext(front: seq<string>, line: string)
    requires PlacesOk(front)
    ensures PlacesAll(front + [line])
  {
    LineAdded(front, line);
    PlacesWithin(front);
    assert forall k :: 0 <= k < |front| ==> (front + [line])[k] == front[k];
  }

  lemma {:induction false} PlacesNext(front: seq<string>, line: string)
    requires PlacesOk(front)
    ensures PlacesOk(front + [line])
  {
    PlacesSortedNext(front, line);
    PlacesAllNext(front, line);
    forall i | 0 <= i < |Headings(front + [line])|
      ensures PlaceParses(front + [line], i)
    {
      PlaceParsesNext(front, line, i);
    }
  }

  lemma {:induction false} HeadingsAdded(front: seq<string>, line: string, i: nat)
    requires i < |Headings(front + [line])|
    ensures if i < |Headings(front)| then Headings(front + [line])[i] == Headings(front)[i]
            else i == |Headings(front)| && ParseHeading(line) == Some(Headings(front + [line])[i])
  {
    var lines := front + [line];
    assert lines[..|lines| - 1] == front && lines[|lines| - 1] == line;
  }

  lemma {:induction false} PlacesHold(lines: seq<string>)
    ensures PlacesOk(lines)
  {
    if |lines| > 0 {
      var front, line := lines[..|lines| - 1], lines[|lines| - 1];
      assert lines == front + [line];
      PlacesHold(front);
      PlacesNext(front, line);
    }
  }

  lemma {:induction false} BodyKept(front: seq<string>, line: string, i: nat)
    requires i <= |Headings(front)| && BodyOk(front, i)
    requires ParseHeading(line).Some? || i < |Headings(front)|
    ensures i <= |Headings(front + [line])| && BodyOk(front + [line], i)
  {
    LineAdded(front, line);
    var lines, a, b := front + [line], StartOf(front, i), EndOf(front, i);
    assert StartOf(lines, i) == a && EndOf(lines, i) == b;
    assert lines[a + 1..b] == front[a + 1..b];
  }

  lemma {:induction false} BodyNew(front: seq<string>, line: string)
    requires ParseHeading(line).Some?
    ensures BodyOk(front + [line], |Headings(front + [line])|)
  {
    LineAdded(front, line);
  }

  lemma {:induction false} BodyGrows(front: seq<string>, line: string)
    requires ParseHeading(line).None? && BodyOk(front, |Headings(front)|)
    ensures BodyOk(front + [line], |Headings(front + [line])|)
  {
    LineAdded(front, line);
    var lines, start := front + [line], StartOf(front, |Headings(front)|);
    assert StartOf(lines, |Headings(lines)|) == start;
    assert lines[start + 1..|lines|] == front[start + 1..|front|] + [line];
  }

  lemma {:induction false} RawBodies(lines: seq<string>)
    ensures forall i :: 0 <= i <= |Headings(lines)| ==> BodyOk(lines, i)
  {
    if |lines| > 0 {
      var front, line := lines[..|lines| - 1], lines[|lines| - 1];
      assert lines == front + [line];
      RawBodies(front);
      LineAdded(front, line);
      forall i | 0 <= i <= |Headings(lines)|
        ensures BodyOk(lines, i)
      {
        if i > |Headings(front)| {
          BodyNew(front, line);
        } else if ParseHeading(line).Some? || i < |Headings(front)| {
          BodyKept(front, line, i);
        } else {
          BodyGrows(front, line);
        }
      }
    }
  }

  /** Which of the headings up to the i-th enclose it, by their number. */
  function AncestorPlaces(hs: seq<Heading>, i: nat, n: nat): seq<nat>
    requires i < |hs| && n <= i + 1
  {
    if n == 0 then []
    else AncestorPlaces(hs, i, n - 1) + if Encloses(hs, n - 1, i) then [n - 1] else []
  }

  lemma {:induction false} AncestorPlacesHold(hs: seq<Heading>, i: nat, n: nat)
    requires i < |hs| && n <= i + 1
    ensures var js := AncestorPlaces(hs, i, n);
            && |js| == |Ancestors(hs, i, n)|
            && (forall k :: 0 <= k < |js| ==> js[k] < n && hs[js[k]] == Ancestors(hs, i, n)[k])
            && (forall k, l :: 0 <= k < l < |js| ==> js[k] < js[l])
            && (forall j :: 0 <= j < n ==> (j in js <==> Encloses(hs, j, i)))
  {
    if n > 0 {
      AncestorPlacesHold(hs, i, n - 1);
    }
  }

  lemma {:induction false} PlacesCompare(lines: seq<string>, i: nat, k: nat)
    requires i < |Headings(lines)| && k < |Headings(lines)|
    ensures HeadingLines(lines)[i] < |lines| && HeadingLines(lines)[k] < |lines|
    ensures i < k <==> HeadingLines(lines)[i] < HeadingLines(lines)[k]
    ensures i == k <==> HeadingLines(lines)[i] == HeadingLines(lines)[k]
  {
    PlacesHold(lines);
    assert PlaceParses(lines, i) && PlaceParses(lines, k);
  }

  lemma {:induction false} PlaceIs(lines: seq<string>, i: nat)
    requires i < |Headings(lines)|
    ensures var h, place := Headings(lines)[i], HeadingLines(lines)[i];
            place < |lines| && forall level, name :: HeadingText(lines[place], level, name) <==>
                h == Heading(level, name)
  {
    PlacesHold(lines);
    assert PlaceParses(lines, i);
    HeadingMeaning(lines[HeadingLines(lines)[i]]);
  }

  lemma {:induction false} PlaceFound(lines: seq<string>, k: nat, level: nat, name: string) returns (m: nat)
    requires k < |lines| && HeadingText(lines[k], level, name)
    ensures m < |Headings(lines)| && HeadingLines(lines)[m] == k && Headings(lines)[m] == Heading(level, name)
  {
    PlacesHold(lines);
    HeadingMeaning(lines[k]);
    m :| 0 <= m < |HeadingLines(lines)| && HeadingLines(lines)[m] == k;
    assert PlaceParses(lines, m);
  }

  lemma {:induction false} DeeperThere(lines: seq<string>, j: nat, i: nat)
    requires j <= i < |Headings(lines)| && Encloses(Headings(lines), j, i)
    ensures HeadingLines(lines)[j] <= HeadingLines(lines)[i] < |lines|
    ensures DeeperAfter(lines, HeadingLines(lines)[j], HeadingLines(lines)[i], Headings(lines)[j].level)
  {
    PlacesCompare(lines, j, i);
    var a, b := HeadingLines(lines)[j], HeadingLines(lines)[i];
    forall k, deeper: nat, other | a < k <= b && HeadingText(lines[k], deeper, other)
      ensures Headings(lines)[j].level < deeper
    {
      var m := PlaceFound(lines, k, deeper, other);
      PlacesCompare(lines, j, m);
      PlacesCompare(lines, m, i);
    }
  }

  /** Enclosing by number is enclosing by line. */
  lemma {:induction false} EnclosesThere(lines: seq<string>, j: nat, i: nat)
    requires j <= i < |Headings(lines)| && Encloses(Headings(lines), j, i)
    ensures HeadingLines(lines)[j] <= HeadingLines(lines)[i] < |lines|
    ensures EnclosesLine(lines, HeadingLines(lines)[j], HeadingLines(lines)[i])
  {
    DeeperThere(lines, j, i);
    PlaceIs(lines, j);
    assert HeadingText(lines[HeadingLines(lines)[j]], Headings(lines)[j].level, Headings(lines)[j].name);
  }

  lemma {:induction false} DeeperHere(lines: seq<string>, j: nat, i: nat, m: nat, level: nat)
    requires j < m <= i < |Headings(lines)| && HeadingLines(lines)[j] <= HeadingLines(lines)[i] < |lines|
    requires DeeperAfter(lines, HeadingLines(lines)[j], HeadingLines(lines)[i], level)
    ensures level < Headings(lines)[m].level
  {
    PlacesCompare(lines, j, m);
    PlacesCompare(lines, m, i);
    PlaceIs(lines, m);
    assert HeadingLines(lines)[j] < HeadingLines(lines)[m] <= HeadingLines(lines)[i];
    assert HeadingText(lines[HeadingLines(lines)[m]], Headings(lines)[m].level, Headings(lines)[m].name);
  }

  lemma {:induction false} EnclosesHere(lines: seq<string>, j: nat, i: nat)
    requires j <= i < |Headings(lines)| && HeadingLines(lines)[j] <= HeadingLines(lines)[i] < |lines|
    requires EnclosesLine(lines, HeadingLines(lines)[j], HeadingLines(lines)[i])
    ensures Encloses(Headings(lines), j, i)
  {
    var a := HeadingLines(lines)[j];
    var level: nat, name :| HeadingText(lines[a], level, name) && DeeperAfter(lines, a, HeadingLines(lines)[i], level);
    PlaceIs(lines, j);
    forall m | j < m <= i
      ensures Headings(lines)[j].level < Headings(lines)[m].level
    {
      DeeperHere(lines, j, i, m, level);
    }
  }

  lemma {:induction false} AlongNames(lines: seq<string>, i: nat, numbers: seq<nat>, js: seq<nat>, path: seq<string>)
    requires i < |Headings(lines)| && |numbers| == |js| == |path|
    requires forall k :: 0 <= k < |numbers| ==> numbers[k] <= i && js[k] == HeadingLines(lines)[numbers[k]] &&
                                                path[k] == Headings(lines)[numbers[k]].name
    requires forall k, l :: 0 <= k < l < |numbers| ==> numbers[k] < numbers[l]
    ensures forall k, l :: 0 <= k < l < |js| ==> js[k] < js[l]
    ensures forall k :: 0 <= k < |js| ==>
              js[k] <= HeadingLines(lines)[i] && js[k] < |lines| &&
                  exists level :: HeadingText(lines[js[k]], level, path[k])
  {
    forall k, l | 0 <= k < l < |js|
      ensures js[k] < js[l]
    {
      PlacesCompare(lines, numbers[k], numbers[l]);
    }
    forall k | 0 <= k < |js|
      ensures js[k] <= HeadingLines(lines)[i] && js[k] < |lines| &&
              exists level :: HeadingText(lines[js[k]], level, path[k])
    {
      PlaceIs(lines, numbers[k]);
      PlacesCompare(lines, numbers[k], i);
      assert HeadingText(lines[js[k]], Headings(lines)[numbers[k]].level, path[k]);
    }
  }

  lemma {:induction false} AlongMembers(lines: seq<string>, i: nat, numbers: seq<nat>, js: seq<nat>, j: nat)
    requires i < |Headings(lines)| && |numbers| == |js| && j <= HeadingLines(lines)[i] < |lines|
    requires forall k :: 0 <= k < |numbers| ==> numbers[k] <= i && js[k] == HeadingLines(lines)[numbers[k]]
    requires forall m :: 0 <= m <= i ==> (m in numbers <==> Encloses(Headings(lines), m, i))
    ensures j in js <==> EnclosesLine(lines, j, HeadingLines(lines)[i])
  {
    if j in js {
      var k :| 0 <= k < |js| && js[k] == j;
      assert numbers[k] in numbers;
      EnclosesThere(lines, numbers[k], i);
    }
    if EnclosesLine(lines, j, HeadingLines(lines)[i]) {
      var level: nat, name :| HeadingText(lines[j], level, name);
      var m := PlaceFound(lines, j, level, name);
      PlacesCompare(lines, m, i);
      EnclosesHere(lines, m, i);
      var k :| 0 <= k < |numbers| && numbers[k] == m;
      assert js[k] == j;
    }
  }

  lemma {:induction false} AlongAll(lines: seq<string>, i: nat, numbers: seq<nat>, js: seq<nat>, path: seq<string>)
    requires i < |Headings(lines)| && |numbers| == |js| == |path|
    requires forall k :: 0 <= k < |numbers| ==> numbers[k] <= i && js[k] == HeadingLines(lines)[numbers[k]] &&
                                                path[k] == Headings(lines)[numbers[k]].name
    requires forall k, l :: 0 <= k < l < |numbers| ==> numbers[k] < numbers[l]
    requires forall m :: 0 <= m <= i ==> (m in numbers <==> Encloses(Headings(lines), m, i))
    ensures HeadingLines(lines)[i] < |lines| && PathAlong(lines, HeadingLines(lines)[i], path, js)
  {
    PlacesCompare(lines, i, i);
    AlongNames(lines, i, numbers, js, path);
    forall j | 0 <= j <= HeadingLines(lines)[i]
      ensures j in js <==> EnclosesLine(lines, j, HeadingLines(lines)[i])
    {
      AlongMembers(lines, i, numbers, js, j);
    }
  }

  lemma {:induction false} PathFound(lines: seq<string>, i: nat)
    requires i < |Headings(lines)|
    ensures HeadingLines(lines)[i] < |lines|
    ensures PathTo(lines, HeadingLines(lines)[i], Names(Ancestors(Headings(lines), i, i + 1)))
  {
    var numbers, path := AncestorPlaces(Headings(lines), i, i + 1), Names(Ancestors(Headings(lines), i, i + 1));
    AncestorPlacesHold(Headings(lines), i, i + 1);
    var js: seq<nat> := seq(|numbers|, k requires 0 <= k < |numbers| => HeadingLines(lines)[numbers[k]]);
    AlongAll(lines, i, numbers, js, path);
  }

  lemma {:induction false} NoHeadingBetween(lines: seq<string>, i: nat, k: nat)
    requires i <= |Headings(lines)| && StartOf(lines, i) < k < EndOf(lines, i) && k < |lines|
    ensures !IsHeading(lines[k])
  {
    if IsHeading(lines[k]) {
      var level: nat, name :| HeadingText(lines[k], level, name);
      var m := PlaceFound(lines, k, level, name);
      if i < |Headings(lines)| {
        PlacesCompare(lines, m, i);
      }
      if i > 0 {
        PlacesCompare(lines, i - 1, m);
      }
    }
  }

  lemma {:induction false} HeadingAt(lines: seq<string>, i: nat)
    requires i < |Headings(lines)|
    ensures HeadingLines(lines)[i] < |lines| && IsHeading(lines[HeadingLines(lines)[i]])
    ensures exists level :: HeadingText(lines[HeadingLines(lines)[i]], level, Headings(lines)[i].name)
  {
    PlaceIs(lines, i);
    assert HeadingText(lines[HeadingLines(lines)[i]], Headings(lines)[i].level, Headings(lines)[i].name);
  }

  /** The i-th raw section, rendered, is the section of its lines. */
  lemma {:induction false} RenderedAt(lines: seq<string>, i: nat)
    requires i <= |Headings(lines)|
    ensures SectionAt(lines, StartOf(lines, i), EndOf(lines, i), Render(Headings(lines), RawSections(lines)[i]))
  {
    RawBodies(lines);
    assert BodyOk(lines, i);
    forall k | StartOf(lines, i) < k < EndOf(lines, i)
      ensures !IsHeading(lines[k])
    {
      NoHeadingBetween(lines, i, k);
    }
    if i < |Headings(lines)| {
      HeadingAt(lines, i);
    }
    RenderedStart(lines, i);
  }

  lemma {:induction false} RenderedStart(lines: seq<string>, i: nat)
    requires i <= |Headings(lines)|
    ensures var a, s := StartOf(lines, i), Render(Headings(lines), RawSections(lines)[i]);
            && s.text == Trim(Join(RawSections(lines)[i].body, "\n"))
            && if a == -1 then s.heading == "" && s.headingPath == []
               else 0 <= a < |lines| && (exists level :: HeadingText(lines[a], level, s.heading)) &&
                    PathTo(lines, a, s.headingPath)
  {
    if i > 0 {
      HeadingAt(lines, i - 1);
      PathFound(lines, i - 1);
    }
  }

  lemma {:induction false} RenderedMembers(hs: seq<Heading>, raws: seq<Raw>)
    requires forall raw | raw in raws :: -1 <= raw.index < |hs|
    ensures forall s :: s in RenderVisible(hs, raws) <==>
              Visible(s) && exists i :: 0 <= i < |raws| && s == Render(hs, raws[i])
  {
    if |raws| > 0 {
      var front := raws[..|raws| - 1];
      RenderedMembers(hs, front);
      assert forall i :: 0 <= i < |front| ==> raws[i] == front[i];
    }
  }

  /** A section's lines end where they must. */
  lemma {:induction false} EndDetermined(lines: seq<string>, a: int, b: nat, c: nat, s: Section, t: Section)
    requires SectionAt(lines, a, b, s) && SectionAt(lines, a, c, t)
    ensures b == c
  {
  }

  lemma {:induction false} EnclosesSame(lines: seq<string>, a: nat, path: seq<string>, other: seq<string>)
    requires a < |lines| && PathTo(lines, a, path) && PathTo(lines, a, other)
    ensures path == other
  {
    var js: seq<nat> :| PathAlong(lines, a, path, js);
    var ks: seq<nat> :| PathAlong(lines, a, other, ks);
    forall j
      ensures j in js <==> j in ks
    {
      if j in js || j in ks {
        assert 0 <= j <= a;
      }
    }
    SameIncreasing(js, ks);
    forall i | 0 <= i < |js|
      ensures path[i] == other[i]
    {
      var level: nat :| HeadingText(lines[js[i]], level, path[i]);
      var level': nat :| HeadingText(lines[ks[i]], level', other[i]);
      HeadingMeaning(lines[js[i]]);
    }
  }

  lemma {:induction false} SomeMember(js: seq<nat>) returns (j: nat)
    requires |js| > 0
    ensures j in js
  {
    j := js[0];
  }

  lemma {:induction false} SameIncreasing(js: seq<nat>, ks: seq<nat>)
    requires forall i, k :: 0 <= i < k < |js| ==> js[i] < js[k]
    requires forall i, k :: 0 <= i < k < |ks| ==> ks[i] < ks[k]
    requires forall j :: j in js <==> j in ks
    ensures js == ks
  {
    if |js| == 0 {
      if |ks| > 0 {
        var _ := SomeMember(ks);
      }
    } else {
      var n, m := |js| - 1, |ks| - 1;
      assert js[n] in js;
      var k :| 0 <= k < |ks| && ks[k] == js[n];
      assert ks[m] in ks;
      var l :| 0 <= l < |js| && js[l] == ks[m];
      assert l <= n && k <= m;
      LastDropped(js, ks, js[..n], ks[..m]);
      LastDropped(ks, js, ks[..m], js[..n]);
      SameIncreasing(js[..n], ks[..m]);
    }
  }

  lemma {:induction false} LastDropped(js: seq<nat>, ks: seq<nat>, js': seq<nat>, ks': seq<nat>)
    requires |js| > 0 && |ks| > 0 && js[|js| - 1] == ks[|ks| - 1]
    requires js' == js[..|js| - 1] && ks' == ks[..|ks| - 1]
    requires forall i, k :: 0 <= i < k < |js| ==> js[i] < js[k]
    requires forall j :: j in js ==> j in ks
    ensures forall j :: j in js' ==> j in ks'
  {
    forall j | j in js'
      ensures j in ks'
    {
      var i :| 0 <= i < |js| - 1 && js[i] == j;
      assert j in js;
      var k :| 0 <= k < |ks| && ks[k] == j;
      assert ks'[k] == j;
    }
  }

  /** There is one section to a place. */
  lemma {:induction false} SectionDetermined(lines: seq<string>, a: int, b: nat, s: Section, t: Section)
    requires SectionAt(lines, a, b, s) && SectionAt(lines, a, b, t)
    ensures s == t
  {
    if a >= 0 {
      EnclosesSame(lines, a, s.headingPath, t.headingPath);
      HeadingMeaning(lines[a]);
    }
  }

  /** The sections of a body are those of its headings and the text before them, unless they are empty. */
  lemma {:induction false} SectionsMeaning(body: string, s: Section)
    ensures s in SectionsOf(body) <==>
            (s.text != "" || s.heading != "") && exists a, b :: SectionAt(Lines(body), a, b, s)
  {
    var lines := Lines(body);
    var hs, raws := Headings(lines), RawSections(lines);
    RenderedMembers(hs, raws);
    if s in SectionsOf(body) {
      var i :| 0 <= i < |raws| && s == Render(hs, raws[i]);
      RenderedAt(lines, i);
    }
    if a, b :| SectionAt(lines, a, b, s) {
      var i := NumberOf(lines, a);
      RenderedAt(lines, i);
      EndDetermined(lines, a, b, EndOf(lines, i), s, Render(hs, raws[i]));
      SectionDetermined(lines, a, b, s, Render(hs, raws[i]));
    }
  }

  lemma {:induction false} NumberOf(lines: seq<string>, a: int) returns (i: nat)
    requires -1 <= a < |lines| && (a >= 0 ==> IsHeading(lines[a]))
    ensures i <= |Headings(lines)| && StartOf(lines, i) == a
  {
    if a == -1 {
      i := 0;
    } else {
      var level: nat, name :| HeadingText(lines[a], level, name);
      var m := PlaceFound(lines, a, level, name);
      i := m + 1;
    }
  }
}
