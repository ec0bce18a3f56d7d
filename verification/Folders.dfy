/**
 The Memory folder tree and the walks over it: the Markdown listing and the
 layout check, made separately or in one capture pass
 (src/knowledge/catalog.rs:40-60, 83-123, 534-632).
 */
module Folders {
  import opened Lists
  import opened Ordering
  import opened Records
  import opened Strings
  import opened Wrappers

  /** Components below `guruterminal/`; the first one is the kind folder. */
  type Path = seq<string>

  /** What symlink_metadata and read_dir report; Locked cannot be listed, Vanished has no metadata. */
  datatype Node = File | Directory(entries: seq<Entry>) | Locked | Symlink | Special | Vanished

  datatype Entry = Entry(name: string, node: Node)

  function Display(path: Path): string {
    var joined := "guruterminal/" + Join(path, "/");
    seq(|joined|, i requires 0 <= i < |joined| => if joined[i] == '\\' then '/' else joined[i])
  }

  /** The extension is "md"; a name that is only ".md" has none. */
  predicate IsMarkdown(name: string) {
    |name| > 3 && name[|name| - 3..] == ".md"
  }

  function LayoutIssue(path: Path, problem: Problem): seq<Issue> {
    [Issue(Display(path), "layout", problem)]
  }

  // -------------------------------------------------- what each walk finds

  function MarkdownAt(path: Path, node: Node): seq<Path>
    requires |path| > 0
    decreases node, 2, 0
  {
    if node.File? then (if IsMarkdown(path[|path| - 1]) then [path] else []) else MarkdownBelow(path, node)
  }

  function MarkdownBelow(path: Path, node: Node): seq<Path>
    requires |path| > 0
    decreases node, 1, 0
  {
    if node.Directory? then MarkdownIn(path, node, |node.entries|) else []
  }

  function MarkdownIn(path: Path, node: Node, n: nat): seq<Path>
    requires |path| > 0 && node.Directory? && n <= |node.entries|
    decreases node, 0, n
  {
    if n == 0 then []
    else
      var entry := node.entries[n - 1];
      MarkdownIn(path, node, n - 1) + MarkdownAt(path + [entry.name], entry.node)
  }

  function LayoutAt(path: Path, node: Node): seq<Issue>
    requires |path| > 0
    decreases node, 2, 0
  {
    match node
    case Symlink => LayoutIssue(path, IsSymlink)
    case File => if IsMarkdown(path[|path| - 1]) then [] else LayoutIssue(path, NotMarkdown)
    case Special => LayoutIssue(path, NotMarkdown)
    case _ => LayoutBelow(path, node)
  }

  function LayoutBelow(path: Path, node: Node): seq<Issue>
    requires |path| > 0
    decreases node, 1, 0
  {
    if node.Directory? then LayoutIn(path, node, |node.entries|) else []
  }

  function LayoutIn(path: Path, node: Node, n: nat): seq<Issue>
    requires |path| > 0 && node.Directory? && n <= |node.entries|
    decreases node, 0, n
  {
    if n == 0 then []
    else
      var entry := node.entries[n - 1];
      LayoutIn(path, node, n - 1) + LayoutAt(path + [entry.name], entry.node)
  }

  // --------------------------------------------------------- the three walks

  method CollectMarkdownFiles(path: Path, node: Node, out: seq<Path>) returns (found: seq<Path>)
    requires |path| > 0
    ensures found == out + MarkdownBelow(path, node)
    decreases node
  {
    found := out;
    if !node.Directory? {
      return;
    }
    for i := 0 to |node.entries|
      invariant found == out + MarkdownIn(path, node, i)
    {
      var entry := node.entries[i];
      match entry.node {
        case File => if IsMarkdown(entry.name) { found := found + [path + [entry.name]]; }
        case _ => found := CollectMarkdownFiles(path + [entry.name], entry.node, found);
      }
    }
  }

  method CollectLayoutIssues(path: Path, node: Node, issues: seq<Issue>) returns (found: seq<Issue>)
    requires |path| > 0
    ensures found == issues + LayoutBelow(path, node)
    decreases node
  {
    found := issues;
    if !node.Directory? {
      return;
    }
    for i := 0 to |node.entries|
      invariant found == issues + LayoutIn(path, node, i)
    {
      var entry := node.entries[i];
      var at := path + [entry.name];
      match entry.node {
        case Vanished =>
        case Symlink => found := found + LayoutIssue(at, IsSymlink);
        case Directory(_) => found := CollectLayoutIssues(at, entry.node, found);
        case Locked => found := CollectLayoutIssues(at, entry.node, found);
        case File => if !IsMarkdown(entry.name) { found := found + LayoutIssue(at, NotMarkdown); }
        case Special => found := found + LayoutIssue(at, NotMarkdown);
      }
    }
  }

  /** One walk finds what the two separate walks find. */
  method CollectContextPaths(path: Path, node: Node, paths: seq<Path>, issues: seq<Issue>)
    returns (foundPaths: seq<Path>, foundIssues: seq<Issue>)
    requires |path| > 0
    ensures foundPaths == paths + MarkdownBelow(path, node)
    ensures foundIssues == issues + LayoutBelow(path, node)
    decreases node
  {
    foundPaths, foundIssues := paths, issues;
    if !node.Directory? {
      return;
    }
    for i := 0 to |node.entries|
      invariant foundPaths == paths + MarkdownIn(path, node, i)
      invariant foundIssues == issues + LayoutIn(path, node, i)
    {
      var entry := node.entries[i];
      var at := path + [entry.name];
      match entry.node {
        case Vanished =>
        case Symlink => foundIssues := foundIssues + LayoutIssue(at, IsSymlink);
        case Directory(_) => foundPaths, foundIssues := CollectContextPaths(at, entry.node, foundPaths, foundIssues);
        case Locked => foundPaths, foundIssues := CollectContextPaths(at, entry.node, foundPaths, foundIssues);
        case File =>
          if IsMarkdown(entry.name) {
            foundPaths := foundPaths + [at];
          } else {
            foundIssues := foundIssues + LayoutIssue(at, NotMarkdown);
          }
        case Special => foundIssues := foundIssues + LayoutIssue(at, NotMarkdown);
      }
    }
  }

  // -------------------------------------------------------- whole Memory tree

  /** The kind folders, by name. */
  type Tree = string -> Node

  function Walk(tree: Tree): string -> seq<Path> {
    (slug: string) => MarkdownBelow([slug], tree(slug))
  }

  function FolderLayout(tree: Tree): string -> seq<Issue> {
    (slug: string) =>
      match tree(slug)
      case Vanished => []
      case Directory(_) => LayoutBelow([slug], tree(slug))
      case Locked => []
      case _ => LayoutIssue([slug], NotDirectory)
  }

  const KIND_SLUGS: seq<string> := ["wiki", "lens", "evidence", "decision"]
  const SORTED_SLUGS: seq<string> := ["decision", "evidence", "lens", "wiki"]

  function Distinct(names: seq<string>): seq<string> {
    if |names| == 0 then []
    else
      var front, last := names[..|names| - 1], names[|names| - 1];
      Distinct(front) + if last in front then [] else [last]
  }

  /** The BTreeSet of requested kind folders; no request means all of them. */
  function Directories(kinds: seq<string>): seq<string> {
    if kinds == [] then SORTED_SLUGS else Sort(StringLess, Distinct(kinds))
  }

  /** The Markdown files of the requested kinds, sorted by path. */
  function LocalMarkdown(tree: Tree, kinds: seq<string>): seq<Path> {
    Sort(StringsLess, Flatten(Map(Walk(tree), Directories(kinds))))
  }

  function Layout(tree: Tree): seq<Issue> {
    Flatten(Map(FolderLayout(tree), KIND_SLUGS))
  }

  method LocalMarkdownFilesForKinds(tree: Tree, kinds: seq<string>) returns (paths: seq<Path>)
    ensures paths == LocalMarkdown(tree, kinds)
  {
    var directories := Directories(kinds);
    paths := [];
    for i := 0 to |directories|
      invariant paths == Flatten(Map(Walk(tree), directories[..i]))
    {
      FlattenMapNext(Walk(tree), directories, i);
      paths := CollectMarkdownFiles([directories[i]], tree(directories[i]), paths);
    }
    assert directories[..|directories|] == directories;
    paths := Sort(StringsLess, paths);
  }

  method LayoutIssues(tree: Tree) returns (issues: seq<Issue>)
    ensures issues == Layout(tree)
  {
    issues := [];
    for i := 0 to |KIND_SLUGS|
      invariant issues == Flatten(Map(FolderLayout(tree), KIND_SLUGS[..i]))
    {
      var slug := KIND_SLUGS[i];
      FlattenMapNext(FolderLayout(tree), KIND_SLUGS, i);
      var node := tree(slug);
      if !node.Vanished? && !node.Directory? && !node.Locked? {
        issues := issues + LayoutIssue([slug], NotDirectory);
        continue;
      }
      issues := CollectLayoutIssues([slug], node, issues);
    }
    assert KIND_SLUGS[..|KIND_SLUGS|] == KIND_SLUGS;
  }

  /** The walk of the capture: paths sorted as in the listing, issues as in the check. */
  method CapturePaths(tree: Tree) returns (paths: seq<Path>, issues: seq<Issue>)
    ensures paths == LocalMarkdown(tree, [])
    ensures issues == Layout(tree)
  {
    paths, issues := [], [];
    for i := 0 to |KIND_SLUGS|
      invariant paths == Flatten(Map(Walk(tree), KIND_SLUGS[..i]))
      invariant issues == Flatten(Map(FolderLayout(tree), KIND_SLUGS[..i]))
    {
      var slug := KIND_SLUGS[i];
      FlattenMapNext(Walk(tree), KIND_SLUGS, i);
      FlattenMapNext(FolderLayout(tree), KIND_SLUGS, i);
      var node := tree(slug);
      if !node.Vanished? && !node.Directory? && !node.Locked? {
        issues := issues + LayoutIssue([slug], NotDirectory);
        continue;
      }
      paths, issues := CollectContextPaths([slug], node, paths, issues);
    }
    assert KIND_SLUGS[..|KIND_SLUGS|] == KIND_SLUGS;
    CaptureOrder(Walk(tree));
    StringOrdersTotal();
    SortIgnoresOrder(StringsLess, paths, Flatten(Map(Walk(tree), SORTED_SLUGS)));
    paths := Sort(StringsLess, paths);
  }

  lemma {:induction false} FlattenFour<T>(a: seq<T>, b: seq<T>, c: seq<T>, d: seq<T>)
    ensures Flatten([a, b, c, d]) == a + b + c + d
  {
    assert [a][..0] == [] && [] + a == a && Flatten([a]) == a;
    assert [a, b][..1] == [a] && Flatten([a, b]) == a + b;
    assert [a, b, c][..2] == [a, b] && Flatten([a, b, c]) == a + b + c;
    assert [a, b, c, d][..3] == [a, b, c];
  }

  /** Visiting the kinds in another order finds the same paths. */
  lemma {:induction false} CaptureOrder(walk: string -> seq<Path>)
    ensures multiset(Flatten(Map(walk, KIND_SLUGS))) == multiset(Flatten(Map(walk, SORTED_SLUGS)))
  {
    var w, l, e, d := walk("wiki"), walk("lens"), walk("evidence"), walk("decision");
    assert Map(walk, KIND_SLUGS) == [w, l, e, d];
    assert Map(walk, SORTED_SLUGS) == [d, e, l, w];
    FlattenFour(w, l, e, d);
    FlattenFour(d, e, l, w);
    assert multiset(w + l + e + d) == multiset(w) + multiset(l) + multiset(e) + multiset(d);
    assert multiset(d + e + l + w) == multiset(d) + multiset(e) + multiset(l) + multiset(w);
  }

  // -------------------------------------------------- kinds and kind folders

  predicate KnownKinds(kinds: seq<string>) {
    forall kind :: kind in kinds ==> FromSlug(kind).Some?
  }

  predicate Wanted(kinds: seq<string>, slug: string) {
    kinds == [] || slug in kinds
  }

  function WantedFolder(kinds: seq<string>): string -> bool {
    (slug: string) => Wanted(kinds, slug)
  }

  function UnderKinds(kinds: seq<string>): Path -> bool {
    (path: Path) => |path| > 0 && Wanted(kinds, path[0])
  }

  lemma {:induction false} BelowIsRooted(path: Path, node: Node)
    requires |path| > 0
    ensures forall p :: p in MarkdownBelow(path, node) ==> |p| > 0 && p[0] == path[0]
    decreases node, 1, 0
  {
    if node.Directory? {
      InIsRooted(path, node, |node.entries|);
    }
  }

  lemma {:induction false} InIsRooted(path: Path, node: Node, n: nat)
    requires |path| > 0 && node.Directory? && n <= |node.entries|
    ensures forall p :: p in MarkdownIn(path, node, n) ==> |p| > 0 && p[0] == path[0]
    decreases node, 0, n
  {
    if n > 0 {
      InIsRooted(path, node, n - 1);
      BelowIsRooted(path + [node.entries[n - 1].name], node.entries[n - 1].node);
    }
  }

  /** Keeping the paths of some folders is walking only those folders. */
  lemma {:induction false} WalkWanted(tree: Tree, kinds: seq<string>, slugs: seq<string>)
    ensures Flatten(Map(Walk(tree), Filter(WantedFolder(kinds), slugs))) ==
            Filter(UnderKinds(kinds), Flatten(Map(Walk(tree), slugs)))
  {
    if |slugs| == 0 {
      assert Filter(WantedFolder(kinds), slugs) == [] && Map(Walk(tree), slugs) == [];
      assert Flatten(Map(Walk(tree), slugs)) == [];
    } else {
      var front, last := slugs[..|slugs| - 1], slugs[|slugs| - 1];
      assert slugs == front + [last];
      WalkWanted(tree, kinds, front);
      WalkNext(tree, kinds, front, last);
    }
  }

  lemma {:induction false} WalkNext(tree: Tree, kinds: seq<string>, front: seq<string>, last: string)
    requires Flatten(Map(Walk(tree), Filter(WantedFolder(kinds), front))) ==
             Filter(UnderKinds(kinds), Flatten(Map(Walk(tree), front)))
    ensures Flatten(Map(Walk(tree), Filter(WantedFolder(kinds), front + [last]))) ==
            Filter(UnderKinds(kinds), Flatten(Map(Walk(tree), front + [last])))
  {
    var walked := Flatten(Map(Walk(tree), front));
    FlattenMapSnoc(Walk(tree), front, last);
    FilterConcat(UnderKinds(kinds), walked, Walk(tree)(last));
    WalkOne(tree, kinds, last);
    if Wanted(kinds, last) {
      FilterNext(WantedFolder(kinds), front, last);
      FlattenMapSnoc(Walk(tree), Filter(WantedFolder(kinds), front), last);
    } else {
      FilterSkip(WantedFolder(kinds), front, last);
      assert Filter(UnderKinds(kinds), walked) + [] == Filter(UnderKinds(kinds), walked);
    }
  }

  lemma {:induction false} WalkOne(tree: Tree, kinds: seq<string>, slug: string)
    ensures Filter(UnderKinds(kinds), Walk(tree)(slug)) == if Wanted(kinds, slug) then Walk(tree)(slug) else []
  {
    BelowIsRooted([slug], tree(slug));
    if Wanted(kinds, slug) {
      FilterAll(UnderKinds(kinds), Walk(tree)(slug));
    } else {
      FilterNone(UnderKinds(kinds), Walk(tree)(slug));
    }
  }

  lemma {:induction false} DistinctOnce(names: seq<string>)
    ensures forall name :: multiset(Distinct(names))[name] == if name in names then 1 else 0
  {
    if |names| > 0 {
      var front, last := names[..|names| - 1], names[|names| - 1];
      DistinctOnce(front);
      assert names == front + [last];
    }
  }

  lemma {:induction false} SlugsSorted()
    ensures Sorted(StringLess, SORTED_SLUGS)
  {
    forall i, j | 0 <= i < j < 4
      ensures !StringLess(SORTED_SLUGS[j], SORTED_SLUGS[i])
    {
      assert SORTED_SLUGS[i][0] < SORTED_SLUGS[j][0];
    }
  }

  lemma {:induction false} SlugsOnce()
    ensures forall slug :: FromSlug(slug).Some? <==> slug in SORTED_SLUGS
    ensures forall slug :: multiset(SORTED_SLUGS)[slug] == if slug in SORTED_SLUGS then 1 else 0
  {
  }

  /** Requested folders are visited in the sorted order of all folders. */
  lemma {:induction false} DirectoriesWanted(kinds: seq<string>)
    requires KnownKinds(kinds)
    ensures Directories(kinds) == Filter(WantedFolder(kinds), SORTED_SLUGS)
  {
    if kinds == [] {
      FilterAll(WantedFolder(kinds), SORTED_SLUGS);
    } else {
      StringOrdersTotal();
      TotalIsWeak(StringLess);
      SlugsSorted();
      FilterSorted(StringLess, WantedFolder(kinds), SORTED_SLUGS);
      SortSorts(StringLess, Distinct(kinds));
      DistinctMatches(kinds);
      SortedUnique(StringLess, Sort(StringLess, Distinct(kinds)), Filter(WantedFolder(kinds), SORTED_SLUGS));
    }
  }

  lemma {:induction false} DistinctMatches(kinds: seq<string>)
    requires KnownKinds(kinds) && kinds != []
    ensures multiset(Distinct(kinds)) == multiset(Filter(WantedFolder(kinds), SORTED_SLUGS))
  {
    SlugsOnce();
    DistinctOnce(kinds);
    FilterMultiset(WantedFolder(kinds), SORTED_SLUGS);
    var distinct, kept := Distinct(kinds), Filter(WantedFolder(kinds), SORTED_SLUGS);
    assert forall name :: multiset(distinct)[name] == multiset(kept)[name];
  }

  /** Listing some kinds is listing all of them and keeping those kinds' paths. */
  lemma {:induction false} ListingByKind(tree: Tree, kinds: seq<string>)
    requires KnownKinds(kinds)
    ensures LocalMarkdown(tree, kinds) == Filter(UnderKinds(kinds), LocalMarkdown(tree, []))
  {
    DirectoriesWanted(kinds);
    WalkWanted(tree, kinds, SORTED_SLUGS);
    StringOrdersTotal();
    FilterSort(StringsLess, UnderKinds(kinds), Flatten(Map(Walk(tree), SORTED_SLUGS)));
  }

  lemma {:induction false} ListedPathsRooted(tree: Tree, kinds: seq<string>, path: Path)
    requires KnownKinds(kinds) && path in LocalMarkdown(tree, kinds)
    ensures |path| > 0 && Wanted(kinds, path[0])
  {
    ListingByKind(tree, kinds);
  }
}
