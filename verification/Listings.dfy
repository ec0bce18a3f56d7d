/**
 What the walks over a folder tree find, whatever the order in which directories
 are listed (src/knowledge/catalog.rs:83-123, 554-632).
 */
module Listings {
  import opened Folders
  import opened Lists
  import opened Ordering
  import opened Records
  import Strings

  // ------------------------------------------------------- walks in general

  /** What one node contributes to a walk. */
  type Finder<T> = (Path, Node) -> seq<T>

  /** A walk in listing order: a node's own contribution, then its entries'. */
  function FoundAt<T>(at: Finder<T>, path: Path, node: Node): seq<T>
    decreases node, 2, 0
  {
    at(path, node) + FoundBelow(at, path, node)
  }

  function FoundBelow<T>(at: Finder<T>, path: Path, node: Node): seq<T>
    decreases node, 1, 0
  {
    if node.Directory? then FoundIn(at, path, node, |node.entries|) else []
  }

  function FoundIn<T>(at: Finder<T>, path: Path, node: Node, n: nat): seq<T>
    requires node.Directory? && n <= |node.entries|
    decreases node, 0, n
  {
    if n == 0 then []
    else
      var entry := node.entries[n - 1];
      FoundIn(at, path, node, n - 1) + FoundAt(at, path + [entry.name], entry.node)
  }

  /** Going down these names from a node, through directories, ends at the target. */
  ghost predicate Reaches(node: Node, names: seq<string>, target: Node)
    decreases |names|
  {
    if names == [] then node == target
    else
      node.Directory? &&
      exists entry :: entry in node.entries && entry.name == names[0] && Reaches(entry.node, names[1..], target)
  }

  ghost predicate IsFound<T>(at: Finder<T>, path: Path, node: Node, x: T) {
    exists names, target :: Reaches(node, names, target) && x in at(path + names, target)
  }

  ghost predicate IsFoundIn<T>(at: Finder<T>, path: Path, node: Node, n: nat, x: T)
    requires node.Directory? && n <= |node.entries|
  {
    exists k :: 0 <= k < n && IsFound(at, path + [node.entries[k].name], node.entries[k].node, x)
  }

  lemma {:induction false} FoundBelowEntry<T>(at: Finder<T>, path: Path, node: Node, x: T)
    requires node.Directory?
    ensures IsFoundIn(at, path, node, |node.entries|, x) ==>
              exists names, target :: names != [] && Reaches(node, names, target) && x in at(path + names, target)
    ensures (exists names, target :: names != [] && Reaches(node, names, target) && x in at(path + names, target)) ==>
              IsFoundIn(at, path, node, |node.entries|, x)
  {
    if IsFoundIn(at, path, node, |node.entries|, x) {
      var k :| 0 <= k < |node.entries| && IsFound(at, path + [node.entries[k].name], node.entries[k].node, x);
      var entry := node.entries[k];
      var names, target :| Reaches(entry.node, names, target) && x in at(path + [entry.name] + names, target);
      var longer := [entry.name] + names;
      assert longer[1..] == names && path + [entry.name] + names == path + longer;
      assert entry in node.entries && Reaches(node, longer, target);
    }
    if names, target :| names != [] && Reaches(node, names, target) && x in at(path + names, target) {
      var entry :| entry in node.entries && entry.name == names[0] && Reaches(entry.node, names[1..], target);
      var k :| 0 <= k < |node.entries| && node.entries[k] == entry;
      assert path + names == path + [entry.name] + names[1..];
      assert IsFound(at, path + [entry.name], entry.node, x);
    }
  }

  /** A walk finds exactly what the nodes it can reach contribute. */
  lemma {:induction false} FoundMeaning<T>(at: Finder<T>, path: Path, node: Node, x: T)
    ensures x in FoundAt(at, path, node) <==> IsFound(at, path, node, x)
    decreases node, 1, 0
  {
    assert Reaches(node, [], node) && path + [] == path;
    if node.Directory? {
      FoundInMeaning(at, path, node, |node.entries|, x);
      FoundBelowEntry(at, path, node, x);
    }
  }

  lemma {:induction false} FoundInMeaning<T>(at: Finder<T>, path: Path, node: Node, n: nat, x: T)
    requires node.Directory? && n <= |node.entries|
    ensures x in FoundIn(at, path, node, n) <==> IsFoundIn(at, path, node, n, x)
    decreases node, 0, n
  {
    if n > 0 {
      var entry := node.entries[n - 1];
      FoundInMeaning(at, path, node, n - 1, x);
      FoundMeaning(at, path + [entry.name], entry.node, x);
    }
  }

  // ------------------------------------------------ directories listed anew

  function Minus(entries: seq<Entry>, j: nat): seq<Entry>
    requires j < |entries|
  {
    entries[..j] + entries[j + 1..]
  }

  /** The same tree, every directory listed in any order. */
  ghost predicate Relisted(a: Node, b: Node)
    decreases a, 1, 0
  {
    if a.Directory? && b.Directory? then RelistedFrom(a, |a.entries|, b.entries) else a == b
  }

  /** The first n entries of a are these entries, in some order, each relisted. */
  ghost predicate RelistedFrom(a: Node, n: nat, entries: seq<Entry>)
    requires a.Directory? && n <= |a.entries|
    decreases a, 0, n
  {
    if n == 0 then entries == []
    else
      exists j :: 0 <= j < |entries| && entries[j].name == a.entries[n - 1].name &&
                  Relisted(a.entries[n - 1].node, entries[j].node) && RelistedFrom(a, n - 1, Minus(entries, j))
  }

  /** A directory contributes the same whatever its entries and their order. */
  ghost predicate Shallow<T(!new)>(at: Finder<T>) {
    forall path, es, fs :: at(path, Directory(es)) == at(path, Directory(fs))
  }

  lemma {:induction false} FoundInSame<T>(at: Finder<T>, path: Path, a: Node, b: Node, n: nat)
    requires a.Directory? && b.Directory? && n <= |a.entries| && n <= |b.entries| && a.entries[..n] == b.entries[..n]
    ensures FoundIn(at, path, a, n) == FoundIn(at, path, b, n)
    decreases n
  {
    if n > 0 {
      assert a.entries[..n][..n - 1] == a.entries[..n - 1] && b.entries[..n][..n - 1] == b.entries[..n - 1];
      assert a.entries[n - 1] == a.entries[..n][n - 1] == b.entries[n - 1];
      FoundInSame(at, path, a, b, n - 1);
    }
  }

  lemma {:induction false} FoundSnoc<T>(at: Finder<T>, path: Path, front: seq<Entry>, last: Entry)
    ensures FoundBelow(at, path, Directory(front + [last])) ==
            FoundBelow(at, path, Directory(front)) + FoundAt(at, path + [last.name], last.node)
  {
    assert (front + [last])[..|front|] == front && front[..|front|] == front;
    FoundInSame(at, path, Directory(front + [last]), Directory(front), |front|);
  }

  lemma {:induction false} FoundMinus<T>(at: Finder<T>, path: Path, entries: seq<Entry>, j: nat)
    requires j < |entries|
    ensures multiset(FoundBelow(at, path, Directory(entries))) ==
            multiset(FoundBelow(at, path, Directory(Minus(entries, j)))) +
            multiset(FoundAt(at, path + [entries[j].name], entries[j].node))
    decreases |entries|
  {
    var front, last := entries[..|entries| - 1], entries[|entries| - 1];
    assert entries == front + [last];
    FoundSnoc(at, path, front, last);
    if j < |front| {
      FoundMinus(at, path, front, j);
      assert Minus(entries, j) == Minus(front, j) + [last];
      FoundSnoc(at, path, Minus(front, j), last);
    } else {
      assert Minus(entries, j) == front;
    }
  }

  /** A walk over a relisted tree finds the same, each as often. */
  lemma {:induction false} RelistedFinds<T(!new)>(at: Finder<T>, path: Path, a: Node, b: Node)
    requires Shallow(at) && Relisted(a, b)
    ensures multiset(FoundAt(at, path, a)) == multiset(FoundAt(at, path, b))
    ensures multiset(FoundBelow(at, path, a)) == multiset(FoundBelow(at, path, b))
    decreases a, 1, 0
  {
    if a.Directory? && b.Directory? {
      RelistedFindsFrom(at, path, a, |a.entries|, b.entries);
      assert b == Directory(b.entries) && a == Directory(a.entries);
    }
  }

  lemma {:induction false} RelistedFindsFrom<T(!new)>(at: Finder<T>, path: Path, a: Node, n: nat, entries: seq<Entry>)
    requires a.Directory? && n <= |a.entries| && Shallow(at) && RelistedFrom(a, n, entries)
    ensures multiset(FoundIn(at, path, a, n)) == multiset(FoundBelow(at, path, Directory(entries)))
    decreases a, 0, n
  {
    if n > 0 {
      var entry := a.entries[n - 1];
      var j :| 0 <= j < |entries| && entries[j].name == entry.name && Relisted(entry.node, entries[j].node) &&
               RelistedFrom(a, n - 1, Minus(entries, j));
      RelistedFindsFrom(at, path, a, n - 1, Minus(entries, j));
      RelistedFinds(at, path + [entry.name], entry.node, entries[j].node);
      FoundMinus(at, path, entries, j);
    }
  }

  // ------------------------------------------ the listing and the layout check

  predicate IsMarkdownPath(path: Path) {
    |path| > 0 && IsMarkdown(path[|path| - 1])
  }

  /** A regular file named *.md is listed. */
  function Listing(): Finder<Path> {
    (path: Path, node: Node) => if node.File? && IsMarkdownPath(path) then [path] else []
  }

  /** A symlink, or an entry that is neither directory nor Markdown file, is reported. */
  function Complaint(): Finder<Issue> {
    (path: Path, node: Node) =>
      match node
      case Symlink => LayoutIssue(path, IsSymlink)
      case Special => LayoutIssue(path, NotMarkdown)
      case File => if IsMarkdownPath(path) then [] else LayoutIssue(path, NotMarkdown)
      case _ => []
  }

  lemma {:induction false} MarkdownIsListing(path: Path, node: Node)
    requires |path| > 0
    ensures MarkdownAt(path, node) == FoundAt(Listing(), path, node)
    ensures MarkdownBelow(path, node) == FoundBelow(Listing(), path, node)
    decreases node, 1, 0
  {
    if node.Directory? {
      MarkdownInIsListing(path, node, |node.entries|);
    }
  }

  lemma {:induction false} MarkdownInIsListing(path: Path, node: Node, n: nat)
    requires |path| > 0 && node.Directory? && n <= |node.entries|
    ensures MarkdownIn(path, node, n) == FoundIn(Listing(), path, node, n)
    decreases node, 0, n
  {
    if n > 0 {
      MarkdownInIsListing(path, node, n - 1);
      MarkdownIsListing(path + [node.entries[n - 1].name], node.entries[n - 1].node);
    }
  }

  lemma {:induction false} LayoutIsComplaint(path: Path, node: Node)
    requires |path| > 0
    ensures LayoutAt(path, node) == FoundAt(Complaint(), path, node)
    ensures LayoutBelow(path, node) == FoundBelow(Complaint(), path, node)
    decreases node, 1, 0
  {
    if node.Directory? {
      LayoutInIsComplaint(path, node, |node.entries|);
    }
  }

  lemma {:induction false} LayoutInIsComplaint(path: Path, node: Node, n: nat)
    requires |path| > 0 && node.Directory? && n <= |node.entries|
    ensures LayoutIn(path, node, n) == FoundIn(Complaint(), path, node, n)
    decreases node, 0, n
  {
    if n > 0 {
      LayoutInIsComplaint(path, node, n - 1);
      LayoutIsComplaint(path + [node.entries[n - 1].name], node.entries[n - 1].node);
    }
  }

  /** A name in front of the extension md. */
  predicate MarkdownName(name: string) {
    |name| >= 4 && name[|name| - 3] == '.' && name[|name| - 2] == 'm' && name[|name| - 1] == 'd'
  }

  lemma {:induction false} MarkdownNames(name: string)
    ensures IsMarkdown(name) <==> MarkdownName(name)
  {
    if |name| >= 4 {
      assert name[|name| - 3..] == [name[|name| - 3], name[|name| - 2], name[|name| - 1]];
    }
  }

  /** A path below a folder is listed exactly when it leads through directories to a *.md file. */
  lemma {:induction false} ListedMeaning(path: Path, folder: Node, names: seq<string>)
    requires |path| > 0 && folder.Directory?
    ensures path + names in MarkdownBelow(path, folder) <==>
            names != [] && MarkdownName(names[|names| - 1]) && Reaches(folder, names, File)
  {
    var p := path + names;
    MarkdownIsListing(path, folder);
    FoundMeaning(Listing(), path, folder, p);
    if names != [] {
      MarkdownNames(names[|names| - 1]);
    }
    if IsFound(Listing(), path, folder, p) {
      var others, target :| Reaches(folder, others, target) && p in Listing()(path + others, target);
      assert others == p[|path|..] == names;
    }
    if names != [] && IsMarkdown(names[|names| - 1]) && Reaches(folder, names, File) {
      assert p[|p| - 1] == names[|names| - 1] && IsMarkdownPath(p);
      assert Listing()(p, File) == [p] && p in Listing()(p, File);
    }
  }

  /** What is wrong with an entry: it is a symlink, or neither a directory nor a Markdown file. */
  ghost predicate Objection(names: seq<string>, node: Node, problem: Problem) {
    || (node.Symlink? && problem == IsSymlink)
    || (node.Special? && problem == NotMarkdown)
    || (node.File? && problem == NotMarkdown && (names == [] || !MarkdownName(names[|names| - 1])))
  }

  lemma {:induction false} ComplaintMeaning(path: Path, names: seq<string>, node: Node, issue: Issue)
    requires |path| > 0 && (names == [] ==> node.Directory?)
    ensures issue in Complaint()(path + names, node) <==>
            issue.path == Display(path + names) && issue.field == "layout" && Objection(names, node, issue.problem)
  {
    var at := path + names;
    if names != [] {
      MarkdownNames(names[|names| - 1]);
      assert at[|at| - 1] == names[|names| - 1];
      assert IsMarkdownPath(at) <==> MarkdownName(names[|names| - 1]);
    }
    assert forall problem :: issue in LayoutIssue(at, problem) <==> issue == Issue(Display(at), "layout", problem);
  }

  /** An issue is reported exactly for what a walk through directories reaches and objects to. */
  lemma {:induction false} ReportedMeaning(path: Path, folder: Node, issue: Issue)
    requires |path| > 0 && folder.Directory?
    ensures issue in LayoutBelow(path, folder) <==>
            exists names, target :: Reaches(folder, names, target) &&
              issue.path == Display(path + names) && issue.field == "layout" && Objection(names, target, issue.problem)
  {
    LayoutIsComplaint(path, folder);
    FoundMeaning(Complaint(), path, folder, issue);
    forall names, target | Reaches(folder, names, target)
      ensures issue in Complaint()(path + names, target) <==>
              issue.path == Display(path + names) && issue.field == "layout" && Objection(names, target, issue.problem)
    {
      ComplaintMeaning(path, names, target, issue);
    }
  }

  /** How a path is shown: below "guruterminal", joined by slashes, with no backslash left. */
  lemma {:induction false} DisplayMeaning(path: Path, i: nat)
    requires i < |Display(path)|
    ensures |Display(path)| == |"guruterminal/" + Strings.Join(path, "/")|
    ensures Display(path)[i] != '\\'
    ensures ("guruterminal/" + Strings.Join(path, "/"))[i] in {Display(path)[i], '\\'}
    ensures ("guruterminal/" + Strings.Join(path, "/"))[i] == '\\' ==> Display(path)[i] == '/'
  {
  }

  predicate IsKind(slug: string) {
    slug == "wiki" || slug == "lens" || slug == "evidence" || slug == "decision"
  }

  /** A path is listed exactly if it leads from a requested kind folder to a Markdown file. */
  lemma {:induction false} LocalMeaning(tree: Tree, kinds: seq<string>, path: Path)
    ensures path in LocalMarkdown(tree, kinds) <==>
            && |path| >= 2 && (if kinds == [] then IsKind(path[0]) else path[0] in kinds)
            && MarkdownName(path[|path| - 1]) && Reaches(tree(path[0]), path[1..], File)
  {
    var walked := Flatten(Map(Walk(tree), Directories(kinds)));
    StringOrdersTotal();
    TotalIsWeak(StringsLess);
    SortSorts(StringsLess, walked);
    assert path in LocalMarkdown(tree, kinds) <==> path in multiset(walked);
    FlattenMember(Walk(tree), Directories(kinds), path);
    DirectoriesMeaning(kinds);
    forall slug
      ensures path in Walk(tree)(slug) <==>
              |path| >= 2 && path[0] == slug && MarkdownName(path[|path| - 1]) && Reaches(tree(slug), path[1..], File)
    {
      WalkMeaning(tree, slug, path);
    }
  }

  lemma {:induction false} DirectoriesMeaning(kinds: seq<string>)
    ensures forall slug :: slug in Directories(kinds) <==> if kinds == [] then IsKind(slug) else slug in kinds
  {
    if kinds != [] {
      StringOrdersTotal();
      TotalIsWeak(StringLess);
      SortSorts(StringLess, Distinct(kinds));
      DistinctMembers(kinds);
      forall slug
        ensures slug in Directories(kinds) <==> slug in kinds
      {
        assert slug in Directories(kinds) <==> slug in multiset(Distinct(kinds));
      }
    }
  }

  lemma {:induction false} DistinctMembers(names: seq<string>)
    ensures forall name :: name in Distinct(names) <==> name in names
  {
    if |names| > 0 {
      DistinctMembers(names[..|names| - 1]);
      assert names == names[..|names| - 1] + [names[|names| - 1]];
    }
  }

  lemma {:induction false} WalkMeaning(tree: Tree, slug: string, path: Path)
    ensures path in Walk(tree)(slug) <==>
            |path| >= 2 && path[0] == slug && MarkdownName(path[|path| - 1]) && Reaches(tree(slug), path[1..], File)
  {
    if tree(slug).Directory? {
      if path in Walk(tree)(slug) {
        BelowIsRooted([slug], tree(slug));
      }
      if |path| >= 1 && path[0] == slug {
        assert path == [slug] + path[1..];
        ListedMeaning([slug], tree(slug), path[1..]);
      }
    }
  }

  /** The issues of one kind folder: it is something else, or something below it is objected to. */
  ghost predicate FolderReports(tree: Tree, slug: string, issue: Issue) {
    && issue.field == "layout"
    && match tree(slug)
       case Directory(_) =>
         exists names, target ::
           && Reaches(tree(slug), names, target) && issue.path == Display([slug] + names)
           && Objection(names, target, issue.problem)
       case Vanished => false
       case Locked => false
       case _ => issue.path == Display([slug]) && issue.problem == NotDirectory
  }

  /** The layout issues are those of the four kind folders. */
  lemma {:induction false} LayoutMeaning(tree: Tree, issue: Issue)
    ensures issue in Layout(tree) <==> exists slug :: IsKind(slug) && FolderReports(tree, slug, issue)
  {
    FlattenMember(FolderLayout(tree), KIND_SLUGS, issue);
    assert forall slug :: slug in KIND_SLUGS <==> IsKind(slug);
    forall slug
      ensures issue in FolderLayout(tree)(slug) <==> FolderReports(tree, slug, issue)
    {
      if tree(slug).Directory? {
        ReportedMeaning([slug], tree(slug), issue);
      }
    }
  }

  // --------------------------------------------------- whole trees, listed anew

  ghost predicate TreeRelisted(t: Tree, u: Tree) {
    forall slug :: Relisted(t(slug), u(slug))
  }

  lemma {:induction false} FlattenKeepsMultiset<T, U(!new)>(f: T -> seq<U>, g: T -> seq<U>, s: seq<T>)
    requires forall x :: x in s ==> multiset(f(x)) == multiset(g(x))
    ensures multiset(Flatten(Map(f, s))) == multiset(Flatten(Map(g, s)))
  {
    if |s| > 0 {
      var front, last := s[..|s| - 1], s[|s| - 1];
      FlattenKeepsMultiset(f, g, front);
      assert s == front + [last] && last in s;
      FlattenMapSnoc(f, front, last);
      FlattenMapSnoc(g, front, last);
    }
  }

  /** The sorted listing does not depend on the order in which directories are listed. */
  lemma {:induction false} ListingIgnoresOrder(t: Tree, u: Tree, kinds: seq<string>)
    requires TreeRelisted(t, u)
    ensures LocalMarkdown(t, kinds) == LocalMarkdown(u, kinds)
  {
    forall slug | slug in Directories(kinds)
      ensures multiset(Walk(t)(slug)) == multiset(Walk(u)(slug))
    {
      assert Relisted(t(slug), u(slug));
      MarkdownIsListing([slug], t(slug));
      MarkdownIsListing([slug], u(slug));
      RelistedFinds(Listing(), [slug], t(slug), u(slug));
    }
    FlattenKeepsMultiset(Walk(t), Walk(u), Directories(kinds));
    StringOrdersTotal();
    SortIgnoresOrder(StringsLess, Flatten(Map(Walk(t), Directories(kinds))), Flatten(Map(Walk(u), Directories(kinds))));
  }

  /** The layout issues are the same ones, each as often. */
  lemma {:induction false} LayoutIgnoresOrder(t: Tree, u: Tree)
    requires TreeRelisted(t, u)
    ensures multiset(Layout(t)) == multiset(Layout(u))
  {
    forall slug | slug in KIND_SLUGS
      ensures multiset(FolderLayout(t)(slug)) == multiset(FolderLayout(u)(slug))
    {
      assert Relisted(t(slug), u(slug));
      LayoutIsComplaint([slug], t(slug));
      LayoutIsComplaint([slug], u(slug));
      RelistedFinds(Complaint(), [slug], t(slug), u(slug));
    }
    FlattenKeepsMultiset(FolderLayout(t), FolderLayout(u), KIND_SLUGS);
  }
}
