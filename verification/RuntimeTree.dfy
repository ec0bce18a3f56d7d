/**
 The Pi runtime tree and the stream its digest is taken of
 (apps/guruterminal/src-tauri/build.rs:120-180).
 */
module RuntimeTree {
  import opened Folders
  import opened Framing
  import opened Listings
  import opened Lists
  import opened Ordering
  import opened Strings
  import opened Wrappers

  /** What the walk meets below the root: directories, regular files, anything else. */
  datatype Visit = Folder(path: Path) | Regular(path: Path) | Refused

  function Visits(): Finder<Visit> {
    (path: Path, node: Node) =>
      match node
      case Directory(_) => [Folder(path)]
      case File => [Regular(path)]
      case _ => [Refused]
  }

  /** File contents (None: the read fails), the content digest and UTF-8 encoding. */
  datatype Runtime = Runtime(content: Path -> Option<seq<Byte>>, digest: seq<Byte> -> seq<Byte>,
                             encode: string -> seq<Byte>)

  datatype Named = Named(relative: string, record: TreeRecord)

  const FOLDER_TAG: Byte := 100
  const FILE_TAG: Byte := 102

  function Zeros(): seq<Byte> {
    seq(32, _ => 0)
  }

  predicate Readable(r: Runtime, visit: Visit) {
    match visit
    case Folder(_) => true
    case Regular(path) => r.content(path).Some?
    case Refused => false
  }

  function NamedFolder(r: Runtime, path: Path): Named {
    Named(Join(path, "/"), TreeRecord(FOLDER_TAG, r.encode(Join(path, "/")), 0, Zeros()))
  }

  function NamedFile(r: Runtime, path: Path, content: seq<Byte>): Named {
    Named(Join(path, "/"), TreeRecord(FILE_TAG, r.encode(Join(path, "/")), |content|, r.digest(content)))
  }

  function NamedOf(r: Runtime): Visit -> Named {
    (visit: Visit) =>
      match visit
      case Regular(path) => NamedFile(r, path, if r.content(path).Some? then r.content(path).value else [])
      case Folder(path) => NamedFolder(r, path)
      case Refused => NamedFolder(r, [])
  }

  ghost predicate AllReadable(r: Runtime, visits: seq<Visit>) {
    forall visit :: visit in visits ==> Readable(r, visit)
  }

  lemma {:induction false} MapConcat<T, U>(f: T -> U, a: seq<T>, b: seq<T>)
    ensures Map(f, a + b) == Map(f, a) + Map(f, b)
  {
  }

  lemma {:induction false} ReadableConcat(r: Runtime, a: seq<Visit>, b: seq<Visit>)
    ensures AllReadable(r, a + b) <==> AllReadable(r, a) && AllReadable(r, b)
  {
    if AllReadable(r, a + b) {
      forall visit | visit in a || visit in b
        ensures Readable(r, visit)
      {
        assert visit in a + b;
      }
    }
  }

  lemma {:induction false} FolderVisits(r: Runtime, path: Path, node: Node)
    requires node.Directory?
    ensures AllReadable(r, FoundAt(Visits(), path, node)) <==> AllReadable(r, FoundBelow(Visits(), path, node))
    ensures Map(NamedOf(r), FoundAt(Visits(), path, node)) ==
            [NamedFolder(r, path)] + Map(NamedOf(r), FoundBelow(Visits(), path, node))
  {
    ReadableConcat(r, [Folder(path)], FoundBelow(Visits(), path, node));
    MapConcat(NamedOf(r), [Folder(path)], FoundBelow(Visits(), path, node));
    assert Map(NamedOf(r), [Folder(path)]) == [NamedFolder(r, path)];
  }

  lemma {:induction false} LeafVisits(path: Path, node: Node)
    requires !node.Directory?
    ensures FoundAt(Visits(), path, node) == [if node.File? then Regular(path) else Refused]
  {
    assert FoundBelow(Visits(), path, node) == [];
  }

  lemma {:induction false} EntryFollows(r: Runtime, records: seq<Named>, before: seq<Visit>, next: seq<Visit>)
    ensures AllReadable(r, before + next) <==> AllReadable(r, before) && AllReadable(r, next)
    ensures records + Map(NamedOf(r), before) + Map(NamedOf(r), next) == records + Map(NamedOf(r), before + next)
  {
    ReadableConcat(r, before, next);
    MapConcat(NamedOf(r), before, next);
  }

  /** The records of one entry, or a failure. */
  method CollectEntry(r: Runtime, path: Path, node: Node, records: seq<Named>) returns (found: Option<seq<Named>>)
    ensures found.Some? <==> AllReadable(r, FoundAt(Visits(), path, node))
    ensures found.Some? ==> found.value == records + Map(NamedOf(r), FoundAt(Visits(), path, node))
    decreases node, 1
  {
    if node.Directory? {
      FolderVisits(r, path, node);
      found := CollectRuntimeRecords(r, path, node, records + [NamedFolder(r, path)]);
      return;
    }
    LeafVisits(path, node);
    assert (if node.File? then Regular(path) else Refused) in FoundAt(Visits(), path, node);
    if !node.File? || r.content(path).None? {
      return None;
    }
    assert Map(NamedOf(r), [Regular(path)]) == [NamedFile(r, path, r.content(path).value)];
    found := Some(records + [NamedFile(r, path, r.content(path).value)]);
  }

  /** `collect_runtime_records`: fails at anything but directories and readable files. */
  method CollectRuntimeRecords(r: Runtime, path: Path, node: Node, records: seq<Named>)
    returns (found: Option<seq<Named>>)
    requires node.Directory?
    ensures found.Some? <==> AllReadable(r, FoundBelow(Visits(), path, node))
    ensures found.Some? ==> found.value == records + Map(NamedOf(r), FoundBelow(Visits(), path, node))
    decreases node, 0
  {
    var all := records;
    for i := 0 to |node.entries|
      invariant AllReadable(r, FoundIn(Visits(), path, node, i))
      invariant all == records + Map(NamedOf(r), FoundIn(Visits(), path, node, i))
    {
      var entry := node.entries[i];
      var before, next := FoundIn(Visits(), path, node, i), FoundAt(Visits(), path + [entry.name], entry.node);
      EntryFollows(r, records, before, next);
      assert FoundIn(Visits(), path, node, i + 1) == before + next;
      var more := CollectEntry(r, path + [entry.name], entry.node, all);
      if more.None? {
        StaysUnreadable(r, path, node, i + 1);
        return None;
      }
      all := more.value;
    }
    found := Some(all);
  }

  lemma {:induction false} StaysUnreadable(r: Runtime, path: Path, node: Node, n: nat)
    requires node.Directory? && n <= |node.entries| && !AllReadable(r, FoundIn(Visits(), path, node, n))
    ensures !AllReadable(r, FoundBelow(Visits(), path, node))
    decreases |node.entries| - n
  {
    if n < |node.entries| {
      var visit :| visit in FoundIn(Visits(), path, node, n) && !Readable(r, visit);
      assert visit in FoundIn(Visits(), path, node, n + 1);
      StaysUnreadable(r, path, node, n + 1);
    }
  }

  predicate NameBefore(a: Named, b: Named) {
    StringLess(a.relative, b.relative)
  }

  function RecordOf(): Named -> TreeRecord {
    (named: Named) => named.record
  }

  /** The stream of a readable tree: its tagged records in the order of their names. */
  ghost function RuntimeStream(r: Runtime, root: Node): Option<seq<Byte>> {
    var visits := FoundBelow(Visits(), [], root);
    if !root.Directory? || !AllReadable(r, visits) then None
    else Some(TreeStream(Map(RecordOf(), Sort(NameBefore, Map(NamedOf(r), visits)))))
  }

  /** `runtime_tree_digest`, up to the hash itself. */
  method RuntimeTreeStream(r: Runtime, root: Node) returns (stream: Option<seq<Byte>>)
    ensures stream == RuntimeStream(r, root)
  {
    if !root.Directory? {
      return None;
    }
    var records := CollectRuntimeRecords(r, [], root, []);
    if records.None? {
      return None;
    }
    assert [] + Map(NamedOf(r), FoundBelow(Visits(), [], root)) == Map(NamedOf(r), FoundBelow(Visits(), [], root));
    var sorted := Sort(NameBefore, records.value);
    var bytes := FeedRecords(Map(RecordOf(), sorted));
    stream := Some(bytes);
  }

  // ------------------------------------------------------ the bytes, spelled out

  /** A directory's entry: 'd', its path with slashes, no size and a zero digest. */
  predicate FolderEntry(r: Runtime, path: Path, named: Named) {
    && named.relative == Join(path, "/")
    && named.record.tag as char == 'd' && named.record.path == r.encode(Join(path, "/")) && named.record.size == 0
    && |named.record.digest| == 32 && forall i | 0 <= i < 32 :: named.record.digest[i] == 0
  }

  /** A file's entry: 'f', its path with slashes, and the size and digest of its content. */
  predicate FileEntry(r: Runtime, path: Path, named: Named) {
    && named.relative == Join(path, "/")
    && named.record.tag as char == 'f' && named.record.path == r.encode(Join(path, "/"))
    && r.content(path).Some? && named.record.size == |r.content(path).value|
    && named.record.digest == r.digest(r.content(path).value)
  }

  /** The entry describes this place in the tree. */
  predicate Describes(r: Runtime, visit: Visit, named: Named) {
    match visit
    case Folder(path) => FolderEntry(r, path, named)
    case Regular(path) => FileEntry(r, path, named)
    case Refused => false
  }

  /** One entry for each directory and file, in the order of their names. */
  ghost predicate Listing(r: Runtime, visits: seq<Visit>, entries: seq<Named>) {
    && multiset(entries) == multiset(Map(NamedOf(r), visits))
    && (forall visit :: visit in visits ==> Describes(r, visit, NamedOf(r)(visit)))
    && (forall i, j :: 0 <= i < j < |entries| ==> !Precedes(entries[j].relative, entries[i].relative))
  }

  lemma {:induction false} DescribedBy(r: Runtime, visit: Visit)
    requires Readable(r, visit)
    ensures Describes(r, visit, NamedOf(r)(visit))
  {
    match visit {
      case Folder(path) => assert NamedOf(r)(Folder(path)) == NamedFolder(r, path);
      case Regular(path) => assert NamedOf(r)(Regular(path)) == NamedFile(r, path, r.content(path).value);
    }
  }

  /** A readable tree's stream is the bytes of its entries in order, and nothing else is digested. */
  lemma {:induction false} StreamMeaning(r: Runtime, root: Node)
    ensures RuntimeStream(r, root).Some? ==>
              exists entries :: Listing(r, FoundBelow(Visits(), [], root), entries) &&
                                RuntimeStream(r, root).value == TreeBytes(Map(RecordOf(), entries))
  {
    if RuntimeStream(r, root).Some? {
      var visits := FoundBelow(Visits(), [], root);
      var entries := Sort(NameBefore, Map(NamedOf(r), visits));
      NameOrder();
      SortSorts(NameBefore, Map(NamedOf(r), visits));
      forall visit | visit in visits
        ensures Describes(r, visit, NamedOf(r)(visit))
      {
        DescribedBy(r, visit);
      }
      forall i, j | 0 <= i < j < |entries|
        ensures !Precedes(entries[j].relative, entries[i].relative)
      {
        StringLessMeaning(entries[j].relative, entries[i].relative);
        assert !NameBefore(entries[j], entries[i]);
      }
      TreeStreamMeaning(Map(RecordOf(), entries));
      assert Listing(r, visits, entries);
    }
  }

  ghost predicate Admissible(r: Runtime, names: Path, target: Node) {
    target.Directory? || (target.File? && r.content(names).Some?)
  }

  lemma {:induction false} VisitOf(names: Path, target: Node)
    ensures Visits()(names, target) == [if target.Directory? then Folder(names)
                                        else if target.File? then Regular(names) else Refused]
  {
  }

  lemma {:induction false} ReachedVisit(root: Node, names: Path, target: Node, visit: Visit)
    requires root.Directory? && names != [] && Reaches(root, names, target) && visit in Visits()(names, target)
    ensures visit in FoundBelow(Visits(), [], root)
  {
    FoundInMeaning(Visits(), [], root, |root.entries|, visit);
    assert [] + names == names;
    FoundBelowEntry(Visits(), [], root, visit);
  }

  /** There is a stream exactly for a directory with nothing below it but directories and readable files. */
  lemma {:induction false} StreamExists(r: Runtime, root: Node)
    ensures RuntimeStream(r, root).Some? <==>
            && root.Directory?
            && forall names, target :: names != [] && Reaches(root, names, target) ==> Admissible(r, names, target)
  {
    if root.Directory? {
      var visits := FoundBelow(Visits(), [], root);
      if AllReadable(r, visits) {
        forall names, target | names != [] && Reaches(root, names, target)
          ensures Admissible(r, names, target)
        {
          VisitOf(names, target);
          var visit := Visits()(names, target)[0];
          ReachedVisit(root, names, target, visit);
          assert Readable(r, visit);
        }
      } else {
        var visit :| visit in visits && !Readable(r, visit);
        var names, target := VisitPlace(root, visit);
        VisitOf(names, target);
        assert !Admissible(r, names, target);
      }
    }
  }

  /** What is listed is what is reached: directories as such, files as such. */
  lemma {:induction false} VisitedPlaces(root: Node, visit: Visit)
    requires root.Directory? && visit in FoundBelow(Visits(), [], root)
    ensures match visit
            case Folder(path) => exists target :: Reaches(root, path, target) && target.Directory?
            case Regular(path) => Reaches(root, path, File)
            case Refused => true
  {
    var names, target := VisitPlace(root, visit);
    VisitOf(names, target);
  }

  // ------------------------------------------------------ order of listings

  /** What a file system promises of names: no slash, and no name twice in a directory. */
  ghost predicate NamesOnce(node: Node) {
    node.Directory? ==>
      && (forall entry :: entry in node.entries ==> '/' !in entry.name && NamesOnce(entry.node))
      && (forall e, f :: e in node.entries && f in node.entries && e.name == f.name ==> e == f)
  }

  lemma {:induction false} ReachesOnce(node: Node, names: seq<string>, a: Node, b: Node)
    requires NamesOnce(node) && Reaches(node, names, a) && Reaches(node, names, b)
    ensures a == b
    decreases |names|
  {
    if names != [] {
      var e :| e in node.entries && e.name == names[0] && Reaches(e.node, names[1..], a);
      var f :| f in node.entries && f.name == names[0] && Reaches(f.node, names[1..], b);
      assert e == f;
      ReachesOnce(e.node, names[1..], a, b);
    }
  }

  lemma {:induction false} ReachedNames(node: Node, names: seq<string>, target: Node)
    requires NamesOnce(node) && Reaches(node, names, target)
    ensures forall name :: name in names ==> '/' !in name
    decreases |names|
  {
    if names != [] {
      var e :| e in node.entries && e.name == names[0] && Reaches(e.node, names[1..], target);
      ReachedNames(e.node, names[1..], target);
      assert names == [names[0]] + names[1..];
    }
  }

  /** A visit below the root stands at one place, with slash-free names. */
  lemma {:induction false} VisitPlace(root: Node, visit: Visit) returns (names: seq<string>, target: Node)
    requires root.Directory? && visit in FoundBelow(Visits(), [], root)
    ensures names != [] && Reaches(root, names, target) && visit in Visits()(names, target)
  {
    FoundInMeaning(Visits(), [], root, |root.entries|, visit);
    FoundBelowEntry(Visits(), [], root, visit);
    names, target :| names != [] && Reaches(root, names, target) && visit in Visits()([] + names, target);
    assert [] + names == names;
  }

  lemma {:induction false} VisitName(r: Runtime, names: Path, target: Node, visit: Visit)
    requires visit in Visits()(names, target) && Readable(r, visit)
    ensures visit == if target.Directory? then Folder(names) else Regular(names)
    ensures NamedOf(r)(visit).relative == Join(names, ['/'])
  {
    assert ['/'] == "/";
    assert target.Directory? || target.File? || Visits()(names, target) == [Refused];
    match target {
      case Directory(_) => assert visit == Folder(names) && NamedOf(r)(Folder(names)) == NamedFolder(r, names);
      case File => assert visit == Regular(names);
      case _ =>
    }
  }

  /** Slash-free paths with the same joined name are the same path. */
  lemma {:induction false} JoinInjective(names: Path, others: Path)
    requires names != [] && others != [] && Join(names, ['/']) == Join(others, ['/'])
    requires (forall name :: name in names ==> '/' !in name) && (forall name :: name in others ==> '/' !in name)
    ensures names == others
  {
    SplitJoined(names, '/');
    SplitJoined(others, '/');
  }

  lemma {:induction false} SameNameSameVisit(r: Runtime, root: Node, a: Visit, b: Visit)
    requires root.Directory? && NamesOnce(root) && Readable(r, a) && Readable(r, b)
    requires a in FoundBelow(Visits(), [], root) && b in FoundBelow(Visits(), [], root)
    requires NamedOf(r)(a).relative == NamedOf(r)(b).relative
    ensures a == b
  {
    var names, target := VisitPlace(root, a);
    var others, other := VisitPlace(root, b);
    VisitName(r, names, target, a);
    VisitName(r, others, other, b);
    ReachedNames(root, names, target);
    ReachedNames(root, others, other);
    JoinInjective(names, others);
    ReachesOnce(root, names, target, other);
  }

  lemma {:induction false} NameOrder()
    ensures StrictWeak(NameBefore)
  {
    StringOrdersTotal();
    TotalIsWeak(StringLess);
    assert forall a: Named, b: Named :: NameBefore(a, b) == StringLess(a.relative, b.relative);
  }

  lemma {:induction false} NamesSeparate(r: Runtime, root: Node)
    requires root.Directory? && NamesOnce(root) && AllReadable(r, FoundBelow(Visits(), [], root))
    ensures Separates(NameBefore, Map(NamedOf(r), FoundBelow(Visits(), [], root)))
  {
    var visits := FoundBelow(Visits(), [], root);
    var named := Map(NamedOf(r), visits);
    StringOrdersTotal();
    forall x, y | x in named && y in named && x != y
      ensures NameBefore(x, y) || NameBefore(y, x)
    {
      var i :| 0 <= i < |visits| && named[i] == x;
      var j :| 0 <= j < |visits| && named[j] == y;
      assert visits[i] in visits && visits[j] in visits;
      if x.relative == y.relative {
        SameNameSameVisit(r, root, visits[i], visits[j]);
      }
    }
  }

  lemma {:induction false} MapWithout<T, U>(f: T -> U, t: seq<T>, i: nat)
    requires i < |t|
    ensures multiset(Map(f, t)) == multiset(Map(f, t[..i] + t[i + 1..])) + multiset{f(t[i])}
    ensures multiset(t) == multiset(t[..i] + t[i + 1..]) + multiset{t[i]}
  {
    assert t == t[..i] + [t[i]] + t[i + 1..];
    assert Map(f, t) == Map(f, t[..i]) + [f(t[i])] + Map(f, t[i + 1..]);
    MapConcat(f, t[..i], t[i + 1..]);
  }

  lemma {:induction false} LessTheSame<T>(a: multiset<T>, b: multiset<T>, x: T)
    requires a + multiset{x} == b + multiset{x}
    ensures a == b
  {
    assert a == a + multiset{x} - multiset{x} && b == b + multiset{x} - multiset{x};
  }

  lemma {:induction false} MapKeepsMultiset<T, U>(f: T -> U, s: seq<T>, t: seq<T>)
    requires multiset(s) == multiset(t)
    ensures multiset(Map(f, s)) == multiset(Map(f, t))
    decreases |s|
  {
    assert |s| == |multiset(s)| == |multiset(t)| == |t|;
    if |s| > 0 {
      SameMembers(s, t, s[0]);
      var i :| 0 <= i < |t| && t[i] == s[0];
      MapWithout(f, s, 0);
      MapWithout(f, t, i);
      assert s[..0] + s[1..] == s[1..];
      LessTheSame(multiset(s[1..]), multiset(t[..i] + t[i + 1..]), s[0]);
      MapKeepsMultiset(f, s[1..], t[..i] + t[i + 1..]);
    }
  }

  lemma {:induction false} SameVisits(r: Runtime, a: Node, b: Node)
    requires Relisted(a, b)
    ensures multiset(FoundBelow(Visits(), [], a)) == multiset(FoundBelow(Visits(), [], b))
    ensures AllReadable(r, FoundBelow(Visits(), [], a)) <==> AllReadable(r, FoundBelow(Visits(), [], b))
  {
    RelistedFinds(Visits(), [], a, b);
    forall visit
      ensures visit in FoundBelow(Visits(), [], a) <==> visit in FoundBelow(Visits(), [], b)
    {
      SameMembers(FoundBelow(Visits(), [], a), FoundBelow(Visits(), [], b), visit);
    }
  }

  /** The same tree, every directory listed in any order, gives the same stream or fails alike. */
  lemma {:induction false} TreeStreamIgnoresListing(r: Runtime, a: Node, b: Node)
    requires Relisted(a, b) && NamesOnce(a)
    ensures RuntimeStream(r, a) == RuntimeStream(r, b)
  {
    SameVisits(r, a, b);
    var visits, others := FoundBelow(Visits(), [], a), FoundBelow(Visits(), [], b);
    if a.Directory? && AllReadable(r, visits) {
      NamesSeparate(r, a);
      NameOrder();
      MapKeepsMultiset(NamedOf(r), visits, others);
      SortSeparated(NameBefore, Map(NamedOf(r), visits), Map(NamedOf(r), others));
    }
  }
}
