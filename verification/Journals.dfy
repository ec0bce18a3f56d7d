/**
 Deletion journals and the private-storage paths they cover
 (apps/guruterminal/src-tauri/src/deletion.rs:14-20, 242-279;
 apps/guruterminal/src-tauri/src/domain/guru.rs:174-211).
 */
module Journals {
  import opened Wrappers

  /** A path below the application-data root, component by component. */
  type Path = seq<string>

  datatype Identity = Identity(device: nat, inode: nat)

  datatype DeletionKind = Chat | Guru

  datatype Phase = Prepared | Detached

  datatype Journal = Journal(
    id: string, kind: DeletionKind, guru: string, target: string, expected: Option<Identity>,
    phase: Phase, created: int, updated: int)

  datatype DeletionPath = DeletionPath(source: Path, tombstone: Path, required: bool, expected: Option<Identity>)

  predicate IsIdentifier(s: string) {
    s != "" && forall c | c in s :: 'a' <= c <= 'z' || 'A' <= c <= 'Z' || '0' <= c <= '9' || c == '-' || c == '_'
  }

  predicate IdentifierCharacter(c: char) {
    c in "abcdefghijklmnopqrstuvwxyz" || c in "ABCDEFGHIJKLMNOPQRSTUVWXYZ" || c in "0123456789" || c in "-_"
  }

  lemma {:induction false} CharacterMeaning(c: char)
    ensures IdentifierCharacter(c) <==> 'a' <= c <= 'z' || 'A' <= c <= 'Z' || '0' <= c <= '9' || c == '-' || c == '_'
  {
    RangeMeaning("abcdefghijklmnopqrstuvwxyz", 'a', c);
    RangeMeaning("ABCDEFGHIJKLMNOPQRSTUVWXYZ", 'A', c);
    RangeMeaning("0123456789", '0', c);
  }

  /** What an identifier is made of. */
  lemma {:induction false} IdentifierMeaning(s: string)
    ensures IsIdentifier(s) <==> s != "" && forall c :: c in s ==> IdentifierCharacter(c)
  {
    forall c
      ensures IdentifierCharacter(c) <==> 'a' <= c <= 'z' || 'A' <= c <= 'Z' || '0' <= c <= '9' || c == '-' || c == '_'
    {
      CharacterMeaning(c);
    }
  }

  /** Consecutive characters are a range. */
  lemma {:induction false} RangeMeaning(range: string, first: char, c: char)
    requires |range| > 0 && forall i :: 0 <= i < |range| ==> range[i] as int == first as int + i
    ensures c in range <==> first <= c && c as int < first as int + |range|
  {
    if first <= c && c as int < first as int + |range| {
      assert range[c as int - first as int] == c;
    }
  }

  predicate ValidJournal(j: Journal) {
    && IsIdentifier(j.id) && IsIdentifier(j.guru) && IsIdentifier(j.target)
    && (j.kind.Guru? ==> j.target == j.guru)
    && (j.kind.Guru? <==> j.expected.Some?)
    && 0 <= j.created <= j.updated
  }

  const I64_MAX: int := 0x7fff_ffff_ffff_ffff

  /** The journal after its paths were renamed away. */
  function AsDetached(j: Journal): Journal {
    j.(phase := Detached, updated := if j.updated < I64_MAX then j.updated + 1 else j.updated)
  }

  /** Only the phase and the time change; the time is one later, if it can be. */
  lemma {:induction false} DetachedMeaning(j: Journal)
    requires j.updated <= 9223372036854775807
    ensures var after := AsDetached(j);
            && after.id == j.id && after.kind == j.kind && after.guru == j.guru && after.target == j.target
            && after.expected == j.expected && after.created == j.created && after.phase == Detached
            && (after.updated == j.updated + 1 || (j.updated == 9223372036854775807 && after.updated == j.updated))
            && after.updated <= 9223372036854775807
  {
  }

  function Hidden(name: string): string {
    ".deleting-" + name
  }

  function ChatPath(parent: Path, target: string): DeletionPath {
    DeletionPath(parent + [target], parent + [Hidden(target)], false, None)
  }

  /** The paths of a valid journal, in the order they are detached. */
  function PathsOf(j: Journal): (paths: seq<DeletionPath>) {
    match j.kind
    case Chat =>
      [ChatPath(["gurus", j.guru, "pi-sessions"], j.target),
       ChatPath(["gurus", j.guru, "pi-runtime"], j.target),
       ChatPath(["gurus", j.guru, "workbench", "attachments"], j.target)]
    case Guru =>
      [DeletionPath(["gurus", j.guru], ["gurus", Hidden(j.guru)], true, j.expected),
       DeletionPath(["runs", j.guru], ["runs", Hidden(j.guru)], false, None)]
  }

  function Touched(paths: seq<DeletionPath>): set<Path> {
    (set p | p in paths :: p.source) + (set p | p in paths :: p.tombstone)
  }

  predicate Prefix(p: Path, q: Path) {
    |p| <= |q| && q[..|p|] == p
  }

  /** Neither entry contains the other. */
  predicate Apart(p: Path, q: Path) {
    !Prefix(p, q) && !Prefix(q, p)
  }

  lemma {:induction false} DifferApart(p: Path, q: Path, i: nat)
    requires i < |p| && i < |q| && p[i] != q[i]
    ensures Apart(p, q)
  {
  }

  lemma {:induction false} NotApartFromItself(p: Path)
    ensures !Apart(p, p)
  {
    assert p[..|p|] == p;
  }

  /** Two entries that contain the same entry contain one another. */
  lemma {:induction false} CommonBelow(p: Path, q: Path, below: Path)
    requires Prefix(p, below) && Prefix(q, below)
    ensures Prefix(p, q) || Prefix(q, p)
  {
    if |p| <= |q| {
      assert q[..|p|] == below[..|q|][..|p|] == below[..|p|];
    } else {
      assert p[..|q|] == below[..|p|][..|q|] == below[..|q|];
    }
  }

  /** None of these entries contains another. */
  ghost predicate Distinct(paths: seq<DeletionPath>) {
    && (forall i :: 0 <= i < |paths| ==> Apart(paths[i].source, paths[i].tombstone))
    && (forall i, j :: 0 <= i < |paths| && 0 <= j < |paths| && i != j ==> Separate(paths[i], paths[j]))
  }

  predicate Separate(p: DeletionPath, q: DeletionPath) {
    && Apart(p.source, q.source) && Apart(p.source, q.tombstone)
    && Apart(p.tombstone, q.source) && Apart(p.tombstone, q.tombstone)
  }

  lemma {:induction false} HiddenNames(a: string, b: string)
    requires IsIdentifier(a)
    ensures a != Hidden(b) && (Hidden(a) == Hidden(b) ==> a == b)
  {
    assert Hidden(b)[0] == '.' && a[0] in a;
    if Hidden(a) == Hidden(b) {
      assert Hidden(a)[10..] == a && Hidden(b)[10..] == b;
    }
  }

  /** The entries of a valid journal are pairwise apart. */
  lemma {:induction false} PathsDistinct(j: Journal)
    requires ValidJournal(j)
    ensures Distinct(PathsOf(j))
  {
    HiddenNames(j.target, j.target);
    HiddenNames(j.guru, j.guru);
    var paths := PathsOf(j);
    forall p | p in paths
      ensures Apart(p.source, p.tombstone)
    {
      DifferApart(p.source, p.tombstone, |p.source| - 1);
    }
    forall i, k | 0 <= i < |paths| && 0 <= k < |paths| && i != k
      ensures Separate(paths[i], paths[k])
    {
      OtherParents(paths[i], paths[k], if j.kind.Chat? then 2 else 0);
    }
  }

  lemma {:induction false} OtherParents(p: DeletionPath, q: DeletionPath, i: nat)
    requires |p.source| == |p.tombstone| > i && |q.source| == |q.tombstone| > i
    requires p.source[i] == p.tombstone[i] != q.source[i] == q.tombstone[i]
    ensures Separate(p, q)
  {
    DifferApart(p.source, q.source, i);
    DifferApart(p.source, q.tombstone, i);
    DifferApart(p.tombstone, q.source, i);
    DifferApart(p.tombstone, q.tombstone, i);
  }

  // -------------------------------------------- journals that do not collide

  ghost predicate JournalsApart(j: Journal, k: Journal) {
    forall p, q :: p in Touched(PathsOf(j)) && q in Touched(PathsOf(k)) ==> Apart(p, q)
  }

  predicate DeletesHome(j: Journal, k: Journal) {
    j.kind.Guru? && j.guru == k.guru
  }

  predicate SameDeletion(j: Journal, k: Journal) {
    j.guru == k.guru && j.target == k.target
  }

  lemma {:induction false} ChatEntry(j: Journal, p: Path)
    requires ValidJournal(j) && j.kind.Chat? && p in Touched(PathsOf(j))
    ensures 4 <= |p| <= 5 && p[0] == "gurus" && p[1] == j.guru
    ensures p[2] in {"pi-sessions", "pi-runtime"} <==> |p| == 4
    ensures p[|p| - 1] in {j.target, Hidden(j.target)}
  {
  }

  lemma {:induction false} GuruEntry(j: Journal, p: Path)
    requires ValidJournal(j) && j.kind.Guru? && p in Touched(PathsOf(j))
    ensures |p| == 2 && p[0] in {"gurus", "runs"} && p[1] in {j.guru, Hidden(j.guru)}
  {
  }

  lemma {:induction false} EntriesApart(j: Journal, k: Journal, p: Path, q: Path)
    requires ValidJournal(j) && ValidJournal(k)
    requires p in Touched(PathsOf(j)) && q in Touched(PathsOf(k)) && Prefix(p, q)
    ensures SameDeletion(j, k) || DeletesHome(j, k)
  {
    assert forall i :: 0 <= i < |p| ==> p[i] == q[i];
    HiddenNames(j.target, k.target);
    HiddenNames(k.target, j.target);
    HiddenNames(k.guru, j.guru);
    HiddenNames(j.guru, k.guru);
    if j.kind.Chat? {
      ChatEntry(j, p);
    } else {
      GuruEntry(j, p);
    }
    if k.kind.Chat? {
      ChatEntry(k, q);
    } else {
      GuruEntry(k, q);
    }
  }

  lemma {:induction false} HomeContains(j: Journal, k: Journal)
    requires ValidJournal(j) && ValidJournal(k) && ((SameDeletion(j, k) && j.kind == k.kind) || DeletesHome(j, k))
    ensures !JournalsApart(j, k)
  {
    var p, q := PathsOf(j)[0].source, PathsOf(k)[0].source;
    assert PathsOf(j)[0] in PathsOf(j) && PathsOf(k)[0] in PathsOf(k);
    assert p in Touched(PathsOf(j)) && q in Touched(PathsOf(k));
    assert q[..|p|] == p;
    assert !Apart(p, q);
  }

  /** Two deletions overlap exactly when one removes the other's Guru or they coincide. */
  lemma {:induction false} ApartIff(j: Journal, k: Journal)
    requires ValidJournal(j) && ValidJournal(k)
    ensures JournalsApart(j, k) <==>
            !DeletesHome(j, k) && !DeletesHome(k, j) && !(SameDeletion(j, k) && j.kind == k.kind)
  {
    if DeletesHome(j, k) || (SameDeletion(j, k) && j.kind == k.kind) {
      HomeContains(j, k);
    } else if DeletesHome(k, j) {
      HomeContains(k, j);
      ApartSymmetric(k, j);
    } else {
      forall p, q | p in Touched(PathsOf(j)) && q in Touched(PathsOf(k))
        ensures Apart(p, q)
      {
        if Prefix(p, q) {
          EntriesApart(j, k, p, q);
        } else if Prefix(q, p) {
          EntriesApart(k, j, q, p);
        }
      }
    }
  }

  lemma {:induction false} ApartSymmetric(j: Journal, k: Journal)
    ensures JournalsApart(j, k) <==> JournalsApart(k, j)
  {
    assert forall p, q :: Apart(p, q) == Apart(q, p);
  }
}
