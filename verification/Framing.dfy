/**
 The byte streams fed to SHA-256 for the catalogue revision
 (src/knowledge/catalog.rs:61-75) and for the Pi runtime tree digest
 (apps/guruterminal/src-tauri/build.rs:120-132). Both are length-framed, so
 different inputs never give the same stream.
 */
module Framing {
  import opened Lists
  import opened Ordering

  type Byte = n: int | 0 <= n < 256

  const U64: nat := 0x1_0000_0000_0000_0000

  /** `to_be_bytes` on `width` bytes, most significant byte first. */
  function BigEndian(n: nat, width: nat): (bytes: seq<Byte>)
    ensures |bytes| == width
  {
    if width == 0 then [] else BigEndian(n / 256, width - 1) + [n % 256]
  }

  function Power256(width: nat): nat {
    if width == 0 then 1 else 256 * Power256(width - 1)
  }

  lemma {:induction false} BigEndianInjective(a: nat, b: nat, width: nat)
    requires a < Power256(width) && b < Power256(width)
    requires BigEndian(a, width) == BigEndian(b, width)
    ensures a == b
  {
    if width > 0 {
      var x, y := BigEndian(a, width), BigEndian(b, width);
      assert x[..width - 1] == BigEndian(a / 256, width - 1);
      assert y[..width - 1] == BigEndian(b / 256, width - 1);
      assert x[width - 1] == a % 256 && y[width - 1] == b % 256;
      BigEndianInjective(a / 256, b / 256, width - 1);
    }
  }

  function Be64(n: nat): seq<Byte> {
    BigEndian(n, 8)
  }

  lemma {:induction false} Be64Injective(a: nat, b: nat)
    requires a < U64 && b < U64 && Be64(a) == Be64(b)
    ensures a == b
  {
    assert Power256(8) == 256 * (256 * (256 * (256 * Power256(4))));
    assert Power256(4) == 256 * (256 * (256 * (256 * Power256(0))));
    BigEndianInjective(a, b, 8);
  }

  /** The number these bytes stand for, the most significant byte first. */
  function ReadNumber(bytes: seq<Byte>): nat {
    if |bytes| == 0 then 0 else bytes[0] * Power256(|bytes| - 1) + ReadNumber(bytes[1..])
  }

  lemma {:induction false} ReadNext(bytes: seq<Byte>, last: Byte)
    ensures ReadNumber(bytes + [last]) == 256 * ReadNumber(bytes) + last
  {
    if |bytes| == 0 {
      assert bytes + [last] == [last] && Power256(0) == 1;
    } else {
      var rest := bytes[1..];
      ReadNext(rest, last);
      assert (bytes + [last])[1..] == rest + [last];
      assert bytes[0] * (256 * Power256(|rest|)) == 256 * (bytes[0] * Power256(|rest|));
    }
  }

  /** Eight bytes, most significant first, are read back as the length they were made of. */
  lemma {:induction false} BigEndianReads(n: nat, width: nat)
    requires n < Power256(width)
    ensures ReadNumber(BigEndian(n, width)) == n
  {
    if width > 0 {
      BigEndianReads(n / 256, width - 1);
      ReadNext(BigEndian(n / 256, width - 1), n % 256);
    }
  }

  /** A byte string with its length in front. */
  function Prefixed(bytes: seq<Byte>): seq<Byte> {
    Be64(|bytes|) + bytes
  }

  lemma {:induction false} SplitEqual<T>(a: seq<T>, b: seq<T>, x: seq<T>, y: seq<T>)
    requires a + x == b + y && |a| == |b|
    ensures a == b && x == y
  {
    assert a == (a + x)[..|a|] && b == (b + y)[..|b|];
    assert x == (a + x)[|a|..] && y == (b + y)[|b|..];
  }

  lemma {:induction false} PrefixedUnique(a: seq<Byte>, b: seq<Byte>, x: seq<Byte>, y: seq<Byte>)
    requires |a| < U64 && |b| < U64
    requires Prefixed(a) + x == Prefixed(b) + y
    ensures a == b && x == y
  {
    assert Prefixed(a) + x == Be64(|a|) + (a + x);
    assert Prefixed(b) + y == Be64(|b|) + (b + y);
    SplitEqual(Be64(|a|), Be64(|b|), a + x, b + y);
    Be64Injective(|a|, |b|);
    SplitEqual(a, b, x, y);
  }

  // ---------------------------------------------------- catalogue revision

  datatype FileRecord = FileRecord(path: seq<Byte>, content: seq<Byte>)

  predicate FileFits(r: FileRecord) {
    |r.path| < U64 && |r.content| < U64
  }

  function FileFrame(r: FileRecord): seq<Byte> {
    Prefixed(r.path) + Prefixed(r.content)
  }

  function FileStream(records: seq<FileRecord>): seq<Byte> {
    if |records| == 0 then [] else FileStream(records[..|records| - 1]) + FileFrame(records[|records| - 1])
  }

  lemma {:induction false} FileFrameUnique(r: FileRecord, s: FileRecord, x: seq<Byte>, y: seq<Byte>)
    requires FileFits(r) && FileFits(s) && FileFrame(r) + x == FileFrame(s) + y
    ensures r == s && x == y
  {
    Regroup(Prefixed(r.path), Prefixed(r.content), x);
    Regroup(Prefixed(s.path), Prefixed(s.content), y);
    PrefixedUnique(r.path, s.path, Prefixed(r.content) + x, Prefixed(s.content) + y);
    PrefixedUnique(r.content, s.content, x, y);
  }

  lemma {:induction false} FileStreamHead(records: seq<FileRecord>)
    requires |records| > 0
    ensures FileStream(records) == FileFrame(records[0]) + FileStream(records[1..])
  {
    if |records| == 1 {
      assert records[..0] == [] && records[1..] == [];
    } else {
      var front, last := records[..|records| - 1], records[|records| - 1];
      FileStreamHead(front);
      assert records[1..][..|records| - 2] == front[1..];
      assert records[1..][|records| - 2] == last;
      Regroup(FileFrame(records[0]), FileStream(front[1..]), FileFrame(last));
    }
  }

  /** Two record lists with the same stream are the same list. */
  lemma {:induction false} FileStreamInjective(a: seq<FileRecord>, b: seq<FileRecord>)
    requires (forall r | r in a :: FileFits(r)) && (forall r | r in b :: FileFits(r))
    requires FileStream(a) == FileStream(b)
    ensures a == b
  {
    if |a| > 0 { FileStreamHead(a); }
    if |b| > 0 { FileStreamHead(b); }
    if |a| > 0 && |b| > 0 {
      FileFrameUnique(a[0], b[0], FileStream(a[1..]), FileStream(b[1..]));
      FileStreamInjective(a[1..], b[1..]);
      assert a == [a[0]] + a[1..] && b == [b[0]] + b[1..];
    }
  }

  /** Eight bytes of length, the path, eight bytes of length, the content; then the next file. */
  function FileBytes(records: seq<FileRecord>): seq<Byte> {
    if |records| == 0 then []
    else
      var path, content := records[0].path, records[0].content;
      BigEndian(|path|, 8) + path + BigEndian(|content|, 8) + content + FileBytes(records[1..])
  }

  lemma {:induction false} FileStreamMeaning(records: seq<FileRecord>)
    ensures FileStream(records) == FileBytes(records)
  {
    if |records| > 0 {
      FileStreamHead(records);
      FileStreamMeaning(records[1..]);
      Regroup(Prefixed(records[0].path), Be64(|records[0].content|), records[0].content);
    }
  }

  // --------------------------------------------------- runtime tree digest

  /** Tag 'd' or 'f', relative path, size and the 32-byte content digest. */
  datatype TreeRecord = TreeRecord(tag: Byte, path: seq<Byte>, size: nat, digest: seq<Byte>)

  predicate TreeFits(r: TreeRecord) {
    |r.path| < U64 && r.size < U64 && |r.digest| == 32
  }

  function TreeFrame(r: TreeRecord): seq<Byte> {
    [r.tag] + Prefixed(r.path) + Be64(r.size) + r.digest
  }

  function TreeStream(records: seq<TreeRecord>): seq<Byte> {
    if |records| == 0 then [] else TreeFrame(records[0]) + TreeStream(records[1..])
  }

  lemma {:induction false} TreeFrameParts(r: TreeRecord, x: seq<Byte>)
    ensures TreeFrame(r) + x == [r.tag] + (Prefixed(r.path) + (Be64(r.size) + (r.digest + x)))
  {
    Regroup([r.tag], Prefixed(r.path), Be64(r.size) + (r.digest + x));
    Regroup([r.tag] + Prefixed(r.path), Be64(r.size), r.digest + x);
    Regroup([r.tag] + Prefixed(r.path) + Be64(r.size), r.digest, x);
  }

  lemma {:induction false} TreeFrameUnique(r: TreeRecord, s: TreeRecord, x: seq<Byte>, y: seq<Byte>)
    requires TreeFits(r) && TreeFits(s) && TreeFrame(r) + x == TreeFrame(s) + y
    ensures r == s && x == y
  {
    var restR, restS := Be64(r.size) + (r.digest + x), Be64(s.size) + (s.digest + y);
    TreeFrameParts(r, x);
    TreeFrameParts(s, y);
    SplitEqual([r.tag], [s.tag], Prefixed(r.path) + restR, Prefixed(s.path) + restS);
    PrefixedUnique(r.path, s.path, restR, restS);
    SplitEqual(Be64(r.size), Be64(s.size), r.digest + x, s.digest + y);
    Be64Injective(r.size, s.size);
    SplitEqual(r.digest, s.digest, x, y);
  }

  lemma {:induction false} TreeStreamInjective(a: seq<TreeRecord>, b: seq<TreeRecord>)
    requires (forall r | r in a :: TreeFits(r)) && (forall r | r in b :: TreeFits(r))
    requires TreeStream(a) == TreeStream(b)
    ensures a == b
  {
    if |a| > 0 && |b| > 0 {
      TreeFrameUnique(a[0], b[0], TreeStream(a[1..]), TreeStream(b[1..]));
      TreeStreamInjective(a[1..], b[1..]);
      assert a == [a[0]] + a[1..] && b == [b[0]] + b[1..];
    }
  }

  /** The tag, eight bytes of length, the path, eight bytes of size, the digest; then the next entry. */
  function TreeBytes(records: seq<TreeRecord>): seq<Byte> {
    if |records| == 0 then []
    else
      var r := records[0];
      [r.tag] + BigEndian(|r.path|, 8) + r.path + BigEndian(r.size, 8) + r.digest + TreeBytes(records[1..])
  }

  lemma {:induction false} TreeStreamMeaning(records: seq<TreeRecord>)
    ensures TreeStream(records) == TreeBytes(records)
  {
    if |records| > 0 {
      TreeStreamMeaning(records[1..]);
      Regroup([records[0].tag], Be64(|records[0].path|), records[0].path);
    }
  }

  /** Feeds one record to the hasher, part by part. */
  method UpdateTree(stream: seq<Byte>, r: TreeRecord) returns (updated: seq<Byte>)
    ensures updated == stream + TreeFrame(r)
  {
    updated := stream + [r.tag];
    updated := updated + Be64(|r.path|);
    updated := updated + r.path;
    updated := updated + Be64(r.size);
    updated := updated + r.digest;
    assert TreeFrame(r) == [r.tag] + (Be64(|r.path|) + r.path) + Be64(r.size) + r.digest;
    assert stream + [r.tag] + Be64(|r.path|) + r.path == stream + ([r.tag] + (Be64(|r.path|) + r.path));
  }

  lemma {:induction false} TreeStreamNext(records: seq<TreeRecord>, i: nat)
    requires i < |records|
    ensures TreeStream(records[i..]) == TreeFrame(records[i]) + TreeStream(records[i + 1..])
  {
    assert records[i..][1..] == records[i + 1..];
  }

  method FeedRecords(records: seq<TreeRecord>) returns (stream: seq<Byte>)
    ensures stream == TreeStream(records)
  {
    stream := [];
    for i := 0 to |records|
      invariant stream + TreeStream(records[i..]) == TreeStream(records)
    {
      TreeStreamNext(records, i);
      Regroup(stream, TreeFrame(records[i]), TreeStream(records[i + 1..]));
      stream := UpdateTree(stream, records[i]);
    }
    assert stream + [] == stream;
  }

  lemma {:induction false} Regroup<T>(a: seq<T>, b: seq<T>, c: seq<T>)
    ensures a + (b + c) == (a + b) + c
  {
  }
}
