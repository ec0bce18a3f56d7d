/**
 Release tags and the sequence of accepted publications
 (apps/guruterminal/scripts/release-qualification.py:15-120;
 apps/guruterminal/scripts/create-release-config.py:18-61).
 */
module Releases {
  import opened Strings
  import opened Wrappers

  datatype Version = Version(major: nat, minor: nat, patch: nat)

  datatype Tag = Stable(version: Version) | Rc(version: Version, sequence: nat)

  // -------------------------------------------------------------- tag texts

  function VersionText(v: Version): string {
    Join([Decimal(v.major), Decimal(v.minor), Decimal(v.patch)], ".")
  }

  /** The text of a tag without the leading v. */
  function Release(tag: Tag): string {
    match tag
    case Stable(version) => VersionText(version)
    case Rc(version, sequence) => VersionText(version) + "-" + ("rc." + Decimal(sequence))
  }

  function TagText(tag: Tag): string {
    "v" + Release(tag)
  }

  /** The zeros of the decimal digits beyond ASCII in Unicode 15.0; nine more follow each. */
  const FOREIGN_ZEROS: seq<int> :=
    [0x1fbf0, 0x1e950, 0x1e4f0, 0x1e2f0, 0x1e140, 0x1d7f6, 0x1d7ec, 0x1d7e2, 0x1d7d8, 0x1d7ce, 0x16b50,
     0x16ac0, 0x16a60, 0x11f50, 0x11da0, 0x11d50, 0x11c50, 0x11950, 0x118e0, 0x11730, 0x116c0, 0x11650,
     0x114d0, 0x11450, 0x112f0, 0x111d0, 0x11136, 0x110f0, 0x11066, 0x10d30, 0x104a0, 0xff10, 0xabf0, 0xaa50,
     0xa9f0, 0xa9d0, 0xa900, 0xa8d0, 0xa620, 0x1c50, 0x1c40, 0x1bb0, 0x1b50, 0x1a90, 0x1a80, 0x19d0, 0x1946,
     0x1810, 0x17e0, 0x1090, 0x1040, 0xf20, 0xed0, 0xe50, 0xde6, 0xd66, 0xce6, 0xc66, 0xbe6, 0xb66, 0xae6,
     0xa66, 0x9e6, 0x966, 0x7c0, 0x6f0, 0x660]

  function DigitAfter(c: int, zeros: seq<int>): (d: Option<nat>)
    ensures d.Some? ==> d.value < 10
  {
    if |zeros| == 0 then None
    else
      var zero := zeros[|zeros| - 1];
      if zero <= c < zero + 10 then Some(c - zero) else DigitAfter(c, zeros[..|zeros| - 1])
  }

  predicate IsAscii(s: string) {
    forall c | c in s :: c as int < 128
  }

  /** What the patterns' digit class matches, and the value the conversion gives it. */
  function DigitValue(c: char): (d: Option<nat>)
    ensures d.Some? ==> d.value < 10
    ensures c as int < 128 ==> d == if IsDigit(c) then Some(c as int - '0' as int) else None
  {
    if c as int < 128 then
      if IsDigit(c) then Some(c as int - '0' as int) else None
    else DigitAfter(c as int, FOREIGN_ZEROS)
  }

  predicate IsNumber(s: string) {
    s == "0" || (|s| > 0 && '1' <= s[0] <= '9' && forall c | c in s :: DigitValue(c).Some?)
  }

  function NumberValue(s: string): nat {
    if |s| == 0 then 0
    else
      10 * NumberValue(s[..|s| - 1]) + match DigitValue(s[|s| - 1]) case Some(d) => d case None => 0
  }

  function ParseNumber(s: string): Option<nat> {
    if IsNumber(s) then Some(NumberValue(s)) else None
  }

  lemma {:induction false} AsciiNumber(s: string)
    requires IsAscii(s)
    ensures IsNumber(s) <==> IsCanonicalNumber(s)
    ensures (forall c :: c in s ==> IsDigit(c)) ==> NumberValue(s) == Value(s)
  {
    if |s| > 0 {
      var front, c := s[..|s| - 1], s[|s| - 1];
      assert s == front + [c] && c in s && forall d :: d in front ==> d in s;
      AsciiNumber(front);
    }
  }

  function ParseVersion(s: string): Option<Version> {
    var parts := Split(s, '.');
    if |parts| != 3 then None
    else
      match (ParseNumber(parts[0]), ParseNumber(parts[1]), ParseNumber(parts[2]))
      case (Some(major), Some(minor), Some(patch)) => Some(Version(major, minor, patch))
      case (_, _, _) => None
  }

  /** X.Y.Z, or X.Y.Z-rc.N with N at least 1. */
  function ParseRelease(s: string): Option<Tag> {
    match SplitOnce(s, '-')
    case None =>
      (match ParseVersion(s)
       case None => None
       case Some(version) => Some(Stable(version)))
    case Some((head, tail)) =>
      if !("rc." <= tail) then None
      else
        match (ParseVersion(head), ParseNumber(tail[3..]))
        case (Some(version), Some(sequence)) => if sequence >= 1 then Some(Rc(version, sequence)) else None
        case (_, _) => None
  }

  function ParseTag(s: string): Option<Tag> {
    if "v" <= s then ParseRelease(s[1..]) else None
  }

  predicate Canonical(tag: Tag) {
    tag.Rc? ==> tag.sequence >= 1
  }

  lemma {:induction false} NumberText(n: nat)
    ensures IsNumber(Decimal(n)) && ParseNumber(Decimal(n)) == Some(n)
    ensures '.' !in Decimal(n) && '-' !in Decimal(n) && IsAscii(Decimal(n))
  {
    ValueDecimal(n);
    AsciiNumber(Decimal(n));
    if n == 0 {
      assert Decimal(0) == "0";
    }
  }

  lemma {:induction false} VersionTextParses(v: Version)
    ensures ParseVersion(VersionText(v)) == Some(v)
    ensures '-' !in VersionText(v)
  {
    NumberText(v.major);
    NumberText(v.minor);
    NumberText(v.patch);
    var parts := [Decimal(v.major), Decimal(v.minor), Decimal(v.patch)];
    assert ['.'] == ".";
    SplitJoined(parts, '.');
    assert Split(VersionText(v), '.') == parts;
    JoinThree(Decimal(v.major), Decimal(v.minor), Decimal(v.patch));
    NoDash(Decimal(v.major), Decimal(v.minor), Decimal(v.patch));
  }

  lemma {:induction false} NoDash(a: string, b: string, c: string)
    requires '-' !in a && '-' !in b && '-' !in c
    ensures '-' !in a + "." + (b + "." + c)
  {
    assert '-' !in ".";
    NotInConcat('-', a, ".");
    NotInConcat('-', b, ".");
    NotInConcat('-', b + ".", c);
    NotInConcat('-', a + ".", b + "." + c);
  }

  lemma {:induction false} NotInConcat(x: char, s: string, t: string)
    requires x !in s && x !in t
    ensures x !in s + t
  {
  }

  lemma {:induction false} JoinThree(a: string, b: string, c: string)
    ensures Join([a, b, c], ".") == a + "." + (b + "." + c)
  {
    assert [b, c][1..] == [c] && Join([b, c], ".") == b + "." + c;
    assert [a, b, c][1..] == [b, c];
  }

  lemma {:induction false} SplitOnceNone(s: string, sep: char)
    requires sep !in s
    ensures SplitOnce(s, sep) == None
  {
    if |s| > 0 {
      SplitOnceNone(s[1..], sep);
    }
  }

  /** Every tag is read back from its text. */
  lemma {:induction false} TagRoundTrip(tag: Tag)
    requires Canonical(tag)
    ensures ParseTag(TagText(tag)) == Some(tag)
  {
    var release := Release(tag);
    assert TagText(tag)[1..] == release;
    VersionTextParses(tag.version);
    match tag {
      case Stable(version) => SplitOnceNone(release, '-');
      case Rc(version, sequence) =>
        var tail := "rc." + Decimal(sequence);
        NumberText(sequence);
        assert tail[3..] == Decimal(sequence);
        assert release == VersionText(version) + ['-'] + tail;
        SplitOnceAt(VersionText(version), '-', tail);
    }
  }

  lemma {:induction false} AsciiSub(s: string, part: string)
    requires IsAscii(s) && forall c :: c in part ==> c in s
    ensures IsAscii(part)
  {
  }

  /** Every character of a part is one of the text. */
  lemma {:induction false} SplitWithin(s: string, sep: char)
    ensures forall part, c :: part in Split(s, sep) && c in part ==> c in s
  {
    if |s| > 0 {
      SplitWithin(s[1..], sep);
      var rest := Split(s[1..], sep);
      assert rest[0] in rest;
    }
  }

  lemma {:induction false} NumberUnique(s: string)
    requires IsNumber(s) && IsAscii(s)
    ensures Decimal(NumberValue(s)) == s
  {
    AsciiNumber(s);
    DecimalValue(s);
  }

  lemma {:induction false} VersionUnique(s: string)
    requires ParseVersion(s).Some? && IsAscii(s)
    ensures VersionText(ParseVersion(s).value) == s
  {
    var parts := Split(s, '.');
    SplitWithin(s, '.');
    assert parts[0] in parts && parts[1] in parts && parts[2] in parts;
    AsciiSub(s, parts[0]);
    AsciiSub(s, parts[1]);
    AsciiSub(s, parts[2]);
    NumberUnique(parts[0]);
    NumberUnique(parts[1]);
    NumberUnique(parts[2]);
    JoinedSplit(s, '.');
    assert parts == [parts[0], parts[1], parts[2]];
  }

  lemma {:induction false} AsciiConcat(a: string, b: string)
    ensures IsAscii(a + b) <==> IsAscii(a) && IsAscii(b)
  {
    if IsAscii(a + b) {
      forall c | c in a || c in b
        ensures c as int < 128
      {
        assert c in a + b;
      }
    }
  }

  lemma {:induction false} VersionTextAscii(v: Version)
    ensures IsAscii(VersionText(v))
  {
    NumberText(v.major);
    NumberText(v.minor);
    NumberText(v.patch);
    JoinThree(Decimal(v.major), Decimal(v.minor), Decimal(v.patch));
    AsciiConcat(Decimal(v.minor) + ".", Decimal(v.patch));
    AsciiConcat(Decimal(v.minor), ".");
    AsciiConcat(Decimal(v.major) + ".", Decimal(v.minor) + "." + Decimal(v.patch));
    AsciiConcat(Decimal(v.major), ".");
  }

  lemma {:induction false} TagTextAscii(tag: Tag)
    ensures IsAscii(TagText(tag))
  {
    VersionTextAscii(tag.version);
    AsciiConcat("v", Release(tag));
    if tag.Rc? {
      NumberText(tag.sequence);
      AsciiConcat("rc.", Decimal(tag.sequence));
      AsciiConcat("-", "rc." + Decimal(tag.sequence));
      assert VersionText(tag.version) + "-" + ("rc." + Decimal(tag.sequence)) ==
             VersionText(tag.version) + ("-" + ("rc." + Decimal(tag.sequence)));
      AsciiConcat(VersionText(tag.version), "-" + ("rc." + Decimal(tag.sequence)));
    }
  }

  lemma {:induction false} SplitOnceWhole(s: string, sep: char)
    requires SplitOnce(s, sep).Some?
    ensures s == SplitOnce(s, sep).value.0 + [sep] + SplitOnce(s, sep).value.1
  {
    if s[0] != sep {
      SplitOnceWhole(s[1..], sep);
      assert s == [s[0]] + s[1..];
    }
  }

  lemma {:induction false} AsciiTagText(s: string)
    requires ParseTag(s).Some? && IsAscii(s)
    ensures TagText(ParseTag(s).value) == s
  {
    var release := s[1..];
    assert s == "v" + release;
    AsciiSub(s, release);
    match SplitOnce(release, '-') {
      case None => VersionUnique(release);
      case Some((head, tail)) =>
        SplitOnceWhole(release, '-');
        AsciiSub(release, head);
        AsciiSub(release, tail[3..]);
        VersionUnique(head);
        NumberUnique(tail[3..]);
        assert tail == "rc." + tail[3..];
    }
  }

  /** An accepted text is the tag's own text exactly when it is written in ASCII digits. */
  lemma {:induction false} TagTextUnique(s: string)
    requires ParseTag(s).Some?
    ensures TagText(ParseTag(s).value) == s <==> IsAscii(s)
    ensures Canonical(ParseTag(s).value)
  {
    if IsAscii(s) {
      AsciiTagText(s);
    }
    TagTextAscii(ParseTag(s).value);
  }

  // ------------------------------------------------------ tags, spelled out

  /** The character is this digit, in ASCII or in another script. */
  ghost predicate DigitFor(c: char, d: nat) {
    d <= 9 && (c as int == 0x30 + d || exists zero :: zero in FOREIGN_ZEROS && c as int == zero + d)
  }

  lemma {:induction false} DigitAfterMeaning(c: int, zeros: seq<int>)
    ensures match DigitAfter(c, zeros)
            case Some(d) => exists zero :: zero in zeros && c == zero + d
            case None => forall zero :: zero in zeros ==> c < zero || c > zero + 9
  {
    if |zeros| > 0 {
      var front, zero := zeros[..|zeros| - 1], zeros[|zeros| - 1];
      DigitAfterMeaning(c, front);
      assert zeros == front + [zero];
      if DigitAfter(c, zeros).Some? && !(zero <= c < zero + 10) {
        var other :| other in front && c == other + DigitAfter(c, front).value;
        assert other in zeros;
      } else if DigitAfter(c, zeros).Some? {
        assert zero in zeros && c == zero + DigitAfter(c, zeros).value;
      }
    }
  }

  lemma {:induction false} DigitMeaning(c: char)
    ensures match DigitValue(c)
            case Some(d) => DigitFor(c, d)
            case None => c as int >= 128 || c < '0' || c > '9'
  {
    DigitAfterMeaning(c as int, FOREIGN_ZEROS);
  }

  /** Digits in any script, the first of them from 1 to 9 in ASCII unless the number is 0. */
  ghost predicate NumberFor(s: string, n: nat) {
    && (s == "0" || (s != "" && '1' <= s[0] <= '9'))
    && exists digits: seq<nat> :: DigitsFor(s, digits) && Weighed(digits) == n
  }

  ghost predicate DigitsFor(s: string, digits: seq<nat>) {
    |s| == |digits| && forall i :: 0 <= i < |s| ==> DigitFor(s[i], digits[i])
  }

  lemma {:induction false} NumberDigits(s: string) returns (digits: seq<nat>)
    requires forall c :: c in s ==> DigitValue(c).Some?
    ensures DigitsFor(s, digits) && Weighed(digits) == NumberValue(s)
  {
    if |s| == 0 {
      digits := [];
    } else {
      var front, last := s[..|s| - 1], s[|s| - 1];
      assert s == front + [last] && last in s && forall c :: c in front ==> c in s;
      digits := NumberDigits(front);
      DigitMeaning(last);
      WeighedNext(digits, DigitValue(last).value);
      digits := digits + [DigitValue(last).value];
    }
  }

  lemma {:induction false} NumberMeaning(s: string)
    requires IsNumber(s)
    ensures NumberFor(s, NumberValue(s))
  {
    assert DigitValue('0') == Some(0);
    var digits := NumberDigits(s);
    assert DigitsFor(s, digits);
  }

  /** The text is X.Y.Z, each a number. */
  ghost predicate VersionFor(s: string, v: Version) {
    exists x, y, z :: s == x + "." + (y + "." + z) &&
                      NumberFor(x, v.major) && NumberFor(y, v.minor) && NumberFor(z, v.patch)
  }

  lemma {:induction false} VersionMeaning(s: string)
    requires ParseVersion(s).Some?
    ensures VersionFor(s, ParseVersion(s).value)
  {
    var parts := Split(s, '.');
    JoinedSplit(s, '.');
    NumberMeaning(parts[0]);
    NumberMeaning(parts[1]);
    NumberMeaning(parts[2]);
    assert parts == [parts[0], parts[1], parts[2]];
    JoinThree(parts[0], parts[1], parts[2]);
    assert ['.'] == ".";
  }

  /** The text is vX.Y.Z, or vX.Y.Z-rc.N with N at least 1. */
  ghost predicate TagFor(s: string, tag: Tag) {
    match tag
    case Stable(version) => exists head :: s == "v" + head && VersionFor(head, version)
    case Rc(version, sequence) =>
      sequence >= 1 &&
      exists head, number :: s == "v" + head + "-rc." + number && VersionFor(head, version) &&
                             NumberFor(number, sequence)
  }

  /** An accepted text is a tag's, spelled in the digits of any script. */
  lemma {:induction false} TagMeaning(s: string)
    requires ParseTag(s).Some?
    ensures TagFor(s, ParseTag(s).value)
  {
    var release := s[1..];
    assert s == "v" + release;
    match SplitOnce(release, '-') {
      case None => VersionMeaning(release);
      case Some((head, tail)) =>
        SplitOnceWhole(release, '-');
        VersionMeaning(head);
        NumberMeaning(tail[3..]);
        assert tail == "rc." + tail[3..];
        assert s == "v" + head + "-rc." + tail[3..];
    }
  }

  /** A tag's own text. */
  lemma {:induction false} TagTextMeaning(tag: Tag)
    ensures var v := tag.version;
            var stable := "v" + Decimal(v.major) + "." + Decimal(v.minor) + "." + Decimal(v.patch);
            TagText(tag) == match tag
                            case Stable(_) => stable
                            case Rc(_, sequence) => stable + "-rc." + Decimal(sequence)
  {
    JoinThree(Decimal(tag.version.major), Decimal(tag.version.minor), Decimal(tag.version.patch));
  }

  // ------------------------------------------------------------ the validators

  predicate Before(a: seq<nat>, b: seq<nat>) {
    if |b| == 0 then false
    else if |a| == 0 then true
    else if a[0] == b[0] then Before(a[1..], b[1..])
    else a[0] < b[0]
  }

  function Numbers(v: Version): seq<nat> {
    [v.major, v.minor, v.patch]
  }

  /** `predecessor_version`: a stable comes after the candidates of its version. */
  function Order(tag: Tag): seq<nat> {
    Numbers(tag.version) + match tag case Stable(_) => [1, 0] case Rc(_, sequence) => [0, sequence]
  }

  /** `validate_release_sequence`; latest is None while no stable is published. */
  predicate StableAccepted(candidate: string, previous: string, latest: Option<string>) {
    match (ParseTag(candidate), ParseTag(previous))
    case (Some(Stable(version)), Some(predecessor)) =>
      && Before(Order(predecessor), Order(Stable(version)))
      && (match latest
          case Some(text) =>
            (match ParseTag(text)
             case Some(Stable(current)) => Before(Numbers(current), Numbers(version)) && previous == text
             case _ => false)
          case None => predecessor.Rc? && predecessor.version == version)
    case (_, _) => false
  }

  /** An earlier version: by its first number, then its second, then its third. */
  predicate Earlier(a: Version, b: Version) {
    || a.major < b.major
    || (a.major == b.major && a.minor < b.minor)
    || (a.major == b.major && a.minor == b.minor && a.patch < b.patch)
  }

  lemma {:induction false} NumbersMeaning(a: Version, b: Version)
    ensures Before(Numbers(a), Numbers(b)) <==> Earlier(a, b)
  {
    BeforeFirst(a.major, [a.minor, a.patch], b.major, [b.minor, b.patch]);
    BeforeFirst(a.minor, [a.patch], b.minor, [b.patch]);
    BeforeFirst(a.patch, [], b.patch, []);
    assert Numbers(a) == [a.major] + [a.minor, a.patch] && Numbers(b) == [b.major] + [b.minor, b.patch];
    assert [a.minor, a.patch] == [a.minor] + [a.patch] && [b.minor, b.patch] == [b.minor] + [b.patch];
    assert [a.patch] == [a.patch] + [] && [b.patch] == [b.patch] + [];
  }

  lemma {:induction false} BeforeFirst(x: nat, a: seq<nat>, y: nat, b: seq<nat>)
    ensures Before([x] + a, [y] + b) <==> x < y || (x == y && Before(a, b))
  {
    assert ([x] + a)[1..] == a && ([y] + b)[1..] == b;
  }

  /** Before a release stand the earlier versions, its own candidates, and before those the lower numbers. */
  lemma {:induction false} OrderMeaning(a: Tag, b: Tag)
    ensures Before(Order(a), Order(b)) <==>
            || Earlier(a.version, b.version)
            || (a.version == b.version && a.Rc? && (b.Stable? || a.sequence < b.sequence))
  {
    var x, y := Order(a), Order(b);
    var p, q := x[3..], y[3..];
    NumbersMeaning(a.version, b.version);
    assert x == Numbers(a.version) + p && y == Numbers(b.version) + q;
    BeforeFirst(p[0], [p[1]], q[0], [q[1]]);
    BeforeFirst(p[1], [], q[1], []);
    assert p == [p[0]] + [p[1]] && q == [q[0]] + [q[1]] && [p[1]] == [p[1]] + [] && [q[1]] == [q[1]] + [];
    BeforeSplit(Numbers(a.version), Numbers(b.version), p, q);
  }

  lemma {:induction false} BeforeSplit(a: seq<nat>, b: seq<nat>, x: seq<nat>, y: seq<nat>)
    requires |a| == |b|
    ensures Before(a + x, b + y) <==> Before(a, b) || (a == b && Before(x, y))
  {
    if |a| > 0 {
      BeforeSplit(a[1..], b[1..], x, y);
      assert (a + x)[1..] == a[1..] + x && (b + y)[1..] == b[1..] + y;
      assert a == [a[0]] + a[1..] && b == [b[0]] + b[1..];
    } else {
      assert a + x == x && b + y == y;
    }
  }

  /**
   A stable is accepted after the latest stable if that is its predecessor and an
   earlier version; the first, after a candidate of its own version.
   */
  lemma {:induction false} StableMeaning(candidate: string, previous: string, latest: Option<string>)
    ensures StableAccepted(candidate, previous, latest) <==>
            match latest
            case Some(text) =>
              && previous == text && IsStable(candidate) && IsStable(text)
              && Earlier(ParseTag(text).value.version, ParseTag(candidate).value.version)
            case None =>
              && IsStable(candidate) && ParseTag(previous).Some? && ParseTag(previous).value.Rc?
              && ParseTag(previous).value.version == ParseTag(candidate).value.version
  {
    if IsStable(candidate) && ParseTag(previous).Some? {
      var a, b := ParseTag(previous).value, ParseTag(candidate).value;
      NumbersMeaning(a.version, b.version);
      if (a.Stable? && Earlier(a.version, b.version)) || (a.Rc? && a.version == b.version) {
        OrderImplied(a, b.version);
      }
    }
  }

  /** The order check never decides: the other checks already imply it. */
  lemma {:induction false} OrderImplied(predecessor: Tag, version: Version)
    requires (predecessor.Stable? && Before(Numbers(predecessor.version), Numbers(version))) ||
             (predecessor.Rc? && predecessor.version == version)
    ensures Before(Order(predecessor), Order(Stable(version)))
  {
    var a, b := Numbers(predecessor.version), Numbers(version);
    BeforeExtends(a, b, if predecessor.Stable? then [1, 0] else [0, predecessor.sequence], [1, 0]);
  }

  lemma {:induction false} BeforeExtends(a: seq<nat>, b: seq<nat>, x: seq<nat>, y: seq<nat>)
    requires |a| == |b|
    ensures Before(a, b) ==> Before(a + x, b + y)
    ensures a == b && Before(x, y) ==> Before(a + x, b + y)
  {
    if |a| > 0 {
      BeforeExtends(a[1..], b[1..], x, y);
      assert (a + x)[1..] == a[1..] + x && (b + y)[1..] == b[1..] + y;
    } else {
      assert a + x == x && b + y == y;
    }
  }

  predicate IsRc(s: string, version: Version, sequence: nat) {
    ParseTag(s) == Some(Rc(version, sequence))
  }

  /** A tag up to its candidate suffix: the spelling of its version. */
  function BaseText(s: string): string {
    match SplitOnce(s, '-')
    case None => s
    case Some((head, _)) => head
  }

  predicate IsRcOf(s: string, base: string) {
    ParseTag(s).Some? && ParseTag(s).value.Rc? && BaseText(s) == base
  }

  predicate IsStableOf(s: string, base: string) {
    ParseTag(s).Some? && ParseTag(s).value.Stable? && BaseText(s) == base
  }

  /** The candidate numbers among these tags, for one spelling of a version. */
  function Sequences(published: seq<string>, base: string): set<nat> {
    set s | s in published && IsRcOf(s, base) :: ParseTag(s).value.sequence
  }

  ghost predicate UpTo(sequences: set<nat>, n: nat) {
    forall k :: k in sequences <==> 1 <= k <= n
  }

  ghost predicate NoStableOf(published: seq<string>, base: string) {
    forall s :: s in published ==> !IsStableOf(s, base)
  }

  /** `validate_rc_release_sequence`: versions are compared as they are spelled. */
  ghost predicate RcAccepted(candidate: string, published: seq<string>) {
    match ParseTag(candidate)
    case Some(Rc(_, sequence)) =>
      && NoStableOf(published, BaseText(candidate))
      && UpTo(Sequences(published, BaseText(candidate)), sequence - 1)
    case _ => false
  }

  // Which tags are of one spelling: the stable that is the base itself, and base-rc.N.

  lemma {:induction false} SplitOnceHead(s: string, sep: char)
    ensures match SplitOnce(s, sep) case Some((head, _)) => sep !in head case None => sep !in s
  {
    if |s| > 0 && s[0] != sep {
      SplitOnceHead(s[1..], sep);
      assert s == [s[0]] + s[1..];
    }
  }

  ghost predicate NumberedOf(s: string, base: string) {
    '-' !in base && exists number :: s == base + "-rc." + number
  }

  lemma {:induction false} RcSpelling(s: string, base: string)
    requires ParseTag(s).Some?
    ensures IsRcOf(s, base) <==> NumberedOf(s, base)
  {
    var release := s[1..];
    SplitOnceHead(s, '-');
    SplitOnceHead(release, '-');
    assert s == ['v'] + release;
    if IsRcOf(s, base) {
      var tail := SplitOnce(release, '-').value.1;
      SplitOnceWhole(s, '-');
      assert tail == "rc." + tail[3..];
      assert s == base + "-rc." + tail[3..];
    }
    if NumberedOf(s, base) {
      var number :| s == base + "-rc." + number;
      BaseBefore(base, "rc." + number);
      assert s == base + ['-'] + ("rc." + number);
      assert s[|base|] == '-';
      assert release[|base| - 1] == '-';
    }
  }

  lemma {:induction false} StableSpelling(s: string, base: string)
    ensures IsStableOf(s, base) <==> s == base && IsStable(base)
  {
    if IsStable(s) {
      SplitOnceHead(s[1..], '-');
      assert s == ['v'] + s[1..];
      SplitOnceNone(s, '-');
    }
  }

  lemma {:induction false} BaseIsStable(candidate: string)
    requires ParseTag(candidate).Some? && ParseTag(candidate).value.Rc?
    ensures IsStable(BaseText(candidate)) && NumberedOf(candidate, BaseText(candidate))
  {
    var release := candidate[1..];
    var head, tail := SplitOnce(release, '-').value.0, SplitOnce(release, '-').value.1;
    SplitOnceHead(release, '-');
    SplitOnceNone(head, '-');
    SplitOnceWhole(release, '-');
    NotInConcat('-', "v", head);
    BaseBefore("v" + head, tail);
    assert candidate == "v" + head + ['-'] + tail;
    assert ("v" + head)[1..] == head;
    RcSpelling(candidate, BaseText(candidate));
  }

  ghost predicate PublishedAs(published: seq<string>, base: string, k: nat) {
    exists s :: s in published && NumberedOf(s, base) && ParseTag(s).Some? && ParseTag(s).value.Rc? &&
                ParseTag(s).value.sequence == k
  }

  /** A candidate N is accepted after exactly 1 to N-1 of its spelling, and before the stable of that spelling. */
  ghost predicate NextOf(candidate: string, published: seq<string>, base: string, n: nat) {
    && NumberedOf(candidate, base) && base !in published
    && forall k: nat :: PublishedAs(published, base, k) <==> 1 <= k < n
  }

  lemma {:induction false} SequencesMeaning(published: seq<string>, base: string)
    ensures forall k: nat :: k in Sequences(published, base) <==> PublishedAs(published, base, k)
  {
    forall s | s in published && ParseTag(s).Some?
      ensures IsRcOf(s, base) <==> NumberedOf(s, base)
    {
      RcSpelling(s, base);
    }
    forall k: nat
      ensures k in Sequences(published, base) <==> PublishedAs(published, base, k)
    {
    }
  }

  lemma {:induction false} RcMeaning(candidate: string, published: seq<string>)
    ensures RcAccepted(candidate, published) <==>
            && ParseTag(candidate).Some? && ParseTag(candidate).value.Rc?
            && NextOf(candidate, published, BaseText(candidate), ParseTag(candidate).value.sequence)
  {
    if ParseTag(candidate).Some? && ParseTag(candidate).value.Rc? {
      var base := BaseText(candidate);
      BaseIsStable(candidate);
      SequencesMeaning(published, base);
      forall s
        ensures IsStableOf(s, base) <==> s == base
      {
        StableSpelling(s, base);
      }
    }
  }

  lemma {:induction false} FirstNumbers(n: nat) returns (first: set<nat>)
    ensures UpTo(first, n) && |first| == n
  {
    if n == 0 {
      first := {};
    } else {
      first := FirstNumbers(n - 1);
      first := first + {n};
    }
  }

  lemma {:induction false} UpToSize(sequences: set<nat>, n: nat)
    requires UpTo(sequences, n)
    ensures |sequences| == n
  {
    var first := FirstNumbers(n);
    assert sequences == first;
  }

  /** `range(1, n + 1)` as a set. */
  method Range(n: nat) returns (numbers: set<nat>)
    ensures UpTo(numbers, n)
  {
    numbers := {};
    for i := 0 to n
      invariant UpTo(numbers, i)
    {
      numbers := numbers + {i + 1};
    }
  }

  lemma {:induction false} SequencesNext(published: seq<string>, i: nat, base: string)
    requires i < |published|
    ensures Sequences(published[..i + 1], base) ==
            Sequences(published[..i], base) +
            (if IsRcOf(published[i], base) then {ParseTag(published[i]).value.sequence} else {})
  {
    assert published[..i + 1] == published[..i] + [published[i]];
  }

  /** The numbers already published for the candidate's version; None if its stable is. */
  method CollectSequences(published: seq<string>, base: string) returns (sequences: Option<set<nat>>)
    ensures sequences.Some? <==> NoStableOf(published, base)
    ensures sequences.Some? ==> sequences.value == Sequences(published, base)
  {
    var found: set<nat> := {};
    for i := 0 to |published|
      invariant NoStableOf(published[..i], base)
      invariant found == Sequences(published[..i], base)
    {
      SequencesNext(published, i, base);
      assert published[..i + 1] == published[..i] + [published[i]];
      if IsStableOf(published[i], base) {
        return None;
      }
      if IsRcOf(published[i], base) {
        found := found + {ParseTag(published[i]).value.sequence};
      }
    }
    assert published[..|published|] == published;
    sequences := Some(found);
  }

  lemma {:induction false} ParsedCanonical(s: string)
    requires ParseTag(s).Some?
    ensures Canonical(ParseTag(s).value)
  {
  }

  method ValidateRcReleaseSequence(candidate: string, published: seq<string>) returns (ok: bool)
    ensures ok <==> RcAccepted(candidate, published)
  {
    var tag := ParseTag(candidate);
    if tag.None? || !tag.value.Rc? {
      return false;
    }
    ParsedCanonical(candidate);
    var sequences := CollectSequences(published, BaseText(candidate));
    if sequences.None? {
      return false;
    }
    var expected := Range(|sequences.value|);
    if UpTo(sequences.value, tag.value.sequence - 1) {
      UpToSize(sequences.value, tag.value.sequence - 1);
    }
    assert sequences.value == expected <==> UpTo(sequences.value, |sequences.value|);
    ok := sequences.value == expected && tag.value.sequence == |sequences.value| + 1;
  }

  // ------------------------------------------------------ runs of publications

  /** A stable and the release it was qualified from. */
  datatype Qualification = Qualification(candidate: string, previous: string)

  /** Published tags in order, and the qualifications of the stables in order. */
  datatype Feed = Feed(published: seq<string>, stables: seq<Qualification>)

  datatype Publication = Candidate(tag: string) | Release(tag: string, previous: string)

  function Latest(feed: Feed): Option<string> {
    if |feed.stables| == 0 then None else Some(feed.stables[|feed.stables| - 1].candidate)
  }

  ghost predicate Accepted(feed: Feed, p: Publication) {
    match p
    case Candidate(tag) => RcAccepted(tag, feed.published)
    case Release(tag, previous) => StableAccepted(tag, previous, Latest(feed))
  }

  /** Refused publications change nothing. */
  ghost function Publish(feed: Feed, p: Publication): Feed {
    if !Accepted(feed, p) then feed
    else
      match p
      case Candidate(tag) => Feed(feed.published + [tag], feed.stables)
      case Release(tag, previous) => Feed(feed.published + [tag], feed.stables + [Qualification(tag, previous)])
  }

  ghost function History(ps: seq<Publication>): Feed {
    if |ps| == 0 then Feed([], []) else Publish(History(ps[..|ps| - 1]), ps[|ps| - 1])
  }

  ghost predicate Contiguous(published: seq<string>) {
    forall base :: UpTo(Sequences(published, base), |Sequences(published, base)|)
  }

  /** No candidate follows a stable that spells the same version. */
  ghost predicate NoneAfterStable(published: seq<string>) {
    forall i, j, base :: 0 <= i < j < |published| && IsStableOf(published[i], base) ==> !IsRcOf(published[j], base)
  }

  ghost predicate IsStable(s: string) {
    ParseTag(s).Some? && ParseTag(s).value.Stable?
  }

  /** Each stable was qualified from the one before it, the first from its own candidate. */
  ghost predicate Chained(stables: seq<Qualification>) {
    && (|stables| > 0 ==> FromOwnCandidate(stables[0]))
    && (forall i :: 0 < i < |stables| ==> Follows(stables[i - 1], stables[i]))
  }

  ghost predicate Orderly(feed: Feed) {
    Contiguous(feed.published) && NoneAfterStable(feed.published) && Chained(feed.stables)
  }

  lemma {:induction false} SequencesAppend(published: seq<string>, tag: string, base: string)
    ensures Sequences(published + [tag], base) ==
            Sequences(published, base) + (if IsRcOf(tag, base) then {ParseTag(tag).value.sequence} else {})
  {
    assert (published + [tag])[..|published|] == published;
    assert (published + [tag])[..|published| + 1] == published + [tag];
    SequencesNext(published + [tag], |published|, base);
  }

  /** The accepted candidate is the next number of its version. */
  lemma {:induction false} CandidateNext(published: seq<string>, tag: string)
    requires RcAccepted(tag, published)
    ensures UpTo(Sequences(published + [tag], BaseText(tag)), ParseTag(tag).value.sequence)
  {
    ParsedCanonical(tag);
    SequencesAppend(published, tag, BaseText(tag));
    UpToNext(Sequences(published, BaseText(tag)), ParseTag(tag).value.sequence);
  }

  lemma {:induction false} UpToNext(sequences: set<nat>, n: nat)
    requires n >= 1 && UpTo(sequences, n - 1)
    ensures UpTo(sequences + {n}, n)
  {
  }

  lemma {:induction false} CandidateContiguous(published: seq<string>, tag: string)
    requires Contiguous(published) && RcAccepted(tag, published)
    ensures Contiguous(published + [tag])
  {
    CandidateNext(published, tag);
    UpToSize(Sequences(published + [tag], BaseText(tag)), ParseTag(tag).value.sequence);
    forall base | base != BaseText(tag)
      ensures Sequences(published + [tag], base) == Sequences(published, base)
    {
      SequencesAppend(published, tag, base);
    }
  }

  lemma {:induction false} StableContiguous(published: seq<string>, tag: string)
    requires Contiguous(published) && IsStable(tag)
    ensures Contiguous(published + [tag])
  {
    forall base
      ensures Sequences(published + [tag], base) == Sequences(published, base)
    {
      SequencesAppend(published, tag, base);
    }
  }

  lemma {:induction false} AppendNoneAfter(published: seq<string>, tag: string)
    requires NoneAfterStable(published)
    requires forall base :: IsRcOf(tag, base) ==> NoStableOf(published, base)
    ensures NoneAfterStable(published + [tag])
  {
    var all := published + [tag];
    forall i, j, base | 0 <= i < j < |all| && IsStableOf(all[i], base)
      ensures !IsRcOf(all[j], base)
    {
      assert all[i] == published[i] && published[i] in published;
      if j < |published| {
        assert all[j] == published[j];
      }
    }
  }

  ghost predicate Follows(before: Qualification, after: Qualification) {
    && IsStable(before.candidate) && IsStable(after.candidate)
    && after.previous == before.candidate
    && Before(Numbers(ParseTag(before.candidate).value.version), Numbers(ParseTag(after.candidate).value.version))
  }

  ghost predicate FromOwnCandidate(first: Qualification) {
    IsStable(first.candidate) &&
    exists sequence :: IsRc(first.previous, ParseTag(first.candidate).value.version, sequence)
  }

  lemma {:induction false} AcceptedFirst(tag: string, previous: string)
    requires StableAccepted(tag, previous, None)
    ensures FromOwnCandidate(Qualification(tag, previous))
  {
    assert IsRc(previous, ParseTag(tag).value.version, ParseTag(previous).value.sequence);
  }

  lemma {:induction false} AcceptedNext(tag: string, previous: string, latest: Qualification)
    requires StableAccepted(tag, previous, Some(latest.candidate))
    ensures Follows(latest, Qualification(tag, previous))
  {
  }

  lemma {:induction false} StableChained(feed: Feed, tag: string, previous: string)
    requires Chained(feed.stables) && StableAccepted(tag, previous, Latest(feed))
    ensures Chained(feed.stables + [Qualification(tag, previous)]) && IsStable(tag)
  {
    if |feed.stables| == 0 {
      AcceptedFirst(tag, previous);
    } else {
      AcceptedNext(tag, previous, feed.stables[|feed.stables| - 1]);
    }
  }

  lemma {:induction false} PublishOrderly(feed: Feed, p: Publication)
    requires Orderly(feed)
    ensures Orderly(Publish(feed, p))
  {
    if Accepted(feed, p) {
      match p {
        case Candidate(tag) =>
          CandidateContiguous(feed.published, tag);
          AppendNoneAfter(feed.published, tag);
        case Release(tag, previous) =>
          StableChained(feed, tag, previous);
          StableContiguous(feed.published, tag);
          AppendNoneAfter(feed.published, tag);
      }
    }
  }

  /**
   Over every run of publications the candidates of each version, as it is spelled,
   are rc.1 to rc.n, none follows its stable, and the stables form one increasing
   qualified chain.
   */
  lemma {:induction false} HistoryOrderly(ps: seq<Publication>)
    ensures Orderly(History(ps))
  {
    if |ps| > 0 {
      HistoryOrderly(ps[..|ps| - 1]);
      PublishOrderly(History(ps[..|ps| - 1]), ps[|ps| - 1]);
    } else {
      forall base
        ensures Sequences([], base) == {}
      {
      }
    }
  }

  // ------------------------------------------------------------- update feeds

  const DOWNLOADS: string := "https://github.com/monarchjuno/guruterminal/releases/download/"
  const STABLE_UPDATE_ENDPOINT: string :=
    "https://github.com/monarchjuno/guruterminal/releases/latest/download/latest.json"

  /** The feed file of a published tag. */
  function FeedOf(tag: Tag): string {
    DOWNLOADS + TagText(tag) + "/latest.json"
  }

  /** `update_endpoints`, whose pattern takes ASCII digits only: a candidate first asks for the next one. */
  method UpdateEndpoints(version: string) returns (endpoints: Option<seq<string>>)
    ensures endpoints == match (if IsAscii(version) then ParseRelease(version) else None)
                         case None => None
                         case Some(Stable(_)) => Some([STABLE_UPDATE_ENDPOINT])
                         case Some(Rc(base, sequence)) => Some([FeedOf(Rc(base, sequence + 1)), STABLE_UPDATE_ENDPOINT])
    ensures endpoints.Some? ==>
              var stable := "https://github.com/monarchjuno/guruterminal/releases/latest/download/latest.json";
              match ParseRelease(version)
              case Some(Rc(base, sequence)) =>
                endpoints.value == ["https://github.com/monarchjuno/guruterminal/releases/download/" +
                                    TagText(Rc(base, sequence + 1)) + "/latest.json", stable]
              case _ => endpoints.value == [stable]
  {
    var parsed := if IsAscii(version) then ParseRelease(version) else None;
    if parsed.None? {
      return None;
    }
    var urls := [STABLE_UPDATE_ENDPOINT];
    if parsed.value.Rc? {
      var next := VersionText(parsed.value.version) + "-" + ("rc." + Decimal(parsed.value.sequence + 1));
      assert next == Release(Rc(parsed.value.version, parsed.value.sequence + 1));
      urls := [DOWNLOADS + ("v" + next) + "/latest.json"] + urls;
      assert urls == [FeedOf(Rc(parsed.value.version, parsed.value.sequence + 1)), STABLE_UPDATE_ENDPOINT];
    }
    endpoints := Some(urls);
  }

  lemma {:induction false} BaseOfTag(tag: Tag)
    ensures BaseText(TagText(tag)) == TagText(Stable(tag.version))
  {
    var base := TagText(Stable(tag.version));
    DashlessBase(tag.version);
    match tag {
      case Stable(version) => SplitOnceNone(base, '-');
      case Rc(version, sequence) =>
        BaseBefore(base, "rc." + Decimal(sequence));
        assert TagText(tag) == base + ['-'] + ("rc." + Decimal(sequence));
    }
  }

  lemma {:induction false} DashlessBase(version: Version)
    ensures '-' !in TagText(Stable(version))
  {
    VersionTextParses(version);
    NotInConcat('-', "v", VersionText(version));
  }

  lemma {:induction false} BaseBefore(base: string, tail: string)
    requires '-' !in base
    ensures BaseText(base + ['-'] + tail) == base
  {
    SplitOnceAt(base, '-', tail);
  }

  /** In ASCII digits a version has one spelling. */
  lemma {:induction false} AsciiRcOf(s: string, version: Version)
    requires IsAscii(s)
    ensures IsRcOf(s, TagText(Stable(version))) <==>
            ParseTag(s).Some? && ParseTag(s).value.Rc? && ParseTag(s).value.version == version
    ensures IsStableOf(s, TagText(Stable(version))) <==> ParseTag(s) == Some(Stable(version))
  {
    if ParseTag(s).Some? {
      AsciiTagText(s);
      BaseOfTag(ParseTag(s).value);
      TagRoundTrip(Stable(version));
      TagRoundTrip(Stable(ParseTag(s).value.version));
    }
  }

  /**
   An installed candidate that is not the last: the next number is published, and
   its fixed feed is there exactly if that tag is written in ASCII digits.
   */
  lemma {:induction false} NextCandidatePublished(ps: seq<Publication>, version: Version, k: nat, later: nat)
    requires 1 <= k < later
    requires later in Sequences(History(ps).published, TagText(Stable(version)))
    ensures k + 1 in Sequences(History(ps).published, TagText(Stable(version)))
    ensures TagText(Rc(version, k + 1)) in History(ps).published <==>
            exists s :: s in History(ps).published && IsNumbered(s, version, k + 1) && IsAscii(s)
  {
    HistoryOrderly(ps);
    NextInSequence(History(ps).published, TagText(Stable(version)), k, later);
    forall s | s in History(ps).published && IsNumbered(s, version, k + 1) && IsAscii(s)
      ensures s == TagText(Rc(version, k + 1))
    {
      OwnText(s, version, k + 1);
    }
    OwnTextNumbered(version, k + 1);
  }

  lemma {:induction false} NextInSequence(published: seq<string>, base: string, k: nat, later: nat)
    requires Contiguous(published) && 1 <= k < later && later in Sequences(published, base)
    ensures k + 1 in Sequences(published, base)
  {
    assert UpTo(Sequences(published, base), |Sequences(published, base)|);
  }

  lemma {:induction false} OwnText(s: string, version: Version, sequence: nat)
    requires IsNumbered(s, version, sequence) && IsAscii(s)
    ensures s == TagText(Rc(version, sequence))
  {
    AsciiRcOf(s, version);
    AsciiTagText(s);
  }

  /** A candidate with this number whose version is spelled in ASCII digits. */
  predicate IsNumbered(s: string, version: Version, sequence: nat) {
    IsRcOf(s, TagText(Stable(version))) && ParseTag(s).value.sequence == sequence
  }

  lemma {:induction false} OwnTextNumbered(version: Version, sequence: nat)
    requires sequence >= 1
    ensures IsNumbered(TagText(Rc(version, sequence)), version, sequence) && IsAscii(TagText(Rc(version, sequence)))
  {
    TagRoundTrip(Rc(version, sequence));
    BaseOfTag(Rc(version, sequence));
    TagTextAscii(Rc(version, sequence));
  }

  ghost predicate AllAscii(published: seq<string>) {
    forall s :: s in published ==> IsAscii(s)
  }

  /** While all tags are in ASCII digits, spellings are versions and every feed is there. */
  lemma {:induction false} AsciiHistory(ps: seq<Publication>, version: Version)
    requires AllAscii(History(ps).published)
    ensures var published := History(ps).published;
            && (forall k :: k in Sequences(published, TagText(Stable(version))) <==>
                  TagText(Rc(version, k)) in published && k >= 1)
            && (forall i, j, sequence :: 0 <= i < j < |published| && published[i] == TagText(Stable(version)) ==>
                  !IsRc(published[j], version, sequence))
  {
    HistoryOrderly(ps);
    var published, base := History(ps).published, TagText(Stable(version));
    forall k
      ensures k in Sequences(published, base) <==> TagText(Rc(version, k)) in published && k >= 1
    {
      if k in Sequences(published, base) {
        var s :| s in published && IsRcOf(s, base) && ParseTag(s).value.sequence == k;
        ParsedCanonical(s);
        AsciiRcOf(s, version);
        AsciiTagText(s);
      }
      if k >= 1 {
        OwnTextNumbered(version, k);
      }
    }
    forall i, j, sequence | 0 <= i < j < |published| && published[i] == base
      ensures !IsRc(published[j], version, sequence)
    {
      TagRoundTrip(Stable(version));
      BaseOfTag(Stable(version));
      AsciiRcOf(published[j], version);
    }
  }

  // ----------------------------------------------------- a feed that is skipped

  function Candidates(version: Version, n: nat): seq<Publication> {
    if n == 0 then [] else Candidates(version, n - 1) + [Candidate(TagText(Rc(version, n)))]
  }

  ghost predicate NumberedUpTo(published: seq<string>, version: Version, n: nat) {
    && UpTo(Sequences(published, TagText(Stable(version))), n)
    && NoStableOf(published, TagText(Stable(version)))
  }

  lemma {:induction false} NextAccepted(published: seq<string>, tag: string, version: Version, n: nat)
    requires NumberedUpTo(published, version, n) && IsNumbered(tag, version, n + 1)
    ensures RcAccepted(tag, published) && NumberedUpTo(published + [tag], version, n + 1)
  {
    SequencesAppend(published, tag, TagText(Stable(version)));
  }

  lemma {:induction false} PublishNext(ps: seq<Publication>, tag: string, version: Version, n: nat)
    requires NumberedUpTo(History(ps).published, version, n) && IsNumbered(tag, version, n + 1)
    ensures History(ps + [Candidate(tag)]).published == History(ps).published + [tag]
    ensures NumberedUpTo(History(ps + [Candidate(tag)]).published, version, n + 1)
  {
    assert (ps + [Candidate(tag)])[..|ps|] == ps;
    NextAccepted(History(ps).published, tag, version, n);
  }

  lemma {:induction false} CandidatesPublished(version: Version, n: nat)
    ensures NumberedUpTo(History(Candidates(version, n)).published, version, n)
    ensures NoneBeyond(History(Candidates(version, n)).published, version, n)
  {
    if n > 0 {
      CandidatesPublished(version, n - 1);
      CandidatesNext(Candidates(version, n - 1), version, n);
    }
  }

  lemma {:induction false} CandidatesNext(ps: seq<Publication>, version: Version, n: nat)
    requires n >= 1 && NumberedUpTo(History(ps).published, version, n - 1)
    requires NoneBeyond(History(ps).published, version, n - 1)
    ensures NumberedUpTo(History(ps + [Candidate(TagText(Rc(version, n)))]).published, version, n)
    ensures NoneBeyond(History(ps + [Candidate(TagText(Rc(version, n)))]).published, version, n)
  {
    OwnTextNumbered(version, n);
    PublishNext(ps, TagText(Rc(version, n)), version, n - 1);
    BeyondNext(History(ps).published, version, n);
  }

  ghost predicate NoneBeyond(published: seq<string>, version: Version, n: nat) {
    forall k :: k > n ==> TagText(Rc(version, k)) !in published
  }

  lemma {:induction false} BeyondNext(published: seq<string>, version: Version, n: nat)
    requires n >= 1 && NoneBeyond(published, version, n - 1)
    ensures NoneBeyond(published + [TagText(Rc(version, n))], version, n)
  {
    forall k | k > n
      ensures TagText(Rc(version, k)) != TagText(Rc(version, n))
    {
      DifferentTexts(version, k, n);
    }
  }

  lemma {:induction false} DifferentTexts(version: Version, k: nat, n: nat)
    requires k >= 1 && n >= 1 && k != n
    ensures TagText(Rc(version, k)) != TagText(Rc(version, n))
  {
    TagRoundTrip(Rc(version, k));
    TagRoundTrip(Rc(version, n));
  }

  /** The Arabic-Indic digit zero. */
  const FOREIGN_ZERO: char := '\U{0660}'

  /** The tenth candidate, its last digit written in another script. */
  function ForeignTen(version: Version): string {
    "v" + (VersionText(version) + "-" + ("rc.1" + [FOREIGN_ZERO]))
  }

  lemma {:induction false} ForeignZeroIsDigit()
    ensures DigitValue(FOREIGN_ZERO) == Some(0)
  {
    assert FOREIGN_ZEROS[|FOREIGN_ZEROS| - 1] == 0x660 && FOREIGN_ZERO as int == 0x660;
  }

  lemma {:induction false} ForeignNumber()
    ensures ParseNumber("1" + [FOREIGN_ZERO]) == Some(10)
  {
    var number := "1" + [FOREIGN_ZERO];
    ForeignZeroIsDigit();
    assert number[..1] == "1" && "1"[..0] == "" && NumberValue("1") == 1;
    assert NumberValue(number) == 10;
    assert DigitValue('1') == Some(1);
  }

  lemma {:induction false} ForeignTenParses(version: Version)
    ensures IsNumbered(ForeignTen(version), version, 10) && !IsAscii(ForeignTen(version))
  {
    var release := ForeignTen(version)[1..];
    assert FOREIGN_ZERO in ForeignTen(version);
    assert release == VersionText(version) + ['-'] + ("rc.1" + [FOREIGN_ZERO]);
    ForeignRelease(version);
    ForeignTenBase(version);
  }

  lemma {:induction false} ForeignRelease(version: Version)
    ensures ParseRelease(VersionText(version) + ['-'] + ("rc.1" + [FOREIGN_ZERO])) == Some(Rc(version, 10))
  {
    var tail := "rc.1" + [FOREIGN_ZERO];
    assert tail[3..] == "1" + [FOREIGN_ZERO];
    ForeignNumber();
    VersionTextParses(version);
    SplitOnceAt(VersionText(version), '-', tail);
  }

  lemma {:induction false} ForeignTenBase(version: Version)
    ensures BaseText(ForeignTen(version)) == TagText(Stable(version))
  {
    var base, tail := TagText(Stable(version)), "rc.1" + [FOREIGN_ZERO];
    DashlessBase(version);
    BaseBefore(base, tail);
    assert ForeignTen(version) == base + ['-'] + tail;
  }

  /** A number published in other digits, then the number after it: the feed between is missing. */
  lemma {:induction false} FeedSkipped(ps: seq<Publication>, version: Version, n: nat, tag: string)
    requires NumberedUpTo(History(ps).published, version, n) && NoneBeyond(History(ps).published, version, n)
    requires IsNumbered(tag, version, n + 1) && !IsAscii(tag)
    ensures var published := History(ps + [Candidate(tag)] + [Candidate(TagText(Rc(version, n + 2)))]).published;
            n + 2 in Sequences(published, TagText(Stable(version))) && TagText(Rc(version, n + 1)) !in published
  {
    PublishNext(ps, tag, version, n);
    OwnTextNumbered(version, n + 2);
    PublishNext(ps + [Candidate(tag)], TagText(Rc(version, n + 2)), version, n + 1);
    TagTextAscii(Rc(version, n + 1));
    DifferentTexts(version, n + 1, n + 2);
  }

  /**
   Accepted publications after which an installed rc.9 does not find the next feed,
   although rc.11 is published: the tenth tag is not written in ASCII digits.
   */
  lemma {:induction false} ForeignDigitSkipsFeed(version: Version)
    ensures var ps := Candidates(version, 9) + [Candidate(ForeignTen(version))];
            var published := History(ps + [Candidate(TagText(Rc(version, 11)))]).published;
            && 11 in Sequences(published, TagText(Stable(version)))
            && TagText(Rc(version, 10)) !in published
  {
    var n := 9;
    CandidatesPublished(version, n);
    ForeignTenParses(version);
    FeedSkipped(Candidates(version, n), version, n, ForeignTen(version));
  }
}
