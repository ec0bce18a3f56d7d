/** The parts of Rust's `str` and `char` the models need, over code points. */
module Strings {
  import opened Wrappers

  /** Unicode White_Space, as `char::is_whitespace` uses it. */
  predicate IsWhitespace(c: char) {
    var n := c as int;
    9 <= n <= 13 || n == 0x20 || n == 0x85 || n == 0xA0 || n == 0x1680 || 0x2000 <= n <= 0x200A ||
    n == 0x2028 || n == 0x2029 || n == 0x202F || n == 0x205F || n == 0x3000
  }

  predicate IsControl(c: char) {
    var n := c as int;
    n < 0x20 || 0x7F <= n < 0xA0
  }

  function TrimStart(s: string): string {
    if |s| > 0 && IsWhitespace(s[0]) then TrimStart(s[1..]) else s
  }

  function TrimEnd(s: string): string {
    if |s| > 0 && IsWhitespace(s[|s| - 1]) then TrimEnd(s[..|s| - 1]) else s
  }

  function Trim(s: string): string {
    TrimEnd(TrimStart(s))
  }

  /** `str::len`: the number of UTF-8 bytes. */
  function ByteLen(s: string): nat {
    if |s| == 0 then 0
    else
      var n := s[0] as int;
      (if n < 0x80 then 1 else if n < 0x800 then 2 else if n < 0x10000 then 3 else 4) + ByteLen(s[1..])
  }

  /** `str::split_once`: the text before and after the first separator. */
  function SplitOnce(s: string, sep: char): Option<(string, string)> {
    if |s| == 0 then None
    else if s[0] == sep then Some(("", s[1..]))
    else
      match SplitOnce(s[1..], sep)
      case None => None
      case Some((head, tail)) => Some(([s[0]] + head, tail))
  }

  /** `str::split` on one character; the result is never empty. */
  function Split(s: string, sep: char): (parts: seq<string>)
    ensures |parts| > 0
  {
    if |s| == 0 then [""]
    else
      var rest := Split(s[1..], sep);
      if s[0] == sep then [""] + rest else [[s[0]] + rest[0]] + rest[1..]
  }

  function Join(parts: seq<string>, sep: string): string {
    if |parts| == 0 then ""
    else if |parts| == 1 then parts[0]
    else parts[0] + sep + Join(parts[1..], sep)
  }

  /** `str::lines`: split at '\n', one trailing '\r' dropped, no empty last line. */
  function Lines(s: string): seq<string> {
    var parts := Split(s, '\n');
    var kept := if parts[|parts| - 1] == "" then parts[..|parts| - 1] else parts;
    seq(|kept|, i requires 0 <= i < |kept| => if i + 1 < |parts| then DropReturn(kept[i]) else kept[i])
  }

  function DropReturn(line: string): string {
    if |line| > 0 && line[|line| - 1] == '\r' then line[..|line| - 1] else line
  }

  // -------------------------------------------------------- decimal numbers

  function Digit(d: nat): char
    requires d < 10
  {
    ('0' as int + d) as char
  }

  /** `{}` on an unsigned integer. */
  function Decimal(n: nat): string {
    if n < 10 then [Digit(n)] else Decimal(n / 10) + [Digit(n % 10)]
  }

  predicate IsDigit(c: char) {
    '0' <= c <= '9'
  }

  /** The value of a string of digits; other characters count as 0. */
  function Value(s: string): nat {
    if |s| == 0 then 0
    else
      var c := s[|s| - 1];
      10 * Value(s[..|s| - 1]) + if IsDigit(c) then c as int - '0' as int else 0
  }

  lemma {:induction false} ValueDecimal(n: nat)
    ensures Value(Decimal(n)) == n && |Decimal(n)| > 0
    ensures forall c :: c in Decimal(n) ==> IsDigit(c)
    ensures n > 0 ==> Decimal(n)[0] != '0'
  {
    if n < 10 {
      assert Decimal(n)[..0] == "";
    } else {
      ValueDecimal(n / 10);
      assert Decimal(n)[..|Decimal(n)| - 1] == Decimal(n / 10);
    }
  }

  function Power10(digits: nat): nat {
    if digits == 0 then 1 else 10 * Power10(digits - 1)
  }

  /** Each digit counts ten times as much as the one after it. */
  function Weighed(digits: seq<nat>): nat {
    if |digits| == 0 then 0 else digits[0] * Power10(|digits| - 1) + Weighed(digits[1..])
  }

  lemma {:induction false} WeighedNext(digits: seq<nat>, last: nat)
    ensures Weighed(digits + [last]) == 10 * Weighed(digits) + last
  {
    if |digits| == 0 {
      assert digits + [last] == [last] && Power10(0) == 1;
    } else {
      var rest := digits[1..];
      WeighedNext(rest, last);
      assert (digits + [last])[1..] == rest + [last];
      assert Power10(|digits|) == 10 * Power10(|digits| - 1);
      assert digits[0] * (10 * Power10(|rest|)) == 10 * (digits[0] * Power10(|rest|));
    }
  }

  /** The text is these digits, in ASCII. */
  ghost predicate Digits(s: string, digits: seq<nat>) {
    |s| == |digits| && forall i :: 0 <= i < |s| ==> digits[i] <= 9 && s[i] as int == 0x30 + digits[i]
  }

  lemma {:induction false} ValueMeaning(s: string, digits: seq<nat>)
    requires Digits(s, digits)
    ensures Value(s) == Weighed(digits) && forall c :: c in s ==> IsDigit(c)
  {
    if |s| > 0 {
      var n := |s| - 1;
      ValueMeaning(s[..n], digits[..n]);
      WeighedNext(digits[..n], digits[n]);
      assert digits == digits[..n] + [digits[n]] && s == s[..n] + [s[n]];
    }
  }

  /** A number's text is its decimal digits, without leading zeros. */
  lemma {:induction false} DecimalMeaning(n: nat) returns (digits: seq<nat>)
    ensures Digits(Decimal(n), digits) && Weighed(digits) == n
    ensures |digits| > 0 && (n > 0 ==> digits[0] != 0) && (n == 0 ==> digits == [0])
  {
    if n < 10 {
      digits := [n];
      WeighedNext([], n);
      assert [] + [n] == [n];
    } else {
      digits := DecimalMeaning(n / 10);
      WeighedNext(digits, n % 10);
      digits := digits + [n % 10];
    }
  }

  lemma {:induction false} SplitOnceAt(head: string, sep: char, tail: string)
    requires sep !in head
    ensures SplitOnce(head + [sep] + tail, sep) == Some((head, tail))
  {
    var s := head + [sep] + tail;
    if |head| == 0 {
      assert s[1..] == tail;
    } else {
      SplitOnceAt(head[1..], sep, tail);
      assert s[1..] == head[1..] + [sep] + tail;
      assert head == [head[0]] + head[1..];
    }
  }

  // ---------------------------------------------------- splitting and joining

  lemma {:induction false} SplitPart(part: string, sep: char, rest: string)
    requires sep !in part
    ensures Split(part, sep) == [part]
    ensures Split(part + [sep] + rest, sep) == [part] + Split(rest, sep)
  {
    if |part| > 0 {
      SplitPart(part[1..], sep, rest);
      assert part == [part[0]] + part[1..];
      assert (part + [sep] + rest)[1..] == part[1..] + [sep] + rest;
    } else {
      assert part + [sep] + rest == [sep] + rest;
      assert ([sep] + rest)[1..] == rest;
    }
  }

  /** Splitting undoes joining. */
  lemma {:induction false} SplitJoined(parts: seq<string>, sep: char)
    requires |parts| > 0 && forall part :: part in parts ==> sep !in part
    ensures Split(Join(parts, [sep]), sep) == parts
  {
    if |parts| == 1 {
      SplitPart(parts[0], sep, "");
    } else {
      SplitJoined(parts[1..], sep);
      SplitPart(parts[0], sep, Join(parts[1..], [sep]));
    }
  }

  /** Joining undoes splitting. */
  lemma {:induction false} JoinedSplit(s: string, sep: char)
    ensures Join(Split(s, sep), [sep]) == s
  {
    if |s| > 0 {
      JoinedSplit(s[1..], sep);
      var rest := Split(s[1..], sep);
      assert s == [s[0]] + s[1..];
      if s[0] == sep {
        assert ([""] + rest)[1..] == rest;
      } else {
        assert ([[s[0]] + rest[0]] + rest[1..])[1..] == rest[1..];
      }
    }
  }

  /** A number without sign and without leading zeros. */
  predicate IsCanonicalNumber(s: string) {
    s == "0" || (|s| > 0 && s[0] != '0' && forall c | c in s :: IsDigit(c))
  }

  /** A canonical number is written in exactly one way. */
  lemma {:induction false} DecimalValue(s: string)
    requires IsCanonicalNumber(s)
    ensures Decimal(Value(s)) == s
    ensures Value(s) == 0 <==> s == "0"
  {
    var front, c := s[..|s| - 1], s[|s| - 1];
    assert s == front + [c] && c in s && IsDigit(c);
    if |s| > 1 {
      assert front[0] == s[0] && forall d :: d in front ==> d in s;
      DecimalValue(front);
      assert Value(s) / 10 == Value(front) && Value(s) % 10 == c as int - '0' as int;
    } else {
      assert front == "";
    }
  }

  // ------------------------------------------------- what trimming leaves

  /** The 25 characters with the Unicode property White_Space. */
  predicate IsWhite(c: char) {
    c as int in {0x09, 0x0A, 0x0B, 0x0C, 0x0D, 0x20, 0x85, 0xA0, 0x1680, 0x2000, 0x2001, 0x2002, 0x2003, 0x2004,
                 0x2005, 0x2006, 0x2007, 0x2008, 0x2009, 0x200A, 0x2028, 0x2029, 0x202F, 0x205F, 0x3000}
  }

  lemma {:induction false} WhiteMeaning(c: char)
    ensures IsWhitespace(c) <==> IsWhite(c)
  {
  }

  /** Nothing but white space is cut off, and none is left at either end. */
  ghost predicate TrimmedTo(s: string, t: string) {
    && (exists a, b :: 0 <= a && 0 <= b && CutAt(s, a, b, t))
    && (t != "" ==> !IsWhite(t[0]) && !IsWhite(t[|t| - 1]))
  }

  predicate CutAt(s: string, a: nat, b: nat, t: string) {
    && a + b + |t| == |s| && s[a..a + |t|] == t
    && (forall i | 0 <= i < a :: IsWhite(s[i])) && (forall i | a + |t| <= i < |s| :: IsWhite(s[i]))
  }

  lemma {:induction false} TrimStartMeaning(s: string)
    ensures |TrimStart(s)| <= |s| && TrimStart(s) == s[|s| - |TrimStart(s)|..]
    ensures forall i :: 0 <= i < |s| - |TrimStart(s)| ==> IsWhite(s[i])
    ensures TrimStart(s) != "" ==> !IsWhite(TrimStart(s)[0])
  {
    if |s| > 0 {
      WhiteMeaning(s[0]);
      if IsWhitespace(s[0]) {
        TrimStartMeaning(s[1..]);
        assert forall i :: 0 < i < |s| ==> s[i] == s[1..][i - 1];
      }
    }
  }

  lemma {:induction false} TrimEndMeaning(s: string)
    ensures |TrimEnd(s)| <= |s| && TrimEnd(s) == s[..|TrimEnd(s)|]
    ensures forall i :: |TrimEnd(s)| <= i < |s| ==> IsWhite(s[i])
    ensures TrimEnd(s) != "" ==> !IsWhite(TrimEnd(s)[|TrimEnd(s)| - 1])
  {
    if |s| > 0 {
      WhiteMeaning(s[|s| - 1]);
      if IsWhitespace(s[|s| - 1]) {
        TrimEndMeaning(s[..|s| - 1]);
        assert forall i :: 0 <= i < |s| - 1 ==> s[i] == s[..|s| - 1][i];
      }
    }
  }

  lemma {:induction false} TrimMeaning(s: string)
    ensures TrimmedTo(s, Trim(s))
  {
    var front := TrimStart(s);
    var t := Trim(s);
    TrimStartMeaning(s);
    TrimEndMeaning(front);
    var a := |s| - |front|;
    assert forall i :: 0 <= i < |front| ==> front[i] == s[a + i];
    forall i | a + |t| <= i < |s|
      ensures IsWhite(s[i])
    {
      assert s[i] == front[i - a];
    }
    assert s[a..a + |t|] == front[..|t|];
    assert CutAt(s, a, |front| - |t|, t);
    if t != "" {
      assert t[0] == front[0];
    }
  }

  // ---------------------------------------------------------- lines and bytes

  /** The text made of these lines, each ended by a line feed. */
  function Unlines(lines: seq<string>): string {
    if |lines| == 0 then "" else lines[0] + "\n" + Unlines(lines[1..])
  }

  lemma {:induction false} SplitUnlines(lines: seq<string>)
    requires forall line :: line in lines ==> '\n' !in line
    ensures Split(Unlines(lines), '\n') == lines + [""]
  {
    if |lines| > 0 {
      SplitUnlines(lines[1..]);
      SplitPart(lines[0], '\n', Unlines(lines[1..]));
      assert lines == [lines[0]] + lines[1..];
    }
  }

  /** Lines are what line feeds end; a carriage return before one belongs to the line's end. */
  lemma {:induction false} LinesMeaning(lines: seq<string>)
    requires forall line :: line in lines ==> '\n' !in line
    ensures |Lines(Unlines(lines))| == |lines|
    ensures forall i :: 0 <= i < |lines| ==>
              Lines(Unlines(lines))[i] ==
              if lines[i] != "" && lines[i][|lines[i]| - 1] == '\r' then lines[i][..|lines[i]| - 1] else lines[i]
  {
    SplitUnlines(lines);
    var parts := Split(Unlines(lines), '\n');
    assert parts[..|parts| - 1] == lines;
    forall i | 0 <= i < |lines|
      ensures Lines(Unlines(lines))[i] == DropReturn(lines[i])
    {
    }
  }

  /** A last line that no line feed ends is kept as it is, unless it is empty. */
  lemma {:induction false} LastLine(lines: seq<string>, last: string)
    requires '\n' !in last && forall line :: line in lines ==> '\n' !in line
    ensures Lines(Unlines(lines) + last) == Lines(Unlines(lines)) + if last == "" then [] else [last]
  {
    SplitUnlines(lines);
    SplitLast(lines, last);
    if last == "" {
      assert Unlines(lines) + last == Unlines(lines);
    }
  }

  lemma {:induction false} SplitLast(lines: seq<string>, last: string)
    requires '\n' !in last && forall line :: line in lines ==> '\n' !in line
    ensures Split(Unlines(lines) + last, '\n') == lines + [last]
  {
    if |lines| > 0 {
      SplitLast(lines[1..], last);
      SplitPart(lines[0], '\n', Unlines(lines[1..]) + last);
      assert lines == [lines[0]] + lines[1..];
      assert Unlines(lines) + last == lines[0] + "\n" + (Unlines(lines[1..]) + last);
    } else {
      SplitPart(last, '\n', "");
      assert "" + last == last;
    }
  }

  /** Bytes add up, and a character takes one to four of them. */
  lemma {:induction false} ByteLenMeaning(a: string, b: string, c: char)
    ensures ByteLen(a + b) == ByteLen(a) + ByteLen(b)
    ensures ByteLen([c]) == (if c as int <= 0x7F then 1 else if c as int <= 0x7FF then 2
                             else if c as int <= 0xFFFF then 3 else 4)
  {
    if |a| > 0 {
      ByteLenMeaning(a[1..], b, c);
      assert (a + b)[1..] == a[1..] + b;
    } else {
      assert a + b == b;
    }
    assert [c][1..] == [];
  }
}
