/**
 Canonical distribution names and the packages of a lockfile
 (apps/guruterminal/openbb/license_bundle.py:19, 52-91).
 */
module LockFile {
  import opened Wrappers

  // -------------------------------------------------------------- names

  predicate IsSeparator(c: char) {
    c == '-' || c == '_' || c == '.'
  }

  function LowerChar(c: char): char {
    if 'A' <= c <= 'Z' then ((c as int) + 32) as char else c
  }

  /** Lower case, with every run of separators replaced by one dash; names are ASCII. */
  function CanonicalizeName(name: string): string {
    if |name| == 0 then ""
    else if !IsSeparator(name[0]) then [LowerChar(name[0])] + CanonicalizeName(name[1..])
    else if |name| > 1 && IsSeparator(name[1]) then CanonicalizeName(name[1..])
    else ['-'] + CanonicalizeName(name[1..])
  }

  /** PEP 503 normal form: no capitals, no underscore or dot, no two dashes in a row. */
  predicate IsNormal(name: string) {
    && (forall c | c in name :: !('A' <= c <= 'Z') && c != '_' && c != '.')
    && (forall i | 0 <= i < |name| - 1 :: name[i] != '-' || name[i + 1] != '-')
  }

  lemma {:induction false} CanonicalStart(name: string)
    ensures CanonicalizeName(name) != "" ==> name != ""
    ensures name != "" && !IsSeparator(name[0]) ==>
              CanonicalizeName(name) != "" && CanonicalizeName(name)[0] == LowerChar(name[0]) != '-'
  {
  }

  /** Canonical names are normal. */
  lemma {:induction false} CanonicalIsNormal(name: string)
    ensures IsNormal(CanonicalizeName(name))
  {
    if |name| > 0 {
      CanonicalIsNormal(name[1..]);
      CanonicalStart(name[1..]);
      var rest := CanonicalizeName(name[1..]);
      if !IsSeparator(name[0]) {
        PrependNormal(LowerChar(name[0]), rest);
      } else if |name| == 1 || !IsSeparator(name[1]) {
        PrependNormal('-', rest);
      }
    }
  }

  lemma {:induction false} PrependNormal(c: char, rest: string)
    requires IsNormal(rest) && !('A' <= c <= 'Z') && c != '_' && c != '.'
    requires c == '-' ==> rest == "" || rest[0] != '-'
    ensures IsNormal([c] + rest)
  {
    var name := [c] + rest;
    forall i | 0 <= i < |name| - 1
      ensures name[i] != '-' || name[i + 1] != '-'
    {
      if i > 0 {
        assert name[i] == rest[i - 1] && name[i + 1] == rest[i];
      }
    }
  }

  /** Normal names are their own canonical form. */
  lemma {:induction false} NormalIsCanonical(name: string)
    requires IsNormal(name)
    ensures CanonicalizeName(name) == name
  {
    if |name| > 0 {
      assert name[0] in name && (|name| > 1 ==> name[1] in name);
      assert forall c :: c in name[1..] ==> c in name;
      forall i | 0 <= i < |name[1..]| - 1
        ensures name[1..][i] != '-' || name[1..][i + 1] != '-'
      {
        assert name[1..][i] == name[i + 1] && name[1..][i + 1] == name[i + 2];
      }
      NormalIsCanonical(name[1..]);
      assert name == [name[0]] + name[1..];
    }
  }

  /** Canonicalising twice is canonicalising once, so each package has one key. */
  lemma {:induction false} CanonicalTwice(name: string)
    ensures CanonicalizeName(CanonicalizeName(name)) == CanonicalizeName(name)
  {
    CanonicalIsNormal(name);
    NormalIsCanonical(CanonicalizeName(name));
  }

  /** Without separators the name is lower-cased letter by letter. */
  lemma {:induction false} CanonicalPlain(name: string)
    requires forall c :: c in name ==> c != '-' && c != '_' && c != '.'
    ensures |CanonicalizeName(name)| == |name|
    ensures forall i :: 0 <= i < |name| ==>
              CanonicalizeName(name)[i] as int ==
              if 'A' <= name[i] <= 'Z' then name[i] as int - 'A' as int + 'a' as int else name[i] as int
  {
    if |name| > 0 {
      assert name[0] in name && forall c :: c in name[1..] ==> c in name;
      CanonicalPlain(name[1..]);
      forall i | 0 < i < |name|
        ensures CanonicalizeName(name)[i] == CanonicalizeName(name[1..])[i - 1] && name[i] == name[1..][i - 1]
      {
      }
    }
  }

  predicate IsRun(run: string) {
    run != "" && forall c | c in run :: c == '-' || c == '_' || c == '.'
  }

  predicate IsSeparatorAt(name: string, i: int) {
    0 <= i < |name| && (name[i] == '-' || name[i] == '_' || name[i] == '.')
  }

  lemma {:induction false} LeadingRun(run: string, behind: string)
    requires IsRun(run) && !IsSeparatorAt(behind, 0)
    ensures CanonicalizeName(run + behind) == "-" + CanonicalizeName(behind)
  {
    var name := run + behind;
    assert run[0] in run && name[0] == run[0];
    if |run| > 1 {
      assert name[1] == run[1] && run[1] in run && name[1..] == run[1..] + behind;
      assert forall c :: c in run[1..] ==> c in run;
      LeadingRun(run[1..], behind);
    } else {
      assert name[1..] == behind;
    }
  }

  /** A run of separators becomes one dash between what stands before and behind it. */
  lemma {:induction false} CanonicalRun(before: string, run: string, behind: string)
    requires IsRun(run) && !IsSeparatorAt(before, |before| - 1) && !IsSeparatorAt(behind, 0)
    ensures CanonicalizeName(before + run + behind) == CanonicalizeName(before) + "-" + CanonicalizeName(behind)
  {
    if before == "" {
      assert before + run + behind == run + behind;
      LeadingRun(run, behind);
    } else {
      RunBehind(before, run + behind);
      CanonicalRun(before[1..], run, behind);
      assert (before + run + behind)[1..] == before[1..] + run + behind;
      assert before + run + behind == before + (run + behind);
      assert before[1..] + run + behind == before[1..] + (run + behind);
    }
  }

  /** The first character of a text that does not end in a separator is canonicalised by itself. */
  lemma {:induction false} RunBehind(before: string, rest: string)
    requires before != "" && !IsSeparatorAt(before, |before| - 1)
    ensures CanonicalizeName(before + rest) == Head(before) + CanonicalizeName(before[1..] + rest)
    ensures CanonicalizeName(before) == Head(before) + CanonicalizeName(before[1..])
  {
    assert (before + rest)[1..] == before[1..] + rest;
  }

  function Head(name: string): string
    requires name != ""
  {
    if !IsSeparator(name[0]) then [LowerChar(name[0])]
    else if |name| > 1 && IsSeparator(name[1]) then "" else "-"
  }

  // ------------------------------------------------------------ the lockfile

  /** The value of a TOML key that may be missing, a string, a list or something else. */
  datatype Extras = Missing | One(extra: string) | Many(extras: seq<string>) | Other

  datatype Dependency = Dependency(name: string, extra: Extras, extras: Extras)

  datatype Package = Package(name: string, dependencies: seq<Dependency>, optional: map<string, seq<Dependency>>)

  type Packages = map<string, Package>

  const ROOT: string := "guruterminal-openbb"

  /** `_dependency_extras`: the key "extra", when present, hides "extras". */
  function RequestedExtras(d: Dependency): seq<string> {
    match if d.extra.Missing? then d.extras else d.extra
    case One(extra) => [extra]
    case Many(extras) => extras
    case _ => []
  }

  /** The dependency asks for this extra: under "extra", or under "extras" if there is no such key. */
  predicate Wants(d: Dependency, e: string) {
    || d.extra == One(e)
    || (d.extra.Many? && e in d.extra.extras)
    || (d.extra.Missing? && (d.extras == One(e) || (d.extras.Many? && e in d.extras.extras)))
  }

  lemma {:induction false} RequestedMeaning(d: Dependency)
    ensures forall e :: e in RequestedExtras(d) <==> Wants(d, e)
  {
  }

  datatype LockError = Nameless | Duplicate(name: string) | NoRoot | MissingDependency(name: string)

  ghost predicate NamesDistinct(listed: seq<Package>) {
    && (forall p :: p in listed ==> CanonicalizeName(p.name) != "")
    && (forall i, j :: 0 <= i < j < |listed| ==> CanonicalizeName(listed[i].name) != CanonicalizeName(listed[j].name))
  }

  ghost predicate Holds(packages: Packages, listed: seq<Package>) {
    && (forall name :: name in packages ==> packages[name] in listed && CanonicalizeName(packages[name].name) == name)
    && (forall p :: p in listed ==> CanonicalizeName(p.name) in packages)
  }

  lemma {:induction false} HoldsNext(packages: Packages, listed: seq<Package>, p: Package)
    requires Holds(packages, listed) && NamesDistinct(listed)
    requires CanonicalizeName(p.name) != "" && CanonicalizeName(p.name) !in packages
    ensures Holds(packages[CanonicalizeName(p.name) := p], listed + [p]) && NamesDistinct(listed + [p])
  {
    var all := listed + [p];
    forall i, j | 0 <= i < j < |all|
      ensures CanonicalizeName(all[i].name) != CanonicalizeName(all[j].name)
    {
      assert listed[i] in listed;
    }
  }

  /** A name met twice, or an empty one, means the list has no distinct names. */
  lemma {:induction false} NotDistinct(packages: Packages, listed: seq<Package>, i: nat)
    requires i < |listed| && Holds(packages, listed[..i])
    requires CanonicalizeName(listed[i].name) == "" || CanonicalizeName(listed[i].name) in packages
    ensures !NamesDistinct(listed)
  {
    var name := CanonicalizeName(listed[i].name);
    assert listed[i] in listed;
    if name in packages {
      assert packages[name] in listed[..i];
      var k :| 0 <= k < i && listed[..i][k] == packages[name];
    }
  }

  /** `_lock_packages`: one entry for each canonical name. */
  method LockPackages(listed: seq<Package>) returns (packages: Result<Packages, LockError>)
    ensures packages.Ok? <==>
            NamesDistinct(listed) && exists p :: p in listed && CanonicalizeName(p.name) == "guruterminal-openbb"
    ensures packages.Ok? ==> Holds(packages.value, listed) && ROOT in packages.value
  {
    var found: Packages := map[];
    for i := 0 to |listed|
      invariant Holds(found, listed[..i]) && NamesDistinct(listed[..i])
    {
      var name := CanonicalizeName(listed[i].name);
      if name == "" {
        NotDistinct(found, listed, i);
        return Err(Nameless);
      }
      if name in found {
        NotDistinct(found, listed, i);
        return Err(Duplicate(name));
      }
      HoldsNext(found, listed[..i], listed[i]);
      assert listed[..i + 1] == listed[..i] + [listed[i]];
      found := found[name := listed[i]];
    }
    assert listed[..|listed|] == listed;
    packages := if ROOT in found then Ok(found) else Err(NoRoot);
  }
}
