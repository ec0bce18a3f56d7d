/**
 Flat TR-ID rules from collected rows, and exactly when a rule means its row
 (apps/guruterminal/scripts/generate-kis-read-api.py:363-421).
 */
module KisRules {
  import opened KisTree
  import opened Wrappers

  /** An insertion-ordered dict of names and literals. */
  type Dict = seq<(string, Literal)>

  function Lookup(d: Dict, name: string): Option<Literal> {
    if |d| == 0 then None
    else if d[|d| - 1].0 == name then Some(d[|d| - 1].1)
    else Lookup(d[..|d| - 1], name)
  }

  /** An existing key keeps its place and gets the new value. */
  function Put(d: Dict, name: string, value: Literal): Dict {
    if |d| == 0 then [(name, value)]
    else if d[|d| - 1].0 == name then d[..|d| - 1] + [(name, value)]
    else Put(d[..|d| - 1], name, value) + [d[|d| - 1]]
  }

  lemma {:induction false} PutLookup(d: Dict, name: string, value: Literal, other: string)
    ensures Lookup(Put(d, name, value), other) == if other == name then Some(value) else Lookup(d, other)
  {
    if |d| > 0 {
      var front := d[..|d| - 1];
      PutLookup(front, name, value, other);
      assert (front + [(name, value)])[..|front|] == front;
      var longer := Put(front, name, value);
      assert (longer + [d[|d| - 1]])[..|longer|] == longer;
    }
  }

  datatype Rule = Rule(conditions: map<string, Literal>, value: string)

  const ENVIRONMENT: string := "environment"

  // ------------------------------------------------------------ conditions

  predicate Parsed(path: seq<Condition>) {
    forall c | c in path :: ParseEquality(c.test).Some?
  }

  function NameOf(c: Condition): string
    requires ParseEquality(c.test).Some?
  {
    ParseEquality(c.test).value.0
  }

  function ExpectedOf(c: Condition): Literal
    requires ParseEquality(c.test).Some?
  {
    ParseEquality(c.test).value.1
  }

  predicate Constrains(c: Condition) {
    c.taken && !IsRealOrDemo(c.test)
  }

  /** The taken equalities; None when two of them contradict each other. */
  function Positives(path: seq<Condition>): Option<Dict>
    requires Parsed(path)
  {
    if |path| == 0 then Some([])
    else
      var front, c := path[..|path| - 1], path[|path| - 1];
      assert Parsed(front) && ParseEquality(c.test).Some?;
      match Positives(front)
      case None => None
      case Some(d) =>
        if !Constrains(c) then Some(d)
        else if Lookup(d, NameOf(c)).Some? && !PyEq(Lookup(d, NameOf(c)).value, ExpectedOf(c)) then None
        else Some(Put(d, NameOf(c), ExpectedOf(c)))
  }

  /** Every refused equality is on a name with a taken one, or is the environment test. */
  predicate NegativesCovered(path: seq<Condition>, d: Dict)
    requires Parsed(path)
  {
    forall c | c in path && !c.taken :: Lookup(d, NameOf(c)).Some? || IsRealOrDemo(c.test)
  }

  function Exposed(name: string): string {
    if name == ENV then ENVIRONMENT else name
  }

  /** The conditions of a rule: the positives under their exposed names. */
  function When(d: Dict): map<string, Literal> {
    if |d| == 0 then map[] else When(d[..|d| - 1])[Exposed(d[|d| - 1].0) := d[|d| - 1].1]
  }

  /** The rule of a row, unless the row cannot be represented. */
  function RawRule(row: Row): Option<Rule> {
    if !Parsed(row.path) then None
    else
      match Positives(row.path)
      case None => None
      case Some(d) => if NegativesCovered(row.path, d) then Some(Rule(When(d), row.value)) else None
  }

  /** Both environments are made explicit. */
  function Expand(rule: Rule): seq<Rule> {
    if ENVIRONMENT in rule.conditions then [rule]
    else
      [rule.(conditions := rule.conditions[ENVIRONMENT := Str("real")]),
       rule.(conditions := rule.conditions[ENVIRONMENT := Str("demo")])]
  }

  // ------------------------------------------------------------- what rules mean

  /** The parameter an exposed name stands for. */
  function Hidden(name: string): string {
    if name == ENVIRONMENT then ENV else name
  }

  ghost predicate Matches(rule: Rule, v: Valuation) {
    forall name :: name in rule.conditions ==> PyEq(v.param(Hidden(name)), rule.conditions[name])
  }

  ghost predicate AnyMatches(rules: seq<Rule>, value: string, v: Valuation) {
    exists rule :: rule in rules && rule.value == value && Matches(rule, v)
  }

  lemma {:induction false} PyEqEquivalence(a: Literal, b: Literal, c: Literal)
    ensures PyEq(a, a) && (PyEq(a, b) <==> PyEq(b, a)) && (PyEq(a, b) && PyEq(b, c) ==> PyEq(a, c))
  {
  }

  lemma {:induction false} ExpandMatches(rule: Rule, v: Valuation)
    requires EnvironmentKnown(v)
    ensures (exists r :: r in Expand(rule) && Matches(r, v)) <==> Matches(rule, v)
    ensures forall r :: r in Expand(rule) ==> r.value == rule.value
  {
    if ENVIRONMENT in rule.conditions {
      assert rule in Expand(rule);
    } else {
      var live, demo := Expand(rule)[0], Expand(rule)[1];
      assert live in Expand(rule) && demo in Expand(rule);
      AddedCondition(rule, ENVIRONMENT, Str("real"), v);
      AddedCondition(rule, ENVIRONMENT, Str("demo"), v);
    }
  }

  lemma {:induction false} AddedCondition(rule: Rule, name: string, value: Literal, v: Valuation)
    requires name !in rule.conditions
    ensures Matches(rule.(conditions := rule.conditions[name := value]), v) <==>
            Matches(rule, v) && PyEq(v.param(Hidden(name)), value)
  {
    var more := rule.(conditions := rule.conditions[name := value]);
    if Matches(more, v) {
      forall other | other in rule.conditions
        ensures PyEq(v.param(Hidden(other)), rule.conditions[other])
      {
        assert other in more.conditions && more.conditions[other] == rule.conditions[other];
      }
      assert name in more.conditions;
    }
  }

  // -------------------------------------------------- one row and its rule

  ghost predicate DictHolds(d: Dict, v: Valuation) {
    forall name :: Lookup(d, name).Some? ==> PyEq(v.param(name), Lookup(d, name).value)
  }

  ghost predicate TakenHold(path: seq<Condition>, v: Valuation) {
    forall c :: c in path && Constrains(c) ==> Decides(c.test, v)
  }

  lemma {:induction false} PutHolds(d: Dict, name: string, value: Literal, v: Valuation)
    requires Lookup(d, name).Some? ==> PyEq(Lookup(d, name).value, value)
    ensures DictHolds(Put(d, name, value), v) <==> DictHolds(d, v) && PyEq(v.param(name), value)
  {
    forall other
      ensures Lookup(Put(d, name, value), other) == if other == name then Some(value) else Lookup(d, other)
    {
      PutLookup(d, name, value, other);
    }
    if Lookup(d, name).Some? {
      PyEqEquivalence(v.param(name), value, Lookup(d, name).value);
      PyEqEquivalence(v.param(name), Lookup(d, name).value, value);
      PyEqEquivalence(Lookup(d, name).value, value, value);
    }
    assert Lookup(Put(d, name, value), name) == Some(value);
  }

  lemma {:induction false} TakenSnoc(front: seq<Condition>, c: Condition, v: Valuation)
    ensures TakenHold(front + [c], v) <==> TakenHold(front, v) && (Constrains(c) ==> Decides(c.test, v))
  {
    if TakenHold(front + [c], v) {
      forall b | b in front && Constrains(b)
        ensures Decides(b.test, v)
      {
        assert b in front + [c];
      }
      assert c in front + [c];
    }
  }

  /** The positives say exactly what the taken tests say. */
  lemma {:induction false} PositivesMeaning(path: seq<Condition>, v: Valuation)
    requires Parsed(path) && Positives(path).Some?
    ensures DictHolds(Positives(path).value, v) <==> TakenHold(path, v)
  {
    if |path| > 0 {
      var front, c := path[..|path| - 1], path[|path| - 1];
      assert path == front + [c] && c in path;
      PositivesMeaning(front, v);
      TakenSnoc(front, c, v);
      if Constrains(c) {
        ParsedMeaning(c.test, v);
        PutHolds(Positives(front).value, NameOf(c), ExpectedOf(c), v);
      }
    }
  }

  /**
   What a caller can check of a row: no taken test spells the environment marker
   out, no real-or-demo test is refused, no refused equality repeats the taken
   value of its name, and no parameter is called "environment".
   */
  predicate Faithful(path: seq<Condition>)
    requires Parsed(path) && Positives(path).Some?
  {
    var d := Positives(path).value;
    && (forall c | c in path && c.taken :: c.test != Compare(ENV, REAL_OR_DEMO))
    && (forall c | c in path && !c.taken :: !c.test.Or?)
    && (forall c | c in path && !c.taken && Lookup(d, NameOf(c)).Some? ::
          !PyEq(Lookup(d, NameOf(c)).value, ExpectedOf(c)))
    && Lookup(d, ENVIRONMENT).None?
  }

  lemma {:induction false} WhenMember(d: Dict, name: string)
    requires Lookup(d, ENVIRONMENT).None?
    ensures name in When(d) ==> name == Exposed(Hidden(name)) && Lookup(d, Hidden(name)) == Some(When(d)[name])
    ensures name !in When(d) && name == Exposed(Hidden(name)) ==> Lookup(d, Hidden(name)).None?
  {
    if |d| > 0 {
      WhenMember(d[..|d| - 1], name);
    }
  }

  /** Without a parameter called "environment" the rule says what the positives say. */
  lemma {:induction false} WhenMeaning(d: Dict, value: string, v: Valuation)
    requires Lookup(d, ENVIRONMENT).None?
    ensures Matches(Rule(When(d), value), v) <==> DictHolds(d, v)
  {
    var rule := Rule(When(d), value);
    forall name
      ensures name in When(d) ==> name == Exposed(Hidden(name)) && Lookup(d, Hidden(name)) == Some(When(d)[name])
      ensures name !in When(d) && name == Exposed(Hidden(name)) ==> Lookup(d, Hidden(name)).None?
    {
      WhenMember(d, name);
    }
    if Matches(rule, v) {
      forall name | Lookup(d, name).Some?
        ensures PyEq(v.param(name), Lookup(d, name).value)
      {
        assert Hidden(Exposed(name)) == name;
        assert Exposed(name) in rule.conditions;
      }
    }
  }

  lemma {:induction false} MarkerTests(test: Test)
    requires IsRealOrDemo(test)
    ensures test.Or? || test == Compare(ENV, REAL_OR_DEMO)
  {
  }

  lemma {:induction false} FaithfulCondition(path: seq<Condition>, c: Condition, v: Valuation)
    requires Parsed(path) && Positives(path).Some? && NegativesCovered(path, Positives(path).value) && Faithful(path)
    requires EnvironmentKnown(v) && DictHolds(Positives(path).value, v) && TakenHold(path, v) && c in path
    ensures Decides(c.test, v) == c.taken
  {
    var d := Positives(path).value;
    if c.taken {
      if IsRealOrDemo(c.test) {
        MarkerTests(c.test);
        AcceptedOr(c.test, v);
      }
    } else {
      assert c.test == Compare(NameOf(c), ExpectedOf(c));
      if Lookup(d, NameOf(c)).Some? {
        PyEqEquivalence(Lookup(d, NameOf(c)).value, v.param(NameOf(c)), ExpectedOf(c));
      }
    }
  }

  /** A faithful row's rule matches exactly when the row's path holds. */
  lemma {:induction false} FaithfulRow(row: Row, v: Valuation)
    requires RawRule(row).Some? && Faithful(row.path) && EnvironmentKnown(v)
    ensures Matches(RawRule(row).value, v) <==> PathHolds(row.path, v)
  {
    var d := Positives(row.path).value;
    WhenMeaning(d, row.value, v);
    PositivesMeaning(row.path, v);
    if TakenHold(row.path, v) {
      forall c | c in row.path
        ensures Decides(c.test, v) == c.taken
      {
        FaithfulCondition(row.path, c, v);
      }
    }
  }

  // --------------------------------------------- the rows that lose meaning

  /** A rule that names an environment names a known one. */
  predicate KnownEnvironment(rule: Rule) {
    ENVIRONMENT in rule.conditions ==> rule.conditions[ENVIRONMENT] in {Str("real"), Str("demo")}
  }

  function Different(value: Literal): Literal {
    if value.Str? then Int(0) else Str("")
  }

  /** The valuation that satisfies the rule and, for an unfaithful row, not its path. */
  function WitnessParam(d: Dict): string -> Literal {
    (name: string) =>
      if name == ENV then (if ENVIRONMENT in When(d) then When(d)[ENVIRONMENT] else Str("real"))
      else
        match Lookup(d, name)
        case None => Str("")
        case Some(value) => if name == ENVIRONMENT then Different(value) else value
  }

  lemma {:induction false} WhenOther(d: Dict, name: string)
    requires name != ENVIRONMENT
    ensures name in When(d) <==> name != ENV && Lookup(d, name).Some?
    ensures name in When(d) ==> When(d)[name] == Lookup(d, name).value
  {
    if |d| > 0 {
      WhenOther(d[..|d| - 1], name);
    }
  }

  lemma {:induction false} WitnessMatches(d: Dict, value: string, v: Valuation)
    requires v.param == WitnessParam(d)
    ensures Matches(Rule(When(d), value), v)
  {
    forall name | name in When(d)
      ensures PyEq(v.param(Hidden(name)), When(d)[name])
    {
      if name != ENVIRONMENT {
        WhenOther(d, name);
      }
    }
  }

  /** What a faithful row excludes, at one condition. */
  predicate Misread(d: Dict, c: Condition)
    requires ParseEquality(c.test).Some?
  {
    || (c.taken && c.test == Compare(ENV, REAL_OR_DEMO))
    || (!c.taken && c.test.Or?)
    || (!c.taken && Lookup(d, NameOf(c)).Some? && PyEq(Lookup(d, NameOf(c)).value, ExpectedOf(c)))
  }

  lemma {:induction false} UnfaithfulParts(path: seq<Condition>)
    requires Parsed(path) && Positives(path).Some? && !Faithful(path)
    ensures Lookup(Positives(path).value, ENVIRONMENT).Some? ||
            exists c :: c in path && Misread(Positives(path).value, c)
  {
  }

  lemma {:induction false} MisreadFails(d: Dict, c: Condition, v: Valuation)
    requires ParseEquality(c.test).Some? && Misread(d, c) && Lookup(d, ENVIRONMENT).None?
    requires v.param == WitnessParam(d) && EnvironmentKnown(v)
    ensures Decides(c.test, v) != c.taken
  {
    if !c.taken {
      if c.test.Or? {
        AcceptedOr(c.test, v);
      } else {
        assert c.test == Compare(NameOf(c), ExpectedOf(c));
        WhenMember(d, ENVIRONMENT);
        PyEqEquivalence(v.param(NameOf(c)), Lookup(d, NameOf(c)).value, ExpectedOf(c));
      }
    }
  }

  /** An unfaithful row's rule matches a valuation on which its path does not hold. */
  lemma {:induction false} UnfaithfulRow(row: Row) returns (v: Valuation)
    requires RawRule(row).Some? && KnownEnvironment(RawRule(row).value) && !Faithful(row.path)
    ensures EnvironmentKnown(v) && Matches(RawRule(row).value, v) && !PathHolds(row.path, v)
  {
    var d := Positives(row.path).value;
    v := Valuation(WitnessParam(d), (id: string) => false);
    WitnessMatches(d, row.value, v);
    if Lookup(d, ENVIRONMENT).Some? {
      PositivesMeaning(row.path, v);
      assert !DictHolds(d, v);
    } else {
      UnfaithfulParts(row.path);
      var c :| c in row.path && Misread(d, c);
      MisreadFails(d, c, v);
    }
  }

  ghost predicate MeansItsRow(row: Row)
    requires RawRule(row).Some?
  {
    forall v :: EnvironmentKnown(v) ==> (Matches(RawRule(row).value, v) <==> PathHolds(row.path, v))
  }

  /** A rule means its row if and only if the row is faithful. */
  lemma {:induction false} MeansIffFaithful(row: Row)
    requires RawRule(row).Some? && KnownEnvironment(RawRule(row).value)
    ensures MeansItsRow(row) <==> Faithful(row.path)
  {
    if Faithful(row.path) {
      forall v | EnvironmentKnown(v)
        ensures Matches(RawRule(row).value, v) <==> PathHolds(row.path, v)
      {
        FaithfulRow(row, v);
      }
    } else {
      var v := UnfaithfulRow(row);
    }
  }

  // ---------------------------------------------- which rows are accepted

  /** A taken comparison of this name with a literal, other than the environment marker. */
  predicate Takes(c: Condition, name: string) {
    && c.taken && c.test.Compare? && c.test.name == name
    && !(name == "env_dv" && c.test.value == Str("real_or_demo"))
  }

  /**
   Every test is a comparison or asks for either environment; comparisons taken
   of one name agree; and a comparison refused has one of its name that is taken,
   unless it refuses the environment marker.
   */
  ghost predicate Representable(path: seq<Condition>) {
    && (forall c :: c in path ==> c.test.Compare? || EitherEnvironment(c.test))
    && (forall c, d, name :: c in path && d in path && Takes(c, name) && Takes(d, name) ==>
          PyEq(c.test.value, d.test.value))
    && (forall c :: c in path && !c.taken && c.test.Compare? && c.test != Compare("env_dv", Str("real_or_demo")) ==>
          Takesome(path, c.test.name))
  }

  ghost predicate Takesome(path: seq<Condition>, name: string) {
    exists c :: c in path && Takes(c, name)
  }

  lemma {:induction false} ParsedShape(c: Condition)
    ensures ParseEquality(c.test).Some? <==> c.test.Compare? || EitherEnvironment(c.test)
    ensures ParseEquality(c.test).Some? ==> forall name :: Constrains(c) && NameOf(c) == name <==> Takes(c, name)
    ensures ParseEquality(c.test).Some? && Constrains(c) ==> c.test == Compare(NameOf(c), ExpectedOf(c))
    ensures IsRealOrDemo(c.test) <==> EitherEnvironment(c.test) || c.test == Compare("env_dv", Str("real_or_demo"))
  {
    ParseMeaning(c.test);
    if EitherEnvironment(c.test) {
      assert ParseEquality(c.test) == Some(("env_dv", Str("real_or_demo")));
    }
    if c.test.Compare? {
      assert ParseEquality(c.test) == Some((c.test.name, c.test.value));
    }
  }

  /** The taken comparisons of one name agree with one another. */
  ghost predicate TakenAgree(path: seq<Condition>) {
    forall c, d, name :: c in path && d in path && Takes(c, name) && Takes(d, name) ==> PyEq(c.test.value, d.test.value)
  }

  /** The dict has a name exactly if it is taken, with a value that was taken. */
  ghost predicate HoldsTaken(d: Dict, path: seq<Condition>) {
    forall name :: match Lookup(d, name)
                   case None => !Takesome(path, name)
                   case Some(value) => exists c :: c in path && Takes(c, name) && c.test.value == value
  }

  lemma {:induction false} TakesSnoc(front: seq<Condition>, c: Condition, name: string)
    ensures Takesome(front + [c], name) <==> Takesome(front, name) || Takes(c, name)
  {
    if Takesome(front, name) {
      var d :| d in front && Takes(d, name);
      assert d in front + [c];
    }
    if Takes(c, name) {
      assert c in front + [c];
    }
  }

  lemma {:induction false} PutHoldsTaken(d: Dict, front: seq<Condition>, c: Condition)
    requires HoldsTaken(d, front) && ParseEquality(c.test).Some? && Constrains(c)
    ensures HoldsTaken(Put(d, NameOf(c), ExpectedOf(c)), front + [c])
  {
    ParsedShape(c);
    var next, path := Put(d, NameOf(c), ExpectedOf(c)), front + [c];
    forall name
      ensures match Lookup(next, name)
              case None => !Takesome(path, name)
              case Some(value) => exists b :: b in path && Takes(b, name) && b.test.value == value
    {
      PutLookup(d, NameOf(c), ExpectedOf(c), name);
      TakesSnoc(front, c, name);
      if name == NameOf(c) {
        assert c in path && Takes(c, name) && c.test.value == ExpectedOf(c);
      } else if Lookup(d, name).Some? {
        var b :| b in front && Takes(b, name) && b.test.value == Lookup(d, name).value;
        assert b in path;
      }
    }
  }

  lemma {:induction false} SkipHoldsTaken(d: Dict, front: seq<Condition>, c: Condition)
    requires HoldsTaken(d, front) && ParseEquality(c.test).Some? && !Constrains(c)
    ensures HoldsTaken(d, front + [c])
  {
    ParsedShape(c);
    forall name
      ensures match Lookup(d, name)
              case None => !Takesome(front + [c], name)
              case Some(value) => exists b :: b in front + [c] && Takes(b, name) && b.test.value == value
    {
      TakesSnoc(front, c, name);
      if Lookup(d, name).Some? {
        var b :| b in front && Takes(b, name) && b.test.value == Lookup(d, name).value;
        assert b in front + [c];
      }
    }
  }

  lemma {:induction false} AgreeSnoc(front: seq<Condition>, c: Condition, d: Dict)
    requires TakenAgree(front) && HoldsTaken(d, front) && ParseEquality(c.test).Some?
    ensures TakenAgree(front + [c]) <==>
            (Constrains(c) && Lookup(d, NameOf(c)).Some? ==> PyEq(Lookup(d, NameOf(c)).value, ExpectedOf(c)))
  {
    ParsedShape(c);
    var path := front + [c];
    if Constrains(c) && Lookup(d, NameOf(c)).Some? {
      var name := NameOf(c);
      var b :| b in front && Takes(b, name) && b.test.value == Lookup(d, name).value;
      if TakenAgree(path) {
        assert b in path && c in path && Takes(c, name);
      } else if PyEq(b.test.value, c.test.value) {
        forall x, y, n | x in path && y in path && Takes(x, n) && Takes(y, n)
          ensures PyEq(x.test.value, y.test.value)
        {
          AgreeThrough(front, b, c, x, y, n);
        }
      }
    } else {
      forall x, y, n | x in path && y in path && Takes(x, n) && Takes(y, n)
        ensures PyEq(x.test.value, y.test.value)
      {
        PyEqEquivalence(x.test.value, y.test.value, x.test.value);
        if !(x in front && y in front) && x != y {
          assert Takesome(front, n) && Takes(c, n);
        }
      }
    }
  }

  lemma {:induction false} AgreeThrough(front: seq<Condition>, b: Condition, c: Condition, x: Condition, y: Condition,
                                        name: string)
    requires TakenAgree(front) && b in front && x in front + [c] && y in front + [c]
    requires Takes(x, name) && Takes(y, name)
    requires c.test.Compare? && Takes(c, c.test.name) && Takes(b, c.test.name)
    requires PyEq(b.test.value, c.test.value)
    ensures PyEq(x.test.value, y.test.value)
  {
    PyEqEquivalence(x.test.value, b.test.value, y.test.value);
    PyEqEquivalence(b.test.value, c.test.value, b.test.value);
    PyEqEquivalence(x.test.value, b.test.value, c.test.value);
    PyEqEquivalence(c.test.value, b.test.value, y.test.value);
    PyEqEquivalence(x.test.value, y.test.value, x.test.value);
  }

  lemma {:induction false} PositivesAccept(path: seq<Condition>)
    requires Parsed(path)
    ensures Positives(path).Some? <==> TakenAgree(path)
    ensures Positives(path).Some? ==> HoldsTaken(Positives(path).value, path)
  {
    if |path| > 0 {
      var front, c := path[..|path| - 1], path[|path| - 1];
      assert path == front + [c] && c in path;
      PositivesAccept(front);
      if Positives(front).Some? {
        var d := Positives(front).value;
        AgreeSnoc(front, c, d);
        if Constrains(c) {
          PutHoldsTaken(d, front, c);
        } else {
          SkipHoldsTaken(d, front, c);
        }
      } else {
        assert forall x :: x in front ==> x in path;
      }
    }
  }

  /** A row has a rule exactly if its path is representable. */
  lemma {:induction false} RowAccepted(row: Row)
    ensures RawRule(row).Some? <==> Representable(row.path)
  {
    var path := row.path;
    forall c | c in path
      ensures ParseEquality(c.test).Some? <==> c.test.Compare? || EitherEnvironment(c.test)
    {
      ParsedShape(c);
    }
    if Parsed(path) {
      PositivesAccept(path);
      if Positives(path).Some? {
        NegativesAccept(path, Positives(path).value);
      }
    }
  }

  lemma {:induction false} NegativesAccept(path: seq<Condition>, d: Dict)
    requires Parsed(path) && HoldsTaken(d, path)
    ensures NegativesCovered(path, d) <==>
            forall c :: c in path && !c.taken && c.test.Compare? && c.test != Compare("env_dv", Str("real_or_demo")) ==>
              Takesome(path, c.test.name)
  {
    forall c | c in path && !c.taken
      ensures Lookup(d, NameOf(c)).Some? || IsRealOrDemo(c.test) <==>
              !c.test.Compare? || c.test == Compare("env_dv", Str("real_or_demo")) || Takesome(path, c.test.name)
    {
      ParsedShape(c);
      ParseMeaning(c.test);
      assert c.test.Compare? ==> NameOf(c) == c.test.name;
    }
  }

  /** Under its exposed name each taken comparison is a condition of the rule, and nothing else is. */
  lemma {:induction false} WhenKeys(d: Dict)
    ensures forall name :: name in When(d) <==> exists key :: Lookup(d, key).Some? && Exposed(key) == name
    ensures forall name :: name in When(d) ==>
              exists key :: Lookup(d, key) == Some(When(d)[name]) && Exposed(key) == name
  {
    if |d| > 0 {
      var front, last := d[..|d| - 1], d[|d| - 1];
      WhenKeys(front);
      forall name
        ensures name in When(d) <==> exists key :: Lookup(d, key).Some? && Exposed(key) == name
        ensures name in When(d) ==> exists key :: Lookup(d, key) == Some(When(d)[name]) && Exposed(key) == name
      {
        WhenKey(d, name);
      }
    }
  }

  lemma {:induction false} WhenKey(d: Dict, name: string)
    requires |d| > 0
    requires name in When(d[..|d| - 1]) <==>
             exists key :: Lookup(d[..|d| - 1], key).Some? && Exposed(key) == name
    requires name in When(d[..|d| - 1]) ==>
               exists key :: Lookup(d[..|d| - 1], key) == Some(When(d[..|d| - 1])[name]) && Exposed(key) == name
    ensures name in When(d) <==> exists key :: Lookup(d, key).Some? && Exposed(key) == name
    ensures name in When(d) ==> exists key :: Lookup(d, key) == Some(When(d)[name]) && Exposed(key) == name
  {
    var front, last := d[..|d| - 1], d[|d| - 1];
    if name == Exposed(last.0) {
      assert Lookup(d, last.0) == Some(last.1);
    } else {
      if name in When(d) {
        var key :| Lookup(front, key) == Some(When(front)[name]) && Exposed(key) == name;
        assert Lookup(d, key) == Lookup(front, key);
      }
      if key :| Lookup(d, key).Some? && Exposed(key) == name {
        assert Lookup(front, key).Some?;
      }
    }
  }

  lemma {:induction false} RuleConditions(row: Row)
    requires RawRule(row).Some?
    ensures RawRule(row).value.value == row.value
    ensures forall name :: name in RawRule(row).value.conditions <==>
              exists key :: Takesome(row.path, key) && (if key == "env_dv" then "environment" else key) == name
    ensures forall name :: name in RawRule(row).value.conditions ==>
              exists c, key :: c in row.path && Takes(c, key) &&
                               (if key == "env_dv" then "environment" else key) == name &&
                               c.test.value == RawRule(row).value.conditions[name]
  {
    var d := Positives(row.path).value;
    PositivesAccept(row.path);
    WhenKeys(d);
    forall key
      ensures Lookup(d, key).Some? <==> Takesome(row.path, key)
    {
      if Lookup(d, key).Some? {
        var c :| c in row.path && Takes(c, key) && c.test.value == Lookup(d, key).value;
      }
    }
    forall name | name in When(d)
      ensures exists c, key :: c in row.path && Takes(c, key) &&
                               (if key == "env_dv" then "environment" else key) == name && c.test.value == When(d)[name]
    {
      var key :| Lookup(d, key) == Some(When(d)[name]) && Exposed(key) == name;
      var c :| c in row.path && Takes(c, key) && c.test.value == Lookup(d, key).value;
    }
  }

  // ------------------------------------------------------------ the extractor

  function RawRules(rows: seq<Row>): Option<seq<Rule>> {
    if |rows| == 0 then Some([])
    else
      match (RawRules(rows[..|rows| - 1]), RawRule(rows[|rows| - 1]))
      case (Some(rules), Some(rule)) => Some(rules + [rule])
      case (_, _) => None
  }

  function ExpandAll(rules: seq<Rule>): seq<Rule> {
    if |rules| == 0 then [] else ExpandAll(rules[..|rules| - 1]) + Expand(rules[|rules| - 1])
  }

  /** The first of equal rules; their JSON keys are equal exactly when they are. */
  function Dedup(rules: seq<Rule>): seq<Rule> {
    if |rules| == 0 then []
    else
      var front, last := rules[..|rules| - 1], rules[|rules| - 1];
      Dedup(front) + if last in front then [] else [last]
  }

  /** The environments the rules name are exactly the two. */
  predicate CoversBoth(rules: seq<Rule>) {
    (set rule | rule in rules && ENVIRONMENT in rule.conditions :: rule.conditions[ENVIRONMENT]) ==
        {Str("real"), Str("demo")} &&
    forall rule | rule in rules :: ENVIRONMENT in rule.conditions
  }

  /** `extract_tr_id_rules`: the rules of a tree, or a failure. */
  function Rules(block: Block): Option<seq<Rule>> {
    var rows := RowsOfBlock(block, []);
    if !ParsesBlock(block) || rows == [] then None
    else
      match RawRules(rows)
      case None => None
      case Some(raw) => if CoversBoth(Dedup(ExpandAll(raw))) then Some(Dedup(ExpandAll(raw))) else None
  }

  method CompileRows(rows: seq<Row>) returns (raw: Option<seq<Rule>>)
    ensures raw == RawRules(rows)
  {
    var rules: seq<Rule> := [];
    for i := 0 to |rows|
      invariant RawRules(rows[..i]) == Some(rules)
    {
      assert rows[..i + 1][..i] == rows[..i];
      var rule := RawRule(rows[i]);
      if rule.None? {
        StaysNone(rows, i + 1);
        return None;
      }
      rules := rules + [rule.value];
    }
    assert rows[..|rows|] == rows;
    raw := Some(rules);
  }

  lemma {:induction false} StaysNone(rows: seq<Row>, i: nat)
    requires i <= |rows| && RawRules(rows[..i]).None?
    ensures RawRules(rows).None?
    decreases |rows| - i
  {
    if i < |rows| {
      assert rows[..i + 1][..i] == rows[..i];
      StaysNone(rows, i + 1);
    } else {
      assert rows[..i] == rows;
    }
  }

  method Deduplicate(expanded: seq<Rule>) returns (rules: seq<Rule>)
    ensures rules == Dedup(expanded)
  {
    var seen: set<Rule> := {};
    rules := [];
    for i := 0 to |expanded|
      invariant rules == Dedup(expanded[..i])
      invariant forall rule :: rule in seen <==> rule in expanded[..i]
    {
      assert expanded[..i + 1] == expanded[..i] + [expanded[i]] && expanded[..i + 1][..i] == expanded[..i];
      if expanded[i] !in seen {
        seen := seen + {expanded[i]};
        rules := rules + [expanded[i]];
      }
    }
    assert expanded[..|expanded|] == expanded;
  }

  method ExpandRules(raw: seq<Rule>) returns (expanded: seq<Rule>)
    ensures expanded == ExpandAll(raw)
  {
    expanded := [];
    for i := 0 to |raw|
      invariant expanded == ExpandAll(raw[..i])
    {
      assert raw[..i + 1][..i] == raw[..i];
      expanded := expanded + Expand(raw[i]);
    }
    assert raw[..|raw|] == raw;
  }

  /** Each rule is for the real or the demo environment, and both have one. */
  ghost predicate BothEnvironments(rules: seq<Rule>) {
    && (forall rule :: rule in rules ==>
          "environment" in rule.conditions && rule.conditions["environment"] in {Str("real"), Str("demo")})
    && (exists rule :: rule in rules && HasEnvironment(rule, "real"))
    && (exists rule :: rule in rules && HasEnvironment(rule, "demo"))
  }

  predicate HasEnvironment(rule: Rule, name: string) {
    "environment" in rule.conditions && rule.conditions["environment"] == Str(name)
  }

  lemma {:induction false} CoversMeaning(rules: seq<Rule>)
    ensures CoversBoth(rules) <==> BothEnvironments(rules)
  {
    var named := set rule | rule in rules && ENVIRONMENT in rule.conditions :: rule.conditions[ENVIRONMENT];
    if CoversBoth(rules) {
      assert Str("real") in named && Str("demo") in named;
      var live :| live in rules && ENVIRONMENT in live.conditions && live.conditions[ENVIRONMENT] == Str("real");
      var demo :| demo in rules && ENVIRONMENT in demo.conditions && demo.conditions[ENVIRONMENT] == Str("demo");
      assert HasEnvironment(live, "real") && HasEnvironment(demo, "demo");
      forall rule | rule in rules
        ensures rule.conditions[ENVIRONMENT] in {Str("real"), Str("demo")}
      {
        assert rule.conditions[ENVIRONMENT] in named;
      }
    }
    if BothEnvironments(rules) {
      var live :| live in rules && HasEnvironment(live, "real");
      var demo :| demo in rules && HasEnvironment(demo, "demo");
      assert live.conditions[ENVIRONMENT] in named && demo.conditions[ENVIRONMENT] in named;
      assert named == {Str("real"), Str("demo")};
    }
  }

  lemma {:induction false} DedupDistinct(rules: seq<Rule>)
    ensures forall i, j :: 0 <= i < j < |Dedup(rules)| ==> Dedup(rules)[i] != Dedup(rules)[j]
  {
    if |rules| > 0 {
      DedupDistinct(rules[..|rules| - 1]);
      DedupMembers(rules[..|rules| - 1]);
    }
  }

  /** The row's rule is for this environment, or for both. */
  ghost predicate Serves(row: Row, name: string) {
    RawRule(row).Some? &&
    ("environment" !in RawRule(row).value.conditions || RawRule(row).value.conditions["environment"] == Str(name))
  }

  lemma {:induction false} RawMembers(rows: seq<Row>)
    ensures RawRules(rows).Some? <==> forall row :: row in rows ==> RawRule(row).Some?
    ensures RawRules(rows).Some? ==>
              forall rule :: rule in RawRules(rows).value <==> exists row :: row in rows && RawRule(row) == Some(rule)
  {
    if |rows| > 0 {
      var front, last := rows[..|rows| - 1], rows[|rows| - 1];
      assert rows == front + [last];
      RawMembers(front);
    }
  }

  lemma {:induction false} ExpandedMembers(rules: seq<Rule>)
    ensures forall rule :: rule in ExpandAll(rules) <==> exists raw :: raw in rules && rule in Expand(raw)
  {
    if |rules| > 0 {
      var front, last := rules[..|rules| - 1], rules[|rules| - 1];
      assert rules == front + [last];
      ExpandedMembers(front);
    }
  }

  lemma {:induction false} ExpandedEnvironments(raw: Rule, name: string)
    requires name in {"real", "demo"}
    ensures (exists rule :: rule in Expand(raw) && HasEnvironment(rule, name)) <==>
            "environment" !in raw.conditions || raw.conditions["environment"] == Str(name)
    ensures (forall rule :: rule in Expand(raw) ==> HasEnvironment(rule, "real") || HasEnvironment(rule, "demo")) <==>
            "environment" !in raw.conditions || raw.conditions["environment"] in {Str("real"), Str("demo")}
  {
    var expanded := Expand(raw);
    if "environment" in raw.conditions {
      assert expanded == [raw] && raw in expanded;
    } else {
      assert expanded[0] in expanded && expanded[1] in expanded;
      assert HasEnvironment(expanded[0], "real") && HasEnvironment(expanded[1], "demo");
    }
  }

  /** Each row's rule serves an environment, and each environment is served. */
  ghost predicate Covered(rows: seq<Row>) {
    && (forall row :: row in rows ==> Serves(row, "real") || Serves(row, "demo"))
    && (exists row :: row in rows && Serves(row, "real")) && (exists row :: row in rows && Serves(row, "demo"))
  }

  predicate NamesEnvironment(rule: Rule) {
    HasEnvironment(rule, "real") || HasEnvironment(rule, "demo")
  }

  lemma {:induction false} RowServes(row: Row)
    requires RawRule(row).Some?
    ensures Serves(row, "real") || Serves(row, "demo") <==>
            forall rule :: rule in Expand(RawRule(row).value) ==> NamesEnvironment(rule)
  {
    ExpandedEnvironments(RawRule(row).value, "real");
  }

  lemma {:induction false} RowsServe(rows: seq<Row>)
    requires RawRules(rows).Some?
    ensures (forall rule :: rule in ExpandAll(RawRules(rows).value) ==> NamesEnvironment(rule)) <==>
            forall row :: row in rows ==> Serves(row, "real") || Serves(row, "demo")
  {
    var raw := RawRules(rows).value;
    RawMembers(rows);
    ExpandedMembers(raw);
    if forall rule :: rule in ExpandAll(raw) ==> NamesEnvironment(rule) {
      forall row | row in rows
        ensures Serves(row, "real") || Serves(row, "demo")
      {
        assert RawRule(row).value in raw;
        RowServes(row);
      }
    } else {
      var rule :| rule in ExpandAll(raw) && !NamesEnvironment(rule);
      var r :| r in raw && rule in Expand(r);
      var row :| row in rows && RawRule(row) == Some(r);
      RowServes(row);
    }
  }

  lemma {:induction false} CoverageMeaning(rows: seq<Row>)
    requires RawRules(rows).Some?
    ensures BothEnvironments(ExpandAll(RawRules(rows).value)) <==> Covered(rows)
  {
    RowsServe(rows);
    CoversName(rows, "real");
    CoversName(rows, "demo");
    assert forall rule :: NamesEnvironment(rule) <==>
             "environment" in rule.conditions && rule.conditions["environment"] in {Str("real"), Str("demo")};
  }

  lemma {:induction false} CoversName(rows: seq<Row>, name: string)
    requires RawRules(rows).Some? && name in {"real", "demo"}
    ensures (exists rule :: rule in ExpandAll(RawRules(rows).value) && HasEnvironment(rule, name)) <==>
            exists row :: row in rows && Serves(row, name)
  {
    var raw := RawRules(rows).value;
    RawMembers(rows);
    ExpandedMembers(raw);
    if rule :| rule in ExpandAll(raw) && HasEnvironment(rule, name) {
      var r :| r in raw && rule in Expand(r);
      var row :| row in rows && RawRule(row) == Some(r);
      ExpandedEnvironments(r, name);
      assert Serves(row, name);
    }
    if row :| row in rows && Serves(row, name) {
      ExpandedEnvironments(RawRule(row).value, name);
      var rule :| rule in Expand(RawRule(row).value) && HasEnvironment(rule, name);
      assert RawRule(row).value in raw && rule in ExpandAll(raw);
    }
  }

  lemma {:induction false} SameCoverage(rules: seq<Rule>)
    ensures CoversBoth(Dedup(rules)) <==> BothEnvironments(rules)
  {
    CoversMeaning(Dedup(rules));
    DedupMembers(rules);
  }

  lemma {:induction false} RowsAccepted(rows: seq<Row>)
    ensures RowsParse(rows, 0) && RawRules(rows).Some? <==>
            forall row :: row in rows ==> row.value != "" && Representable(row.path)
  {
    RawMembers(rows);
    forall row | row in rows
      ensures RowParses(row, 0) && RawRule(row).Some? <==> row.value != "" && Representable(row.path)
    {
      RowAccepted(row);
    }
  }

  /**
   A tree is accepted exactly if it assigns something, every assigned value is a
   name, every path is representable, and the rules cover real and demo.
   */
  lemma {:induction false} TreeAccepted(block: Block)
    ensures var rows := RowsOfBlock(block, []);
            Rules(block).Some? <==>
            && rows != [] && (forall row :: row in rows ==> row.value != "" && Representable(row.path))
            && Covered(rows)
  {
    var rows := RowsOfBlock(block, []);
    BlockParses(block, []);
    RowsAccepted(rows);
    if RawRules(rows).Some? {
      CoverageMeaning(rows);
      SameCoverage(ExpandAll(RawRules(rows).value));
    }
  }

  method ExtractTrIdRules(block: Block) returns (rules: Option<seq<Rule>>)
    ensures rules == Rules(block)
    ensures rules.Some? ==> BothEnvironments(rules.value)
    ensures rules.Some? ==> forall i, j :: 0 <= i < j < |rules.value| ==> rules.value[i] != rules.value[j]
  {
    var rows := VisitBlock(block, [], []);
    if rows.None? || rows.value == [] {
      return None;
    }
    assert rows.value == RowsOfBlock(block, []);
    var raw := CompileRows(rows.value);
    if raw.None? {
      return None;
    }
    var expanded := ExpandRules(raw.value);
    var unique := Deduplicate(expanded);
    CoversMeaning(unique);
    DedupDistinct(expanded);
    rules := if CoversBoth(unique) then Some(unique) else None;
  }

  // -------------------------------------------------- whole trees, preserved

  lemma {:induction false} DedupMembers(rules: seq<Rule>)
    ensures forall rule :: rule in Dedup(rules) <==> rule in rules
  {
    if |rules| > 0 {
      DedupMembers(rules[..|rules| - 1]);
      assert rules == rules[..|rules| - 1] + [rules[|rules| - 1]];
    }
  }

  lemma {:induction false} AnyJoin(a: seq<Rule>, b: seq<Rule>, value: string, v: Valuation)
    ensures AnyMatches(a + b, value, v) <==> AnyMatches(a, value, v) || AnyMatches(b, value, v)
  {
  }

  lemma {:induction false} ExpandAllMatches(rules: seq<Rule>, value: string, v: Valuation)
    requires EnvironmentKnown(v)
    ensures AnyMatches(ExpandAll(rules), value, v) <==> AnyMatches(rules, value, v)
  {
    if |rules| > 0 {
      var front, last := rules[..|rules| - 1], rules[|rules| - 1];
      ExpandAllMatches(front, value, v);
      ExpandOne(last, value, v);
      OneMatches(last, value, v);
      assert rules == front + [last];
      AnySnoc(ExpandAll(front), Expand(last), front, last, value, v);
    }
  }

  lemma {:induction false} AnySnoc(a: seq<Rule>, b: seq<Rule>, front: seq<Rule>, last: Rule, value: string,
                                   v: Valuation)
    requires AnyMatches(a, value, v) <==> AnyMatches(front, value, v)
    requires AnyMatches(b, value, v) <==> AnyMatches([last], value, v)
    ensures AnyMatches(a + b, value, v) <==> AnyMatches(front + [last], value, v)
  {
    AnyJoin(a, b, value, v);
    AnyJoin(front, [last], value, v);
  }

  lemma {:induction false} ExpandOne(rule: Rule, value: string, v: Valuation)
    requires EnvironmentKnown(v)
    ensures AnyMatches(Expand(rule), value, v) <==> rule.value == value && Matches(rule, v)
  {
    ExpandMatches(rule, v);
    if rule.value == value && Matches(rule, v) {
      var r :| r in Expand(rule) && Matches(r, v);
    }
  }

  lemma {:induction false} OneMatches(rule: Rule, value: string, v: Valuation)
    ensures AnyMatches([rule], value, v) <==> rule.value == value && Matches(rule, v)
  {
    assert rule in [rule];
  }

  lemma {:induction false} RawRulesMatch(rows: seq<Row>, value: string, v: Valuation)
    requires EnvironmentKnown(v) && RawRules(rows).Some?
    requires forall row :: row in rows && RawRule(row).Some? ==> Faithful(row.path)
    ensures AnyMatches(RawRules(rows).value, value, v) <==> HasRow(rows, value, v)
  {
    if |rows| > 0 {
      var front, last := rows[..|rows| - 1], rows[|rows| - 1];
      assert rows == front + [last];
      RawRulesMatch(front, value, v);
      AnyJoin(RawRules(front).value, [RawRule(last).value], value, v);
      OneMatches(RawRule(last).value, value, v);
      FaithfulRow(last, v);
      HasRowJoin(front, [last], value, v);
      assert last in [last];
    }
  }

  predicate FaithfulRows(block: Block) {
    forall row | row in RowsOfBlock(block, []) && RawRule(row).Some? :: Faithful(row.path)
  }

  /**
   For an accepted tree of faithful rows and a known environment, a rule with this
   value matches exactly when the run assigns the value or skips it behind its end.
   */
  lemma {:induction false} RulesMeanRuns(block: Block, value: string, v: Valuation)
    requires Rules(block).Some? && FaithfulRows(block) && EnvironmentKnown(v)
    ensures AnyMatches(Rules(block).value, value, v) <==>
            value in RunBlock(block, v).values || value in Skipped(block, v)
  {
    var rows := RowsOfBlock(block, []);
    var raw := RawRules(rows).value;
    BlockRunsRows(block, [], value, v);
    RawRulesMatch(rows, value, v);
    ExpandAllMatches(raw, value, v);
    DedupMembers(ExpandAll(raw));
  }

  ghost predicate Agree(block: Block, v: Valuation)
    requires Rules(block).Some?
  {
    forall value :: AnyMatches(Rules(block).value, value, v) <==> value in RunBlock(block, v).values
  }

  /** Rules and run agree exactly when the run skips nothing that it does not also assign. */
  lemma {:induction false} AgreeIffNothingSkipped(block: Block, v: Valuation)
    requires Rules(block).Some? && FaithfulRows(block) && EnvironmentKnown(v)
    ensures Agree(block, v) <==> Skipped(block, v) <= RunBlock(block, v).values
  {
    forall value
      ensures AnyMatches(Rules(block).value, value, v) <==>
              value in RunBlock(block, v).values || value in Skipped(block, v)
    {
      RulesMeanRuns(block, value, v);
    }
    if Agree(block, v) {
      forall value | value in Skipped(block, v)
        ensures value in RunBlock(block, v).values
      {
        assert AnyMatches(Rules(block).value, value, v);
      }
    }
  }

  // ------------------------------------------------- accepted failing inputs

  const TR_RULE: Rule := Rule(map[], "TR")

  lemma {:induction false} OneRowRules(block: Block, path: seq<Condition>)
    requires ParsesBlock(block) && RowsOfBlock(block, []) == [Row("TR", path)]
    requires RawRule(Row("TR", path)) == Some(TR_RULE)
    ensures Rules(block) == Some(Expand(TR_RULE))
  {
    OneRawRule(Row("TR", path));
    OneExpanded();
  }

  lemma {:induction false} OneRawRule(row: Row)
    requires RawRule(row) == Some(TR_RULE)
    ensures RawRules([row]) == Some([TR_RULE])
  {
    assert [row][..0] == [] && RawRules([]) == Some([]) && [] + [TR_RULE] == [TR_RULE];
  }

  lemma {:induction false} OneExpanded()
    ensures ExpandAll([TR_RULE]) == Expand(TR_RULE) && CoversBoth(Expand(TR_RULE))
    ensures Dedup(Expand(TR_RULE)) == Expand(TR_RULE)
  {
    var both := Expand(TR_RULE);
    assert [TR_RULE][..0] == [] && ExpandAll([]) == [] && [] + both == both;
    TwoRules(both[0], both[1]);
    assert both == [both[0], both[1]];
  }

  lemma {:induction false} TwoRules(live: Rule, demo: Rule)
    requires live == Rule(map[ENVIRONMENT := Str("real")], "TR") && demo == Rule(map[ENVIRONMENT := Str("demo")], "TR")
    ensures Dedup([live, demo]) == [live, demo] && CoversBoth([live, demo])
  {
    var rules := [live, demo];
    assert live.conditions[ENVIRONMENT] != demo.conditions[ENVIRONMENT];
    assert rules[..1] == [live] && [live][..0] == [];
    assert Dedup([live]) == [live];
    var named := set rule | rule in rules && ENVIRONMENT in rule.conditions :: rule.conditions[ENVIRONMENT];
    assert live in rules && demo in rules;
    assert Str("real") in named && Str("demo") in named;
  }

  const MARKER_TEST: Test := Compare(ENV, REAL_OR_DEMO)
  const MARKER_TREE: Block := Cons(If(MARKER_TEST, Cons(Assign("TR"), Empty), Empty), Empty)

  const MARKER_TAKEN: Condition := Condition(MARKER_TEST, true)

  lemma {:induction false} MarkerRows()
    ensures RowsOfBlock(MARKER_TREE, []) == [Row("TR", [MARKER_TAKEN])] && ParsesBlock(MARKER_TREE)
  {
    var body := Cons(Assign("TR"), Empty);
    assert [] + [MARKER_TAKEN] == [MARKER_TAKEN];
    assert RowsOfBlock(body, [MARKER_TAKEN]) == [Row("TR", [MARKER_TAKEN])];
    assert RowsOfStmt(MARKER_TREE.head, []) == [Row("TR", [MARKER_TAKEN])];
    assert ParsesBlock(body);
  }

  lemma {:induction false} MarkerRule()
    ensures RawRule(Row("TR", [MARKER_TAKEN])) == Some(TR_RULE)
  {
    var path := [MARKER_TAKEN];
    assert path[..0] == [];
    assert Parsed(path) && !Constrains(MARKER_TAKEN);
    assert Positives(path) == Some([]);
  }

  lemma {:induction false} MarkerRules()
    ensures Rules(MARKER_TREE) == Some(Expand(TR_RULE))
  {
    MarkerRows();
    MarkerRule();
    OneRowRules(MARKER_TREE, [MARKER_TAKEN]);
  }

  lemma {:induction false} MarkerHolds(v: Valuation)
    requires EnvironmentKnown(v)
    ensures HeldBlock(MARKER_TREE, v) == {}
  {
    assert !Decides(MARKER_TEST, v);
    assert HeldStmt(MARKER_TREE.head, v) == HeldBlock(Empty, v);
  }

  /** An if that asks for the marker itself: its rule holds everywhere, its path nowhere. */
  lemma {:induction false} MarkerSpelledOut(v: Valuation)
    requires EnvironmentKnown(v)
    ensures Rules(MARKER_TREE).Some?
    ensures AnyMatches(Rules(MARKER_TREE).value, "TR", v) && HeldBlock(MARKER_TREE, v) == {}
  {
    MarkerRules();
    MarkerHolds(v);
    ExpandOne(TR_RULE, "TR", v);
  }

  const KIND_IS_A: Test := Compare("kind", Str("a"))
  const RETURN_ONLY: Block := Cons(Return, Empty)
  const LAST: Block := Cons(Assign("TR"), Empty)
  const EARLY_RETURN: Block := Cons(If(KIND_IS_A, RETURN_ONLY, Empty), LAST)

  lemma {:induction false} LastRows()
    ensures RowsOfBlock(LAST, []) == [Row("TR", [])]
  {
    assert RowsOfStmt(Assign("TR"), []) == [Row("TR", [])] && RowsOfBlock(Empty, []) == [];
    assert RowsOfBlock(LAST, []) == RowsOfStmt(Assign("TR"), []) + RowsOfBlock(Empty, []);
  }

  lemma {:induction false} EarlyReturnRules()
    ensures Rules(EARLY_RETURN) == Some(Expand(TR_RULE)) && RowsOfBlock(EARLY_RETURN, []) == [Row("TR", [])]
  {
    var early := EARLY_RETURN.head;
    var taken := [] + [Condition(KIND_IS_A, true)];
    assert RowsOfStmt(Return, taken) == [] && RowsOfBlock(Empty, taken) == [] && RowsOfBlock(RETURN_ONLY, taken) == [];
    assert RowsOfStmt(early, []) == [];
    LastRows();
    assert AssignsBlock(RETURN_ONLY) == false && AssignsStmt(early) == false;
    assert ParsesBlock(LAST) && ParsesBlock(EARLY_RETURN);
    assert Positives([]) == Some([]);
    OneRowRules(EARLY_RETURN, []);
  }

  lemma {:induction false} EarlyReturnRuns(v: Valuation)
    requires Decides(KIND_IS_A, v)
    ensures RunBlock(EARLY_RETURN, v).values == {} && Skipped(EARLY_RETURN, v) == {"TR"}
  {
    assert RunStmt(Return, v) == Outcome({}, Returned);
    assert RunBlock(RETURN_ONLY, v) == Outcome({}, Returned);
    assert RunStmt(EARLY_RETURN.head, v) == Outcome({}, Returned);
    assert Skipped(RETURN_ONLY, v) == {} && HeldBlock(LAST, v) == {"TR"};
  }

  lemma {:induction false} EarlyReturnFaithful()
    ensures FaithfulRows(EARLY_RETURN)
  {
    EarlyReturnRules();
    assert Positives([]) == Some([]);
    assert Faithful([]);
  }

  /** A return before the assignment: a rule matches and the run assigns nothing. */
  lemma {:induction false} EarlyReturn(v: Valuation)
    requires EnvironmentKnown(v) && Decides(KIND_IS_A, v)
    ensures Rules(EARLY_RETURN).Some? && FaithfulRows(EARLY_RETURN)
    ensures AnyMatches(Rules(EARLY_RETURN).value, "TR", v) && RunBlock(EARLY_RETURN, v).values == {}
  {
    EarlyReturnRules();
    EarlyReturnFaithful();
    EarlyReturnRuns(v);
    ExpandOne(TR_RULE, "TR", v);
  }
}
