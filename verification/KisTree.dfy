/**
 The if-trees that choose a KIS request's TR ID, what a run of one assigns, and
 the rows the extractor collects from it
 (apps/guruterminal/scripts/generate-kis-read-api.py:299-361).
 */
module KisTree {
  import opened Wrappers

  datatype Literal = Str(text: string) | Int(value: int) | Bool(truth: bool)

  function Number(a: Literal): int {
    match a
    case Str(_) => 0
    case Int(value) => value
    case Bool(truth) => if truth then 1 else 0
  }

  /** Python's `==` between these literals: True is 1 and False is 0. */
  predicate PyEq(a: Literal, b: Literal) {
    if a.Str? || b.Str? then a == b else Number(a) == Number(b)
  }

  /** Equality case by case. */
  lemma {:induction false} PyEqMeaning(s: string, t: string, n: int, m: int, p: bool, q: bool)
    ensures PyEq(Str(s), Str(t)) <==> s == t
    ensures PyEq(Int(n), Int(m)) <==> n == m
    ensures PyEq(Bool(p), Bool(q)) <==> p == q
    ensures !PyEq(Str(s), Int(n)) && !PyEq(Int(n), Str(s)) && !PyEq(Str(s), Bool(p)) && !PyEq(Bool(p), Str(s))
    ensures PyEq(Int(n), Bool(p)) == PyEq(Bool(p), Int(n)) == ((n == 0 && !p) || (n == 1 && p))
  {
  }

  /** Comparing a name with a literal, a disjunction, or anything else. */
  datatype Test = Compare(name: string, value: Literal) | Or(tests: seq<Test>) | Opaque(id: string)

  /** Values of the parameters, and what the other tests decide. */
  datatype Valuation = Valuation(param: string -> Literal, opaqueTest: string -> bool)

  const ENV: string := "env_dv"
  const REAL_OR_DEMO: Literal := Str("real_or_demo")

  predicate EnvironmentKnown(v: Valuation) {
    v.param(ENV) in {Str("real"), Str("demo")}
  }

  predicate Decides(test: Test, v: Valuation) {
    match test
    case Compare(name, value) => PyEq(v.param(name), value)
    case Or(tests) => exists t | t in tests :: Decides(t, v)
    case Opaque(id) => v.opaqueTest(id)
  }

  /** A tr_id assignment, a raise, a return, a statement that assigns no tr_id, an if. */
  datatype Stmt = Assign(value: string) | Raise | Return | Skip | If(test: Test, body: Block, orelse: Block)

  datatype Block = Empty | Cons(head: Stmt, tail: Block)

  // ------------------------------------------------------------------- runs

  datatype Ending = Continues | Returned | Raised

  /** The TR IDs a run assigns, and how it ends. */
  datatype Outcome = Outcome(values: set<string>, ending: Ending)

  function RunStmt(s: Stmt, v: Valuation): Outcome {
    match s
    case Assign(value) => Outcome({value}, Continues)
    case Raise => Outcome({}, Raised)
    case Return => Outcome({}, Returned)
    case Skip => Outcome({}, Continues)
    case If(test, body, orelse) => if Decides(test, v) then RunBlock(body, v) else RunBlock(orelse, v)
  }

  function RunBlock(block: Block, v: Valuation): Outcome {
    match block
    case Empty => Outcome({}, Continues)
    case Cons(head, tail) =>
      var first := RunStmt(head, v);
      if !first.ending.Continues? then first
      else
        var rest := RunBlock(tail, v);
        Outcome(first.values + rest.values, rest.ending)
  }

  /** The TR IDs of all assignments whose own tests hold, whether or not the run gets there. */
  function HeldStmt(s: Stmt, v: Valuation): set<string> {
    match s
    case Assign(value) => {value}
    case If(test, body, orelse) => if Decides(test, v) then HeldBlock(body, v) else HeldBlock(orelse, v)
    case _ => {}
  }

  function HeldBlock(block: Block, v: Valuation): set<string> {
    match block
    case Empty => {}
    case Cons(head, tail) => HeldStmt(head, v) + HeldBlock(tail, v)
  }

  /** Those that stand behind the return or raise that ended the run. */
  function SkippedStmt(s: Stmt, v: Valuation): set<string> {
    match s
    case If(test, body, orelse) => if Decides(test, v) then Skipped(body, v) else Skipped(orelse, v)
    case _ => {}
  }

  function Skipped(block: Block, v: Valuation): set<string> {
    match block
    case Empty => {}
    case Cons(head, tail) =>
      if RunStmt(head, v).ending.Continues? then Skipped(tail, v) else SkippedStmt(head, v) + HeldBlock(tail, v)
  }

  lemma {:induction false} HeldStmtSplits(s: Stmt, v: Valuation)
    ensures HeldStmt(s, v) == RunStmt(s, v).values + SkippedStmt(s, v)
    ensures RunStmt(s, v).ending.Continues? ==> SkippedStmt(s, v) == {}
    decreases s, 1
  {
    if s.If? {
      HeldSplits(s.body, v);
      HeldSplits(s.orelse, v);
    }
  }

  /** An assignment whose tests hold is either run or skipped. */
  lemma {:induction false} HeldSplits(block: Block, v: Valuation)
    ensures HeldBlock(block, v) == RunBlock(block, v).values + Skipped(block, v)
    ensures RunBlock(block, v).ending.Continues? ==> Skipped(block, v) == {}
    decreases block, 0
  {
    if block.Cons? {
      HeldStmtSplits(block.head, v);
      HeldSplits(block.tail, v);
    }
  }

  /** A statement that may end the run. */
  predicate MayStopStmt(s: Stmt) {
    match s
    case Return => true
    case Raise => true
    case If(_, body, orelse) => MayStop(body) || MayStop(orelse)
    case _ => false
  }

  predicate MayStop(block: Block) {
    match block
    case Empty => false
    case Cons(head, tail) => MayStopStmt(head) || MayStop(tail)
  }

  /** No assignment stands after a statement that may end the run. */
  predicate StopsLateStmt(s: Stmt) {
    match s
    case If(_, body, orelse) => StopsLate(body) && StopsLate(orelse)
    case _ => true
  }

  predicate StopsLate(block: Block) {
    match block
    case Empty => true
    case Cons(head, tail) =>
      StopsLateStmt(head) && StopsLate(tail) && (MayStopStmt(head) ==> !AssignsBlock(tail))
  }

  lemma {:induction false} StoppedMayStop(s: Stmt, v: Valuation)
    ensures !RunStmt(s, v).ending.Continues? ==> MayStopStmt(s)
    decreases s, 1
  {
    if s.If? {
      StoppedMayStopBlock(s.body, v);
      StoppedMayStopBlock(s.orelse, v);
    }
  }

  lemma {:induction false} StoppedMayStopBlock(block: Block, v: Valuation)
    ensures !RunBlock(block, v).ending.Continues? ==> MayStop(block)
    decreases block, 0
  {
    if block.Cons? {
      StoppedMayStop(block.head, v);
      StoppedMayStopBlock(block.tail, v);
    }
  }

  lemma {:induction false} NothingHeld(block: Block, v: Valuation)
    requires !AssignsBlock(block)
    ensures HeldBlock(block, v) == {}
    decreases block
  {
    if block.Cons? {
      NothingHeld(block.tail, v);
      if block.head.If? {
        NothingHeld(block.head.body, v);
        NothingHeld(block.head.orelse, v);
      }
    }
  }

  /** A tree that stops late, which its shape alone shows, never skips an assignment. */
  lemma {:induction false} LateStopsSkipNothing(block: Block, v: Valuation)
    requires StopsLate(block)
    ensures Skipped(block, v) == {}
    decreases block
  {
    if block.Cons? {
      StoppedMayStop(block.head, v);
      LateStopsSkipNothing(block.tail, v);
      if block.head.If? {
        LateStopsSkipNothing(block.head.body, v);
        LateStopsSkipNothing(block.head.orelse, v);
      }
      if MayStopStmt(block.head) {
        NothingHeld(block.tail, v);
      }
    }
  }

  // ------------------------------------------------------------------- rows

  predicate AssignsStmt(s: Stmt) {
    match s
    case Assign(_) => true
    case If(_, body, orelse) => AssignsBlock(body) || AssignsBlock(orelse)
    case _ => false
  }

  predicate AssignsBlock(block: Block) {
    match block
    case Empty => false
    case Cons(head, tail) => AssignsStmt(head) || AssignsBlock(tail)
  }

  /** A test taken or refused on the way to an assignment. */
  datatype Condition = Condition(test: Test, taken: bool)

  datatype Row = Row(value: string, path: seq<Condition>)

  predicate PathHolds(path: seq<Condition>, v: Valuation) {
    forall c | c in path :: Decides(c.test, v) == c.taken
  }

  /** The assignments of a tree, each with the conditions around it. */
  function RowsOfStmt(s: Stmt, path: seq<Condition>): seq<Row> {
    match s
    case Assign(value) => [Row(value, path)]
    case If(test, body, orelse) =>
      RowsOfBlock(body, path + [Condition(test, true)]) + RowsOfBlock(orelse, path + [Condition(test, false)])
    case _ => []
  }

  function RowsOfBlock(block: Block, path: seq<Condition>): seq<Row> {
    match block
    case Empty => []
    case Cons(head, tail) => RowsOfStmt(head, path) + RowsOfBlock(tail, path)
  }

  ghost predicate HasRow(rows: seq<Row>, value: string, v: Valuation) {
    exists row :: row in rows && row.value == value && PathHolds(row.path, v)
  }

  lemma {:induction false} HasRowJoin(a: seq<Row>, b: seq<Row>, value: string, v: Valuation)
    ensures HasRow(a + b, value, v) <==> HasRow(a, value, v) || HasRow(b, value, v)
  {
  }

  lemma {:induction false} PathSnoc(path: seq<Condition>, c: Condition, v: Valuation)
    ensures PathHolds(path + [c], v) <==> PathHolds(path, v) && Decides(c.test, v) == c.taken
  {
    if PathHolds(path + [c], v) {
      forall d | d in path
        ensures Decides(d.test, v) == d.taken
      {
        assert d in path + [c];
      }
      assert c in path + [c];
    }
  }

  /** Every row's path extends the path of its tree. */
  lemma {:induction false} StmtRowsBelow(s: Stmt, path: seq<Condition>, value: string, v: Valuation)
    ensures HasRow(RowsOfStmt(s, path), value, v) ==> PathHolds(path, v)
    decreases s, 1
  {
    if s.Assign? {
      assert RowsOfStmt(s, path) == [Row(s.value, path)];
    } else if s.If? {
      BlockRowsBelow(s.body, path + [Condition(s.test, true)], value, v);
      BlockRowsBelow(s.orelse, path + [Condition(s.test, false)], value, v);
      PathSnoc(path, Condition(s.test, true), v);
      PathSnoc(path, Condition(s.test, false), v);
      HasRowJoin(RowsOfBlock(s.body, path + [Condition(s.test, true)]),
                 RowsOfBlock(s.orelse, path + [Condition(s.test, false)]), value, v);
    }
  }

  lemma {:induction false} BlockRowsBelow(block: Block, path: seq<Condition>, value: string, v: Valuation)
    ensures HasRow(RowsOfBlock(block, path), value, v) ==> PathHolds(path, v)
    decreases block, 0
  {
    if block.Cons? {
      StmtRowsBelow(block.head, path, value, v);
      BlockRowsBelow(block.tail, path, value, v);
      HasRowJoin(RowsOfStmt(block.head, path), RowsOfBlock(block.tail, path), value, v);
    }
  }

  lemma {:induction false} StmtHoldsRows(s: Stmt, path: seq<Condition>, value: string, v: Valuation)
    requires PathHolds(path, v)
    ensures value in HeldStmt(s, v) <==> HasRow(RowsOfStmt(s, path), value, v)
    decreases s, 1
  {
    if s.Assign? {
      assert RowsOfStmt(s, path) == [Row(s.value, path)];
      assert Row(s.value, path) in RowsOfStmt(s, path);
    } else if s.If? {
      IfHoldsRows(s, path, value, v);
    }
  }

  lemma {:induction false} IfHoldsRows(s: Stmt, path: seq<Condition>, value: string, v: Valuation)
    requires s.If? && PathHolds(path, v)
    ensures value in HeldStmt(s, v) <==> HasRow(RowsOfStmt(s, path), value, v)
    decreases s, 0
  {
    var yes, no := path + [Condition(s.test, true)], path + [Condition(s.test, false)];
    PathSnoc(path, Condition(s.test, true), v);
    PathSnoc(path, Condition(s.test, false), v);
    BlockRowsBelow(s.body, yes, value, v);
    BlockRowsBelow(s.orelse, no, value, v);
    HasRowJoin(RowsOfBlock(s.body, yes), RowsOfBlock(s.orelse, no), value, v);
    if Decides(s.test, v) {
      BlockHoldsRows(s.body, yes, value, v);
    } else {
      BlockHoldsRows(s.orelse, no, value, v);
    }
  }

  /** The rows whose path holds are the assignments whose tests hold. */
  lemma {:induction false} BlockHoldsRows(block: Block, path: seq<Condition>, value: string, v: Valuation)
    requires PathHolds(path, v)
    ensures value in HeldBlock(block, v) <==> HasRow(RowsOfBlock(block, path), value, v)
    decreases block, 0
  {
    if block.Cons? {
      StmtHoldsRows(block.head, path, value, v);
      BlockHoldsRows(block.tail, path, value, v);
      HasRowJoin(RowsOfStmt(block.head, path), RowsOfBlock(block.tail, path), value, v);
    }
  }

  /** A run assigns, or skips behind its end, exactly the rows whose path holds. */
  lemma {:induction false} BlockRunsRows(block: Block, path: seq<Condition>, value: string, v: Valuation)
    requires PathHolds(path, v)
    ensures HasRow(RowsOfBlock(block, path), value, v) <==>
            value in RunBlock(block, v).values || value in Skipped(block, v)
  {
    BlockHoldsRows(block, path, value, v);
    HeldSplits(block, v);
  }

  // -------------------------------------------------------- parsing the tests

  /** `parse_equality`: a name and a literal; the real-or-demo test has its own. */
  function ParseEquality(test: Test): Option<(string, Literal)> {
    match test
    case Compare(name, value) => Some((name, value))
    case Opaque(_) => None
    case Or(tests) =>
      if (forall t | t in tests :: ParseEquality(t).Some?) &&
         (set t | t in tests && ParseEquality(t).Some? :: ParseEquality(t).value) ==
             {(ENV, Str("real")), (ENV, Str("demo"))}
      then Some((ENV, REAL_OR_DEMO))
      else None
  }

  predicate IsRealOrDemo(test: Test) {
    ParseEquality(test) == Some((ENV, REAL_OR_DEMO))
  }

  lemma {:induction false} EnvironmentPart(t: Test, name: string)
    requires ParseEquality(t) == Some((ENV, Str(name))) && name in {"real", "demo"}
    ensures t == Compare(ENV, Str(name))
  {
  }

  /** A disjunction of `env_dv == "real"` and `env_dv == "demo"`, both of them and nothing else. */
  predicate EitherEnvironment(test: Test) {
    && test.Or?
    && Compare("env_dv", Str("real")) in test.tests && Compare("env_dv", Str("demo")) in test.tests
    && forall t | t in test.tests :: t == Compare("env_dv", Str("real")) || t == Compare("env_dv", Str("demo"))
  }

  /** Exactly these tests are parsed, and to these pairs. */
  lemma {:induction false} ParseMeaning(test: Test)
    ensures forall name, value :: ParseEquality(test) == Some((name, value)) <==>
              || test == Compare(name, value)
              || (EitherEnvironment(test) && name == "env_dv" && value == Str("real_or_demo"))
  {
    if test.Or? {
      OrParses(test);
    }
  }

  lemma {:induction false} OrParses(test: Test)
    requires test.Or?
    ensures ParseEquality(test) == if EitherEnvironment(test) then Some((ENV, REAL_OR_DEMO)) else None
  {
    var parsed := set t | t in test.tests && ParseEquality(t).Some? :: ParseEquality(t).value;
    if EitherEnvironment(test) {
      var live, demo := Compare("env_dv", Str("real")), Compare("env_dv", Str("demo"));
      assert ParseEquality(live) == Some((ENV, Str("real"))) && ParseEquality(demo) == Some((ENV, Str("demo")));
      assert live in test.tests && demo in test.tests;
      assert parsed == {(ENV, Str("real")), (ENV, Str("demo"))};
    } else if (forall t | t in test.tests :: ParseEquality(t).Some?) &&
        parsed == {(ENV, Str("real")), (ENV, Str("demo"))} {
      forall t | t in test.tests
        ensures t == Compare("env_dv", Str("real")) || t == Compare("env_dv", Str("demo"))
      {
        assert ParseEquality(t).value in parsed;
        EnvironmentPart(t, if ParseEquality(t).value == (ENV, Str("real")) then "real" else "demo");
      }
      ParsedPart(test, parsed, "real");
      ParsedPart(test, parsed, "demo");
    }
  }

  lemma {:induction false} ParsedPart(test: Test, parsed: set<(string, Literal)>, name: string)
    requires test.Or? && name in {"real", "demo"} && (ENV, Str(name)) in parsed
    requires parsed == set t | t in test.tests && ParseEquality(t).Some? :: ParseEquality(t).value
    ensures Compare("env_dv", Str(name)) in test.tests
  {
    var t :| t in test.tests && ParseEquality(t) == Some((ENV, Str(name)));
    EnvironmentPart(t, name);
  }

  /** An accepted disjunction is true of every known environment. */
  lemma {:induction false} AcceptedOr(test: Test, v: Valuation)
    requires test.Or? && ParseEquality(test).Some? && EnvironmentKnown(v)
    ensures IsRealOrDemo(test) && Decides(test, v)
  {
    var parsed := set t | t in test.tests && ParseEquality(t).Some? :: ParseEquality(t).value;
    assert (ENV, v.param(ENV)) in parsed;
    var t :| t in test.tests && ParseEquality(t).Some? && ParseEquality(t).value == (ENV, v.param(ENV));
    EnvironmentPart(t, v.param(ENV).text);
  }

  /** A test the extractor can parse means what it parses to. */
  lemma {:induction false} ParsedMeaning(test: Test, v: Valuation)
    requires ParseEquality(test).Some? && !IsRealOrDemo(test)
    ensures Decides(test, v) == PyEq(v.param(ParseEquality(test).value.0), ParseEquality(test).value.1)
  {
  }

  predicate ParsesStmt(s: Stmt) {
    match s
    case Assign(value) => value != ""
    case If(test, body, orelse) =>
      AssignsStmt(s) ==> ParseEquality(test).Some? && ParsesBlock(body) && ParsesBlock(orelse)
    case _ => true
  }

  predicate ParsesBlock(block: Block) {
    match block
    case Empty => true
    case Cons(head, tail) => ParsesStmt(head) && ParsesBlock(tail)
  }

  lemma {:induction false} NothingAssigned(block: Block, path: seq<Condition>)
    requires !AssignsBlock(block)
    ensures RowsOfBlock(block, path) == []
    decreases block
  {
    if block.Cons? {
      NothingAssigned(block.tail, path);
      if block.head.If? {
        NothingAssigned(block.head.body, path + [Condition(block.head.test, true)]);
        NothingAssigned(block.head.orelse, path + [Condition(block.head.test, false)]);
      }
    }
  }

  /** The row assigns something, under tests that parse from the n-th on. */
  predicate RowParses(row: Row, n: nat) {
    row.value != "" && forall i | n <= i < |row.path| :: ParseEquality(row.path[i].test).Some?
  }

  ghost predicate RowsParse(rows: seq<Row>, n: nat) {
    forall row :: row in rows ==> RowParses(row, n)
  }

  ghost predicate Extend(rows: seq<Row>, path: seq<Condition>) {
    forall row :: row in rows ==> path <= row.path
  }

  lemma {:induction false} StmtParses(s: Stmt, path: seq<Condition>)
    ensures Extend(RowsOfStmt(s, path), path) && (AssignsStmt(s) <==> RowsOfStmt(s, path) != [])
    ensures ParsesStmt(s) <==> RowsParse(RowsOfStmt(s, path), |path|)
    decreases s, 1
  {
    if s.Assign? {
      assert Row(s.value, path) in RowsOfStmt(s, path);
    } else if s.If? {
      var yes, no := path + [Condition(s.test, true)], path + [Condition(s.test, false)];
      BlockParses(s.body, yes);
      BlockParses(s.orelse, no);
      BranchParses(RowsOfBlock(s.body, yes), path, Condition(s.test, true));
      BranchParses(RowsOfBlock(s.orelse, no), path, Condition(s.test, false));
      RowsParseJoin(RowsOfBlock(s.body, yes), RowsOfBlock(s.orelse, no), |path|);
    }
  }

  lemma {:induction false} RowsParseJoin(a: seq<Row>, b: seq<Row>, n: nat)
    ensures RowsParse(a + b, n) <==> RowsParse(a, n) && RowsParse(b, n)
  {
    if RowsParse(a + b, n) {
      forall row | row in a || row in b
        ensures RowParses(row, n)
      {
        assert row in a + b;
      }
    }
  }

  lemma {:induction false} BranchParses(rows: seq<Row>, path: seq<Condition>, c: Condition)
    requires Extend(rows, path + [c])
    ensures Extend(rows, path)
    ensures RowsParse(rows, |path|) <==> rows == [] || (ParseEquality(c.test).Some? && RowsParse(rows, |path| + 1))
  {
    forall row | row in rows
      ensures path <= row.path && |row.path| > |path| && row.path[|path|] == c
    {
      assert path + [c] <= row.path && (path + [c])[|path|] == c && path <= path + [c];
    }
    if rows != [] {
      assert rows[0] in rows;
    }
  }

  /** A tree parses exactly when every assignment is of a name, under tests that parse. */
  lemma {:induction false} BlockParses(block: Block, path: seq<Condition>)
    ensures Extend(RowsOfBlock(block, path), path) && (AssignsBlock(block) <==> RowsOfBlock(block, path) != [])
    ensures ParsesBlock(block) <==> RowsParse(RowsOfBlock(block, path), |path|)
    decreases block, 0
  {
    if block.Cons? {
      StmtParses(block.head, path);
      BlockParses(block.tail, path);
      RowsParseJoin(RowsOfStmt(block.head, path), RowsOfBlock(block.tail, path), |path|);
    }
  }

  /** `Visitor`: pushes and pops conditions and appends rows, or fails. */
  method VisitBlock(block: Block, conditions: seq<Condition>, rows: seq<Row>) returns (found: Option<seq<Row>>)
    ensures found.Some? <==> ParsesBlock(block)
    ensures found.Some? ==> found.value == rows + RowsOfBlock(block, conditions)
    decreases block
  {
    var rest, all := block, rows;
    while rest.Cons?
      invariant rest == block || rest < block
      invariant ParsesBlock(block) <==> ParsesBlock(rest)
      invariant rows + RowsOfBlock(block, conditions) == all + RowsOfBlock(rest, conditions)
      decreases rest
    {
      match rest.head {
        case Assign(value) =>
          if value == "" {
            return None;
          }
          all := all + [Row(value, conditions)];
        case If(test, body, orelse) =>
          var visited := VisitIf(rest.head, conditions, all);
          if visited.None? {
            return None;
          }
          all := visited.value;
        case _ =>
      }
      rest := rest.tail;
    }
    found := Some(all);
  }

  method VisitIf(s: Stmt, conditions: seq<Condition>, rows: seq<Row>) returns (found: Option<seq<Row>>)
    requires s.If?
    ensures found.Some? <==> ParsesStmt(s)
    ensures found.Some? ==> found.value == rows + RowsOfStmt(s, conditions)
    decreases s
  {
    if !AssignsStmt(s) {
      NothingAssigned(s.body, conditions + [Condition(s.test, true)]);
      NothingAssigned(s.orelse, conditions + [Condition(s.test, false)]);
      return Some(rows);
    }
    if ParseEquality(s.test).None? {
      return None;
    }
    found := VisitBlock(s.body, conditions + [Condition(s.test, true)], rows);
    if found.Some? {
      found := VisitBlock(s.orelse, conditions + [Condition(s.test, false)], found.value);
    }
  }
}
