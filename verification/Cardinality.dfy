/**
 Tool methods, turn policy and the transaction budgets that connections share
 (apps/guruterminal/src-tauri/src/broker.rs:190-278, 477-575, 694-703,
 1126-1144).
 */
module Cardinality {
  import opened Wrappers

  datatype ToolMethod =
    | GuruSearch | GuruRead | GuruReadPrevious
    | FinanceSources | FinanceMacroData | FinanceMarketData | FinanceCompanyData | FinanceFilings
    | FinanceCalculate | FinanceResolveEntity | McpConnect | McpCall | RunResultsList | ComputeRun
    | WebSearch | WebFetch | DecisionSubmit | EvidenceCreate | MemoryPatchPropose
    | ArtifactList | ArtifactRead | ArtifactPublish | ChartQuery | ChartPublish
    | WorkbenchRead | WorkbenchWrite | WorkbenchEdit | WorkbenchList | WorkbenchFind | WorkbenchGrep

  function ParseMethod(value: string): Option<ToolMethod> {
    match value
    case "guru.search" => Some(GuruSearch)
    case "guru.read" => Some(GuruRead)
    case "guru.read_previous" => Some(GuruReadPrevious)
    case "finance.sources" => Some(FinanceSources)
    case "finance.macro_data" => Some(FinanceMacroData)
    case "finance.market_data" => Some(FinanceMarketData)
    case "finance.company_data" => Some(FinanceCompanyData)
    case "finance.filings" => Some(FinanceFilings)
    case "finance.calculate" => Some(FinanceCalculate)
    case "finance.resolve_entity" => Some(FinanceResolveEntity)
    case "mcp.connect" => Some(McpConnect)
    case "mcp.call" => Some(McpCall)
    case "run.results.list" => Some(RunResultsList)
    case "compute.run" => Some(ComputeRun)
    case "web.search" => Some(WebSearch)
    case "web.fetch" => Some(WebFetch)
    case "decision.submit" => Some(DecisionSubmit)
    case "evidence.create" => Some(EvidenceCreate)
    case "memory.patch.propose" => Some(MemoryPatchPropose)
    case "artifact.list" => Some(ArtifactList)
    case "artifact.read" => Some(ArtifactRead)
    case "artifact.publish" => Some(ArtifactPublish)
    case "chart.query" => Some(ChartQuery)
    case "chart.publish" => Some(ChartPublish)
    case "workbench.read" => Some(WorkbenchRead)
    case "workbench.write" => Some(WorkbenchWrite)
    case "workbench.edit" => Some(WorkbenchEdit)
    case "workbench.ls" => Some(WorkbenchList)
    case "workbench.find" => Some(WorkbenchFind)
    case "workbench.grep" => Some(WorkbenchGrep)
    case _ => None
  }

  /** The name under which a client calls a method. */
  function MethodName(m: ToolMethod): string {
    match m
    case GuruSearch => "guru.search"
    case GuruRead => "guru.read"
    case GuruReadPrevious => "guru.read_previous"
    case FinanceSources => "finance.sources"
    case FinanceMacroData => "finance.macro_data"
    case FinanceMarketData => "finance.market_data"
    case FinanceCompanyData => "finance.company_data"
    case FinanceFilings => "finance.filings"
    case FinanceCalculate => "finance.calculate"
    case FinanceResolveEntity => "finance.resolve_entity"
    case McpConnect => "mcp.connect"
    case McpCall => "mcp.call"
    case RunResultsList => "run.results.list"
    case ComputeRun => "compute.run"
    case WebSearch => "web.search"
    case WebFetch => "web.fetch"
    case DecisionSubmit => "decision.submit"
    case EvidenceCreate => "evidence.create"
    case MemoryPatchPropose => "memory.patch.propose"
    case ArtifactList => "artifact.list"
    case ArtifactRead => "artifact.read"
    case ArtifactPublish => "artifact.publish"
    case ChartQuery => "chart.query"
    case ChartPublish => "chart.publish"
    case WorkbenchRead => "workbench.read"
    case WorkbenchWrite => "workbench.write"
    case WorkbenchEdit => "workbench.edit"
    case WorkbenchList => "workbench.ls"
    case WorkbenchFind => "workbench.find"
    case WorkbenchGrep => "workbench.grep"
  }

  lemma {:induction false} ParsedIsNamed(value: string)
    ensures ParseMethod(value).Some? ==> value == MethodName(ParseMethod(value).value)
  {
  }

  lemma {:induction false} KnowledgeNameIsParsed(m: ToolMethod)
    requires m in {GuruSearch, GuruRead, GuruReadPrevious, FinanceSources, FinanceMacroData, FinanceMarketData,
                   FinanceCompanyData, FinanceFilings, FinanceCalculate, FinanceResolveEntity, McpConnect,
                   McpCall}
    ensures ParseMethod(MethodName(m)) == Some(m)
  {
  }

  lemma {:induction false} WorkingNameIsParsed(m: ToolMethod)
    requires m in {RunResultsList, ComputeRun, WebSearch, WebFetch, DecisionSubmit, EvidenceCreate,
                   MemoryPatchPropose}
    ensures ParseMethod(MethodName(m)) == Some(m)
  {
  }

  lemma {:induction false} PublishingNameIsParsed(m: ToolMethod)
    requires m in {ArtifactList, ArtifactRead, ArtifactPublish, ChartQuery, ChartPublish, WorkbenchRead}
    ensures ParseMethod(MethodName(m)) == Some(m)
  {
  }

  lemma {:induction false} WorkbenchNameIsParsed(m: ToolMethod)
    requires m in {WorkbenchWrite, WorkbenchEdit, WorkbenchList, WorkbenchFind, WorkbenchGrep}
    ensures ParseMethod(MethodName(m)) == Some(m)
  {
  }

  lemma {:induction false} NameIsParsed(m: ToolMethod)
    ensures ParseMethod(MethodName(m)) == Some(m)
  {
    match m {
      case RunResultsList => WorkingNameIsParsed(m);
      case ComputeRun => WorkingNameIsParsed(m);
      case WebSearch => WorkingNameIsParsed(m);
      case WebFetch => WorkingNameIsParsed(m);
      case DecisionSubmit => WorkingNameIsParsed(m);
      case EvidenceCreate => WorkingNameIsParsed(m);
      case MemoryPatchPropose => WorkingNameIsParsed(m);
      case ArtifactList => PublishingNameIsParsed(m);
      case ArtifactRead => PublishingNameIsParsed(m);
      case ArtifactPublish => PublishingNameIsParsed(m);
      case ChartQuery => PublishingNameIsParsed(m);
      case ChartPublish => PublishingNameIsParsed(m);
      case WorkbenchRead => PublishingNameIsParsed(m);
      case WorkbenchWrite => WorkbenchNameIsParsed(m);
      case WorkbenchEdit => WorkbenchNameIsParsed(m);
      case WorkbenchList => WorkbenchNameIsParsed(m);
      case WorkbenchFind => WorkbenchNameIsParsed(m);
      case WorkbenchGrep => WorkbenchNameIsParsed(m);
      case _ => KnowledgeNameIsParsed(m);
    }
  }

  /** Every method is called by its own name and by no other. */
  lemma {:induction false} ParsedName(value: string)
    ensures forall m :: ParseMethod(value) == Some(m) <==> value == MethodName(m)
  {
    ParsedIsNamed(value);
    forall m | value == MethodName(m)
      ensures ParseMethod(value) == Some(m)
    {
      NameIsParsed(m);
    }
  }

  datatype Policy = Policy(useMemory: bool, proposeMemoryUpdates: bool, memoryProposalBudget: nat)

  const MAX_MEMORY_PROPOSALS: nat := 8
  const MAX_CHAT_TURN_ARTIFACTS: nat := 4

  /** The policies a broker starts with. */
  predicate Startable(policy: Policy) {
    && policy.memoryProposalBudget <= MAX_MEMORY_PROPOSALS
    && !(policy.proposeMemoryUpdates && policy.memoryProposalBudget == 0)
  }

  predicate PolicyAllows(policy: Policy, m: ToolMethod) {
    && (m in {GuruSearch, GuruRead, GuruReadPrevious} ==> policy.useMemory)
    && (m == MemoryPatchPropose ==> policy.proposeMemoryUpdates)
  }

  datatype Budget = Decisions | Evidence | Proposals | Artifacts

  /** The budget a method draws on; publishing an artifact or a chart draws on one. */
  function BudgetOf(m: ToolMethod): Option<Budget> {
    match m
    case DecisionSubmit => Some(Decisions)
    case EvidenceCreate => Some(Evidence)
    case MemoryPatchPropose => Some(Proposals)
    case ArtifactPublish => Some(Artifacts)
    case ChartPublish => Some(Artifacts)
    case _ => None
  }

  function Limit(policy: Policy, budget: Budget): nat {
    match budget
    case Decisions => 1
    case Evidence => 3
    case Proposals => policy.memoryProposalBudget
    case Artifacts => MAX_CHAT_TURN_ARTIFACTS
  }

  /** The four counters. */
  datatype Counters = Counters(decisions: nat, evidence: nat, proposals: nat, artifacts: nat) {
    function Of(budget: Budget): nat {
      match budget
      case Decisions => decisions
      case Evidence => evidence
      case Proposals => proposals
      case Artifacts => artifacts
    }

    function With(budget: Budget, value: nat): Counters {
      match budget
      case Decisions => this.(decisions := value)
      case Evidence => this.(evidence := value)
      case Proposals => this.(proposals := value)
      case Artifacts => this.(artifacts := value)
    }
  }

  const EMPTY: Counters := Counters(0, 0, 0, 0)

  predicate HasRoom(counters: Counters, m: ToolMethod, policy: Policy) {
    BudgetOf(m).Some? ==> counters.Of(BudgetOf(m).value) < Limit(policy, BudgetOf(m).value)
  }

  function Consumed(counters: Counters, m: ToolMethod): Counters {
    match BudgetOf(m)
    case None => counters
    case Some(budget) => counters.With(budget, counters.Of(budget) + 1)
  }

  /** `saturating_sub`: a counter at zero stays there. */
  function RolledBack(counters: Counters, m: ToolMethod): Counters {
    match BudgetOf(m)
    case None => counters
    case Some(budget) => counters.With(budget, if counters.Of(budget) == 0 then 0 else counters.Of(budget) - 1)
  }

  /** The limits a method must be within before it runs. */
  predicate InBudget(counters: Counters, m: ToolMethod, policy: Policy) {
    && (m == DecisionSubmit ==> counters.decisions < 1)
    && (m == EvidenceCreate ==> counters.evidence < 3)
    && (m == MemoryPatchPropose ==> counters.proposals < policy.memoryProposalBudget)
    && (m == ArtifactPublish || m == ChartPublish ==> counters.artifacts < 4)
  }

  /** What a kept call of this method costs. */
  function Spent(counters: Counters, m: ToolMethod): Counters {
    Counters(counters.decisions + (if m == DecisionSubmit then 1 else 0),
             counters.evidence + (if m == EvidenceCreate then 1 else 0),
             counters.proposals + (if m == MemoryPatchPropose then 1 else 0),
             counters.artifacts + (if m == ArtifactPublish || m == ChartPublish then 1 else 0))
  }

  lemma {:induction false} BudgetsSpelledOut(counters: Counters, m: ToolMethod, policy: Policy)
    ensures HasRoom(counters, m, policy) <==> InBudget(counters, m, policy)
    ensures Consumed(counters, m) == Spent(counters, m)
    ensures HasRoom(counters, m, policy) ==> RolledBack(Spent(counters, m), m) == counters
  {
  }

  class TransactionCardinality {
    var decisions: nat
    var evidenceCreations: nat
    var proposals: nat
    var artifactPublishes: nat

    ghost function Now(): Counters
      reads this
    {
      Counters(decisions, evidenceCreations, proposals, artifactPublishes)
    }

    constructor ()
      ensures Now() == EMPTY
    {
      decisions, evidenceCreations, proposals, artifactPublishes := 0, 0, 0, 0;
    }

    /** Counts one call, unless its budget is used up. */
    method Consume(m: ToolMethod, policy: Policy) returns (ok: bool)
      modifies this
      ensures ok == HasRoom(old(Now()), m, policy) == InBudget(old(Now()), m, policy)
      ensures Now() == if ok then Consumed(old(Now()), m) else old(Now())
      ensures ok ==> Now() == Spent(old(Now()), m)
    {
      match m {
        case DecisionSubmit => if decisions >= 1 { return false; }
        case EvidenceCreate => if evidenceCreations >= 3 { return false; }
        case MemoryPatchPropose => if proposals >= policy.memoryProposalBudget { return false; }
        case ArtifactPublish => if artifactPublishes >= MAX_CHAT_TURN_ARTIFACTS { return false; }
        case ChartPublish => if artifactPublishes >= MAX_CHAT_TURN_ARTIFACTS { return false; }
        case _ =>
      }
      match m {
        case DecisionSubmit => decisions := decisions + 1;
        case EvidenceCreate => evidenceCreations := evidenceCreations + 1;
        case MemoryPatchPropose => proposals := proposals + 1;
        case ArtifactPublish => artifactPublishes := artifactPublishes + 1;
        case ChartPublish => artifactPublishes := artifactPublishes + 1;
        case _ =>
      }
      ok := true;
    }

    method Rollback(m: ToolMethod)
      modifies this
      ensures Now() == RolledBack(old(Now()), m)
    {
      match m {
        case DecisionSubmit => decisions := Less(decisions);
        case EvidenceCreate => evidenceCreations := Less(evidenceCreations);
        case MemoryPatchPropose => proposals := Less(proposals);
        case ArtifactPublish => artifactPublishes := Less(artifactPublishes);
        case ChartPublish => artifactPublishes := Less(artifactPublishes);
        case _ =>
      }
    }
  }

  function Less(n: nat): nat {
    if n == 0 then 0 else n - 1
  }

  /** A counted call that is given back when dropped, unless committed. */
  class TransactionReservation {
    const cardinality: TransactionCardinality
    const toolMethod: ToolMethod
    var committed: bool

    constructor (cardinality: TransactionCardinality, m: ToolMethod)
      ensures this.cardinality == cardinality && toolMethod == m && !committed
    {
      this.cardinality, this.toolMethod, this.committed := cardinality, m, false;
    }

    /** Nothing is reserved when the budget is used up. */
    static method Reserve(cardinality: TransactionCardinality, m: ToolMethod, policy: Policy)
      returns (reservation: Option<TransactionReservation>)
      modifies cardinality
      ensures reservation.Some? == HasRoom(old(cardinality.Now()), m, policy)
      ensures cardinality.Now() == if reservation.Some? then Consumed(old(cardinality.Now()), m)
              else old(cardinality.Now())
      ensures reservation.Some? ==> fresh(reservation.value) && reservation.value.cardinality == cardinality &&
                                    reservation.value.toolMethod == m && !reservation.value.committed
    {
      var ok := cardinality.Consume(m, policy);
      if !ok {
        return None;
      }
      var made := new TransactionReservation(cardinality, m);
      reservation := Some(made);
    }

    method Commit()
      modifies this
      ensures committed
    {
      committed := true;
    }

    method Drop()
      modifies cardinality
      ensures cardinality.Now() == if committed then old(cardinality.Now())
              else RolledBack(old(cardinality.Now()), toolMethod)
    {
      if !committed {
        cardinality.Rollback(toolMethod);
      }
    }
  }

  /** A reservation that is dropped gives back exactly what it took. */
  lemma {:induction false} ReserveThenDrop(counters: Counters, m: ToolMethod, policy: Policy)
    requires HasRoom(counters, m, policy)
    ensures RolledBack(Consumed(counters, m), m) == counters
  {
  }
}
