/** The agent lifecycle of src/orchestration/agents/base_agent.py. A subclass's
    `_initialize_impl`, `_process_impl` and `_shutdown_impl` are represented by their
    outcomes, passed in. */
module Agents {
  import opened Strings
  import opened Outcomes

  datatype AgentStatus = Idle | Initializing | Processing | Error | Shutdown

  /** The enum's string values. */
  function StatusValue(s: AgentStatus): string {
    match s
    case Idle => "idle"
    case Initializing => "initializing"
    case Processing => "processing"
    case Error => "error"
    case Shutdown => "shutdown"
  }

  lemma StatusValuesDistinct(a: AgentStatus, b: AgentStatus)
    ensures StatusValue(a) == StatusValue(b) <==> a == b
  {
  }

  /** `get_status()` */
  datatype StatusReport = StatusReport(agentId: string, agentType: string, status: AgentStatus, contextSize: nat)

  type Payload = map<string, string>

  /** `agent_id or str(uuid.uuid4())`; the generated identifier is a parameter. */
  function ChooseId(agentId: Option<string>, generated: string): string {
    match agentId
    case Some(id) => if id != "" then id else generated
    case None => generated
  }

  /** The message of the RuntimeError raised by `process` in the ERROR state. */
  function ErrorStateMessage(agentId: string): string {
    "Agent " + agentId + " is in ERROR state"
  }

  class BaseAgent {
    const agentId: string
    const agentType: string
    var status: AgentStatus
    var context: Payload

    /** A new agent is idle with an empty context. */
    constructor(agentId: Option<string>, generated: string, agentType: string)
      ensures this.agentId == ChooseId(agentId, generated) && this.agentType == agentType
      ensures status == Idle && context == map[]
    {
      this.agentId := ChooseId(agentId, generated);
      this.agentType := agentType;
      status := Idle;
      context := map[];
    }

    /** `initialize`: IDLE and True when the implementation returns, ERROR and the same
        exception when it raises, from any state. */
    method Initialize(impl: Outcome<()>) returns (r: Outcome<bool>)
      modifies this
      ensures impl.Done? ==> status == Idle && r == Done(true)
      ensures impl.Raised? ==> status == Error && r == Raised(impl.error)
      ensures context == old(context)
    {
      status := Initializing;
      match impl
      case Done(_) =>
        status := Idle;
        r := Done(true);
      case Raised(e) =>
        status := Error;
        r := Raised(e);
    }

    /** `process`: refused in the ERROR state without running the implementation; otherwise
        PROCESSING, then IDLE with the implementation's result or ERROR with its exception. */
    method Process(inputData: Payload, impl: Outcome<Payload>) returns (r: Outcome<Payload>)
      modifies this
      ensures old(status) == Error ==> status == Error && r == Raised(ErrorStateMessage(agentId))
      ensures old(status) != Error && impl.Done? ==> status == Idle && r == impl
      ensures old(status) != Error && impl.Raised? ==> status == Error && r == impl
      ensures context == old(context)
    {
      if status == Error {
        return Raised(ErrorStateMessage(agentId));
      }
      status := Processing;
      match impl
      case Done(result) =>
        status := Idle;
        r := Done(result);
      case Raised(e) =>
        status := Error;
        r := Raised(e);
    }

    /** `shutdown`: SHUTDOWN once the implementation returns; if it raises, nothing changes. */
    method Shutdown(impl: Outcome<()>) returns (r: Outcome<()>)
      modifies this
      ensures impl.Done? ==> status == AgentStatus.Shutdown
      ensures impl.Raised? ==> status == old(status)
      ensures r == impl && context == old(context)
    {
      if impl.Done? {
        status := AgentStatus.Shutdown;
      }
      r := impl;
    }

    /** `get_status` */
    function GetStatus(): (report: StatusReport)
      reads this
      ensures report.agentId == agentId && report.agentType == agentType
      ensures report.status == status && report.contextSize == |context|
    {
      StatusReport(agentId, agentType, status, |context|)
    }
  }

  /** The lifecycle as a transition relation on statuses: what each call can leave behind. */
  function AfterInitialize(succeeds: bool): AgentStatus {
    if succeeds then Idle else Error
  }

  function AfterProcess(s: AgentStatus, succeeds: bool): AgentStatus {
    if s == Error then Error else if succeeds then Idle else Error
  }

  function AfterShutdown(s: AgentStatus, succeeds: bool): AgentStatus {
    if succeeds then Shutdown else s
  }

  /** Between calls an agent is never seen INITIALIZING or PROCESSING. */
  predicate Resting(s: AgentStatus) { s == Idle || s == Error || s == Shutdown }

  lemma RestingPreserved(s: AgentStatus, succeeds: bool)
    ensures Resting(AfterInitialize(succeeds))
    ensures Resting(s) ==> Resting(AfterProcess(s, succeeds)) && Resting(AfterShutdown(s, succeeds))
  {
  }

  /** ERROR is left only through `initialize` or `shutdown`; a shut-down agent still processes. */
  lemma ErrorIsSticky(succeeds: bool)
    ensures AfterProcess(Error, succeeds) == Error
    ensures AfterProcess(Shutdown, true) == Idle
    ensures AfterInitialize(true) == Idle
  {
  }

  /** The methods follow the transition relation. */
  method LifecycleAgrees(agent: BaseAgent, init: Outcome<()>, step: Outcome<Payload>, stop: Outcome<()>)
    modifies agent
    ensures agent.status == AfterShutdown(AfterProcess(AfterInitialize(init.Done?), step.Done?), stop.Done?)
  {
    var a := agent.Initialize(init);
    assert agent.status == AfterInitialize(init.Done?);
    var b := agent.Process(map[], step);
    assert agent.status == AfterProcess(AfterInitialize(init.Done?), step.Done?);
    var c := agent.Shutdown(stop);
  }
}
