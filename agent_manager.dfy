/** `AgentManager` of src/orchestration/agent_manager.py: a registry of agent types and the
    table of active agents. An agent class is represented by its name; the identifier a new
    agent generates, and whether its `initialize` or `shutdown` raises, are parameters. */
module AgentManagement {
  import opened Strings
  import opened Outcomes
  import opened Agents

  class AgentManager {
    var registry: map<string, string>
    var active: map<string, BaseAgent>

    constructor()
      ensures registry == map[] && active == map[]
    {
      registry := map[];
      active := map[];
    }

    /** `register_agent_type`: the entry is set or overwritten, nothing else changes. */
    method RegisterAgentType(typeName: string, agentClass: string)
      modifies this
      ensures registry == old(registry)[typeName := agentClass]
      ensures active == old(active)
    {
      registry := registry[typeName := agentClass];
    }

    /** `spawn_agent`: an unknown type raises ValueError and a failing `initialize` re-raises,
        both leaving the tables alone; otherwise the new, idle agent is added under its id. */
    method SpawnAgent(typeName: string, generatedId: string, init: Outcome<()>) returns (r: Outcome<string>)
      modifies this
      ensures registry == old(registry)
      ensures typeName !in old(registry) ==> r == Raised("Unknown agent type: " + typeName) && active == old(active)
      ensures typeName in old(registry) && init.Raised? ==> r == Raised(init.error) && active == old(active)
      ensures typeName in old(registry) && init.Done? ==>
        r == Done(generatedId) && generatedId in active && fresh(active[generatedId])
        && active == old(active)[generatedId := active[generatedId]]
        && active[generatedId].status == Idle && active[generatedId].agentType == registry[typeName]
        && active[generatedId].context == map[]
    {
      if typeName !in registry {
        return Raised("Unknown agent type: " + typeName);
      }
      var agentClass := registry[typeName];
      var agent := new BaseAgent(None, generatedId, agentClass);
      var initialized := agent.Initialize(init);
      if initialized.Raised? {
        return Raised(initialized.error);
      }
      active := active[agent.agentId := agent];
      r := Done(agent.agentId);
    }

    /** `get_agent`: None for an id that is not active. */
    function GetAgent(agentId: string): (r: Option<BaseAgent>)
      reads this
      ensures r.Some? <==> agentId in active
      ensures r.Some? ==> r.value == active[agentId]
    {
      if agentId in active then Some(active[agentId]) else None
    }

    /** `terminate_agent`: shuts the agent down and removes exactly its id; an unknown id is a
        no-op; when the shutdown raises, the table keeps the agent. */
    method TerminateAgent(agentId: string, stop: Outcome<()>) returns (r: Outcome<()>)
      modifies this, active.Values
      ensures registry == old(registry)
      ensures agentId !in old(active) ==> active == old(active) && r == Done(())
      ensures agentId in old(active) ==> r == stop
      ensures agentId in old(active) && stop.Done? ==>
        active == old(active) - {agentId} && old(active)[agentId].status == AgentStatus.Shutdown
      ensures agentId in old(active) && stop.Raised? ==>
        active == old(active) && old(active)[agentId].status == old(active[agentId].status)
      ensures forall a :: a in old(active).Values && (agentId !in old(active) || a != old(active)[agentId]) ==>
        a.status == old(a.status)
      ensures forall a :: a in old(active).Values ==> a.context == old(a.context)
    {
      if agentId !in active {
        return Done(());
      }
      var agent := active[agentId];
      r := agent.Shutdown(stop);
      if r.Raised? {
        return;
      }
      active := active - {agentId};
    }

    /** `shutdown_all`: terminates active agents one by one; when none of the shutdowns raises
        the table ends empty, otherwise the first exception is passed on and the agents not yet
        terminated, the one that raised among them, stay in the table. */
    method ShutdownAll(stops: string -> Outcome<()>) returns (r: Outcome<()>)
      modifies this, active.Values
      ensures registry == old(registry)
      ensures r.Done? <==> forall id :: id in old(active) ==> stops(id).Done?
      ensures r.Done? ==> active == map[]
      ensures active.Keys <= old(active).Keys && forall id :: id in active ==> active[id] == old(active)[id]
      ensures forall id :: id in old(active) && id !in active ==>
        stops(id).Done? && old(active)[id].status == AgentStatus.Shutdown
      ensures r.Raised? ==> exists id :: id in active && r == stops(id)
    {
      var remaining := active.Keys;
      while remaining != {}
        invariant remaining <= old(active).Keys
        invariant active == map id | id in remaining :: old(active)[id]
        invariant registry == old(registry)
        invariant forall id :: id in old(active) && id !in remaining ==> stops(id).Done?
        invariant forall id :: id in old(active) && id !in remaining ==> old(active)[id].status == AgentStatus.Shutdown
        decreases remaining
      {
        var agentId :| agentId in remaining;
        r := TerminateAgent(agentId, stops(agentId));
        if r.Raised? {
          return;
        }
        remaining := remaining - {agentId};
      }
      r := Done(());
    }

    /** `list_active_agents`: one status report per active id. */
    function ListActiveAgents(): (r: map<string, StatusReport>)
      reads this, active.Values
      ensures r.Keys == active.Keys
      ensures forall id :: id in r ==> r[id] == active[id].GetStatus()
    {
      map id | id in active :: active[id].GetStatus()
    }
  }
}
