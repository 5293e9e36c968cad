/**
 * The `PainelClientsService` of src/painel-clients/painel-clients.service.ts:
 * client creation, the `findOne` family, the listing queries, the metadata
 * refresh and `duplicateClient` with its agent and API copying loops. Each
 * method is proved to leave the database, and return the value, that the
 * matching function of PanelDb gives; the properties of those functions are
 * proved in PanelProperties.
 */
module PainelClients {
  import opened Wrappers
  import opened PanelTables
  import opened PanelStore
  import PanelDb

  class PainelClientsService {
    /** The database behind both `this.supabase.admin` and `this.prisma`. */
    const store: Store

    constructor(store: Store)
      ensures this.store == store
    {
      this.store := store;
    }

    /** `updateClientMetadata`: recompute the metadata and write it; an error is only logged. */
    method UpdateClientMetadata(clientId: Id)
      modifies store
      ensures store.State() == PanelDb.UpdateClientMetadata(old(store.State()), store.fails, clientId)
    {
      var q := store.SelectMetadata(clientId);
      if q.Success? && q.value.Some? {
        var _ := store.UpdateMetadata(clientId, q.value.value);
      }
    }

    /** `create`: the guard, the user's company, the insert, then the metadata refresh. */
    method Create(userId: Option<string>, dto: NewClient) returns (r: Result<Client, HttpError>)
      modifies store
      ensures var s := PanelDb.Create(old(store.State()), store.fails, userId, dto);
        store.State() == s.db && r == s.result
    {
      if userId.None? || userId.value == "" {
        return Failure(BadRequest(PanelDb.UserRequiredMessage));
      }
      var user := store.SelectUserCompany(userId.value);
      if user.Failure? {
        return Failure(InternalServerError(user.error.message));
      }
      if user.value.None? {
        return Failure(NotFound(PanelDb.UnknownUserMessage(userId.value)));
      }
      var ins := store.InsertClient(PanelDb.CreatedRow(user.value.value, dto));
      if ins.Failure? {
        return Failure(InternalServerError(ins.error.message));
      }
      UpdateClientMetadata(ins.value.id);
      r := Success(ins.value);
    }

    method FindOne(id: Id) returns (r: Result<Client, HttpError>)
      modifies store
      ensures var s := PanelDb.FindOne(old(store.State()), store.fails, id);
        store.State() == s.db && r == s.result
    {
      var q := store.SelectClient(id);
      if q.Failure? {
        if q.error.code == NoSingleRowCode {
          return Failure(NotFound(PanelDb.NotFoundMessage("PainelClient", id)));
        }
        return Failure(InternalServerError(q.error.message));
      }
      r := Success(q.value);
    }

    method FindOneAgent(id: Id) returns (r: Result<Agent, HttpError>)
      modifies store
      ensures var s := PanelDb.FindOneAgent(old(store.State()), store.fails, id);
        store.State() == s.db && r == s.result
    {
      var q := store.SelectAgent(id);
      if q.Failure? {
        if q.error.code == NoSingleRowCode {
          return Failure(NotFound(PanelDb.NotFoundMessage("Agent", id)));
        }
        return Failure(InternalServerError(q.error.message));
      }
      r := Success(q.value);
    }

    method FindOneIntention(id: Id) returns (r: Result<Intention, HttpError>)
      modifies store
      ensures var s := PanelDb.FindOneIntention(old(store.State()), store.fails, id);
        store.State() == s.db && r == s.result
    {
      var q := store.SelectIntention(id);
      if q.Failure? {
        if q.error.code == NoSingleRowCode {
          return Failure(NotFound(PanelDb.NotFoundMessage("Intention", id)));
        }
        return Failure(InternalServerError(q.error.message));
      }
      r := Success(q.value);
    }

    method FindOneApi(id: Id) returns (r: Result<Api, HttpError>)
      modifies store
      ensures var s := PanelDb.FindOneApi(old(store.State()), store.fails, id);
        store.State() == s.db && r == s.result
    {
      var q := store.SelectApi(id);
      if q.Failure? {
        if q.error.code == NoSingleRowCode {
          return Failure(NotFound(PanelDb.NotFoundMessage("API", id)));
        }
        return Failure(InternalServerError(q.error.message));
      }
      r := Success(q.value);
    }

    method FindAllAgents(clientId: Id) returns (r: Result<seq<Agent>, HttpError>)
      modifies store
      ensures var s := PanelDb.FindAllAgents(old(store.State()), store.fails, clientId);
        store.State() == s.db && r == s.result
    {
      var q := store.SelectAgentsOf(clientId);
      if q.Failure? {
        return Failure(InternalServerError(q.error.message));
      }
      r := Success(q.value);
    }

    method FindAllIntentions(clientId: Id) returns (r: Result<seq<Intention>, HttpError>)
      modifies store
      ensures var s := PanelDb.FindAllIntentions(old(store.State()), store.fails, clientId);
        store.State() == s.db && r == s.result
    {
      var q := store.SelectIntentionsOf(clientId);
      if q.Failure? {
        return Failure(InternalServerError(q.error.message));
      }
      r := Success(q.value);
    }

    /** `findAllApisByClient`: the client's agent ids, then the APIs of those agents. */
    method FindAllApisByClient(clientId: Id) returns (r: Result<seq<Api>, HttpError>)
      modifies store
      ensures var s := PanelDb.FindAllApisByClient(old(store.State()), store.fails, clientId);
        store.State() == s.db && r == s.result
    {
      var agents := store.SelectAgentsOf(clientId);
      if agents.Failure? {
        return Failure(InternalServerError(agents.error.message));
      }
      if |agents.value| == 0 {
        return Success([]);
      }
      var q := store.SelectApisOfAgents(AgentIds(agents.value));
      if q.Failure? {
        return Failure(InternalServerError(q.error.message));
      }
      r := Success(q.value);
    }

    /** The agent loop of `duplicateClient`: copies each agent to `clientId`, recording old id -> new id. */
    method CopyAgents(clientId: Id, agents: seq<Agent>) returns (idMap: map<Id, Id>)
      modifies store
      ensures var c := PanelDb.CopyAgents(old(store.State()), store.fails, clientId, agents);
        store.State() == c.db && idMap == c.idMap
    {
      ghost var db0 := store.State();
      idMap := map[];
      var i := 0;
      while i < |agents|
        invariant 0 <= i <= |agents|
        invariant PanelDb.CopyAgents(db0, store.fails, clientId, agents[..i]) == PanelDb.Copying(store.State(), idMap)
      {
        var agent := agents[i];
        assert agents[..i + 1][..i] == agents[..i];
        var ins := store.InsertAgent(agent.(clientId := clientId));
        if ins.Success? {
          idMap := idMap[agent.id := ins.value.id];
        }
        i := i + 1;
      }
      assert agents[..i] == agents;
    }

    /** The API loop of `duplicateClient`: APIs of agents that were not copied are skipped. */
    method CopyApis(agentMap: map<Id, Id>, apis: seq<Api>) returns (idMap: map<Id, Id>)
      modifies store
      ensures var c := PanelDb.CopyApis(old(store.State()), store.fails, agentMap, apis);
        store.State() == c.db && idMap == c.idMap
    {
      ghost var db0 := store.State();
      idMap := map[];
      var i := 0;
      while i < |apis|
        invariant 0 <= i <= |apis|
        invariant PanelDb.CopyApis(db0, store.fails, agentMap, apis[..i]) == PanelDb.Copying(store.State(), idMap)
      {
        var api := apis[i];
        assert apis[..i + 1][..i] == apis[..i];
        if api.agentId in agentMap {
          var ins := store.InsertApi(PanelDb.ApiCopy(api, agentMap[api.agentId]));
          if ins.Success? {
            idMap := idMap[api.id := ins.value.id];
          }
        }
        i := i + 1;
      }
      assert apis[..i] == apis;
    }

    /**
     * `duplicateClient`: the copy of the client, then of its agents and APIs,
     * and the metadata refresh. The intentions are fetched, and a failed
     * fetch is an error, but their inserts and the `next_api_id` updates are
     * builders that are never awaited, so no request goes out for them. The
     * copy is returned as the insert gave it back.
     */
    method DuplicateClient(clientId: Id) returns (r: Result<Client, HttpError>)
      modifies store
      ensures var s := PanelDb.DuplicateClient(old(store.State()), store.fails, clientId);
        store.State() == s.db && r == s.result
    {
      var found := FindOne(clientId);
      if found.Failure? {
        return Failure(found.error);
      }
      var ins := store.InsertClient(PanelDb.ClientPayload(found.value));
      if ins.Failure? {
        return Failure(InternalServerError(ins.error.message));
      }
      var copy := ins.value;
      var agents := FindAllAgents(clientId);
      if agents.Failure? {
        return Failure(agents.error);
      }
      var agentMap := CopyAgents(copy.id, agents.value);
      var intentions := FindAllIntentions(clientId);
      if intentions.Failure? {
        return Failure(intentions.error);
      }
      var apis := FindAllApisByClient(clientId);
      if apis.Failure? {
        return Failure(apis.error);
      }
      var _ := CopyApis(agentMap, apis.value);
      UpdateClientMetadata(copy.id);
      r := Success(copy);
    }
  }
}
