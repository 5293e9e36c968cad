/**
 * The Supabase client of src/painel-clients/painel-clients.service.ts as an
 * object whose fields are the tables. Each method is one database call; its
 * contract ties the new state and the answer to the matching function of
 * PanelDb.
 */
module PanelStore {
  import opened Wrappers
  import opened PanelTables
  import opened ClientMetadata
  import PanelDb

  class Store {
    var users: map<string, Option<Id>>
    var clients: seq<Client>
    var agents: seq<Agent>
    var intentions: seq<Intention>
    var apis: seq<Api>
    var nextId: Id
    var ops: nat
    /** Which calls fail, by position. */
    const fails: Faults

    function State(): Db
      reads this
    {
      Db(users, clients, agents, intentions, apis, nextId, ops)
    }

    constructor(db: Db, fails: Faults)
      ensures State() == db && this.fails == fails
    {
      users := db.users;
      clients := db.clients;
      agents := db.agents;
      intentions := db.intentions;
      apis := db.apis;
      nextId := db.nextId;
      ops := db.ops;
      this.fails := fails;
    }

    /** Counts the call and says whether it fails. */
    method Begin() returns (failed: bool)
      modifies this
      ensures State() == Tick(old(State())) && failed == fails(old(ops))
    {
      failed := fails(ops);
      ops := ops + 1;
    }

    /** `from('painel_clients').select('*').eq('id', id).single()`. */
    method SelectClient(id: Id) returns (r: Result<Client, QueryError>)
      modifies this
      ensures var c := PanelDb.SelectClient(old(State()), fails, id); State() == c.db && r == c.result
    {
      var failed := Begin();
      r := if failed then Failure(DbError) else Single(ClientsWithId(clients, id));
    }

    /** `from('painel_agents').select('*').eq('id', id).single()`. */
    method SelectAgent(id: Id) returns (r: Result<Agent, QueryError>)
      modifies this
      ensures var c := PanelDb.SelectAgent(old(State()), fails, id); State() == c.db && r == c.result
    {
      var failed := Begin();
      r := if failed then Failure(DbError) else Single(AgentsWithId(agents, id));
    }

    /** `from('painel_intentions').select('*').eq('id', id).single()`. */
    method SelectIntention(id: Id) returns (r: Result<Intention, QueryError>)
      modifies this
      ensures var c := PanelDb.SelectIntention(old(State()), fails, id); State() == c.db && r == c.result
    {
      var failed := Begin();
      r := if failed then Failure(DbError) else Single(IntentionsWithId(intentions, id));
    }

    /** `from('painel_apis').select('*').eq('id', id).single()`. */
    method SelectApi(id: Id) returns (r: Result<Api, QueryError>)
      modifies this
      ensures var c := PanelDb.SelectApi(old(State()), fails, id); State() == c.db && r == c.result
    {
      var failed := Begin();
      r := if failed then Failure(DbError) else Single(ApisWithId(apis, id));
    }

    /** `prisma.users.findUnique(...)`, read as its `company_id`. */
    method SelectUserCompany(userId: string) returns (r: Result<Option<Id>, QueryError>)
      modifies this
      ensures var c := PanelDb.SelectUserCompany(old(State()), fails, userId); State() == c.db && r == c.result
    {
      var failed := Begin();
      r := if failed then Failure(DbError) else Success(if userId in users then users[userId] else None);
    }

    /** The agents of a client. */
    method SelectAgentsOf(clientId: Id) returns (r: Result<seq<Agent>, QueryError>)
      modifies this
      ensures var c := PanelDb.SelectAgentsOf(old(State()), fails, clientId); State() == c.db && r == c.result
    {
      var failed := Begin();
      r := if failed then Failure(DbError) else Success(AgentsOf(agents, clientId));
    }

    /** The intentions of a client. */
    method SelectIntentionsOf(clientId: Id) returns (r: Result<seq<Intention>, QueryError>)
      modifies this
      ensures var c := PanelDb.SelectIntentionsOf(old(State()), fails, clientId); State() == c.db && r == c.result
    {
      var failed := Begin();
      r := if failed then Failure(DbError) else Success(IntentionsOf(intentions, clientId));
    }

    /** `.in('agent_id', ids)` on `painel_apis`. */
    method SelectApisOfAgents(ids: seq<Id>) returns (r: Result<seq<Api>, QueryError>)
      modifies this
      ensures var c := PanelDb.SelectApisOfAgents(old(State()), fails, ids); State() == c.db && r == c.result
    {
      var failed := Begin();
      r := if failed then Failure(DbError) else Success(ApisOfAgents(apis, ids));
    }

    method InsertClient(row: Client) returns (r: Result<Client, QueryError>)
      modifies this
      ensures var c := PanelDb.InsertClient(old(State()), fails, row); State() == c.db && r == c.result
    {
      var failed := Begin();
      if failed {
        return Failure(DbError);
      }
      var stored := row.(id := nextId);
      clients := clients + [stored];
      nextId := nextId + 1;
      r := Success(stored);
    }

    method InsertAgent(row: Agent) returns (r: Result<Agent, QueryError>)
      modifies this
      ensures var c := PanelDb.InsertAgent(old(State()), fails, row); State() == c.db && r == c.result
    {
      var failed := Begin();
      if failed {
        return Failure(DbError);
      }
      var stored := row.(id := nextId);
      agents := agents + [stored];
      nextId := nextId + 1;
      r := Success(stored);
    }

    method InsertApi(row: Api) returns (r: Result<Api, QueryError>)
      modifies this
      ensures var c := PanelDb.InsertApi(old(State()), fails, row); State() == c.db && r == c.result
    {
      var failed := Begin();
      if failed {
        return Failure(DbError);
      }
      var stored := row.(id := nextId);
      apis := apis + [stored];
      nextId := nextId + 1;
      r := Success(stored);
    }

    /** The raw metadata query of `updateClientMetadata`. */
    method SelectMetadata(clientId: Id) returns (r: Result<Option<Metadata>, QueryError>)
      modifies this
      ensures var c := PanelDb.SelectMetadata(old(State()), fails, clientId); State() == c.db && r == c.result
    {
      var failed := Begin();
      if failed {
        return Failure(DbError);
      }
      var hits := ClientsWithId(clients, clientId);
      r := Success(if hits == [] then None else Some(ClientMetadataOf(hits[0], agents, apis)));
    }

    /** `painel_clients.update({ where: { id }, data: { metadata } })`. */
    method UpdateMetadata(clientId: Id, m: Metadata) returns (r: Result<(), QueryError>)
      modifies this
      ensures var c := PanelDb.UpdateMetadata(old(State()), fails, clientId, m); State() == c.db && r == c.result
    {
      var failed := Begin();
      if failed {
        return Failure(DbError);
      }
      clients := PanelDb.SetMetadata(clients, clientId, m);
      r := Success(());
    }
  }
}
