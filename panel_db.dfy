/**
 * The database calls of src/painel-clients/painel-clients.service.ts as
 * functions of the tables, and the service operations built from them:
 * `create`, the `findOne` family, `findAllApisByClient`,
 * `updateClientMetadata` and `duplicateClient`. A call fails when the fault
 * oracle says so at the call's position; an insert that succeeds gives the row
 * the next fresh id.
 */
module PanelDb {
  import opened Wrappers
  import opened JsValues
  import opened PanelTables
  import opened ClientMetadata

  const UserRequiredMessage: string := "User ID is required"
  const CopySuffix: string := " (Cópia)"

  /** The state after one database call and what the call returned. */
  datatype Call<T> = Call(db: Db, result: Result<T, QueryError>)

  // ---------------------------------------------------------------------------
  // Single database calls

  function Answer<T>(db: Db, fails: Faults, value: T): (c: Call<T>)
    ensures c.db == Tick(db)
    ensures c.result == if fails(db.ops) then Failure(DbError) else Success(value)
  {
    Call(Tick(db), if fails(db.ops) then Failure(DbError) else Success(value))
  }

  /** A `.single()` select: fails, or gives the one matching row, or `PGRST116`. */
  function AnswerSingle<T>(db: Db, fails: Faults, hits: seq<T>): (c: Call<T>)
    ensures c.db == Tick(db)
    ensures fails(db.ops) ==> c.result == Failure(DbError)
    ensures !fails(db.ops) ==> c.result == Single(hits)
  {
    Call(Tick(db), if fails(db.ops) then Failure(DbError) else Single(hits))
  }

  function SelectClient(db: Db, fails: Faults, id: Id): Call<Client> {
    AnswerSingle(db, fails, ClientsWithId(db.clients, id))
  }

  function SelectAgent(db: Db, fails: Faults, id: Id): Call<Agent> {
    AnswerSingle(db, fails, AgentsWithId(db.agents, id))
  }

  function SelectIntention(db: Db, fails: Faults, id: Id): Call<Intention> {
    AnswerSingle(db, fails, IntentionsWithId(db.intentions, id))
  }

  function SelectApi(db: Db, fails: Faults, id: Id): Call<Api> {
    AnswerSingle(db, fails, ApisWithId(db.apis, id))
  }

  /** `users.findUnique(...)` and its `company_id`: `None` for an unknown user or one without a company. */
  function SelectUserCompany(db: Db, fails: Faults, userId: string): Call<Option<Id>> {
    Answer(db, fails, if userId in db.users then db.users[userId] else None)
  }

  function SelectAgentsOf(db: Db, fails: Faults, clientId: Id): Call<seq<Agent>> {
    Answer(db, fails, AgentsOf(db.agents, clientId))
  }

  function SelectIntentionsOf(db: Db, fails: Faults, clientId: Id): Call<seq<Intention>> {
    Answer(db, fails, IntentionsOf(db.intentions, clientId))
  }

  function SelectApisOfAgents(db: Db, fails: Faults, ids: seq<Id>): Call<seq<Api>> {
    Answer(db, fails, ApisOfAgents(db.apis, ids))
  }

  /** `insert(row).select().single()` on `painel_clients`: the row gets the next id. */
  function InsertClient(db: Db, fails: Faults, row: Client): (c: Call<Client>)
    ensures c.db.ops == db.ops + 1
    ensures fails(db.ops) ==> c.db == Tick(db) && c.result == Failure(DbError)
    ensures !fails(db.ops) ==>
      && c.result == Success(row.(id := db.nextId))
      && c.db == Tick(db).(clients := db.clients + [row.(id := db.nextId)], nextId := db.nextId + 1)
  {
    if fails(db.ops) then Call(Tick(db), Failure(DbError))
    else Call(Tick(db).(clients := db.clients + [row.(id := db.nextId)], nextId := db.nextId + 1), Success(row.(id := db.nextId)))
  }

  function InsertAgent(db: Db, fails: Faults, row: Agent): (c: Call<Agent>)
    ensures c.db.ops == db.ops + 1
    ensures fails(db.ops) ==> c.db == Tick(db) && c.result == Failure(DbError)
    ensures !fails(db.ops) ==>
      && c.result == Success(row.(id := db.nextId))
      && c.db == Tick(db).(agents := db.agents + [row.(id := db.nextId)], nextId := db.nextId + 1)
  {
    if fails(db.ops) then Call(Tick(db), Failure(DbError))
    else Call(Tick(db).(agents := db.agents + [row.(id := db.nextId)], nextId := db.nextId + 1), Success(row.(id := db.nextId)))
  }

  function InsertIntention(db: Db, fails: Faults, row: Intention): (c: Call<Intention>)
    ensures c.db.ops == db.ops + 1
    ensures fails(db.ops) ==> c.db == Tick(db) && c.result == Failure(DbError)
    ensures !fails(db.ops) ==>
      && c.result == Success(row.(id := db.nextId))
      && c.db == Tick(db).(intentions := db.intentions + [row.(id := db.nextId)], nextId := db.nextId + 1)
  {
    if fails(db.ops) then Call(Tick(db), Failure(DbError))
    else Call(Tick(db).(intentions := db.intentions + [row.(id := db.nextId)], nextId := db.nextId + 1), Success(row.(id := db.nextId)))
  }

  function InsertApi(db: Db, fails: Faults, row: Api): (c: Call<Api>)
    ensures c.db.ops == db.ops + 1
    ensures fails(db.ops) ==> c.db == Tick(db) && c.result == Failure(DbError)
    ensures !fails(db.ops) ==>
      && c.result == Success(row.(id := db.nextId))
      && c.db == Tick(db).(apis := db.apis + [row.(id := db.nextId)], nextId := db.nextId + 1)
  {
    if fails(db.ops) then Call(Tick(db), Failure(DbError))
    else Call(Tick(db).(apis := db.apis + [row.(id := db.nextId)], nextId := db.nextId + 1), Success(row.(id := db.nextId)))
  }

  /** The rows of `rows` with id `id` get `next_api_id = next`; nothing else changes. */
  function SetNext(rows: seq<Api>, id: Id, next: Id): (r: seq<Api>)
    ensures |r| == |rows|
    ensures forall j :: 0 <= j < |rows| ==>
      r[j] == if rows[j].id == id then rows[j].(nextApiId := Some(next)) else rows[j]
  {
    seq(|rows|, j requires 0 <= j < |rows| => if rows[j].id == id then rows[j].(nextApiId := Some(next)) else rows[j])
  }

  /** `update({ next_api_id: next }).eq('id', id)` on `painel_apis`. */
  function UpdateNext(db: Db, fails: Faults, id: Id, next: Id): (c: Call<()>)
    ensures c.db.ops == db.ops + 1
    ensures fails(db.ops) ==> c.db == Tick(db) && c.result == Failure(DbError)
    ensures !fails(db.ops) ==> c.db == Tick(db).(apis := SetNext(db.apis, id, next)) && c.result == Success(())
  {
    if fails(db.ops) then Call(Tick(db), Failure(DbError))
    else Call(Tick(db).(apis := SetNext(db.apis, id, next)), Success(()))
  }

  /** The `result` column of the metadata query: one row per client with that id, of which the first is read. */
  function SelectMetadata(db: Db, fails: Faults, clientId: Id): Call<Option<Metadata>> {
    var hits := ClientsWithId(db.clients, clientId);
    Answer(db, fails, if hits == [] then None else Some(ClientMetadataOf(hits[0], db.agents, db.apis)))
  }

  /** The rows of `rows` with id `id` get `metadata = m`. */
  function SetMetadata(rows: seq<Client>, id: Id, m: Metadata): (r: seq<Client>)
    ensures |r| == |rows|
    ensures forall j :: 0 <= j < |rows| ==>
      r[j] == if rows[j].id == id then rows[j].(metadata := Some(m)) else rows[j]
  {
    seq(|rows|, j requires 0 <= j < |rows| => if rows[j].id == id then rows[j].(metadata := Some(m)) else rows[j])
  }

  /** `painel_clients.update({ where: { id }, data: { metadata } })`. */
  function UpdateMetadata(db: Db, fails: Faults, clientId: Id, m: Metadata): (c: Call<()>)
    ensures c.db.ops == db.ops + 1
    ensures fails(db.ops) ==> c.db == Tick(db)
    ensures !fails(db.ops) ==> c.db == Tick(db).(clients := SetMetadata(db.clients, clientId, m))
  {
    if fails(db.ops) then Call(Tick(db), Failure(DbError))
    else Call(Tick(db).(clients := SetMetadata(db.clients, clientId, m)), Success(()))
  }

  // ---------------------------------------------------------------------------
  // The findOne family

  /** `${entity} with ID ${id} not found`. */
  function NotFoundMessage(entity: string, id: Id): string {
    entity + " with ID " + NatToString(id) + " not found"
  }

  /** `PGRST116` becomes a 404 naming the entity; any other error a 500 with its message. */
  function MapSingleError(entity: string, id: Id, e: QueryError): HttpError {
    if e.code == NoSingleRowCode then NotFound(NotFoundMessage(entity, id))
    else InternalServerError(e.message)
  }

  function ToStep<T>(entity: string, id: Id, c: Call<T>): Step<T> {
    Step(c.db, if c.result.Success? then Success(c.result.value) else Failure(MapSingleError(entity, id, c.result.error)))
  }

  /** `findOne`: the client with the id, a 404 when there is none, a 500 when the call fails. */
  function FindOne(db: Db, fails: Faults, id: Id): (s: Step<Client>)
    ensures s.db == Tick(db)
    ensures fails(db.ops) ==> s.result == Failure(InternalServerError(DbErrorMessage))
    ensures !fails(db.ops) && (forall c :: c in db.clients ==> c.id != id) ==>
      s.result == Failure(NotFound(NotFoundMessage("PainelClient", id)))
    ensures s.result.Success? ==> s.result.value in db.clients && s.result.value.id == id
    ensures s.result.Success? <==> !fails(db.ops) && |ClientsWithId(db.clients, id)| == 1
  {
    var hits := ClientsWithId(db.clients, id);
    assert |hits| > 0 ==> hits[0] in hits;
    assert DbError.code != NoSingleRowCode;
    ToStep("PainelClient", id, SelectClient(db, fails, id))
  }

  /** `findOneAgent`: the same mapping, naming an `Agent`. */
  function FindOneAgent(db: Db, fails: Faults, id: Id): (s: Step<Agent>)
    ensures s.db == Tick(db)
    ensures fails(db.ops) ==> s.result == Failure(InternalServerError(DbErrorMessage))
    ensures !fails(db.ops) && (forall a :: a in db.agents ==> a.id != id) ==>
      s.result == Failure(NotFound(NotFoundMessage("Agent", id)))
    ensures s.result.Success? ==> s.result.value in db.agents && s.result.value.id == id
    ensures s.result.Success? <==> !fails(db.ops) && |AgentsWithId(db.agents, id)| == 1
  {
    var hits := AgentsWithId(db.agents, id);
    assert |hits| > 0 ==> hits[0] in hits;
    assert DbError.code != NoSingleRowCode;
    ToStep("Agent", id, SelectAgent(db, fails, id))
  }

  /** `findOneIntention`: the same mapping, naming an `Intention`. */
  function FindOneIntention(db: Db, fails: Faults, id: Id): (s: Step<Intention>)
    ensures s.db == Tick(db)
    ensures fails(db.ops) ==> s.result == Failure(InternalServerError(DbErrorMessage))
    ensures !fails(db.ops) && (forall n :: n in db.intentions ==> n.id != id) ==>
      s.result == Failure(NotFound(NotFoundMessage("Intention", id)))
    ensures s.result.Success? ==> s.result.value in db.intentions && s.result.value.id == id
    ensures s.result.Success? <==> !fails(db.ops) && |IntentionsWithId(db.intentions, id)| == 1
  {
    var hits := IntentionsWithId(db.intentions, id);
    assert |hits| > 0 ==> hits[0] in hits;
    assert DbError.code != NoSingleRowCode;
    ToStep("Intention", id, SelectIntention(db, fails, id))
  }

  /** `findOneApi`: the same mapping, naming an `API`. */
  function FindOneApi(db: Db, fails: Faults, id: Id): (s: Step<Api>)
    ensures s.db == Tick(db)
    ensures fails(db.ops) ==> s.result == Failure(InternalServerError(DbErrorMessage))
    ensures !fails(db.ops) && (forall p :: p in db.apis ==> p.id != id) ==>
      s.result == Failure(NotFound(NotFoundMessage("API", id)))
    ensures s.result.Success? ==> s.result.value in db.apis && s.result.value.id == id
    ensures s.result.Success? <==> !fails(db.ops) && |ApisWithId(db.apis, id)| == 1
  {
    var hits := ApisWithId(db.apis, id);
    assert |hits| > 0 ==> hits[0] in hits;
    assert DbError.code != NoSingleRowCode;
    ToStep("API", id, SelectApi(db, fails, id))
  }

  // ---------------------------------------------------------------------------
  // updateClientMetadata

  /**
   * Runs the metadata query and writes its result to the client; a failure
   * of either call is caught and logged, so it only leaves the row as it was.
   */
  function UpdateClientMetadata(db: Db, fails: Faults, clientId: Id): (r: Db)
    ensures r.users == db.users && r.agents == db.agents && r.intentions == db.intentions && r.apis == db.apis
    ensures r.nextId == db.nextId && db.ops < r.ops
    ensures fails(db.ops) ==> r == Tick(db)
    ensures !fails(db.ops) && fails(db.ops + 1) ==> r.clients == db.clients
    ensures (forall j :: 0 <= j < |db.clients| ==> db.clients[j].id != clientId) ==> r.clients == db.clients
    ensures |r.clients| == |db.clients|
    ensures forall j :: 0 <= j < |db.clients| ==>
      && r.clients[j].id == db.clients[j].id
      && (db.clients[j].id != clientId ==> r.clients[j] == db.clients[j])
  {
    var q := SelectMetadata(db, fails, clientId);
    if q.result.Failure? || q.result.value.None? then q.db
    else UpdateMetadata(q.db, fails, clientId, q.result.value.value).db
  }

  // ---------------------------------------------------------------------------
  // create

  /** The inserted row: the payload with the user's company; the id is the database's. */
  function CreatedRow(company: Id, dto: NewClient): Client {
    Client(0, company, dto.companyName, dto.agentName, dto.phoneNumber, dto.strategy, None, dto.rest)
  }

  function UnknownUserMessage(userId: string): string {
    "User with ID " + userId + " not found or has no company associated."
  }

  /**
   * `create`: a missing or empty `user_id` is refused before any call; a user
   * without a company is a 404; the inserted client then has its metadata
   * computed. The returned row is the one the insert gave back.
   */
  function Create(db: Db, fails: Faults, userId: Option<string>, dto: NewClient): (s: Step<Client>)
    ensures (userId.None? || userId.value == "") ==> s == Step(db, Failure(BadRequest(UserRequiredMessage)))
    ensures userId.Some? && userId.value != "" && !fails(db.ops) && (userId.value !in db.users || db.users[userId.value].None?) ==>
      s == Step(Tick(db), Failure(NotFound(UnknownUserMessage(userId.value))))
    ensures s.result.Failure? ==> s.db.clients == db.clients && s.db.nextId == db.nextId
    ensures s.result.Success? ==>
      && userId.Some? && userId.value in db.users && db.users[userId.value].Some?
      && s.result.value == CreatedRow(db.users[userId.value].value, dto).(id := db.nextId)
  {
    if userId.None? || userId.value == "" then Step(db, Failure(BadRequest(UserRequiredMessage)))
    else
      var user := SelectUserCompany(db, fails, userId.value);
      if user.result.Failure? then Step(user.db, Failure(InternalServerError(user.result.error.message)))
      else if user.result.value.None? then Step(user.db, Failure(NotFound(UnknownUserMessage(userId.value))))
      else
        var ins := InsertClient(user.db, fails, CreatedRow(user.result.value.value, dto));
        if ins.result.Failure? then Step(ins.db, Failure(InternalServerError(ins.result.error.message)))
        else Step(UpdateClientMetadata(ins.db, fails, ins.result.value.id), Success(ins.result.value))
  }

  // ---------------------------------------------------------------------------
  // Lists

  function FindAllAgents(db: Db, fails: Faults, clientId: Id): (s: Step<seq<Agent>>)
    ensures s.db == Tick(db)
    ensures s.result.Success? <==> !fails(db.ops)
    ensures s.result.Success? ==> s.result.value == AgentsOf(db.agents, clientId)
  {
    var q := SelectAgentsOf(db, fails, clientId);
    Step(q.db, if q.result.Failure? then Failure(InternalServerError(q.result.error.message)) else Success(q.result.value))
  }

  function FindAllIntentions(db: Db, fails: Faults, clientId: Id): (s: Step<seq<Intention>>)
    ensures s.db == Tick(db)
    ensures s.result.Success? <==> !fails(db.ops)
    ensures s.result.Success? ==> s.result.value == IntentionsOf(db.intentions, clientId)
  {
    var q := SelectIntentionsOf(db, fails, clientId);
    Step(q.db, if q.result.Failure? then Failure(InternalServerError(q.result.error.message)) else Success(q.result.value))
  }

  /**
   * `findAllApisByClient`: the APIs of the client's agents. A client without
   * agents gets `[]` after one call, without the second query.
   */
  function FindAllApisByClient(db: Db, fails: Faults, clientId: Id): (s: Step<seq<Api>>)
    ensures s.db.users == db.users && s.db.clients == db.clients && s.db.agents == db.agents
    ensures s.db.intentions == db.intentions && s.db.apis == db.apis && s.db.nextId == db.nextId
    ensures s.result.Success? ==> forall p :: p in s.result.value <==>
      p in db.apis && exists a :: a in db.agents && a.clientId == clientId && a.id == p.agentId
    ensures !fails(db.ops) && (forall a :: a in db.agents ==> a.clientId != clientId) ==>
      s == Step(Tick(db), Success([]))
  {
    var q := SelectAgentsOf(db, fails, clientId);
    if q.result.Failure? then Step(q.db, Failure(InternalServerError(q.result.error.message)))
    else if |q.result.value| == 0 then
      assert forall a :: a in db.agents && a.clientId == clientId ==> a in q.result.value;
      Step(q.db, Success([]))
    else
      var mine := q.result.value;
      assert mine[0] in mine;
      var ids := AgentIds(mine);
      assert forall k :: k in ids <==> exists a :: a in db.agents && a.clientId == clientId && a.id == k by {
        forall k | k in ids
          ensures exists a :: a in db.agents && a.clientId == clientId && a.id == k
        {
          var i :| 0 <= i < |ids| && ids[i] == k;
          assert mine[i] in mine;
        }
        forall a | a in db.agents && a.clientId == clientId
          ensures a.id in ids
        {
          assert a in mine;
          var i :| 0 <= i < |mine| && mine[i] == a;
          assert ids[i] == a.id;
        }
      }
      var r := SelectApisOfAgents(q.db, fails, ids);
      forall p
        ensures p in ApisOfAgents(db.apis, ids) <==>
          p in db.apis && exists a :: a in db.agents && a.clientId == clientId && a.id == p.agentId
      {
        assert p.agentId in ids <==> exists a :: a in db.agents && a.clientId == clientId && a.id == p.agentId;
      }
      Step(r.db, if r.result.Failure? then Failure(InternalServerError(r.result.error.message)) else Success(r.result.value))
  }

  // ---------------------------------------------------------------------------
  // duplicateClient

  /** The state of a copying loop: the tables and the old id -> new id map built so far. */
  datatype Copying = Copying(db: Db, idMap: map<Id, Id>)

  /** `String(v || '')`: the text, or `''` for null (an empty text is falsy and gives `''` too). */
  function OrEmpty(v: Option<string>): (r: string)
    ensures v.Some? ==> r == v.value
    ensures v.None? ==> r == ""
  {
    if v.Some? then v.value else ""
  }

  /** The payload of the duplicated client: names suffixed, metadata emptied, every other column kept. */
  function ClientPayload(c: Client): (r: Client)
    ensures r.companyName == Some(OrEmpty(c.companyName) + CopySuffix)
    ensures r.agentName == Some(OrEmpty(c.agentName) + CopySuffix)
    ensures r.metadata == Some(map[])
    ensures r.companyId == c.companyId && r.phoneNumber == c.phoneNumber && r.strategy == c.strategy && r.rest == c.rest
  {
    c.(companyName := Some(OrEmpty(c.companyName) + CopySuffix),
       agentName := Some(OrEmpty(c.agentName) + CopySuffix),
       metadata := Some(map[]))
  }

  /** One pass of the agent loop: a failed insert is skipped; a copied agent is recorded old -> new. */
  function CopyAgent(c: Copying, fails: Faults, clientId: Id, a: Agent): Copying {
    var ins := InsertAgent(c.db, fails, a.(clientId := clientId));
    if ins.result.Failure? then Copying(ins.db, c.idMap)
    else Copying(ins.db, c.idMap[a.id := ins.result.value.id])
  }

  /** The agent loop over `agents`, starting from an empty map. */
  function CopyAgents(db: Db, fails: Faults, clientId: Id, agents: seq<Agent>): (r: Copying)
    ensures r.db.users == db.users && r.db.clients == db.clients && r.db.intentions == db.intentions && r.db.apis == db.apis
    ensures db.nextId <= r.db.nextId && r.db.ops == db.ops + |agents|
    ensures |db.agents| <= |r.db.agents| && r.db.agents[..|db.agents|] == db.agents
  {
    if agents == [] then Copying(db, map[])
    else
      var prev := CopyAgents(db, fails, clientId, agents[..|agents| - 1]);
      var r := CopyAgent(prev, fails, clientId, agents[|agents| - 1]);
      assert r.db.agents[..|db.agents|] == prev.db.agents[..|db.agents|] by {
        assert r.db.agents == prev.db.agents || r.db.agents[..|prev.db.agents|] == prev.db.agents;
      }
      r
  }

  /** The intention loop with each insert awaited; an insert's outcome is ignored. */
  function CopyIntentions(db: Db, fails: Faults, clientId: Id, intentions: seq<Intention>): (r: Db)
    ensures r.users == db.users && r.clients == db.clients && r.agents == db.agents && r.apis == db.apis
    ensures db.nextId <= r.nextId && r.ops == db.ops + |intentions|
    ensures |db.intentions| <= |r.intentions| && r.intentions[..|db.intentions|] == db.intentions
  {
    if intentions == [] then db
    else
      var prev := CopyIntentions(db, fails, clientId, intentions[..|intentions| - 1]);
      var r := InsertIntention(prev, fails, intentions[|intentions| - 1].(clientId := clientId)).db;
      assert r.intentions[..|db.intentions|] == prev.intentions[..|db.intentions|] by {
        assert r.intentions == prev.intentions || r.intentions[..|prev.intentions|] == prev.intentions;
      }
      r
  }

  /** The row an API copy is inserted with: its agent's copy, no successor yet. */
  function ApiCopy(p: Api, newAgentId: Id): Api {
    p.(agentId := newAgentId, nextApiId := None)
  }

  /** One pass of the API loop: skipped when the agent was not copied or the insert fails. */
  function CopyApi(c: Copying, fails: Faults, agentMap: map<Id, Id>, p: Api): Copying {
    if p.agentId !in agentMap then c
    else
      var ins := InsertApi(c.db, fails, ApiCopy(p, agentMap[p.agentId]));
      if ins.result.Failure? then Copying(ins.db, c.idMap)
      else Copying(ins.db, c.idMap[p.id := ins.result.value.id])
  }

  /** The API loop over `apis`, starting from an empty map. */
  function CopyApis(db: Db, fails: Faults, agentMap: map<Id, Id>, apis: seq<Api>): (r: Copying)
    ensures r.db.users == db.users && r.db.clients == db.clients && r.db.agents == db.agents && r.db.intentions == db.intentions
    ensures db.nextId <= r.db.nextId && db.ops <= r.db.ops <= db.ops + |apis|
    ensures |db.apis| <= |r.db.apis| && r.db.apis[..|db.apis|] == db.apis
  {
    if apis == [] then Copying(db, map[])
    else
      var prev := CopyApis(db, fails, agentMap, apis[..|apis| - 1]);
      var r := CopyApi(prev, fails, agentMap, apis[|apis| - 1]);
      assert r.db.apis[..|db.apis|] == prev.db.apis[..|db.apis|] by {
        assert r.db.apis == prev.db.apis || r.db.apis[..|prev.db.apis|] == prev.db.apis;
      }
      r
  }

  /** One pass of the relinking loop, its update awaited: only when the API and its successor were both copied. */
  function RelinkOne(db: Db, fails: Faults, apiMap: map<Id, Id>, p: Api): Db {
    if p.nextApiId.Some? && p.id in apiMap && p.nextApiId.value in apiMap then
      UpdateNext(db, fails, apiMap[p.id], apiMap[p.nextApiId.value]).db
    else db
  }

  /** The relinking loop over the original APIs, each update awaited. */
  function Relink(db: Db, fails: Faults, apiMap: map<Id, Id>, apis: seq<Api>): (r: Db)
    ensures r.users == db.users && r.clients == db.clients && r.agents == db.agents && r.intentions == db.intentions
    ensures r.nextId == db.nextId && db.ops <= r.ops <= db.ops + |apis|
    ensures |r.apis| == |db.apis|
    ensures forall j :: 0 <= j < |db.apis| ==> r.apis[j].id == db.apis[j].id
  {
    if apis == [] then db
    else RelinkOne(Relink(db, fails, apiMap, apis[..|apis| - 1]), fails, apiMap, apis[|apis| - 1])
  }

  /*
   * The intention inserts and the `next_api_id` updates of `duplicateClient`
   * are query builders discarded with `void`: a builder sends its request only
   * when it is awaited, so as written neither loop writes anything. The
   * stages below take `sent`, whether those writes go out: `DuplicateClient`
   * is the code as written (`sent` false), `DuplicateClientAwaited` the
   * duplicate its comments describe, with each write awaited.
   */

  /** The last stage of `duplicateClient`: the APIs, their relinking when sent, and the copy's metadata. */
  function DuplicateApis(db: Db, fails: Faults, clientId: Id, copy: Client, agentMap: map<Id, Id>, sent: bool): Step<Client> {
    var apisQ := FindAllApisByClient(db, fails, clientId);
    if apisQ.result.Failure? then Step(apisQ.db, Failure(apisQ.result.error))
    else
      var apis := CopyApis(apisQ.db, fails, agentMap, apisQ.result.value);
      var linked := if sent then Relink(apis.db, fails, apis.idMap, apisQ.result.value) else apis.db;
      Step(UpdateClientMetadata(linked, fails, copy.id), Success(copy))
  }

  /** The intentions stage of `duplicateClient` (the fetch, and the inserts when sent), then the APIs. */
  function DuplicateIntentions(db: Db, fails: Faults, clientId: Id, copy: Client, agentMap: map<Id, Id>, sent: bool): Step<Client> {
    var intentionsQ := FindAllIntentions(db, fails, clientId);
    if intentionsQ.result.Failure? then Step(intentionsQ.db, Failure(intentionsQ.result.error))
    else
      var copied := if sent then CopyIntentions(intentionsQ.db, fails, copy.id, intentionsQ.result.value) else intentionsQ.db;
      DuplicateApis(copied, fails, clientId, copy, agentMap, sent)
  }

  /** What `duplicateClient` does once the copy of the client row exists: agents, then the rest. */
  function DuplicateChildren(db: Db, fails: Faults, clientId: Id, copy: Client, sent: bool): Step<Client> {
    var agentsQ := FindAllAgents(db, fails, clientId);
    if agentsQ.result.Failure? then Step(agentsQ.db, Failure(agentsQ.result.error))
    else
      var agents := CopyAgents(agentsQ.db, fails, copy.id, agentsQ.result.value);
      DuplicateIntentions(agents.db, fails, clientId, copy, agents.idMap, sent)
  }

  /** Find the client (a 404 when it does not exist), insert its copy, then copy its children. */
  function Duplicate(db: Db, fails: Faults, clientId: Id, sent: bool): Step<Client> {
    var found := FindOne(db, fails, clientId);
    if found.result.Failure? then Step(found.db, Failure(found.result.error))
    else
      var ins := InsertClient(found.db, fails, ClientPayload(found.result.value));
      if ins.result.Failure? then Step(ins.db, Failure(InternalServerError(ins.result.error.message)))
      else DuplicateChildren(ins.db, fails, clientId, ins.result.value, sent)
  }

  /**
   * `duplicateClient` as written: the client, its agents and its APIs are
   * copied; the intentions are fetched but not copied and the API copies are
   * not chained.
   */
  function DuplicateClient(db: Db, fails: Faults, clientId: Id): Step<Client> {
    Duplicate(db, fails, clientId, false)
  }

  /** `duplicateClient` with its intention inserts and `next_api_id` updates awaited. */
  function DuplicateClientAwaited(db: Db, fails: Faults, clientId: Id): Step<Client> {
    Duplicate(db, fails, clientId, true)
  }
}
