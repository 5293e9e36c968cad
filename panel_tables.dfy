/**
 * The tables src/painel-clients/painel-clients.service.ts reads and writes:
 * clients, their agents, intentions and APIs, and the users that own a
 * company. Each row keeps, beside the columns the service looks at, the other
 * columns as an uninterpreted record that copies carry over unchanged.
 */
module PanelTables {
  import opened Wrappers
  import opened JsValues

  type Id = nat

  /** Which database calls fail, by the position of the call. */
  type Faults = nat -> bool

  /** The columns the service copies without looking at them. */
  type Fields = map<string, JsValue>

  /** A value of the `metadata` JSON object of a client. */
  datatype MetaValue =
    | MNull
    | MText(text: string)
    | MInt(i: int)
    | MBool(b: bool)
    | MRules(rules: map<int, seq<string>>)

  type Metadata = map<string, MetaValue>

  /** A row of `painel_clients`; `metadata` is `None` while the column holds its default. */
  datatype Client = Client(
    id: Id,
    companyId: Id,
    companyName: Option<string>,
    agentName: Option<string>,
    phoneNumber: Option<string>,
    strategy: Option<string>,
    metadata: Option<Metadata>,
    rest: Fields)

  /** A row of `painel_agents`. */
  datatype Agent = Agent(id: Id, clientId: Id, executionOrder: Option<int>, rest: Fields)

  /** A row of `painel_intentions`. */
  datatype Intention = Intention(id: Id, clientId: Id, rest: Fields)

  /** A row of `painel_apis`; `nextApiId` chains the APIs of one flow. */
  datatype Api = Api(id: Id, agentId: Id, name: Option<string>, nextApiId: Option<Id>, rest: Fields)

  /** The client-creation payload: the client columns without `user_id`. */
  datatype NewClient = NewClient(
    companyName: Option<string>,
    agentName: Option<string>,
    phoneNumber: Option<string>,
    strategy: Option<string>,
    rest: Fields)

  /**
   * The database: `users` maps a user id to its `company_id`; the tables are
   * in insertion order; `nextId` is the id the next insert receives and `ops`
   * counts the calls made so far.
   */
  datatype Db = Db(
    users: map<string, Option<Id>>,
    clients: seq<Client>,
    agents: seq<Agent>,
    intentions: seq<Intention>,
    apis: seq<Api>,
    nextId: Id,
    ops: nat)

  /** The state after a call and the call's outcome. */
  datatype Step<T> = Step(db: Db, result: Result<T, HttpError>)

  /** The error object a PostgREST call returns. */
  datatype QueryError = QueryError(code: string, message: string)

  /** PostgREST's code for a `.single()` that matched no row, or more than one. */
  const NoSingleRowCode: string := "PGRST116"

  /** The error a failing call returns; its code is not `PGRST116`. */
  const DbError: QueryError := QueryError("08000", DbErrorMessage)

  function Tick(db: Db): (r: Db)
    ensures r == db.(ops := db.ops + 1)
  {
    db.(ops := db.ops + 1)
  }

  /** Every id in use is below `nextId`, so an id `nextId` hands out is new. */
  predicate IdsBelow(db: Db) {
    && (forall i :: 0 <= i < |db.clients| ==> db.clients[i].id < db.nextId)
    && (forall i :: 0 <= i < |db.agents| ==> db.agents[i].id < db.nextId)
    && (forall i :: 0 <= i < |db.intentions| ==> db.intentions[i].id < db.nextId)
    && (forall i :: 0 <= i < |db.apis| ==> db.apis[i].id < db.nextId)
  }

  // ---------------------------------------------------------------------------
  // Selections by id

  function ClientsWithId(rows: seq<Client>, id: Id): (r: seq<Client>)
    ensures forall c :: c in r <==> c in rows && c.id == id
  {
    if rows == [] then []
    else ClientsWithId(rows[..|rows| - 1], id) + (if rows[|rows| - 1].id == id then [rows[|rows| - 1]] else [])
  }

  function AgentsWithId(rows: seq<Agent>, id: Id): (r: seq<Agent>)
    ensures forall a :: a in r <==> a in rows && a.id == id
  {
    if rows == [] then []
    else AgentsWithId(rows[..|rows| - 1], id) + (if rows[|rows| - 1].id == id then [rows[|rows| - 1]] else [])
  }

  function IntentionsWithId(rows: seq<Intention>, id: Id): (r: seq<Intention>)
    ensures forall n :: n in r <==> n in rows && n.id == id
  {
    if rows == [] then []
    else IntentionsWithId(rows[..|rows| - 1], id) + (if rows[|rows| - 1].id == id then [rows[|rows| - 1]] else [])
  }

  function ApisWithId(rows: seq<Api>, id: Id): (r: seq<Api>)
    ensures forall p :: p in r <==> p in rows && p.id == id
  {
    if rows == [] then []
    else ApisWithId(rows[..|rows| - 1], id) + (if rows[|rows| - 1].id == id then [rows[|rows| - 1]] else [])
  }

  /**
   * `.select('*').eq('id', id).single()`: the one matching row, or `PGRST116`
   * when no row or more than one matches.
   */
  function Single<T>(hits: seq<T>): (r: Result<T, QueryError>)
    ensures |hits| == 1 ==> r == Success(hits[0])
    ensures |hits| != 1 ==> r == Failure(QueryError(NoSingleRowCode, "JSON object requested, multiple (or no) rows returned"))
  {
    if |hits| == 1 then Success(hits[0])
    else Failure(QueryError(NoSingleRowCode, "JSON object requested, multiple (or no) rows returned"))
  }

  /** The agents of one client, in table order. */
  function AgentsOf(rows: seq<Agent>, clientId: Id): (r: seq<Agent>)
    ensures |r| <= |rows|
    ensures forall a :: a in r <==> a in rows && a.clientId == clientId
  {
    if rows == [] then []
    else AgentsOf(rows[..|rows| - 1], clientId) + (if rows[|rows| - 1].clientId == clientId then [rows[|rows| - 1]] else [])
  }

  /**
   * The intentions of one client, in table order. It has the shape of
   * `AgentsOf` but filters another table, as the program's two queries do.
   */
  function IntentionsOf(rows: seq<Intention>, clientId: Id): (r: seq<Intention>)
    ensures forall n :: n in r <==> n in rows && n.clientId == clientId
  {
    if rows == [] then []
    else IntentionsOf(rows[..|rows| - 1], clientId) + (if rows[|rows| - 1].clientId == clientId then [rows[|rows| - 1]] else [])
  }

  /** The ids of a list of agents, in order. */
  function AgentIds(agents: seq<Agent>): (r: seq<Id>)
    ensures |r| == |agents|
    ensures forall i :: 0 <= i < |agents| ==> r[i] == agents[i].id
  {
    seq(|agents|, i requires 0 <= i < |agents| => agents[i].id)
  }

  /** `.in('agent_id', ids)`: the APIs whose agent is one of `ids`, in table order. */
  function ApisOfAgents(rows: seq<Api>, ids: seq<Id>): (r: seq<Api>)
    ensures forall p :: p in r <==> p in rows && p.agentId in ids
  {
    if rows == [] then []
    else ApisOfAgents(rows[..|rows| - 1], ids) + (if rows[|rows| - 1].agentId in ids then [rows[|rows| - 1]] else [])
  }
}
