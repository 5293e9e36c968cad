/**
 * What src/painel-clients/painel-clients.service.ts promises across several
 * calls: the metadata a client ends up with, the rows `create` stores, and
 * what `duplicateClient` copies and maps, as written and with its detached
 * writes awaited.
 *
 * Lemmas about a fold take the fold's result as a parameter `r` fixed by a
 * `requires r == ...`, so that the quantified facts they state are about a
 * named value.
 */
module PanelProperties {
  import opened Wrappers
  import opened PanelTables
  import opened ClientMetadata
  import opened PanelDb

  /** None of the `n` calls starting at position `from` fails. */
  predicate NoFaults(fails: Faults, from: nat, n: nat) {
    forall i :: from <= i < from + n ==> !fails(i)
  }

  /** An old id -> new id map never sends two ids to the same copy. */
  predicate Injective(m: map<Id, Id>) {
    forall k, k' :: k in m && k' in m && k != k' ==> m[k] != m[k']
  }

  /** `row` is one of `agents`, moved to client `clientId` under its own id. */
  predicate AgentCopyOf(row: Agent, agents: seq<Agent>, clientId: Id) {
    exists a :: a in agents && row == a.(id := row.id, clientId := clientId)
  }

  /** The agent with id `k` among `agents` has its copy, with id `v` on client `clientId`, in `table`. */
  predicate AgentCopiedAs(k: Id, v: Id, agents: seq<Agent>, table: seq<Agent>, clientId: Id) {
    exists a :: a in agents && a.id == k && a.(id := v, clientId := clientId) in table
  }

  /** `row` is the copy of one of `apis` whose agent was copied, under its own id. */
  predicate ApiCopyOf(row: Api, apis: seq<Api>, agentMap: map<Id, Id>) {
    exists p :: p in apis && p.agentId in agentMap && row == ApiCopy(p, agentMap[p.agentId]).(id := row.id)
  }

  /** The API with id `k` among `apis` has its copy, with id `v`, in `table`. */
  predicate ApiCopiedAs(k: Id, v: Id, apis: seq<Api>, table: seq<Api>, agentMap: map<Id, Id>) {
    exists p :: p in apis && p.id == k && p.agentId in agentMap && ApiCopy(p, agentMap[p.agentId]).(id := v) in table
  }

  /**
   * `after` is `before` pointed at the copy of the successor of some API of
   * `apis` whose copy `before` is.
   */
  predicate RelinkedFrom(before: Api, after: Api, apis: seq<Api>, apiMap: map<Id, Id>) {
    exists p :: p in apis && p.id in apiMap && p.nextApiId.Some? && p.nextApiId.value in apiMap &&
      before.id == apiMap[p.id] && after == before.(nextApiId := Some(apiMap[p.nextApiId.value]))
  }

  // ---------------------------------------------------------------------------
  // updateClientMetadata and create

  /**
   * When both calls go through, the client's row (the only one with its id)
   * holds the metadata computed from its agents and their APIs, and no other
   * row changes.
   */
  lemma MetadataWritten(db: Db, fails: Faults, j: nat)
    requires j < |db.clients|
    requires forall k :: 0 <= k < |db.clients| && db.clients[k].id == db.clients[j].id ==> k == j
    requires NoFaults(fails, db.ops, 2)
    ensures UpdateClientMetadata(db, fails, db.clients[j].id).clients ==
      db.clients[j := db.clients[j].(metadata := Some(ClientMetadataOf(db.clients[j], db.agents, db.apis)))]
  {
    var c := db.clients[j];
    var hits := ClientsWithId(db.clients, c.id);
    assert c in hits;
    assert hits[0] == c by {
      assert hits[0] in hits;
      var k :| 0 <= k < |db.clients| && db.clients[k] == hits[0];
    }
    assert !fails(db.ops) && !fails(db.ops + 1);
  }

  /**
   * A successful `create` appends one row with a new id and the user's
   * company, whose metadata is then the computed one.
   */
  lemma CreateStoresClient(db: Db, fails: Faults, userId: string, dto: NewClient, company: Id, s: Step<Client>)
    requires IdsBelow(db)
    requires userId != "" && userId in db.users && db.users[userId] == Some(company)
    requires NoFaults(fails, db.ops, 4)
    requires s == Create(db, fails, Some(userId), dto)
    ensures s.result == Success(CreatedRow(company, dto).(id := db.nextId))
    ensures s.db.clients == db.clients +
      [CreatedRow(company, dto).(id := db.nextId, metadata := Some(ClientMetadataOf(CreatedRow(company, dto).(id := db.nextId), db.agents, db.apis)))]
    ensures IdsBelow(s.db)
  {
    var row := CreatedRow(company, dto).(id := db.nextId);
    var mid := db.(clients := db.clients + [row], nextId := db.nextId + 1, ops := db.ops + 2);
    CreateInserts(db, fails, userId, dto, company, row, mid, s);
    AppendedUnique(db, row, mid);
    MetadataWritten(mid, fails, |db.clients|);
    AppendThenSet(db.clients, row, row.(metadata := Some(ClientMetadataOf(row, db.agents, db.apis))));
    MetadataIdsBelow(mid, fails, db.nextId);
  }

  /** The appended row is the only one with its id. */
  lemma AppendedUnique(db: Db, row: Client, mid: Db)
    requires IdsBelow(db) && row.id == db.nextId
    requires mid == db.(clients := db.clients + [row], nextId := db.nextId + 1, ops := db.ops + 2)
    ensures IdsBelow(mid) && mid.clients[|db.clients|] == row
    ensures forall k :: 0 <= k < |mid.clients| && mid.clients[k].id == mid.clients[|db.clients|].id ==> k == |db.clients|
  {
    forall k | 0 <= k < |db.clients|
      ensures mid.clients[k] == db.clients[k]
    {
    }
  }

  lemma AppendThenSet<T>(xs: seq<T>, a: T, b: T)
    ensures (xs + [a])[|xs| := b] == xs + [b]
  {
  }

  /** The metadata refresh keeps every id below `nextId`. */
  lemma MetadataIdsBelow(db: Db, fails: Faults, clientId: Id)
    requires IdsBelow(db)
    ensures IdsBelow(UpdateClientMetadata(db, fails, clientId))
  {
    var r := UpdateClientMetadata(db, fails, clientId);
    assert forall j :: 0 <= j < |r.clients| ==> r.clients[j].id == db.clients[j].id;
  }

  /** The first two calls of a successful `create`: the user's company is read and the row inserted. */
  lemma CreateInserts(db: Db, fails: Faults, userId: string, dto: NewClient, company: Id, row: Client, mid: Db, s: Step<Client>)
    requires userId != "" && userId in db.users && db.users[userId] == Some(company)
    requires !fails(db.ops) && !fails(db.ops + 1)
    requires row == CreatedRow(company, dto).(id := db.nextId)
    requires mid == db.(clients := db.clients + [row], nextId := db.nextId + 1, ops := db.ops + 2)
    requires s == Create(db, fails, Some(userId), dto)
    ensures s == Step(UpdateClientMetadata(mid, fails, db.nextId), Success(row))
  {
    var user := SelectUserCompany(db, fails, userId);
    assert user.db == Tick(db) && user.result == Success(Some(company));
    var ins := InsertClient(user.db, fails, CreatedRow(company, dto));
    assert ins.db == mid && ins.result == Success(row);
  }

  // ---------------------------------------------------------------------------
  // The agent loop of duplicateClient

  /** The copies get new ids, distinct from one another. */
  lemma {:induction false} CopyAgentsFresh(db: Db, fails: Faults, clientId: Id, agents: seq<Agent>, r: Copying)
    requires r == CopyAgents(db, fails, clientId, agents)
    ensures forall k :: k in r.idMap ==> db.nextId <= r.idMap[k] < r.db.nextId
    ensures Injective(r.idMap)
    ensures forall j :: |db.agents| <= j < |r.db.agents| ==> db.nextId <= r.db.agents[j].id < r.db.nextId
    ensures IdsBelow(db) ==> IdsBelow(r.db)
  {
    if agents != [] {
      var init := agents[..|agents| - 1];
      var prev := CopyAgents(db, fails, clientId, init);
      CopyAgentsFresh(db, fails, clientId, init, prev);
      var ins := InsertAgent(prev.db, fails, agents[|agents| - 1].(clientId := clientId));
      if ins.result.Success? {
        assert ins.db.agents == prev.db.agents + [ins.result.value];
      }
    }
    if IdsBelow(db) {
      forall j | 0 <= j < |r.db.agents|
        ensures r.db.agents[j].id < r.db.nextId
      {
        if j < |db.agents| {
          assert r.db.agents[j] == db.agents[j];
        }
      }
    }
  }

  /**
   * Every map entry old -> new names an agent of the original client whose
   * copy, on the new client with id new, is in the table; every row the loop
   * added is such a copy.
   */
  lemma {:induction false} CopyAgentsRows(db: Db, fails: Faults, clientId: Id, agents: seq<Agent>, r: Copying)
    requires r == CopyAgents(db, fails, clientId, agents)
    ensures forall k :: k in r.idMap ==> AgentCopiedAs(k, r.idMap[k], agents, r.db.agents, clientId)
    ensures forall j :: |db.agents| <= j < |r.db.agents| ==> AgentCopyOf(r.db.agents[j], agents, clientId)
  {
    if agents != [] {
      var init := agents[..|agents| - 1];
      var last := agents[|agents| - 1];
      var prev := CopyAgents(db, fails, clientId, init);
      CopyAgentsRows(db, fails, clientId, init, prev);
      assert forall a :: a in init ==> a in agents;
      assert last in agents;
      assert r == CopyAgent(prev, fails, clientId, last);
      CopyAgentMapped(prev, fails, clientId, init, last, agents, r);
      CopyAgentAdded(|db.agents|, prev, fails, clientId, init, last, agents, r);
    }
  }

  /** One pass of the agent loop keeps every map entry pointing at a copy. */
  lemma CopyAgentMapped(prev: Copying, fails: Faults, clientId: Id, init: seq<Agent>, last: Agent, agents: seq<Agent>, r: Copying)
    requires (forall a :: a in init ==> a in agents) && last in agents
    requires r == CopyAgent(prev, fails, clientId, last)
    requires forall k :: k in prev.idMap ==> AgentCopiedAs(k, prev.idMap[k], init, prev.db.agents, clientId)
    ensures forall k :: k in r.idMap ==> AgentCopiedAs(k, r.idMap[k], agents, r.db.agents, clientId)
  {
    var n := |prev.db.agents|;
    var added := !fails(prev.db.ops);
    assert n <= |r.db.agents| && r.db.agents[..n] == prev.db.agents;
    forall k | k in r.idMap
      ensures AgentCopiedAs(k, r.idMap[k], agents, r.db.agents, clientId)
    {
      if added && k == last.id {
        assert last.(id := r.idMap[k], clientId := clientId) == r.db.agents[n];
      } else {
        assert k in prev.idMap && r.idMap[k] == prev.idMap[k];
        var a :| a in init && a.id == k && a.(id := prev.idMap[k], clientId := clientId) in prev.db.agents;
        var i :| 0 <= i < n && prev.db.agents[i] == a.(id := prev.idMap[k], clientId := clientId);
        assert r.db.agents[i] == prev.db.agents[i];
      }
    }
  }

  /** One pass of the agent loop adds at most one row, a copy of its agent. */
  lemma CopyAgentAdded(low: nat, prev: Copying, fails: Faults, clientId: Id, init: seq<Agent>, last: Agent, agents: seq<Agent>, r: Copying)
    requires (forall a :: a in init ==> a in agents) && last in agents
    requires r == CopyAgent(prev, fails, clientId, last)
    requires forall j :: low <= j < |prev.db.agents| ==> AgentCopyOf(prev.db.agents[j], init, clientId)
    ensures forall j :: low <= j < |r.db.agents| ==> AgentCopyOf(r.db.agents[j], agents, clientId)
  {
    var n := |prev.db.agents|;
    assert n <= |r.db.agents| && r.db.agents[..n] == prev.db.agents;
    forall j | low <= j < |r.db.agents|
      ensures AgentCopyOf(r.db.agents[j], agents, clientId)
    {
      if j < n {
        assert r.db.agents[j] == prev.db.agents[j];
        var row := prev.db.agents[j];
        var a :| a in init && row == a.(id := row.id, clientId := clientId);
      } else {
        assert r.db.agents[j] == last.(id := r.db.agents[j].id, clientId := clientId);
      }
    }
  }

  /** When no insert fails, every agent of the original client is copied. */
  lemma {:induction false} CopyAgentsComplete(db: Db, fails: Faults, clientId: Id, agents: seq<Agent>, r: Copying)
    requires NoFaults(fails, db.ops, |agents|)
    requires r == CopyAgents(db, fails, clientId, agents)
    ensures forall a :: a in agents ==> a.id in r.idMap
  {
    if agents != [] {
      var init := agents[..|agents| - 1];
      var prev := CopyAgents(db, fails, clientId, init);
      CopyAgentsComplete(db, fails, clientId, init, prev);
      assert !fails(prev.db.ops);
      forall a | a in agents
        ensures a.id in r.idMap
      {
        if a != agents[|agents| - 1] {
          var i :| 0 <= i < |agents| && agents[i] == a;
          assert init[i] == a;
        }
      }
    }
  }

  // ---------------------------------------------------------------------------
  // The intention loop, its inserts awaited (as the code stands they are never sent)

  /**
   * When no insert fails, the table gains exactly one copy of each intention,
   * in order, on the new client, with consecutive new ids.
   */
  lemma {:induction false} CopyIntentionsExact(db: Db, fails: Faults, clientId: Id, intentions: seq<Intention>, r: Db)
    requires NoFaults(fails, db.ops, |intentions|)
    requires r == CopyIntentions(db, fails, clientId, intentions)
    ensures r.nextId == db.nextId + |intentions|
    ensures |r.intentions| == |db.intentions| + |intentions|
    ensures forall i :: 0 <= i < |intentions| ==>
      r.intentions[|db.intentions| + i] == intentions[i].(id := db.nextId + i, clientId := clientId)
  {
    if intentions != [] {
      var n := |intentions| - 1;
      var init := intentions[..n];
      var prev := CopyIntentions(db, fails, clientId, init);
      CopyIntentionsExact(db, fails, clientId, init, prev);
      assert !fails(prev.ops);
      assert r.intentions == prev.intentions + [intentions[n].(id := prev.nextId, clientId := clientId)];
      forall i | 0 <= i < |intentions|
        ensures r.intentions[|db.intentions| + i] == intentions[i].(id := db.nextId + i, clientId := clientId)
      {
        if i < n {
          assert init[i] == intentions[i];
          assert r.intentions[|db.intentions| + i] == prev.intentions[|db.intentions| + i];
        }
      }
    }
  }

  /** The intention copies get new ids. */
  lemma {:induction false} CopyIntentionsFresh(db: Db, fails: Faults, clientId: Id, intentions: seq<Intention>, r: Db)
    requires r == CopyIntentions(db, fails, clientId, intentions)
    ensures forall j :: |db.intentions| <= j < |r.intentions| ==> db.nextId <= r.intentions[j].id < r.nextId
    ensures IdsBelow(db) ==> IdsBelow(r)
  {
    if intentions != [] {
      var init := intentions[..|intentions| - 1];
      var prev := CopyIntentions(db, fails, clientId, init);
      CopyIntentionsFresh(db, fails, clientId, init, prev);
      var ins := InsertIntention(prev, fails, intentions[|intentions| - 1].(clientId := clientId));
      if ins.result.Success? {
        assert ins.db.intentions == prev.intentions + [ins.result.value];
      }
    }
    if IdsBelow(db) {
      forall j | 0 <= j < |r.intentions|
        ensures r.intentions[j].id < r.nextId
      {
        if j < |db.intentions| {
          assert r.intentions[j] == db.intentions[j];
        }
      }
    }
  }

  // ---------------------------------------------------------------------------
  // The API loop

  /** The API copies get new ids, distinct from one another. */
  lemma {:induction false} CopyApisFresh(db: Db, fails: Faults, agentMap: map<Id, Id>, apis: seq<Api>, r: Copying)
    requires r == CopyApis(db, fails, agentMap, apis)
    ensures forall k :: k in r.idMap ==> db.nextId <= r.idMap[k] < r.db.nextId
    ensures Injective(r.idMap)
    ensures forall j :: |db.apis| <= j < |r.db.apis| ==> db.nextId <= r.db.apis[j].id < r.db.nextId
  {
    if apis != [] {
      var init := apis[..|apis| - 1];
      var last := apis[|apis| - 1];
      var prev := CopyApis(db, fails, agentMap, init);
      CopyApisFresh(db, fails, agentMap, init, prev);
      if last.agentId in agentMap {
        var ins := InsertApi(prev.db, fails, ApiCopy(last, agentMap[last.agentId]));
        if ins.result.Success? {
          assert ins.db.apis == prev.db.apis + [ins.result.value];
        }
      }
    }
  }

  /**
   * Every map entry old -> new names an API whose agent was copied, and the
   * table holds its copy with id new, on the agent's copy, with no successor;
   * every row the loop added is such a copy.
   */
  lemma {:induction false} CopyApisRows(db: Db, fails: Faults, agentMap: map<Id, Id>, apis: seq<Api>, r: Copying)
    requires r == CopyApis(db, fails, agentMap, apis)
    ensures forall k :: k in r.idMap ==> ApiCopiedAs(k, r.idMap[k], apis, r.db.apis, agentMap)
    ensures forall j :: |db.apis| <= j < |r.db.apis| ==> ApiCopyOf(r.db.apis[j], apis, agentMap)
  {
    if apis != [] {
      var init := apis[..|apis| - 1];
      var last := apis[|apis| - 1];
      var prev := CopyApis(db, fails, agentMap, init);
      CopyApisRows(db, fails, agentMap, init, prev);
      assert forall p :: p in init ==> p in apis;
      assert last in apis;
      assert r == CopyApi(prev, fails, agentMap, last);
      CopyApiMapped(prev, fails, agentMap, init, last, apis, r);
      CopyApiAdded(|db.apis|, prev, fails, agentMap, init, last, apis, r);
    }
  }

  /** One pass of the API loop keeps every map entry pointing at a copy. */
  lemma CopyApiMapped(prev: Copying, fails: Faults, agentMap: map<Id, Id>, init: seq<Api>, last: Api, apis: seq<Api>, r: Copying)
    requires (forall p :: p in init ==> p in apis) && last in apis
    requires r == CopyApi(prev, fails, agentMap, last)
    requires forall k :: k in prev.idMap ==> ApiCopiedAs(k, prev.idMap[k], init, prev.db.apis, agentMap)
    ensures forall k :: k in r.idMap ==> ApiCopiedAs(k, r.idMap[k], apis, r.db.apis, agentMap)
  {
    var n := |prev.db.apis|;
    var added := last.agentId in agentMap && !fails(prev.db.ops);
    assert n <= |r.db.apis| && r.db.apis[..n] == prev.db.apis;
    if !added {
      assert r.idMap == prev.idMap;
    }
    forall k | k in r.idMap
      ensures ApiCopiedAs(k, r.idMap[k], apis, r.db.apis, agentMap)
    {
      if added && k == last.id {
        assert ApiCopy(last, agentMap[last.agentId]).(id := r.idMap[k]) == r.db.apis[n];
      } else {
        assert k in prev.idMap && r.idMap[k] == prev.idMap[k];
        var p :| p in init && p.id == k && p.agentId in agentMap &&
          ApiCopy(p, agentMap[p.agentId]).(id := prev.idMap[k]) in prev.db.apis;
        var i :| 0 <= i < n && prev.db.apis[i] == ApiCopy(p, agentMap[p.agentId]).(id := prev.idMap[k]);
        assert r.db.apis[i] == prev.db.apis[i];
      }
    }
  }

  /** One pass of the API loop adds at most one row, a copy of its API. */
  lemma CopyApiAdded(low: nat, prev: Copying, fails: Faults, agentMap: map<Id, Id>, init: seq<Api>, last: Api, apis: seq<Api>, r: Copying)
    requires (forall p :: p in init ==> p in apis) && last in apis
    requires r == CopyApi(prev, fails, agentMap, last)
    requires forall j :: low <= j < |prev.db.apis| ==> ApiCopyOf(prev.db.apis[j], init, agentMap)
    ensures forall j :: low <= j < |r.db.apis| ==> ApiCopyOf(r.db.apis[j], apis, agentMap)
  {
    var n := |prev.db.apis|;
    assert n <= |r.db.apis| && r.db.apis[..n] == prev.db.apis;
    forall j | low <= j < |r.db.apis|
      ensures ApiCopyOf(r.db.apis[j], apis, agentMap)
    {
      if j < n {
        assert r.db.apis[j] == prev.db.apis[j];
        var row := prev.db.apis[j];
        var p :| p in init && p.agentId in agentMap && row == ApiCopy(p, agentMap[p.agentId]).(id := row.id);
      } else {
        assert r.db.apis[j] == ApiCopy(last, agentMap[last.agentId]).(id := r.db.apis[j].id);
      }
    }
  }

  /** When no insert fails and every API's agent was copied, every API is copied. */
  lemma {:induction false} CopyApisComplete(db: Db, fails: Faults, agentMap: map<Id, Id>, apis: seq<Api>, r: Copying)
    requires NoFaults(fails, db.ops, |apis|)
    requires forall p :: p in apis ==> p.agentId in agentMap
    requires r == CopyApis(db, fails, agentMap, apis)
    ensures forall p :: p in apis ==> p.id in r.idMap
  {
    if apis != [] {
      var init := apis[..|apis| - 1];
      assert forall p :: p in init ==> p in apis;
      var prev := CopyApis(db, fails, agentMap, init);
      CopyApisComplete(db, fails, agentMap, init, prev);
      var last := apis[|apis| - 1];
      assert last in apis;
      assert r == CopyApi(prev, fails, agentMap, last);
      CopyApiMapsLast(prev, fails, agentMap, last, r);
      forall p | p in apis
        ensures p.id in r.idMap
      {
        if p != last {
          var i :| 0 <= i < |apis| && apis[i] == p;
          assert init[i] == p;
        }
      }
    }
  }

  /** A pass whose agent was copied and whose insert succeeds maps its API and keeps the earlier entries. */
  lemma CopyApiMapsLast(prev: Copying, fails: Faults, agentMap: map<Id, Id>, last: Api, r: Copying)
    requires last.agentId in agentMap && !fails(prev.db.ops)
    requires r == CopyApi(prev, fails, agentMap, last)
    ensures r.idMap.Keys == prev.idMap.Keys + {last.id}
  {
  }

  // ---------------------------------------------------------------------------
  // The relinking loop, its updates awaited (as the code stands they are never sent)

  /** Rows whose id is below every copy's id are left alone: the original chain is untouched. */
  lemma {:induction false} RelinkKeepsOthers(db: Db, fails: Faults, apiMap: map<Id, Id>, apis: seq<Api>, low: nat, r: Db)
    requires forall k :: k in apiMap ==> low <= apiMap[k]
    requires r == Relink(db, fails, apiMap, apis)
    ensures forall j :: 0 <= j < |db.apis| && db.apis[j].id < low ==> r.apis[j] == db.apis[j]
  {
    if apis != [] {
      var init := apis[..|apis| - 1];
      RelinkKeepsOthers(db, fails, apiMap, init, low, Relink(db, fails, apiMap, init));
    }
  }

  /**
   * A row the loop changes is the copy of an original API whose successor was
   * copied too, and it now points at that successor's copy.
   */
  lemma {:induction false} RelinkRows(db: Db, fails: Faults, apiMap: map<Id, Id>, apis: seq<Api>, r: Db)
    requires r == Relink(db, fails, apiMap, apis)
    ensures forall j :: 0 <= j < |db.apis| && r.apis[j] != db.apis[j] ==> RelinkedFrom(db.apis[j], r.apis[j], apis, apiMap)
  {
    if apis != [] {
      var init := apis[..|apis| - 1];
      var last := apis[|apis| - 1];
      var prev := Relink(db, fails, apiMap, init);
      RelinkRows(db, fails, apiMap, init, prev);
      assert last in apis;
      forall j | 0 <= j < |db.apis| && r.apis[j] != db.apis[j]
        ensures RelinkedFrom(db.apis[j], r.apis[j], apis, apiMap)
      {
        if r.apis[j] == prev.apis[j] {
          assert RelinkedFrom(db.apis[j], prev.apis[j], init, apiMap);
          var p :| p in init && p.id in apiMap && p.nextApiId.Some? && p.nextApiId.value in apiMap &&
            db.apis[j].id == apiMap[p.id] && prev.apis[j] == db.apis[j].(nextApiId := Some(apiMap[p.nextApiId.value]));
          assert p in apis;
        } else {
          assert last.id in apiMap && last.nextApiId.Some? && last.nextApiId.value in apiMap;
          assert prev.apis[j].id == apiMap[last.id];
          assert r.apis[j] == prev.apis[j].(nextApiId := Some(apiMap[last.nextApiId.value]));
          if prev.apis[j] != db.apis[j] {
            assert RelinkedFrom(db.apis[j], prev.apis[j], init, apiMap);
          }
          assert r.apis[j] == db.apis[j].(nextApiId := Some(apiMap[last.nextApiId.value]));
        }
      }
    }
  }

  /**
   * When no update fails, the copy of every original API whose successor was
   * copied points at the successor's copy: the chain is rebuilt among the copies.
   */
  lemma {:induction false} RelinkComplete(db: Db, fails: Faults, apiMap: map<Id, Id>, apis: seq<Api>, r: Db)
    requires NoFaults(fails, db.ops, |apis|)
    requires Injective(apiMap)
    requires forall i, i' :: 0 <= i < i' < |apis| ==> apis[i].id != apis[i'].id
    requires r == Relink(db, fails, apiMap, apis)
    ensures forall p, j ::
      (p in apis && p.id in apiMap && p.nextApiId.Some? && p.nextApiId.value in apiMap &&
       0 <= j < |db.apis| && db.apis[j].id == apiMap[p.id]) ==>
      r.apis[j].nextApiId == Some(apiMap[p.nextApiId.value])
  {
    if apis != [] {
      var n := |apis| - 1;
      var init := apis[..n];
      var last := apis[n];
      var prev := Relink(db, fails, apiMap, init);
      RelinkComplete(db, fails, apiMap, init, prev);
      assert !fails(prev.ops);
      forall p, j | p in apis && p.id in apiMap && p.nextApiId.Some? && p.nextApiId.value in apiMap &&
        0 <= j < |db.apis| && db.apis[j].id == apiMap[p.id]
        ensures r.apis[j].nextApiId == Some(apiMap[p.nextApiId.value])
      {
        if p != last {
          var i :| 0 <= i < |apis| && apis[i] == p;
          assert i < n;
          assert init[i] == p;
          assert p.id != last.id;
        }
      }
    }
  }

  // ---------------------------------------------------------------------------
  // duplicateClient as a whole

  /** A successful duplicate answers the copy of the client asked for, under a new id. */
  lemma DuplicateAnswersCopy(db: Db, fails: Faults, clientId: Id, s: Step<Client>)
    requires s == DuplicateClient(db, fails, clientId)
    ensures s.result.Success? ==>
      exists c :: c in db.clients && c.id == clientId && s.result.value == ClientPayload(c).(id := db.nextId)
  {
    if s.result.Success? {
      var found := FindOne(db, fails, clientId);
      assert found.result.value in db.clients;
    }
  }

  /** An unknown client is a 404 before anything is written. */
  lemma DuplicateUnknownClient(db: Db, fails: Faults, clientId: Id)
    requires !fails(db.ops)
    requires forall c :: c in db.clients ==> c.id != clientId
    ensures DuplicateClient(db, fails, clientId) ==
      Step(Tick(db), Failure(NotFound(NotFoundMessage("PainelClient", clientId))))
  {
  }

  /**
   * Whatever fails along the way, the rows that existed before a stage of
   * the duplicate keep their place and contents (but for the copy's own
   * metadata), and every id stays below `nextId`.
   */
  predicate KeepsRows(before: Db, after: Db, copyId: Id) {
    && |after.clients| == |before.clients|
    && (forall j :: 0 <= j < |before.clients| && before.clients[j].id != copyId ==> after.clients[j] == before.clients[j])
    && |before.agents| <= |after.agents| && after.agents[..|before.agents|] == before.agents
    && |before.intentions| <= |after.intentions| && after.intentions[..|before.intentions|] == before.intentions
    && |before.apis| <= |after.apis| && after.apis[..|before.apis|] == before.apis
    && IdsBelow(after)
  }

  lemma KeepsRowsTransitive(a: Db, b: Db, c: Db, copyId: Id)
    requires KeepsRows(a, b, copyId) && KeepsRows(b, c, copyId)
    ensures KeepsRows(a, c, copyId)
  {
    assert c.agents[..|a.agents|] == b.agents[..|a.agents|];
    assert c.intentions[..|a.intentions|] == b.intentions[..|a.intentions|];
    assert c.apis[..|a.apis|] == b.apis[..|a.apis|];
  }

  /** The metadata refresh of the copy keeps every other row. */
  lemma MetadataKeeps(db: Db, fails: Faults, copyId: Id)
    requires IdsBelow(db)
    ensures KeepsRows(db, UpdateClientMetadata(db, fails, copyId), copyId)
  {
    var r := UpdateClientMetadata(db, fails, copyId);
    assert r.agents[..|db.agents|] == db.agents;
    assert r.intentions[..|db.intentions|] == db.intentions;
    assert r.apis[..|db.apis|] == db.apis;
    assert forall j :: 0 <= j < |r.clients| ==> r.clients[j].id == db.clients[j].id;
  }

  /** Copying the APIs and relinking the copies keeps the rows found. */
  lemma CopyAndRelinkKeeps(db: Db, fails: Faults, agentMap: map<Id, Id>, apis: seq<Api>, c: Copying, linked: Db, copyId: Id, sent: bool)
    requires IdsBelow(db)
    requires c == CopyApis(db, fails, agentMap, apis)
    requires linked == if sent then Relink(c.db, fails, c.idMap, apis) else c.db
    ensures KeepsRows(db, linked, copyId)
  {
    CopyApisFresh(db, fails, agentMap, apis, c);
    if sent {
      RelinkKeepsOthers(c.db, fails, c.idMap, apis, db.nextId, linked);
    }
    assert IdsBelow(c.db);
    assert linked.apis[..|db.apis|] == db.apis by {
      forall j | 0 <= j < |db.apis|
        ensures linked.apis[j] == db.apis[j]
      {
        assert c.db.apis[j] == db.apis[j];
      }
    }
  }

  /** The API stage keeps the rows it found. */
  lemma DuplicateApisKeeps(db: Db, fails: Faults, clientId: Id, copy: Client, agentMap: map<Id, Id>, sent: bool)
    requires IdsBelow(db)
    ensures KeepsRows(db, DuplicateApis(db, fails, clientId, copy, agentMap, sent).db, copy.id)
  {
    var apisQ := FindAllApisByClient(db, fails, clientId);
    if apisQ.result.Success? {
      var c := CopyApis(apisQ.db, fails, agentMap, apisQ.result.value);
      var linked := if sent then Relink(c.db, fails, c.idMap, apisQ.result.value) else c.db;
      CopyAndRelinkKeeps(apisQ.db, fails, agentMap, apisQ.result.value, c, linked, copy.id, sent);
      assert KeepsRows(db, linked, copy.id);
      MetadataKeeps(linked, fails, copy.id);
      KeepsRowsTransitive(db, linked, UpdateClientMetadata(linked, fails, copy.id), copy.id);
    }
  }

  /** The intention stage, and what follows it, keep the rows they found. */
  lemma DuplicateIntentionsKeeps(db: Db, fails: Faults, clientId: Id, copy: Client, agentMap: map<Id, Id>, sent: bool)
    requires IdsBelow(db)
    ensures KeepsRows(db, DuplicateIntentions(db, fails, clientId, copy, agentMap, sent).db, copy.id)
  {
    var intentionsQ := FindAllIntentions(db, fails, clientId);
    if intentionsQ.result.Success? {
      var db1 := if sent then CopyIntentions(intentionsQ.db, fails, copy.id, intentionsQ.result.value) else intentionsQ.db;
      if sent {
        CopyIntentionsFresh(intentionsQ.db, fails, copy.id, intentionsQ.result.value, db1);
      }
      DuplicateApisKeeps(db1, fails, clientId, copy, agentMap, sent);
      var after := DuplicateApis(db1, fails, clientId, copy, agentMap, sent).db;
      assert after.intentions[..|db.intentions|] == db.intentions by {
        assert after.intentions[..|db1.intentions|] == db1.intentions;
        assert db1.intentions[..|db.intentions|] == db.intentions;
      }
    }
  }

  /** Everything after the copy of the client row keeps the rows it found. */
  lemma DuplicateChildrenKeeps(db: Db, fails: Faults, clientId: Id, copy: Client, sent: bool)
    requires IdsBelow(db)
    ensures KeepsRows(db, DuplicateChildren(db, fails, clientId, copy, sent).db, copy.id)
  {
    var agentsQ := FindAllAgents(db, fails, clientId);
    if agentsQ.result.Success? {
      var agents := CopyAgents(agentsQ.db, fails, copy.id, agentsQ.result.value);
      CopyAgentsFresh(agentsQ.db, fails, copy.id, agentsQ.result.value, agents);
      DuplicateIntentionsKeeps(agents.db, fails, clientId, copy, agents.idMap, sent);
      var after := DuplicateIntentions(agents.db, fails, clientId, copy, agents.idMap, sent).db;
      assert after.agents[..|db.agents|] == db.agents by {
        assert after.agents[..|agents.db.agents|] == agents.db.agents;
        assert agents.db.agents[..|db.agents|] == db.agents;
      }
    }
  }

  /**
   * The same for the whole of `duplicateClient`, as written or with its
   * detached writes awaited: the original client, agents, intentions and APIs
   * are left as they were.
   */
  lemma DuplicateKeepsOriginals(db: Db, fails: Faults, clientId: Id, sent: bool, s: Step<Client>)
    requires IdsBelow(db)
    requires s == Duplicate(db, fails, clientId, sent)
    ensures |db.clients| <= |s.db.clients| && s.db.clients[..|db.clients|] == db.clients
    ensures |db.agents| <= |s.db.agents| && s.db.agents[..|db.agents|] == db.agents
    ensures |db.intentions| <= |s.db.intentions| && s.db.intentions[..|db.intentions|] == db.intentions
    ensures |db.apis| <= |s.db.apis| && s.db.apis[..|db.apis|] == db.apis
    ensures IdsBelow(s.db)
  {
    var found := FindOne(db, fails, clientId);
    if found.result.Failure? {
      UnchangedKeeps(db, s.db);
    } else {
      var ins := InsertClient(found.db, fails, ClientPayload(found.result.value));
      if ins.result.Failure? {
        UnchangedKeeps(db, s.db);
      } else {
        var row := ins.result.value;
        assert ins.db == db.(clients := db.clients + [row], nextId := db.nextId + 1, ops := db.ops + 2);
        AppendedUnique(db, row, ins.db);
        DuplicateChildrenKeeps(ins.db, fails, clientId, row, sent);
        KeepsAfterInsert(db, row, ins.db, s.db);
      }
    }
  }

  /** A stage that wrote nothing keeps every row. */
  lemma UnchangedKeeps(db: Db, after: Db)
    requires IdsBelow(db) && after == db.(ops := after.ops)
    ensures |db.clients| <= |after.clients| && after.clients[..|db.clients|] == db.clients
    ensures |db.agents| <= |after.agents| && after.agents[..|db.agents|] == db.agents
    ensures |db.intentions| <= |after.intentions| && after.intentions[..|db.intentions|] == db.intentions
    ensures |db.apis| <= |after.apis| && after.apis[..|db.apis|] == db.apis
    ensures IdsBelow(after)
  {
  }

  /** Rows kept after the insert of the copy are rows kept since before it. */
  lemma KeepsAfterInsert(db: Db, row: Client, mid: Db, after: Db)
    requires IdsBelow(db) && row.id == db.nextId
    requires mid == db.(clients := db.clients + [row], nextId := db.nextId + 1, ops := db.ops + 2)
    requires KeepsRows(mid, after, row.id)
    ensures |db.clients| <= |after.clients| && after.clients[..|db.clients|] == db.clients
    ensures |db.agents| <= |after.agents| && after.agents[..|db.agents|] == db.agents
    ensures |db.intentions| <= |after.intentions| && after.intentions[..|db.intentions|] == db.intentions
    ensures |db.apis| <= |after.apis| && after.apis[..|db.apis|] == db.apis
    ensures IdsBelow(after)
  {
    assert after.clients[..|db.clients|] == db.clients by {
      forall j | 0 <= j < |db.clients|
        ensures after.clients[j] == db.clients[j]
      {
        assert mid.clients[j] == db.clients[j] && db.clients[j].id < db.nextId;
      }
    }
  }

  // ---------------------------------------------------------------------------
  // duplicateClient as written: the detached writes never go out

  /** From `before` to `after` no intention was written and every API row added has no successor. */
  predicate LeftBare(before: Db, after: Db) {
    && after.intentions == before.intentions
    && |before.apis| <= |after.apis|
    && forall j :: |before.apis| <= j < |after.apis| ==> after.apis[j].nextApiId.None?
  }

  /** The API stage as written adds only API copies with no successor. */
  lemma DuplicateApisBare(db: Db, fails: Faults, clientId: Id, copy: Client, agentMap: map<Id, Id>)
    ensures LeftBare(db, DuplicateApis(db, fails, clientId, copy, agentMap, false).db)
  {
    var apisQ := FindAllApisByClient(db, fails, clientId);
    if apisQ.result.Success? {
      var c := CopyApis(apisQ.db, fails, agentMap, apisQ.result.value);
      CopyApisRows(apisQ.db, fails, agentMap, apisQ.result.value, c);
      forall j | |db.apis| <= j < |c.db.apis|
        ensures c.db.apis[j].nextApiId.None?
      {
        var row := c.db.apis[j];
        var p :| p in apisQ.result.value && p.agentId in agentMap && row == ApiCopy(p, agentMap[p.agentId]).(id := row.id);
      }
    }
  }

  /** The intention stage as written: the fetch only, then the API stage. */
  lemma DuplicateIntentionsBare(db: Db, fails: Faults, clientId: Id, copy: Client, agentMap: map<Id, Id>)
    ensures LeftBare(db, DuplicateIntentions(db, fails, clientId, copy, agentMap, false).db)
  {
    DuplicateApisBare(Tick(db), fails, clientId, copy, agentMap);
  }

  lemma DuplicateChildrenBare(db: Db, fails: Faults, clientId: Id, copy: Client)
    ensures LeftBare(db, DuplicateChildren(db, fails, clientId, copy, false).db)
  {
    var agentsQ := FindAllAgents(db, fails, clientId);
    if agentsQ.result.Success? {
      var agents := CopyAgents(agentsQ.db, fails, copy.id, agentsQ.result.value);
      DuplicateIntentionsBare(agents.db, fails, clientId, copy, agents.idMap);
    }
  }

  /**
   * As written, `duplicateClient` leaves the intentions table as it was, so
   * the copy has no intentions, and every API copy it adds has no successor:
   * the chain of `next_api_id` is not rebuilt among the copies.
   */
  lemma DuplicateLeavesCopyBare(db: Db, fails: Faults, clientId: Id, s: Step<Client>)
    requires s == DuplicateClient(db, fails, clientId)
    ensures s.db.intentions == db.intentions
    ensures |db.apis| <= |s.db.apis|
    ensures forall j :: |db.apis| <= j < |s.db.apis| ==> s.db.apis[j].nextApiId == None
  {
    var found := FindOne(db, fails, clientId);
    if found.result.Success? {
      var ins := InsertClient(found.db, fails, ClientPayload(found.result.value));
      if ins.result.Success? {
        DuplicateChildrenBare(ins.db, fails, clientId, ins.result.value);
      }
    }
  }
}
