/**
 * The Prisma client of src/imports/imports.service.ts as an object whose
 * fields are the tables. Each method is one database call; its contract ties
 * the new state to the matching function of ImportDb.
 */
module ImportStore {
  import opened Wrappers
  import opened JsValues
  import opened Normalizer
  import opened ImportDb
  import Staging

  class Store {
    var users: map<string, Option<Id>>
    var imports: map<Id, ImportHeader>
    var contacts: seq<Contact>
    var people: map<PersonKey, Person>
    var phones: map<PhoneKey, Id>
    var links: map<LinkKey, bool>
    var debts: seq<Debt>
    var nextId: Id
    var ops: nat
    /** Which calls fail, by position. */
    const fails: Faults

    function State(): Db
      reads this
    {
      Db(users, imports, contacts, people, phones, links, debts, nextId, ops)
    }

    constructor(db: Db, fails: Faults)
      ensures State() == db && this.fails == fails
    {
      users := db.users;
      imports := db.imports;
      contacts := db.contacts;
      people := db.people;
      phones := db.phones;
      links := db.links;
      debts := db.debts;
      nextId := db.nextId;
      ops := db.ops;
      this.fails := fails;
    }

    /** `users.findUnique` followed by reading `company_id`. */
    method FindCompany(userId: string) returns (r: Result<Option<Id>, string>)
      modifies this
      ensures State() == Tick(old(State()))
      ensures r == if fails(old(ops)) then Failure(DbErrorMessage) else Success(Staging.CompanyOf(old(State()), userId))
    {
      var failed := fails(ops);
      ops := ops + 1;
      if failed {
        return Failure(DbErrorMessage);
      }
      r := Success(if userId in users then users[userId] else None);
    }

    /** `imports.create`: the header takes the next id. */
    method CreateImport(header: ImportHeader) returns (r: Result<Id, string>)
      modifies this
      ensures fails(old(ops)) ==> State() == Tick(old(State())) && r == Failure(DbErrorMessage)
      ensures !fails(old(ops)) ==>
        && State() == Tick(old(State())).(imports := old(imports)[old(nextId) := header], nextId := old(nextId) + 1)
        && r == Success(old(nextId))
    {
      var failed := fails(ops);
      ops := ops + 1;
      if failed {
        return Failure(DbErrorMessage);
      }
      imports := imports[nextId := header];
      r := Success(nextId);
      nextId := nextId + 1;
    }

    /** `contacts.createMany` of one batch. */
    method CreateContacts(batch: seq<Contact>) returns (ok: bool)
      modifies this
      ensures ok == !fails(old(ops))
      ensures State() == if ok then Tick(old(State())).(contacts := old(contacts) + batch) else Tick(old(State()))
    {
      ok := !fails(ops);
      ops := ops + 1;
      if ok {
        contacts := contacts + batch;
      }
    }

    /** `contacts.findMany` of the pending rows of one import. */
    method FindPending(importId: Id) returns (r: Result<seq<Id>, string>)
      modifies this
      ensures State() == Tick(old(State()))
      ensures r == if fails(old(ops)) then Failure(DbErrorMessage) else Success(PendingIds(old(contacts), importId))
    {
      var failed := fails(ops);
      ops := ops + 1;
      if failed {
        return Failure(DbErrorMessage);
      }
      r := Success(PendingIds(contacts, importId));
    }

    method UpsertPerson(company: Id, cpf: string, name: JsValue, email: JsValue, birth: Option<Instant>) returns (r: Result<Id, string>)
      modifies this
      ensures var s := ImportDb.UpsertPerson(old(State()), fails, company, cpf, name, email, birth);
        State() == s.db && r == s.result
    {
      var nameArg := TextArg(name);
      var emailArg := TextArg(email);
      if nameArg.Failure? || emailArg.Failure? {
        return Failure(ValidationErrorMessage);
      }
      var failed := fails(ops);
      ops := ops + 1;
      if failed {
        return Failure(DbErrorMessage);
      }
      var key := (company, cpf);
      if key in people {
        var p := people[key];
        var newName := if Truthy(name) then nameArg.value else p.name;
        var newEmail := if Truthy(email) then emailArg.value else p.email;
        people := people[key := Person(p.id, newName, newEmail, birth)];
        r := Success(p.id);
      } else {
        people := people[key := Person(nextId, nameArg.value, emailArg.value, birth)];
        r := Success(nextId);
        nextId := nextId + 1;
      }
    }

    method UpsertPhone(company: Id, digits: string) returns (r: Result<Id, string>)
      modifies this
      ensures var s := ImportDb.UpsertPhone(old(State()), fails, company, digits);
        State() == s.db && r == s.result
    {
      var failed := fails(ops);
      ops := ops + 1;
      if failed {
        return Failure(DbErrorMessage);
      }
      var key := (company, digits);
      if key in phones {
        r := Success(phones[key]);
      } else {
        phones := phones[key := nextId];
        r := Success(nextId);
        nextId := nextId + 1;
      }
    }

    method UpsertLink(person: Id, phone: Id, primary: bool) returns (r: Result<(), string>)
      modifies this
      ensures var s := ImportDb.UpsertLink(old(State()), fails, person, phone, primary);
        State() == s.db && r == s.result
    {
      var failed := fails(ops);
      ops := ops + 1;
      if failed {
        return Failure(DbErrorMessage);
      }
      links := links[(person, phone) := primary];
      r := Success(());
    }

    method CreateDebt(debt: Debt) returns (r: Result<(), string>)
      modifies this
      ensures var s := ImportDb.CreateDebt(old(State()), fails, debt);
        State() == s.db && r == s.result
    {
      var failed := fails(ops);
      ops := ops + 1;
      if failed {
        return Failure(DbErrorMessage);
      }
      debts := debts + [debt];
      r := Success(());
    }

    method UpdateContact(id: Id, status: ContactStatus, error: Option<string>) returns (r: Result<(), string>)
      requires id < |contacts|
      modifies this
      ensures var s := ImportDb.UpdateContact(old(State()), fails, id, status, error);
        State() == s.db && r == s.result
    {
      var failed := fails(ops);
      ops := ops + 1;
      if failed {
        return Failure(DbErrorMessage);
      }
      var c := contacts[id];
      var message := if error.Some? then error else c.errorMessage;
      contacts := contacts[id := c.(status := status, errorMessage := message)];
      r := Success(());
    }

    method FinishImport(importId: Id, valid: nat, invalid: nat, pending: nat, log: seq<LogEntry>) returns (r: Result<(), string>)
      modifies this
      ensures var s := ImportDb.FinishImport(old(State()), fails, importId, valid, invalid, pending, log);
        State() == s.db && r == s.result
    {
      if importId !in imports {
        return Failure(DbErrorMessage);
      }
      var failed := fails(ops);
      ops := ops + 1;
      if failed {
        return Failure(DbErrorMessage);
      }
      var h := imports[importId];
      imports := imports[importId := h.(
        validRecords := Some(valid),
        invalidRecords := Some(invalid),
        status := FinalStatus(invalid, pending),
        errorLog := if |log| > 0 then Some(log) else None)];
      r := Success(());
    }
  }
}
