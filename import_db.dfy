/**
 * The database the import pipeline of src/imports/imports.service.ts works
 * on, as a value, and every Prisma call the pipeline makes as a function from
 * the state before the call to the state after it.
 *
 * Any database call may fail. Which ones do is a parameter `fails`, indexed by
 * a counter of the calls made so far (`ops`), so that every fault pattern can
 * be stated and none has to be guessed.
 */
module ImportDb {
  import opened Wrappers
  import opened JsValues
  import opened Normalizer

  type Id = nat

  /** A point in time, as `Date.getTime()` gives it. */
  type Instant = int

  /** Which database calls fail, by their position in the sequence of calls. */
  type Faults = nat -> bool

  /** `new Date(v)` followed by the `isNaN(getTime())` check: `None` for an invalid date. */
  type DateParser = JsValue -> Option<Instant>

  const CpfRequiredMessage: string := "CPF is required"

  /** Stands for the message Prisma's client-side validation raises; the model does not reproduce it. */
  const ValidationErrorMessage: string := "invalid value for a text column"

  datatype ContactStatus = Pending | Processed | Failed

  /** A staging row of the `contacts` table. */
  datatype Contact = Contact(
    companyId: Id,
    importId: Id,
    rawData: RawRow,
    status: ContactStatus,
    errorMessage: Option<string>)

  datatype ImportStatus = Processing | Completed | ImportFailed

  datatype LogEntry = LogEntry(contactId: Id, error: string)

  /** A row of the `imports` table. Counters and log are `None` until processing writes them. */
  datatype ImportHeader = ImportHeader(
    companyId: Id,
    fileName: string,
    fileType: Option<string>,
    totalRecords: nat,
    status: ImportStatus,
    validRecords: Option<nat>,
    invalidRecords: Option<nat>,
    errorLog: Option<seq<LogEntry>>)

  datatype Person = Person(id: Id, name: Option<string>, email: Option<string>, birthDate: Option<Instant>)

  /** The five pass-through fields of a debt's `metadata` object. */
  datatype DebtMetadata = DebtMetadata(
    portfolio: JsValue,
    productType: JsValue,
    segment: JsValue,
    negotiationLimit: JsValue,
    discountLimit: JsValue)

  datatype Debt = Debt(
    companyId: Id,
    personId: Id,
    contractNumber: Option<string>,
    originalAmount: Decimal,
    currentAmount: Decimal,
    dueDate: Option<Instant>,
    status: string,
    metadata: DebtMetadata)

  /** People are unique per (company, cpf), phones per (company, digits), links per (person, phone). */
  type PersonKey = (Id, string)
  type PhoneKey = (Id, string)
  type LinkKey = (Id, Id)

  /**
   * The tables the pipeline touches. A contact's id is its index in
   * `contacts`; every other created record takes `nextId`.
   */
  datatype Db = Db(
    users: map<string, Option<Id>>,
    imports: map<Id, ImportHeader>,
    contacts: seq<Contact>,
    people: map<PersonKey, Person>,
    phones: map<PhoneKey, Id>,
    links: map<LinkKey, bool>,
    debts: seq<Debt>,
    nextId: Id,
    ops: nat)

  /** What a database call leaves behind: the new state and its value or error message. */
  datatype Step<T> = Step(db: Db, result: Result<T, string>)

  /** One more database call has been made. */
  function Tick(db: Db): (r: Db)
    ensures r.ops == db.ops + 1
  {
    db.(ops := db.ops + 1)
  }

  // ---------------------------------------------------------------------------
  // Prisma's validation of a nullable text column

  /** A value accepted for a nullable text column: a string, or null/undefined for none. */
  function TextArg(v: JsValue): (r: Result<Option<string>, string>)
    ensures r.Success? <==> v.Str? || v.Null? || v.Undefined?
    ensures r.Success? && v.Str? ==> r.value == Some(v.s)
    ensures r.Success? && !v.Str? ==> r.value == None
  {
    match v
    case Str(s) => Success(Some(s))
    case Null => Success(None)
    case Undefined => Success(None)
    case _ => Failure(ValidationErrorMessage)
  }

  // ---------------------------------------------------------------------------
  // The calls made while processing one row

  /**
   * `people.upsert` keyed by (company, cpf). The update part writes `name`
   * and `email` only when they are truthy and always writes `birth_date`;
   * the create part writes all three.
   */
  function UpsertPerson(db: Db, fails: Faults, company: Id, cpf: string, name: JsValue, email: JsValue, birth: Option<Instant>): (s: Step<Id>)
    ensures s.db.contacts == db.contacts && s.db.imports == db.imports && s.db.users == db.users
    ensures s.db.phones == db.phones && s.db.links == db.links && s.db.debts == db.debts
    ensures s.result.Success? ==> (company, cpf) in s.db.people && s.db.people[(company, cpf)].id == s.result.value
    ensures s.result.Success? ==> s.db.people[(company, cpf)].birthDate == birth
    ensures s.result.Success? && (company, cpf) in db.people ==> s.result.value == db.people[(company, cpf)].id
    ensures s.result.Success? && (company, cpf) !in db.people ==> s.result.value == db.nextId
    ensures s.result.Success? <==> TextArg(name).Success? && TextArg(email).Success? && !fails(db.ops)
  {
    var nameArg := TextArg(name);
    var emailArg := TextArg(email);
    if nameArg.Failure? || emailArg.Failure? then Step(db, Failure(ValidationErrorMessage))
    else if fails(db.ops) then Step(Tick(db), Failure(DbErrorMessage))
    else
      var key := (company, cpf);
      if key in db.people then
        var p := db.people[key];
        var q := Person(
          p.id,
          if Truthy(name) then nameArg.value else p.name,
          if Truthy(email) then emailArg.value else p.email,
          birth);
        Step(Tick(db).(people := db.people[key := q]), Success(p.id))
      else
        var q := Person(db.nextId, nameArg.value, emailArg.value, birth);
        Step(Tick(db).(people := db.people[key := q], nextId := db.nextId + 1), Success(db.nextId))
  }

  /** `phones.upsert` keyed by (company, digits) with an empty update: an existing phone is returned untouched. */
  function UpsertPhone(db: Db, fails: Faults, company: Id, digits: string): (s: Step<Id>)
    ensures s.db.contacts == db.contacts && s.db.imports == db.imports && s.db.users == db.users
    ensures s.db.people == db.people && s.db.links == db.links && s.db.debts == db.debts
    ensures s.result.Success? <==> !fails(db.ops)
    ensures s.result.Success? ==> (company, digits) in s.db.phones && s.db.phones[(company, digits)] == s.result.value
    ensures (company, digits) in db.phones ==> s.db.phones == db.phones
    ensures (company, digits) !in db.phones && s.result.Success? ==>
      s.db.phones == db.phones[(company, digits) := db.nextId] && s.result.value == db.nextId
  {
    var key := (company, digits);
    if fails(db.ops) then Step(Tick(db), Failure(DbErrorMessage))
    else if key in db.phones then Step(Tick(db), Success(db.phones[key]))
    else Step(Tick(db).(phones := db.phones[key := db.nextId], nextId := db.nextId + 1), Success(db.nextId))
  }

  /** `people_phones.upsert` keyed by (person, phone): created or overwritten with the flag. */
  function UpsertLink(db: Db, fails: Faults, person: Id, phone: Id, primary: bool): (s: Step<()>)
    ensures s.db.contacts == db.contacts && s.db.imports == db.imports && s.db.users == db.users
    ensures s.db.people == db.people && s.db.phones == db.phones && s.db.debts == db.debts
    ensures s.result.Success? <==> !fails(db.ops)
    ensures s.db.links == if s.result.Success? then db.links[(person, phone) := primary] else db.links
  {
    if fails(db.ops) then Step(Tick(db), Failure(DbErrorMessage))
    else Step(Tick(db).(links := db.links[(person, phone) := primary]), Success(()))
  }

  /** `debts.create`: the debt is appended, never merged with an earlier one. */
  function CreateDebt(db: Db, fails: Faults, debt: Debt): (s: Step<()>)
    ensures s.db.contacts == db.contacts && s.db.imports == db.imports && s.db.users == db.users
    ensures s.db.people == db.people && s.db.phones == db.phones && s.db.links == db.links
    ensures s.result.Success? <==> !fails(db.ops)
    ensures s.db.debts == if s.result.Success? then db.debts + [debt] else db.debts
  {
    if fails(db.ops) then Step(Tick(db), Failure(DbErrorMessage))
    else Step(Tick(db).(debts := db.debts + [debt]), Success(()))
  }

  /** `contacts.update` of one staging row's status and error message. */
  function UpdateContact(db: Db, fails: Faults, id: Id, status: ContactStatus, error: Option<string>): (s: Step<()>)
    requires id < |db.contacts|
    ensures s.db.imports == db.imports && s.db.users == db.users && s.db.people == db.people
    ensures s.db.phones == db.phones && s.db.links == db.links && s.db.debts == db.debts
    ensures s.db.ops == db.ops + 1 && s.db.nextId == db.nextId
    ensures s.result == if fails(db.ops) then Failure(DbErrorMessage) else Success(())
    ensures |s.db.contacts| == |db.contacts|
    ensures forall c :: 0 <= c < |db.contacts| && c != id ==> s.db.contacts[c] == db.contacts[c]
    ensures s.db.contacts[id] == if s.result.Success?
      then db.contacts[id].(status := status, errorMessage := if error.Some? then error else db.contacts[id].errorMessage)
      else db.contacts[id]
  {
    if fails(db.ops) then Step(Tick(db), Failure(DbErrorMessage))
    else
      var c := db.contacts[id];
      var e := if error.Some? then error else c.errorMessage;
      Step(Tick(db).(contacts := db.contacts[id := c.(status := status, errorMessage := e)]), Success(()))
  }

  // ---------------------------------------------------------------------------
  // One row

  /** `row.birth_date` (or `due_date`) read as a date: null when falsy or invalid. */
  function DateField(row: Row, key: string, parseDate: DateParser): Option<Instant> {
    var v := Get(row, key);
    if Truthy(v) then parseDate(v) else None
  }

  /** Whether the row carries a debt: `original_amount` or `current_amount` is not `undefined`. */
  predicate HasDebt(row: Row) {
    Get(row, "original_amount") != Undefined || Get(row, "current_amount") != Undefined
  }

  /** The debt a row describes, given its status text. */
  function DebtOf(row: Row, company: Id, person: Id, parseDate: DateParser, status: string): Debt {
    var contract := Get(row, "contract_number");
    Debt(
      company,
      person,
      if Truthy(contract) then Some(ToJsString(contract)) else None,
      ParseCurrency(Get(row, "original_amount")),
      ParseCurrency(Get(row, "current_amount")),
      DateField(row, "due_date", parseDate),
      status,
      DebtMetadata(
        Get(row, "portfolio"),
        Get(row, "product_type"),
        Get(row, "segment"),
        Get(row, "negotiation_limit"),
        Get(row, "discount_limit")))
  }

  /** `row.status || 'open'`, which Prisma accepts only when it is text. */
  function DebtStatus(row: Row): JsValue {
    Or(Get(row, "status"), Str("open"))
  }

  /** Steps 2 and 3 of a row: the phone and its link, when the phone has digits. */
  function PhoneStep(db: Db, fails: Faults, company: Id, person: Id, row: Row): (s: Step<()>)
    ensures s.db.contacts == db.contacts && s.db.imports == db.imports && s.db.users == db.users
    ensures s.db.people == db.people && s.db.debts == db.debts
    ensures PhoneDigits(row).None? ==> s == Step(db, Success(()))
    ensures s.result.Success? && PhoneDigits(row).Some? ==>
      var key := (company, PhoneDigits(row).value);
      key in s.db.phones && s.db.links == db.links[(person, s.db.phones[key]) := IsPrimary(Get(row, "is_primary"))]
  {
    match PhoneDigits(row)
    case None => Step(db, Success(()))
    case Some(digits) =>
      var ph := UpsertPhone(db, fails, company, digits);
      if ph.result.Failure? then Step(ph.db, Failure(ph.result.error))
      else UpsertLink(ph.db, fails, person, ph.result.value, IsPrimary(Get(row, "is_primary")))
  }

  /** Step 4 of a row: the debt, when the row has an amount. */
  function DebtStep(db: Db, fails: Faults, company: Id, person: Id, row: Row, parseDate: DateParser): (s: Step<()>)
    ensures s.db.contacts == db.contacts && s.db.imports == db.imports && s.db.users == db.users
    ensures s.db.people == db.people && s.db.phones == db.phones && s.db.links == db.links
    ensures s.result.Success? && HasDebt(row) ==>
      DebtStatus(row).Str? && s.db.debts == db.debts + [DebtOf(row, company, person, parseDate, DebtStatus(row).s)]
    ensures s.result.Success? && !HasDebt(row) ==> s.db.debts == db.debts
    ensures s.result.Failure? ==> s.db.debts == db.debts
  {
    if !HasDebt(row) then Step(db, Success(()))
    else
      var status := DebtStatus(row);
      if !status.Str? then Step(db, Failure(ValidationErrorMessage))
      else CreateDebt(db, fails, DebtOf(row, company, person, parseDate, status.s))
  }

  /**
   * The body of the `try` block up to `validCount++`: cpf check, person,
   * phone and link, debt. Writes made before a failing call stay.
   */
  function RowBody(db: Db, fails: Faults, parseDate: DateParser, company: Id, row: Row): (s: Step<Id>)
    ensures s.db.contacts == db.contacts && s.db.imports == db.imports && s.db.users == db.users
    ensures !Truthy(Resolve(row, CpfAliases)) ==> s == Step(db, Failure(CpfRequiredMessage))
    ensures s.result.Success? ==>
      var key := (company, ToJsString(Resolve(row, CpfAliases)));
      key in s.db.people && s.db.people[key].id == s.result.value
  {
    var cpf := Resolve(row, CpfAliases);
    if !Truthy(cpf) then Step(db, Failure(CpfRequiredMessage))
    else
      var p := UpsertPerson(db, fails, company, ToJsString(cpf), Resolve(row, NameAliases), Get(row, "email"),
                            DateField(row, "birth_date", parseDate));
      if p.result.Failure? then p
      else
        var ph := PhoneStep(p.db, fails, company, p.result.value, row);
        if ph.result.Failure? then Step(ph.db, Failure(ph.result.error))
        else
          var d := DebtStep(ph.db, fails, company, p.result.value, row, parseDate);
          if d.result.Failure? then Step(d.db, Failure(d.result.error))
          else Step(d.db, Success(p.result.value))
  }

  /**
   * What processing one staged row leaves: whether it was counted valid,
   * the error logged for it (counted invalid), and whether the `catch`
   * block's own update failed, which ends the whole run.
   */
  datatype RowEnd = RowEnd(db: Db, counted: bool, error: Option<string>, crashed: bool)

  /** The `catch` block: the row is marked failed with the error's message. */
  function FailRow(db: Db, fails: Faults, id: Id, counted: bool, message: string): (e: RowEnd)
    requires id < |db.contacts|
    ensures e.error == Some(message) && e.counted == counted
  {
    var u := UpdateContact(db, fails, id, Failed, Some(message));
    RowEnd(u.db, counted, Some(message), u.result.Failure?)
  }

  /** One iteration of the loop over pending rows. */
  function ProcessRow(db: Db, fails: Faults, parseDate: DateParser, company: Id, id: Id): (e: RowEnd)
    requires id < |db.contacts|
    ensures e.counted || e.error.Some?
    ensures e.error.None? ==> !e.crashed
  {
    var body := RowBody(db, fails, parseDate, company, NormalizeKeys(db.contacts[id].rawData));
    if body.result.Failure? then FailRow(body.db, fails, id, false, body.result.error)
    else
      var u := UpdateContact(body.db, fails, id, Processed, None);
      if u.result.Failure? then FailRow(u.db, fails, id, true, u.result.error)
      else RowEnd(u.db, true, None, false)
  }

  // ---------------------------------------------------------------------------
  // The whole run

  /** The indices of `contacts` whose row belongs to `importId` and is still pending, in table order. */
  function PendingIds(contacts: seq<Contact>, importId: Id): (ids: seq<Id>)
    ensures forall j :: 0 <= j < |ids| ==> ids[j] < |contacts|
  {
    if contacts == [] then []
    else
      var last := |contacts| - 1;
      var prev := PendingIds(contacts[..last], importId);
      if contacts[last].importId == importId && contacts[last].status == Pending then prev + [last] else prev
  }

  /** PendingIds lists exactly the pending rows of the import, each once, in table order. */
  lemma {:induction false} PendingIdsExact(contacts: seq<Contact>, importId: Id, ids: seq<Id>)
    requires ids == PendingIds(contacts, importId)
    ensures forall j :: 0 <= j < |ids| ==> contacts[ids[j]].importId == importId && contacts[ids[j]].status == Pending
    ensures forall c :: 0 <= c < |contacts| && contacts[c].importId == importId && contacts[c].status == Pending ==> c in ids
    ensures forall j, k :: 0 <= j < k < |ids| ==> ids[j] < ids[k]
  {
    if contacts != [] {
      var last := |contacts| - 1;
      var init := contacts[..last];
      var prev := PendingIds(init, importId);
      PendingIdsExact(init, importId, prev);
      forall j | 0 <= j < |prev|
        ensures contacts[prev[j]] == init[prev[j]]
      {
      }
      forall c | 0 <= c < last
        ensures contacts[c] == init[c]
      {
      }
    }
  }

  /** The loop's variables after some rows: the database, `validCount`, `invalidCount`, `errorLog`. */
  datatype Run = Run(db: Db, valid: nat, invalid: nat, log: seq<LogEntry>, crashed: bool)

  predicate InTable(db: Db, ids: seq<Id>) {
    forall j :: 0 <= j < |ids| ==> ids[j] < |db.contacts|
  }

  /** The loop over `ids`, row by row; once a row has crashed the run nothing more happens. */
  function RunRows(db: Db, fails: Faults, parseDate: DateParser, company: Id, ids: seq<Id>): (r: Run)
    requires InTable(db, ids)
    ensures |r.db.contacts| == |db.contacts|
    ensures r.invalid == |r.log|
  {
    if ids == [] then Run(db, 0, 0, [], false)
    else
      var prev := RunRows(db, fails, parseDate, company, ids[..|ids| - 1]);
      if prev.crashed then prev
      else
        var id := ids[|ids| - 1];
        Counted(prev, id, ProcessRow(prev.db, fails, parseDate, company, id))
  }

  /** The loop's variables once row `id` has ended as `e`: the counters bumped and the error logged. */
  function Counted(prev: Run, id: Id, e: RowEnd): Run {
    Run(
      e.db,
      prev.valid + (if e.counted then 1 else 0),
      prev.invalid + (if e.error.Some? then 1 else 0),
      prev.log + (if e.error.Some? then [LogEntry(id, e.error.value)] else []),
      e.crashed)
  }

  /** The batch status the final update writes. */
  function FinalStatus(invalid: nat, pending: nat): ImportStatus {
    if invalid == pending then ImportFailed else Completed
  }

  /** The final `imports.update`; Prisma fails it when the header does not exist. */
  function FinishImport(db: Db, fails: Faults, importId: Id, valid: nat, invalid: nat, pending: nat, log: seq<LogEntry>): (s: Step<()>)
    ensures s.db.contacts == db.contacts && s.db.people == db.people && s.db.phones == db.phones
    ensures s.db.links == db.links && s.db.debts == db.debts && s.db.users == db.users
    ensures s.result.Success? <==> importId in db.imports && !fails(db.ops)
    ensures s.result.Success? ==> s.db.imports == db.imports[importId := db.imports[importId].(
      validRecords := Some(valid),
      invalidRecords := Some(invalid),
      status := FinalStatus(invalid, pending),
      errorLog := if |log| > 0 then Some(log) else None)]
    ensures s.result.Failure? ==> s.db.imports == db.imports
  {
    if importId !in db.imports then Step(db, Failure(DbErrorMessage))
    else if fails(db.ops) then Step(Tick(db), Failure(DbErrorMessage))
    else
      var h := db.imports[importId];
      var h' := h.(
        validRecords := Some(valid),
        invalidRecords := Some(invalid),
        status := FinalStatus(invalid, pending),
        errorLog := if |log| > 0 then Some(log) else None);
      Step(Tick(db).(imports := db.imports[importId := h']), Success(()))
  }

  /** What `processImport` leaves: the database and whether its promise was rejected. */
  datatype ProcessEnd = ProcessEnd(db: Db, pending: seq<Id>, run: Run, rejected: bool)

  /** `processImport`: fetch the pending rows, process each, then write the counters and status. */
  function ProcessImportSpec(db: Db, fails: Faults, parseDate: DateParser, importId: Id, company: Id): ProcessEnd {
    if fails(db.ops) then ProcessEnd(Tick(db), [], Run(Tick(db), 0, 0, [], false), true)
    else
      var pending := PendingIds(db.contacts, importId);
      var run := RunRows(Tick(db), fails, parseDate, company, pending);
      if run.crashed then ProcessEnd(run.db, pending, run, true)
      else
        var fin := FinishImport(run.db, fails, importId, run.valid, run.invalid, |pending|, run.log);
        ProcessEnd(fin.db, pending, run, fin.result.Failure?)
  }
}
