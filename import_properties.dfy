/**
 * What the import pipeline of src/imports/imports.service.ts guarantees,
 * proved about the functions of ImportDb.
 */
module ImportProperties {
  import opened Wrappers
  import opened JsValues
  import opened Normalizer
  import opened ImportDb

  // ---------------------------------------------------------------------------
  // The person upsert

  /**
   * On an existing (company, cpf) the upsert keeps `name` and `email` when
   * the row's value is falsy, writes it when truthy, and keeps the id.
   */
  lemma UpsertPersonUpdate(db: Db, fails: Faults, company: Id, cpf: string, name: JsValue, email: JsValue, birth: Option<Instant>)
    requires (company, cpf) in db.people
    requires UpsertPerson(db, fails, company, cpf, name, email, birth).result.Success?
    ensures var p := UpsertPerson(db, fails, company, cpf, name, email, birth).db.people[(company, cpf)];
      var old_ := db.people[(company, cpf)];
      && p.id == old_.id
      && p.name == (if Truthy(name) then Some(name.s) else old_.name)
      && p.email == (if Truthy(email) then Some(email.s) else old_.email)
      && p.birthDate == birth
  {
  }

  /** A new (company, cpf) creates a person with the row's values, null standing for a missing one. */
  lemma UpsertPersonCreate(db: Db, fails: Faults, company: Id, cpf: string, name: JsValue, email: JsValue, birth: Option<Instant>)
    requires (company, cpf) !in db.people
    requires UpsertPerson(db, fails, company, cpf, name, email, birth).result.Success?
    ensures var s := UpsertPerson(db, fails, company, cpf, name, email, birth);
      && s.db.people == db.people[(company, cpf) := Person(db.nextId, TextArg(name).value, TextArg(email).value, birth)]
      && s.db.nextId == db.nextId + 1
  {
  }

  // ---------------------------------------------------------------------------
  // What one successful row writes

  /**
   * A row that passes the `try` block: its person is the one already stored
   * under (company, cpf) when there is one; a phone with digits is stored
   * under (company, digits) and linked with the row's primary flag, and no
   * digits means no phone and no link; a row with an amount appends exactly
   * one debt, with status `row.status || 'open'`, and a row without one
   * appends none.
   */
  lemma RowBodyWrites(db: Db, fails: Faults, parseDate: DateParser, company: Id, row: Row, body: Step<Id>)
    requires body == RowBody(db, fails, parseDate, company, row) && body.result.Success?
    ensures var key := (company, ToJsString(Resolve(row, CpfAliases)));
      key in db.people ==> body.result.value == db.people[key].id
    ensures PhoneDigits(row).Some? ==>
      var key := (company, PhoneDigits(row).value);
      && key in body.db.phones
      && (key in db.phones ==> body.db.phones[key] == db.phones[key])
      && (body.result.value, body.db.phones[key]) in body.db.links
      && body.db.links[(body.result.value, body.db.phones[key])] == IsPrimary(Get(row, "is_primary"))
    ensures PhoneDigits(row).None? ==> body.db.phones == db.phones && body.db.links == db.links
    ensures HasDebt(row) ==>
      && DebtStatus(row).Str?
      && body.db.debts == db.debts + [DebtOf(row, company, body.result.value, parseDate, DebtStatus(row).s)]
    ensures !HasDebt(row) ==> body.db.debts == db.debts
  {
    var cpf := Resolve(row, CpfAliases);
    var p := UpsertPerson(db, fails, company, ToJsString(cpf), Resolve(row, NameAliases), Get(row, "email"),
                          DateField(row, "birth_date", parseDate));
    var ph := PhoneStep(p.db, fails, company, p.result.value, row);
    var d := DebtStep(ph.db, fails, company, p.result.value, row, parseDate);
    assert body.db == d.db && body.result.value == p.result.value;
    if PhoneDigits(row).Some? {
      var key := (company, PhoneDigits(row).value);
      UpsertPhoneKeeps(p.db, fails, company, PhoneDigits(row).value);
    }
  }

  lemma UpsertPhoneKeeps(db: Db, fails: Faults, company: Id, digits: string)
    ensures var s := UpsertPhone(db, fails, company, digits);
      forall k :: k in db.phones ==> k in s.db.phones && s.db.phones[k] == db.phones[k]
  {
  }

  // ---------------------------------------------------------------------------
  // What processing never takes away

  /**
   * `b` extends `a`: every phone keeps its id, every person keeps its key and
   * id, debts are only appended, links are only added or reassigned, users
   * and imports are untouched by rows, and ids are never reused.
   */
  ghost predicate Grows(a: Db, b: Db) {
    && (forall k :: k in a.phones ==> k in b.phones && b.phones[k] == a.phones[k])
    && (forall k :: k in a.people ==> k in b.people && b.people[k].id == a.people[k].id)
    && (forall k :: k in a.links ==> k in b.links)
    && |a.debts| <= |b.debts| && b.debts[..|a.debts|] == a.debts
    && b.users == a.users
    && a.nextId <= b.nextId
    && a.ops <= b.ops
  }

  lemma GrowsTransitive(a: Db, b: Db, c: Db)
    requires Grows(a, b) && Grows(b, c)
    ensures Grows(a, c)
  {
    assert c.debts[..|a.debts|] == c.debts[..|b.debts|][..|a.debts|];
  }

  lemma UpsertPersonGrows(db: Db, fails: Faults, company: Id, cpf: string, name: JsValue, email: JsValue, birth: Option<Instant>)
    ensures Grows(db, UpsertPerson(db, fails, company, cpf, name, email, birth).db)
  {
  }

  lemma UpsertPhoneGrows(db: Db, fails: Faults, company: Id, digits: string)
    ensures Grows(db, UpsertPhone(db, fails, company, digits).db)
  {
    var s := UpsertPhone(db, fails, company, digits);
    assert s.db.debts[..|db.debts|] == db.debts;
  }

  lemma UpsertLinkGrows(db: Db, fails: Faults, person: Id, phone: Id, primary: bool)
    ensures Grows(db, UpsertLink(db, fails, person, phone, primary).db)
  {
    var s := UpsertLink(db, fails, person, phone, primary);
    assert s.db.debts[..|db.debts|] == db.debts;
  }

  lemma PhoneStepGrows(db: Db, fails: Faults, company: Id, person: Id, row: Row)
    ensures Grows(db, PhoneStep(db, fails, company, person, row).db)
  {
    var digits := PhoneDigits(row);
    if digits.Some? {
      var ph := UpsertPhone(db, fails, company, digits.value);
      UpsertPhoneGrows(db, fails, company, digits.value);
      if ph.result.Success? {
        var primary := IsPrimary(Get(row, "is_primary"));
        UpsertLinkGrows(ph.db, fails, person, ph.result.value, primary);
        GrowsTransitive(db, ph.db, UpsertLink(ph.db, fails, person, ph.result.value, primary).db);
      }
    } else {
      assert PhoneStep(db, fails, company, person, row).db == db;
      assert db.debts[..|db.debts|] == db.debts;
    }
  }

  lemma DebtStepGrows(db: Db, fails: Faults, company: Id, person: Id, row: Row, parseDate: DateParser)
    ensures Grows(db, DebtStep(db, fails, company, person, row, parseDate).db)
  {
    var d := DebtStep(db, fails, company, person, row, parseDate);
    assert d.db.debts[..|db.debts|] == db.debts;
  }

  lemma RowBodyGrows(db: Db, fails: Faults, parseDate: DateParser, company: Id, row: Row)
    ensures Grows(db, RowBody(db, fails, parseDate, company, row).db)
  {
    var cpf := Resolve(row, CpfAliases);
    if Truthy(cpf) {
      var p := UpsertPerson(db, fails, company, ToJsString(cpf), Resolve(row, NameAliases), Get(row, "email"),
                            DateField(row, "birth_date", parseDate));
      UpsertPersonGrows(db, fails, company, ToJsString(cpf), Resolve(row, NameAliases), Get(row, "email"),
                        DateField(row, "birth_date", parseDate));
      if p.result.Success? {
        var ph := PhoneStep(p.db, fails, company, p.result.value, row);
        PhoneStepGrows(p.db, fails, company, p.result.value, row);
        GrowsTransitive(db, p.db, ph.db);
        if ph.result.Success? {
          var d := DebtStep(ph.db, fails, company, p.result.value, row, parseDate);
          DebtStepGrows(ph.db, fails, company, p.result.value, row, parseDate);
          GrowsTransitive(db, ph.db, d.db);
        }
      }
    }
  }

  lemma ProcessRowGrows(db: Db, fails: Faults, parseDate: DateParser, company: Id, id: Id)
    requires id < |db.contacts|
    ensures Grows(db, ProcessRow(db, fails, parseDate, company, id).db)
  {
    var body := RowBody(db, fails, parseDate, company, NormalizeKeys(db.contacts[id].rawData));
    RowBodyGrows(db, fails, parseDate, company, NormalizeKeys(db.contacts[id].rawData));
    if body.result.Success? {
      var u := UpdateContact(body.db, fails, id, Processed, None);
      GrowsTransitive(db, body.db, u.db);
      if u.result.Failure? {
        GrowsTransitive(db, u.db, ProcessRow(db, fails, parseDate, company, id).db);
      }
    }
  }

  /** A run of any number of rows only extends the database (phones in particular are never changed). */
  lemma {:induction false} RunRowsGrows(db: Db, fails: Faults, parseDate: DateParser, company: Id, ids: seq<Id>)
    requires InTable(db, ids)
    ensures Grows(db, RunRows(db, fails, parseDate, company, ids).db)
  {
    if ids != [] {
      var init := ids[..|ids| - 1];
      var prev := RunRows(db, fails, parseDate, company, init);
      RunRowsGrows(db, fails, parseDate, company, init);
      if !prev.crashed {
        ProcessRowGrows(prev.db, fails, parseDate, company, ids[|ids| - 1]);
        GrowsTransitive(db, prev.db, RunRows(db, fails, parseDate, company, ids).db);
      }
    }
  }

  // ---------------------------------------------------------------------------
  // Staging rows: only the processed ones change, each ends processed or failed

  /** Processing one row changes no other staging row, and a row that did not crash is no longer pending. */
  lemma ProcessRowFrame(db: Db, fails: Faults, parseDate: DateParser, company: Id, id: Id)
    requires id < |db.contacts|
    ensures var e := ProcessRow(db, fails, parseDate, company, id);
      && (forall c :: 0 <= c < |db.contacts| && c != id ==> e.db.contacts[c] == db.contacts[c])
      && (!e.crashed ==> e.db.contacts[id].status == if e.error.Some? then Failed else Processed)
      && (!e.crashed && e.error.Some? ==> e.db.contacts[id].errorMessage == e.error)
  {
  }

  /** A run touches only the staging rows it was given. */
  lemma {:induction false} RunRowsFrame(db: Db, fails: Faults, parseDate: DateParser, company: Id, ids: seq<Id>, c: nat)
    requires InTable(db, ids) && c < |db.contacts| && c !in ids
    ensures RunRows(db, fails, parseDate, company, ids).db.contacts[c] == db.contacts[c]
  {
    if ids != [] {
      var init := ids[..|ids| - 1];
      assert c !in init;
      RunRowsFrame(db, fails, parseDate, company, init, c);
      var prev := RunRows(db, fails, parseDate, company, init);
      if !prev.crashed {
        ProcessRowFrame(prev.db, fails, parseDate, company, ids[|ids| - 1]);
      }
    }
  }

  /**
   * After a run that did not crash, every row it was given has been marked
   * processed or failed: none is left pending.
   */
  lemma {:induction false} RunRowsSettles(db: Db, fails: Faults, parseDate: DateParser, company: Id, ids: seq<Id>, j: nat)
    requires InTable(db, ids) && j < |ids|
    requires !RunRows(db, fails, parseDate, company, ids).crashed
    ensures RunRows(db, fails, parseDate, company, ids).db.contacts[ids[j]].status != Pending
  {
    var init := ids[..|ids| - 1];
    var prev := RunRows(db, fails, parseDate, company, init);
    var last := ids[|ids| - 1];
    assert !prev.crashed;
    ProcessRowFrame(prev.db, fails, parseDate, company, last);
    if j < |ids| - 1 && ids[j] != last {
      RunRowsSettles(db, fails, parseDate, company, init, j);
    }
  }

  /** Once a row has crashed the run, later rows change nothing. */
  lemma {:induction false} RunRowsCrashed(db: Db, fails: Faults, parseDate: DateParser, company: Id, ids: seq<Id>, i: nat)
    requires InTable(db, ids) && i <= |ids|
    requires RunRows(db, fails, parseDate, company, ids[..i]).crashed
    ensures RunRows(db, fails, parseDate, company, ids) == RunRows(db, fails, parseDate, company, ids[..i])
    decreases |ids| - i
  {
    if i < |ids| {
      var next := ids[..i + 1];
      assert next[..i] == ids[..i];
      assert RunRows(db, fails, parseDate, company, next) == RunRows(db, fails, parseDate, company, ids[..i]);
      RunRowsCrashed(db, fails, parseDate, company, ids, i + 1);
    } else {
      assert ids[..i] == ids;
    }
  }

  /** The loop after `i + 1` rows is the loop after `i` rows followed by row `i`. */
  lemma RunRowsStep(db: Db, fails: Faults, parseDate: DateParser, company: Id, ids: seq<Id>, i: nat,
                    before: Db, valid: nat, invalid: nat, log: seq<LogEntry>, e: RowEnd)
    requires InTable(db, ids) && i < |ids|
    requires RunRows(db, fails, parseDate, company, ids[..i]) == Run(before, valid, invalid, log, false)
    requires ids[i] < |before.contacts|
    requires e == ProcessRow(before, fails, parseDate, company, ids[i])
    ensures InTable(db, ids[..i + 1])
    ensures RunRows(db, fails, parseDate, company, ids[..i + 1]) ==
      Run(e.db,
          valid + (if e.counted then 1 else 0),
          invalid + (if e.error.Some? then 1 else 0),
          log + (if e.error.Some? then [LogEntry(ids[i], e.error.value)] else []),
          e.crashed)
  {
    TakeOneMore(ids, i);
    RunRowsCounted(db, fails, parseDate, company, ids[..i], ids[i], Run(before, valid, invalid, log, false));
  }

  lemma TakeOneMore<T>(s: seq<T>, i: nat)
    requires i < |s|
    ensures s[..i + 1] == s[..i] + [s[i]]
  {
  }

  /** RunRows on `prefix + [id]`, when the prefix has not crashed, is the prefix's run with row `id` counted. */
  lemma RunRowsCounted(db: Db, fails: Faults, parseDate: DateParser, company: Id, prefix: seq<Id>, id: Id, prev: Run)
    requires InTable(db, prefix) && InTable(db, prefix + [id])
    requires prev == RunRows(db, fails, parseDate, company, prefix) && !prev.crashed
    requires id < |prev.db.contacts|
    ensures RunRows(db, fails, parseDate, company, prefix + [id]) == Counted(prev, id, ProcessRow(prev.db, fails, parseDate, company, id))
  {
    assert (prefix + [id])[..|prefix|] == prefix;
  }

  // ---------------------------------------------------------------------------
  // Counters and the error log

  /** Every entry of the error log names one of the rows processed, in processing order. */
  lemma {:induction false} LogNamesProcessedRows(db: Db, fails: Faults, parseDate: DateParser, company: Id, ids: seq<Id>, j: nat)
    requires InTable(db, ids)
    requires j < |RunRows(db, fails, parseDate, company, ids).log|
    ensures RunRows(db, fails, parseDate, company, ids).log[j].contactId in ids
  {
    var init := ids[..|ids| - 1];
    var prev := RunRows(db, fails, parseDate, company, init);
    if j < |prev.log| {
      LogNamesProcessedRows(db, fails, parseDate, company, init, j);
    }
  }

  /** Every row processed bumps at least one counter, so the two together cover all rows. */
  lemma {:induction false} CountsCoverRows(db: Db, fails: Faults, parseDate: DateParser, company: Id, ids: seq<Id>)
    requires InTable(db, ids)
    requires !RunRows(db, fails, parseDate, company, ids).crashed
    ensures var r := RunRows(db, fails, parseDate, company, ids);
      |ids| <= r.valid + r.invalid && r.valid <= |ids| && r.invalid <= |ids|
  {
    if ids != [] {
      CountsCoverRows(db, fails, parseDate, company, ids[..|ids| - 1]);
    }
  }

  /** Faults from position `from` on: none. */
  ghost predicate NoFaultsFrom(fails: Faults, from: nat) {
    forall k :: from <= k ==> !fails(k)
  }

  /** Without database faults a row is counted exactly once: valid with no error, or invalid with one. */
  lemma ProcessRowNoFaults(db: Db, fails: Faults, parseDate: DateParser, company: Id, id: Id)
    requires id < |db.contacts| && NoFaultsFrom(fails, db.ops)
    ensures var e := ProcessRow(db, fails, parseDate, company, id);
      !e.crashed && (e.counted <==> e.error.None?) && NoFaultsFrom(fails, e.db.ops)
  {
    RowBodyGrows(db, fails, parseDate, company, NormalizeKeys(db.contacts[id].rawData));
  }

  /**
   * Without database faults the run completes and
   * `validCount + invalidCount` is the number of rows.
   */
  lemma {:induction false} RunRowsNoFaults(db: Db, fails: Faults, parseDate: DateParser, company: Id, ids: seq<Id>)
    requires InTable(db, ids) && NoFaultsFrom(fails, db.ops)
    ensures var r := RunRows(db, fails, parseDate, company, ids);
      !r.crashed && r.valid + r.invalid == |ids| && NoFaultsFrom(fails, r.db.ops)
  {
    if ids != [] {
      var init := ids[..|ids| - 1];
      RunRowsNoFaults(db, fails, parseDate, company, init);
      var prev := RunRows(db, fails, parseDate, company, init);
      ProcessRowNoFaults(prev.db, fails, parseDate, company, ids[|ids| - 1]);
    }
  }

  /**
   * Without database faults the batch ends `failed` exactly when no row was
   * valid — which includes a batch with no pending rows — and `completed`
   * otherwise; the counters add up to the pending rows and the log is null
   * exactly when nothing failed.
   */
  lemma ProcessImportNoFaults(db: Db, fails: Faults, parseDate: DateParser, importId: Id, company: Id)
    requires importId in db.imports && NoFaultsFrom(fails, db.ops)
    ensures var e := ProcessImportSpec(db, fails, parseDate, importId, company);
      && !e.rejected && importId in e.db.imports
      && var h := e.db.imports[importId];
      && h.validRecords == Some(e.run.valid) && h.invalidRecords == Some(e.run.invalid)
      && e.run.valid + e.run.invalid == |e.pending|
      && (h.status == ImportFailed <==> e.run.valid == 0)
      && (h.status == Completed <==> e.run.valid > 0)
      && (h.errorLog.None? <==> e.run.invalid == 0)
  {
    var pending := PendingIds(db.contacts, importId);
    var db1 := Tick(db);
    assert InTable(db1, pending);
    RunRowsNoFaults(db1, fails, parseDate, company, pending);
    var run := RunRows(db1, fails, parseDate, company, pending);
    assert importId in run.db.imports by {
      RunRowsImports(db1, fails, parseDate, company, pending);
    }
    var fin := FinishImport(run.db, fails, importId, run.valid, run.invalid, |pending|, run.log);
    assert fin.result.Success?;
    assert ProcessImportSpec(db, fails, parseDate, importId, company) == ProcessEnd(fin.db, pending, run, false);
  }

  /** Rows never touch the import headers. */
  lemma {:induction false} RunRowsImports(db: Db, fails: Faults, parseDate: DateParser, company: Id, ids: seq<Id>)
    requires InTable(db, ids)
    ensures RunRows(db, fails, parseDate, company, ids).db.imports == db.imports
  {
    if ids != [] {
      var init := ids[..|ids| - 1];
      RunRowsImports(db, fails, parseDate, company, init);
      var prev := RunRows(db, fails, parseDate, company, init);
      if !prev.crashed {
        ProcessRowImports(prev.db, fails, parseDate, company, ids[|ids| - 1]);
      }
    }
  }

  lemma ProcessRowImports(db: Db, fails: Faults, parseDate: DateParser, company: Id, id: Id)
    requires id < |db.contacts|
    ensures ProcessRow(db, fails, parseDate, company, id).db.imports == db.imports
  {
  }

  /** Processing an import with nothing pending (a second run, say) marks it failed with 0 valid and 0 invalid. */
  lemma NothingPendingFails(db: Db, fails: Faults, parseDate: DateParser, importId: Id, company: Id)
    requires importId in db.imports && !fails(db.ops) && !fails(db.ops + 1)
    requires forall c :: 0 <= c < |db.contacts| ==> db.contacts[c].importId != importId || db.contacts[c].status != Pending
    ensures var e := ProcessImportSpec(db, fails, parseDate, importId, company);
      && !e.rejected && e.pending == []
      && e.db.imports[importId] == db.imports[importId].(
           validRecords := Some(0), invalidRecords := Some(0), status := ImportFailed, errorLog := None)
  {
    NonePending(db.contacts, importId);
  }

  /** No pending row of the import in the table: the loop gets nothing to do. */
  lemma {:induction false} NonePending(contacts: seq<Contact>, importId: Id)
    requires forall c :: 0 <= c < |contacts| ==> contacts[c].importId != importId || contacts[c].status != Pending
    ensures PendingIds(contacts, importId) == []
  {
    if contacts != [] {
      var last := |contacts| - 1;
      assert forall c :: 0 <= c < last ==> contacts[..last][c] == contacts[c];
      NonePending(contacts[..last], importId);
    }
  }

  /**
   * `validCount` is bumped before the row's status update. When that update
   * fails and the `catch` block's update succeeds, the same row is counted
   * both valid and invalid and logged with the database error.
   */
  lemma UpdateFaultCountsTwice(db: Db, fails: Faults, parseDate: DateParser, company: Id, id: Id, body: Step<Id>)
    requires id < |db.contacts|
    requires body == RowBody(db, fails, parseDate, company, NormalizeKeys(db.contacts[id].rawData))
    requires body.result.Success? && fails(body.db.ops) && !fails(body.db.ops + 1)
    ensures var e := ProcessRow(db, fails, parseDate, company, id);
      e.counted && e.error == Some(DbErrorMessage) && !e.crashed
  {
    var u := UpdateContact(body.db, fails, id, Processed, None);
    assert u.result.Failure? && u.db.ops == body.db.ops + 1;
    assert !fails(u.db.ops);
    var f := UpdateContact(u.db, fails, id, Failed, Some(DbErrorMessage));
    assert f.result.Success?;
    assert ProcessRow(db, fails, parseDate, company, id) == FailRow(u.db, fails, id, true, DbErrorMessage);
  }

  /** The staging row and database of the scenario below. */
  function ExampleDb(): Db {
    Db(map[], map[7 := ImportHeader(3, "upload.csv", Some("csv"), 1, Processing, None, None, None)],
       [Contact(3, 7, [("cpf", Str("1"))], Pending, None)], map[], map[], map[], [], 8, 0)
  }

  lemma ExampleRowBody(parseDate: DateParser, fails: Faults)
    requires !fails(1)
    ensures var body := RowBody(Tick(ExampleDb()), fails, parseDate, 3, NormalizeKeys(ExampleDb().contacts[0].rawData));
      body.result.Success? && body.db.ops == 2
  {
    var raw: RawRow := [("cpf", Str("1"))];
    FoldKeyOfFolded("cpf");
    assert NormalizeKeys(raw) == map["cpf" := Str("1")] by {
      assert raw[..0] == [];
    }
    CpfOnlyRowBody(Tick(ExampleDb()), fails, parseDate, 3, NormalizeKeys(raw));
  }

  /** A row holding only a cpf is processed with a single call, the person upsert. */
  lemma CpfOnlyRowBody(db: Db, fails: Faults, parseDate: DateParser, company: Id, row: Row)
    requires row == map["cpf" := Str("1")] && !fails(db.ops)
    ensures var body := RowBody(db, fails, parseDate, company, row);
      body.result.Success? && body.db.ops == db.ops + 1
  {
    assert Resolve(row, CpfAliases) == Str("1") by {
      ResolveFirstTruthy(row, CpfAliases, 0);
    }
    assert Resolve(row, NameAliases) == Undefined by {
      ResolveNoneTruthy(row, NameAliases);
    }
    assert Get(row, "email") == Undefined;
    PhoneAliasesAbsent(row);
    assert !HasDebt(row);
  }

  /**
   * One pending row with a cpf, and only the database call that marks it
   * processed fails: the batch ends with 1 valid and 1 invalid out of 1
   * pending row, so it is marked failed and the row failed.
   */
  lemma DoubleCountedRow(parseDate: DateParser)
    ensures var e := ProcessImportSpec(ExampleDb(), (k: nat) => k == 2, parseDate, 7, 3);
      && !e.rejected && e.pending == [0]
      && e.run.valid == 1 && e.run.invalid == 1
      && 7 in e.db.imports && e.db.imports[7].status == ImportFailed
      && |e.db.contacts| == 1 && e.db.contacts[0].status == Failed
  {
    var db := ExampleDb();
    var fails := (k: nat) => k == 2;
    assert PendingIds(db.contacts, 7) == [0];
    DoubleCountedRun(parseDate, fails);
  }

  /** The run part of DoubleCountedRow: the one row is counted valid and invalid, and nothing crashes. */
  lemma DoubleCountedRun(parseDate: DateParser, fails: Faults)
    requires !fails(1) && fails(2) && !fails(3)
    ensures var r := RunRows(Tick(ExampleDb()), fails, parseDate, 3, [0]);
      && r.valid == 1 && r.invalid == 1 && !r.crashed && r.db.ops == 4
      && r.db.imports == ExampleDb().imports
      && |r.db.contacts| == 1 && r.db.contacts[0].status == Failed
  {
    var db1 := Tick(ExampleDb());
    ExampleRowBody(parseDate, fails);
    UpdateFaultCountsTwice(db1, fails, parseDate, 3, 0, RowBody(db1, fails, parseDate, 3, NormalizeKeys(db1.contacts[0].rawData)));
    ProcessRowFrame(db1, fails, parseDate, 3, 0);
    ProcessRowImports(db1, fails, parseDate, 3, 0);
    var e := ProcessRow(db1, fails, parseDate, 3, 0);
    assert e.db.ops == 4;
    assert [0][..0] == [];
    assert RunRows(db1, fails, parseDate, 3, [0]).db == e.db;
  }

  lemma FoldKeyOfFolded(k: string)
    requires IsLower(k) && IsTrimmed(k)
    ensures FoldKey(k) == k
  {
    LowerOfLower(k);
    TrimOfTrimmed(k);
  }

  lemma PhoneAliasesAbsent(row: Row)
    requires row == map["cpf" := Str("1")]
    ensures PhoneDigits(row) == None
  {
    ResolveNoneTruthy(row, PhoneAliases);
  }
}
