/**
 * The `ImportsService` of src/imports/imports.service.ts: `importContacts`
 * stages a batch, `processImport` turns pending staging rows into people,
 * phones, links and debts. Each method is proved to leave the database, and
 * return the value, that the matching function of ImportDb or Staging gives.
 */
module Imports {
  import opened Wrappers
  import opened JsValues
  import opened Normalizer
  import opened ImportDb
  import opened Staging
  import opened ImportStore
  import ImportProperties

  class ImportsService {
    const prisma: Store

    constructor(prisma: Store)
      ensures this.prisma == prisma
    {
      this.prisma := prisma;
    }

    /**
     * `importContacts`: checks the batch, finds the user's company, creates
     * the header and writes the staging rows 1000 at a time. Starting
     * `processImport` is left to the caller.
     */
    method ImportContacts(userId: string, fileName: Option<string>, fileType: JsValue, data: seq<RawRow>)
      returns (r: Result<Accepted, HttpError>)
      requires fileType.Str? || fileType.Null? || fileType.Undefined?
      modifies prisma
      ensures var e := ImportContactsSpec(old(prisma.State()), prisma.fails, userId, fileName, fileType, data);
        prisma.State() == e.db && r == e.result
    {
      if |data| == 0 {
        return Failure(BadRequest(EmptyDataMessage));
      }
      var user := prisma.FindCompany(userId);
      if user.Failure? {
        return Failure(InternalError(user.error));
      }
      if user.value.None? {
        return Failure(InternalError(NoCompanyMessage));
      }
      var company := user.value.value;
      var created := prisma.CreateImport(HeaderFor(company, fileName, fileType, |data|));
      if created.Failure? {
        return Failure(InternalError(created.error));
      }
      var importId := created.value;
      var ok := WriteStaging(StagingRows(company, importId, data));
      if !ok {
        return Failure(InternalError(DbErrorMessage));
      }
      r := Success(Accepted(importId, AcceptedMessage(|data|)));
    }

    /** The `for` loop that sends `contactsData.slice(i, i + 1000)` to `createMany` until a call fails. */
    method WriteStaging(rows: seq<Contact>) returns (ok: bool)
      modifies prisma
      ensures var w := WriteBatches(old(prisma.State()), prisma.fails, Chunks(rows, BatchSize));
        prisma.State() == w.db && ok == w.result.Success?
    {
      ghost var goal := WriteBatches(prisma.State(), prisma.fails, Chunks(rows, BatchSize));
      var i := 0;
      while i < |rows|
        invariant 0 <= i
        invariant WriteBatches(prisma.State(), prisma.fails, Remaining(rows, i)) == goal
        decreases |rows| - i
      {
        var batch := rows[i..Min(i + BatchSize, |rows|)];
        ChunksFrom(rows, BatchSize, i);
        assert Remaining(rows, i) == [batch] + Remaining(rows, i + BatchSize);
        assert ([batch] + Remaining(rows, i + BatchSize))[1..] == Remaining(rows, i + BatchSize);
        ok := prisma.CreateContacts(batch);
        if !ok {
          return;
        }
        i := i + BatchSize;
      }
      ok := true;
    }

    /** The batches still to be written once the loop has reached offset `i`. */
    static function Remaining(rows: seq<Contact>, i: nat): seq<seq<Contact>> {
      if i < |rows| then Chunks(rows[i..], BatchSize) else []
    }

    /**
     * The body of the `try` block for one row, up to `validCount++`: the
     * cpf check, the person, the phone and its link, the debt.
     */
    method RowBody(row: Row, company: Id, parseDate: DateParser) returns (r: Result<Id, string>)
      modifies prisma
      ensures var s := ImportDb.RowBody(old(prisma.State()), prisma.fails, parseDate, company, row);
        prisma.State() == s.db && r == s.result
    {
      var cpf := Resolve(row, CpfAliases);
      if !Truthy(cpf) {
        return Failure(CpfRequiredMessage);
      }
      ghost var db0 := prisma.State();
      var birth := DateField(row, "birth_date", parseDate);
      var person := prisma.UpsertPerson(company, ToJsString(cpf), Resolve(row, NameAliases), Get(row, "email"), birth);
      if person.Failure? {
        return person;
      }
      ghost var db1 := prisma.State();
      var digits := PhoneDigits(row);
      if digits.Some? {
        var phone := prisma.UpsertPhone(company, digits.value);
        if phone.Failure? {
          return Failure(phone.error);
        }
        var link := prisma.UpsertLink(person.value, phone.value, IsPrimary(Get(row, "is_primary")));
        if link.Failure? {
          return Failure(link.error);
        }
      }
      assert prisma.State() == PhoneStep(db1, prisma.fails, company, person.value, row).db;
      if HasDebt(row) {
        var status := DebtStatus(row);
        if !status.Str? {
          return Failure(ValidationErrorMessage);
        }
        var debt := prisma.CreateDebt(DebtOf(row, company, person.value, parseDate, status.s));
        if debt.Failure? {
          return Failure(debt.error);
        }
      }
      r := Success(person.value);
    }

    /**
     * One pass of the loop over pending rows: the row is processed and marked
     * `processed`, or marked `failed` with the error's message. `counted` is
     * whether `validCount` was bumped, `error` what the `catch` block logged,
     * `crashed` whether the `catch` block's own update failed.
     */
    method ProcessContact(id: Id, company: Id, parseDate: DateParser) returns (counted: bool, error: Option<string>, crashed: bool)
      requires id < |prisma.contacts|
      modifies prisma
      ensures var e := ImportDb.ProcessRow(old(prisma.State()), prisma.fails, parseDate, company, id);
        prisma.State() == e.db && counted == e.counted && error == e.error && crashed == e.crashed
    {
      var row := NormalizeRow(prisma.contacts[id].rawData);
      var body := RowBody(row, company, parseDate);
      counted := body.Success?;
      var message: string;
      if body.Success? {
        var u := prisma.UpdateContact(id, Processed, None);
        if u.Success? {
          return true, None, false;
        }
        message := u.error;
      } else {
        message := body.error;
      }
      error := Some(message);
      var f := prisma.UpdateContact(id, Failed, error);
      crashed := f.Failure?;
    }

    /**
     * `processImport`: loads the pending rows of the import, processes them
     * one by one while counting valid and invalid rows and collecting the
     * error log, then writes counters, status and log to the header.
     * `rejected` is whether its promise was rejected.
     */
    method ProcessImport(importId: Id, company: Id, parseDate: DateParser) returns (rejected: bool)
      modifies prisma
      ensures var e := ProcessImportSpec(old(prisma.State()), prisma.fails, parseDate, importId, company);
        prisma.State() == e.db && rejected == e.rejected
    {
      var found := prisma.FindPending(importId);
      if found.Failure? {
        return true;
      }
      var pending := found.value;
      ghost var db1 := prisma.State();
      assert InTable(db1, pending);
      var validCount, invalidCount := 0, 0;
      var errorLog: seq<LogEntry> := [];
      var i := 0;
      while i < |pending|
        invariant 0 <= i <= |pending|
        invariant InTable(db1, pending[..i])
        invariant RunRows(db1, prisma.fails, parseDate, company, pending[..i]) ==
          Run(prisma.State(), validCount, invalidCount, errorLog, false)
      {
        var id := pending[i];
        ghost var before := Run(prisma.State(), validCount, invalidCount, errorLog, false);
        var counted, error, crashed := ProcessContact(id, company, parseDate);
        ghost var e := RowEnd(prisma.State(), counted, error, crashed);
        ImportProperties.RunRowsStep(db1, prisma.fails, parseDate, company, pending, i, before.db,
                                     validCount, invalidCount, errorLog, e);
        if counted {
          validCount := validCount + 1;
        }
        if error.Some? {
          invalidCount := invalidCount + 1;
          errorLog := errorLog + [LogEntry(id, error.value)];
        }
        if crashed {
          ImportProperties.RunRowsCrashed(db1, prisma.fails, parseDate, company, pending, i + 1);
          return true;
        }
        i := i + 1;
      }
      assert pending[..i] == pending;
      var fin := prisma.FinishImport(importId, validCount, invalidCount, |pending|, errorLog);
      rejected := fin.Failure?;
    }
  }
}
