/**
 * `importContacts` of src/imports/imports.service.ts as a function of the
 * database: the empty-batch check, the company lookup, the import header and
 * the staging rows written in slices of 1000.
 */
module Staging {
  import opened Wrappers
  import opened JsValues
  import opened Normalizer
  import opened ImportDb

  const BatchSize: nat := 1000

  const EmptyDataMessage: string := "Data array is empty"
  const NoCompanyMessage: string := "Invalid User ID or User has no Company assigned."
  const ProcessingErrorPrefix: string := "Erro no processamento: "

  function Min(a: int, b: int): int {
    if a <= b then a else b
  }

  // ---------------------------------------------------------------------------
  // Slicing into batches

  /** `s.slice(i, i + size)` for `i = 0, size, 2 * size, ...`. */
  function Chunks<T>(s: seq<T>, size: nat): (cs: seq<seq<T>>)
    requires size > 0
    decreases |s|
  {
    if s == [] then []
    else [s[..Min(size, |s|)]] + Chunks(s[Min(size, |s|)..], size)
  }

  function Flatten<T>(cs: seq<seq<T>>): seq<T> {
    if cs == [] then [] else cs[0] + Flatten(cs[1..])
  }

  /** Every batch holds between 1 and `size` rows. */
  lemma {:induction false} ChunksBounded<T>(s: seq<T>, size: nat, k: nat)
    requires size > 0 && k < |Chunks(s, size)|
    ensures 0 < |Chunks(s, size)[k]| <= size
    decreases |s|
  {
    if k > 0 {
      ChunksBounded(s[Min(size, |s|)..], size, k - 1);
    }
  }

  /** The batches, put back together, are exactly the rows: nothing lost, repeated or reordered. */
  lemma {:induction false} ChunksFlatten<T>(s: seq<T>, size: nat)
    requires size > 0
    ensures Flatten(Chunks(s, size)) == s
    decreases |s|
  {
    if s != [] {
      var n := Min(size, |s|);
      ChunksFlatten(s[n..], size);
      assert Chunks(s, size)[1..] == Chunks(s[n..], size);
      assert s[..n] + s[n..] == s;
    }
  }

  /** There are `ceil(|s| / 1000)` batches of 1000. */
  lemma {:induction false} ChunksCount<T>(s: seq<T>)
    ensures |Chunks(s, BatchSize)| == (|s| + BatchSize - 1) / BatchSize
    decreases |s|
  {
    if s != [] {
      var n := Min(BatchSize, |s|);
      ChunksCount(s[n..]);
      if |s| <= BatchSize {
        assert |s[n..]| == 0;
      }
    }
  }

  /** The batch the loop sends at offset `i` starts the batches of what remains. */
  lemma ChunksFrom<T>(s: seq<T>, size: nat, i: nat)
    requires size > 0 && i < |s|
    ensures Chunks(s[i..], size) ==
      [s[i..Min(i + size, |s|)]] + (if i + size < |s| then Chunks(s[i + size..], size) else [])
  {
    var t := s[i..];
    var n := Min(size, |t|);
    assert t[..n] == s[i..Min(i + size, |s|)];
    if i + size < |s| {
      assert t[n..] == s[i + size..];
    } else {
      assert t[n..] == [];
    }
  }

  // ---------------------------------------------------------------------------
  // Staging rows and their writing

  /** One `pending` staging row per input row, in input order, holding the row verbatim. */
  function StagingRows(company: Id, importId: Id, data: seq<RawRow>): (rows: seq<Contact>)
    ensures |rows| == |data|
    ensures forall k :: 0 <= k < |data| ==> rows[k] == Contact(company, importId, data[k], Pending, None)
  {
    seq(|data|, k requires 0 <= k < |data| => Contact(company, importId, data[k], Pending, None))
  }

  /** The `createMany` calls, one per batch, stopping at the first that fails. */
  function WriteBatches(db: Db, fails: Faults, batches: seq<seq<Contact>>): (s: Step<()>)
    decreases |batches|
    ensures s.db.imports == db.imports && s.db.users == db.users && s.db.people == db.people
    ensures s.db.phones == db.phones && s.db.links == db.links && s.db.debts == db.debts
    ensures |db.contacts| <= |s.db.contacts| && s.db.contacts[..|db.contacts|] == db.contacts
  {
    if batches == [] then Step(db, Success(()))
    else if fails(db.ops) then Step(Tick(db), Failure(DbErrorMessage))
    else
      var next := Tick(db).(contacts := db.contacts + batches[0]);
      var rest := WriteBatches(next, fails, batches[1..]);
      assert rest.db.contacts[..|db.contacts|] == rest.db.contacts[..|next.contacts|][..|db.contacts|];
      rest
  }

  /** Without faults every batch is written, in order. */
  lemma {:induction false} WriteBatchesNoFaults(db: Db, fails: Faults, batches: seq<seq<Contact>>)
    requires forall k :: db.ops <= k ==> !fails(k)
    ensures var s := WriteBatches(db, fails, batches);
      s.result.Success? && s.db.contacts == db.contacts + Flatten(batches) && s.db.ops == db.ops + |batches|
    decreases |batches|
  {
    if batches != [] {
      var next := Tick(db).(contacts := db.contacts + batches[0]);
      WriteBatchesNoFaults(next, fails, batches[1..]);
      assert db.contacts + batches[0] + Flatten(batches[1..]) == db.contacts + Flatten(batches);
    }
  }

  // ---------------------------------------------------------------------------
  // importContacts

  /** `fileName || 'upload.csv'`. */
  function FileNameOf(fileName: Option<string>): (r: string)
    ensures fileName.Some? && fileName.value != "" ==> r == fileName.value
    ensures fileName.None? || fileName == Some("") ==> r == "upload.csv"
  {
    if fileName.Some? && fileName.value != "" then fileName.value else "upload.csv"
  }

  /** The destructuring default `fileType = 'csv'`, which replaces `undefined` only (not null). */
  function FileTypeOf(fileType: JsValue): (r: Option<string>)
    requires fileType.Str? || fileType.Null? || fileType.Undefined?
    ensures fileType.Undefined? ==> r == Some("csv")
    ensures fileType.Null? ==> r == None
    ensures fileType.Str? ==> r == Some(fileType.s)
  {
    match fileType
    case Undefined => Some("csv")
    case Str(s) => Some(s)
    case Null => None
  }

  function AcceptedMessage(count: nat): string {
    "Importação iniciada. " + NatToString(count) + " registros na fila de processamento."
  }

  datatype Accepted = Accepted(importId: Id, message: string)

  datatype ImportEnd = ImportEnd(db: Db, result: Result<Accepted, HttpError>)

  function InternalError(message: string): HttpError {
    InternalServerError(ProcessingErrorPrefix + message)
  }

  /** The company a user belongs to; `None` for an unknown user or one without a company. */
  function CompanyOf(db: Db, userId: string): Option<Id> {
    if userId in db.users then db.users[userId] else None
  }

  /** The header `imports.create` writes. */
  function HeaderFor(company: Id, fileName: Option<string>, fileType: JsValue, count: nat): ImportHeader
    requires fileType.Str? || fileType.Null? || fileType.Undefined?
  {
    ImportHeader(company, FileNameOf(fileName), FileTypeOf(fileType), count, Processing, None, None, None)
  }

  /**
   * `importContacts` up to the hand-off to `processImport`. An empty batch is
   * rejected as it is; every later error, the missing company included, is
   * rewrapped as an internal error whose message starts "Erro no processamento: ".
   */
  function ImportContactsSpec(db: Db, fails: Faults, userId: string, fileName: Option<string>, fileType: JsValue, data: seq<RawRow>): ImportEnd
    requires fileType.Str? || fileType.Null? || fileType.Undefined?
  {
    if |data| == 0 then ImportEnd(db, Failure(BadRequest(EmptyDataMessage)))
    else if fails(db.ops) then ImportEnd(Tick(db), Failure(InternalError(DbErrorMessage)))
    else
      var db1 := Tick(db);
      var company := CompanyOf(db, userId);
      if company.None? then ImportEnd(db1, Failure(InternalError(NoCompanyMessage)))
      else if fails(db1.ops) then ImportEnd(Tick(db1), Failure(InternalError(DbErrorMessage)))
      else
        var importId := db1.nextId;
        var header := HeaderFor(company.value, fileName, fileType, |data|);
        var db2 := Tick(db1).(imports := db1.imports[importId := header], nextId := importId + 1);
        var w := WriteBatches(db2, fails, Chunks(StagingRows(company.value, importId, data), BatchSize));
        if w.result.Failure? then ImportEnd(w.db, Failure(InternalError(DbErrorMessage)))
        else ImportEnd(w.db, Success(Accepted(importId, AcceptedMessage(|data|))))
  }

  /** An empty batch is refused with the unwrapped message before anything is read or written. */
  lemma EmptyDataRejected(db: Db, fails: Faults, userId: string, fileName: Option<string>, fileType: JsValue)
    requires fileType.Str? || fileType.Null? || fileType.Undefined?
    ensures ImportContactsSpec(db, fails, userId, fileName, fileType, []) == ImportEnd(db, Failure(BadRequest("Data array is empty")))
  {
  }

  /** A user that is unknown or has no company gets the rewrapped message and nothing is created. */
  lemma NoCompanyRejected(db: Db, fails: Faults, userId: string, fileName: Option<string>, fileType: JsValue, data: seq<RawRow>)
    requires fileType.Str? || fileType.Null? || fileType.Undefined?
    requires |data| > 0 && !fails(db.ops) && CompanyOf(db, userId).None?
    ensures var e := ImportContactsSpec(db, fails, userId, fileName, fileType, data);
      && e.db.imports == db.imports && e.db.contacts == db.contacts
      && e.result == Failure(InternalServerError(ProcessingErrorPrefix + NoCompanyMessage))
  {
  }

  /**
   * Without faults, a non-empty batch for a user with a company creates one
   * `processing` header counting the rows and appends exactly one pending
   * staging row per input row, in order, in ceil(n / 1000) writes.
   */
  lemma ImportContactsNoFaults(db: Db, fails: Faults, userId: string, fileName: Option<string>, fileType: JsValue, data: seq<RawRow>)
    requires fileType.Str? || fileType.Null? || fileType.Undefined?
    requires |data| > 0 && CompanyOf(db, userId).Some?
    requires forall k :: db.ops <= k ==> !fails(k)
    ensures var e := ImportContactsSpec(db, fails, userId, fileName, fileType, data);
      var company := CompanyOf(db, userId).value;
      && e.result == Success(Accepted(db.nextId, AcceptedMessage(|data|)))
      && e.db.imports == db.imports[db.nextId := ImportHeader(company, FileNameOf(fileName), FileTypeOf(fileType), |data|, Processing, None, None, None)]
      && e.db.contacts == db.contacts + StagingRows(company, db.nextId, data)
      && e.db.ops == db.ops + 2 + (|data| + BatchSize - 1) / BatchSize
  {
    var company := CompanyOf(db, userId).value;
    var db1 := Tick(db);
    var header := HeaderFor(company, fileName, fileType, |data|);
    var db2 := Tick(db1).(imports := db1.imports[db1.nextId := header], nextId := db1.nextId + 1);
    var rows := StagingRows(company, db1.nextId, data);
    var w := WriteBatches(db2, fails, Chunks(rows, BatchSize));
    WriteBatchesNoFaults(db2, fails, Chunks(rows, BatchSize));
    ChunksFlatten(rows, BatchSize);
    ChunksCount(rows);
    assert ImportContactsSpec(db, fails, userId, fileName, fileType, data) ==
      ImportEnd(w.db, Success(Accepted(db.nextId, AcceptedMessage(|data|))));
  }
}
