# synexa-api core in Dafny

This project models three services of the synexa-api NestJS backend and proves
properties of the models.

- **Contact import** (`src/imports/imports.service.ts`):
  - `importContacts` checks the batch, resolves the user's company, creates an import header and stages the raw rows in chunks of 1000.
  - `processImport` turns each pending staged row into a person, a phone, a person–phone link and a debt. It records a per-row outcome and finishes the header with counters, a status and an error log.
  - The in-line `parseCurrency` turns amount text into a number.
- **Client panel** (`src/painel-clients/painel-clients.service.ts`):
  - `create` refuses a missing user, resolves the user's company, inserts the client and refreshes its metadata.
  - The `findOne` family maps PostgREST's `PGRST116` to a 404.
  - `findAllApisByClient` returns `[]` for a client without agents.
  - `updateClientMetadata` derives a client's `metadata` JSON with one SQL query: fixed keys, one `false` flag per API name, and cumulative activation rules per execution order.
  - `duplicateClient` copies a client with its agents and APIs, remapping agent ids. Its intention inserts and `next_api_id` updates are never sent (see Findings).
- **Table tools** (`src/tables/tables.service.ts`):
  - classifying a PostgreSQL column type;
  - mapping a column schema;
  - quoting an identifier;
  - building the export query and its parameters.

## How the model is organised

Each service follows the same pattern.

- The database is a value (`ImportDb.Db`, `PanelTables.Db`).
- Each database call is a function of that value (`ImportDb`, `PanelDb`). A fault oracle `fails: nat -> bool` says which call fails, indexed by the count of calls made so far.
- The service operations are functions composed from those calls: `Staging.ImportContactsSpec`, `ImportDb.ProcessImportSpec`, `PanelDb.Create`, `PanelDb.DuplicateClient` and the rest.
- The services themselves are classes:
  - `Imports.ImportsService` over `ImportStore.Store`;
  - `PainelClients.PainelClientsService` over `PanelStore.Store`.
- Each store's fields are the tables. Each service method is proved to leave `State()`, and to return the value, that its specification function gives. The loops of the source are `while` loops in these methods, with the specification fold as the invariant.
- The properties are lemmas about the specification functions, in `ImportProperties`, `Staging`, `PanelProperties`, `ClientMetadata` and `Tables`.

Some behaviours of the code worth knowing, as the model has them:

- `parseCurrency("R$ 1.234,56")` is 1.234 (`Normalizer.ParseCurrencyThousandsPoint`): the non-numeric characters are dropped, the first comma becomes a point, and `parseFloat` stops at the second point.
- A failing staging chunk ends `importContacts` with a 500. The header stays `processing`, and the chunks already written stay staged (`Staging.WriteBatches`).
- Running `processImport` again when nothing is pending rewrites the header to `failed` with 0/0 (`ImportProperties.NothingPendingFails`).
- `validCount` is incremented before the row's status update. If that update fails, the row is counted both valid and invalid (`ImportProperties.UpdateFaultCountsTwice`, `ImportProperties.DoubleCountedRow`).
- A `bigint` column is classified as `string`: no keyword of the numeric test occurs in it (`Tables.BigintIsString`).
- In `duplicateClient`, the intention inserts and the `next_api_id` updates are PostgREST query builders discarded with `void`. A builder sends its request only when it is awaited, so neither write happens: the copy has no intentions and its API copies have no successor (`PanelProperties.DuplicateLeavesCopyBare`).

## Model

| member | source | states |
|---|---|---|
| JsValues.Or | src/imports/imports.service.ts:152 | `a \|\| b` gives one of its operands, the first when it is truthy; the result is truthy iff either operand is |
| JsValues.Coalesce | src/imports/imports.service.ts:167-168 | a chain of `\|\|` gives one of its operands and is truthy iff some operand is |
| JsValues.CoalesceFirstTruthy | src/imports/imports.service.ts:167-168 | the chain gives the first truthy operand |
| JsValues.CoalesceNoneTruthy | src/imports/imports.service.ts:167-168 | with no truthy operand the chain gives the last one |
| JsValues.NatToStringRoundTrip | src/imports/imports.service.ts:171 | the decimal text of a number reads back as that number |
| JsValues.Lower | src/imports/imports.service.ts:130 | `toLowerCase` keeps the length and lowers each character |
| JsValues.LowerIsLower | src/imports/imports.service.ts:130 | a lowered text has no upper-case letter |
| JsValues.LowerOfLower | src/imports/imports.service.ts:130 | lowering a lower-case text leaves it unchanged |
| JsValues.TrimSpec | src/imports/imports.service.ts:130 | `trim` gives the slice between leading and trailing white space, and the result is trimmed |
| JsValues.TrimOfTrimmed | src/imports/imports.service.ts:230 | trimming a trimmed text leaves it unchanged |
| JsValues.Filter | src/imports/imports.service.ts:171 | a character-class `replace(/…/g, '')` keeps only kept characters, and keeps everything when all are kept |
| JsValues.FilterNone | src/imports/imports.service.ts:171 | when no character is kept the result is empty |
| JsValues.DigitsOnly | src/imports/imports.service.ts:171 | `replace(/\D/g, '')` gives only digits, and a digit text unchanged |
| Normalizer.FoldKeyFolded | src/imports/imports.service.ts:130 | a folded key is lower-case and trimmed |
| Normalizer.FoldKeyIdempotent | src/imports/imports.service.ts:130 | folding a key twice is folding it once |
| Normalizer.NormalizedKeys | src/imports/imports.service.ts:128-131 | the normalised row has exactly the folded keys of the raw row |
| Normalizer.NormalizedKeysFolded | src/imports/imports.service.ts:128-131 | every key of the normalised row is lower-case and trimmed |
| Normalizer.NormalizedValueIsLast | src/imports/imports.service.ts:128-131 | a key's value is the one of the last raw key that folds to it |
| Normalizer.NormalizeRow | src/imports/imports.service.ts:126-131 | the `forEach` over `Object.keys` builds the normalised row |
| Normalizer.Resolve | src/imports/imports.service.ts:134 | an alias chain is truthy iff some alias holds a truthy value |
| Normalizer.ResolveFirstTruthy | src/imports/imports.service.ts:134 | the chain picks the first alias with a truthy value |
| Normalizer.PhoneDigits | src/imports/imports.service.ts:167-173 | a truthy phone alias whose text has digits gives exactly those digits; a falsy one gives no phone; a phone is always a non-empty digit string |
| Normalizer.FormattedPhoneDigits | src/imports/imports.service.ts:167-173 | the phone `(11) 98765-4321` is keyed by `11987654321` |
| Normalizer.NumericPhoneKept | src/imports/imports.service.ts:171 | a numeric phone keeps all its digits |
| Normalizer.NoDigitsNoPhone | src/imports/imports.service.ts:170-173 | a phone text without digits gives no phone |
| Normalizer.IsPrimary | src/imports/imports.service.ts:197 | `true` is primary; missing, null, `false` and numbers are not |
| Normalizer.IsPrimaryStrings | src/imports/imports.service.ts:197 | the test ignores case but not surrounding spaces or other truthy words |
| Normalizer.ReplaceFirstCommaAt | src/imports/imports.service.ts:232 | only the first comma becomes a point |
| Normalizer.ParseCurrency | src/imports/imports.service.ts:227-229 | missing, null and empty give 0; a number passes through |
| Normalizer.ParsePointed | src/imports/imports.service.ts:233 | `parseFloat` reads the digits, one point and the following digits |
| Normalizer.ParseStopsAtSecondPoint | src/imports/imports.service.ts:233 | `parseFloat` stops at a second point |
| Normalizer.ParseCurrencyThousandsPoint | src/imports/imports.service.ts:227-235 | `"R$ 1.234,56"` cleans to `1.234.56` and parses to 1.234 |
| Staging.ChunksFlatten | src/imports/imports.service.ts:83-84 | the chunks concatenate back to the rows |
| Staging.ChunksBounded | src/imports/imports.service.ts:82-84 | every chunk is non-empty and holds at most the batch size |
| Staging.ChunksCount | src/imports/imports.service.ts:82-84 | there are ⌈n/1000⌉ chunks |
| Staging.StagingRows | src/imports/imports.service.ts:74-79 | one pending staging row per raw row, carrying company, import and raw data |
| Staging.WriteBatches | src/imports/imports.service.ts:83-88 | the chunk writes only append to the staging table |
| Staging.WriteBatchesNoFaults | src/imports/imports.service.ts:83-88 | without faults, every row is appended in order, one call per chunk |
| Staging.FileNameOf | src/imports/imports.service.ts:64 | an empty or missing file name becomes `upload.csv` |
| Staging.FileTypeOf | src/imports/imports.service.ts:40 | a missing file type defaults to `csv`; null stays null |
| Staging.EmptyDataRejected | src/imports/imports.service.ts:42-44 | an empty batch is a 400 with no database call |
| Staging.NoCompanyRejected | src/imports/imports.service.ts:52-56 | a user without a company is a 500 and creates nothing |
| Staging.ImportContactsNoFaults | src/imports/imports.service.ts:39-102 | without faults: the header is created, all rows are staged, and the accepted answer is returned |
| ImportDb.TextArg | src/imports/imports.service.ts:152-161 | a text column accepts a string, null or undefined, and nothing else |
| ImportDb.UpsertPerson | src/imports/imports.service.ts:144-164 | the person keyed by (company, cpf) exists afterwards; it is the old id on update and a fresh id on create |
| ImportProperties.UpsertPersonUpdate | src/imports/imports.service.ts:151-156 | an update keeps the id, replaces name and email only when truthy, and always sets the birth date |
| ImportProperties.UpsertPersonCreate | src/imports/imports.service.ts:157-163 | a create inserts the person under a fresh id |
| ImportDb.UpsertPhone | src/imports/imports.service.ts:174-186 | an existing phone is reused unchanged; a new one gets a fresh id |
| ImportProperties.UpsertPhoneKeeps | src/imports/imports.service.ts:181 | the phone upsert never changes an existing phone |
| ImportDb.UpsertLink | src/imports/imports.service.ts:189-204 | the link (person, phone) holds the primary flag afterwards |
| ImportDb.CreateDebt | src/imports/imports.service.ts:237-250 | a debt is appended |
| ImportDb.UpdateContact | src/imports/imports.service.ts:254-257 | only the named staging row changes: its status, and the error message when one is given |
| ImportDb.PhoneStep | src/imports/imports.service.ts:167-206 | no phone digits means no call; otherwise the link to the phone carries the `is_primary` test |
| ImportDb.DebtStep | src/imports/imports.service.ts:209-251 | a debt is appended iff an amount column is present |
| ImportDb.RowBody | src/imports/imports.service.ts:134-251 | a row without a truthy cpf fails with no call; a processed row's person is keyed by its cpf |
| ImportProperties.RowBodyWrites | src/imports/imports.service.ts:144-251 | a processed row writes its person, phone, link and debt as the source does |
| ImportProperties.RowBodyGrows | src/imports/imports.service.ts:144-251 | processing a row never removes a person, phone or link |
| ImportDb.ProcessRow | src/imports/imports.service.ts:124-274 | every row is counted valid or gets an error; an error-free row never crashes the run |
| ImportProperties.ProcessRowGrows | src/imports/imports.service.ts:123-274 | processing a row, status updates included, never removes a person, phone or link |
| ImportProperties.ProcessRowNoFaults | src/imports/imports.service.ts:123-274 | without database faults a row is counted exactly once, valid with no error or invalid with one, and never crashes the run |
| ImportProperties.ProcessRowFrame | src/imports/imports.service.ts:253-273 | only the processed row's status changes, to processed or failed with its message |
| ImportDb.PendingIds | src/imports/imports.service.ts:115-117 | every id it returns indexes the staging table |
| ImportDb.PendingIdsExact | src/imports/imports.service.ts:115-117 | the query returns exactly the import's pending rows, each once, in table order |
| ImportProperties.NonePending | src/imports/imports.service.ts:115-117 | with no pending row of the import in the table the query returns nothing |
| ImportDb.RunRows | src/imports/imports.service.ts:123-275 | the loop keeps the staging table's size and logs exactly the invalid rows |
| ImportProperties.RunRowsStep | src/imports/imports.service.ts:123-275 | the loop after `i + 1` rows is the loop after `i` rows with row `i` counted valid, invalid or both and its error appended to the log |
| ImportProperties.RunRowsGrows | src/imports/imports.service.ts:123-275 | the loop never removes a person, phone or link |
| ImportProperties.RunRowsFrame | src/imports/imports.service.ts:123-275 | rows outside the pending set are untouched |
| ImportProperties.RunRowsSettles | src/imports/imports.service.ts:123-275 | after an uncrashed run no processed row is still pending |
| ImportProperties.RunRowsCrashed | src/imports/imports.service.ts:267-273 | a crash (a failed status write inside `catch`) ends the run |
| ImportProperties.LogNamesProcessedRows | src/imports/imports.service.ts:266 | every log entry names a processed row |
| ImportProperties.CountsCoverRows | src/imports/imports.service.ts:119-275 | valid plus invalid covers every row, each count at most the row count |
| ImportProperties.RunRowsNoFaults | src/imports/imports.service.ts:123-275 | without faults every row is counted exactly once |
| ImportProperties.RunRowsImports | src/imports/imports.service.ts:123-275 | the loop does not touch the import headers |
| ImportDb.FinishImport | src/imports/imports.service.ts:278-291 | the header gets the counters, `failed` iff every row failed, and the log only when non-empty |
| ImportProperties.ProcessImportNoFaults | src/imports/imports.service.ts:112-291 | without faults the header records counts that add up, `failed` iff nothing was valid, and no log iff nothing was invalid |
| ImportProperties.NothingPendingFails | src/imports/imports.service.ts:278-291 | with nothing pending the header becomes `failed` with 0/0 |
| ImportProperties.UpdateFaultCountsTwice | src/imports/imports.service.ts:253-260 | a failing status update counts the row valid and invalid |
| ImportProperties.DoubleCountedRow | src/imports/imports.service.ts:253-284 | a one-row import can end with valid 1, invalid 1 and status `failed` |
| ImportStore.Store.FindCompany | src/imports/imports.service.ts:48-52 | the user lookup, as `Staging.CompanyOf` |
| ImportStore.Store.CreateImport | src/imports/imports.service.ts:61-69 | the header insert takes the next id |
| Imports.ImportsService.ImportContacts | src/imports/imports.service.ts:39-110 | the state and answer are those of `Staging.ImportContactsSpec` |
| Imports.ImportsService.WriteStaging | src/imports/imports.service.ts:82-88 | the chunk loop does what `Staging.WriteBatches` does on the chunks |
| Imports.ImportsService.RowBody | src/imports/imports.service.ts:134-251 | as `ImportDb.RowBody` |
| Imports.ImportsService.ProcessContact | src/imports/imports.service.ts:124-274 | as `ImportDb.ProcessRow` |
| Imports.ImportsService.ProcessImport | src/imports/imports.service.ts:112-291 | as `ImportDb.ProcessImportSpec` |
| PanelTables.Single | src/painel-clients/painel-clients.service.ts:198-209 | `.single()` gives the one match, or `PGRST116` for zero or several |
| PanelTables.AgentsOf | src/painel-clients/painel-clients.service.ts:276-284 | exactly the client's agents |
| PanelTables.ApisOfAgents | src/painel-clients/painel-clients.service.ts:471-475 | exactly the APIs whose agent is listed |
| PanelDb.InsertClient | src/painel-clients/painel-clients.service.ts:163-170 | an insert appends the row under the next id and returns it, or fails and changes nothing |
| PanelDb.UpdateMetadata | src/painel-clients/painel-clients.service.ts:124-128 | only the client with the id gets the metadata |
| PanelDb.FindOne | src/painel-clients/painel-clients.service.ts:196-211 | the unique client with the id; a 404 `PainelClient with ID … not found` when there is none; a 500 on failure |
| PanelDb.FindOneAgent | src/painel-clients/painel-clients.service.ts:287-301 | the same mapping for agents |
| PanelDb.FindOneIntention | src/painel-clients/painel-clients.service.ts:382-396 | the same mapping for intentions |
| PanelDb.FindOneApi | src/painel-clients/painel-clients.service.ts:481-495 | the same mapping for APIs |
| PanelDb.UpdateClientMetadata | src/painel-clients/painel-clients.service.ts:49-136 | only the client's own row can change; a failing query, a failing (caught) metadata write, or no client with the id leaves the clients as they were |
| PanelProperties.MetadataWritten | src/painel-clients/painel-clients.service.ts:119-129 | without faults the client's metadata becomes the query's result for the current tables |
| PanelDb.Create | src/painel-clients/painel-clients.service.ts:138-182 | an empty user id is a 400; an unknown user or one without a company is a 404; success returns the inserted row with the user's company |
| PanelProperties.CreateStoresClient | src/painel-clients/painel-clients.service.ts:163-181 | without faults the client is appended with its metadata computed, and ids stay fresh |
| PanelDb.FindAllAgents | src/painel-clients/painel-clients.service.ts:276-285 | the client's agents, or a 500 |
| PanelDb.FindAllIntentions | src/painel-clients/painel-clients.service.ts:371-380 | the client's intentions, or a 500 |
| PanelDb.FindAllApisByClient | src/painel-clients/painel-clients.service.ts:458-479 | exactly the APIs of the client's agents; `[]` after one call when the client has no agents |
| ClientMetadata.NamedApisOf | src/painel-clients/painel-clients.service.ts:52-61 | the `api_base` rows of one agent: its named APIs with its execution order |
| ClientMetadata.ApiBaseMembers | src/painel-clients/painel-clients.service.ts:52-61 | `api_base` is the join of the client's agents with their named APIs |
| ClientMetadata.SortNamesSpec | src/painel-clients/painel-clients.service.ts:72 | `jsonb_agg(DISTINCT … ORDER BY …)` is strictly sorted and has the same names |
| ClientMetadata.StrictlySortedUnique | src/painel-clients/painel-clients.service.ts:72 | a set of names has one strictly sorted listing |
| ClientMetadata.BeforeTransitive | src/painel-clients/painel-clients.service.ts:72 | the name order is transitive |
| ClientMetadata.BeforeTotal | src/painel-clients/painel-clients.service.ts:72 | the name order is total on distinct names |
| ClientMetadata.Orders | src/painel-clients/painel-clients.service.ts:63-66 | `api_steps` holds exactly the execution orders present |
| ClientMetadata.NamesUpTo | src/painel-clients/painel-clients.service.ts:68-78 | the names whose order is at most the step |
| ClientMetadata.RulesDomain | src/painel-clients/painel-clients.service.ts:80-89 | the activation rules have one entry per execution order present |
| ClientMetadata.RuleContents | src/painel-clients/painel-clients.service.ts:68-89 | each rule is the sorted distinct list of names up to its order, and the only such list |
| ClientMetadata.RulesMonotone | src/painel-clients/painel-clients.service.ts:68-78 | a later step's rule contains every earlier step's names |
| ClientMetadata.RuleHasOwnStep | src/painel-clients/painel-clients.service.ts:68-78 | an API's name is in the rule of its own step |
| ClientMetadata.FlagsSpec | src/painel-clients/painel-clients.service.ts:91-97 | exactly one flag per API name, each `false` |
| ClientMetadata.MetadataKeys | src/painel-clients/painel-clients.service.ts:99-111 | the metadata has the six fixed keys, the flags and `activation_rules`, and nothing else |
| ClientMetadata.MetadataRules | src/painel-clients/painel-clients.service.ts:109-111 | `activation_rules` is present, and null exactly when no agent has an execution order |
| ClientMetadata.MetadataFlags | src/painel-clients/painel-clients.service.ts:108 | an API name maps to `false`, overriding a fixed key of the same name |
| ClientMetadata.MetadataFixed | src/painel-clients/painel-clients.service.ts:100-106 | the strategy is lowered, `tentativas` is 0 and `sessionId` is null, unless an API name overrides them |
| PanelDb.ClientPayload | src/painel-clients/painel-clients.service.ts:575-583 | the copy's names get ` (Cópia)` (missing names count as empty), its metadata is `{}`, and the other columns are kept |
| PanelDb.CopyAgents | src/painel-clients/painel-clients.service.ts:603-634 | the agent loop only appends agents |
| PanelProperties.CopyAgentsFresh | src/painel-clients/painel-clients.service.ts:603-634 | new agent ids are fresh and the old→new map is injective |
| PanelProperties.CopyAgentsRows | src/painel-clients/painel-clients.service.ts:603-634 | each mapped id leads to a copy of that agent under the new client, and every new row is such a copy |
| PanelProperties.CopyAgentsComplete | src/painel-clients/painel-clients.service.ts:603-634 | without faults every agent is mapped |
| PanelDb.CopyApis | src/painel-clients/painel-clients.service.ts:655-698 | the API loop only appends APIs |
| PanelProperties.CopyApisFresh | src/painel-clients/painel-clients.service.ts:655-698 | new API ids are fresh and the old→new map is injective |
| PanelProperties.CopyApisRows | src/painel-clients/painel-clients.service.ts:655-698 | each copy is under its agent's copy, with `next_api_id` null |
| PanelProperties.CopyApisComplete | src/painel-clients/painel-clients.service.ts:655-698 | without faults every API of a copied agent is mapped |
| PanelProperties.DuplicateAnswersCopy | src/painel-clients/painel-clients.service.ts:563-719 | a successful duplicate returns the payload of the original under a fresh id |
| PanelProperties.DuplicateUnknownClient | src/painel-clients/painel-clients.service.ts:565 | an unknown client is the 404 of `findOne` |
| PanelProperties.DuplicateKeepsOriginals | src/painel-clients/painel-clients.service.ts:563-719 | every existing row of the four tables is kept, and ids stay fresh, whether or not the detached writes are sent |
| PanelProperties.DuplicateLeavesCopyBare | src/painel-clients/painel-clients.service.ts:636-714 | the duplicate leaves the intentions table unchanged, and every API copy it adds has no `next_api_id` |
| PanelStore.Store.InsertAgent | src/painel-clients/painel-clients.service.ts:617-623 | as `PanelDb.InsertAgent` |
| PanelStore.Store.SelectMetadata | src/painel-clients/painel-clients.service.ts:51-119 | the raw query's result, as `PanelDb.SelectMetadata` |
| PainelClients.PainelClientsService.UpdateClientMetadata | src/painel-clients/painel-clients.service.ts:49-136 | as `PanelDb.UpdateClientMetadata` |
| PainelClients.PainelClientsService.Create | src/painel-clients/painel-clients.service.ts:138-182 | as `PanelDb.Create` |
| PainelClients.PainelClientsService.FindOne | src/painel-clients/painel-clients.service.ts:196-211 | as `PanelDb.FindOne` |
| PainelClients.PainelClientsService.FindOneAgent | src/painel-clients/painel-clients.service.ts:287-301 | as `PanelDb.FindOneAgent` |
| PainelClients.PainelClientsService.FindOneIntention | src/painel-clients/painel-clients.service.ts:382-396 | as `PanelDb.FindOneIntention` |
| PainelClients.PainelClientsService.FindOneApi | src/painel-clients/painel-clients.service.ts:481-495 | as `PanelDb.FindOneApi` |
| PainelClients.PainelClientsService.FindAllAgents | src/painel-clients/painel-clients.service.ts:276-285 | as `PanelDb.FindAllAgents` |
| PainelClients.PainelClientsService.FindAllIntentions | src/painel-clients/painel-clients.service.ts:371-380 | as `PanelDb.FindAllIntentions` |
| PainelClients.PainelClientsService.FindAllApisByClient | src/painel-clients/painel-clients.service.ts:458-479 | as `PanelDb.FindAllApisByClient` |
| PainelClients.PainelClientsService.CopyAgents | src/painel-clients/painel-clients.service.ts:603-634 | the agent loop does what `PanelDb.CopyAgents` does |
| PainelClients.PainelClientsService.CopyApis | src/painel-clients/painel-clients.service.ts:655-698 | the API loop does what `PanelDb.CopyApis` does |
| PainelClients.PainelClientsService.DuplicateClient | src/painel-clients/painel-clients.service.ts:563-720 | as `PanelDb.DuplicateClient`: the client, agents and APIs are copied, the intentions are fetched but not copied, and the API copies are not chained |
| Tables.ClassifyType | src/tables/tables.service.ts:38-52 | numeric keywords win; then `boolean`; then `timestamp`/`date`; otherwise `string`, each on the lowered type |
| Tables.ClassifyIgnoresCase | src/tables/tables.service.ts:39 | the class does not depend on the type's case |
| Tables.NumericTakesPrecedence | src/tables/tables.service.ts:41-47 | a numeric keyword decides `number` whatever else the type contains |
| Tables.DateIsDate | src/tables/tables.service.ts:50-51 | `date` is a date |
| Tables.BigintIsString | src/tables/tables.service.ts:41-52 | `bigint` falls through to `string` |
| Tables.MapSchema | src/tables/tables.service.ts:37-59 | one field per column, with its name, its class, and `required` iff `is_nullable` is `NO` |
| Tables.MapSchemaConcat | src/tables/tables.service.ts:37 | the mapping works column by column |
| Tables.GetTableSchema | src/tables/tables.service.ts:23-65 | a failed query is a 500 with its message; otherwise the fields are `MapSchema` of the rows: per column its name, its class, and `required` iff `is_nullable` is `NO` |
| Tables.QuoteIdent | src/tables/tables.service.ts:75 | the name is wrapped in double quotes |
| Tables.UndoubleDouble | src/tables/tables.service.ts:75 | doubling quotes can be undone |
| Tables.DoubleQuotesPaired | src/tables/tables.service.ts:75 | after doubling, every quote is paired, so the name cannot end the identifier |
| Tables.DoubleUndouble | src/tables/tables.service.ts:75 | every paired text is the doubling of exactly one name |
| Tables.QuoteIdentInjective | src/tables/tables.service.ts:75 | distinct names give distinct quoted identifiers |
| Tables.BuildExportQuery | src/tables/tables.service.ts:77-91 | the query is prefix, quoted table, date clause and order; parameters are the given dates in order, one per placeholder |
| Tables.ExportQueryShape | src/tables/tables.service.ts:77-91 | the query's placeholders match its parameters in every case |

## Left out

- The HTTP layer, authentication, the controllers and every service outside the three above are not part of this model.
- Time and dates: `new Date(...)` parsing is a parameter (`DateParser`); `updated_at`, `processed_at` and `completed_at` timestamps are not stored.
- `importContacts` starting `processImport` in the background is left to the caller. Concurrent runs over the same import, and concurrent requests in general, are not modelled.
- Console logging, and the text of Prisma's and PostgREST's error messages: a failing call gives the fixed message `database error`.
- JavaScript numbers are exact decimals, not IEEE doubles. `String(n)` gives the plain decimal form; the exponent form is not modelled.
- `toLowerCase` covers ASCII and Latin-1 letters only. (`trim` is not restricted: it removes the full ECMAScript white-space and line-terminator set.)
- Ids are natural numbers from one counter shared by all tables, not UUIDs. Uniqueness constraints other than the upsert keys are not modelled.
- The `ORDER BY` of `findAllAgents` (`execution_order`), `findAllIntentions` (`created_at`) and `findAllApisByClient` (`execution_order`) is not modelled; lists come in table order. The copies therefore come out in table order.
- The name order used for the activation rules is code-point order, not the database collation.
- `findAll`, `update`, `remove` and the agent, intention and API create/update/remove operations of the client panel are not part of this model. They are plain single-row calls followed by the same metadata refresh.
- `getTables` is a constant query and is not modelled; `exportTable`'s result rows are not modelled, only its query text and parameters.
- The raw SQL text of the metadata query (including interpolating the client id into it) is not modelled: the query is modelled by its result.
- `duplicateClient`'s `!originalClient` and `!newClient` checks cannot fire (`findOne` throws and `.single()` returns a row), so they are not modelled.
- `updateClientMetadata` is started with `void` after `create` and `duplicateClient`. It is modelled as running to completion before the operation returns, not interleaved with later calls.
- Staging.StagingRows, Normalizer.NormalizeRow, Normalizer.NormalizedValueIsLast: a staged `raw_data` row is read back with its keys in the order they were uploaded. If the column is PostgreSQL `jsonb` (the Prisma schema is not part of this model), the stored key order (shorter keys first, then bytewise) decides which of two keys that fold alike wins, and the model does not capture that order.
- The `metadata || {}` fallback is not modelled: the query always builds an object.
- The intention loop and the `next_api_id` loop of `duplicateClient` have no `while` loop in `PainelClientsService.DuplicateClient`: as written they send nothing, so they change no state. What they were meant to do is modelled only as the functions `PanelDb.CopyIntentions` and `PanelDb.Relink`, used by `PanelDb.DuplicateClientAwaited`.

## Findings

| source | as written | input that shows it | evidently intended | confidence | as-written member | corrected member |
|---|---|---|---|---|---|---|
| src/painel-clients/painel-clients.service.ts:648-650 | the intention insert is a builder discarded with `void`, so it is never sent and the copy gets no intentions | a client with one intention, no faults: after the duplicate the intentions table is as before | each intention copied under the new client, as the step comment "4. Duplicate Intentions" says | high (not executed) | PanelProperties.DuplicateLeavesCopyBare | PanelProperties.CopyIntentionsExact |
| src/painel-clients/painel-clients.service.ts:707-710 | the `next_api_id` update is a builder discarded with `void`, so it is never sent and the API copies stay unchained | a client with one agent and APIs p1 → p2, no faults: both API copies keep `next_api_id` null | each copy points at its successor's copy, as the step comment "5.2 Update next_api_id references" says | high (not executed) | PanelProperties.DuplicateLeavesCopyBare | PanelProperties.RelinkComplete |

The corrected duplicate is `PanelDb.DuplicateClientAwaited`, the same stages with both writes awaited. It runs the intention loop `PanelDb.CopyIntentions` (its copies are appended in order under the new client and get fresh ids: `PanelProperties.CopyIntentionsExact`, `PanelProperties.CopyIntentionsFresh`). It also runs the relinking loop `PanelDb.Relink` (each copy points at its successor's copy, and rows that are not copies are untouched: `PanelProperties.RelinkComplete`, `PanelProperties.RelinkKeepsOthers`, `PanelProperties.RelinkRows`). `PanelProperties.DuplicateKeepsOriginals` holds for both versions.

