# Idempotent expense store — a Dafny model

This project models the backend of an expense tracker. The backend keeps two JSON documents:

- `data/expenses.json` holds the expense records.
- `data/idempotency.json` holds the idempotency ledger. Each ledger entry maps a client's `Idempotency-Key` to the id of the record that key produced.

The model covers `backend/db.js` and the two handlers in `backend/routes/expenses.js`:

- **Record store.** `createExpense` appends. `getExpenses` filters by category, sorts stably (newest `created_at` first, or by `date` then `created_at` for `"date_desc"`) and shows amounts in major units. `getExpenseById` is a first-match lookup.
- **Ledger.** `storeIdempotencyKey` appends. `checkIdempotencyKey` returns the first entry with the key. `cleanupIdempotencyKeys` keeps the entries stamped at or after "now minus 24 hours".
- **Persistence.** `readData` turns a missing, unreadable or unparsable file into `[]`. `writeData` writes `<path>.tmp` and then renames it over the target.
- **POST `/`.** The handler validates the request, replays on a ledger hit, and otherwise creates the record and then registers the key.
- **GET `/`.** The handler forwards the non-empty query options and computes `total` and `count`.

Modules:

- `Wrappers`: Option, Outcome and Result.
- `Text`: the string order and `trim`.
- `Seqs`: `filter` and `find`.
- `Money`: conversion between minor and major units.
- `FileSystem`: files, the write protocol and the `Disk` class.
- `Records`: the entry types and the sort.
- `Db`: the store over a disk snapshot, plus the `Store` class.
- `Routes`: the two handlers.

Each state-changing operation is an imperative method on a class (`Disk`, `Store`) or the `Post` method. Each of these methods is proved equal to a pure function of the old state, for example `AfterCreate`, `AfterStore`, `AfterCleanup` or `HandlePost`. The properties are proved about those functions.

Inputs of the model, standing in for the runtime:

- The clock: the ISO strings from `new Date().toISOString()`, the `Date.now()` milliseconds, and `toISOString` itself as a function parameter.
- `uuidv4()`: a fresh-id parameter.
- `Date` parsing of the request's `date`: the normalised `YYYY-MM-DD` string, or `None`.
- `parseFloat` of the amount: a rational number, or `None` for NaN.
- The success or failure of each file write: a `Fault` parameter.

Where the specification and the code disagree, the model follows the code:

- The handler tests `category` and `description` for truthiness before trimming them. A whitespace-only category is therefore stored as `""` (`Routes.NewExpenseFields`). The specification says categories are non-empty.
- The handler accepts any amount greater than 0 and stores `Math.round(amount * 100)`. An amount below 0.005 is stored as 0 minor units (`Money.PositiveAmountStored`). The specification says stored amounts are positive.
- A failed write can leave `<path>.tmp` behind. Only the target is guaranteed unchanged (`FileSystem.Written`); the disk as a whole is not left exactly as it was.
- `cleanupIdempotencyKeys` only logs the number it removed. The model returns that number.
- The specification says only that a failed create must skip registration. The code has a second failure path: if the ledger write fails after the record was stored, the answer is 500 and the key stays unregistered, so a retry creates a second record (`Routes.RegisterFailureLeavesRecord`).

## Model

| member | source | states |
|---|---|---|
| Text.Trim | backend/routes/expenses.js:68-69 | The result is a slice of the input with only white space before and after it, and it neither starts nor ends with white space. |
| Text.TrimEmpty | backend/routes/expenses.js:68-69 | A field trims to `""` exactly when it is all white space. |
| Text.TrimIdempotent | backend/routes/expenses.js:68-69 | Trimming twice is the same as trimming once. |
| Text.LessTotal | backend/db.js:75-83 | Two different strings are ordered one way or the other, so the comparators decide every pair. |
| Text.LessTransitive | backend/db.js:75-83 | The string order used by the comparators and by `>=` is transitive. |
| Text.AtLeastTransitive | backend/db.js:143 | `>=` on ISO strings is transitive. |
| Seqs.Filter | backend/db.js:69-71 | `filter` keeps exactly the elements that pass, and never lengthens the sequence. |
| Seqs.FilterMultiset | backend/db.js:143 | Each passing element is kept as often as it occurs; every other element is dropped. |
| Seqs.FilterConcat | backend/db.js:143 | Filtering distributes over concatenation, so kept elements stay in their original order. |
| Seqs.FirstIndex | backend/db.js:114 | `find` stops at the first matching index, and reports none only when no element matches. |
| Seqs.Find | backend/db.js:125 | `find` returns the first matching element, and `undefined` exactly when nothing matches. |
| Seqs.FindAppend | backend/db.js:97-116 | Appending never changes an element that was already found, so the earliest match wins. |
| Money.Round | backend/routes/expenses.js:67 | `Math.round(x)` is the integer `n` with `n − 0.5 ≤ x < n + 0.5`, so a half rounds up. |
| Money.MinorRoundTrip | backend/db.js:88 | Dividing stored minor units by 100 and storing the result again gives back the same minor units. |
| Money.MajorRoundTrip | backend/routes/expenses.js:67 | A decimal amount with at most two fractional digits survives storing and showing exactly. |
| Money.PositiveAmountStored | backend/routes/expenses.js:67 | An amount that passed the `> 0` check is stored as a non-negative number of minor units, and as a positive one exactly when it is at least 0.005. |
| FileSystem.Written | backend/db.js:33-42 | A successful write leaves the new document at the target and removes the temp file. A failed write leaves the target as it was. No other path changes. |
| FileSystem.ReadAfterWrite | backend/db.js:17-42 | Reading after a successful write returns exactly the sequence written. |
| FileSystem.ReadAfterFailedWrite | backend/db.js:33-42 | After a failed write, `readData` of the target returns what it returned before. |
| FileSystem.CrashAtomicity | backend/db.js:35-37 | At every step of the temp-then-rename protocol, the target holds either its old contents or the complete new document, and the new document only after the rename. The three write outcomes are the last three steps. |
| FileSystem.Disk.WriteFileSync | backend/db.js:36 | A successful `writeFileSync` leaves the path holding the document. A failed one throws and leaves the path partially written. |
| FileSystem.Disk.RenameSync | backend/db.js:37 | `renameSync` moves the temp file over the target. It fails, changing nothing, when the source is missing or the call fails. |
| FileSystem.Disk.WriteData | backend/db.js:33-42 | `writeData` leaves the disk equal to `Written` of the old disk, and re-throws the error of the step that failed. |
| Records.Display | backend/db.js:86-89 | The stored minor units can be recovered from the shown amount. |
| Records.DisplayInjective | backend/db.js:86-89 | Two different stored records are never shown alike. |
| Records.Insert | backend/db.js:76-83 | Inserting adds exactly one occurrence of the record. |
| Records.Sort | backend/db.js:75-83 | The sorted result is a permutation of its input. |
| Records.SortSorted | backend/db.js:75-83 | No record comes after one that the comparator would place after it. |
| Records.SortStable | backend/db.js:75-83 | Records the comparator ties keep their stored order, as in the stable `Array.prototype.sort`. |
| Records.NotPrecedesTransitive | backend/db.js:76-82 | Both comparators are total preorders. |
| Records.NewestCreatedOrder | backend/db.js:82 | In the default order `created_at` never increases, and it strictly decreases between distinct instants. |
| Records.NewestDateOrder | backend/db.js:76-80 | In the `"date_desc"` order `date` never increases, and among equal dates `created_at` never increases. |
| Records.SortSum | backend/db.js:75-83 | Sorting does not change the sum of amounts. |
| Records.TotalDisplayAll | backend/routes/expenses.js:123 | The `reduce` total of the shown amounts is the stored minor units' sum divided by 100. |
| Db.AfterCreate | backend/db.js:52-57 | On success the stored records become the old records with the new one appended. On failure the document is untouched. |
| Db.CreateOverCorrupt | backend/db.js:52-55 | Creating a record while the document is unreadable leaves only the new record. |
| Db.MatchingExactly | backend/db.js:68-72 | With a category set, the filter keeps exactly the stored records of that category, each as often as stored. Without one it keeps all of them. |
| Db.Selected | backend/db.js:64-83 | The records `getExpenses` returns are a permutation of the matching records, contain exactly the matching records, are sorted by the selected order, and keep ties in stored order. |
| Db.ListingTotals | backend/db.js:64-89 | `getExpenses` returns one shown record per matching record, and their total is the matching minor units' sum in major units. |
| Db.FindById | backend/db.js:123-134 | `getExpenseById` finds the first record with the id, and returns `null` exactly when no record has it. |
| Db.Lookup | backend/db.js:112-116 | `checkIdempotencyKey` returns the id of the first entry with the key, and `null` exactly when no entry has the key. |
| Db.LookupAppend | backend/db.js:97-116 | Appending an entry never changes what a key already resolves to. A new key resolves to the appended entry's id. |
| Db.AfterStore | backend/db.js:97-105 | On success the ledger becomes the old entries followed by `{key, expense_id, created_at: now}`. On failure it is untouched. |
| Db.AfterCleanup | backend/db.js:140-149 | The number removed is the old length minus the new length. The ledger is rewritten only when that number is positive. After a successful rewrite the ledger holds the retained entries; after a failed one it is unchanged. |
| Db.SweepKeepsExactly | backend/db.js:141-144 | The sweep keeps exactly the entries with `created_at >= cutoff`, in their order, and removes as many as are stamped before the cutoff. |
| Db.SweepBoundary | backend/db.js:141-143 | An entry stamped exactly at now − 24h is kept. One stamped a second earlier is removed, provided its ISO string sorts before the cutoff's. |
| Db.SweepIdempotent | backend/db.js:140-149 | A second sweep with the same cutoff removes nothing. |
| Db.SweepKeepsIdsPresent | backend/db.js:140-149 | Sweeping keeps every remaining entry's record id non-empty. |
| Db.Store.CreateExpense | backend/db.js:52-57 | `createExpense` leaves the records document equal to `AfterCreate`, returns the record it was given, and re-throws on failure. |
| Db.Store.GetExpenses | backend/db.js:64-90 | `getExpenses` returns one shown record per matching stored record. Each is some stored record that passes the filter, shown with its amount in major units. The total is the matching minor units' sum in major units. |
| Db.Store.GetExpenseById | backend/db.js:123-134 | `getExpenseById` returns the first record with the id, shown in major units, and `null` exactly when no record has it. |
| Db.Store.CheckIdempotencyKey | backend/db.js:112-116 | `checkIdempotencyKey` returns the id of the first entry with the key, and `null` exactly when no entry has the key. |
| Db.Store.StoreIdempotencyKey | backend/db.js:97-105 | `storeIdempotencyKey` leaves the ledger document equal to `AfterStore`, and re-throws on failure. |
| Db.Store.CleanupIdempotencyKeys | backend/db.js:140-149 | `cleanupIdempotencyKeys` with cutoff `toISOString(now − 86400000)` leaves the ledger as `AfterCleanup` says, and returns the number removed. |
| Routes.NewExpenseFields | backend/routes/expenses.js:64-72 | The new record has the fresh id, `created_at = now`, the normalised date, `Math.round(amount*100)` minor units (at least 0), and the trimmed category and description, each empty only if the field was all white space. |
| Routes.Post | backend/routes/expenses.js:18-97 | The POST handler's response and both documents afterwards are exactly those of `HandlePost`. |
| Routes.RejectionChangesNothing | backend/routes/expenses.js:22-44 | The answer is 400 exactly when validation fails, and then neither document changes. The checks run in the code's order: missing fields, then a non-positive amount, then an invalid date. Each has its own message. |
| Routes.HitChangesNothing | backend/routes/expenses.js:47-60 | On a ledger hit the answer is 200 with `getExpenseById` of the id (`null` for a dangling id), and nothing is written. |
| Routes.CreateFailureSkipsLedger | backend/routes/expenses.js:74-96 | If `createExpense` throws, the answer is 500, the ledger is not written, and the records document is untouched. |
| Routes.MissCreatesThenRegisters | backend/routes/expenses.js:63-89 | On a miss the record is appended and then the key is registered with its id. The answer is 201 with the shown new record exactly when registration was not needed or succeeded. |
| Routes.RegisterFailureLeavesRecord | backend/routes/expenses.js:75-96 | If registering the key fails after the record was stored, the answer is 500, the record stays, and the key stays unresolved. |
| Routes.NoKeyIgnoresLedger | backend/routes/expenses.js:49-80 | Without a key the response and the records do not depend on the ledger, and the ledger is not written. |
| Routes.LedgerAfterPost | backend/routes/expenses.js:74-80 | A POST leaves the ledger as it was or with exactly one entry appended for its key. |
| Routes.CreatedShape | backend/routes/expenses.js:63-89 | A 201 means the request was valid, its key was not a hit and the create succeeded. The answer is the shown new record, which was appended; with a key, the key's entry was appended to the ledger. |
| Routes.ReplayedShape | backend/routes/expenses.js:49-60 | A 200 means the request was valid and its key resolved to an id. The answer is `getExpenseById` of that id, and nothing was written. |
| Routes.HitIsLookup | backend/routes/expenses.js:49-53 | When every ledger id is truthy, a non-empty key is a hit exactly when `checkIdempotencyKey` finds it. |
| Routes.PostKeepsIdsPresent | backend/routes/expenses.js:64-80 | A POST with a non-empty fresh id keeps every ledger entry's record id non-empty. |
| Routes.FreshRecordFound | backend/db.js:123-134 | A record with a fresh id, once appended, is the one record found by that id. |
| Routes.RetryReturnsSameRecord | backend/routes/expenses.js:49-80 | After a 201 or a 200 for key `k`, a valid retry with `k` writes nothing and answers 200 with the same record. After a 201, exactly one stored record has that id. |
| Routes.ForwardOnlyNonEmpty | backend/routes/expenses.js:108-118 | A query option is forwarded only when it is non-empty, and only `"date_desc"` selects the date order. |
| Routes.Get | backend/routes/expenses.js:106-129 | `count` is the number of listed records and of matching stored records. `total` is their minor units' sum in major units. With a category parameter every listed record has that category. |

## Left out

- Floating point is not modelled. Amounts in major units are exact rationals, so `parseFloat`, `Math.round(amountNum * 100)`, `amount / 100` and `parseFloat(total.toFixed(2))` are computed exactly. `toFixed` rounding is modelled as `Math.round` at two decimals.
- `new Date(date)` validation, `toISOString()` and `uuidv4()` are inputs, not computations.
- `localeCompare` and `>=` on strings are modelled as plain lexicographic order on characters. This matches for the ISO-8601 strings the store writes, but not for collation in general.
- JSON serialisation is abstracted. A file is either a document holding a sequence of records, or `Corrupt`. `Corrupt` covers a failing `readFileSync` as well as a failing `JSON.parse`, since `readData` treats them alike. A transient read error is thus treated like a corrupt file. Documents that parse to something other than an array of well-formed records are not modelled.
- A failing `writeFileSync` is modelled as leaving a partially written temp file. The case where the temp file is not created at all leaves the target unchanged in the same way.
- The two documents live on two separate `Disk` objects. No code path writes one document's contents to the other's paths.
- Creating the data directory when the module loads (backend/db.js:9-12) is not modelled.
- Logging through `console.*`, and the operator warning on a corrupt document, are not modelled.
- backend/server.js is not part of this model: Express wiring, CORS, the 404/500 handlers and the hourly `setInterval` sweep. An error thrown by the sweep inside that timer is also out.
- backend/middleware/idempotency.js is reduced to its effect: the raw header string, with `""` standing for an absent header.
- Request fields are strings, or the amount's truthiness plus its parsed value. A non-string `category` (where `.trim()` would throw) and repeated query parameters (which Express turns into arrays) are not modelled.
- Concurrent requests that interleave read-modify-write are not modelled. The model is sequential, like the code.
- The frontend is not part of this model.
