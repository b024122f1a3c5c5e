# LMDB object-database backends for libgit2, in Dafny

GitIncrementalStore keeps git objects (blobs, trees, commits, tags) in an LMDB
key/value table, through two libgit2 object-database backends:

- the **transactional backend** (`lmdb_transactional_backend.cc`). It stores
  each object as `[type] ++ payload`. It implements write, read, read_header,
  exists and foreach. It also holds an optional *outer transaction* that
  `git_odb_transaction_begin` / `_commit` / `_rollback` open and close. While
  that transaction is active, every record operation runs in a child
  transaction of it.
- the **plain backend** (`lmdb_odb_backend.cc`). It stores each object as
  `payload ++ [type]`. It implements write, read, exists and foreach, each in
  its own top-level transaction.

This model is functional. LMDB is an `Engine`: a durable table
(`map<Oid, seq<bv8>>`) plus a stack of open write transactions. Each open
transaction holds only its own uncommitted writes.

- A child commit merges its writes into its parent.
- A top-level commit merges its writes into the durable table.
- An abort discards the transaction's writes.

Every engine call that can fail (`mdb_txn_begin`, `mdb_put`, `mdb_get`,
`mdb_cursor_open`, `mdb_txn_commit`, the constructor's setup calls and the
dispatcher's `git_odb_add_backend`) takes its outcome as a parameter. So
does the cursor step `mdb_cursor_get(…, MDB_NEXT)` of foreach: the
`cursorFailsAt` parameter names the step that fails. A value equal to the
number of keys is the final step, the one expected to report "not found",
failing instead; a larger value means no step fails. `git_odb_hash` is a function parameter
(`Hasher`). The foreach callback is a function of the key and of the keys it
was shown before, which covers a callback that keeps state in its context.

Modules:

| module | file | what |
|---|---|---|
| `Codes`, `Options` | codes.dfy | libgit2 / LMDB return codes, `git_otype` numbers, `Option` |
| `Bytes` | bytes.dfy | bytes, 20-byte object ids, the signed-char type tag |
| `Layout` | layout.dfy | the prefix (transactional) and suffix (plain) value layouts |
| `Lmdb` | lmdb.dfy | the engine: durable table plus a stack of transaction overlays |
| `Cursor` | cursor.dfy | LMDB key order, cursor enumeration, the foreach loop |
| `Environment` | environment.dfy | handles, the constructor's setup sequence, teardown, the `dbi == 0` check |
| `TransactionalBackend` | transactional_backend.dfy | record operations, coordinator, lifecycle |
| `TransactionalProperties` | transactional_properties.dfy | read-after-write, header/read agreement, begin-writes-commit/rollback runs |
| `PlainBackend` | plain_backend.dfy | the plain variant and the finding below |

The two layouts really are different. `Layout.LayoutsDoNotMix` shows a blob
written by one variant that the other variant reads back as a commit.

## Model

| member | source | states |
|---|---|---|
| `Bytes.TagRoundTrip` | GitIncrementalStore/lmdb_transactional_backend.cc:42-65 | narrowing a `git_otype` to the `char` tag and reading it back gives the same type if and only if the type fits a signed byte |
| `Bytes.TagCanonical` | GitIncrementalStore/lmdb_transactional_backend.cc:65 | every tag byte is the narrowing of the type it is read back as |
| `Layout.PrefixEncode` | GitIncrementalStore/lmdb_transactional_backend.cc:42-43 | the stored value is one byte longer than the payload, byte 0 is the tag and the rest is the payload |
| `Layout.PrefixDecode` | GitIncrementalStore/lmdb_transactional_backend.cc:64-69 | the reported length is the length of the returned payload, and the type is one a signed `char` tag can hold |
| `Layout.SuffixEncode` | GitIncrementalStore/lmdb_odb_backend.cc:39-40 | the stored value is one byte longer than the payload, the payload comes first and the tag is at position `length` |
| `Layout.SuffixDecode` | GitIncrementalStore/lmdb_odb_backend.cc:61-66 | the reported length is the length of the returned payload, and the type is one a signed `char` tag can hold |
| `Layout.PrefixRoundTrip` | GitIncrementalStore/lmdb_transactional_backend.cc:42-69 | decoding a prefix-encoded value returns the payload and its length; it returns the type too exactly when the type fits the tag |
| `Layout.PrefixCanonical` | GitIncrementalStore/lmdb_transactional_backend.cc:64-69 | every non-empty stored value is the prefix encoding of what it decodes to |
| `Layout.SuffixRoundTrip` | GitIncrementalStore/lmdb_odb_backend.cc:39-66 | decoding a suffix-encoded value returns the payload and its length; it returns the type too exactly when the type fits the tag |
| `Layout.SuffixCanonical` | GitIncrementalStore/lmdb_odb_backend.cc:61-66 | every non-empty stored value is the suffix encoding of what it decodes to |
| `Layout.LayoutsDoNotMix` | GitIncrementalStore/lmdb_odb_backend.cc:39-40 | a blob stored by one variant decodes under the other variant as a different object (a commit holding the blob's tag byte) |
| `Lmdb.ViewNonEmpty` | GitIncrementalStore/lmdb_transactional_backend.cc:64 | when every layer holds only non-empty values, every value a transaction sees is non-empty, so `size - 1` cannot underflow |
| `Lmdb.Begin` | GitIncrementalStore/lmdb_transactional_backend.cc:35-37 | a new transaction sees what its parent saw and leaves the durable table alone |
| `Lmdb.Put` | GitIncrementalStore/lmdb_transactional_backend.cc:39-40 | a put changes what the transaction sees at exactly that key, and changes neither the durable table nor the outer layers |
| `Lmdb.Commit` | GitIncrementalStore/lmdb_transactional_backend.cc:45-46 | a commit keeps what is visible; a child commit leaves the durable table alone, and a top-level commit makes the durable table equal to the transaction's view |
| `Lmdb.Abort` | GitIncrementalStore/lmdb_transactional_backend.cc:40 | an abort removes the innermost transaction and leaves the durable table alone |
| `Lmdb.AbortAfterBegin` | GitIncrementalStore/lmdb_transactional_backend.cc:58-71 | a transaction that is begun and aborted without writes leaves the engine as it was |
| `Lmdb.AbortDiscards` | GitIncrementalStore/lmdb_transactional_backend.cc:35-46 | a transaction that is begun, written to, and aborted after its commit fails leaves the engine as it was |
| `Lmdb.CommitChildWrite` | GitIncrementalStore/lmdb_transactional_backend.cc:35-46 | a committed child write lands in its parent's writes; a committed top-level write lands in the durable table |
| `Cursor.CursorOrder` | GitIncrementalStore/lmdb_transactional_backend.cc:108-109 | the cursor yields every key exactly once, in strictly increasing LMDB key order |
| `Cursor.ScanFrom` | GitIncrementalStore/lmdb_transactional_backend.cc:108-116 | the loop as written: the callback is shown a prefix of the keys the cursor delivers before its first failing step; the result is GIT_OK exactly when it accepts every delivered key, and then it was shown all of them; otherwise the result is GIT_EUSER and the last key shown is the first one it refused |
| `Cursor.ScanStopsAtFirstRefusal` | GitIncrementalStore/lmdb_transactional_backend.cc:110-111 | at the first refusal among the delivered keys the loop returns GIT_EUSER, and no key after the refused one is shown |
| `Cursor.ScanVisitsEveryKeyOnce` | GitIncrementalStore/lmdb_transactional_backend.cc:109-116 | when no cursor step fails, a callback that accepts every key sees each key of the table exactly once, and the loop reports GIT_OK |
| `Cursor.CursorFailureReportsOk` | GitIncrementalStore/lmdb_transactional_backend.cc:109-116 | when a cursor step fails before the last key, the loop reports GIT_OK to a callback that accepted all it saw, although it was shown only the keys before the failure |
| `Cursor.ScanChecked` | GitIncrementalStore/lmdb_transactional_backend.cc:108-116 | the corrected loop: GIT_OK exactly when no cursor step fails, the final "not found" step included, and every key is accepted, and then every key was shown; a failing step gives GIT_ERROR after showing exactly the keys before it; a refusal gives GIT_EUSER |
| `Cursor.LastCallFailureHidden` | GitIncrementalStore/lmdb_transactional_backend.cc:109-116 | a failure of the final cursor step, which should report "not found", gives the loop as written the same outcome as no failure, while the corrected loop does not report GIT_OK |
| `Cursor.ScanCheckedAgrees` | GitIncrementalStore/lmdb_transactional_backend.cc:108-116 | when no cursor step fails, the corrected loop and the loop as written give the same result |
| `Environment.Close` | GitIncrementalStore/lmdb_odb_backend.cc:140-144 | teardown leaves `dbi == 0` and a null environment |
| `Environment.CloseIdempotent` | GitIncrementalStore/lmdb_odb_backend.cc:140-144 | running the teardown twice gives the state of running it once |
| `Environment.Setup` | GitIncrementalStore/lmdb_transactional_backend.cc:137-165 | the constructor leaves a table handle and a live environment exactly when every setup call succeeded; a failed `mdb_dbi_open` leaves the setup transaction unreleased |
| `Environment.Admit` | GitIncrementalStore/lmdb_transactional_backend.cc:178-183 | registration succeeds exactly when `dbi != 0` and the dispatcher accepts the backend |
| `TransactionalBackend.VisibleBetweenCalls` | GitIncrementalStore/lmdb_transactional_backend.cc:51-52 | between calls, operations see the durable table, or that table overlaid with the outer transaction's writes when one is active |
| `TransactionalBackend.Write` | GitIncrementalStore/lmdb_transactional_backend.cc:27-47 | the id is `hash(data, length, type)` on every path; the result is GIT_OK exactly when begin, put and commit all succeed, and then the record is added to the outer transaction when one is active, otherwise to the durable table; on any failure nothing changes |
| `TransactionalBackend.Read` | GitIncrementalStore/lmdb_transactional_backend.cc:49-73 | GIT_OK, GIT_ENOTFOUND or GIT_ERROR exactly by whether the engine failed and whether the key is visible; on GIT_OK the object is what the stored value decodes to, and its type fits the tag; the backend is unchanged on every path |
| `TransactionalBackend.ReadHeader` | GitIncrementalStore/lmdb_transactional_backend.cc:75-95 | the same outcome codes as read; on GIT_OK the length is the value size minus one and the type is the sign-extended tag byte; the backend is unchanged |
| `TransactionalBackend.Exists` | GitIncrementalStore/lmdb_transactional_backend.cc:119-132 | returns 0 exactly when the lookup runs and reports not-found, and -1 otherwise; the backend is unchanged |
| `TransactionalBackend.Foreach` | GitIncrementalStore/lmdb_transactional_backend.cc:98-117 | a failed begin or cursor open gives GIT_ERROR and shows no key; a failed cursor open leaves one transaction unreleased; otherwise the result is the cursor loop as written over the visible keys, with the given failing cursor step |
| `TransactionalBackend.TransactionBegin` | GitIncrementalStore/lmdb_transactional_backend.cc:195-208 | a failed begin returns GIT_ERROR and changes nothing; a begin while an outer transaction is active does not return (it waits on the writer lock the outer transaction holds); otherwise it returns GIT_OK with an outer transaction active that sees the durable table, and the handles unchanged |
| `TransactionalBackend.TransactionCommit` | GitIncrementalStore/lmdb_transactional_backend.cc:210-223 | the field is cleared whatever the engine says, and the engine's status is returned as is; on success the durable table becomes what the transaction saw, on failure it stays as it was; with no transaction the result is EINVAL |
| `TransactionalBackend.TransactionRollback` | GitIncrementalStore/lmdb_transactional_backend.cc:225-238 | always GIT_OK; the field is cleared and the durable table is unchanged |
| `TransactionalBackend.Construct` | GitIncrementalStore/lmdb_transactional_backend.cc:137-165 | a new backend has no outer transaction, holds the file's records, and has `dbi != 0` exactly when setup succeeded |
| `TransactionalBackend.Destroy` | GitIncrementalStore/lmdb_transactional_backend.cc:167-172 | teardown aborts the outer transaction and nulls every handle; durable records stay |
| `TransactionalBackend.DestroyIdempotent` | GitIncrementalStore/lmdb_transactional_backend.cc:167-172 | running the destructor twice gives the state of running it once |
| `TransactionalBackend.AddTransactionalBackend` | GitIncrementalStore/lmdb_transactional_backend.cc:175-190 | GIT_OK and a registered backend exactly when setup succeeded and the dispatcher accepted it; GIT_ERROR and nothing registered otherwise, including when `dbi == 0` |
| `TransactionalProperties.ReadAfterWrite` | GitIncrementalStore/lmdb_transactional_backend.cc:27-73 | after a successful write, reading the returned id gives back the payload, its length and the type |
| `TransactionalProperties.ReadHeaderMatchesRead` | GitIncrementalStore/lmdb_transactional_backend.cc:84-91 | read_header reports the same code, length and type as read on the same key and state |
| `TransactionalProperties.DuplicateWriteChangesNothing` | GitIncrementalStore/lmdb_transactional_backend.cc:29-47 | writing the same object twice gives the same id and leaves the visible records as the first write left them |
| `TransactionalProperties.ChildWriteVisibleNotDurable` | GitIncrementalStore/lmdb_transactional_backend.cc:35-46 | inside an outer transaction, a committed child write can be read back but the durable table is unchanged |
| `TransactionalProperties.WriteAll` | GitIncrementalStore/lmdb_transactional_backend.cc:27-47 | a run of writes keeps the backend valid and does not start or end an outer transaction |
| `TransactionalProperties.WriteAllEffect` | GitIncrementalStore/lmdb_transactional_backend.cc:35-46 | the writes of a run that succeed land in the outer transaction when one is active, otherwise in the durable table; failed writes leave no trace |
| `TransactionalProperties.RolledBackRunLeavesNoTrace` | GitIncrementalStore/lmdb_transactional_backend.cc:225-238 | begin, writes, rollback: during the transaction the writes are visible but not durable; afterwards the durable table is what it was before begin |
| `TransactionalProperties.CommittedRunIsDurable` | GitIncrementalStore/lmdb_transactional_backend.cc:210-223 | begin, writes, successful commit: the durable table equals the one the same writes would give without an outer transaction |
| `TransactionalProperties.FailedCommitLosesRun` | GitIncrementalStore/lmdb_transactional_backend.cc:219-222 | begin, writes, failed commit: the engine's status is returned, no write is durable, and the field is cleared |
| `TransactionalProperties.HelloScenario` | GitIncrementalStore/lmdb_transactional_backend.cc:27-132 | the blob "hello" writes, reports header (5, blob), reads back as itself, and `exists` gives -1 for it and 0 for the all-zero id |
| `TransactionalProperties.ForeachVisitsEveryRecord` | GitIncrementalStore/lmdb_transactional_backend.cc:98-117 | when no cursor step fails, a foreach whose callback accepts everything shows each visible record once, in cursor order, and returns GIT_OK |
| `TransactionalProperties.ForeachHidesCursorFailure` | GitIncrementalStore/lmdb_transactional_backend.cc:109-116 | when a cursor step fails partway, foreach returns GIT_OK having shown fewer records than are visible |
| `PlainBackend.Write` | GitIncrementalStore/lmdb_odb_backend.cc:27-44 | the id is `hash(data, length, type)`; GIT_OK exactly when begin, put and commit succeed, and then the durable table gains `payload ++ [type]` under the id; otherwise it is unchanged |
| `PlainBackend.WriteAsWritten` | GitIncrementalStore/lmdb_odb_backend.cc:34-37 | the write as written has undefined behaviour exactly when `mdb_txn_begin` fails, and otherwise behaves like the corrected write |
| `PlainBackend.BeginFailureIsUndetected` | GitIncrementalStore/lmdb_odb_backend.cc:35-36 | when begin fails, the corrected write returns a clean GIT_ERROR while the write as written is undefined |
| `PlainBackend.Read` | GitIncrementalStore/lmdb_odb_backend.cc:46-70 | GIT_OK, GIT_ENOTFOUND or GIT_ERROR exactly by engine failure and key presence; on GIT_OK the object is what the suffix-layout value decodes to, and its type fits the tag; the backend is unchanged |
| `PlainBackend.Exists` | GitIncrementalStore/lmdb_odb_backend.cc:94-107 | 0 exactly when the lookup runs and reports not-found, otherwise -1; the backend is unchanged |
| `PlainBackend.Foreach` | GitIncrementalStore/lmdb_odb_backend.cc:73-92 | a failed begin or cursor open gives GIT_ERROR; a failed cursor open leaves one transaction unreleased; otherwise the result is the cursor loop as written over the committed keys, with the given failing cursor step |
| `PlainBackend.Construct` | GitIncrementalStore/lmdb_odb_backend.cc:110-138 | a new backend holds the file's records and has `dbi != 0` exactly when setup succeeded |
| `PlainBackend.Destroy` | GitIncrementalStore/lmdb_odb_backend.cc:140-144 | teardown leaves `dbi == 0` and a null environment, and keeps the records |
| `PlainBackend.DestroyIdempotent` | GitIncrementalStore/lmdb_odb_backend.cc:140-144 | running the destructor twice gives the state of running it once |
| `PlainBackend.RegisterBackend` | GitIncrementalStore/lmdb_odb_backend.cc:147-162 | GIT_OK and a registered backend exactly when setup succeeded and the dispatcher accepted it; GIT_ERROR and nothing registered when `dbi == 0` |
| `PlainBackend.ReadAfterWrite` | GitIncrementalStore/lmdb_odb_backend.cc:27-70 | after a successful plain write, reading the id gives back the payload, its length and the type |

## Left out

- LMDB internals are not modelled: the memory map, the B+tree, MVCC readers, `MDB_RESERVE` memory, `MDB_NOSUBDIR` and the file mode 0664. The map size `1 << 61` (one eighth of a 64-bit address space) is a configuration value, and `mdb_env_set_mapsize`'s ignored result plays no part.
- `git_odb_hash` (SHA-1 over the object header and payload) is a function parameter. Whether it is free of collisions is not modelled.
- libgit2 dispatcher plumbing is not modelled: `git_repository_odb`, `git_odb_free`, `git_odb_backend_malloc` and the `std::unique_ptr` ownership. The coordinator functions look up the backend with `git_odb_get_backend(…, 0)`. The model assumes this returns the LMDB backend, which was registered at priority 100. `git_odb_add_backend`'s verdict is the `added` parameter.
- Allocation failure is not modelled. `git_odb_backend_malloc`'s result is not checked in the source, and the model assumes the allocation succeeds.
- Concurrency between readers and the single writer is not modelled; the engine's locking provides it.
- The log line to `std::cerr` in the constructor is left out.
- The MessagePack serialiser and the Core Data store (`MsgPackSerialization.h`, `GitIncrementalStore.h`) are declarations only, so they are left out. The two backend headers are prototypes only. The plain backend's begin/commit/rollback declared in `lmdb_odb_backend.h:12-14` have no definitions.
- Stored values of size 0 are excluded by `Valid`. Neither backend writes one. A file holding one would make read compute `size - 1` with `size_t` wrap-around.
- `length + 1` could wrap around `size_t` for a payload of `SIZE_MAX` bytes. Payloads are unbounded sequences here.
- The type tag is modelled as a signed `char`, as on Apple's platforms. Out-of-range types are narrowed modulo 256.
- Leaked transactions are recorded only as a count (`Handles.dangling`). This covers the foreach cursor-open failure and a failed `mdb_dbi_open` during setup. LMDB may later refuse to begin a transaction because of such a leak. The model covers that only as the `beginOk = false` outcome, which is always possible.
- A failed child commit is modelled as discarding only the child. LMDB may also mark the parent transaction as failed.
- Reads inside an outer transaction use a write-capable child transaction. They never write, so the model opens and aborts an empty overlay for them.

- TransactionalBackend.TransactionBegin: a begin while an outer transaction is active is modelled only as not returning. The code does not check for one (`lmdb_transactional_backend.cc:204`), and what LMDB's writer lock does when the thread that holds it asks again is outside the model.
- Foreach in both backends models the loop as written, so a failing cursor step ends it with GIT_OK (see Findings); `Cursor.ScanChecked` is the corrected loop, and the backends do not use it.

Behaviour of the code worth knowing:

- Commit with no active transaction passes a null handle to `mdb_txn_commit`, which returns EINVAL; the model returns that (`lmdb_transactional_backend.cc:219`).
- `exists` returns -1 (GIT_ERROR) for a failed begin and also -1 for a key that is present or a failed `mdb_get`, so its result does not tell an engine failure from a found key (`lmdb_transactional_backend.cc:122-131`).

## Findings

| source | as written | input that shows it | evidently intended | confidence | as-written member | corrected member |
|---|---|---|---|---|---|---|
| GitIncrementalStore/lmdb_odb_backend.cc:35-36 | the status of `mdb_txn_begin` is stored in `rc` and overwritten by `mdb_put`'s before it is checked, so a failed begin goes unnoticed and `mdb_put` gets a transaction handle that was never set | any call where `mdb_txn_begin` fails (`BeginFailureIsUndetected`, with `beginOk = false`) | return GIT_ERROR without touching the engine, as the transactional variant does at lmdb_transactional_backend.cc:36-37 | high; not executed | `PlainBackend.WriteAsWritten` | `PlainBackend.Write` |
| GitIncrementalStore/lmdb_transactional_backend.cc:109-116 | the cursor loop runs while `mdb_cursor_get` returns 0 and then returns GIT_OK, so an engine error from a cursor step (not only MDB_NOTFOUND at the end) ends the enumeration with GIT_OK; lmdb_odb_backend.cc:84-91 is the same | three keys, a callback that accepts everything, and a failing second step (`CursorFailureReportsOk`, `ForeachHidesCursorFailure`) | return GIT_OK only when the loop ended with MDB_NOTFOUND, and GIT_ERROR for any other status | medium; not executed | `Cursor.ScanFrom` | `Cursor.ScanChecked` |
