/** The transactional backend: prefix-tag layout, record operations that
    nest inside an optional outer transaction, and the begin / commit /
    rollback coordinator that owns that outer transaction. */
module TransactionalBackend {
  import opened Codes
  import opened Options
  import opened Bytes
  import opened Layout
  import opened Lmdb
  import opened Cursor
  import opened Environment

  /** The backend: its handles and the engine state behind them. The `txn`
      field is the engine's open transaction between calls, if any. */
  datatype Backend = Backend(handles: Handles, engine: Engine)

  /** The backend's `txn` field is non-null. */
  predicate InTransaction(b: Backend) {
    |b.engine.open| > 0
  }

  /** Between calls, at most the outer transaction is open, and every
      stored value holds at least its tag byte. */
  predicate Valid(b: Backend) {
    |b.engine.open| <= 1 && WellFormed(b.engine)
  }

  /** The records a call on this backend sees: the durable table overlaid
      with the outer transaction's writes. */
  function Visible(b: Backend): Table {
    View(b.engine)
  }

  /** The records a call sees when the backend is between calls: the
      durable table when no transaction is active, and that table with the
      outer transaction's writes over it when one is. */
  lemma VisibleBetweenCalls(b: Backend)
    requires Valid(b)
    ensures !InTransaction(b) ==> Visible(b) == b.engine.durable
    ensures InTransaction(b) ==> Visible(b) == b.engine.durable + b.engine.open[0]
  {
    if InTransaction(b) {
      FlattenSnoc(b.engine.durable, [], b.engine.open[0]);
      assert b.engine.open == [] + [b.engine.open[0]];
    }
  }

  // ---------------------------------------------------------------------
  // Record operations
  // ---------------------------------------------------------------------

  datatype Written = Written(oid: Oid, rc: int, backend: Backend)

  /** `lmdb_backend_write`: the id is computed and handed back before the
      engine is touched; the record `[type] ++ payload` is reserved and
      filled in a transaction that is a child of the outer one when it is
      active, and committed. Any failed step leaves the backend unchanged. */
  function Write(b: Backend, hash: Hasher, data: seq<byte>, otype: int,
                 beginOk: bool, putOk: bool, commitOk: bool): (w: Written)
    requires Valid(b)
    ensures w.oid == hash(data, |data|, otype)
    ensures w.rc == GIT_OK || w.rc == GIT_ERROR
    ensures w.rc == GIT_OK <==> beginOk && putOk && commitOk
    ensures w.rc == GIT_ERROR ==> w.backend == b
    ensures w.rc == GIT_OK ==> Visible(w.backend) == Visible(b)[w.oid := PrefixEncode(data, otype)]
    ensures w.rc == GIT_OK && InTransaction(b) ==>
      w.backend.engine == Engine(b.engine.durable, [b.engine.open[0][w.oid := PrefixEncode(data, otype)]])
    ensures w.rc == GIT_OK && !InTransaction(b) ==>
      w.backend.engine == Engine(b.engine.durable[w.oid := PrefixEncode(data, otype)], [])
    ensures w.backend.handles == b.handles && Valid(w.backend)
  {
    var oid := hash(data, |data|, otype);
    var value := PrefixEncode(data, otype);
    AbortAfterBegin(b.engine);
    AbortDiscards(b.engine, oid, value);
    if !beginOk then Written(oid, GIT_ERROR, b)
    else
      var txn := Begin(b.engine);
      if !putOk then Written(oid, GIT_ERROR, b.(engine := Abort(txn)))
      else
        var filled := Put(txn, oid, value);
        if !commitOk then Written(oid, GIT_ERROR, b.(engine := Abort(filled)))
        else
          CommitChildWrite(b.engine, oid, value);
          Written(oid, GIT_OK, b.(engine := Commit(filled)))
  }

  datatype Fetched = Fetched(rc: int, obj: Option<Object>, backend: Backend)

  /** `lmdb_backend_read`: look the id up in a child (or read-only)
      transaction, split the value into tag and payload, and abort the
      transaction on every path. `getFails` is an engine failure of
      `mdb_get` other than "not found". */
  function Read(b: Backend, oid: Oid, beginOk: bool, getFails: bool): (f: Fetched)
    requires Valid(b)
    ensures f.backend == b
    ensures f.rc == GIT_OK <==> beginOk && !getFails && oid in Visible(b)
    ensures f.rc == GIT_ENOTFOUND <==> beginOk && !getFails && oid !in Visible(b)
    ensures f.rc == GIT_ERROR <==> !beginOk || getFails
    ensures f.obj.Some? <==> f.rc == GIT_OK
    ensures f.obj.Some? ==>
      && Consistent(f.obj.value)
      && FitsTag(f.obj.value.otype)
      && PrefixEncode(f.obj.value.data, f.obj.value.otype) == Visible(b)[oid]
  {
    if !beginOk then Fetched(GIT_ERROR, None, b)
    else
      var txn := Begin(b.engine);
      var view := View(txn);
      AbortAfterBegin(b.engine);
      if getFails then Fetched(GIT_ERROR, None, b.(engine := Abort(txn)))
      else if oid !in view then Fetched(GIT_ENOTFOUND, None, b.(engine := Abort(txn)))
      else
        ViewNonEmpty(txn);
        PrefixCanonical(view[oid]);
        Fetched(GIT_OK, Some(PrefixDecode(view[oid])), b.(engine := Abort(txn)))
  }

  /** What `read_header` reports: length and type, no payload. */
  datatype Header = Header(length: nat, otype: int)

  datatype HeaderFetched = HeaderFetched(rc: int, header: Option<Header>, backend: Backend)

  /** `lmdb_backend_read_header`: as `Read`, but only the length and type
      are taken from the value. */
  function ReadHeader(b: Backend, oid: Oid, beginOk: bool, getFails: bool): (f: HeaderFetched)
    requires Valid(b)
    ensures f.backend == b
    ensures f.rc == GIT_OK <==> beginOk && !getFails && oid in Visible(b)
    ensures f.rc == GIT_ENOTFOUND <==> beginOk && !getFails && oid !in Visible(b)
    ensures f.rc == GIT_ERROR <==> !beginOk || getFails
    ensures f.header.Some? <==> f.rc == GIT_OK
    ensures f.header.Some? ==>
      && f.header.value.length + 1 == |Visible(b)[oid]|
      && f.header.value.otype == TagType(Visible(b)[oid][0])
  {
    if !beginOk then HeaderFetched(GIT_ERROR, None, b)
    else
      var txn := Begin(b.engine);
      var view := View(txn);
      AbortAfterBegin(b.engine);
      if getFails then HeaderFetched(GIT_ERROR, None, b.(engine := Abort(txn)))
      else if oid !in view then HeaderFetched(GIT_ENOTFOUND, None, b.(engine := Abort(txn)))
      else
        var value := view[oid];
        ViewNonEmpty(txn);
        TagCanonical(value[0]);
        HeaderFetched(GIT_OK, Some(Header(|value| - 1, TagType(value[0]))), b.(engine := Abort(txn)))
  }

  datatype Probed = Probed(rc: int, backend: Backend)

  /** `lmdb_backend_exists`: 0 when the lookup reports "not found" and -1
      otherwise (found, engine failure, or a transaction that would not
      begin, which returns GIT_ERROR, also -1). The transaction is always aborted. */
  function Exists(b: Backend, oid: Oid, beginOk: bool, getFails: bool): (p: Probed)
    requires Valid(b)
    ensures p.backend == b
    ensures p.rc == 0 || p.rc == -1
    ensures p.rc == 0 <==> beginOk && !getFails && oid !in Visible(b)
  {
    if !beginOk then Probed(GIT_ERROR, b)
    else
      var txn := Begin(b.engine);
      var result := if getFails then GIT_ERROR
                    else if oid in View(txn) then MDB_SUCCESS
                    else MDB_NOTFOUND;
      AbortAfterBegin(b.engine);
      Probed(if result == MDB_NOTFOUND then 0 else -1, b.(engine := Abort(txn)))
  }

  datatype Iterated = Iterated(rc: int, visited: seq<Oid>, backend: Backend)

  /** `lmdb_backend_foreach`: walk a cursor over every key the transaction
      sees. When the cursor cannot be opened the call reports GIT_ERROR
      without releasing its transaction. `cursorFailsAt` is the `MDB_NEXT`
      call that fails, if any (see `Cursor.ScanFrom`). */
  function Foreach(b: Backend, cb: Visitor, beginOk: bool, cursorOk: bool, cursorFailsAt: nat): (it: Iterated)
    requires Valid(b)
    ensures it.backend.engine == b.engine
    ensures it.backend.handles.env == b.handles.env && it.backend.handles.dbi == b.handles.dbi
    ensures it.backend.handles.dangling == b.handles.dangling + (if beginOk && !cursorOk then 1 else 0)
    ensures !(beginOk && cursorOk) ==> it.rc == GIT_ERROR && it.visited == []
    ensures beginOk && cursorOk ==>
      Scanned(it.rc, it.visited) == ScanFrom(CursorOrder(Visible(b).Keys), cb, cursorFailsAt, 0)
  {
    if !beginOk then Iterated(GIT_ERROR, [], b)
    else
      var txn := Begin(b.engine);
      if !cursorOk then
        Iterated(GIT_ERROR, [], b.(handles := b.handles.(dangling := b.handles.dangling + 1)))
      else
        var s := ScanFrom(CursorOrder(View(txn).Keys), cb, cursorFailsAt, 0);
        AbortAfterBegin(b.engine);
        Iterated(s.rc, s.visited, b.(engine := Abort(txn)))
  }

  // ---------------------------------------------------------------------
  // Transaction coordinator
  // ---------------------------------------------------------------------

  datatype Coordinated = Coordinated(rc: int, backend: Backend)

  /** What a call of `git_odb_transaction_begin` comes to: it returns, or
      it waits forever on the engine's writer lock. */
  datatype Began = Returned(c: Coordinated) | Blocked

  /** `git_odb_transaction_begin`: open a top-level write transaction and
      store it in the `txn` field. Nothing checks for an outer transaction
      that is already active; the engine allows one write transaction at a
      time, so a second top-level begin from the thread holding the first
      waits on the writer lock and never returns. It can only fail early,
      or block. */
  function TransactionBegin(b: Backend, beginOk: bool): (r: Began)
    requires Valid(b)
    ensures r.Blocked? <==> beginOk && InTransaction(b)
    ensures !beginOk ==> r == Returned(Coordinated(GIT_ERROR, b))
    ensures beginOk && !InTransaction(b) ==>
      && r.Returned? && r.c.rc == GIT_OK
      && InTransaction(r.c.backend)
      && r.c.backend.engine.durable == b.engine.durable
      && Visible(r.c.backend) == b.engine.durable
      && r.c.backend.handles == b.handles
    ensures r.Returned? ==> Valid(r.c.backend)
  {
    if !beginOk then Returned(Coordinated(GIT_ERROR, b))
    else if InTransaction(b) then Blocked
    else Returned(Coordinated(GIT_OK, b.(engine := Begin(b.engine))))
  }

  /** `git_odb_transaction_commit`: commit whatever the `txn` field holds,
      clear the field whatever the engine said, and return the engine's
      status as is. Committing a null transaction is refused by the engine with EINVAL. */
  function TransactionCommit(b: Backend, status: int): (c: Coordinated)
    requires Valid(b)
    ensures !InTransaction(c.backend) && Valid(c.backend)
    ensures c.backend.handles == b.handles
    ensures !InTransaction(b) ==> c == Coordinated(EINVAL, b)
    ensures InTransaction(b) ==> c.rc == status
    ensures InTransaction(b) && status == MDB_SUCCESS ==> c.backend.engine.durable == Visible(b)
    ensures InTransaction(b) && status != MDB_SUCCESS ==> c.backend.engine.durable == b.engine.durable
  {
    if !InTransaction(b) then Coordinated(EINVAL, b)
    else if status == MDB_SUCCESS then Coordinated(status, b.(engine := Commit(b.engine)))
    else Coordinated(status, b.(engine := Abort(b.engine)))
  }

  /** `git_odb_transaction_rollback`: abort whatever the `txn` field holds
      (nothing, when it is null), clear it, and report success. */
  function TransactionRollback(b: Backend): (c: Coordinated)
    requires Valid(b)
    ensures c.rc == GIT_OK
    ensures !InTransaction(c.backend) && Valid(c.backend)
    ensures c.backend.handles == b.handles
    ensures c.backend.engine.durable == b.engine.durable
  {
    if !InTransaction(b) then Coordinated(GIT_OK, b)
    else Coordinated(GIT_OK, b.(engine := Abort(b.engine)))
  }

  // ---------------------------------------------------------------------
  // Lifecycle
  // ---------------------------------------------------------------------

  /** The constructor over an environment whose file already holds `existing`. */
  function Construct(existing: Table, s: SetupReplies): (b: Backend)
    requires NonEmptyValues(existing)
    ensures Valid(b) && !InTransaction(b) && b.engine.durable == existing
    ensures b.handles.dbi != 0 <==> AllSucceed(s)
  {
    Backend(Setup(s), Engine(existing, []))
  }

  /** The destructor: abort the outer transaction, then close the table and
      the environment. Pending outer writes are lost; durable ones stay. */
  function Destroy(b: Backend): (b': Backend)
    ensures b'.handles.env == NullEnv && b'.handles.dbi == 0
    ensures b'.handles.dangling == b.handles.dangling
    ensures !InTransaction(b') && b'.engine.durable == b.engine.durable
    ensures Valid(b) ==> Valid(b')
  {
    Backend(Close(b.handles), Engine(b.engine.durable, []))
  }

  /** Running the destructor twice leaves the state it leaves after once. */
  lemma DestroyIdempotent(b: Backend)
    ensures Destroy(Destroy(b)) == Destroy(b)
  {
    CloseIdempotent(b.handles);
  }

  datatype Registered = Registered(rc: int, backend: Option<Backend>)

  /** `git_odb_add_transactional_backend`: construct, refuse a backend left
      with `dbi == 0`, and otherwise hand it to the dispatcher (`added`
      says whether `git_odb_add_backend` accepted it). */
  function AddTransactionalBackend(existing: Table, s: SetupReplies, added: bool): (r: Registered)
    requires NonEmptyValues(existing)
    ensures r.rc == GIT_OK || r.rc == GIT_ERROR
    ensures r.rc == GIT_OK <==> AllSucceed(s) && added
    ensures r.backend.Some? <==> r.rc == GIT_OK
    ensures r.backend.Some? ==>
      && Valid(r.backend.value) && !InTransaction(r.backend.value)
      && r.backend.value.handles.env == LiveEnv && r.backend.value.handles.dbi != 0
      && r.backend.value.engine.durable == existing
  {
    var b := Construct(existing, s);
    var rc := Admit(b.handles, added);
    Registered(rc, if rc == GIT_OK then Some(b) else None)
  }
}
