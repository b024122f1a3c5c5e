/** The plain backend: suffix-tag layout and record operations that each
    run in their own top-level transaction; it has no outer transaction. */
module PlainBackend {
  import opened Codes
  import opened Options
  import opened Bytes
  import opened Layout
  import opened Lmdb
  import opened Cursor
  import opened Environment

  /** The backend: its handles and the table committed in its file. */
  datatype Backend = Backend(handles: Handles, table: Table)

  /** Every stored value holds at least its tag byte. */
  predicate Valid(b: Backend) {
    NonEmptyValues(b.table)
  }

  datatype Written = Written(oid: Oid, rc: int, backend: Backend)

  /** `lmdb_backend_write` with the failed `mdb_txn_begin` reported as
      GIT_ERROR: the record `payload ++ [type]` is reserved, filled and
      committed in an independent top-level transaction. */
  function Write(b: Backend, hash: Hasher, data: seq<byte>, otype: int,
                 beginOk: bool, putOk: bool, commitOk: bool): (w: Written)
    requires Valid(b)
    ensures w.oid == hash(data, |data|, otype)
    ensures w.rc == GIT_OK || w.rc == GIT_ERROR
    ensures w.rc == GIT_OK <==> beginOk && putOk && commitOk
    ensures w.rc == GIT_ERROR ==> w.backend == b
    ensures w.rc == GIT_OK ==> w.backend.table == b.table[w.oid := SuffixEncode(data, otype)]
    ensures w.backend.handles == b.handles && Valid(w.backend)
  {
    var oid := hash(data, |data|, otype);
    var value := SuffixEncode(data, otype);
    var e := Engine(b.table, []);
    AbortAfterBegin(e);
    AbortDiscards(e, oid, value);
    CommitChildWrite(e, oid, value);
    if !beginOk then Written(oid, GIT_ERROR, b)
    else
      var txn := Begin(e);
      if !putOk then Written(oid, GIT_ERROR, b.(table := Abort(txn).durable))
      else
        var filled := Put(txn, oid, value);
        if !commitOk then Written(oid, GIT_ERROR, b.(table := Abort(filled).durable))
        else Written(oid, GIT_OK, b.(table := Commit(filled).durable))
  }

  /** What a call of the write as it stands can do: a defined result, or
      undefined behaviour. */
  datatype Behaviour = Defined(w: Written) | Undefined

  /** `lmdb_backend_write` as it stands: the status of `mdb_txn_begin` is
      stored and then overwritten by the status of `mdb_put`, so a begin
      that fails hands `mdb_put` a transaction handle that was never set. */
  function WriteAsWritten(b: Backend, hash: Hasher, data: seq<byte>, otype: int,
                          beginOk: bool, putOk: bool, commitOk: bool): (r: Behaviour)
    requires Valid(b)
    ensures r.Undefined? <==> !beginOk
    ensures r.Defined? ==> r.w == Write(b, hash, data, otype, beginOk, putOk, commitOk)
  {
    if !beginOk then Undefined
    else Defined(Write(b, hash, data, otype, beginOk, putOk, commitOk))
  }

  /** A failed `mdb_txn_begin` is a clean GIT_ERROR for the corrected write
      but undefined behaviour for the write as it stands. */
  lemma BeginFailureIsUndetected(b: Backend, hash: Hasher, data: seq<byte>, otype: int)
    requires Valid(b)
    ensures WriteAsWritten(b, hash, data, otype, false, true, true) == Undefined
    ensures Write(b, hash, data, otype, false, true, true) == Written(hash(data, |data|, otype), GIT_ERROR, b)
  {
  }

  datatype Fetched = Fetched(rc: int, obj: Option<Object>, backend: Backend)

  /** `lmdb_backend_read`: look the id up in a read-only transaction, take
      the type from the last byte and the payload from the bytes before it,
      and abort the transaction on every path. */
  function Read(b: Backend, oid: Oid, beginOk: bool, getFails: bool): (f: Fetched)
    requires Valid(b)
    ensures f.backend == b
    ensures f.rc == GIT_OK <==> beginOk && !getFails && oid in b.table
    ensures f.rc == GIT_ENOTFOUND <==> beginOk && !getFails && oid !in b.table
    ensures f.rc == GIT_ERROR <==> !beginOk || getFails
    ensures f.obj.Some? <==> f.rc == GIT_OK
    ensures f.obj.Some? ==>
      && Consistent(f.obj.value)
      && FitsTag(f.obj.value.otype)
      && SuffixEncode(f.obj.value.data, f.obj.value.otype) == b.table[oid]
  {
    if !beginOk then Fetched(GIT_ERROR, None, b)
    else if getFails then Fetched(GIT_ERROR, None, b)
    else if oid !in b.table then Fetched(GIT_ENOTFOUND, None, b)
    else
      SuffixCanonical(b.table[oid]);
      Fetched(GIT_OK, Some(SuffixDecode(b.table[oid])), b)
  }

  datatype Probed = Probed(rc: int, backend: Backend)

  /** `lmdb_backend_exists`: 0 when the lookup reports "not found", -1
      otherwise; the read-only transaction is always aborted. */
  function Exists(b: Backend, oid: Oid, beginOk: bool, getFails: bool): (p: Probed)
    ensures p.backend == b
    ensures p.rc == 0 || p.rc == -1
    ensures p.rc == 0 <==> beginOk && !getFails && oid !in b.table
  {
    if !beginOk then Probed(GIT_ERROR, b)
    else
      var result := if getFails then GIT_ERROR
                    else if oid in b.table then MDB_SUCCESS
                    else MDB_NOTFOUND;
      Probed(if result == MDB_NOTFOUND then 0 else -1, b)
  }

  datatype Iterated = Iterated(rc: int, visited: seq<Oid>, backend: Backend)

  /** `lmdb_backend_foreach`: the same cursor loop over the committed
      table; a cursor that cannot be opened leaves its read-only
      transaction unreleased. `cursorFailsAt` is the `MDB_NEXT` call that
      fails, if any (see `Cursor.ScanFrom`). */
  function Foreach(b: Backend, cb: Visitor, beginOk: bool, cursorOk: bool, cursorFailsAt: nat): (it: Iterated)
    ensures it.backend.table == b.table
    ensures it.backend.handles.env == b.handles.env && it.backend.handles.dbi == b.handles.dbi
    ensures it.backend.handles.dangling == b.handles.dangling + (if beginOk && !cursorOk then 1 else 0)
    ensures !(beginOk && cursorOk) ==> it.rc == GIT_ERROR && it.visited == []
    ensures beginOk && cursorOk ==>
      Scanned(it.rc, it.visited) == ScanFrom(CursorOrder(b.table.Keys), cb, cursorFailsAt, 0)
  {
    if !beginOk then Iterated(GIT_ERROR, [], b)
    else if !cursorOk then
      Iterated(GIT_ERROR, [], b.(handles := b.handles.(dangling := b.handles.dangling + 1)))
    else
      var s := ScanFrom(CursorOrder(b.table.Keys), cb, cursorFailsAt, 0);
      Iterated(s.rc, s.visited, b)
  }

  /** The constructor over a file that already holds `existing`. */
  function Construct(existing: Table, s: SetupReplies): (b: Backend)
    requires NonEmptyValues(existing)
    ensures Valid(b) && b.table == existing
    ensures b.handles.dbi != 0 <==> AllSucceed(s)
  {
    Backend(Setup(s), existing)
  }

  /** The destructor: close the table, then the environment. */
  function Destroy(b: Backend): (b': Backend)
    ensures b'.handles.env == NullEnv && b'.handles.dbi == 0
    ensures b'.handles.dangling == b.handles.dangling && b'.table == b.table
  {
    b.(handles := Close(b.handles))
  }

  lemma DestroyIdempotent(b: Backend)
    ensures Destroy(Destroy(b)) == Destroy(b)
  {
    CloseIdempotent(b.handles);
  }

  datatype Registered = Registered(rc: int, backend: Option<Backend>)

  /** `git_odb_backend_lmdb`: construct, refuse a backend left with
      `dbi == 0`, otherwise hand it to the dispatcher. */
  function RegisterBackend(existing: Table, s: SetupReplies, added: bool): (r: Registered)
    requires NonEmptyValues(existing)
    ensures r.rc == GIT_OK || r.rc == GIT_ERROR
    ensures r.rc == GIT_OK <==> AllSucceed(s) && added
    ensures r.backend.Some? <==> r.rc == GIT_OK
    ensures r.backend.Some? ==>
      && Valid(r.backend.value)
      && r.backend.value.handles.env == LiveEnv && r.backend.value.handles.dbi != 0
      && r.backend.value.table == existing
  {
    var b := Construct(existing, s);
    var rc := Admit(b.handles, added);
    Registered(rc, if rc == GIT_OK then Some(b) else None)
  }

  /** A successful write reads back as the payload, its length and its type. */
  lemma ReadAfterWrite(b: Backend, hash: Hasher, data: seq<byte>, otype: int)
    requires Valid(b) && FitsTag(otype)
    ensures
      var w := Write(b, hash, data, otype, true, true, true);
      && w.rc == GIT_OK
      && Read(w.backend, w.oid, true, false) == Fetched(GIT_OK, Some(Object(data, |data|, otype)), w.backend)
  {
    var w := Write(b, hash, data, otype, true, true, true);
    var f := Read(w.backend, w.oid, true, false);
    SuffixRoundTrip(data, otype);
    assert f.obj.value.data == data by {
      assert SuffixEncode(f.obj.value.data, f.obj.value.otype) == SuffixEncode(data, otype);
      assert f.obj.value.data == SuffixEncode(data, otype)[..|data|];
    }
    assert f.obj.value.otype == otype by {
      TagRoundTrip(otype);
      TagRoundTrip(f.obj.value.otype);
    }
  }
}
