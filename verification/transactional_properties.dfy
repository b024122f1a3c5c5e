/** What the transactional backend's operations guarantee together: reads
    give back what writes stored, headers agree with reads, and the outer
    transaction makes a run of writes visible at once, durable on commit and
    gone on rollback. */
module TransactionalProperties {
  import opened Codes
  import opened Options
  import opened Bytes
  import opened Layout
  import opened Lmdb
  import opened Cursor
  import opened TransactionalBackend

  /** A successful write is read back as the payload, its length and its
      type, whether or not an outer transaction is active. */
  lemma ReadAfterWrite(b: Backend, hash: Hasher, data: seq<byte>, otype: int)
    requires Valid(b) && FitsTag(otype)
    ensures
      var w := Write(b, hash, data, otype, true, true, true);
      && w.rc == GIT_OK
      && Read(w.backend, w.oid, true, false) == Fetched(GIT_OK, Some(Object(data, |data|, otype)), w.backend)
  {
    var w := Write(b, hash, data, otype, true, true, true);
    var f := Read(w.backend, w.oid, true, false);
    PrefixRoundTrip(data, otype);
    assert f.obj.value.data == data by {
      assert PrefixEncode(f.obj.value.data, f.obj.value.otype) == PrefixEncode(data, otype);
    }
    assert f.obj.value.otype == otype by {
      TagRoundTrip(otype);
      TagRoundTrip(f.obj.value.otype);
    }
  }

  /** `read_header` reports the same outcome, length and type as `read` on
      the same key and state, without a payload. */
  lemma ReadHeaderMatchesRead(b: Backend, oid: Oid, beginOk: bool, getFails: bool)
    requires Valid(b)
    ensures ReadHeader(b, oid, beginOk, getFails).rc == Read(b, oid, beginOk, getFails).rc
    ensures
      var f := Read(b, oid, beginOk, getFails);
      ReadHeader(b, oid, beginOk, getFails).header ==
        if f.obj.Some? then Some(Header(f.obj.value.length, f.obj.value.otype)) else None
  {
    var f := Read(b, oid, beginOk, getFails);
    var h := ReadHeader(b, oid, beginOk, getFails);
    if f.obj.Some? {
      var v := Visible(b)[oid];
      assert PrefixEncode(f.obj.value.data, f.obj.value.otype) == v;
      TagCanonical(v[0]);
      TagRoundTrip(f.obj.value.otype);
      TagRoundTrip(h.header.value.otype);
    }
  }

  /** Writing the same object twice yields the same id both times and
      leaves the records as the first write left them. */
  lemma DuplicateWriteChangesNothing(b: Backend, hash: Hasher, data: seq<byte>, otype: int)
    requires Valid(b)
    ensures
      var w1 := Write(b, hash, data, otype, true, true, true);
      var w2 := Write(w1.backend, hash, data, otype, true, true, true);
      w2.oid == w1.oid && Visible(w2.backend) == Visible(w1.backend)
  {
    var w1 := Write(b, hash, data, otype, true, true, true);
    var w2 := Write(w1.backend, hash, data, otype, true, true, true);
    var v := PrefixEncode(data, otype);
    assert Visible(w1.backend) == Visible(b)[w1.oid := v];
    assert Visible(w2.backend) == Visible(w1.backend)[w1.oid := v];
    assert Visible(b)[w1.oid := v][w1.oid := v] == Visible(b)[w1.oid := v];
  }

  /** Inside an outer transaction a committed child write is seen by later
      reads in that transaction while the durable table stays as it was. */
  lemma ChildWriteVisibleNotDurable(b: Backend, hash: Hasher, data: seq<byte>, otype: int)
    requires Valid(b) && InTransaction(b) && FitsTag(otype)
    ensures
      var w := Write(b, hash, data, otype, true, true, true);
      && w.backend.engine.durable == b.engine.durable
      && Read(w.backend, w.oid, true, false).obj == Some(Object(data, |data|, otype))
  {
    ReadAfterWrite(b, hash, data, otype);
  }

  // ---------------------------------------------------------------------
  // Runs of writes
  // ---------------------------------------------------------------------

  /** One `write` call: its arguments and how each engine call answered. */
  datatype WriteRequest = WriteRequest(data: seq<byte>, otype: int, beginOk: bool, putOk: bool, commitOk: bool)

  predicate Lands(r: WriteRequest) {
    r.beginOk && r.putOk && r.commitOk
  }

  /** The backend after a run of `write` calls. */
  function WriteAll(b: Backend, hash: Hasher, reqs: seq<WriteRequest>): (b': Backend)
    requires Valid(b)
    ensures Valid(b') && b'.handles == b.handles
    ensures InTransaction(b') == InTransaction(b)
    decreases |reqs|
  {
    if |reqs| == 0 then b
    else
      var r := reqs[0];
      WriteAll(Write(b, hash, r.data, r.otype, r.beginOk, r.putOk, r.commitOk).backend, hash, reqs[1..])
  }

  /** `t` with every write of the run that landed recorded in it, in order;
      the writes whose engine calls failed leave no trace. */
  function Apply(t: Table, hash: Hasher, reqs: seq<WriteRequest>): Table
    decreases |reqs|
  {
    if |reqs| == 0 then t
    else
      var r := reqs[0];
      var t' := if Lands(r) then t[hash(r.data, |r.data|, r.otype) := PrefixEncode(r.data, r.otype)] else t;
      Apply(t', hash, reqs[1..])
  }

  /** Recording a run on top of `o` and then laying it over `m` is
      recording the run on `m` overlaid with `o`. */
  lemma {:induction false} ApplyUnderOverlay(m: Table, o: Table, hash: Hasher, reqs: seq<WriteRequest>)
    ensures m + Apply(o, hash, reqs) == Apply(m + o, hash, reqs)
    decreases |reqs|
  {
    if |reqs| > 0 {
      var r := reqs[0];
      if Lands(r) {
        var k := hash(r.data, |r.data|, r.otype);
        var v := PrefixEncode(r.data, r.otype);
        assert m + o[k := v] == (m + o)[k := v];
        ApplyUnderOverlay(m, o[k := v], hash, reqs[1..]);
      } else {
        ApplyUnderOverlay(m, o, hash, reqs[1..]);
      }
    }
  }

  /** A run of writes lands in the outer transaction's overlay when one is
      active, and in the durable table otherwise. */
  lemma {:induction false} WriteAllEffect(b: Backend, hash: Hasher, reqs: seq<WriteRequest>)
    requires Valid(b)
    ensures InTransaction(b) ==>
      WriteAll(b, hash, reqs).engine == Engine(b.engine.durable, [Apply(b.engine.open[0], hash, reqs)])
    ensures !InTransaction(b) ==>
      WriteAll(b, hash, reqs).engine == Engine(Apply(b.engine.durable, hash, reqs), [])
    decreases |reqs|
  {
    if |reqs| > 0 {
      var r := reqs[0];
      var w := Write(b, hash, r.data, r.otype, r.beginOk, r.putOk, r.commitOk);
      WriteAllEffect(w.backend, hash, reqs[1..]);
    }
  }

  /** begin; writes; rollback: while the transaction is active the writes
      that landed are visible but not durable; after rollback the durable
      table is exactly what it was before begin and no transaction is active. */
  lemma RolledBackRunLeavesNoTrace(b: Backend, hash: Hasher, reqs: seq<WriteRequest>)
    requires Valid(b) && !InTransaction(b)
    ensures
      var inside := WriteAll(TransactionBegin(b, true).c.backend, hash, reqs);
      var after := TransactionRollback(inside);
      && inside.engine.durable == b.engine.durable
      && Visible(inside) == Apply(b.engine.durable, hash, reqs)
      && after.rc == GIT_OK
      && after.backend.engine == Engine(b.engine.durable, [])
  {
    var begun := TransactionBegin(b, true).c.backend;
    assert begun.engine.open == [map[]];
    WriteAllEffect(begun, hash, reqs);
    var inside := WriteAll(begun, hash, reqs);
    VisibleBetweenCalls(inside);
    ApplyUnderOverlay(b.engine.durable, map[], hash, reqs);
    assert b.engine.durable + map[] == b.engine.durable;
  }

  /** begin; writes; commit succeeding: the durable table ends exactly as
      if each write had been made on its own without the outer transaction. */
  lemma CommittedRunIsDurable(b: Backend, hash: Hasher, reqs: seq<WriteRequest>)
    requires Valid(b) && !InTransaction(b)
    ensures
      var inside := WriteAll(TransactionBegin(b, true).c.backend, hash, reqs);
      var after := TransactionCommit(inside, MDB_SUCCESS);
      && after.rc == MDB_SUCCESS
      && after.backend.engine == Engine(Apply(b.engine.durable, hash, reqs), [])
      && after.backend.engine == WriteAll(b, hash, reqs).engine
  {
    var begun := TransactionBegin(b, true).c.backend;
    assert begun.engine.open == [map[]];
    WriteAllEffect(begun, hash, reqs);
    WriteAllEffect(b, hash, reqs);
    var inside := WriteAll(begun, hash, reqs);
    VisibleBetweenCalls(inside);
    ApplyUnderOverlay(b.engine.durable, map[], hash, reqs);
    assert b.engine.durable + map[] == b.engine.durable;
  }

  /** begin; writes; commit failing: nothing of the run becomes durable,
      the engine's status is returned, and the field is cleared anyway. */
  lemma FailedCommitLosesRun(b: Backend, hash: Hasher, reqs: seq<WriteRequest>, status: int)
    requires Valid(b) && !InTransaction(b) && status != MDB_SUCCESS
    ensures
      var inside := WriteAll(TransactionBegin(b, true).c.backend, hash, reqs);
      var after := TransactionCommit(inside, status);
      && after.rc == status
      && after.backend.engine == Engine(b.engine.durable, [])
  {
    var begun := TransactionBegin(b, true).c.backend;
    WriteAllEffect(begun, hash, reqs);
  }

  /** The blob "hello": it is written, its header is (5, blob), it reads
      back as itself, `exists` reports it (-1), and reports the all-zero id,
      which is stored nowhere, as absent (0). */
  lemma HelloScenario(b: Backend, hash: Hasher)
    requires Valid(b)
    requires ZERO_OID !in Visible(b)
    requires hash([0x68, 0x65, 0x6c, 0x6c, 0x6f], 5, GIT_OBJ_BLOB) != ZERO_OID
    ensures
      var hello: seq<byte> := [0x68, 0x65, 0x6c, 0x6c, 0x6f];
      var w := Write(b, hash, hello, GIT_OBJ_BLOB, true, true, true);
      && w.rc == GIT_OK
      && ReadHeader(w.backend, w.oid, true, false).header == Some(Header(5, GIT_OBJ_BLOB))
      && Read(w.backend, w.oid, true, false).obj == Some(Object(hello, 5, GIT_OBJ_BLOB))
      && Exists(w.backend, w.oid, true, false).rc == -1
      && Exists(w.backend, ZERO_OID, true, false).rc == 0
  {
    var hello: seq<byte> := [0x68, 0x65, 0x6c, 0x6c, 0x6f];
    var w := Write(b, hash, hello, GIT_OBJ_BLOB, true, true, true);
    ReadAfterWrite(b, hash, hello, GIT_OBJ_BLOB);
    ReadHeaderMatchesRead(w.backend, w.oid, true, false);
  }

  /** A foreach whose callback accepts every key shows it each record the
      backend sees exactly once, in cursor order, and reports GIT_OK. */
  lemma ForeachVisitsEveryRecord(b: Backend, cb: Visitor, cursorFailsAt: nat)
    requires Valid(b)
    requires cursorFailsAt >= |Visible(b)|
    requires forall j :: 0 <= j < |Visible(b)| ==> Accepts(cb, CursorOrder(Visible(b).Keys), j)
    ensures Foreach(b, cb, true, true, cursorFailsAt).rc == GIT_OK
    ensures Foreach(b, cb, true, true, cursorFailsAt).visited == CursorOrder(Visible(b).Keys)
    ensures forall k :: k in Visible(b) <==> k in Foreach(b, cb, true, true, cursorFailsAt).visited
    ensures |Foreach(b, cb, true, true, cursorFailsAt).visited| == |Visible(b)|
  {
    ScanVisitsEveryKeyOnce(Visible(b).Keys, cb, cursorFailsAt);
  }

  /** A foreach whose cursor fails partway reports GIT_OK to a callback that
      accepted everything it saw, although some records were never shown. */
  lemma ForeachHidesCursorFailure(b: Backend, cb: Visitor, cursorFailsAt: nat)
    requires Valid(b)
    requires cursorFailsAt < |Visible(b)|
    requires forall j :: 0 <= j < cursorFailsAt ==> Accepts(cb, CursorOrder(Visible(b).Keys), j)
    ensures Foreach(b, cb, true, true, cursorFailsAt).rc == GIT_OK
    ensures |Foreach(b, cb, true, true, cursorFailsAt).visited| == cursorFailsAt < |Visible(b)|
  {
    CursorFailureReportsOk(CursorOrder(Visible(b).Keys), cb, cursorFailsAt);
  }
}
