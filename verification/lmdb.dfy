/** The key/value engine as the backends see it: one durable table and a
    stack of open write transactions, each holding only its own uncommitted
    writes. A child transaction sees its parent's writes; committing it
    merges its writes into the parent, or into the durable table when it is
    top-level; aborting it discards them. */
module Lmdb {
  import opened Bytes

  type Table = map<Oid, seq<byte>>

  /** `open` lists the open write transactions, outermost first. */
  datatype Engine = Engine(durable: Table, open: seq<Table>)

  /** The table as seen from inside the innermost open transaction. */
  function Flatten(base: Table, overlays: seq<Table>): Table
    decreases |overlays|
  {
    if |overlays| == 0 then base
    else Flatten(base, overlays[..|overlays| - 1]) + overlays[|overlays| - 1]
  }

  function View(e: Engine): Table {
    Flatten(e.durable, e.open)
  }

  /** Every stored value carries at least its tag byte. */
  predicate NonEmptyValues(t: Table) {
    forall k :: k in t ==> |t[k]| >= 1
  }

  predicate WellFormed(e: Engine) {
    && NonEmptyValues(e.durable)
    && forall i :: 0 <= i < |e.open| ==> NonEmptyValues(e.open[i])
  }

  lemma FlattenSnoc(base: Table, overlays: seq<Table>, top: Table)
    ensures Flatten(base, overlays + [top]) == Flatten(base, overlays) + top
  {
    assert (overlays + [top])[..|overlays|] == overlays;
  }

  lemma {:induction false} FlattenNonEmpty(base: Table, overlays: seq<Table>)
    requires NonEmptyValues(base)
    requires forall i :: 0 <= i < |overlays| ==> NonEmptyValues(overlays[i])
    ensures NonEmptyValues(Flatten(base, overlays))
    decreases |overlays|
  {
    if |overlays| > 0 {
      FlattenNonEmpty(base, overlays[..|overlays| - 1]);
    }
  }

  /** Every value visible to a well-formed engine's transactions is non-empty. */
  lemma ViewNonEmpty(e: Engine)
    requires WellFormed(e)
    ensures NonEmptyValues(View(e))
  {
    FlattenNonEmpty(e.durable, e.open);
  }

  /** `mdb_txn_begin`: a new transaction, a child of the innermost open one if any. */
  function Begin(e: Engine): (e': Engine)
    ensures e'.durable == e.durable && |e'.open| == |e.open| + 1
    ensures View(e') == View(e)
    ensures WellFormed(e) ==> WellFormed(e')
  {
    var e' := e.(open := e.open + [map[]]);
    FlattenSnoc(e.durable, e.open, map[]);
    e'
  }

  /** `mdb_put` into the innermost open transaction. */
  function Put(e: Engine, key: Oid, value: seq<byte>): (e': Engine)
    requires |e.open| > 0
    ensures e'.durable == e.durable && |e'.open| == |e.open|
    ensures e'.open[..|e.open| - 1] == e.open[..|e.open| - 1]
    ensures View(e') == View(e)[key := value]
    ensures WellFormed(e) && |value| >= 1 ==> WellFormed(e')
  {
    var n := |e.open|;
    var below := e.open[..n - 1];
    var top := e.open[n - 1];
    var e' := e.(open := below + [top[key := value]]);
    FlattenSnoc(e.durable, below, top[key := value]);
    FlattenSnoc(e.durable, below, top);
    assert e.open == below + [top];
    e'
  }

  /** `mdb_txn_commit` of the innermost open transaction: its writes move
      into its parent, or into the durable table when it has none. What its
      parent sees is what it saw. */
  function Commit(e: Engine): (e': Engine)
    requires |e.open| > 0
    ensures |e'.open| == |e.open| - 1
    ensures View(e') == View(e)
    ensures |e.open| == 1 ==> e'.durable == View(e)
    ensures |e.open| > 1 ==> e'.durable == e.durable
    ensures WellFormed(e) ==> WellFormed(e')
  {
    CommitKeepsView(e);
    CommitKeepsWellFormed(e);
    Merge(e)
  }

  /** The innermost overlay folded into the layer below it. */
  function Merge(e: Engine): Engine
    requires |e.open| > 0
  {
    var n := |e.open|;
    if n == 1 then Engine(e.durable + e.open[0], [])
    else Engine(e.durable, e.open[..n - 2] + [e.open[n - 2] + e.open[n - 1]])
  }

  lemma CommitKeepsView(e: Engine)
    requires |e.open| > 0
    ensures View(Merge(e)) == View(e)
    ensures |e.open| == 1 ==> Merge(e).durable == View(e)
  {
    var n := |e.open|;
    if n == 1 {
      FlattenSnoc(e.durable, [], e.open[0]);
      assert e.open == [] + [e.open[0]];
    } else {
      var below := e.open[..n - 2];
      assert e.open == below + [e.open[n - 2]] + [e.open[n - 1]];
      MergeChild(e.durable, below, e.open[n - 2], e.open[n - 1]);
    }
  }

  lemma CommitKeepsWellFormed(e: Engine)
    requires |e.open| > 0
    ensures WellFormed(e) ==> WellFormed(Merge(e))
  {
    var n := |e.open|;
    if WellFormed(e) && n > 1 {
      var e' := Merge(e);
      assert NonEmptyValues(e.open[n - 2]) && NonEmptyValues(e.open[n - 1]);
      forall i | 0 <= i < |e'.open|
        ensures NonEmptyValues(e'.open[i])
      {
        if i < n - 2 {
          assert e'.open[i] == e.open[i];
        }
      }
    }
  }

  /** Merging the innermost overlay into its parent does not change the view. */
  lemma MergeChild(base: Table, below: seq<Table>, parent: Table, child: Table)
    ensures Flatten(base, below + [parent + child]) == Flatten(base, below + [parent] + [child])
  {
    FlattenSnoc(base, below + [parent], child);
    FlattenSnoc(base, below, parent);
    FlattenSnoc(base, below, parent + child);
    var f := Flatten(base, below);
    assert f + (parent + child) == (f + parent) + child;
  }

  /** `mdb_txn_abort` of the innermost open transaction: its writes are gone. */
  function Abort(e: Engine): (e': Engine)
    requires |e.open| > 0
    ensures e'.durable == e.durable
    ensures e'.open == e.open[..|e.open| - 1]
    ensures WellFormed(e) ==> WellFormed(e')
  {
    e.(open := e.open[..|e.open| - 1])
  }

  /** A transaction that is begun and aborted leaves the engine exactly as
      it found it. */
  lemma AbortAfterBegin(e: Engine)
    ensures Abort(Begin(e)) == e
  {
    assert (e.open + [map[]])[..|e.open|] == e.open;
  }

  /** ...and so does one that wrote before it was aborted. */
  lemma AbortDiscards(e: Engine, key: Oid, value: seq<byte>)
    ensures Abort(Put(Begin(e), key, value)) == e
  {
    assert (e.open + [map[]])[..|e.open|] == e.open;
  }

  /** A child transaction's committed write is visible in its parent but
      leaves the durable table alone; a top-level one lands in the durable table. */
  lemma CommitChildWrite(e: Engine, key: Oid, value: seq<byte>)
    ensures |e.open| > 0 ==>
      Commit(Put(Begin(e), key, value)) ==
        Engine(e.durable, e.open[..|e.open| - 1] + [e.open[|e.open| - 1][key := value]])
    ensures |e.open| == 0 ==>
      Commit(Put(Begin(e), key, value)) == Engine(e.durable[key := value], [])
  {
    var n := |e.open|;
    var e1 := Begin(e);
    var e2 := Put(e1, key, value);
    assert e2.open == e.open + [map[key := value]] by {
      assert e1.open == e.open + [map[]];
    }
    if n > 0 {
      var top := e.open[n - 1];
      assert top + map[key := value] == top[key := value];
      assert e2.open[..n - 1] == e.open[..n - 1];
      assert e2.open[n - 1] == top;
    } else {
      assert e.durable + map[key := value] == e.durable[key := value];
    }
  }
}
