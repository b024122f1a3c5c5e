/** Whole-keyspace iteration: the order an LMDB cursor walks the keys in,
    and the foreach loop that hands each key to libgit2's callback. */
module Cursor {
  import opened Codes
  import opened Bytes

  /** LMDB's default key comparison: bytewise, and on a common prefix the
      shorter key first. `Below(a, b)` is `a <= b` in that order. */
  predicate Below(a: seq<byte>, b: seq<byte>)
    decreases |a|
  {
    if |a| == 0 then true
    else if |b| == 0 then false
    else a[0] < b[0] || (a[0] == b[0] && Below(a[1..], b[1..]))
  }

  lemma {:induction false} BelowReflexive(a: seq<byte>)
    ensures Below(a, a)
    decreases |a|
  {
    if |a| > 0 {
      BelowReflexive(a[1..]);
    }
  }

  lemma {:induction false} BelowTotal(a: seq<byte>, b: seq<byte>)
    ensures Below(a, b) || Below(b, a)
    decreases |a|
  {
    if |a| > 0 && |b| > 0 && a[0] == b[0] {
      BelowTotal(a[1..], b[1..]);
    }
  }

  lemma {:induction false} BelowAntisymmetric(a: seq<byte>, b: seq<byte>)
    requires Below(a, b) && Below(b, a)
    ensures a == b
    decreases |a|
  {
    if |a| > 0 {
      BelowAntisymmetric(a[1..], b[1..]);
      assert a == [a[0]] + a[1..];
      assert b == [b[0]] + b[1..];
    }
  }

  lemma {:induction false} BelowTransitive(a: seq<byte>, b: seq<byte>, c: seq<byte>)
    requires Below(a, b) && Below(b, c)
    ensures Below(a, c)
    decreases |a|
  {
    if |a| > 0 && a[0] == b[0] && b[0] == c[0] {
      BelowTransitive(a[1..], b[1..], c[1..]);
    }
  }

  /** `m` is the first key of `keys` in cursor order. */
  predicate IsLeast(m: Oid, keys: set<Oid>) {
    m in keys && forall k :: k in keys ==> Below(m, k)
  }

  /** Every non-empty key set has a first key. */
  lemma {:induction false} LeastExists(keys: set<Oid>)
    requires keys != {}
    ensures exists m :: IsLeast(m, keys)
    decreases |keys|
  {
    var x :| x in keys;
    if keys == {x} {
      BelowReflexive(x);
      assert IsLeast(x, keys);
    } else {
      LeastExists(keys - {x});
      var m: Oid :| IsLeast(m, keys - {x});
      BelowTotal(m, x);
      if Below(m, x) {
        assert IsLeast(m, keys);
      } else {
        forall k | k in keys
          ensures Below(x, k)
        {
          if k == x {
            BelowReflexive(x);
          } else {
            BelowTransitive(x, m, k);
          }
        }
        assert IsLeast(x, keys);
      }
    }
  }

  /** ...and only one. */
  lemma LeastUnique(keys: set<Oid>)
    ensures forall m, m' :: IsLeast(m, keys) && IsLeast(m', keys) ==> m == m'
  {
    forall m: Oid, m': Oid | IsLeast(m, keys) && IsLeast(m', keys)
      ensures m == m'
    {
      BelowAntisymmetric(m, m');
    }
  }

  /** The keys `mdb_cursor_get(…, MDB_NEXT)` yields from a fresh cursor:
      every key exactly once, in strictly increasing order. */
  function CursorOrder(keys: set<Oid>): (r: seq<Oid>)
    ensures |r| == |keys|
    ensures forall i :: 0 <= i < |r| ==> r[i] in keys
    ensures forall k :: k in keys ==> k in r
    ensures forall i, j :: 0 <= i < j < |r| ==> Below(r[i], r[j]) && r[i] != r[j]
    decreases |keys|
  {
    if keys == {} then []
    else
      LeastExists(keys);
      LeastUnique(keys);
      var m: Oid :| IsLeast(m, keys);
      var rest := CursorOrder(keys - {m});
      LeastBeforeRest(m, keys, rest);
      [m] + rest
  }

  /** Putting the least key in front of an ordered enumeration of the
      others keeps it ordered and complete. */
  lemma LeastBeforeRest(m: Oid, keys: set<Oid>, rest: seq<Oid>)
    requires IsLeast(m, keys)
    requires forall i :: 0 <= i < |rest| ==> rest[i] in keys - {m}
    requires forall k :: k in keys - {m} ==> k in rest
    requires forall i, j :: 0 <= i < j < |rest| ==> Below(rest[i], rest[j]) && rest[i] != rest[j]
    ensures forall i :: 0 <= i < |[m] + rest| ==> ([m] + rest)[i] in keys
    ensures forall k :: k in keys ==> k in [m] + rest
    ensures forall i, j :: 0 <= i < j < |[m] + rest| ==>
      Below(([m] + rest)[i], ([m] + rest)[j]) && ([m] + rest)[i] != ([m] + rest)[j]
  {
    var r := [m] + rest;
    forall i, j | 0 <= i < j < |r|
      ensures Below(r[i], r[j]) && r[i] != r[j]
    {
      if i == 0 {
        assert r[j] == rest[j - 1];
      } else {
        assert r[i] == rest[i - 1] && r[j] == rest[j - 1];
      }
    }
  }

  /** libgit2's foreach callback. Its answer for a key may depend on the keys
      it was shown before (through its context), so it is given those too. */
  type Visitor = (seq<Oid>, Oid) -> int

  /** The callback accepts the key at position `j`. */
  predicate Accepts(cb: Visitor, keys: seq<Oid>, j: nat)
    requires j < |keys|
  {
    cb(keys[..j], keys[j]) == GIT_OK
  }

  /** The outcome of the cursor loop: its return code and the keys the
      callback was shown, in order. */
  datatype Scanned = Scanned(rc: int, visited: seq<Oid>)

  /** How many keys the cursor delivers when its `MDB_NEXT` call number
      `failsAt` (counting from 0) fails with an engine error. Calls 0 to
      `|keys| - 1` each deliver a key and call `|keys|` is the one expected
      to report "not found": a `failsAt` of exactly `|keys|` is that last
      call failing instead, and one above `|keys|` means no call fails. */
  function Delivered(keys: seq<Oid>, failsAt: nat): (n: nat)
    ensures n <= |keys| && n <= failsAt
    ensures n == |keys| || n == failsAt
  {
    if failsAt < |keys| then failsAt else |keys|
  }

  /** The loop `while (mdb_cursor_get(…, MDB_NEXT) == 0)` from position `i`
      on: each key goes to the callback, and the first answer other than
      GIT_OK ends the loop with GIT_EUSER. Any non-zero status of
      `mdb_cursor_get` ends the loop, whether it is "not found" after the
      last key or an engine failure at call `failsAt`, and both give GIT_OK. */
  function ScanFrom(keys: seq<Oid>, cb: Visitor, failsAt: nat, i: nat): (s: Scanned)
    requires i <= Delivered(keys, failsAt)
    ensures i <= |s.visited| <= Delivered(keys, failsAt) && s.visited == keys[..|s.visited|]
    ensures s.rc == GIT_OK || s.rc == GIT_EUSER
    ensures s.rc == GIT_OK <==> forall j :: i <= j < Delivered(keys, failsAt) ==> Accepts(cb, keys, j)
    ensures s.rc == GIT_OK ==> s.visited == keys[..Delivered(keys, failsAt)]
    ensures s.rc == GIT_EUSER ==>
      && |s.visited| > i
      && !Accepts(cb, keys, |s.visited| - 1)
      && forall j :: i <= j < |s.visited| - 1 ==> Accepts(cb, keys, j)
    decreases |keys| - i
  {
    if i == Delivered(keys, failsAt) then Scanned(GIT_OK, keys[..i])
    else if !Accepts(cb, keys, i) then Scanned(GIT_EUSER, keys[..i + 1])
    else ScanFrom(keys, cb, failsAt, i + 1)
  }

  /** When every call that should deliver a key does, a callback that
      accepts every key sees every key of the table exactly once, in cursor
      order, and the loop reports GIT_OK. */
  lemma ScanVisitsEveryKeyOnce(keys: set<Oid>, cb: Visitor, failsAt: nat)
    requires failsAt >= |keys|
    requires forall j :: 0 <= j < |keys| ==> Accepts(cb, CursorOrder(keys), j)
    ensures ScanFrom(CursorOrder(keys), cb, failsAt, 0).rc == GIT_OK
    ensures ScanFrom(CursorOrder(keys), cb, failsAt, 0).visited == CursorOrder(keys)
    ensures forall k :: k in keys <==> k in ScanFrom(CursorOrder(keys), cb, failsAt, 0).visited
    ensures |ScanFrom(CursorOrder(keys), cb, failsAt, 0).visited| == |keys|
  {
    assert CursorOrder(keys)[..|keys|] == CursorOrder(keys);
  }

  /** When the cursor reaches a refused key, the loop stops right after it:
      that key is the last one shown, no later key is shown, and the
      outcome is GIT_EUSER. */
  lemma ScanStopsAtFirstRefusal(keys: seq<Oid>, cb: Visitor, failsAt: nat, j: nat)
    requires j < Delivered(keys, failsAt) && !Accepts(cb, keys, j)
    requires forall i :: 0 <= i < j ==> Accepts(cb, keys, i)
    ensures ScanFrom(keys, cb, failsAt, 0) == Scanned(GIT_EUSER, keys[..j + 1])
  {
    var s := ScanFrom(keys, cb, failsAt, 0);
    assert s.rc == GIT_EUSER;
  }

  /** The loop as written cannot tell a cursor failure from the end of the
      keys: when `mdb_cursor_get` fails before the last key, a callback that
      accepted everything it saw gets GIT_OK although some keys were never shown. */
  lemma CursorFailureReportsOk(keys: seq<Oid>, cb: Visitor, failsAt: nat)
    requires failsAt < |keys|
    requires forall j :: 0 <= j < failsAt ==> Accepts(cb, keys, j)
    ensures ScanFrom(keys, cb, failsAt, 0) == Scanned(GIT_OK, keys[..failsAt])
    ensures ScanFrom(keys, cb, failsAt, 0).visited != keys
  {
  }

  /** The loop with the status of `mdb_cursor_get` checked: an engine
      failure ends it with GIT_ERROR, the last call included, and only
      "not found" after the last key ends it with GIT_OK. */
  function ScanChecked(keys: seq<Oid>, cb: Visitor, failsAt: nat, i: nat): (s: Scanned)
    requires i <= |keys| && i <= failsAt
    ensures i <= |s.visited| <= |keys| && s.visited == keys[..|s.visited|]
    ensures s.rc == GIT_OK || s.rc == GIT_EUSER || s.rc == GIT_ERROR
    ensures s.rc == GIT_OK <==>
      failsAt > |keys| && forall j :: i <= j < |keys| ==> Accepts(cb, keys, j)
    ensures s.rc == GIT_OK ==> s.visited == keys
    ensures s.rc == GIT_ERROR ==>
      && failsAt <= |keys| && s.visited == keys[..failsAt]
      && forall j :: i <= j < failsAt ==> Accepts(cb, keys, j)
    ensures s.rc == GIT_EUSER ==>
      && |s.visited| > i
      && !Accepts(cb, keys, |s.visited| - 1)
      && forall j :: i <= j < |s.visited| - 1 ==> Accepts(cb, keys, j)
    decreases |keys| - i
  {
    if i == failsAt then Scanned(GIT_ERROR, keys[..i])
    else if i == |keys| then Scanned(GIT_OK, keys)
    else if !Accepts(cb, keys, i) then Scanned(GIT_EUSER, keys[..i + 1])
    else ScanChecked(keys, cb, failsAt, i + 1)
  }

  /** Without a cursor failure the checked loop and the loop as written agree. */
  lemma {:induction false} ScanCheckedAgrees(keys: seq<Oid>, cb: Visitor, failsAt: nat, i: nat)
    requires failsAt > |keys| && i <= |keys|
    ensures ScanChecked(keys, cb, failsAt, i) == ScanFrom(keys, cb, failsAt, i)
    decreases |keys| - i
  {
    if i < |keys| && Accepts(cb, keys, i) {
      ScanCheckedAgrees(keys, cb, failsAt, i + 1);
    }
  }

  /** The loop as written also hides a failure of the final call, the one
      that should report "not found": the outcome is that of a scan with
      no failure at all. */
  lemma {:induction false} LastCallFailureHidden(keys: seq<Oid>, cb: Visitor, i: nat)
    requires i <= |keys|
    ensures ScanFrom(keys, cb, |keys|, i) == ScanFrom(keys, cb, |keys| + 1, i)
    ensures ScanChecked(keys, cb, |keys|, i).rc != GIT_OK
    decreases |keys| - i
  {
    if i < |keys| && Accepts(cb, keys, i) {
      LastCallFailureHidden(keys, cb, i + 1);
    }
  }
}
