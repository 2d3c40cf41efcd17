/** Object stores as IndexedDB keeps them: the rows in ascending primary-key
    order (the order `toArray()` reads them back in), with an auto-increment
    key generator that explicitly supplied keys push forward. */
module Tables {
  import opened Optional

  /** Rows in strictly ascending key order, so no key occurs twice. */
  ghost predicate Ordered<T>(rows: seq<T>, key: T -> int) {
    forall i, j :: 0 <= i < j < |rows| ==> key(rows[i]) < key(rows[j])
  }

  /** Every stored key is below the key generator's current number. */
  ghost predicate Below<T>(rows: seq<T>, key: T -> int, next: int) {
    forall i :: 0 <= i < |rows| ==> key(rows[i]) < next
  }

  /** A well-formed object store with its key generator. */
  ghost predicate Store<T>(rows: seq<T>, key: T -> int, next: int) {
    Ordered(rows, key) && Below(rows, key, next)
  }

  /** Where the row with primary key k sits, if there is one. */
  function IndexOf<T>(rows: seq<T>, key: T -> int, k: int): (r: Option<nat>)
    ensures r.Some? ==> r.value < |rows| && key(rows[r.value]) == k
    ensures r.None? <==> forall i :: 0 <= i < |rows| ==> key(rows[i]) != k
  {
    if rows == [] then None
    else if key(rows[0]) == k then Some(0)
    else match IndexOf(rows[1..], key, k)
      case None => None
      case Some(i) => Some(i + 1)
  }

  /** `table.get(k)`. */
  function Get<T>(rows: seq<T>, key: T -> int, k: int): (r: Option<T>)
    ensures r.Some? ==> r.value in rows && key(r.value) == k
    ensures r.None? <==> forall i :: 0 <= i < |rows| ==> key(rows[i]) != k
  {
    match IndexOf(rows, key, k)
    case None => None
    case Some(i) => Some(rows[i])
  }

  /** In an ordered store every row is what `get` returns for its key. */
  lemma GetRow<T>(rows: seq<T>, key: T -> int, i: int)
    requires Ordered(rows, key) && 0 <= i < |rows|
    ensures Get(rows, key, key(rows[i])) == Some(rows[i])
  {
    var j := IndexOf(rows, key, key(rows[i])).value;
    assert !(j < i) && !(i < j);
  }

  /** How many rows come before key k. */
  function Pos<T>(rows: seq<T>, key: T -> int, k: int): (p: nat)
    requires Ordered(rows, key)
    ensures p <= |rows|
    ensures forall i :: 0 <= i < p ==> key(rows[i]) < k
    ensures forall i :: p <= i < |rows| ==> k <= key(rows[i])
  {
    if rows == [] || k <= key(rows[0]) then 0 else 1 + Pos(rows[1..], key, k)
  }

  /** A key above every stored key goes at the end. */
  lemma {:induction false} PosPastAll<T>(rows: seq<T>, key: T -> int, k: int)
    requires Ordered(rows, key)
    requires forall i :: 0 <= i < |rows| ==> key(rows[i]) < k
    ensures Pos(rows, key, k) == |rows|
  {
    if rows != [] {
      PosPastAll(rows[1..], key, k);
    }
  }

  /** Storing x under the key it carries, when that key is free. */
  function Insert<T>(rows: seq<T>, key: T -> int, x: T): (r: seq<T>)
    requires Ordered(rows, key)
    requires IndexOf(rows, key, key(x)).None?
    ensures Ordered(r, key)
    ensures multiset(r) == multiset(rows) + multiset{x}
  {
    var p := Pos(rows, key, key(x));
    var r := rows[..p] + [x] + rows[p..];
    assert rows == rows[..p] + rows[p..];
    forall i, j | 0 <= i < j < |r| ensures key(r[i]) < key(r[j]) {
      if j < p {
        assert r[i] == rows[i] && r[j] == rows[j];
      } else if j == p {
        assert r[i] == rows[i];
      } else if i > p {
        assert r[i] == rows[i - 1] && r[j] == rows[j - 1];
      } else if i == p {
        assert r[j] == rows[j - 1] && key(rows[j - 1]) != key(x);
      } else {
        assert r[i] == rows[i] && r[j] == rows[j - 1];
      }
    }
    r
  }

  /** After an insert, every key other than the new row's reads as before. */
  lemma InsertKeeps<T>(rows: seq<T>, key: T -> int, x: T, k: int)
    requires Ordered(rows, key)
    requires IndexOf(rows, key, key(x)).None?
    requires k != key(x)
    ensures Get(Insert(rows, key, x), key, k) == Get(rows, key, k)
  {
    var r := Insert(rows, key, x);
    var p := Pos(rows, key, key(x));
    assert r == rows[..p] + [x] + rows[p..];
    match IndexOf(rows, key, k)
    case None =>
      forall i | 0 <= i < |r| ensures key(r[i]) != k {
        if i < p {
          assert r[i] == rows[i];
        } else if i > p {
          assert r[i] == rows[i - 1];
        }
      }
    case Some(i) =>
      if i < p {
        assert r[i] == rows[i];
        GetRow(r, key, i);
      } else {
        assert r[i + 1] == rows[i];
        GetRow(r, key, i + 1);
      }
  }

  /** After an insert, `get` finds the new row under its key and every
      other key as before. */
  lemma GetInsert<T>(rows: seq<T>, key: T -> int, x: T, k: int)
    requires Ordered(rows, key)
    requires IndexOf(rows, key, key(x)).None?
    ensures Get(Insert(rows, key, x), key, k) == if k == key(x) then Some(x) else Get(rows, key, k)
  {
    if k == key(x) {
      var p := Pos(rows, key, key(x));
      assert Insert(rows, key, x)[p] == x;
      GetRow(Insert(rows, key, x), key, p);
    } else {
      InsertKeeps(rows, key, x, k);
    }
  }

  /** Writing x over the row that carries the same key. */
  function Replace<T>(rows: seq<T>, key: T -> int, x: T): (r: seq<T>)
    ensures |r| == |rows|
    ensures forall i :: 0 <= i < |rows| && key(rows[i]) != key(x) ==> r[i] == rows[i]
    ensures forall i :: 0 <= i < |rows| && key(rows[i]) == key(x) ==> r[i] == x
  {
    seq(|rows|, i requires 0 <= i < |rows| => if key(rows[i]) == key(x) then x else rows[i])
  }

  /** Replacing a row keeps the store ordered; `get` then returns x under
      its key when a row was there, and everything else as before. */
  lemma GetReplace<T>(rows: seq<T>, key: T -> int, x: T, k: int)
    requires Ordered(rows, key)
    ensures Ordered(Replace(rows, key, x), key)
    ensures Get(Replace(rows, key, x), key, k) ==
            if k == key(x) && Get(rows, key, k).Some? then Some(x) else Get(rows, key, k)
  {
    var r := Replace(rows, key, x);
    assert forall i :: 0 <= i < |r| ==> key(r[i]) == key(rows[i]);
    match IndexOf(rows, key, k)
    case None =>
    case Some(i) =>
      GetRow(r, key, i);
      GetRow(rows, key, i);
  }

  /** `table.delete(k)`: the row under k goes, a missing key changes nothing. */
  function Remove<T>(rows: seq<T>, key: T -> int, k: int): (r: seq<T>)
    ensures |r| <= |rows|
    ensures forall i :: 0 <= i < |r| ==> r[i] in rows
  {
    match IndexOf(rows, key, k)
    case None => rows
    case Some(i) =>
      var r := rows[..i] + rows[i + 1..];
      assert forall a :: 0 <= a < |r| ==> r[a] == if a < i then rows[a] else rows[a + 1];
      r
  }

  /** Deleting a row keeps the rest in key order. */
  lemma RemoveOrdered<T>(rows: seq<T>, key: T -> int, k: int)
    requires Ordered(rows, key)
    ensures Ordered(Remove(rows, key, k), key)
  {
    if IndexOf(rows, key, k).Some? {
      var i := IndexOf(rows, key, k).value;
      var r := Remove(rows, key, k);
      assert forall a :: 0 <= a < i ==> r[a] == rows[a];
      assert forall a :: i <= a < |r| ==> r[a] == rows[a + 1];
      forall a, b | 0 <= a < b < |r| ensures key(r[a]) < key(r[b]) {
        if b < i {
        } else if a < i {
          assert key(rows[a]) < key(rows[b + 1]);
        } else {
          assert key(rows[a + 1]) < key(rows[b + 1]);
        }
      }
    }
  }

  /** After a delete of a stored key, that key is gone. */
  lemma RemoveGone<T>(rows: seq<T>, key: T -> int, k: int)
    requires Ordered(rows, key)
    ensures Get(Remove(rows, key, k), key, k) == None
  {
    if IndexOf(rows, key, k).Some? {
      var i := IndexOf(rows, key, k).value;
      var r := Remove(rows, key, k);
      forall a | 0 <= a < |r| ensures key(r[a]) != k {
        if a < i {
          assert r[a] == rows[a] && key(rows[a]) < key(rows[i]);
        } else {
          assert r[a] == rows[a + 1] && key(rows[i]) < key(rows[a + 1]);
        }
      }
    }
  }

  /** A delete leaves every other key reading as before. */
  lemma RemoveKeeps<T>(rows: seq<T>, key: T -> int, k: int, j: int)
    requires Ordered(rows, key) && j != k
    ensures Get(Remove(rows, key, k), key, j) == Get(rows, key, j)
  {
    if IndexOf(rows, key, k).Some? {
      var i := IndexOf(rows, key, k).value;
      var r := Remove(rows, key, k);
      RemoveOrdered(rows, key, k);
      match IndexOf(rows, key, j)
      case None =>
        forall a | 0 <= a < |r| ensures key(r[a]) != j {
          if a >= i {
            assert r[a] == rows[a + 1];
          } else {
            assert r[a] == rows[a];
          }
        }
      case Some(b) =>
        if b < i {
          assert r[b] == rows[b];
          GetRow(r, key, b);
        } else {
          assert r[b - 1] == rows[b];
          GetRow(r, key, b - 1);
        }
        GetRow(rows, key, b);
    }
  }

  /** After a delete the key is gone and every other key reads as before. */
  lemma GetRemove<T>(rows: seq<T>, key: T -> int, k: int, j: int)
    requires Ordered(rows, key)
    ensures Ordered(Remove(rows, key, k), key)
    ensures Get(Remove(rows, key, k), key, j) == if j == k then None else Get(rows, key, j)
  {
    RemoveOrdered(rows, key, k);
    if j == k {
      RemoveGone(rows, key, k);
    } else {
      RemoveKeeps(rows, key, k, j);
    }
  }

  /** Inserting a key below the generator's new number keeps every key below it. */
  lemma InsertBelow<T>(rows: seq<T>, key: T -> int, next: int, x: T, next': int)
    requires Ordered(rows, key) && IndexOf(rows, key, key(x)).None?
    requires Below(rows, key, next) && next <= next' && key(x) < next'
    ensures Below(Insert(rows, key, x), key, next')
  {
    var r := Insert(rows, key, x);
    forall i | 0 <= i < |r| ensures key(r[i]) < next' {
      assert r[i] in multiset(r) by {
        assert r[i] in r;
      }
      if r[i] != x {
        assert r[i] in multiset(rows);
        var a :| 0 <= a < |rows| && rows[a] == r[i];
      }
    }
  }

  /** The key an `add` stores a record under and the key generator's next
      number: a generated key is the current number, an explicit key k
      moves the generator past k and leaves it alone otherwise. */
  function AssignKey(next: int, explicit: Option<int>): (r: (int, int))
    ensures r.0 < r.1 && next <= r.1
    ensures explicit.None? ==> r.0 == next && r.1 == next + 1
    ensures explicit.Some? ==> r.0 == explicit.value
    ensures explicit.Some? && explicit.value < next ==> r.1 == next
  {
    match explicit
    case None => (next, next + 1)
    case Some(k) => (k, if next <= k then k + 1 else next)
  }

  /** `table.bulkAdd(adds)` for records that carry their keys: each is added
      in turn, and the first key already present fails the whole call. */
  function BulkAdd<T>(rows: seq<T>, key: T -> int, next: int, adds: seq<T>): (r: Option<(seq<T>, int)>)
    requires Ordered(rows, key)
    ensures r.Some? ==> Ordered(r.value.0, key) && next <= r.value.1
    ensures r.Some? ==> multiset(r.value.0) == multiset(rows) + multiset(adds)
    ensures r.Some? && Below(rows, key, next) ==> Below(r.value.0, key, r.value.1)
    decreases |adds|
  {
    if adds == [] then Some((rows, next))
    else
      var k := key(adds[0]);
      if IndexOf(rows, key, k).Some? then None
      else
        var rows' := Insert(rows, key, adds[0]);
        var r := BulkAdd(rows', key, AssignKey(next, Some(k)).1, adds[1..]);
        assert adds == [adds[0]] + adds[1..];
        if r.Some? then
          assert Below(rows, key, next) ==> Below(rows', key, AssignKey(next, Some(k)).1) by {
            if Below(rows, key, next) {
              InsertBelow(rows, key, next, adds[0], AssignKey(next, Some(k)).1);
            }
          }
          r
        else r
  }

  /** A bulk add fails as soon as one of the records carries a key the store
      already holds. */
  lemma {:induction false} BulkAddClash<T>(rows: seq<T>, key: T -> int, next: int, adds: seq<T>, i: int)
    requires Ordered(rows, key)
    requires 0 <= i < |adds| && IndexOf(rows, key, key(adds[i])).Some?
    ensures BulkAdd(rows, key, next, adds).None?
    decreases |adds|
  {
    var k := key(adds[0]);
    if i > 0 && IndexOf(rows, key, k).None? {
      var rows' := Insert(rows, key, adds[0]);
      GetInsert(rows, key, adds[0], key(adds[i]));
      assert adds[1..][i - 1] == adds[i];
      BulkAddClash(rows', key, AssignKey(next, Some(k)).1, adds[1..], i - 1);
    }
  }

  /** A bulk add of records two of which carry the same key fails, so a
      backup with a repeated id is refused. */
  lemma {:induction false} BulkAddDuplicate<T>(rows: seq<T>, key: T -> int, next: int, adds: seq<T>, i: int, j: int)
    requires Ordered(rows, key)
    requires 0 <= i < j < |adds| && key(adds[i]) == key(adds[j])
    ensures BulkAdd(rows, key, next, adds).None?
    decreases |adds|
  {
    var k := key(adds[0]);
    if IndexOf(rows, key, k).None? {
      var rows' := Insert(rows, key, adds[0]);
      var next' := AssignKey(next, Some(k)).1;
      assert adds[1..][j - 1] == adds[j];
      if i == 0 {
        GetInsert(rows, key, adds[0], k);
        BulkAddClash(rows', key, next', adds[1..], j - 1);
      } else {
        assert adds[1..][i - 1] == adds[i];
        BulkAddDuplicate(rows', key, next', adds[1..], i - 1, j - 1);
      }
    }
  }

  /** The front of an ordered list is ordered and lies below the first
      element that follows it. */
  lemma OrderedFront<T>(rows: seq<T>, adds: seq<T>, key: T -> int)
    requires adds != [] && Ordered(rows + adds, key)
    ensures Ordered(rows, key)
    ensures forall i :: 0 <= i < |rows| ==> key(rows[i]) < key(adds[0])
  {
    forall i, j | 0 <= i < j < |rows| ensures key(rows[i]) < key(rows[j]) {
      assert (rows + adds)[i] == rows[i] && (rows + adds)[j] == rows[j];
    }
    forall i | 0 <= i < |rows| ensures key(rows[i]) < key(adds[0]) {
      assert (rows + adds)[i] == rows[i] && (rows + adds)[|rows|] == adds[0];
    }
  }

  /** Bulk-adding rows that follow the store's last key in ascending order,
      all below the key generator, appends them and leaves the generator
      where it was. */
  lemma {:induction false} BulkAddInOrder<T>(rows: seq<T>, key: T -> int, next: int, adds: seq<T>)
    requires Ordered(rows + adds, key) && Below(rows + adds, key, next)
    ensures Ordered(rows, key) && BulkAdd(rows, key, next, adds) == Some((rows + adds, next))
    decreases |adds|
  {
    if adds == [] {
      assert rows + adds == rows;
    } else {
      var x := adds[0];
      var k := key(x);
      OrderedFront(rows, adds, key);
      assert (rows + adds)[|rows|] == x;
      assert IndexOf(rows, key, k).None?;
      var p := Pos(rows, key, k);
      PosPastAll(rows, key, k);
      assert Insert(rows, key, x) == rows + [x];
      assert rows + [x] + adds[1..] == rows + adds;
      assert AssignKey(next, Some(k)).1 == next;
      BulkAddInOrder(rows + [x], key, next, adds[1..]);
    }
  }

  /** Clearing a store and bulk-adding its own rows (the restore of a
      backup that the same store produced) rebuilds it exactly, with the key
      generator where it was. */
  lemma Reload<T>(rows: seq<T>, key: T -> int, next: int)
    requires Store(rows, key, next)
    ensures BulkAdd([], key, next, rows) == Some((rows, next))
  {
    assert [] + rows == rows;
    BulkAddInOrder([], key, next, rows);
  }

  /** An object store: its rows in primary-key order and its key
      generator's current number. */
  datatype Table<T> = Table(rows: seq<T>, next: int)

  /** Keys ascend, all lie below the generator, and the generator starts
      at 1 as IndexedDB's does. */
  ghost predicate WellFormed<T>(t: Table<T>, key: T -> int) {
    Ordered(t.rows, key) && Below(t.rows, key, t.next) && 1 <= t.next
  }

  function Empty<T>(): (t: Table<T>)
    ensures t.rows == [] && t.next == 1
  {
    Table([], 1)
  }

  /** `table.add(x)` where x already carries the key it is stored under
      (the generator's number when the caller gave none): refused with a
      constraint error when that key is taken. */
  function Add<T>(t: Table<T>, key: T -> int, x: T): (r: Option<Table<T>>)
    requires WellFormed(t, key)
    ensures r.None? <==> Get(t.rows, key, key(x)).Some?
    ensures r.Some? ==> WellFormed(r.value, key) && key(x) < r.value.next && t.next <= r.value.next
  {
    if IndexOf(t.rows, key, key(x)).Some? then None
    else
      var n := AssignKey(t.next, Some(key(x))).1;
      InsertBelow(t.rows, key, t.next, x, n);
      Some(Table(Insert(t.rows, key, x), n))
  }

  /** An accepted add stores x under its key, leaves every other key's row
      as it was, and grows the store by one row. */
  lemma AddGet<T>(t: Table<T>, key: T -> int, x: T)
    requires WellFormed(t, key)
    ensures Add(t, key, x).Some? ==>
              (forall k :: Get(Add(t, key, x).value.rows, key, k) == if k == key(x) then Some(x) else Get(t.rows, key, k)) &&
              |Add(t, key, x).value.rows| == |t.rows| + 1
  {
    if IndexOf(t.rows, key, key(x)).None? {
      var rows := Insert(t.rows, key, x);
      assert |rows| == |multiset(rows)|;
      forall k ensures Get(rows, key, k) == if k == key(x) then Some(x) else Get(t.rows, key, k) {
        GetInsert(t.rows, key, x, k);
      }
    }
  }

  /** A record under the generator's own number is always accepted, and
      the generator moves on by one. */
  lemma AddGenerated<T>(t: Table<T>, key: T -> int, x: T)
    requires WellFormed(t, key) && key(x) == t.next
    ensures Add(t, key, x).Some? && Add(t, key, x).value.next == t.next + 1
  {
    assert Get(t.rows, key, key(x)).None?;
  }

  /** `table.update(k, changes)`: the row under k gets the changes, a
      missing key is left alone without an error. */
  function Update<T(!new)>(t: Table<T>, key: T -> int, k: int, patch: T -> T): (r: Table<T>)
    requires WellFormed(t, key)
    requires forall x :: key(patch(x)) == key(x)
    ensures WellFormed(r, key) && r.next == t.next && |r.rows| == |t.rows|
    ensures forall j :: Get(r.rows, key, j) ==
              if j == k && Get(t.rows, key, k).Some? then Some(patch(Get(t.rows, key, k).value))
              else Get(t.rows, key, j)
  {
    match Get(t.rows, key, k)
    case None => t
    case Some(x) =>
      var rows := Replace(t.rows, key, patch(x));
      forall j ensures Get(rows, key, j) ==
                         if j == k && Get(t.rows, key, k).Some? then Some(patch(x)) else Get(t.rows, key, j) {
        GetReplace(t.rows, key, patch(x), j);
      }
      assert forall i :: 0 <= i < |rows| ==> key(rows[i]) == key(t.rows[i]);
      Table(rows, t.next)
  }

  /** `table.delete(k)`. */
  function Delete<T>(t: Table<T>, key: T -> int, k: int): (r: Table<T>)
    requires WellFormed(t, key)
    ensures WellFormed(r, key) && r.next == t.next
    ensures forall j :: Get(r.rows, key, j) == if j == k then None else Get(t.rows, key, j)
  {
    var rows := Remove(t.rows, key, k);
    forall j ensures Get(rows, key, j) == if j == k then None else Get(t.rows, key, j) {
      GetRemove(t.rows, key, k, j);
    }
    forall i | 0 <= i < |rows| ensures key(rows[i]) < t.next {
      var a :| 0 <= a < |t.rows| && t.rows[a] == rows[i];
    }
    Table(rows, t.next)
  }

  /** `table.clear()`: every row goes, the key generator stays. */
  function Clear<T>(t: Table<T>): (r: Table<T>)
    ensures r.rows == [] && r.next == t.next
  {
    Table([], t.next)
  }

  /** `table.bulkAdd(adds)` on a whole store. */
  function BulkAddTo<T>(t: Table<T>, key: T -> int, adds: seq<T>): (r: Option<Table<T>>)
    requires WellFormed(t, key)
    ensures r.Some? ==> WellFormed(r.value, key) && t.next <= r.value.next
    ensures r.Some? ==> multiset(r.value.rows) == multiset(t.rows) + multiset(adds)
  {
    match BulkAdd(t.rows, key, t.next, adds)
    case None => None
    case Some((rows, n)) => Some(Table(rows, n))
  }

  /** Clearing a store and bulk-adding the rows it held rebuilds it exactly,
      key generator included. */
  lemma ClearReload<T>(t: Table<T>, key: T -> int)
    requires WellFormed(t, key)
    ensures BulkAddTo(Clear(t), key, t.rows) == Some(t)
  {
    Reload(t.rows, key, t.next);
  }
}
