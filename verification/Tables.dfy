/** SQL tables with a text primary key, and decimal text: what internal/kaapi/sql_store.go relies on. */
module Tables {
  import opened Octets
  import S = Store

  ghost predicate UniqueKeys<R>(rows: seq<R>, key: R -> Bytes) {
    forall i, j :: 0 <= i < j < |rows| ==> key(rows[i]) != key(rows[j])
  }

  /** SELECT ... WHERE key = id, first row. */
  function Select<R>(rows: seq<R>, key: R -> Bytes, id: Bytes): (r: Option<R>)
    ensures r.Some? ==> key(r.value) == id && r.value in rows
    ensures r.None? ==> forall i :: 0 <= i < |rows| ==> key(rows[i]) != id
  {
    if rows == [] then None
    else if key(rows[0]) == id then Some(rows[0])
    else Select(rows[1..], key, id)
  }

  /** UPDATE ... WHERE key = id, applied to every such row. */
  function Update<R>(rows: seq<R>, key: R -> Bytes, id: Bytes, f: R -> R): (r: seq<R>)
    ensures |r| == |rows|
    ensures forall i :: 0 <= i < |rows| ==> r[i] == if key(rows[i]) == id then f(rows[i]) else rows[i]
  {
    if rows == [] then []
    else [if key(rows[0]) == id then f(rows[0]) else rows[0]] + Update(rows[1..], key, id, f)
  }

  /** The table as a map from key to row. */
  ghost function Index<R>(rows: seq<R>, key: R -> Bytes): map<Bytes, R> {
    if rows == [] then map[]
    else Index(rows[..|rows| - 1], key)[key(rows[|rows| - 1]) := rows[|rows| - 1]]
  }

  lemma {:induction false} IndexHolds<R>(rows: seq<R>, key: R -> Bytes)
    requires UniqueKeys(rows, key)
    ensures forall i :: 0 <= i < |rows| ==>
      key(rows[i]) in Index(rows, key) && Index(rows, key)[key(rows[i])] == rows[i]
    ensures forall id :: id in Index(rows, key) ==> exists i :: 0 <= i < |rows| && key(rows[i]) == id
  {
    if rows != [] {
      var front := rows[..|rows| - 1];
      assert forall i :: 0 <= i < |front| ==> front[i] == rows[i];
      IndexHolds(front, key);
      forall id | id in Index(rows, key)
        ensures exists i :: 0 <= i < |rows| && key(rows[i]) == id
      {
        if id in Index(front, key) {
          var i :| 0 <= i < |front| && key(front[i]) == id;
          assert key(rows[i]) == id;
        } else {
          assert key(rows[|rows| - 1]) == id;
        }
      }
    }
  }

  lemma SelectIsLookup<R>(rows: seq<R>, key: R -> Bytes, id: Bytes)
    requires UniqueKeys(rows, key)
    ensures Select(rows, key, id) == if id in Index(rows, key) then Some(Index(rows, key)[id]) else None
  {
    IndexHolds(rows, key);
    var r := Select(rows, key, id);
    if r.Some? {
      var i :| 0 <= i < |rows| && rows[i] == r.value;
      assert key(rows[i]) == id;
    }
  }

  lemma UpdateKeepsKeys<R>(rows: seq<R>, key: R -> Bytes, id: Bytes, f: R -> R)
    requires UniqueKeys(rows, key) && forall r :: key(f(r)) == key(r)
    ensures UniqueKeys(Update(rows, key, id, f), key)
  {
    var rows' := Update(rows, key, id, f);
    hide Update;
    assert forall i :: 0 <= i < |rows| ==> key(rows'[i]) == key(rows[i]);
  }

  lemma AbsentFromFront<R>(rows: seq<R>, key: R -> Bytes)
    requires UniqueKeys(rows, key) && rows != []
    ensures key(rows[|rows| - 1]) !in Index(rows[..|rows| - 1], key)
  {
    var front := rows[..|rows| - 1];
    assert forall i :: 0 <= i < |front| ==> front[i] == rows[i];
    IndexHolds(front, key);
  }

  /** What an update makes of the index. */
  ghost function Stored<R>(m: map<Bytes, R>, id: Bytes, f: R -> R): map<Bytes, R> {
    if id in m then m[id := f(m[id])] else m
  }

  lemma StoredSnoc<R>(m: map<Bytes, R>, k: Bytes, row: R, id: Bytes, f: R -> R)
    requires k !in m
    ensures Stored(m[k := row], id, f) == Stored(m, id, f)[k := if k == id then f(row) else row]
  {
  }

  lemma IndexSnoc<R>(rows: seq<R>, key: R -> Bytes)
    requires rows != []
    ensures Index(rows, key) == Index(rows[..|rows| - 1], key)[key(rows[|rows| - 1]) := rows[|rows| - 1]]
  {
  }

  lemma UpdateSnoc<R>(rows: seq<R>, key: R -> Bytes, id: Bytes, f: R -> R)
    requires rows != []
    ensures
      var n := |rows| - 1;
      var rows' := Update(rows, key, id, f);
      && rows'[..n] == Update(rows[..n], key, id, f)
      && rows'[n] == if key(rows[n]) == id then f(rows[n]) else rows[n]
  {
    hide Update;
  }

  lemma {:induction false} UpdateIsStore<R>(rows: seq<R>, key: R -> Bytes, id: Bytes, f: R -> R)
    requires UniqueKeys(rows, key) && forall r :: key(f(r)) == key(r)
    ensures UniqueKeys(Update(rows, key, id, f), key)
    ensures Index(Update(rows, key, id, f), key) == Stored(Index(rows, key), id, f)
  {
    UpdateKeepsKeys(rows, key, id, f);
    if rows != [] {
      var front, last := rows[..|rows| - 1], rows[|rows| - 1];
      assert UniqueKeys(front, key) by {
        assert forall i :: 0 <= i < |front| ==> front[i] == rows[i];
      }
      UpdateIsStore(front, key, id, f);
      AbsentFromFront(rows, key);
      IndexSnoc(rows, key);
      IndexSnoc(Update(rows, key, id, f), key);
      UpdateSnoc(rows, key, id, f);
      StoredSnoc(Index(front, key), key(last), last, id, f);
      hide Update, Index, Stored, UniqueKeys;
    }
  }

  lemma InsertIsStore<R>(rows: seq<R>, key: R -> Bytes, row: R)
    requires UniqueKeys(rows, key) && key(row) !in Index(rows, key)
    ensures UniqueKeys(rows + [row], key)
    ensures Index(rows + [row], key) == Index(rows, key)[key(row) := row]
  {
    IndexHolds(rows, key);
    assert (rows + [row])[..|rows|] == rows;
  }

  // ------------------------------------------------------------------ tables read as records

  /** The table as a map from key to record. */
  ghost function View<R, T>(rows: seq<R>, key: R -> Bytes, read: R -> T): map<Bytes, T> {
    map id | id in Index(rows, key) :: read(Index(rows, key)[id])
  }

  lemma ViewSelect<R, T>(rows: seq<R>, key: R -> Bytes, read: R -> T, id: Bytes)
    requires UniqueKeys(rows, key)
    ensures
      match Select(rows, key, id)
      case Some(r) => id in View(rows, key, read) && View(rows, key, read)[id] == read(r)
      case None => id !in View(rows, key, read)
  {
    SelectIsLookup(rows, key, id);
  }

  lemma ViewHolds<R, T>(rows: seq<R>, key: R -> Bytes, read: R -> T, r: R)
    requires UniqueKeys(rows, key) && r in rows
    ensures key(r) in View(rows, key, read) && View(rows, key, read)[key(r)] == read(r)
  {
    IndexHolds(rows, key);
  }

  lemma ViewComesFromRow<R, T>(rows: seq<R>, key: R -> Bytes, read: R -> T, id: Bytes)
    requires UniqueKeys(rows, key) && id in View(rows, key, read)
    ensures exists r :: r in rows && key(r) == id && View(rows, key, read)[id] == read(r)
  {
    IndexHolds(rows, key);
    var i :| 0 <= i < |rows| && key(rows[i]) == id;
    assert rows[i] in rows;
  }

  lemma ViewUpdate<R, T>(rows: seq<R>, key: R -> Bytes, read: R -> T, id: Bytes, f: R -> R)
    requires UniqueKeys(rows, key) && forall r :: key(f(r)) == key(r)
    ensures UniqueKeys(Update(rows, key, id, f), key)
    ensures
      match Select(rows, key, id)
      case Some(r) => View(Update(rows, key, id, f), key, read) == View(rows, key, read)[id := read(f(r))]
      case None => Update(rows, key, id, f) == rows
  {
    UpdateIsStore(rows, key, id, f);
    SelectIsLookup(rows, key, id);
    hide Index, Update, Select;
  }

  /** An UPDATE that acts on records as `effect` does. */
  lemma ViewExec<R, T>(rows: seq<R>, key: R -> Bytes, read: R -> T, id: Bytes, f: R -> R, effect: T -> T)
    requires UniqueKeys(rows, key) && forall r :: key(f(r)) == key(r)
    requires forall r :: read(f(r)) == effect(read(r))
    ensures UniqueKeys(Update(rows, key, id, f), key)
    ensures View(Update(rows, key, id, f), key, read) == Stored(View(rows, key, read), id, effect)
    ensures Select(rows, key, id).Some? <==> id in View(rows, key, read)
  {
    ViewSelect(rows, key, read, id);
    ViewUpdate(rows, key, read, id, f);
    hide View, Update, Select;
  }

  lemma ViewInsert<R, T>(rows: seq<R>, key: R -> Bytes, read: R -> T, row: R)
    requires UniqueKeys(rows, key) && Select(rows, key, key(row)).None?
    ensures UniqueKeys(rows + [row], key)
    ensures View(rows + [row], key, read) == View(rows, key, read)[key(row) := read(row)]
  {
    SelectIsLookup(rows, key, key(row));
    InsertIsStore(rows, key, row);
    hide Index, Select;
  }

  function ReadAll<R, T>(rows: seq<R>, read: R -> T): seq<T> {
    if rows == [] then [] else ReadAll(rows[..|rows| - 1], read) + [read(rows[|rows| - 1])]
  }

  /** Reading every row lists every record once. */
  lemma {:induction false} ReadAllLists<R, T(!new)>(rows: seq<R>, key: R -> Bytes, read: R -> T, name: T -> Bytes)
    requires UniqueKeys(rows, key) && forall r :: name(read(r)) == key(r)
    ensures multiset(ReadAll(rows, read)) == S.Values(View(rows, key, read), View(rows, key, read).Keys)
  {
    if rows != [] {
      var front, last := rows[..|rows| - 1], rows[|rows| - 1];
      assert UniqueKeys(front, key) by {
        assert forall i :: 0 <= i < |front| ==> front[i] == rows[i];
      }
      ReadAllLists(front, key, read, name);
      AbsentFromFront(rows, key);
      IndexSnoc(rows, key);
      var v, w := View(front, key, read), View(rows, key, read);
      assert w == v[key(last) := read(last)] && key(last) !in v;
      ViewInjective(rows, key, read, name);
      S.ValuesAdd(w, v.Keys, key(last));
      SameValues(v, w, v.Keys);
      hide Index, S.Values, S.Injective;
      assert w.Keys == v.Keys + {key(last)};
    }
  }

  lemma SameValues<T>(v: map<Bytes, T>, w: map<Bytes, T>, keys: set<Bytes>)
    requires keys <= v.Keys && keys <= w.Keys && forall k :: k in keys ==> v[k] == w[k]
    ensures S.Values(v, keys) == S.Values(w, keys)
  {
    assert (set k | k in keys :: v[k]) == (set k | k in keys :: w[k]);
  }

  lemma ViewInjective<R, T(!new)>(rows: seq<R>, key: R -> Bytes, read: R -> T, name: T -> Bytes)
    requires UniqueKeys(rows, key) && forall r :: name(read(r)) == key(r)
    ensures S.Injective(View(rows, key, read))
  {
    var v := View(rows, key, read);
    forall x | x in v
      ensures name(v[x]) == x
    {
      ViewComesFromRow(rows, key, read, x);
    }
    hide View;
  }

  // ------------------------------------------------------------------ decimal text

  function Digit(d: nat): char
    requires d < 10
  {
    ['0', '1', '2', '3', '4', '5', '6', '7', '8', '9'][d]
  }

  predicate IsDigit(ch: char) { '0' <= ch <= '9' }

  function Value(ch: char): nat
    requires IsDigit(ch)
  {
    ch as int - '0' as int
  }

  /** fmt.Sprintf("%d", n). */
  function Print(n: nat): string {
    if n < 10 then [Digit(n)] else Print(n / 10) + [Digit(n % 10)]
  }

  /** fmt.Sscanf(text, "%d", &n): the leading digits, as a number. */
  function Scan(text: string, acc: nat): nat {
    if text == [] || !IsDigit(text[0]) then acc else Scan(text[1..], 10 * acc + Value(text[0]))
  }

  lemma {:induction false} ScanAppend(a: string, b: string, acc: nat)
    requires forall i :: 0 <= i < |a| ==> IsDigit(a[i])
    ensures Scan(a + b, acc) == Scan(b, Scan(a, acc))
  {
    if a == [] {
      assert a + b == b;
    } else {
      assert (a + b)[1..] == a[1..] + b && (a + b)[0] == a[0];
      ScanAppend(a[1..], b, 10 * acc + Value(a[0]));
    }
  }

  lemma {:induction false} PrintIsDigits(n: nat)
    ensures forall i :: 0 <= i < |Print(n)| ==> IsDigit(Print(n)[i])
  {
    if n >= 10 {
      PrintIsDigits(n / 10);
    }
  }

  /** A printed number is scanned back exactly. */
  lemma {:induction false} ScanPrint(n: nat)
    ensures Scan(Print(n), 0) == n
  {
    if n < 10 {
      assert [Digit(n)][1..] == [];
      assert Value(Digit(n)) == n;
    } else {
      PrintIsDigits(n / 10);
      ScanAppend(Print(n / 10), [Digit(n % 10)], 0);
      ScanPrint(n / 10);
      assert [Digit(n % 10)][1..] == [];
      assert Value(Digit(n % 10)) == n % 10;
      assert Scan([Digit(n % 10)], n / 10) == 10 * (n / 10) + n % 10;
    }
  }
}
