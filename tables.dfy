/**
 * A database table: its rows in primary-key order and the next value of the
 * auto-increment counter. Every query the controllers run (`find`, `first`,
 * `where(...)->get()`, `where(...)->delete()`, `save()`) is one of the
 * functions below.
 */
module Tables {
  import opened Wrappers

  datatype Row<T> = Row(id: nat, val: T)

  /** Primary keys are strictly increasing along the table. */
  ghost predicate Ascending<T>(rows: seq<Row<T>>)
  {
    forall i, j :: 0 <= i < j < |rows| ==> rows[i].id < rows[j].id
  }

  datatype Table<T> = Table(rows: seq<Row<T>>, nextId: nat) {

    /** Keys are unique, ordered, and below the auto-increment counter. */
    ghost predicate Valid()
    {
      Ascending(rows) && forall i :: 0 <= i < |rows| ==> rows[i].id < nextId
    }

    /** `INSERT`: the new row takes the counter's value as its key. */
    function Insert(v: T): (t: Table<T>)
      ensures Valid() ==> t.Valid()
      ensures |t.rows| == |rows| + 1 && t.rows[..|rows|] == rows
      ensures t.rows[|rows|] == Row(nextId, v) && t.nextId == nextId + 1
    {
      Table(rows + [Row(nextId, v)], nextId + 1)
    }

    /** `save()` on a loaded row: the row at index `i` gets new column values and keeps its key. */
    function Put(i: nat, v: T): (t: Table<T>)
      requires i < |rows|
      ensures Valid() ==> t.Valid()
      ensures |t.rows| == |rows| && t.nextId == nextId
      ensures t.rows[i] == Row(rows[i].id, v)
      ensures forall j :: 0 <= j < |rows| && j != i ==> t.rows[j] == rows[j]
    {
      Table(rows[i := Row(rows[i].id, v)], nextId)
    }

    /** `where(p)->delete()`: every row that satisfies `p` is removed. */
    function DeleteWhere(p: Row<T> -> bool): (t: Table<T>)
      ensures Valid() ==> t.Valid()
      ensures t.nextId == nextId
      ensures forall i :: 0 <= i < |t.rows| ==> t.rows[i] in rows && !p(t.rows[i])
      ensures forall i :: 0 <= i < |rows| && !p(rows[i]) ==> rows[i] in t.rows
    {
      WhereKeepsOrder(rows, Not(p));
      Table(Where(rows, Not(p)), nextId)
    }
  }

  function Not<T>(p: Row<T> -> bool): Row<T> -> bool
  {
    (r: Row<T>) => !p(r)
  }

  /** The condition `where('id', id)`. */
  function KeyIs<T>(id: int): Row<T> -> bool
  {
    (r: Row<T>) => r.id == id
  }

  /** The first row that satisfies `p` (`where(p)->first()`), by its index. */
  function Find<T>(rows: seq<Row<T>>, p: Row<T> -> bool): (r: Option<nat>)
    ensures r.Some? ==> r.value < |rows| && p(rows[r.value])
    ensures r.Some? ==> forall j :: 0 <= j < r.value ==> !p(rows[j])
    ensures r.None? <==> forall j :: 0 <= j < |rows| ==> !p(rows[j])
  {
    if |rows| == 0 then None
    else if p(rows[0]) then Some(0)
    else
      match Find(rows[1..], p)
      case None => None
      case Some(k) => Some(k + 1)
  }

  /** The rows that satisfy `p`, in table order (`where(p)->get()`). */
  function Where<T>(rows: seq<Row<T>>, p: Row<T> -> bool): (r: seq<Row<T>>)
    ensures |r| <= |rows|
    ensures forall i :: 0 <= i < |r| ==> r[i] in rows && p(r[i])
    ensures forall i :: 0 <= i < |rows| && p(rows[i]) ==> rows[i] in r
  {
    if |rows| == 0 then []
    else (if p(rows[0]) then [rows[0]] else []) + Where(rows[1..], p)
  }

  lemma {:induction false} WhereKeepsOrder<T>(rows: seq<Row<T>>, p: Row<T> -> bool)
    ensures Ascending(rows) ==> Ascending(Where(rows, p))
  {
    if |rows| > 0 && Ascending(rows) {
      var tail := Where(rows[1..], p);
      WhereKeepsOrder(rows[1..], p);
      if p(rows[0]) {
        forall k | 0 <= k < |tail| ensures rows[0].id < tail[k].id {
          var j :| 0 <= j < |rows[1..]| && rows[1..][j] == tail[k];
          assert rows[1 + j] == tail[k];
        }
        ConsAscending(rows[0], tail);
      }
    }
  }

  /** A row whose key is below every key of an ascending `tail` can be put in front of it. */
  lemma ConsAscending<T>(x: Row<T>, tail: seq<Row<T>>)
    requires Ascending(tail) && forall k :: 0 <= k < |tail| ==> x.id < tail[k].id
    ensures Ascending([x] + tail)
  {
    var s := [x] + tail;
    assert forall k :: 0 < k < |s| ==> s[k] == tail[k - 1];
  }

  lemma {:induction false} WhereAppend<T>(a: seq<Row<T>>, b: seq<Row<T>>, p: Row<T> -> bool)
    ensures Where(a + b, p) == Where(a, p) + Where(b, p)
  {
    if |a| == 0 {
      assert a + b == b;
    } else {
      assert (a + b)[1..] == a[1..] + b;
      WhereAppend(a[1..], b, p);
    }
  }

  /** `Where` of rows none of which satisfies `p` is empty, and of rows that all do is everything. */
  lemma {:induction false} WhereNone<T>(rows: seq<Row<T>>, p: Row<T> -> bool)
    requires forall i :: 0 <= i < |rows| ==> !p(rows[i])
    ensures Where(rows, p) == []
  {
    if |rows| > 0 {
      WhereNone(rows[1..], p);
    }
  }

  lemma {:induction false} WhereAll<T>(rows: seq<Row<T>>, p: Row<T> -> bool)
    requires forall i :: 0 <= i < |rows| ==> p(rows[i])
    ensures Where(rows, p) == rows
  {
    if |rows| > 0 {
      WhereAll(rows[1..], p);
    }
  }

  /** Filtering again by a condition that implies the first one is filtering once. */
  lemma {:induction false} WhereWhere<T>(rows: seq<Row<T>>, p: Row<T> -> bool, q: Row<T> -> bool)
    requires forall i :: 0 <= i < |rows| && q(rows[i]) ==> p(rows[i])
    ensures Where(Where(rows, p), q) == Where(rows, q)
  {
    if |rows| > 0 {
      WhereWhere(rows[1..], p, q);
      var head := if p(rows[0]) then [rows[0]] else [];
      WhereAppend(head, Where(rows[1..], p), q);
      if p(rows[0]) {
        assert Where(head, q) == (if q(rows[0]) then [rows[0]] else []) + Where(head[1..], q);
      }
    }
  }

  lemma WhereCons<T>(x: Row<T>, rest: seq<Row<T>>, p: Row<T> -> bool)
    ensures Where([x] + rest, p) == (if p(x) then [x] else []) + Where(rest, p)
  {
    assert ([x] + rest)[1..] == rest;
  }

  /** Filtering out the one row that fails `p` removes exactly that row. */
  lemma {:induction false} WhereDropsOne<T>(rows: seq<Row<T>>, i: nat, p: Row<T> -> bool)
    requires i < |rows| && !p(rows[i])
    requires forall k :: 0 <= k < |rows| && k != i ==> p(rows[k])
    ensures Where(rows, p) == rows[..i] + rows[i + 1..]
  {
    var tail := rows[1..];
    assert rows == [rows[0]] + tail;
    WhereCons(rows[0], tail, p);
    forall k | 0 <= k < |tail| && k + 1 != i ensures p(tail[k]) {
      assert tail[k] == rows[k + 1];
    }
    if i == 0 {
      WhereAll(tail, p);
    } else {
      WhereDropsOne(tail, i - 1, p);
      DropSplit(rows, i);
    }
  }

  lemma DropSplit<T>(s: seq<T>, i: nat)
    requires 0 < i < |s|
    ensures s[..i] + s[i + 1..] == [s[0]] + (s[1..][..i - 1] + s[1..][i..])
  {
    assert s[1..][..i - 1] == s[1..i] && s[1..][i..] == s[i + 1..];
    assert s[..i] == [s[0]] + s[1..i];
  }

  /** Deleting by key from a table with unique keys removes exactly the row with that key. */
  lemma DeleteKeyRemovesOne<T>(t: Table<T>, i: nat)
    requires t.Valid() && i < |t.rows|
    ensures t.DeleteWhere(KeyIs(t.rows[i].id)).rows == t.rows[..i] + t.rows[i + 1..]
  {
    var p := Not(KeyIs<T>(t.rows[i].id));
    forall k | 0 <= k < |t.rows| && k != i ensures p(t.rows[k]) {
      assert t.rows[k].id != t.rows[i].id;
    }
    WhereDropsOne(t.rows, i, p);
  }

  lemma WhereOne<T>(r: Row<T>, p: Row<T> -> bool)
    ensures Where([r], p) == if p(r) then [r] else []
  {
    assert [r][1..] == [];
  }

  /** `Find` returns the index of the first row that satisfies `p`, whatever way it is reached. */
  lemma FindFirst<T>(rows: seq<Row<T>>, p: Row<T> -> bool, r: nat)
    requires r < |rows| && p(rows[r]) && forall j :: 0 <= j < r ==> !p(rows[j])
    ensures Find(rows, p) == Some(r)
  {
  }

  /** `Find` sees a row only through `p`. */
  lemma {:induction false} FindAlike<T>(a: seq<Row<T>>, b: seq<Row<T>>, p: Row<T> -> bool, q: Row<T> -> bool)
    requires |a| == |b| && forall j :: 0 <= j < |a| ==> p(a[j]) == q(b[j])
    ensures Find(a, p) == Find(b, q)
  {
    if |a| > 0 && !p(a[0]) {
      FindAlike(a[1..], b[1..], p, q);
    }
  }
}
