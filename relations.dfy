/** Relational building blocks shared by every table of the kanban store.
    A table is a sequence of rows in rowid order; a WHERE clause is a
    predicate over rows; `fetchone()` takes the first matching row. */
module Relations {

  datatype Option<T> = None | Some(value: T)

  /** `if column_id:` — None and 0 are both falsy. */
  predicate Truthy(columnId: Option<int>)
  {
    columnId.Some? && columnId.value != 0
  }

  /** Python truthiness of an optional string argument. */
  predicate Given(arg: Option<string>)
  {
    arg.Some? && arg.value != ""
  }

  /** Rows whose keys strictly increase: rowid order of an AUTOINCREMENT table. */
  ghost predicate Increasing<T>(s: seq<T>, key: T -> int)
  {
    forall i, j :: 0 <= i < j < |s| ==> key(s[i]) < key(s[j])
  }

  /** An AUTOINCREMENT table: keys increase, start at 1 and stay below the
      next key the table will hand out. */
  ghost predicate IdTable<T>(s: seq<T>, key: T -> int, next: int)
  {
    && 1 <= next
    && Increasing(s, key)
    && forall x :: x in s ==> 1 <= key(x) < next
  }

  /** The rows of `s` that satisfy `p`, in table order (SELECT ... WHERE p,
      and equally the rows a DELETE ... WHERE !p leaves behind). */
  function Filter<T(!new)>(s: seq<T>, p: T -> bool): (r: seq<T>)
    ensures |r| <= |s|
    ensures forall x :: x in r <==> x in s && p(x)
    decreases |s|
  {
    if s == [] then []
    else
      assert s == [s[0]] + s[1..];
      if p(s[0]) then [s[0]] + Filter(s[1..], p) else Filter(s[1..], p)
  }

  /** `fetchone()` after SELECT ... WHERE p: the first matching row, if any. */
  function Find<T(!new)>(s: seq<T>, p: T -> bool): (r: Option<T>)
    ensures r.None? <==> forall x :: x in s ==> !p(x)
    ensures r.Some? ==> r.value in s && p(r.value)
    ensures r.Some? ==> exists i :: 0 <= i < |s| && s[i] == r.value && forall j :: 0 <= j < i ==> !p(s[j])
    decreases |s|
  {
    if s == [] then None
    else
      assert s == [s[0]] + s[1..];
      if p(s[0]) then Some(s[0])
      else
        var r := Find(s[1..], p);
        assert r.Some? ==> exists i :: 0 <= i < |s[1..]| && s[1..][i] == r.value && forall j :: 0 <= j < i ==> !p(s[1..][j]);
        assert r.Some? ==> exists i :: 0 <= i < |s| && s[i] == r.value && forall j :: 0 <= j < i ==> !p(s[j]);
        r
  }

  /** UPDATE ... SET f WHERE p, row by row. */
  function Update<T>(s: seq<T>, p: T -> bool, f: T -> T): (r: seq<T>)
    ensures |r| == |s|
  {
    seq(|s|, i requires 0 <= i < |s| => if p(s[i]) then f(s[i]) else s[i])
  }

  /** Deleting rows keeps the remaining keys in increasing order. */
  lemma {:induction false} FilterIncreasing<T(!new)>(s: seq<T>, p: T -> bool, key: T -> int)
    requires Increasing(s, key)
    ensures Increasing(Filter(s, p), key)
    decreases |s|
  {
    if s != [] {
      var tail := s[1..];
      assert Increasing(tail, key) by {
        forall i, j | 0 <= i < j < |tail| ensures key(tail[i]) < key(tail[j]) {
          assert tail[i] == s[i + 1] && tail[j] == s[j + 1];
        }
      }
      FilterIncreasing(tail, p, key);
      if p(s[0]) {
        var rest := Filter(tail, p);
        forall x | x in rest ensures key(s[0]) < key(x) {
          var j :| 0 <= j < |tail| && tail[j] == x;
          assert s[j + 1] == x;
        }
        var r := [s[0]] + rest;
        forall i, j | 0 <= i < j < |r| ensures key(r[i]) < key(r[j]) {
          assert r[j] == rest[j - 1] && r[j] in rest;
          if i > 0 { assert r[i] == rest[i - 1]; }
        }
      }
    }
  }

  /** A table survives a DELETE unchanged when no row matches it. */
  lemma {:induction false} FilterKeepsAll<T(!new)>(s: seq<T>, p: T -> bool)
    requires forall x :: x in s ==> p(x)
    ensures Filter(s, p) == s
    decreases |s|
  {
    if s != [] {
      assert s[0] in s;
      assert forall x :: x in s[1..] ==> x in s;
      FilterKeepsAll(s[1..], p);
      assert s == [s[0]] + s[1..];
    }
  }

  /** Selecting from rows appended after a table is selecting from each part. */
  lemma {:induction false} FilterAppend<T(!new)>(s: seq<T>, t: seq<T>, p: T -> bool)
    ensures Filter(s + t, p) == Filter(s, p) + Filter(t, p)
    decreases |s|
  {
    if s != [] {
      assert (s + t)[1..] == s[1..] + t;
      FilterAppend(s[1..], t, p);
    } else {
      assert s + t == t;
    }
  }

  /** A WHERE clause no row satisfies selects nothing. */
  lemma {:induction false} FilterNone<T(!new)>(s: seq<T>, p: T -> bool)
    requires forall x :: x in s ==> !p(x)
    ensures Filter(s, p) == []
    decreases |s|
  {
    if s != [] {
      assert s[0] in s;
      assert forall x :: x in s[1..] ==> x in s;
      FilterNone(s[1..], p);
    }
  }

  /** Appending a row whose key exceeds all others keeps keys increasing:
      this is an INSERT into an AUTOINCREMENT table. */
  lemma AppendIdTable<T>(s: seq<T>, key: T -> int, next: int, x: T)
    requires IdTable(s, key, next) && key(x) == next
    ensures IdTable(s + [x], key, next + 1)
  {
    var r := s + [x];
    forall i, j | 0 <= i < j < |r| ensures key(r[i]) < key(r[j]) {
      assert r[i] == s[i];
      if j < |s| { assert r[j] == s[j]; } else { assert s[i] in s; }
    }
  }

  /** In an increasing table a key identifies at most one row. */
  lemma IncreasingKeyUnique<T>(s: seq<T>, key: T -> int, x: T, y: T)
    requires Increasing(s, key) && x in s && y in s && key(x) == key(y)
    ensures x == y
  {
    var i :| 0 <= i < |s| && s[i] == x;
    var j :| 0 <= j < |s| && s[j] == y;
    assert i == j;
  }

  /** An UPDATE that keeps every key keeps the table an AUTOINCREMENT table. */
  lemma UpdateIdTable<T>(s: seq<T>, p: T -> bool, f: T -> T, key: T -> int, next: int)
    requires IdTable(s, key, next)
    requires forall x :: key(f(x)) == key(x)
    ensures IdTable(Update(s, p, f), key, next)
  {
    var r := Update(s, p, f);
    forall x | x in r ensures 1 <= key(x) < next {
      var i :| 0 <= i < |r| && r[i] == x;
      assert s[i] in s;
    }
  }
}
