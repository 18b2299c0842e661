/** Rows of a SQLite table with an `INTEGER PRIMARY KEY AUTOINCREMENT` column,
    held as a map from id to row. */
module Tables {

  predicate IdsBelow<T>(m: map<int, T>, next: int) {
    forall id :: id in m ==> 1 <= id < next
  }

  /** The rows whose id lies in `[lo, hi)`, as (id, row) pairs in increasing id
      order: what a plain `SELECT` over the table yields. */
  function ByIdOrder<T>(m: map<int, T>, lo: int, hi: int): (r: seq<(int, T)>)
    ensures forall i :: 0 <= i < |r| ==> lo <= r[i].0 < hi && r[i].0 in m && m[r[i].0] == r[i].1
    ensures forall id :: lo <= id < hi && id in m ==> (id, m[id]) in r
    ensures forall i, j :: 0 <= i < j < |r| ==> r[i].0 < r[j].0
    decreases hi - lo
  {
    if hi <= lo then []
    else
      var rest := ByIdOrder(m, lo + 1, hi);
      if lo in m then
        var r := [(lo, m[lo])] + rest;
        ConsKeepsOrder(m, lo, hi, rest);
        r
      else
        rest
  }

  /** Putting the row at `lo` in front of the rows in `(lo, hi)` keeps them
      in increasing id order and within `[lo, hi)`. */
  lemma ConsKeepsOrder<T>(m: map<int, T>, lo: int, hi: int, rest: seq<(int, T)>)
    requires lo < hi && lo in m
    requires forall i :: 0 <= i < |rest| ==> lo + 1 <= rest[i].0 < hi && rest[i].0 in m && m[rest[i].0] == rest[i].1
    requires forall i, j :: 0 <= i < j < |rest| ==> rest[i].0 < rest[j].0
    ensures var r := [(lo, m[lo])] + rest;
      && (forall i :: 0 <= i < |r| ==> lo <= r[i].0 < hi && r[i].0 in m && m[r[i].0] == r[i].1)
      && (forall i, j :: 0 <= i < j < |r| ==> r[i].0 < r[j].0)
  {
    var r := [(lo, m[lo])] + rest;
    assert forall i :: 0 < i < |r| ==> r[i] == rest[i - 1];
    forall i, j | 0 <= i < j < |r| ensures r[i].0 < r[j].0 {
      assert r[j] == rest[j - 1];
      if i > 0 {
        assert r[i] == rest[i - 1];
      }
    }
  }

  /** The table after one multi-row `INSERT` of `rows`: they get consecutive
      ids from `next` on. */
  function Appended<T>(m: map<int, T>, next: int, rows: seq<T>): (r: map<int, T>)
    requires 1 <= next && IdsBelow(m, next)
    ensures IdsBelow(r, next + |rows|)
    ensures forall id :: id in m ==> id in r && r[id] == m[id]
    ensures forall id :: next <= id < next + |rows| ==> id in r && r[id] == rows[id - next]
    ensures forall id :: id in r ==> id in m || next <= id < next + |rows|
    decreases |rows|
  {
    if rows == [] then m
    else
      var m' := m[next := rows[0]];
      var r := Appended(m', next + 1, rows[1..]);
      assert next in m' && r[next] == rows[0];
      ShiftedRows(r, next, rows);
      assert forall id :: id in m ==> id in m' && m'[id] == m[id];
      r
  }

  /** Rows placed from `next + 1` on, after a first row at `next`, sit from `next` on. */
  lemma ShiftedRows<T>(r: map<int, T>, next: int, rows: seq<T>)
    requires rows != [] && next in r && r[next] == rows[0]
    requires forall id :: next + 1 <= id < next + 1 + |rows[1..]| ==> id in r && r[id] == rows[1..][id - (next + 1)]
    ensures forall id :: next <= id < next + |rows| ==> id in r && r[id] == rows[id - next]
  {
    forall id | next <= id < next + |rows| ensures id in r && r[id] == rows[id - next] {
      if id > next {
        assert rows[1..][id - (next + 1)] == rows[id - next];
      }
    }
  }

  /** A guarded seed: the rows are inserted only when the table is empty. */
  function Seeded<T>(m: map<int, T>, next: int, rows: seq<T>): map<int, T>
    requires 1 <= next && IdsBelow(m, next)
  {
    if m == map[] then Appended(m, next, rows) else m
  }

  /** A seed with rows leaves the table non-empty, whatever it held before. */
  lemma SeededNotEmpty<T>(m: map<int, T>, next: int, rows: seq<T>)
    requires IdsBelow(m, next) && 1 <= next && |rows| > 0
    ensures Seeded(m, next, rows) != map[]
  {
    if m == map[] {
      assert next in Appended(m, next, rows);
    }
  }

  /** Seeding twice inserts nothing the second time, whatever ids and rows
      the second run would use, as long as the first run had rows to insert. */
  lemma SeededTwice<T>(m: map<int, T>, next: int, rows: seq<T>, next': int, rows': seq<T>)
    requires IdsBelow(m, next) && 1 <= next && |rows| > 0
    requires 1 <= next' && IdsBelow(Seeded(m, next, rows), next')
    ensures Seeded(Seeded(m, next, rows), next', rows') == Seeded(m, next, rows)
  {
    SeededNotEmpty(m, next, rows);
  }
}
