/** Database tables as maps from row id to row, and the select/filter/order queries over them. */
module Tables {
  import opened Seqs

  /** Every id in the table is below the next id the database will issue. */
  ghost predicate Bounded<T>(table: map<nat, T>, bound: nat) {
    forall id :: id in table ==> id < bound
  }

  /** Every row is stored under its own primary key. */
  ghost predicate Keyed<T>(table: map<nat, T>, key: T -> nat) {
    forall id :: id in table ==> key(table[id]) == id
  }

  /** Distinct ids hold distinct rows (each row carries its own id). */
  ghost predicate Injective<T>(table: map<nat, T>) {
    forall i, j :: i in table && j in table && table[i] == table[j] ==> i == j
  }

  lemma KeyedIsInjective<T>(table: map<nat, T>, key: T -> nat)
    requires Keyed(table, key)
    ensures Injective(table)
  {
  }

  /** The rows with ids below n, in id order. */
  function Rows<T(==,!new)>(table: map<nat, T>, n: nat): (r: seq<T>)
    ensures forall x :: x in r <==> exists id :: id < n && id in table && table[id] == x
  {
    if n == 0 then []
    else
      var front := Rows(table, n - 1);
      if n - 1 in table then front + [table[n - 1]] else front
  }

  /** When distinct ids hold distinct rows, each row is listed once. */
  lemma {:induction false} RowsOnce<T(!new)>(table: map<nat, T>, n: nat)
    requires Injective(table)
    ensures forall x :: x in Rows(table, n) ==> multiset(Rows(table, n))[x] == 1
  {
    if n > 0 {
      RowsOnce(table, n - 1);
      var front := Rows(table, n - 1);
      if n - 1 in table {
        var v := table[n - 1];
        assert v !in front;
        assert Rows(table, n) == front + [v];
      }
    }
  }

  /** `select * where keep order by created_at desc`. */
  function Select<T(==,!new)>(table: map<nat, T>, bound: nat, keep: T -> bool, createdAt: T -> int): (r: seq<T>)
    requires Bounded(table, bound) && Injective(table)
    ensures forall x :: x in r <==> x in table.Values && keep(x)
    ensures forall x :: multiset(r)[x] == if x in table.Values && keep(x) then 1 else 0
    ensures SortedDesc(r, createdAt)
  {
    RowsOnce(table, bound);
    var rows := Filter(Rows(table, bound), keep);
    var r := SortDesc(rows, createdAt);
    forall x ensures x in r <==> x in table.Values && keep(x) {
      assert x in r <==> x in multiset(r);
      assert x in rows <==> x in multiset(rows);
      if !keep(x) {
        assert x !in rows;
      }
      if x in table.Values {
        var id :| id in table && table[id] == x;
        assert id < bound;
      }
    }
    r
  }
}
