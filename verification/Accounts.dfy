// Tables that hold one amount per key, without an index: found by a scan, saved back whole.
module Accounts {
  import opened Base

  datatype Row<K> = Row(key: K, amount: int)

  /** `findOne` by the columns of the key. */
  function FindRow<K(==)>(rows: seq<Row<K>>, key: K): (at: Option<nat>)
    ensures at.Some? ==> at.value < |rows| && rows[at.value].key == key
    ensures at.None? ==> forall r :: r in rows ==> r.key != key
  {
    FirstWhere(rows, (r: Row<K>) => r.key == key)
  }

  function Amount<K(==)>(rows: seq<Row<K>>, key: K): int {
    var at := FindRow(rows, key);
    if at.Some? then rows[at.value].amount else 0
  }

  /** Saves an entity in memory: an update of the row it was read from, or an insert. */
  function Save<K>(rows: seq<Row<K>>, key: K, at: Option<nat>, amount: int): seq<Row<K>>
    requires at.Some? ==> at.value < |rows|
  {
    if at.Some? then rows[at.value := rows[at.value].(amount := amount)] else rows + [Row(key, amount)]
  }

  ghost predicate UniqueRows<K>(rows: seq<Row<K>>) {
    forall i, j :: 0 <= i < j < |rows| ==> rows[i].key != rows[j].key
  }

  /** Writing back a fresh read changes the amount of its own key only. */
  lemma SaveWritesOneRow<K>(rows: seq<Row<K>>, key: K, amount: int, k: K)
    requires UniqueRows(rows)
    ensures
      var rows' := Save(rows, key, FindRow(rows, key), amount);
      && UniqueRows(rows')
      && (k == key ==> FindRow(rows', k).Some? && Amount(rows', k) == amount)
      && (k != key ==> FindRow(rows', k) == FindRow(rows, k) && Amount(rows', k) == Amount(rows, k))
  {
    var at := FindRow(rows, key);
    var rows' := Save(rows, key, at, amount);
    if at.Some? {
      assert rows'[at.value] in rows';
      if k != key && FindRow(rows, k).Some? {
        assert rows'[FindRow(rows, k).value] in rows';
      }
      if FindRow(rows', k).Some? {
        assert rows[FindRow(rows', k).value] in rows;
      }
    } else {
      assert rows'[|rows|] in rows';
      assert rows'[..|rows|] == rows;
    }
  }
}
