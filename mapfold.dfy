/** Inserting rows into a Go map one after another: a later row with the same
    key overwrites an earlier one. */
module MapFold {

  function Overwrite<K, V>(m: map<K, V>, rows: seq<(K, V)>): (r: map<K, V>)
  {
    if |rows| == 0 then m
    else Overwrite(m, rows[..|rows| - 1])[rows[|rows| - 1].0 := rows[|rows| - 1].1]
  }

  /** Some row has key k. */
  predicate HasKey<K(==), V>(rows: seq<(K, V)>, k: K)
  {
    exists i :: 0 <= i < |rows| && rows[i].0 == k
  }

  /** The position of the last row with key k, or -1. */
  function LastIndex<K(==), V>(rows: seq<(K, V)>, k: K): (i: int)
    ensures -1 <= i < |rows|
    ensures i >= 0 ==> rows[i].0 == k && forall j :: i < j < |rows| ==> rows[j].0 != k
    ensures i == -1 ==> !HasKey(rows, k)
  {
    if |rows| == 0 then -1
    else if rows[|rows| - 1].0 == k then |rows| - 1
    else
      LastIndex(rows[..|rows| - 1], k)
  }

  /** After the rows are inserted, k is present exactly when it was before
      or some row has it, and it maps to the value of the last such row. */
  lemma {:induction false} OverwriteLookup<K, V>(m: map<K, V>, rows: seq<(K, V)>, k: K)
    ensures k in Overwrite(m, rows) <==> k in m || HasKey(rows, k)
    ensures HasKey(rows, k) ==> Overwrite(m, rows)[k] == rows[LastIndex(rows, k)].1
    ensures !HasKey(rows, k) && k in m ==> Overwrite(m, rows)[k] == m[k]
  {
    if |rows| > 0 {
      var init := rows[..|rows| - 1];
      OverwriteLookup(m, init, k);
      if rows[|rows| - 1].0 != k {
        assert HasKey(rows, k) <==> HasKey(init, k) by {
          if HasKey(rows, k) {
            var j :| 0 <= j < |rows| && rows[j].0 == k;
            assert init[j].0 == k;
          }
          if HasKey(init, k) {
            var j :| 0 <= j < |init| && init[j].0 == k;
            assert rows[j].0 == k;
          }
        }
        assert LastIndex(rows, k) == LastIndex(init, k);
      }
    }
  }
}
