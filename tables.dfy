/**
 * Reading a whole table (`ToListAsync`): the rows of a map from key to row,
 * in an order the database chooses.
 */
module Tables {

  /** The rows of `table`, each exactly once, in an unspecified order; `keys`
    * records which key each row came from. */
  method ToList<T>(table: map<nat, T>) returns (rows: seq<T>, ghost keys: seq<nat>)
    ensures |rows| == |keys| == |table|
    ensures forall i :: 0 <= i < |keys| ==> keys[i] in table && rows[i] == table[keys[i]]
    ensures forall k :: k in table ==> k in keys
    ensures forall i, j :: 0 <= i < j < |keys| ==> keys[i] != keys[j]
  {
    rows, keys := [], [];
    var todo := table.Keys;
    while todo != {}
      invariant todo <= table.Keys
      invariant |rows| == |keys|
      invariant forall i :: 0 <= i < |keys| ==> keys[i] in table && keys[i] !in todo && rows[i] == table[keys[i]]
      invariant forall k :: k in table && k !in todo ==> k in keys
      invariant forall i, j :: 0 <= i < j < |keys| ==> keys[i] != keys[j]
      invariant |keys| + |todo| == |table|
      decreases todo
    {
      var k :| k in todo;
      rows, keys := rows + [table[k]], keys + [k];
      todo := todo - {k};
    }
  }

  /** A row is listed exactly when the table holds it under some key. */
  lemma ToListMembers<T>(table: map<nat, T>, rows: seq<T>, keys: seq<nat>, x: T)
    requires |rows| == |keys|
    requires forall i :: 0 <= i < |keys| ==> keys[i] in table && rows[i] == table[keys[i]]
    requires forall k :: k in table ==> k in keys
    ensures x in rows <==> exists k :: k in table && table[k] == x
  {
    if x in rows {
      var i :| 0 <= i < |rows| && rows[i] == x;
      assert keys[i] in table && table[keys[i]] == x;
    }
    if exists k :: k in table && table[k] == x {
      var k :| k in table && table[k] == x;
      var i :| 0 <= i < |keys| && keys[i] == k;
      assert rows[i] == x;
    }
  }
}
