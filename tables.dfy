/** The two ways the replicas resolve a primary-key conflict when a multi-row INSERT is applied, row by row
    in statement order. */
module Tables {

  /** The keys a statement's rows carry. */
  function RowKeys<K, V>(rows: seq<(K, V)>): set<K> {
    set i | 0 <= i < |rows| :: rows[i].0
  }

  /** `ON CONFLICT (key) DO NOTHING` and `ON DUPLICATE KEY UPDATE key = key`: a row whose key is already
      present, in the table or earlier in the same statement, is skipped. */
  function InsertIfAbsent<K, V>(table: map<K, V>, rows: seq<(K, V)>): map<K, V>
    decreases |rows|
  {
    if rows == [] then table
    else InsertIfAbsent(if rows[0].0 in table then table else table[rows[0].0 := rows[0].1], rows[1..])
  }

  /** `ON DUPLICATE KEY UPDATE col = VALUES(col), ...` over every non-key column: each row replaces what its
      key had before, so the last row with a key wins. */
  function Upsert<K, V>(table: map<K, V>, rows: seq<(K, V)>): map<K, V>
    decreases |rows|
  {
    if rows == [] then table else Upsert(table[rows[0].0 := rows[0].1], rows[1..])
  }

  lemma {:induction false} RowKeysTail<K, V>(rows: seq<(K, V)>)
    requires rows != []
    ensures RowKeys(rows) == {rows[0].0} + RowKeys(rows[1..])
  {
    forall k | k in RowKeys(rows) ensures k in {rows[0].0} + RowKeys(rows[1..]) {
      var i :| 0 <= i < |rows| && rows[i].0 == k;
      if i > 0 { assert rows[1..][i - 1] == rows[i]; }
    }
    forall k | k in RowKeys(rows[1..]) ensures k in RowKeys(rows) {
      var i :| 0 <= i < |rows[1..]| && rows[1..][i].0 == k;
      assert rows[i + 1] == rows[1..][i];
    }
  }

  // ---------------------------------------------------------------------------------------------------
  // Insert-if-absent

  /** Afterwards the table holds its old keys and every key of the statement. */
  lemma {:induction false} InsertIfAbsentKeys<K, V>(table: map<K, V>, rows: seq<(K, V)>)
    ensures InsertIfAbsent(table, rows).Keys == table.Keys + RowKeys(rows)
    decreases |rows|
  {
    if rows != [] {
      RowKeysTail(rows);
      InsertIfAbsentKeys(if rows[0].0 in table then table else table[rows[0].0 := rows[0].1], rows[1..]);
    }
  }

  /** A row already in the table keeps its old values. */
  lemma {:induction false} InsertIfAbsentKeepsExisting<K, V>(table: map<K, V>, rows: seq<(K, V)>, k: K)
    requires k in table
    ensures k in InsertIfAbsent(table, rows) && InsertIfAbsent(table, rows)[k] == table[k]
    decreases |rows|
  {
    if rows != [] {
      InsertIfAbsentKeepsExisting(if rows[0].0 in table then table else table[rows[0].0 := rows[0].1], rows[1..], k);
    }
  }

  /** A new key gets the values of its first row in the statement; later duplicates do not replace it. */
  lemma {:induction false} InsertIfAbsentFirstWins<K, V>(table: map<K, V>, rows: seq<(K, V)>, i: nat)
    requires i < |rows| && rows[i].0 !in table
    requires forall j :: 0 <= j < i ==> rows[j].0 != rows[i].0
    ensures rows[i].0 in InsertIfAbsent(table, rows) && InsertIfAbsent(table, rows)[rows[i].0] == rows[i].1
    decreases |rows|
  {
    var next := if rows[0].0 in table then table else table[rows[0].0 := rows[0].1];
    if i == 0 {
      InsertIfAbsentKeepsExisting(next, rows[1..], rows[0].0);
    } else {
      assert rows[1..][i - 1] == rows[i];
      InsertIfAbsentFirstWins(next, rows[1..], i - 1);
    }
  }

  /** A statement whose keys are all present changes nothing. */
  lemma {:induction false} InsertIfAbsentPresent<K, V>(table: map<K, V>, rows: seq<(K, V)>)
    requires RowKeys(rows) <= table.Keys
    ensures InsertIfAbsent(table, rows) == table
  {
    if rows != [] {
      RowKeysTail(rows);
      InsertIfAbsentPresent(table, rows[1..]);
    }
  }

  /** Applying the same statement twice leaves the table as applying it once. */
  lemma InsertIfAbsentIdempotent<K, V>(table: map<K, V>, rows: seq<(K, V)>)
    ensures InsertIfAbsent(InsertIfAbsent(table, rows), rows) == InsertIfAbsent(table, rows)
  {
    InsertIfAbsentKeys(table, rows);
    InsertIfAbsentPresent(InsertIfAbsent(table, rows), rows);
  }

  // ---------------------------------------------------------------------------------------------------
  // Upsert

  lemma {:induction false} UpsertKeys<K, V>(table: map<K, V>, rows: seq<(K, V)>)
    ensures Upsert(table, rows).Keys == table.Keys + RowKeys(rows)
    decreases |rows|
  {
    if rows != [] {
      RowKeysTail(rows);
      UpsertKeys(table[rows[0].0 := rows[0].1], rows[1..]);
    }
  }

  /** A key the statement does not mention keeps its row. */
  lemma {:induction false} UpsertUntouched<K, V>(table: map<K, V>, rows: seq<(K, V)>, k: K)
    requires k in table && k !in RowKeys(rows)
    ensures k in Upsert(table, rows) && Upsert(table, rows)[k] == table[k]
    decreases |rows|
  {
    if rows != [] {
      RowKeysTail(rows);
      UpsertUntouched(table[rows[0].0 := rows[0].1], rows[1..], k);
    }
  }

  /** A key gets the values of its last row in the statement, whether or not it was present before. */
  lemma {:induction false} UpsertLastWins<K, V>(table: map<K, V>, rows: seq<(K, V)>, i: nat)
    requires i < |rows|
    requires forall j :: i < j < |rows| ==> rows[j].0 != rows[i].0
    ensures rows[i].0 in Upsert(table, rows) && Upsert(table, rows)[rows[i].0] == rows[i].1
    decreases |rows|
  {
    var next := table[rows[0].0 := rows[0].1];
    if i == 0 {
      assert rows[0].0 !in RowKeys(rows[1..]) by {
        forall j | 0 <= j < |rows[1..]| ensures rows[1..][j].0 != rows[0].0 {
          assert rows[1..][j] == rows[j + 1];
        }
      }
      UpsertUntouched(next, rows[1..], rows[0].0);
    } else {
      assert rows[1..][i - 1] == rows[i];
      forall j | i - 1 < j < |rows[1..]| ensures rows[1..][j].0 != rows[1..][i - 1].0 {
        assert rows[1..][j] == rows[j + 1];
      }
      UpsertLastWins(next, rows[1..], i - 1);
    }
  }

  /** Every key of a statement has a last row. */
  lemma {:induction false} LastRow<K, V>(rows: seq<(K, V)>, k: K) returns (i: nat)
    requires k in RowKeys(rows)
    ensures i < |rows| && rows[i].0 == k
    ensures forall j :: i < j < |rows| ==> rows[j].0 != k
  {
    var n := |rows|;
    if rows[n - 1].0 == k {
      i := n - 1;
    } else {
      var w :| 0 <= w < n && rows[w].0 == k;
      assert k in RowKeys(rows[..n - 1]) by { assert rows[..n - 1][w] == rows[w]; }
      i := LastRow(rows[..n - 1], k);
      assert rows[..n - 1][i] == rows[i];
      forall j | i < j < n ensures rows[j].0 != k {
        if j < n - 1 { assert rows[..n - 1][j] == rows[j]; }
      }
    }
  }

  /** Applying the same statement twice leaves the table as applying it once. */
  lemma UpsertIdempotent<K, V>(table: map<K, V>, rows: seq<(K, V)>)
    ensures Upsert(Upsert(table, rows), rows) == Upsert(table, rows)
  {
    var once := Upsert(table, rows);
    var twice := Upsert(once, rows);
    UpsertKeys(table, rows);
    UpsertKeys(once, rows);
    forall k | k in once ensures twice[k] == once[k] {
      if k in RowKeys(rows) {
        var i := LastRow(rows, k);
        UpsertLastWins(table, rows, i);
        UpsertLastWins(once, rows, i);
      } else {
        UpsertUntouched(table, rows, k);
        UpsertUntouched(once, rows, k);
      }
    }
  }

  /** On keys that are new and distinct the two conflict rules write the same table. */
  lemma {:induction false} RulesAgreeOnFreshKeys<K, V>(table: map<K, V>, rows: seq<(K, V)>)
    requires forall i :: 0 <= i < |rows| ==> rows[i].0 !in table
    requires forall i, j :: 0 <= i < j < |rows| ==> rows[i].0 != rows[j].0
    ensures InsertIfAbsent(table, rows) == Upsert(table, rows)
    decreases |rows|
  {
    if rows != [] {
      var next := table[rows[0].0 := rows[0].1];
      forall i | 0 <= i < |rows[1..]| ensures rows[1..][i].0 !in next {
        assert rows[1..][i] == rows[i + 1];
      }
      forall i, j | 0 <= i < j < |rows[1..]| ensures rows[1..][i].0 != rows[1..][j].0 {
        assert rows[1..][i] == rows[i + 1] && rows[1..][j] == rows[j + 1];
      }
      RulesAgreeOnFreshKeys(next, rows[1..]);
    }
  }
}
