/** Sequence predicates and the keyed upsert that both cache tables perform. */
module Collections {

  predicate NoDuplicates<T(==)>(s: seq<T>) {
    forall i, j | 0 <= i < j < |s| :: s[i] != s[j]
  }

  predicate StrictlyDescending(s: seq<int>) {
    forall i, j | 0 <= i < j < |s| :: s[i] > s[j]
  }

  /** Every row of `m` is stored under its own key. */
  ghost predicate Keyed<K, V>(m: map<K, V>, key: V -> K) {
    forall k | k in m :: key(m[k]) == k
  }

  /** The rows stored under `keys`, in that order. */
  function RowsAt<K, V>(rows: map<K, V>, keys: seq<K>): (r: seq<V>)
    requires forall i | 0 <= i < |keys| :: keys[i] in rows
    ensures |r| == |keys|
    ensures forall i | 0 <= i < |keys| :: r[i] == rows[keys[i]]
  {
    if keys == [] then [] else [rows[keys[0]]] + RowsAt(rows, keys[1..])
  }

  /** The keys a batch of rows carries. */
  function KeysOf<K, V>(batch: seq<V>, key: V -> K): set<K> {
    set i | 0 <= i < |batch| :: key(batch[i])
  }

  /**
   * Writes the rows of `batch` into a table keyed by `key`, one after another;
   * a row whose key is already present replaces the stored one (INSERT OR REPLACE).
   */
  function UpsertAll<K, V>(m: map<K, V>, batch: seq<V>, key: V -> K): (r: map<K, V>)
    ensures r.Keys == m.Keys + KeysOf(batch, key)
  {
    if batch == [] then m
    else
      var last := batch[|batch| - 1];
      var r' := UpsertAll(m, batch[..|batch| - 1], key);
      assert KeysOf(batch, key) == KeysOf(batch[..|batch| - 1], key) + {key(last)} by {
        forall k | k in KeysOf(batch, key)
          ensures k in KeysOf(batch[..|batch| - 1], key) + {key(last)}
        {
          var i :| 0 <= i < |batch| && key(batch[i]) == k;
          if i < |batch| - 1 { assert batch[..|batch| - 1][i] == batch[i]; }
        }
      }
      r'[key(last) := last]
  }

  /** The last row of a batch with a given key is the one the table keeps. */
  lemma {:induction false} LastWriteWins<K, V>(m: map<K, V>, batch: seq<V>, key: V -> K, i: nat)
    requires i < |batch|
    requires forall j | i < j < |batch| :: key(batch[j]) != key(batch[i])
    ensures key(batch[i]) in UpsertAll(m, batch, key)
    ensures UpsertAll(m, batch, key)[key(batch[i])] == batch[i]
  {
    if i < |batch| - 1 {
      var front := batch[..|batch| - 1];
      forall j | i < j < |front| ensures key(front[j]) != key(front[i]) {
        assert front[j] == batch[j];
      }
      LastWriteWins(m, front, key, i);
      assert front[i] == batch[i];
    }
  }

  /** Rows whose keys the batch does not carry are untouched. */
  lemma {:induction false} OtherKeysUnchanged<K, V>(m: map<K, V>, batch: seq<V>, key: V -> K, k: K)
    requires k !in KeysOf(batch, key)
    ensures k in UpsertAll(m, batch, key) <==> k in m
    ensures k in m ==> UpsertAll(m, batch, key)[k] == m[k]
  {
    if batch != [] {
      var front := batch[..|batch| - 1];
      assert key(batch[|batch| - 1]) != k;
      assert KeysOf(front, key) <= KeysOf(batch, key) by {
        forall x | x in KeysOf(front, key) ensures x in KeysOf(batch, key) {
          var i :| 0 <= i < |front| && key(front[i]) == x;
          assert batch[i] == front[i];
        }
      }
      OtherKeysUnchanged(m, front, key, k);
    }
  }

  /** Writing `a` then `b` is writing `a + b`: per-page writes compose. */
  lemma {:induction false} UpsertAllAppend<K, V>(m: map<K, V>, a: seq<V>, b: seq<V>, key: V -> K)
    ensures UpsertAll(m, a + b, key) == UpsertAll(UpsertAll(m, a, key), b, key)
  {
    if b == [] {
      assert a + b == a;
    } else {
      var b' := b[..|b| - 1];
      assert (a + b)[..|a + b| - 1] == a + b';
      assert (a + b)[|a + b| - 1] == b[|b| - 1];
      UpsertAllAppend(m, a, b', key);
    }
  }

  /** Upserting keeps every row stored under its own key. */
  lemma {:induction false} UpsertKeepsKeyed<K, V>(m: map<K, V>, batch: seq<V>, key: V -> K)
    requires Keyed(m, key)
    ensures Keyed(UpsertAll(m, batch, key), key)
  {
    if batch != [] {
      UpsertKeepsKeyed(m, batch[..|batch| - 1], key);
    }
  }
}
