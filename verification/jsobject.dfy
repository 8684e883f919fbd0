/** The one piece of JavaScript object semantics the site relies on:
    `Object.fromEntries(entries)` builds a record by assigning the entries
    in list order, so a key that occurs more than once keeps the value of
    its LAST occurrence. */
module JsObject {

  /** The keys occurring in `entries`. */
  ghost function KeysOf<K, V>(entries: seq<(K, V)>): set<K> {
    set i | 0 <= i < |entries| :: entries[i].0
  }

  /** Entry `i` is the last one in the list whose key is `entries[i].0`. */
  ghost predicate IsLastOccurrence<K, V>(entries: seq<(K, V)>, i: int) {
    && 0 <= i < |entries|
    && forall j :: i < j < |entries| ==> entries[j].0 != entries[i].0
  }

  /** No two entries share a key. */
  ghost predicate DistinctKeys<K, V>(entries: seq<(K, V)>) {
    forall i, j :: 0 <= i < j < |entries| ==> entries[i].0 != entries[j].0
  }

  /** `Object.fromEntries`: assign every entry in order. */
  function FromEntries<K, V>(entries: seq<(K, V)>): (m: map<K, V>)
    ensures m.Keys == KeysOf(entries)
    ensures |entries| > 0 ==> m[entries[|entries| - 1].0] == entries[|entries| - 1].1
  {
    if |entries| == 0 then map[]
    else
      var init := entries[..|entries| - 1];
      var last := entries[|entries| - 1];
      var m := FromEntries(init)[last.0 := last.1];
      assert KeysOf(entries) == KeysOf(init) + {last.0} by {
        forall k | k in KeysOf(entries) ensures k in KeysOf(init) + {last.0} {
          var i :| 0 <= i < |entries| && entries[i].0 == k;
          if i < |entries| - 1 {
            assert init[i] == entries[i];
          }
        }
        forall k | k in KeysOf(init) ensures k in KeysOf(entries) {
          var i :| 0 <= i < |init| && init[i].0 == k;
          assert entries[i] == init[i];
        }
      }
      m
  }

  /** Last writer wins: every key is bound to the value of its last entry. */
  lemma {:induction false} LastWriterWins<K, V>(entries: seq<(K, V)>, i: int)
    requires IsLastOccurrence(entries, i)
    ensures entries[i].0 in FromEntries(entries)
    ensures FromEntries(entries)[entries[i].0] == entries[i].1
    decreases |entries|
  {
    if i < |entries| - 1 {
      var init := entries[..|entries| - 1];
      assert init[i] == entries[i];
      assert IsLastOccurrence(init, i) by {
        forall j | i < j < |init| ensures init[j].0 != init[i].0 {
          assert init[j] == entries[j];
        }
      }
      LastWriterWins(init, i);
    }
  }

  /** Every key that occurs has a last occurrence. */
  lemma {:induction false} LastOccurrenceExists<K, V>(entries: seq<(K, V)>, k: K) returns (i: int)
    requires k in KeysOf(entries)
    ensures IsLastOccurrence(entries, i) && entries[i].0 == k
    decreases |entries|
  {
    if entries[|entries| - 1].0 == k {
      i := |entries| - 1;
    } else {
      var init := entries[..|entries| - 1];
      var w :| 0 <= w < |entries| && entries[w].0 == k;
      assert init[w] == entries[w];
      i := LastOccurrenceExists(init, k);
      assert init[i] == entries[i];
      forall j | i < j < |entries| ensures entries[j].0 != entries[i].0 {
        if j < |entries| - 1 {
          assert init[j] == entries[j];
        }
      }
    }
  }

  /** With distinct keys, the record holds exactly one key per entry and
      each key maps to its own entry's value. */
  lemma {:induction false} DistinctEntries<K, V>(entries: seq<(K, V)>)
    requires DistinctKeys(entries)
    ensures |FromEntries(entries)| == |entries|
    ensures forall i :: 0 <= i < |entries| ==> FromEntries(entries)[entries[i].0] == entries[i].1
    decreases |entries|
  {
    forall i | 0 <= i < |entries|
      ensures FromEntries(entries)[entries[i].0] == entries[i].1
    {
      LastWriterWins(entries, i);
    }
    if |entries| > 0 {
      var init := entries[..|entries| - 1];
      var last := entries[|entries| - 1];
      assert DistinctKeys(init) by {
        forall i, j | 0 <= i < j < |init| ensures init[i].0 != init[j].0 {
          assert init[i] == entries[i] && init[j] == entries[j];
        }
      }
      DistinctEntries(init);
      assert last.0 !in FromEntries(init) by {
        forall w | 0 <= w < |init| ensures init[w].0 != last.0 {
          assert entries[w] == init[w];
        }
      }
      assert FromEntries(entries).Keys == FromEntries(init).Keys + {last.0};
    }
  }
}
