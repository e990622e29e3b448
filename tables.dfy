/** Constant `Record<string, string>` lookup tables, kept as their entries in written
    order. */
module Tables {
  import opened Wrappers

  type Table = seq<(string, string)>

  /** `table[key]`: the value of the first entry with that key, `undefined` otherwise. */
  function Lookup(entries: Table, key: string): Option<string>
    decreases |entries|
  {
    if entries == [] then None
    else if entries[0].0 == key then Some(entries[0].1)
    else Lookup(entries[1..], key)
  }

  /** A value found is the value of an entry with that key; `i` is that entry's index. */
  lemma {:induction false} LookupFound(entries: Table, key: string) returns (i: nat)
    requires Lookup(entries, key).Some?
    ensures i < |entries| && entries[i] == (key, Lookup(entries, key).value)
    decreases |entries|
  {
    if entries[0].0 == key {
      i := 0;
    } else {
      var j := LookupFound(entries[1..], key);
      i := j + 1;
    }
  }

  /** A key is missing exactly when no entry carries it. */
  lemma {:induction false} LookupNone(entries: Table, key: string)
    ensures Lookup(entries, key).None? <==> forall i :: 0 <= i < |entries| ==> entries[i].0 != key
    decreases |entries|
  {
    if entries != [] && entries[0].0 != key {
      LookupNone(entries[1..], key);
      assert forall i :: 1 <= i < |entries| ==> entries[i] == entries[1..][i - 1];
    }
  }

  predicate DistinctKeys(entries: Table) {
    forall i, j :: 0 <= i < j < |entries| ==> entries[i].0 != entries[j].0
  }

  /** With distinct keys, each entry's key looks up its own value. */
  lemma {:induction false} LookupEntry(entries: Table, i: nat)
    requires DistinctKeys(entries) && i < |entries|
    ensures Lookup(entries, entries[i].0) == Some(entries[i].1)
    decreases i
  {
    if i > 0 {
      assert entries[0].0 != entries[i].0;
      LookupEntry(entries[1..], i - 1);
    }
  }
}
