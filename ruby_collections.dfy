/** The two Ruby collection idioms the core relies on: folding key/value
    entries into a Hash where a later entry overwrites an earlier one with the
    same key (`reduce({}, :merge)` over one-entry hashes, and a run of
    `options[key] = value` assignments), and `Array#compact`. */
module RubyCollections {
  import opened Wrappers

  /** Applies the entries to `init` left to right, each one as `m[k] = v`. */
  function Assign<K, V>(init: map<K, V>, entries: seq<(K, V)>): map<K, V>
    decreases |entries|
  {
    if entries == [] then init
    else
      var last := entries[|entries| - 1];
      Assign(init, entries[..|entries| - 1])[last.0 := last.1]
  }

  /** The keys after the fold are the initial keys plus every entry's key. */
  lemma {:induction false} AssignKeys<K, V>(init: map<K, V>, entries: seq<(K, V)>)
    ensures Assign(init, entries).Keys == init.Keys + set i | 0 <= i < |entries| :: entries[i].0
    decreases |entries|
  {
    if entries != [] {
      var n := |entries| - 1;
      var front := entries[..n];
      AssignKeys(init, front);
      assert (set i | 0 <= i < |entries| :: entries[i].0)
          == (set i | 0 <= i < |front| :: front[i].0) + {entries[n].0} by {
        forall i | 0 <= i < n ensures entries[i].0 == front[i].0 { }
      }
    }
  }

  /** The last entry with a given key decides that key's value. */
  lemma {:induction false} AssignLastWins<K, V>(init: map<K, V>, entries: seq<(K, V)>, i: nat)
    requires i < |entries|
    requires forall j :: i < j < |entries| ==> entries[j].0 != entries[i].0
    ensures entries[i].0 in Assign(init, entries)
    ensures Assign(init, entries)[entries[i].0] == entries[i].1
    decreases |entries|
  {
    var n := |entries| - 1;
    if i < n {
      AssignLastWins(init, entries[..n], i);
    }
  }

  /** A key no entry mentions keeps its initial value, and a key that is
      neither initial nor mentioned stays absent. */
  lemma {:induction false} AssignUntouched<K, V>(init: map<K, V>, entries: seq<(K, V)>, k: K)
    requires forall j :: 0 <= j < |entries| ==> entries[j].0 != k
    ensures k in Assign(init, entries) <==> k in init
    ensures k in init ==> Assign(init, entries)[k] == init[k]
    decreases |entries|
  {
    if entries != [] {
      AssignUntouched(init, entries[..|entries| - 1], k);
    }
  }

  /** `Array#compact`: drops the nils and keeps the order of the rest. */
  function Compact<T>(xs: seq<Option<T>>): seq<T>
  {
    if xs == [] then []
    else (if xs[0].Some? then [xs[0].value] else []) + Compact(xs[1..])
  }

  /** What survives `compact` is exactly the non-nil elements. */
  lemma {:induction false} CompactMembers<T>(xs: seq<Option<T>>, x: T)
    ensures x in Compact(xs) <==> Some(x) in xs
  {
    if xs != [] {
      CompactMembers(xs[1..], x);
      assert xs == [xs[0]] + xs[1..];
    }
  }

  /** `compact` distributes over concatenation, so it keeps relative order. */
  lemma {:induction false} CompactAppend<T>(xs: seq<Option<T>>, ys: seq<Option<T>>)
    ensures Compact(xs + ys) == Compact(xs) + Compact(ys)
  {
    if xs != [] {
      assert (xs + ys)[1..] == xs[1..] + ys;
      CompactAppend(xs[1..], ys);
    } else {
      assert xs + ys == ys;
    }
  }
}
