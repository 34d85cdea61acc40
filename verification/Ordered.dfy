/** Finite maps with string keys, kept as their entries in strictly ascending
    order of name: one sequence per map. */
module Ordered {
  import opened Text

  datatype Entry<+V> = Entry(name: string, value: V)

  predicate Sorted<V>(entries: seq<Entry<V>>) {
    forall i, k :: 0 <= i < k < |entries| ==> Less(entries[i].name, entries[k].name)
  }

  /** A map insertion: the last value given for a name wins. */
  function Put<V>(entries: seq<Entry<V>>, e: Entry<V>): seq<Entry<V>> {
    if entries == [] then [e]
    else if entries[0].name == e.name then [e] + entries[1..]
    else if Less(e.name, entries[0].name) then [e] + entries
    else [entries[0]] + Put(entries[1..], e)
  }

  lemma {:induction false} PutLast<V>(entries: seq<Entry<V>>, e: Entry<V>)
    requires Sorted(entries + [e])
    ensures Put(entries, e) == entries + [e]
  {
    if entries != [] {
      var s := entries + [e];
      assert s[0] == entries[0] && s[|entries|] == e;
      LessTrichotomy(entries[0].name, e.name);
      assert (entries[1..] + [e]) == s[1..];
      forall i, k | 0 <= i < k < |entries[1..] + [e]|
        ensures Less((entries[1..] + [e])[i].name, (entries[1..] + [e])[k].name)
      {
        assert Less(s[i + 1].name, s[k + 1].name);
      }
      PutLast(entries[1..], e);
    }
  }

  lemma PutNext<V>(before: seq<Entry<V>>, entries: seq<Entry<V>>)
    requires entries != [] && Sorted(before + entries)
    ensures Put(before, entries[0]) == before + [entries[0]]
    ensures before + [entries[0]] + entries[1..] == before + entries
  {
    var all := before + entries;
    assert before + [entries[0]] == all[..|before| + 1];
    PutLast(before, entries[0]);
  }

  lemma {:induction false} PutKeepsSorted<V>(entries: seq<Entry<V>>, e: Entry<V>)
    requires Sorted(entries)
    ensures Sorted(Put(entries, e))
    ensures forall x :: x in Put(entries, e) ==> x == e || x in entries
  {
    if entries != [] && entries[0].name != e.name {
      LessTrichotomy(entries[0].name, e.name);
      if Less(e.name, entries[0].name) {
        forall i | 0 <= i < |entries|
          ensures Less(e.name, entries[i].name)
        {
          if i > 0 {
            LessTransitive(e.name, entries[0].name, entries[i].name);
          }
        }
      } else {
        PutKeepsSorted(entries[1..], e);
        var rest := Put(entries[1..], e);
        forall i | 0 <= i < |rest|
          ensures Less(entries[0].name, rest[i].name)
        {
          assert rest[i] in rest;
          if rest[i] != e {
            var k :| 0 <= k < |entries[1..]| && entries[1..][k] == rest[i];
            assert entries[k + 1] == rest[i];
          }
        }
      }
    } else if entries != [] {
      forall i | 0 < i < |entries|
        ensures Less(e.name, entries[i].name)
      {
        assert Less(entries[0].name, entries[i].name);
      }
    }
  }
}
