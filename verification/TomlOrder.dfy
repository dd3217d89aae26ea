/** Dictionaries are maps in the order of their keys, and inserting keeps them so. */
module TomlOrder {
  import opened TomlModel
  import opened TomlPrinting

  // ---- the order of keys ----

  lemma {:induction false} LessIsTotal(a: string, b: string)
    ensures Less(a, b) || a == b || Less(b, a)
  {
    if a != "" && b != "" && a[0] == b[0] {
      LessIsTotal(a[1..], b[1..]);
      assert a == [a[0]] + a[1..] && b == [b[0]] + b[1..];
    }
  }

  lemma {:induction false} LessIsTransitive(a: string, b: string, c: string)
    requires Less(a, b) && Less(b, c)
    ensures Less(a, c)
  {
    if a != "" && a[0] == b[0] && b[0] == c[0] {
      LessIsTransitive(a[1..], b[1..], c[1..]);
    }
  }

  // ---- a dictionary as a map ----

  ghost function AsMap(d: Dict): map<string, Value> {
    if d == [] then map[] else AsMap(d[1..])[d[0].key := d[0].value]
  }

  lemma {:induction false} KeysOf(d: Dict, key: string)
    ensures key in AsMap(d) <==> exists k :: 0 <= k < |d| && d[k].key == key
  {
    if d != [] {
      KeysOf(d[1..], key);
      if key in AsMap(d) && key != d[0].key {
        var k :| 0 <= k < |d[1..]| && d[1..][k].key == key;
        assert d[k + 1].key == key;
      }
      if k :| 0 <= k < |d| && d[k].key == key {
        assert k > 0 ==> d[1..][k - 1].key == key;
      }
    }
  }

  /** In a sorted dictionary, inserting is updating the map; and it stays sorted. */
  lemma {:induction false} InsertUpdates(d: Dict, key: string, value: Value)
    requires Sorted(d)
    ensures Sorted(Insert(d, key, value))
    ensures AsMap(Insert(d, key, value)) == AsMap(d)[key := value]
    ensures forall k :: 0 <= k < |Insert(d, key, value)| ==>
              Insert(d, key, value)[k] in d || Insert(d, key, value)[k] == Entry(key, value)
  {
    hide Less;
    if d != [] {
      var tail := d[1..];
      SortedTail(d);
      if d[0].key == key {
        SortedCons(Entry(key, value), tail);
        assert AsMap(d)[key := value] == AsMap(tail)[key := value];
      } else if Less(key, d[0].key) {
        forall k | 0 <= k < |d| ensures Less(key, d[k].key) {
          if k > 0 { LessIsTransitive(key, d[0].key, d[k].key); }
        }
        SortedCons(Entry(key, value), d);
      } else {
        LessIsTotal(key, d[0].key);
        InsertUpdates(tail, key, value);
        SortedAfter(d, key, value);
      }
    }
  }

  lemma SortedTail(d: Dict)
    requires d != [] && Sorted(d)
    ensures Sorted(d[1..]) && forall k :: 0 <= k < |d[1..]| ==> Less(d[0].key, d[1..][k].key)
  {
  }

  lemma SortedCons(e: Entry, tail: Dict)
    requires Sorted(tail) && forall k :: 0 <= k < |tail| ==> Less(e.key, tail[k].key)
    ensures Sorted([e] + tail)
  {
  }

  lemma SortedAfter(d: Dict, key: string, value: Value)
    requires d != [] && Sorted(d) && Less(d[0].key, key) && Sorted(Insert(d[1..], key, value))
    requires forall k :: 0 <= k < |Insert(d[1..], key, value)| ==>
               Insert(d[1..], key, value)[k] in d[1..] || Insert(d[1..], key, value)[k] == Entry(key, value)
    ensures Sorted([d[0]] + Insert(d[1..], key, value))
  {
    hide Insert, Less;
    var rest := Insert(d[1..], key, value);
    forall k | 0 <= k < |rest| ensures Less(d[0].key, rest[k].key) {
      if rest[k] in d[1..] {
        var j :| 0 <= j < |d[1..]| && d[1..][j] == rest[k];
        assert d[j + 1] == rest[k];
      }
    }
    SortedCons(d[0], rest);
  }
}
