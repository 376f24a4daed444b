/** `std::map` with integer keys as the sequence its iterator walks: ascending keys. */
module OrderedMap {

  datatype Entry<V> = Entry(key: int, value: V)

  predicate Sorted<V>(m: seq<Entry<V>>) {
    forall i, j :: 0 <= i < j < |m| ==> m[i].key < m[j].key
  }

  predicate Has<V>(m: seq<Entry<V>>, key: int) {
    exists i :: 0 <= i < |m| && m[i].key == key
  }

  /** `m[key] = value` */
  function Put<V>(m: seq<Entry<V>>, key: int, value: V): (r: seq<Entry<V>>)
    ensures r != []
  {
    if m == [] || key < m[0].key then [Entry(key, value)] + m
    else if m[0].key == key then [Entry(key, value)] + m[1..]
    else [m[0]] + Put(m[1..], key, value)
  }

  /** `m.erase(key)` */
  function Erase<V>(m: seq<Entry<V>>, key: int): seq<Entry<V>> {
    if m == [] then [] else if m[0].key == key then m[1..] else [m[0]] + Erase(m[1..], key)
  }

  /** `m.find(key)->second`, for a key that is there. */
  function At<V>(m: seq<Entry<V>>, key: int): (v: V)
    requires Has(m, key)
    ensures Entry(key, v) in m
  {
    if m[0].key == key then m[0].value
    else
      assert Has(m[1..], key) by {
        var i :| 0 <= i < |m| && m[i].key == key;
        assert m[1..][i - 1].key == key;
      }
      At(m[1..], key)
  }

  /** Sortedness seen from the front: the head is below everything after it. */
  lemma HeadBelow<V>(m: seq<Entry<V>>, e: Entry<V>)
    requires m != [] && Sorted(m) && e in m[1..]
    ensures m[0].key < e.key
  {
    var i :| 0 <= i < |m[1..]| && m[1..][i] == e;
    assert m[i + 1] == e;
  }

  lemma {:induction false} PutMember<V>(m: seq<Entry<V>>, key: int, value: V, e: Entry<V>)
    requires Sorted(m)
    ensures e in Put(m, key, value) <==> e == Entry(key, value) || (e in m && e.key != key)
  {
    if m != [] {
      if m[0].key < key {
        PutMember(m[1..], key, value, e);
      } else if e in m[1..] {
        HeadBelow(m, e);
      }
    }
  }

  /** Where an entry is after a `Put`. */
  lemma PutIndex<V>(m: seq<Entry<V>>, key: int, value: V, e: Entry<V>) returns (i: nat)
    requires Sorted(m) && (e == Entry(key, value) || (e in m && e.key != key))
    ensures i < |Put(m, key, value)| && Put(m, key, value)[i] == e
  {
    PutMember(m, key, value, e);
    i :| 0 <= i < |Put(m, key, value)| && Put(m, key, value)[i] == e;
  }

  lemma {:induction false} PutSorted<V>(m: seq<Entry<V>>, key: int, value: V)
    requires Sorted(m)
    ensures Sorted(Put(m, key, value))
  {
    if m != [] && m[0].key < key {
      var rest := Put(m[1..], key, value);
      PutSorted(m[1..], key, value);
      forall i | 0 <= i < |rest| ensures m[0].key < rest[i].key {
        PutMember(m[1..], key, value, rest[i]);
        if rest[i] in m[1..] {
          HeadBelow(m, rest[i]);
        }
      }
    }
  }

  lemma {:induction false} EraseMember<V>(m: seq<Entry<V>>, key: int, e: Entry<V>)
    requires Sorted(m)
    ensures e in Erase(m, key) <==> e in m && e.key != key
  {
    if m != [] {
      if m[0].key != key {
        EraseMember(m[1..], key, e);
      } else if e in m[1..] {
        HeadBelow(m, e);
      }
    }
  }

  lemma {:induction false} EraseSorted<V>(m: seq<Entry<V>>, key: int)
    requires Sorted(m)
    ensures Sorted(Erase(m, key))
  {
    if m != [] && m[0].key != key {
      var rest := Erase(m[1..], key);
      EraseSorted(m[1..], key);
      forall i | 0 <= i < |rest| ensures m[0].key < rest[i].key {
        EraseMember(m[1..], key, rest[i]);
        HeadBelow(m, rest[i]);
      }
    }
  }

  /** An entry is determined by its key. */
  lemma SameKey<V>(m: seq<Entry<V>>, a: Entry<V>, b: Entry<V>)
    requires Sorted(m) && a in m && b in m && a.key == b.key
    ensures a == b
  {
    var i :| 0 <= i < |m| && m[i] == a;
    var j :| 0 <= j < |m| && m[j] == b;
  }
}
