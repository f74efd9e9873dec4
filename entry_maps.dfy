/** A Java `Map<String, String>` as the sequence of its entries in iteration order. Java does
    not fix the order of a HashMap; the sequence stands for whichever order the map yields,
    and every order-dependent result of the pipeline is stated relative to it. */
module EntryMaps {
  import opened Base

  datatype Entry = Entry(key: string, value: string)

  /** The entries form a map: no key appears twice. */
  predicate UniqueKeys(m: seq<Entry>)
  {
    forall i, j :: 0 <= i < j < |m| ==> m[i].key != m[j].key
  }

  /** `map.get(key)`, with null as None. */
  function Lookup(m: seq<Entry>, key: string): Option<string>
  {
    if m == [] then None
    else if m[0].key == key then Some(m[0].value)
    else Lookup(m[1..], key)
  }

  /** `map.put(key, value)`: an existing key keeps its place and gets the new value, a new
      key is added after the existing ones. */
  function Put(m: seq<Entry>, key: string, value: string): (r: seq<Entry>)
    ensures |r| == |m| || |r| == |m| + 1
    ensures forall i :: 0 <= i < |m| ==> r[i].key == m[i].key
    ensures forall i :: 0 <= i < |m| && m[i].key != key ==> r[i] == m[i]
    ensures UniqueKeys(m) ==> forall i :: 0 <= i < |m| && m[i].key == key ==> r[i] == Entry(key, value)
    ensures |r| == |m| + 1 <==> forall i :: 0 <= i < |m| ==> m[i].key != key
    ensures |r| == |m| + 1 ==> r[|m|] == Entry(key, value)
  {
    if m == [] then [Entry(key, value)]
    else if m[0].key == key then [Entry(key, value)] + m[1..]
    else [m[0]] + Put(m[1..], key, value)
  }

  lemma {:induction false} LookupAbsent(m: seq<Entry>, key: string)
    ensures Lookup(m, key).None? <==> forall i :: 0 <= i < |m| ==> m[i].key != key
  {
    if m != [] {
      LookupAbsent(m[1..], key);
      assert forall i :: 1 <= i < |m| ==> m[i] == m[1..][i - 1];
    }
  }

  /** After a put, the key maps to the new value and every other key to what it mapped to
      before: last write wins, and nothing else is disturbed. */
  lemma {:induction false} PutThenLookup(m: seq<Entry>, key: string, value: string, other: string)
    ensures Lookup(Put(m, key, value), other) == if other == key then Some(value) else Lookup(m, other)
  {
    if m != [] && m[0].key != key {
      PutThenLookup(m[1..], key, value, other);
      assert Put(m, key, value)[1..] == Put(m[1..], key, value);
    } else if m != [] {
      assert Put(m, key, value)[1..] == m[1..];
    }
  }

  /** A put keeps the entries a map. */
  lemma PutKeepsUniqueKeys(m: seq<Entry>, key: string, value: string)
    requires UniqueKeys(m)
    ensures UniqueKeys(Put(m, key, value))
  {
    var r := Put(m, key, value);
    forall i, j | 0 <= i < j < |r|
      ensures r[i].key != r[j].key
    {
      if j == |m| {
        assert r[j].key == key;
        assert m[i].key != key;
      }
    }
  }

  /** A put adds an entry exactly when the key was absent. */
  lemma PutSize(m: seq<Entry>, key: string, value: string)
    ensures |Put(m, key, value)| == if Lookup(m, key).Some? then |m| else |m| + 1
  {
    LookupAbsent(m, key);
  }
}
