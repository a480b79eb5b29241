/** A JavaScript plain object with string keys, as the program uses them for a
    week's timesheet and for the ledger of saved timesheets: an association list
    kept in insertion order (the order Object.values reports). */
module Dicts {
  import opened Common

  datatype Slot<V> = Slot(key: string, value: V)

  type Dict<V> = seq<Slot<V>>

  function Keys<V>(d: Dict<V>): (ks: seq<string>)
    ensures |ks| == |d|
    ensures forall i :: 0 <= i < |d| ==> ks[i] == d[i].key
  {
    if d == [] then [] else [d[0].key] + Keys(d[1..])
  }

  /** Object.values: the values in key order. */
  function Values<V>(d: Dict<V>): (vs: seq<V>)
    ensures |vs| == |d|
    ensures forall i :: 0 <= i < |d| ==> vs[i] == d[i].value
  {
    if d == [] then [] else [d[0].value] + Values(d[1..])
  }

  /** A well-formed object: no key occurs twice. */
  predicate DistinctKeys<V>(d: Dict<V>) {
    forall i, j :: 0 <= i < j < |d| ==> d[i].key != d[j].key
  }

  /** `obj[key]`: the value stored under key, if any. */
  function Lookup<V>(d: Dict<V>, key: string): (r: Option<V>)
    ensures r.None? <==> key !in Keys(d)
    ensures r.Some? ==> Slot(key, r.value) in d
  {
    if d == [] then None
    else if d[0].key == key then Some(d[0].value)
    else Lookup(d[1..], key)
  }

  /** `obj[key] = value`: an existing key keeps its position and gets the new
      value; a new key is appended at the end. */
  function Put<V>(d: Dict<V>, key: string, value: V): (r: Dict<V>)
    ensures Lookup(r, key) == Some(value)
    ensures forall k :: k != key ==> Lookup(r, k) == Lookup(d, k)
  {
    if d == [] then [Slot(key, value)]
    else if d[0].key == key then [Slot(key, value)] + d[1..]
    else [d[0]] + Put(d[1..], key, value)
  }

  /** Put keeps the key order, appending only a key that was absent. */
  lemma PutKeys<V>(d: Dict<V>, key: string, value: V)
    ensures key in Keys(d) ==> Keys(Put(d, key, value)) == Keys(d)
    ensures key !in Keys(d) ==> Keys(Put(d, key, value)) == Keys(d) + [key]
  {
    if key in Keys(d) {
      PutPresentKeys(d, key, value);
    } else {
      PutAbsentAppends(d, key, value);
      KeysAppend(d, Slot(key, value));
    }
  }

  lemma KeysAppend<V>(d: Dict<V>, x: Slot<V>)
    ensures Keys(d + [x]) == Keys(d) + [x.key]
  {
    assert forall i :: 0 <= i < |d| + 1 ==> Keys(d + [x])[i] == (Keys(d) + [x.key])[i];
  }

  lemma {:induction false} PutPresentKeys<V>(d: Dict<V>, key: string, value: V)
    requires key in Keys(d)
    ensures Keys(Put(d, key, value)) == Keys(d)
  {
    var r := Put(d, key, value);
    if d[0].key == key {
      assert r == [Slot(key, value)] + d[1..];
    } else {
      var rest := Put(d[1..], key, value);
      assert key in Keys(d[1..]) by {
        assert Keys(d) == [d[0].key] + Keys(d[1..]);
      }
      PutPresentKeys(d[1..], key, value);
      assert r == [d[0]] + rest;
      forall i | 0 < i < |r|
        ensures r[i].key == d[i].key
      {
        assert r[i] == rest[i - 1] && Keys(rest)[i - 1] == Keys(d[1..])[i - 1];
      }
    }
    assert forall i :: 0 <= i < |r| ==> Keys(r)[i] == Keys(d)[i];
  }

  /** Put keeps a well-formed object well-formed. */
  lemma PutKeepsDistinct<V>(d: Dict<V>, key: string, value: V)
    requires DistinctKeys(d)
    ensures DistinctKeys(Put(d, key, value))
  {
    var r := Put(d, key, value);
    PutKeys(d, key, value);
    var kd, kr := Keys(d), Keys(r);
    forall i, j | 0 <= i < j < |r| ensures r[i].key != r[j].key {
      assert kr[i] == r[i].key && kr[j] == r[j].key;
      if key in kd {
        assert kd[i] == d[i].key && kd[j] == d[j].key;
      } else if j < |d| {
        assert kd[i] == d[i].key && kd[j] == d[j].key;
      } else {
        assert kr[j] == key && kr[i] == kd[i];
      }
    }
  }

  /** In a well-formed object, every slot is what Lookup finds under its key. */
  lemma {:induction false} LookupSlot<V>(d: Dict<V>, i: nat)
    requires DistinctKeys(d) && i < |d|
    ensures Lookup(d, d[i].key) == Some(d[i].value)
  {
    if i > 0 {
      assert d[0].key != d[i].key;
      assert d[1..][i - 1] == d[i];
      LookupSlot(d[1..], i - 1);
    }
  }

  /** Assigning a key the object does not have appends one slot. */
  lemma PutAbsentAppends<V>(d: Dict<V>, key: string, value: V)
    requires key !in Keys(d)
    ensures Put(d, key, value) == d + [Slot(key, value)]
  {
    forall i | 0 <= i < |d| ensures d[i].key != key {
      assert Keys(d)[i] == d[i].key;
    }
    PutAfterOthers(d, key, value);
  }

  lemma {:induction false} PutAfterOthers<V>(d: Dict<V>, key: string, value: V)
    requires forall i :: 0 <= i < |d| ==> d[i].key != key
    ensures Put(d, key, value) == d + [Slot(key, value)]
  {
    if d != [] {
      var rest := d[1..];
      assert forall i :: 0 <= i < |rest| ==> rest[i] == d[i + 1];
      PutAfterOthers(rest, key, value);
      assert d[0].key != key;
      HeadThenSnoc(d, Slot(key, value));
    }
  }

  /** A non-empty list is its head followed by its tail, also after appending. */
  lemma HeadThenSnoc<T>(s: seq<T>, last: T)
    requires s != []
    ensures [s[0]] + (s[1..] + [last]) == s + [last]
  {
    assert s == [s[0]] + s[1..];
  }

  /** Assigning a key the object has replaces that slot where it stands. */
  lemma {:induction false} PutPresentReplaces<V>(d: Dict<V>, i: nat, value: V)
    requires DistinctKeys(d) && i < |d|
    ensures Put(d, d[i].key, value) == d[i := Slot(d[i].key, value)]
  {
    var key := d[i].key;
    if i > 0 {
      var rest := d[1..];
      assert d[0].key != key;
      assert rest[i - 1] == d[i];
      assert DistinctKeys(rest) by {
        forall a, b | 0 <= a < b < |rest| ensures rest[a].key != rest[b].key {
          assert rest[a] == d[a + 1] && rest[b] == d[b + 1];
        }
      }
      PutPresentReplaces(rest, i - 1, value);
      assert Put(d, key, value) == [d[0]] + rest[i - 1 := Slot(key, value)];
      assert [d[0]] + rest[i - 1 := Slot(key, value)] == d[i := Slot(key, value)];
    }
  }
}
