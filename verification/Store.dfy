/** The revisioned key-value store: a map of entries and one revision counter
    shared by all keys. */
module Store {

  datatype Entry<+V> = Entry(value: V, revision: nat)

  datatype Option<+T> = None | Some(value: T)

  datatype KV<!K, V> = KV(data: map<K, Entry<V>>, nextRev: nat) {

    /** Revisions are handed out from 1 upwards and never twice, so 0 can stand
        for "no entry" and an unchanged revision means an unchanged value. */
    ghost predicate WellFormed() {
      forall k :: k in data ==> 1 <= data[k].revision <= nextRev
    }

    function Get(key: K): Option<V> {
      if key in data then Some(data[key].value) else None
    }

    /** The entry's revision, or 0 when there is none: what CompareAndSwap compares. */
    function RevisionOf(key: K): nat {
      if key in data then data[key].revision else 0
    }

    function Put(key: K, value: V): KV<K, V> {
      KV(data[key := Entry(value, nextRev + 1)], nextRev + 1)
    }

    function Swapped(key: K, expected: nat, value: V): KV<K, V> {
      if RevisionOf(key) == expected then Put(key, value) else this
    }
  }

  /** A write gives its key a revision no key has ever had, and touches no other key. */
  lemma PutIsFresh<K, V>(s: KV<K, V>, key: K, value: V)
    requires s.WellFormed()
    ensures s.Put(key, value).WellFormed()
    ensures s.Put(key, value).RevisionOf(key) > s.nextRev
    ensures forall k :: k != key ==>
              s.Put(key, value).Get(k) == s.Get(k) && s.Put(key, value).RevisionOf(k) == s.RevisionOf(k)
  {
  }

  class MemStore<K(==), V> {
    var data: map<K, Entry<V>>
    var nextRev: nat

    ghost function Contents(): KV<K, V>
      reads this
    {
      KV(data, nextRev)
    }

    constructor ()
      ensures Contents() == KV(map[], 0) && Contents().WellFormed()
    {
      data, nextRev := map[], 0;
    }

    method Put(key: K, value: V)
      requires Contents().WellFormed()
      modifies this
      ensures Contents() == old(Contents()).Put(key, value) && Contents().WellFormed()
    {
      PutIsFresh(Contents(), key, value);
      nextRev := nextRev + 1;
      data := data[key := Entry(value, nextRev)];
    }

    method Get(key: K) returns (value: Option<V>)
      ensures value == Contents().Get(key)
    {
      value := if key in data then Some(data[key].value) else None;
    }

    method Revision(key: K) returns (revision: nat, found: bool)
      ensures revision == Contents().RevisionOf(key) && found == (key in data)
    {
      if key !in data {
        return 0, false;
      }
      return data[key].revision, true;
    }

    method CompareAndSwap(key: K, expected: nat, value: V) returns (revision: nat, ok: bool)
      requires Contents().WellFormed()
      modifies this
      ensures Contents() == old(Contents()).Swapped(key, expected, value) && Contents().WellFormed()
      ensures ok <==> old(Contents()).RevisionOf(key) == expected
      ensures revision == Contents().RevisionOf(key)
    {
      var cur := 0;
      if key in data {
        cur := data[key].revision;
      }
      if cur != expected {
        return cur, false;
      }
      PutIsFresh(Contents(), key, value);
      nextRev := nextRev + 1;
      data := data[key := Entry(value, nextRev)];
      return nextRev, true;
    }
  }
}
