/**
 How both pages bring their cached list in line with a successful mutation
 without re-fetching: prepend the created record, replace the records with
 the updated key, or filter out the deleted key. Generic in the record type;
 `key` reads a record's id.
 */
module Reconcile {

  import Seqs

  /** The keys present in a list. */
  function Keys<T>(s: seq<T>, key: T -> int): (r: set<int>)
    ensures forall i :: 0 <= i < |s| ==> key(s[i]) in r
    ensures forall k :: k in r ==> exists i :: 0 <= i < |s| && key(s[i]) == k
  {
    if s == [] then {}
    else {key(s[0])} + Keys(s[1..], key)
  }

  /** No two records share a key. */
  predicate UniqueKeys<T>(s: seq<T>, key: T -> int) {
    forall i, j :: 0 <= i < j < |s| ==> key(s[i]) != key(s[j])
  }

  /** `[x, ...s]`. */
  function Prepend<T>(s: seq<T>, x: T): (r: seq<T>)
    ensures |r| == |s| + 1 && r[0] == x && r[1..] == s
  {
    [x] + s
  }

  /** `s.map(t => t.id === id ? x : t)`. */
  function ReplaceById<T>(s: seq<T>, key: T -> int, id: int, x: T): (r: seq<T>)
    ensures |r| == |s|
    ensures forall i :: 0 <= i < |s| && key(s[i]) == id ==> r[i] == x
    ensures forall i :: 0 <= i < |s| && key(s[i]) != id ==> r[i] == s[i]
  {
    if s == [] then []
    else [if key(s[0]) == id then x else s[0]] + ReplaceById(s[1..], key, id, x)
  }

  /** `t => t.id === id`. */
  function WithKey<T>(key: T -> int, id: int): T -> bool {
    t => key(t) == id
  }

  /** `s.filter(t => t.id !== id)`: every record with another key stays, in
      order and with its multiplicity, since exactly the records carrying the
      key are dropped. */
  function RemoveById<T(==,!new)>(s: seq<T>, key: T -> int, id: int): (r: seq<T>)
    ensures forall i :: 0 <= i < |r| ==> key(r[i]) != id
    ensures forall x :: x in r <==> x in s && key(x) != id
    ensures Seqs.IsSubseq(r, s)
    ensures |r| + Seqs.Count(s, WithKey(key, id)) == |s|
  {
    Seqs.FilterPartition(s, t => key(t) != id, WithKey(key, id));
    Seqs.Filter(s, t => key(t) != id)
  }

  /** Deleting the key of a record just prepended with a fresh key gives the
      list back: delete undoes add. */
  lemma {:induction false} RemoveUndoesPrepend<T(!new)>(s: seq<T>, key: T -> int, x: T)
    requires key(x) !in Keys(s, key)
    ensures RemoveById(Prepend(s, x), key, key(x)) == s
  {
    assert Prepend(s, x)[1..] == s;
    Seqs.FilterKeepsAll(s, t => key(t) != key(x));
  }

  /** Deleting is idempotent: a second delete of the same key changes nothing. */
  lemma RemoveIdempotent<T(!new)>(s: seq<T>, key: T -> int, id: int)
    ensures RemoveById(RemoveById(s, key, id), key, id) == RemoveById(s, key, id)
  {
    Seqs.FilterIdempotent(s, t => key(t) != id);
  }

  /** A delete leaves every other key in place and removes this one. */
  lemma {:induction false} RemoveKeys<T(!new)>(s: seq<T>, key: T -> int, id: int)
    ensures Keys(RemoveById(s, key, id), key) == Keys(s, key) - {id}
  {
    var r := RemoveById(s, key, id);
    forall k | k in Keys(s, key) - {id}
      ensures k in Keys(r, key)
    {
      var i :| 0 <= i < |s| && key(s[i]) == k;
      assert s[i] in r;
      var j :| 0 <= j < |r| && r[j] == s[i];
    }
    forall k | k in Keys(r, key)
      ensures k in Keys(s, key) - {id}
    {
      var j :| 0 <= j < |r| && key(r[j]) == k;
      assert r[j] in s;
      var i :| 0 <= i < |s| && s[i] == r[j];
    }
  }

  /** Replacing with a record that carries the replaced key keeps the key set. */
  lemma {:induction false} ReplaceKeepsKeys<T>(s: seq<T>, key: T -> int, id: int, x: T)
    requires key(x) == id
    ensures Keys(ReplaceById(s, key, id, x), key) == Keys(s, key)
  {
    if s != [] {
      ReplaceKeepsKeys(s[1..], key, id, x);
    }
  }

  /** Replacing twice with the same record is replacing once. */
  lemma {:induction false} ReplaceIdempotent<T>(s: seq<T>, key: T -> int, id: int, x: T)
    ensures ReplaceById(ReplaceById(s, key, id, x), key, id, x) == ReplaceById(s, key, id, x)
  {
    if s != [] {
      ReplaceIdempotent(s[1..], key, id, x);
    }
  }

  /** Prepending a record with a fresh key keeps keys unique; so does a
      replacement that keeps the key. */
  lemma PrependKeepsUnique<T>(s: seq<T>, key: T -> int, x: T)
    requires UniqueKeys(s, key) && key(x) !in Keys(s, key)
    ensures UniqueKeys(Prepend(s, x), key)
  {
    var r := Prepend(s, x);
    forall i, j | 0 <= i < j < |r|
      ensures key(r[i]) != key(r[j])
    {
      assert r[j] == s[j - 1];
      if i > 0 { assert r[i] == s[i - 1]; }
    }
  }

  lemma ReplaceKeepsUnique<T>(s: seq<T>, key: T -> int, id: int, x: T)
    requires UniqueKeys(s, key) && key(x) == id
    ensures UniqueKeys(ReplaceById(s, key, id, x), key)
  {
  }
}
