/**
 A bbolt bucket as the program sees it: a sequence counter and key-value pairs kept in byte order of their keys.
 Every operation is one atomic transaction.
 */
module Bolt {
  import opened Wire
  import opened Decimal

  type Pairs<V> = seq<(string, V)>

  ghost predicate Sorted<V>(ps: Pairs<V>) {
    forall i, j | 0 <= i < j < |ps| :: Less(ps[i].0, ps[j].0)
  }

  function Get<V>(ps: Pairs<V>, key: string): Option<V> {
    if ps == [] then None else if ps[0].0 == key then Some(ps[0].1) else Get(ps[1..], key)
  }

  function Put<V>(ps: Pairs<V>, key: string, v: V): Pairs<V> {
    if ps == [] then [(key, v)]
    else if ps[0].0 == key then [(key, v)] + ps[1..]
    else if Less(key, ps[0].0) then [(key, v)] + ps
    else [ps[0]] + Put(ps[1..], key, v)
  }

  function Delete<V>(ps: Pairs<V>, key: string): Pairs<V> {
    if ps == [] then []
    else if ps[0].0 == key then ps[1..]
    else [ps[0]] + Delete(ps[1..], key)
  }

  lemma {:induction false} GetFinds<V>(ps: Pairs<V>, key: string)
    ensures Get(ps, key).Some? <==> exists i :: 0 <= i < |ps| && ps[i].0 == key
    ensures Get(ps, key).Some? ==> (key, Get(ps, key).value) in ps
    decreases |ps|
  {
    if ps != [] && ps[0].0 != key {
      GetFinds(ps[1..], key);
      if i :| 0 <= i < |ps| && ps[i].0 == key {
        assert ps[1..][i - 1].0 == key;
      }
    }
  }

  /** A key below all others is absent. */
  lemma {:induction false} AbsentBelow<V>(ps: Pairs<V>, key: string)
    requires Sorted(ps) && (ps == [] || Less(key, ps[0].0))
    ensures Get(ps, key) == None
    decreases |ps|
  {
    if ps != [] {
      LessTotal(key, ps[0].0);
      if |ps| > 1 {
        LessTransitive(key, ps[0].0, ps[1].0);
      }
      AbsentBelow(ps[1..], key);
    }
  }

  /** Put changes one key and nothing else, and keeps the order. */
  lemma {:induction false} PutSpec<V>(ps: Pairs<V>, key: string, v: V)
    requires Sorted(ps)
    ensures Sorted(Put(ps, key, v))
    ensures forall k :: Get(Put(ps, key, v), k) == if k == key then Some(v) else Get(ps, k)
    ensures forall p | p in Put(ps, key, v) :: p == (key, v) || p in ps
    decreases |ps|
  {
    if ps == [] {
    } else if ps[0].0 == key {
      assert ps == [ps[0]] + ps[1..];
    } else if Less(key, ps[0].0) {
      forall j | 0 <= j < |ps|
        ensures Less(key, ps[j].0)
      {
        if j > 0 {
          LessTransitive(key, ps[0].0, ps[j].0);
        }
      }
      assert ([(key, v)] + ps)[1..] == ps;
    } else {
      LessTotal(key, ps[0].0);
      var rest := Put(ps[1..], key, v);
      PutSpec(ps[1..], key, v);
      assert ([ps[0]] + rest)[1..] == rest;
      forall j | 0 <= j < |rest|
        ensures Less(ps[0].0, rest[j].0)
      {
        assert rest[j] in rest;
      }
    }
  }

  /** Delete removes one key and nothing else, and keeps the order. */
  lemma {:induction false} DeleteSpec<V>(ps: Pairs<V>, key: string)
    requires Sorted(ps)
    ensures Sorted(Delete(ps, key))
    ensures forall k :: Get(Delete(ps, key), k) == if k == key then None else Get(ps, k)
    ensures forall p | p in Delete(ps, key) :: p in ps
    decreases |ps|
  {
    if ps == [] {
    } else if ps[0].0 == key {
      AbsentBelow(ps[1..], key);
    } else {
      var rest := Delete(ps[1..], key);
      DeleteSpec(ps[1..], key);
      assert ([ps[0]] + rest)[1..] == rest;
      forall j | 0 <= j < |rest|
        ensures Less(ps[0].0, rest[j].0)
      {
        assert rest[j] in rest;
      }
    }
  }

  /** A key above all others is appended. */
  lemma {:induction false} PutAtEnd<V>(ps: Pairs<V>, key: string, v: V)
    requires forall i | 0 <= i < |ps| :: Less(ps[i].0, key)
    ensures Put(ps, key, v) == ps + [(key, v)]
    decreases |ps|
  {
    if ps != [] {
      LessTotal(ps[0].0, key);
      PutAtEnd(ps[1..], key, v);
      assert ps == [ps[0]] + ps[1..];
    }
  }
}
