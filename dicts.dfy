/** The insertion-ordered Python dictionary the generator builds and reads. */
module Dicts {
  import opened Outcomes

  /** A Python `dict` with `str` keys: its entries in insertion order. Every
      dictionary the model builds has distinct keys (`DistinctKeys`). */
  type Dict<V> = seq<(string, V)>

  function Keys<V>(d: Dict<V>): set<string>
  {
    set i | 0 <= i < |d| :: d[i].0
  }

  /** No key occurs twice: the first key is not among the rest, and so on down the list. */
  predicate DistinctKeys<V>(d: Dict<V>)
  {
    |d| == 0 || (d[0].0 !in Keys(d[1..]) && DistinctKeys(d[1..]))
  }

  /** `DistinctKeys` says exactly that the keys at any two positions differ. */
  lemma {:induction false} DistinctKeysPairwise<V>(d: Dict<V>)
    ensures DistinctKeys(d) <==> forall i, j :: 0 <= i < j < |d| ==> d[i].0 != d[j].0
  {
    if |d| > 0 {
      var tail := d[1..];
      assert d == [d[0]] + tail;
      DistinctKeysPairwise(tail);
      Cons(d[0], tail);
      if forall i, j :: 0 <= i < j < |d| ==> d[i].0 != d[j].0 {
        forall i, j | 0 <= i < j < |tail| ensures tail[i].0 != tail[j].0 {
          assert tail[i] == d[i + 1] && tail[j] == d[j + 1];
        }
        forall x | x in Keys(tail) ensures x != d[0].0 {
          var j :| 0 <= j < |tail| && tail[j].0 == x;
          assert tail[j] == d[j + 1];
        }
      }
      if DistinctKeys(d) {
        forall i, j | 0 <= i < j < |d| ensures d[i].0 != d[j].0 {
          assert d[j] == tail[j - 1];
          if i > 0 {
            assert d[i] == tail[i - 1];
          } else {
            assert d[j].0 in Keys(tail);
          }
        }
      }
    }
  }

  /** `d[k]`, with `None` where Python raises `KeyError`. */
  function Get<V>(d: Dict<V>, k: string): (r: Option<V>)
    ensures r.Some? <==> k in Keys(d)
    ensures r.Some? ==> (k, r.value) in d
  {
    if |d| == 0 then None
    else if d[0].0 == k then Some(d[0].1)
    else
      assert Keys(d) == {d[0].0} + Keys(d[1..]) by { assert d == [d[0]] + d[1..]; }
      Get(d[1..], k)
  }

  /** `d.get(k, default)`. */
  function GetOr<V>(d: Dict<V>, k: string, default: V): V
  {
    match Get(d, k)
    case Some(v) => v
    case None => default
  }

  /** `d[k] = v`: an existing key keeps its place in the iteration order and gets
      the new value; a new key is appended at the end. */
  function Put<V(==)>(d: Dict<V>, k: string, v: V): (r: Dict<V>)
    ensures Keys(r) == Keys(d) + {k}
    ensures Get(r, k) == Some(v)
    ensures forall k': string :: k' != k ==> Get(r, k') == Get(d, k')
    ensures |r| == if k in Keys(d) then |d| else |d| + 1
    ensures forall i :: 0 <= i < |d| ==> r[i].0 == d[i].0
    ensures k !in Keys(d) ==> r[|d|] == (k, v)
  {
    if |d| == 0 then
      assert [(k, v)][0].0 == k;
      [(k, v)]
    else
      var rest := d[1..];
      assert d == [d[0]] + rest;
      Cons(d[0], rest);
      if d[0].0 == k then
        Cons((k, v), rest);
        [(k, v)] + rest
      else
        var r := Put(rest, k, v);
        Cons(d[0], r);
        [d[0]] + r
  }

  /** `d[k] = v` adds no entry but `(k, v)`, and keeps the keys distinct. */
  lemma {:induction false} PutEntries<V>(d: Dict<V>, k: string, v: V)
    ensures forall e :: e in Put(d, k, v) ==> e in d || e == (k, v)
    ensures DistinctKeys(d) ==> DistinctKeys(Put(d, k, v))
  {
    var r := Put(d, k, v);
    if |d| > 0 {
      var rest := d[1..];
      assert d == [d[0]] + rest;
      Cons(d[0], rest);
      if d[0].0 == k {
        assert r == [(k, v)] + rest;
        DistinctCons((k, v), rest);
        DistinctCons(d[0], rest);
      } else {
        var r' := Put(rest, k, v);
        assert r == [d[0]] + r';
        PutEntries(rest, k, v);
        DistinctCons(d[0], r');
        DistinctCons(d[0], rest);
      }
    }
  }

  /** `[e] + d` has distinct keys exactly when `d` does and lacks `e`'s key. */
  lemma DistinctCons<V>(e: (string, V), d: Dict<V>)
    ensures DistinctKeys([e] + d) <==> DistinctKeys(d) && e.0 !in Keys(d)
  {
    Cons(e, d);
  }

  /** How the keys and lookups of `[e] + d` decompose. */
  lemma Cons<V>(e: (string, V), d: Dict<V>)
    ensures ([e] + d)[1..] == d
    ensures Keys([e] + d) == {e.0} + Keys(d)
  {
    var r := [e] + d;
    assert r[1..] == d;
    forall x | x in Keys(r) ensures x in {e.0} + Keys(d) {
      var i :| 0 <= i < |r| && r[i].0 == x;
      if i > 0 { assert d[i - 1].0 == x; }
    }
    forall x | x in Keys(d) ensures x in Keys(r) {
      var i :| 0 <= i < |d| && d[i].0 == x;
      assert r[i + 1].0 == x;
    }
    assert r[0].0 == e.0;
    assert Keys(r) == {e.0} + Keys(d);
  }

  /** `sum(d.values())`. */
  function SumValues(d: Dict<nat>): nat
  {
    if |d| == 0 then 0 else d[0].1 + SumValues(d[1..])
  }

  /** Assigning `v` to `k` replaces `k`'s old value (0 if absent) in the sum. */
  lemma {:induction false} PutSum(d: Dict<nat>, k: string, v: nat)
    ensures SumValues(Put(d, k, v)) + GetOr(d, k, 0) == SumValues(d) + v
  {
    if |d| != 0 && d[0].0 != k {
      PutSum(d[1..], k, v);
    }
  }
}
