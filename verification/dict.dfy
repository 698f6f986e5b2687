/** Python dictionaries keyed by territory name, as association lists.
    Assigning to an existing key keeps its position, as a Python dict does;
    the dictionary comprehension over query rows keeps the last value for a
    repeated key. */
module Dict {
  import opened Base

  type Dict<V> = seq<(string, V)>

  function Keys<V>(d: Dict<V>): set<string>
  {
    set i | 0 <= i < |d| :: d[i].0
  }

  predicate DistinctKeys<V>(d: Dict<V>)
  {
    forall i, j :: 0 <= i < j < |d| ==> d[i].0 != d[j].0
  }

  /** `d.get(k, default)`. */
  function Get<V>(d: Dict<V>, k: string, default: V): V
  {
    if |d| == 0 then default
    else if d[0].0 == k then d[0].1
    else Get(d[1..], k, default)
  }

  /** `d[k] = v`. */
  function Put<V>(d: Dict<V>, k: string, v: V): Dict<V>
  {
    if |d| == 0 then [(k, v)]
    else if d[0].0 == k then [(k, v)] + d[1..]
    else [d[0]] + Put(d[1..], k, v)
  }

  /** Assignment adds its key (keeping the others) and keeps keys distinct. */
  lemma {:induction false} PutKeys<V>(d: Dict<V>, k: string, v: V)
    ensures Keys(Put(d, k, v)) == Keys(d) + {k}
    ensures DistinctKeys(d) ==> DistinctKeys(Put(d, k, v))
  {
    if |d| == 0 {
      KeysCons((k, v), d);
      assert [(k, v)] + d == [(k, v)];
    } else if d[0].0 == k {
      KeysCons(d[0], d[1..]);
      KeysCons((k, v), d[1..]);
      assert d == [d[0]] + d[1..];
      if DistinctKeys(d) {
        assert DistinctKeys(d[1..]);
        DistinctCons((k, v), d[1..]);
      }
    } else {
      var rest := Put(d[1..], k, v);
      PutKeys(d[1..], k, v);
      KeysCons(d[0], d[1..]);
      KeysCons(d[0], rest);
      assert d == [d[0]] + d[1..];
      if DistinctKeys(d) {
        assert DistinctKeys(d[1..]);
        DistinctCons(d[0], rest);
      }
    }
  }

  /** After `d[k] = v`, looking up `k` gives `v` and every other key is
      looked up as before. */
  lemma {:induction false} PutGet<V>(d: Dict<V>, k: string, v: V, key: string, dflt: V)
    ensures Get(Put(d, k, v), key, dflt) == if key == k then v else Get(d, key, dflt)
  {
    if |d| > 0 && d[0].0 != k {
      PutGet(d[1..], k, v, key, dflt);
      assert Put(d, k, v)[1..] == Put(d[1..], k, v);
    } else if |d| > 0 {
      assert Put(d, k, v)[1..] == d[1..];
    }
  }

  lemma KeysCons<V>(x: (string, V), d: Dict<V>)
    ensures Keys([x] + d) == {x.0} + Keys(d)
  {
    var s := [x] + d;
    forall key | key in Keys(s)
      ensures key in {x.0} + Keys(d)
    {
      var i :| 0 <= i < |s| && s[i].0 == key;
      if i > 0 {
        assert s[i] == d[i - 1];
      }
    }
    forall key | key in Keys(d)
      ensures key in Keys(s)
    {
      var i :| 0 <= i < |d| && d[i].0 == key;
      assert s[i + 1] == d[i];
    }
    assert s[0] == x;
  }

  lemma DistinctCons<V>(x: (string, V), d: Dict<V>)
    requires DistinctKeys(d) && x.0 !in Keys(d)
    ensures DistinctKeys([x] + d)
  {
    var s := [x] + d;
    forall i, j | 0 <= i < j < |s|
      ensures s[i].0 != s[j].0
    {
      if i == 0 {
        assert s[j] == d[j - 1];
      } else {
        assert s[i] == d[i - 1] && s[j] == d[j - 1];
      }
    }
  }

  lemma {:induction false} GetAbsent<V>(d: Dict<V>, k: string, dflt: V)
    requires k !in Keys(d)
    ensures Get(d, k, dflt) == dflt
  {
    if |d| > 0 {
      assert d[0].0 in Keys(d);
      assert Keys(d[1..]) <= Keys(d);
      GetAbsent(d[1..], k, dflt);
    }
  }

  /** A lookup of a key the dictionary lacks yields the default. */
  lemma GetOrDefault<V>(d: Dict<V>, k: string, dflt: V)
    ensures k !in Keys(d) ==> Get(d, k, dflt) == dflt
  {
    if k !in Keys(d) {
      GetAbsent(d, k, dflt);
    }
  }

  /** The keys the rows of a query carry. */
  function RowKeys<V>(rows: seq<(string, V)>): set<string>
  {
    set i | 0 <= i < |rows| :: rows[i].0
  }

  /** `{k: v for (k, v) in rows}`. */
  function FromRows<V>(rows: seq<(string, V)>): (d: Dict<V>)
    ensures DistinctKeys(d)
    ensures Keys(d) == RowKeys(rows)
  {
    if |rows| == 0 then []
    else
      var n := |rows| - 1;
      PutKeys(FromRows(rows[..n]), rows[n].0, rows[n].1);
      var d := Put(FromRows(rows[..n]), rows[n].0, rows[n].1);
      assert (set i | 0 <= i < |rows| :: rows[i].0)
          == (set i | 0 <= i < |rows[..n]| :: rows[..n][i].0) + {rows[n].0};
      d
  }

  /** The comprehension keeps, for every key, the value of its last row,
      and knows nothing about keys no row carries. */
  lemma {:induction false} FromRowsLastWins<V>(rows: seq<(string, V)>, i: int, dflt: V)
    requires 0 <= i < |rows|
    requires forall j :: i < j < |rows| ==> rows[j].0 != rows[i].0
    ensures Get(FromRows(rows), rows[i].0, dflt) == rows[i].1
  {
    var n := |rows| - 1;
    PutGet(FromRows(rows[..n]), rows[n].0, rows[n].1, rows[i].0, dflt);
    if i < n {
      FromRowsLastWins(rows[..n], i, dflt);
    }
  }

  /** Sum of `f` over the values, `sum(f(v) for v in d.values())`. */
  function SumOf<V>(d: Dict<V>, f: V -> real): real
  {
    if |d| == 0 then 0.0 else f(d[0].1) + SumOf(d[1..], f)
  }

  /** Overwriting one entry changes the sum of the values by exactly the
      difference between the new and the old value. */
  lemma {:induction false} SumOfPut<V>(d: Dict<V>, k: string, v: V, f: V -> real)
    requires DistinctKeys(d)
    ensures SumOf(Put(d, k, v), f) == SumOf(d, f) + f(v) - (if k in Keys(d) then f(Get(d, k, v)) else 0.0)
  {
    if |d| > 0 {
      KeysCons(d[0], d[1..]);
      assert d == [d[0]] + d[1..];
      assert Keys(d) == {d[0].0} + Keys(d[1..]);
      if d[0].0 != k {
        SumOfPut(d[1..], k, v, f);
      }
    }
  }

  /** `{k: f(k, v) for k, v in d.items()}`: same keys, same order. */
  function Map<V, W>(d: Dict<V>, f: (string, V) -> W): (r: Dict<W>)
    ensures |r| == |d|
    ensures forall i :: 0 <= i < |d| ==> r[i] == (d[i].0, f(d[i].0, d[i].1))
  {
    seq(|d|, i requires 0 <= i < |d| => (d[i].0, f(d[i].0, d[i].1)))
  }

  /** Looking a key up in a mapped dictionary looks it up in the original. */
  lemma {:induction false} GetMap<V, W>(d: Dict<V>, f: (string, V) -> W, k: string, w: W, v: V)
    ensures Keys(Map(d, f)) == Keys(d)
    ensures Get(Map(d, f), k, w) == if k in Keys(d) then f(k, Get(d, k, v)) else w
  {
    var r := Map(d, f);
    assert forall i :: 0 <= i < |d| ==> r[i].0 == d[i].0;
    if |d| > 0 {
      assert Map(d[1..], f) == r[1..];
      GetMap(d[1..], f, k, w, v);
      assert Keys(d) == {d[0].0} + Keys(d[1..]) by { KeysCons(d[0], d[1..]); assert d == [d[0]] + d[1..]; }
      assert Keys(r) == {r[0].0} + Keys(r[1..]) by { KeysCons(r[0], r[1..]); assert r == [r[0]] + r[1..]; }
    }
  }

  /** For a present key the default passed to `get` is irrelevant. */
  lemma {:induction false} GetPresent<V>(d: Dict<V>, k: string, a: V, b: V)
    requires k in Keys(d)
    ensures Get(d, k, a) == Get(d, k, b)
  {
    if d[0].0 != k {
      KeysCons(d[0], d[1..]);
      assert d == [d[0]] + d[1..];
      GetPresent(d[1..], k, a, b);
    }
  }

  /** `sum(d.values())`. */
  function Total(d: Dict<real>): real
  {
    SumOf(d, x => x)
  }
}
