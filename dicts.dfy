/**
 * Python's `dict` with string keys: insertion-ordered, one entry per key.
 * Assigning to an existing key keeps its position; a new key goes last.
 * Entries are a plain sequence read from the front; dictionaries built by
 * Put and Update keep their keys distinct (PutDistinct, UpdateDistinct).
 */
module Dicts {
  import opened Common

  type Dict<V> = seq<(string, V)>

  /** One entry per key, as every Python dict has. */
  predicate DistinctKeys<V>(d: Dict<V>)
  {
    forall i, j :: 0 <= i < j < |d| ==> d[i].0 != d[j].0
  }

  predicate HasKey<V>(d: Dict<V>, k: string)
  {
    exists i :: 0 <= i < |d| && d[i].0 == k
  }

  /** `d.get(k)`. */
  function Get<V>(d: Dict<V>, k: string): Option<V>
    decreases |d|
  {
    if |d| == 0 then None
    else if d[0].0 == k then Some(d[0].1)
    else Get(d[1..], k)
  }

  /** `d[k] = v`. */
  function Put<V>(d: Dict<V>, k: string, v: V): Dict<V>
    decreases |d|
  {
    if |d| == 0 then [(k, v)]
    else if d[0].0 == k then [(k, v)] + d[1..]
    else [d[0]] + Put(d[1..], k, v)
  }

  /** `d.update(e)`: assign every entry of `e`, in `e`'s order. */
  function Update<V>(d: Dict<V>, e: Dict<V>): Dict<V>
    decreases |e|
  {
    if |e| == 0 then d else Update(Put(d, e[0].0, e[0].1), e[1..])
  }

  /** A key is present exactly when `get` finds a value for it. */
  lemma {:induction false} HasKeyGet<V>(d: Dict<V>, k: string)
    ensures HasKey(d, k) <==> Get(d, k).Some?
    decreases |d|
  {
    if |d| > 0 && d[0].0 != k {
      HasKeyGet(d[1..], k);
      HasKeyTail(d, k);
    }
  }

  lemma HasKeyTail<V>(d: Dict<V>, k: string)
    requires |d| > 0 && d[0].0 != k
    ensures HasKey(d, k) <==> HasKey(d[1..], k)
  {
    if HasKey(d, k) {
      var i :| 0 <= i < |d| && d[i].0 == k;
      assert d[1..][i - 1] == d[i];
    }
    if HasKey(d[1..], k) {
      var i :| 0 <= i < |d| - 1 && d[1..][i].0 == k;
      assert d[i + 1] == d[1..][i];
    }
  }

  /** After `d[k] = v`, `k` reads `v` and every other key reads what it read before. */
  lemma {:induction false} PutGet<V>(d: Dict<V>, k: string, v: V, k': string)
    ensures Get(Put(d, k, v), k') == if k' == k then Some(v) else Get(d, k')
    decreases |d|
  {
    if |d| > 0 && d[0].0 != k {
      PutGet(d[1..], k, v, k');
      assert (Put(d, k, v))[1..] == Put(d[1..], k, v);
    } else if |d| > 0 {
      assert (Put(d, k, v))[1..] == d[1..];
    }
  }

  /** Assigning an existing key keeps every key in its place; a new key is appended. */
  lemma {:induction false} PutShape<V>(d: Dict<V>, k: string, v: V)
    ensures HasKey(d, k) ==> |Put(d, k, v)| == |d| && forall a :: 0 <= a < |d| ==> Put(d, k, v)[a].0 == d[a].0
    ensures !HasKey(d, k) ==> Put(d, k, v) == d + [(k, v)]
    decreases |d|
  {
    if |d| > 0 && d[0].0 != k {
      PutShape(d[1..], k, v);
      HasKeyTail(d, k);
      var r := Put(d, k, v);
      assert r == [d[0]] + Put(d[1..], k, v);
      if HasKey(d, k) {
        forall a | 0 <= a < |d| ensures r[a].0 == d[a].0 {
          if a > 0 {
            assert r[a] == Put(d[1..], k, v)[a - 1];
            assert d[a] == d[1..][a - 1];
          }
        }
      } else {
        assert d == [d[0]] + d[1..];
      }
    } else if |d| > 0 {
      assert HasKey(d, k);
    }
  }

  /** Assigning a key keeps one entry per key. */
  lemma PutDistinct<V>(d: Dict<V>, k: string, v: V)
    requires DistinctKeys(d)
    ensures DistinctKeys(Put(d, k, v))
  {
    PutShape(d, k, v);
  }

  /** After `d[k] = v` the keys are those of `d` and `k`. */
  lemma PutKeys<V>(d: Dict<V>, k: string, v: V, k': string)
    ensures HasKey(Put(d, k, v), k') <==> HasKey(d, k') || k' == k
  {
    PutGet(d, k, v, k');
    HasKeyGet(Put(d, k, v), k');
    HasKeyGet(d, k');
  }

  /** In a dictionary with one entry per key, every entry is what its key reads. */
  lemma {:induction false} GetByIndex<V>(d: Dict<V>, i: nat)
    requires DistinctKeys(d) && i < |d|
    ensures Get(d, d[i].0) == Some(d[i].1)
    decreases i
  {
    if i > 0 {
      assert d[1..][i - 1] == d[i];
      GetByIndex(d[1..], i - 1);
    }
  }

  /** After `d.update(e)` a key reads `e`'s value if `e` has it, and `d`'s otherwise. */
  lemma {:induction false} UpdateGet<V>(d: Dict<V>, e: Dict<V>, k: string)
    requires DistinctKeys(e)
    ensures Get(Update(d, e), k) == if HasKey(e, k) then Get(e, k) else Get(d, k)
    decreases |e|
  {
    if |e| > 0 {
      var rest := e[1..];
      assert DistinctKeys(rest) by {
        forall i, j | 0 <= i < j < |rest| ensures rest[i].0 != rest[j].0 {
          assert rest[i] == e[i + 1] && rest[j] == e[j + 1];
        }
      }
      UpdateGet(Put(d, e[0].0, e[0].1), rest, k);
      PutGet(d, e[0].0, e[0].1, k);
      if e[0].0 != k {
        HasKeyTail(e, k);
      }
    }
  }

  /** `d.update(e)` keeps one entry per key. */
  lemma {:induction false} UpdateDistinct<V>(d: Dict<V>, e: Dict<V>)
    requires DistinctKeys(d)
    ensures DistinctKeys(Update(d, e))
    decreases |e|
  {
    if |e| > 0 {
      PutDistinct(d, e[0].0, e[0].1);
      UpdateDistinct(Put(d, e[0].0, e[0].1), e[1..]);
    }
  }

  /** `d.update(e)` with distinct keys on both sides: distinct keys, and `e` wins where it has the key. */
  lemma UpdateMerge<V>(d: Dict<V>, e: Dict<V>)
    requires DistinctKeys(d) && DistinctKeys(e)
    ensures DistinctKeys(Update(d, e))
    ensures forall k :: Get(Update(d, e), k) == if HasKey(e, k) then Get(e, k) else Get(d, k)
  {
    UpdateDistinct(d, e);
    forall k ensures Get(Update(d, e), k) == if HasKey(e, k) then Get(e, k) else Get(d, k) {
      UpdateGet(d, e, k);
    }
  }

  /** The keys of `d.update(e)` are those of `d` and of `e`. */
  lemma UpdateKeys<V>(d: Dict<V>, e: Dict<V>, k: string)
    requires DistinctKeys(e)
    ensures HasKey(Update(d, e), k) <==> HasKey(d, k) || HasKey(e, k)
  {
    UpdateGet(d, e, k);
    HasKeyGet(Update(d, e), k);
    HasKeyGet(d, k);
    HasKeyGet(e, k);
  }
}
