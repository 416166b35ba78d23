/**
 * PHP's ordered arrays, as far as the codec uses them: lookup, assignment
 * and `array_merge`, which renumbers integer keys.
 */
module PhpArrays {
  import opened Results
  import opened PhpStrings

  /**
   * A PHP array: key/value pairs in insertion order. By convention each key
   * occurs once and a decimal-integer string key is held as its `IntKey`,
   * as PHP stores it; `Put` and `ArrayMerge` keep to this, and an array the
   * model is given (a key table) is taken to follow it.
   */
  type PhpArray<V> = seq<(ArrayKey, V)>

  predicate HasKey<V>(a: PhpArray<V>, k: ArrayKey)
  {
    exists i :: 0 <= i < |a| && a[i].0 == k
  }

  /** `$a[k]`: the value stored under `k` (its last entry), `None` when there is none. */
  function Get<V>(a: PhpArray<V>, k: ArrayKey): (r: Option<V>)
    ensures r.Some? <==> HasKey(a, k)
  {
    if a == [] then None
    else if a[|a| - 1].0 == k then Some(a[|a| - 1].1)
    else
      var r := Get(a[..|a| - 1], k);
      assert HasKey(a[..|a| - 1], k) ==> HasKey(a, k);
      r
  }

  /** `$a[k] = v`: an existing entry keeps its place and takes the new value; otherwise it is appended. */
  function Put<V>(a: PhpArray<V>, k: ArrayKey, v: V): (r: PhpArray<V>)
    ensures Get(r, k) == Some(v)
    ensures forall k' :: k' != k ==> Get(r, k') == Get(a, k')
    ensures k.StrKey? ==> IntValues(r) == IntValues(a)
  {
    if a == [] then [(k, v)]
    else if a[|a| - 1].0 == k then a[..|a| - 1] + [(k, v)]
    else
      var r := Put(a[..|a| - 1], k, v) + [a[|a| - 1]];
      assert r[..|r| - 1] == Put(a[..|a| - 1], k, v);
      r
  }

  /** The values of integer-keyed entries, in order. */
  function IntValues<V>(a: PhpArray<V>): seq<V>
  {
    if a == [] then []
    else IntValues(a[..|a| - 1]) + (if a[|a| - 1].0.IntKey? then [a[|a| - 1].1] else [])
  }

  /** Integer keys are exactly 0, 1, 2, ... in order, as in an array built by `array_merge`. */
  ghost predicate DenseIntKeys<V>(a: PhpArray<V>)
  {
    forall j :: Get(a, IntKey(j)) == if 0 <= j < |IntValues(a)| then Some(IntValues(a)[j]) else None
  }

  /** `array_merge(a, b)`. */
  function ArrayMerge<V>(a: PhpArray<V>, b: PhpArray<V>): PhpArray<V>
  {
    MergeInto([], a + b)
  }

  /**
   * Adds `rest` to `acc` entry by entry: integer keys are appended under the
   * next index, string keys are assigned (the later value wins).
   */
  function MergeInto<V>(acc: PhpArray<V>, rest: PhpArray<V>): PhpArray<V>
    decreases |rest|
  {
    if rest == [] then acc
    else
      MergeInto(MergeOne(acc, rest[0].0, rest[0].1), rest[1..])
  }

  /** One step of `array_merge`: the entry `k => v` added to the result so far. */
  function MergeOne<V>(acc: PhpArray<V>, k: ArrayKey, v: V): PhpArray<V>
  {
    if k.IntKey? then acc + [(IntKey(|IntValues(acc)|), v)] else Put(acc, k, v)
  }

  lemma MergeOneIntValues<V>(acc: PhpArray<V>, k: ArrayKey, v: V)
    ensures IntValues(MergeOne(acc, k, v)) == IntValues(acc) + (if k.IntKey? then [v] else [])
  {
    if k.IntKey? {
      IntValuesConcat(acc, [(IntKey(|IntValues(acc)|), v)]);
    }
  }

  lemma MergeOneStrLookup<V>(acc: PhpArray<V>, k: ArrayKey, v: V)
    ensures forall s :: Get(MergeOne(acc, k, v), StrKey(s)) == if k == StrKey(s) then Some(v) else Get(acc, StrKey(s))
  {
    if k.IntKey? {
      var e := [(IntKey(|IntValues(acc)|), v)];
      forall s ensures Get(MergeOne(acc, k, v), StrKey(s)) == Get(acc, StrKey(s)) {
        GetConcat(acc, e, StrKey(s));
      }
    }
  }

  lemma MergeOneDense<V>(acc: PhpArray<V>, k: ArrayKey, v: V)
    requires DenseIntKeys(acc)
    ensures DenseIntKeys(MergeOne(acc, k, v))
  {
    var next := MergeOne(acc, k, v);
    MergeOneIntValues(acc, k, v);
    if k.IntKey? {
      var e := [(IntKey(|IntValues(acc)|), v)];
      forall j ensures Get(next, IntKey(j)) == if 0 <= j < |IntValues(next)| then Some(IntValues(next)[j]) else None {
        GetConcat(acc, e, IntKey(j));
      }
    }
  }

  lemma {:induction false} GetConcat<V>(a: PhpArray<V>, b: PhpArray<V>, k: ArrayKey)
    ensures Get(a + b, k) == if HasKey(b, k) then Get(b, k) else Get(a, k)
    decreases |b|
  {
    if b == [] {
      assert a + b == a;
    } else {
      assert (a + b)[..|a + b| - 1] == a + b[..|b| - 1];
      GetConcat(a, b[..|b| - 1], k);
      if b[|b| - 1].0 != k && HasKey(b, k) {
        var i :| 0 <= i < |b| && b[i].0 == k;
        assert b[..|b| - 1][i].0 == k;
      }
    }
  }

  lemma {:induction false} IntValuesConcat<V>(a: PhpArray<V>, b: PhpArray<V>)
    ensures IntValues(a + b) == IntValues(a) + IntValues(b)
    decreases |b|
  {
    if b == [] {
      assert a + b == a;
    } else {
      assert (a + b)[..|a + b| - 1] == a + b[..|b| - 1];
      IntValuesConcat(a, b[..|b| - 1]);
    }
  }

  lemma {:induction false} MergeIntoIntValues<V>(acc: PhpArray<V>, rest: PhpArray<V>)
    ensures IntValues(MergeInto(acc, rest)) == IntValues(acc) + IntValues(rest)
    decreases |rest|
  {
    if rest == [] {
      assert IntValues(acc) + IntValues(rest) == IntValues(acc);
    } else {
      var next := MergeOne(acc, rest[0].0, rest[0].1);
      MergeOneIntValues(acc, rest[0].0, rest[0].1);
      MergeIntoIntValues(next, rest[1..]);
      var head := if rest[0].0.IntKey? then [rest[0].1] else [];
      assert MergeInto(acc, rest) == MergeInto(next, rest[1..]);
      assert IntValues(MergeInto(acc, rest)) == (IntValues(acc) + head) + IntValues(rest[1..]);
      assert rest == [rest[0]] + rest[1..];
      IntValuesConcat([rest[0]], rest[1..]);
      assert [rest[0]][..0] == [];
      assert IntValues([rest[0]]) == head;
      assert IntValues(rest) == head + IntValues(rest[1..]);
      SeqAssoc(IntValues(acc), head, IntValues(rest[1..]));
    }
  }

  lemma SeqAssoc<T>(a: seq<T>, b: seq<T>, c: seq<T>)
    ensures (a + b) + c == a + (b + c)
  {
  }

  lemma {:induction false} MergeIntoDense<V>(acc: PhpArray<V>, rest: PhpArray<V>)
    requires DenseIntKeys(acc)
    ensures DenseIntKeys(MergeInto(acc, rest))
    decreases |rest|
  {
    if rest != [] {
      MergeOneDense(acc, rest[0].0, rest[0].1);
      MergeIntoDense(MergeOne(acc, rest[0].0, rest[0].1), rest[1..]);
    }
  }

  lemma {:induction false} MergeIntoStrLookup<V>(acc: PhpArray<V>, rest: PhpArray<V>)
    ensures forall s :: Get(MergeInto(acc, rest), StrKey(s))
                        == if HasKey(rest, StrKey(s)) then Get(rest, StrKey(s)) else Get(acc, StrKey(s))
    decreases |rest|
  {
    if rest != [] {
      var next := MergeOne(acc, rest[0].0, rest[0].1);
      MergeOneStrLookup(acc, rest[0].0, rest[0].1);
      MergeIntoStrLookup(next, rest[1..]);
      forall s ensures Get(MergeInto(acc, rest), StrKey(s))
                       == if HasKey(rest, StrKey(s)) then Get(rest, StrKey(s)) else Get(acc, StrKey(s))
      {
        RestLookup(rest, StrKey(s));
      }
    }
  }

  lemma RestLookup<V>(rest: PhpArray<V>, k: ArrayKey)
    requires rest != []
    ensures HasKey(rest, k) <==> HasKey(rest[1..], k) || rest[0].0 == k
    ensures Get(rest, k) == if HasKey(rest[1..], k) then Get(rest[1..], k) else if rest[0].0 == k then Some(rest[0].1) else None
  {
    assert rest == [rest[0]] + rest[1..];
    GetConcat([rest[0]], rest[1..], k);
    if HasKey(rest, k) && rest[0].0 != k {
      var i :| 0 <= i < |rest| && rest[i].0 == k;
      assert rest[1..][i - 1].0 == k;
    }
    if HasKey(rest[1..], k) {
      var i :| 0 <= i < |rest[1..]| && rest[1..][i].0 == k;
      assert rest[i + 1].0 == k;
    }
  }

  /**
   * `array_merge` keeps every string key of either array, the second array's
   * value winning on a shared key, and renumbers integer keys 0, 1, 2, ...
   * over the integer-keyed values of both arrays in order.
   */
  lemma ArrayMergeLookup<V>(a: PhpArray<V>, b: PhpArray<V>)
    ensures forall s :: Get(ArrayMerge(a, b), StrKey(s))
                        == if HasKey(b, StrKey(s)) then Get(b, StrKey(s)) else Get(a, StrKey(s))
    ensures forall j :: Get(ArrayMerge(a, b), IntKey(j))
                        == if 0 <= j < |IntValues(a) + IntValues(b)| then Some((IntValues(a) + IntValues(b))[j]) else None
  {
    var m := ArrayMerge(a, b);
    MergeIntoIntValues([], a + b);
    MergeIntoDense([], a + b);
    MergeIntoStrLookup([], a + b);
    IntValuesConcat(a, b);
    assert IntValues(m) == IntValues(a) + IntValues(b) by {
      SeqAssoc(IntValues<V>([]), IntValues(a), IntValues(b));
    }
    forall j ensures Get(m, IntKey(j)) == if 0 <= j < |IntValues(a) + IntValues(b)| then Some((IntValues(a) + IntValues(b))[j]) else None {
      assert DenseIntKeys(m);
    }
    forall s ensures Get(a + b, StrKey(s)) == if HasKey(b, StrKey(s)) then Get(b, StrKey(s)) else Get(a, StrKey(s)) {
      GetConcat(a, b, StrKey(s));
    }
  }
}
