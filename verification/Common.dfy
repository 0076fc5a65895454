/** Result and option types shared by every module of the model. */
module Common {

  datatype Option<+T> = None | Some(value: T)

  datatype Result<+T, +E> = Ok(value: T) | Err(error: E)

  /** Largest value of the 64-bit counters used for sequences, revisions and checkpoints. */
  const U64_MAX: nat := 0xFFFF_FFFF_FFFF_FFFF

  /** The items of `s` that satisfy `keep`, in order. */
  function Filter<T>(s: seq<T>, keep: T -> bool): seq<T> {
    if s == [] then [] else
      Filter(s[..|s| - 1], keep) + if keep(s[|s| - 1]) then [s[|s| - 1]] else []
  }

  lemma {:induction false} FilterMembers<T>(s: seq<T>, keep: T -> bool, x: T)
    ensures x in Filter(s, keep) <==> x in s && keep(x)
  {
    if s != [] {
      FilterMembers(s[..|s| - 1], keep, x);
      assert s == s[..|s| - 1] + [s[|s| - 1]];
    }
  }

  lemma {:induction false} FilterConcat<T>(a: seq<T>, b: seq<T>, keep: T -> bool)
    ensures Filter(a + b, keep) == Filter(a, keep) + Filter(b, keep)
  {
    if b == [] {
      assert a + b == a;
    } else {
      FilterConcat(a, b[..|b| - 1], keep);
      assert (a + b)[..|a + b| - 1] == a + b[..|b| - 1];
    }
  }

  /** Filtering keeps a whole slice when every item passes, and nothing when none does. */
  lemma {:induction false} FilterAllOrNone<T>(s: seq<T>, keep: T -> bool)
    ensures (forall x | x in s :: keep(x)) ==> Filter(s, keep) == s
    ensures (forall x | x in s :: !keep(x)) ==> Filter(s, keep) == []
  {
    if s != [] {
      FilterAllOrNone(s[..|s| - 1], keep);
      assert s == s[..|s| - 1] + [s[|s| - 1]];
    }
  }

  /** Filtering a sequence whose kept items are exactly those from `start` on. */
  lemma FilterIsTail<T>(s: seq<T>, keep: T -> bool, start: nat)
    requires start <= |s|
    requires forall i | 0 <= i < start :: !keep(s[i])
    requires forall i | start <= i < |s| :: keep(s[i])
    ensures Filter(s, keep) == s[start..]
  {
    assert s == s[..start] + s[start..];
    FilterConcat(s[..start], s[start..], keep);
    FilterAllOrNone(s[..start], keep);
    FilterAllOrNone(s[start..], keep);
  }

  /** `f` applied over the items in order, starting from `s`. */
  ghost function FoldLeft<S, T>(f: (S, T) -> S, s: S, items: seq<T>): S {
    if items == [] then s else f(FoldLeft(f, s, items[..|items| - 1]), items[|items| - 1])
  }

  lemma FoldLeftPush<S, T>(f: (S, T) -> S, s: S, items: seq<T>, item: T)
    ensures FoldLeft(f, s, items + [item]) == f(FoldLeft(f, s, items), item)
  {
    assert (items + [item])[..|items|] == items;
  }

  lemma FoldLeftPair<S, T>(f: (S, T) -> S, s: S, x: T, y: T)
    ensures FoldLeft(f, s, [x]) == f(s, x)
    ensures FoldLeft(f, s, [x, y]) == f(f(s, x), y)
  {
    FoldLeftPush(f, s, [], x);
    FoldLeftPush(f, s, [x], y);
    assert [] + [x] == [x] && [x] + [y] == [x, y];
  }

  lemma {:induction false} FoldLeftConcat<S, T>(f: (S, T) -> S, s: S, a: seq<T>, b: seq<T>)
    ensures FoldLeft(f, s, a + b) == FoldLeft(f, FoldLeft(f, s, a), b)
  {
    if b == [] {
      assert a + b == a;
    } else {
      FoldLeftConcat(f, s, a, b[..|b| - 1]);
      assert (a + b)[..|a + b| - 1] == a + b[..|b| - 1];
    }
  }

  /** The sequence stored under a key, empty when there is none. */
  function At<K, V>(m: map<K, seq<V>>, key: K): seq<V> {
    if key in m then m[key] else []
  }
}
