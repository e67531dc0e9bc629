/**
 * Shared vocabulary for the three user-management scripts: optional values,
 * results, Python's insertion-ordered `dict` written as a sequence of
 * key/value pairs, and the "append if not already present" list idiom the
 * scripts use to build column lists and permission lists.
 */
module Common {

  datatype Option<+T> = None | Some(value: T) {
    /** The value, or `default` when there is none (Python's `dict.get(k, default)`). */
    function GetOr(default: T): T {
      match this
      case Some(v) => v
      case None => default
    }
  }

  datatype Result<+T, +E> = Ok(value: T) | Err(error: E)

  /** No element at index `n` or later repeats an element before it. */
  predicate FreshFrom<T(==)>(s: seq<T>, n: int) {
    forall i, j :: 0 <= j < i < |s| && n <= i ==> s[i] != s[j]
  }

  /** No element occurs twice. */
  predicate NoDuplicates<T(==)>(s: seq<T>) {
    forall i, j :: 0 <= i < j < |s| ==> s[i] != s[j]
  }

  // ---------------------------------------------------------------------
  // Insertion-ordered dictionaries
  // ---------------------------------------------------------------------

  /** The keys of a dictionary, in insertion order. */
  function Keys<K, V>(d: seq<(K, V)>): seq<K>
  {
    seq(|d|, i requires 0 <= i < |d| => d[i].0)
  }

  /** `d.get(k)`: the value stored under `k`, if any. */
  function Get<K(==), V>(d: seq<(K, V)>, k: K): (r: Option<V>)
    ensures r.Some? <==> k in Keys(d)
    ensures r.Some? ==> (k, r.value) in d
  {
    if d == [] then None
    else if d[0].0 == k then
      assert Keys(d)[0] == k;
      Some(d[0].1)
    else
      var rest := Get(d[1..], k);
      assert Keys(d) == [d[0].0] + Keys(d[1..]);
      rest
  }

  /**
   * `d[k] = v`: an existing key keeps its position and takes the new value,
   * a new key is added at the end.
   */
  function Set<K(==,!new), V>(d: seq<(K, V)>, k: K, v: V): (r: seq<(K, V)>)
    ensures Keys(r) == if k in Keys(d) then Keys(d) else Keys(d) + [k]
    ensures forall k' :: Get(r, k') == if k' == k then Some(v) else Get(d, k')
  {
    if d == [] then [(k, v)]
    else if d[0].0 == k then
      var r := [(k, v)] + d[1..];
      assert Keys(d) == [d[0].0] + Keys(d[1..]);
      assert Keys(r) == [k] + Keys(d[1..]);
      assert r[1..] == d[1..];
      r
    else
      var rest := Set(d[1..], k, v);
      var r := [d[0]] + rest;
      assert Keys(d) == [d[0].0] + Keys(d[1..]);
      assert Keys(r) == [d[0].0] + Keys(rest);
      assert r[1..] == rest;
      r
  }

  /** `{k: v for k in ks}`: every listed key mapped to `v`, first-occurrence order. */
  function FromKeys<K(==,!new), V>(ks: seq<K>, v: V): (r: seq<(K, V)>)
    ensures Keys(r) == AppendNew([], ks)
    ensures forall k :: Get(r, k) == if k in ks then Some(v) else None
  {
    if ks == [] then []
    else
      var prev := FromKeys(ks[..|ks| - 1], v);
      assert ks == ks[..|ks| - 1] + [ks[|ks| - 1]];
      Set(prev, ks[|ks| - 1], v)
  }

  // ---------------------------------------------------------------------
  // Append-if-absent
  // ---------------------------------------------------------------------

  /**
   * Starting from `f`, append each element of `cols` in turn unless the list
   * already holds it (`if c not in f: f.append(c)`).
   */
  function AppendNew<T(==,!new)>(f: seq<T>, cols: seq<T>): (r: seq<T>)
    ensures |f| <= |r| && r[..|f|] == f
    ensures forall x :: x in r <==> x in f || x in cols
    decreases |cols|
  {
    if cols == [] then f
    else
      var prev := AppendNew(f, cols[..|cols| - 1]);
      var c := cols[|cols| - 1];
      assert cols == cols[..|cols| - 1] + [c];
      if c in prev then prev
      else
        assert (prev + [c])[..|prev|] == prev;
        prev + [c]
  }

  /** Everything appended comes from `cols` and is new: nothing after `f` repeats. */
  lemma {:induction false} AppendNewFresh<T(!new)>(f: seq<T>, cols: seq<T>)
    ensures var r := AppendNew(f, cols);
            && (forall i :: |f| <= i < |r| ==> r[i] in cols)
            && FreshFrom(r, |f|)
    decreases |cols|
  {
    if cols != [] {
      var init := cols[..|cols| - 1];
      AppendNewFresh(f, init);
      assert forall c :: c in init ==> c in cols;
    }
  }

  /** One more candidate: appended unless already there. */
  lemma AppendNewSnoc<T(!new)>(f: seq<T>, cols: seq<T>, c: T)
    ensures AppendNew(f, cols + [c]) ==
            if c in AppendNew(f, cols) then AppendNew(f, cols) else AppendNew(f, cols) + [c]
  {
    assert (cols + [c])[..|cols|] == cols;
  }

  /** Appending two lists of candidates is appending one after the other. */
  lemma {:induction false} AppendNewConcat<T(!new)>(f: seq<T>, a: seq<T>, b: seq<T>)
    ensures AppendNew(f, a + b) == AppendNew(AppendNew(f, a), b)
    decreases |b|
  {
    if b == [] {
      assert a + b == a;
    } else {
      var b' := b[..|b| - 1];
      assert (a + b)[..|a + b| - 1] == a + b';
      assert (a + b)[|a + b| - 1] == b[|b| - 1];
      AppendNewConcat(f, a, b');
    }
  }

  /** Appending only elements the list already holds changes nothing. */
  lemma {:induction false} AppendNewPresent<T(!new)>(f: seq<T>, cols: seq<T>)
    requires forall c :: c in cols ==> c in f
    ensures AppendNew(f, cols) == f
    decreases |cols|
  {
    if cols != [] {
      var prefix := cols[..|cols| - 1];
      assert forall c :: c in prefix ==> c in cols;
      AppendNewPresent(f, prefix);
      assert cols[|cols| - 1] in cols;
    }
  }

  /** Appending to a duplicate-free list keeps it duplicate-free. */
  lemma AppendNewNoDuplicates<T(!new)>(f: seq<T>, cols: seq<T>)
    requires NoDuplicates(f)
    ensures NoDuplicates(AppendNew(f, cols))
  {
    var r := AppendNew(f, cols);
    AppendNewFresh(f, cols);
    forall i, j | 0 <= i < j < |r|
      ensures r[i] != r[j]
    {
      if j < |f| {
        assert r[i] == f[i] && r[j] == f[j];
      }
    }
  }

  /** The concatenation of `f(x)` for each `x` of `xs`, in order. */
  function Gather<T, U>(xs: seq<T>, f: T -> seq<U>): seq<U> {
    if xs == [] then [] else Gather(xs[..|xs| - 1], f) + f(xs[|xs| - 1])
  }

  /** An element is gathered exactly when it comes from some `f(x)`. */
  lemma {:induction false} GatherMember<T, U>(xs: seq<T>, f: T -> seq<U>, u: U)
    ensures u in Gather(xs, f) <==> exists i :: 0 <= i < |xs| && u in f(xs[i])
    decreases |xs|
  {
    if xs != [] {
      var init := xs[..|xs| - 1];
      GatherMember(init, f, u);
      if u in Gather(init, f) {
        var i :| 0 <= i < |init| && u in f(init[i]);
        assert init[i] == xs[i];
      }
      if exists i :: 0 <= i < |xs| && u in f(xs[i]) {
        var i :| 0 <= i < |xs| && u in f(xs[i]);
        if i < |init| {
          assert init[i] == xs[i];
        }
      }
    }
  }
}
