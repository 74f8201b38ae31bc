/** Sequence operations behind the list queries: a comprehension with a
    condition (`Filter`), a Python slice `s[offset:offset + limit]` (`Page`)
    and the values of a dictionary in its insertion order (`Values`). */
module Seqs {

  /** `[x for x in s if p(x)]`: the elements of `s` that satisfy `p`, in order.
      That order and repeats are kept is stated by `FilterAppend`. */
  function Filter<T>(s: seq<T>, p: T -> bool): (r: seq<T>)
    ensures |r| <= |s|
    ensures forall i :: 0 <= i < |r| ==> r[i] in s && p(r[i])
    ensures forall i :: 0 <= i < |s| && p(s[i]) ==> s[i] in r
  {
    if s == [] then []
    else if p(s[0]) then [s[0]] + Filter(s[1..], p)
    else Filter(s[1..], p)
  }

  /** Filtering a concatenation filters each part and keeps the parts in order. */
  lemma {:induction false} FilterAppend<T>(a: seq<T>, b: seq<T>, p: T -> bool)
    ensures Filter(a + b, p) == Filter(a, p) + Filter(b, p)
  {
    if a == [] {
      assert a + b == b;
    } else {
      assert (a + b)[1..] == a[1..] + b;
      FilterAppend(a[1..], b, p);
    }
  }

  /** A condition that holds of every element keeps the whole sequence. */
  lemma {:induction false} FilterAll<T>(s: seq<T>, p: T -> bool)
    requires forall i :: 0 <= i < |s| ==> p(s[i])
    ensures Filter(s, p) == s
  {
    if s != [] {
      FilterAll(s[1..], p);
    }
  }

  /** Filtering twice is filtering once by the conjunction of the two conditions. */
  lemma {:induction false} FilterConjunction<T>(s: seq<T>, p: T -> bool, q: T -> bool, pq: T -> bool)
    requires forall i :: 0 <= i < |s| ==> pq(s[i]) == (p(s[i]) && q(s[i]))
    ensures Filter(Filter(s, p), q) == Filter(s, pq)
  {
    if s != [] {
      FilterConjunction(s[1..], p, q, pq);
      if p(s[0]) {
        assert Filter(s, p)[1..] == Filter(s[1..], p);
      }
    }
  }

  /** Filtering keeps a sequence whose keys strictly increase strictly increasing. */
  lemma {:induction false} FilterKeepsIncreasing<T>(s: seq<T>, p: T -> bool, key: T -> int)
    requires forall i, j :: 0 <= i < j < |s| ==> key(s[i]) < key(s[j])
    ensures forall i, j :: 0 <= i < j < |Filter(s, p)| ==> key(Filter(s, p)[i]) < key(Filter(s, p)[j])
  {
    if s != [] {
      var rest := Filter(s[1..], p);
      FilterKeepsIncreasing(s[1..], p, key);
      if p(s[0]) {
        forall j | 0 <= j < |rest| ensures key(s[0]) < key(rest[j]) {
          var k :| 0 <= k < |s[1..]| && s[1..][k] == rest[j];
          assert s[k + 1] == rest[j];
        }
      }
    }
  }

  /** Python's `s[offset:offset + limit]` for a non-negative offset and limit:
      the elements at positions offset, offset + 1, ... up to `limit` of them. */
  function Page<T>(s: seq<T>, offset: nat, limit: nat): (r: seq<T>)
    ensures |r| <= limit
    ensures |r| == if offset >= |s| then 0 else if |s| - offset < limit then |s| - offset else limit
    ensures forall i :: 0 <= i < |r| ==> r[i] == s[offset + i]
  {
    var lo := if offset < |s| then offset else |s|;
    var hi := if offset + limit < |s| then offset + limit else |s|;
    s[lo..hi]
  }

  /** Two consecutive pages of size `k` together are the page of the first
      `2k` elements; over a sequence whose keys strictly increase, every
      element of the first page has a smaller key than every element of the
      second, so the two pages share nothing. The first half holds of every
      sequence; only the second needs the increasing keys. */
  lemma AdjacentPages<T>(s: seq<T>, k: nat, key: T -> int)
    requires forall i, j :: 0 <= i < j < |s| ==> key(s[i]) < key(s[j])
    ensures Page(s, 0, k) + Page(s, k, k) == Page(s, 0, 2 * k)
    ensures forall i, j :: 0 <= i < |Page(s, 0, k)| && 0 <= j < |Page(s, k, k)| ==>
      key(Page(s, 0, k)[i]) < key(Page(s, k, k)[j])
  {
  }

  /** The values stored under `keys`, in the order of `keys`. */
  function Values<T>(m: map<int, T>, keys: seq<int>): (r: seq<T>)
    requires forall i :: 0 <= i < |keys| ==> keys[i] in m
    ensures |r| == |keys|
    ensures forall i :: 0 <= i < |keys| ==> r[i] == m[keys[i]]
  {
    if keys == [] then [] else Values(m, keys[..|keys| - 1]) + [m[keys[|keys| - 1]]]
  }

  /** Storing a value under a new key that is appended to the key order
      appends the value to the values and leaves the others in place. */
  lemma ValuesAppend<T>(m: map<int, T>, keys: seq<int>, k: int, v: T)
    requires forall i :: 0 <= i < |keys| ==> keys[i] in m
    requires k !in keys
    ensures Values(m[k := v], keys + [k]) == Values(m, keys) + [v]
  {
    var r := Values(m[k := v], keys + [k]);
    var e := Values(m, keys) + [v];
    assert |r| == |e|;
    forall i | 0 <= i < |r| ensures r[i] == e[i] {
      if i < |keys| {
        assert (keys + [k])[i] == keys[i];
      }
    }
  }
}
