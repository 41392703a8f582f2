/** An optional value: a JavaScript value that may be `null`/`undefined`. */
module Optional {

  datatype Option<T> = None | Some(value: T)
}

/** Order-preserving filtering and flattening of sequences, as JavaScript's
    `Array.prototype.filter` and `flat`/`flatMap` do them. */
module Seqs {

  /** `s.filter(p)`: the elements satisfying `p`, in their original order. */
  function Filter<T>(s: seq<T>, p: T -> bool): (r: seq<T>)
    ensures |r| <= |s|
    ensures forall i | 0 <= i < |r| :: p(r[i])
  {
    if |s| == 0 then []
    else (if p(s[0]) then [s[0]] else []) + Filter(s[1..], p)
  }

  /** The filtered sequence holds exactly the elements of `s` that pass. */
  lemma {:induction false} FilterMembers<T>(s: seq<T>, p: T -> bool)
    ensures forall i | 0 <= i < |Filter(s, p)| :: Filter(s, p)[i] in s
    ensures forall i | 0 <= i < |s| :: p(s[i]) ==> s[i] in Filter(s, p)
  {
    if |s| > 0 {
      var head := if p(s[0]) then [s[0]] else [];
      var tail := Filter(s[1..], p);
      FilterMembers(s[1..], p);
      assert Filter(s, p) == head + tail;
      forall i | 0 <= i < |head + tail|
        ensures (head + tail)[i] in s
      {
        if i >= |head| {
          assert (head + tail)[i] == tail[i - |head|];
          assert tail[i - |head|] in s[1..];
        }
      }
      forall i | 0 <= i < |s| && p(s[i])
        ensures s[i] in head + tail
      {
        if i > 0 {
          assert s[i] == s[1..][i - 1];
          assert s[i] in tail;
        }
      }
    }
  }

  /** Filtering distributes over concatenation, so relative order is kept. */
  lemma {:induction false} FilterConcat<T>(a: seq<T>, b: seq<T>, p: T -> bool)
    ensures Filter(a + b, p) == Filter(a, p) + Filter(b, p)
  {
    if |a| == 0 {
      assert a + b == b;
    } else {
      assert (a + b)[1..] == a[1..] + b;
      FilterConcat(a[1..], b, p);
    }
  }

  /** Filtering a sequence whose every element passes changes nothing. */
  lemma {:induction false} FilterAllPass<T>(s: seq<T>, p: T -> bool)
    requires forall i | 0 <= i < |s| :: p(s[i])
    ensures Filter(s, p) == s
  {
    if |s| > 0 {
      FilterAllPass(s[1..], p);
      assert s == [s[0]] + s[1..];
    }
  }

  /** Filtering a sequence whose every element fails yields nothing. */
  lemma {:induction false} FilterNonePass<T>(s: seq<T>, p: T -> bool)
    requires forall i | 0 <= i < |s| :: !p(s[i])
    ensures Filter(s, p) == []
  {
    if |s| > 0 {
      FilterNonePass(s[1..], p);
    }
  }

  /** When exactly the element at `k` fails, filtering drops just that element. */
  lemma {:induction false} FilterDropsOne<T>(s: seq<T>, k: int, p: T -> bool)
    requires 0 <= k < |s| && !p(s[k])
    requires forall i | 0 <= i < |s| && i != k :: p(s[i])
    ensures Filter(s, p) == s[..k] + s[k + 1..]
  {
    var front, back := s[..k], s[k + 1..];
    assert s == (front + [s[k]]) + back;
    assert Filter(front, p) == front by {
      FilterAllPass(front, p);
    }
    assert Filter(back, p) == back by {
      forall i | 0 <= i < |back|
        ensures p(back[i])
      {
        assert back[i] == s[k + 1 + i];
      }
      FilterAllPass(back, p);
    }
    assert Filter([s[k]], p) == [] by {
      FilterNonePass([s[k]], p);
    }
    calc {
      Filter(s, p);
      Filter((front + [s[k]]) + back, p);
      { FilterConcat(front + [s[k]], back, p); }
      Filter(front + [s[k]], p) + Filter(back, p);
      { FilterConcat(front, [s[k]], p); }
      Filter(front, p) + Filter([s[k]], p) + Filter(back, p);
      front + back;
    }
  }

  /** Filtering twice by the same test is filtering once. */
  lemma FilterIdempotent<T>(s: seq<T>, p: T -> bool)
    ensures Filter(Filter(s, p), p) == Filter(s, p)
  {
    var r := Filter(s, p);
    FilterAllPass(r, p);
  }

  /** Filtering by `p` then by `q` is filtering by both at once. */
  lemma {:induction false} FilterFilter<T>(s: seq<T>, p: T -> bool, q: T -> bool)
    ensures Filter(Filter(s, p), q) == Filter(s, x => p(x) && q(x))
  {
    if |s| > 0 {
      FilterFilter(s[1..], p, q);
      var head := if p(s[0]) then [s[0]] else [];
      FilterConcat(head, Filter(s[1..], p), q);
      if p(s[0]) {
        assert Filter(head, q) == (if q(s[0]) then [s[0]] else []) by {
          assert head[1..] == [];
        }
      }
    }
  }

  /** `s.reduce((sum, x) => sum + f(x), 0)`: the sum of `f` over `s`,
      accumulated left to right. */
  function Sum<T>(s: seq<T>, f: T -> real): real {
    if |s| == 0 then 0.0 else Sum(s[..|s| - 1], f) + f(s[|s| - 1])
  }

  /** The same fold over integers. */
  function IntSum<T>(s: seq<T>, f: T -> int): int {
    if |s| == 0 then 0 else IntSum(s[..|s| - 1], f) + f(s[|s| - 1])
  }

  /** Both sums split over a concatenation. */
  lemma {:induction false} SumConcat<T>(a: seq<T>, b: seq<T>, f: T -> real, g: T -> int)
    ensures Sum(a + b, f) == Sum(a, f) + Sum(b, f)
    ensures IntSum(a + b, g) == IntSum(a, g) + IntSum(b, g)
  {
    if |b| > 0 {
      assert (a + b)[..|a + b| - 1] == a + b[..|b| - 1];
      SumConcat(a, b[..|b| - 1], f, g);
    } else {
      assert a + b == a;
    }
  }

  /** The sums of a one-element sequence. */
  lemma SumSingle<T>(x: T, f: T -> real, g: T -> int)
    ensures Sum([x], f) == f(x) && IntSum([x], g) == g(x)
  {
    assert [x][..0] == [];
  }

  /** The sums of `s` split around the element at `k`. */
  lemma SumAround<T>(s: seq<T>, k: int, f: T -> real, g: T -> int)
    requires 0 <= k < |s|
    ensures Sum(s, f) == Sum(s[..k], f) + f(s[k]) + Sum(s[k + 1..], f)
    ensures IntSum(s, g) == IntSum(s[..k], g) + g(s[k]) + IntSum(s[k + 1..], g)
  {
    var front, back := s[..k], s[k + 1..];
    assert s == (front + [s[k]]) + back;
    SumConcat(front + [s[k]], back, f, g);
    SumConcat(front, [s[k]], f, g);
    SumSingle(s[k], f, g);
  }

  /** Dropping the element at `k` takes its share out of both sums. */
  lemma SumDrop<T>(s: seq<T>, k: int, f: T -> real, g: T -> int)
    requires 0 <= k < |s|
    ensures Sum(s[..k] + s[k + 1..], f) == Sum(s, f) - f(s[k])
    ensures IntSum(s[..k] + s[k + 1..], g) == IntSum(s, g) - g(s[k])
  {
    SumAround(s, k, f, g);
    SumConcat(s[..k], s[k + 1..], f, g);
  }

  /** Replacing the element at `k` by `x` swaps its share in both sums for `x`'s. */
  lemma SumReplace<T>(s: seq<T>, k: int, x: T, f: T -> real, g: T -> int)
    requires 0 <= k < |s|
    ensures Sum(s[k := x], f) == Sum(s, f) - f(s[k]) + f(x)
    ensures IntSum(s[k := x], g) == IntSum(s, g) - g(s[k]) + g(x)
  {
    var t := s[k := x];
    assert t[..k] == s[..k] && t[k + 1..] == s[k + 1..];
    SumAround(s, k, f, g);
    SumAround(t, k, f, g);
  }

  /** The keys of an association list, in order. */
  function Keys<K, V>(entries: seq<(K, V)>): (r: seq<K>)
    ensures |r| == |entries|
    ensures forall i | 0 <= i < |r| :: r[i] == entries[i].0
  {
    seq(|entries|, i requires 0 <= i < |entries| => entries[i].0)
  }

  /** `object[key] || default` for an object given by its entries in key
      order: the value of the first entry with that key, or `default` when
      no entry has it. */
  function ValueFor<K(==), V>(entries: seq<(K, V)>, key: K, default: V): (r: V)
    ensures key !in Keys(entries) ==> r == default
    ensures key in Keys(entries) ==> (key, r) in entries
  {
    if |entries| == 0 then default
    else if entries[0].0 == key then entries[0].1
    else
      assert Keys(entries[1..]) == Keys(entries)[1..];
      ValueFor(entries[1..], key, default)
  }

  /** The value found is that of the first entry with the key. */
  lemma {:induction false} ValueForFirst<K, V>(entries: seq<(K, V)>, key: K, default: V, i: int)
    requires 0 <= i < |entries| && entries[i].0 == key
    requires forall j | 0 <= j < i :: entries[j].0 != key
    ensures ValueFor(entries, key, default) == entries[i].1
  {
    if i > 0 {
      ValueForFirst(entries[1..], key, default, i - 1);
    }
  }

  /** `ss.flat()`: the concatenation of the sequences in order. */
  function Flatten<T>(ss: seq<seq<T>>): (r: seq<T>)
    ensures forall i, j | 0 <= i < |ss| && 0 <= j < |ss[i]| :: ss[i][j] in r
  {
    if |ss| == 0 then []
    else
      var r := ss[0] + Flatten(ss[1..]);
      assert forall i | 1 <= i < |ss| :: ss[i] == ss[1..][i - 1];
      r
  }
}
