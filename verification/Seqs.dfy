/** Sequence vocabulary shared by the models: filtering, flattening and prefixes. */
module Seqs {

  datatype Option<+T> = None | Some(value: T)

  datatype Result<+T, +E> = Ok(value: T) | Err(error: E)

  function Min(a: int, b: int): int {
    if a <= b then a else b
  }

  function Max(a: int, b: int): int {
    if a >= b then a else b
  }

  /** The elements of `s` that satisfy `p`, in order. */
  function Filter<T>(p: T -> bool, s: seq<T>): (r: seq<T>) {
    if s == [] then []
    else Filter(p, s[..|s| - 1]) + (if p(s[|s| - 1]) then [s[|s| - 1]] else [])
  }

  /** The concatenation of `ss`. */
  function Flatten<T>(ss: seq<seq<T>>): (r: seq<T>) {
    if ss == [] then [] else Flatten(ss[..|ss| - 1]) + ss[|ss| - 1]
  }

  lemma {:induction false} FilterAppend<T>(p: T -> bool, a: seq<T>, b: seq<T>)
    ensures Filter(p, a + b) == Filter(p, a) + Filter(p, b)
  {
    if b == [] {
      assert a + b == a;
    } else {
      FilterAppend(p, a, b[..|b| - 1]);
      assert (a + b)[..|a + b| - 1] == a + b[..|b| - 1];
    }
  }

  lemma FilterOne<T>(p: T -> bool, x: T)
    ensures Filter(p, [x]) == if p(x) then [x] else []
  {
    assert [x][..0] == [];
  }

  lemma FilterPush<T>(p: T -> bool, s: seq<T>, x: T)
    ensures Filter(p, s + [x]) == if p(x) then Filter(p, s) + [x] else Filter(p, s)
  {
    assert (s + [x])[..|s + [x]| - 1] == s;
  }

  lemma FilterPrefix<T>(p: T -> bool, a: seq<T>, b: seq<T>)
    requires a <= b
    ensures Filter(p, a) <= Filter(p, b)
  {
    assert b == a + b[|a|..];
    FilterAppend(p, a, b[|a|..]);
  }

  lemma {:induction false} FilterMembers<T>(p: T -> bool, s: seq<T>)
    ensures |Filter(p, s)| <= |s|
    ensures forall x :: x in Filter(p, s) <==> x in s && p(x)
  {
    if s == [] {
    } else {
      FilterMembers(p, s[..|s| - 1]);
      assert s == s[..|s| - 1] + [s[|s| - 1]];
    }
  }

  lemma {:induction false} FilterFilter<T>(p: T -> bool, q: T -> bool, s: seq<T>)
    ensures Filter(p, Filter(q, s)) == Filter(q, Filter(p, s))
  {
    if s == [] {
    } else {
      var t, x := s[..|s| - 1], s[|s| - 1];
      assert s == t + [x];
      FilterFilter(p, q, t);
      FilterPush(q, t, x);
      FilterPush(p, t, x);
      FilterPush(p, Filter(q, t), x);
      FilterPush(q, Filter(p, t), x);
    }
  }

  lemma {:induction false} FilterAll<T>(p: T -> bool, s: seq<T>)
    requires forall x :: x in s ==> p(x)
    ensures Filter(p, s) == s
  {
    if s == [] {
    } else {
      var t, x := s[..|s| - 1], s[|s| - 1];
      assert x in s;
      FilterAll(p, t);
      assert s == t + [x];
    }
  }

  lemma {:induction false} FilterNone<T>(p: T -> bool, s: seq<T>)
    requires forall x :: x in s ==> !p(x)
    ensures Filter(p, s) == []
  {
    if s == [] {
    } else {
      FilterNone(p, s[..|s| - 1]);
    }
  }

  lemma {:induction false} FlattenAppend<T>(a: seq<seq<T>>, b: seq<seq<T>>)
    ensures Flatten(a + b) == Flatten(a) + Flatten(b)
  {
    if b == [] {
      assert a + b == a;
    } else {
      var front, last := b[..|b| - 1], b[|b| - 1];
      FlattenAppend(a, front);
      assert (a + b)[..|a + b| - 1] == a + front && (a + b)[|a + b| - 1] == last;
      assert (Flatten(a) + Flatten(front)) + last == Flatten(a) + (Flatten(front) + last);
    }
  }

  lemma FlattenOne<T>(x: seq<T>)
    ensures Flatten([x]) == x
  {
    assert [x][..0] == [];
  }

  lemma FlattenPush<T>(a: seq<seq<T>>, x: seq<T>)
    ensures Flatten(a + [x]) == Flatten(a) + x
  {
    assert (a + [x])[..|a + [x]| - 1] == a;
  }

  lemma FlattenHead<T>(a: seq<seq<T>>)
    requires a != []
    ensures Flatten(a) == a[0] + Flatten(a[1..])
  {
    assert a == [a[0]] + a[1..];
    FlattenAppend([a[0]], a[1..]);
    FlattenOne(a[0]);
  }

  /** The concatenation of the images of the elements of `s`. */
  function FlatMap<T, U>(g: T -> seq<U>, s: seq<T>): (r: seq<U>) {
    if s == [] then [] else FlatMap(g, s[..|s| - 1]) + g(s[|s| - 1])
  }

  lemma {:induction false} FlatMapAppend<T, U>(g: T -> seq<U>, a: seq<T>, b: seq<T>)
    ensures FlatMap(g, a + b) == FlatMap(g, a) + FlatMap(g, b)
  {
    if b == [] {
      assert a + b == a;
    } else {
      FlatMapAppend(g, a, b[..|b| - 1]);
      assert (a + b)[..|a + b| - 1] == a + b[..|b| - 1];
    }
  }

  lemma FlatMapOne<T, U>(g: T -> seq<U>, x: T)
    ensures FlatMap(g, [x]) == g(x)
  {
    assert [x][..0] == [];
  }
}
