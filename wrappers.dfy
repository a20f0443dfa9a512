/** Small shared vocabulary: optional values, results, and order-preserving
    filtering of sequences (the `iter().filter(..).collect()` idiom of the
    tracker's sources). */
module Wrappers {

  datatype Option<T> = None | Some(value: T)

  datatype Result<T, E> = Ok(value: T) | Err(error: E)

  /** The elements of `s` that satisfy `p`, in their original order. */
  function Filter<T>(p: T -> bool, s: seq<T>): (r: seq<T>)
    ensures |r| <= |s|
    ensures forall i :: 0 <= i < |r| ==> p(r[i])
    ensures forall x :: x in r ==> x in s
  {
    if s == [] then []
    else (if p(s[0]) then [s[0]] else []) + Filter(p, s[1..])
  }

  lemma {:induction false} FilterConcat<T>(p: T -> bool, a: seq<T>, b: seq<T>)
    ensures Filter(p, a + b) == Filter(p, a) + Filter(p, b)
  {
    if a == [] {
      assert a + b == b;
    } else {
      assert (a + b)[0] == a[0];
      assert (a + b)[1..] == a[1..] + b;
      FilterConcat(p, a[1..], b);
    }
  }

  /** Filtering keeps everything exactly when everything already qualifies. */
  lemma {:induction false} FilterIdentity<T>(p: T -> bool, s: seq<T>)
    ensures Filter(p, s) == s <==> forall i :: 0 <= i < |s| ==> p(s[i])
  {
    if s != [] {
      FilterIdentity(p, s[1..]);
      if !p(s[0]) {
        assert |Filter(p, s)| <= |s[1..]| < |s|;
      } else {
        assert forall i :: 1 <= i < |s| ==> s[i] == s[1..][i - 1];
      }
    }
  }

  lemma {:induction false} FilterIdempotent<T>(p: T -> bool, s: seq<T>)
    ensures Filter(p, Filter(p, s)) == Filter(p, s)
  {
    FilterIdentity(p, Filter(p, s));
  }

  /** Every qualifying element survives filtering. */
  lemma {:induction false} FilterComplete<T>(p: T -> bool, s: seq<T>, x: T)
    requires x in s && p(x)
    ensures x in Filter(p, s)
  {
    if s[0] != x {
      FilterComplete(p, s[1..], x);
    }
  }

  /** Filtering a sequence none of whose elements qualify yields nothing. */
  lemma {:induction false} FilterNone<T>(p: T -> bool, s: seq<T>)
    requires forall i :: 0 <= i < |s| ==> !p(s[i])
    ensures Filter(p, s) == []
  {
    if s != [] {
      FilterNone(p, s[1..]);
    }
  }

  /** The `Some` results of `f` over `s`, in order: `filter_map`, or a loop
      that pushes each successful result. */
  function FilterMap<A, B>(f: A -> Option<B>, s: seq<A>): (r: seq<B>)
    ensures |r| <= |s|
  {
    if s == [] then []
    else
      var rest := FilterMap(f, s[..|s| - 1]);
      match f(s[|s| - 1])
      case None => rest
      case Some(v) => rest + [v]
  }

  lemma {:induction false} FilterMapConcat<A, B>(f: A -> Option<B>, a: seq<A>, b: seq<A>)
    ensures FilterMap(f, a + b) == FilterMap(f, a) + FilterMap(f, b)
    decreases |b|
  {
    if b == [] {
      assert a + b == a;
    } else {
      var b' := b[..|b| - 1];
      assert (a + b)[..|a + b| - 1] == a + b';
      assert (a + b)[|a + b| - 1] == b[|b| - 1];
      FilterMapConcat(f, a, b');
    }
  }

  /** Every result comes from some element. */
  lemma {:induction false} FilterMapSound<A, B>(f: A -> Option<B>, s: seq<A>)
    ensures forall k :: 0 <= k < |FilterMap(f, s)| ==>
      exists j :: 0 <= j < |s| && f(s[j]) == Some(FilterMap(f, s)[k])
  {
    if s != [] {
      var init := s[..|s| - 1];
      FilterMapSound(f, init);
      var rest := FilterMap(f, init);
      var r := FilterMap(f, s);
      assert r == rest || (f(s[|s| - 1]).Some? && r == rest + [f(s[|s| - 1]).value]);
      forall k | 0 <= k < |r|
        ensures exists j :: 0 <= j < |s| && f(s[j]) == Some(r[k])
      {
        if k < |rest| {
          var j :| 0 <= j < |init| && f(init[j]) == Some(rest[k]);
          assert init[j] == s[j];
          assert r[k] == rest[k];
        } else {
          assert f(s[|s| - 1]) == Some(r[k]);
        }
      }
    } else {
      assert FilterMap(f, s) == [];
    }
  }

  /** Nothing comes out exactly when every element fails. */
  lemma {:induction false} FilterMapEmpty<A, B>(f: A -> Option<B>, s: seq<A>)
    ensures FilterMap(f, s) == [] <==> forall j :: 0 <= j < |s| ==> f(s[j]).None?
  {
    if s != [] {
      var init := s[..|s| - 1];
      FilterMapEmpty(f, init);
      assert forall j :: 0 <= j < |init| ==> init[j] == s[j];
    }
  }
}
