/** The loop shape every scraper shares: walk a slice in order and append a
    record for some of its elements. `FilterMap` is that loop as a function;
    the lemmas say the result is an order-preserving subsequence of the images
    and, under a permutation of the input, a permutation of the output. */
module Seqs {
  import opened Wrappers

  /** Appends `f(x)` for every `x` of `s` (in order) whose image is present. */
  function FilterMap<A, B>(s: seq<A>, f: A -> Option<B>): (r: seq<B>)
    ensures |r| <= |s|
  {
    if s == [] then []
    else
      var prev := FilterMap(s[..|s| - 1], f);
      match f(s[|s| - 1])
      case None => prev
      case Some(b) => prev + [b]
  }

  /** The indices of `s` whose images `FilterMap` keeps, in increasing order. */
  function Kept<A, B>(s: seq<A>, f: A -> Option<B>): (k: seq<nat>)
  {
    if s == [] then []
    else
      var prev := Kept(s[..|s| - 1], f);
      if f(s[|s| - 1]).Some? then prev + [|s| - 1] else prev
  }

  /** `FilterMap(s, f)` is exactly the present images of `s`, in the order of `s`:
      the j-th output is the image of the Kept(s, f)[j]-th input, the kept
      indices increase, and every input with an image is kept. */
  lemma {:induction false} FilterMapKeeps<A, B>(s: seq<A>, f: A -> Option<B>)
    ensures |Kept(s, f)| == |FilterMap(s, f)|
    ensures forall j :: 0 <= j < |Kept(s, f)| ==>
              Kept(s, f)[j] < |s| && f(s[Kept(s, f)[j]]) == Some(FilterMap(s, f)[j])
    ensures forall j, j' :: 0 <= j < j' < |Kept(s, f)| ==> Kept(s, f)[j] < Kept(s, f)[j']
    ensures forall i :: 0 <= i < |s| && f(s[i]).Some? ==> i in Kept(s, f)
  {
    if s != [] {
      var init := s[..|s| - 1];
      FilterMapKeeps(init, f);
      assert forall i :: 0 <= i < |init| ==> init[i] == s[i];
    }
  }

  /** The loop over a concatenation is the concatenation of the loops. */
  lemma {:induction false} FilterMapConcat<A, B>(a: seq<A>, b: seq<A>, f: A -> Option<B>)
    ensures FilterMap(a + b, f) == FilterMap(a, f) + FilterMap(b, f)
  {
    if b == [] {
      assert a + b == a;
    } else {
      FilterMapConcat(a, b[..|b| - 1], f);
      assert (a + b)[..|a + b| - 1] == a + b[..|b| - 1];
    }
  }

  /** Visiting the same elements in another order yields the same records,
      possibly in another order. */
  lemma {:induction false} FilterMapPermutation<A, B>(s: seq<A>, t: seq<A>, f: A -> Option<B>)
    requires multiset(s) == multiset(t)
    ensures multiset(FilterMap(s, f)) == multiset(FilterMap(t, f))
  {
    if s == [] {
      assert t == [] by { assert |t| == |multiset(t)|; }
    } else {
      var x := s[|s| - 1];
      var init := s[..|s| - 1];
      assert s == init + [x];
      assert x in multiset(t);
      var i :| 0 <= i < |t| && t[i] == x;
      var rest := t[..i] + t[i + 1..];
      RemoveAt(t, i);
      assert multiset(s) == multiset(init) + multiset{x};
      assert multiset(rest) == multiset(init) by {
        var m := multiset{x};
        assert multiset(rest) + m == multiset(init) + m;
        forall y ensures multiset(rest)[y] == multiset(init)[y] {
          assert (multiset(rest) + m)[y] == (multiset(init) + m)[y];
        }
      }
      FilterMapPermutation(init, rest, f);
      FilterMapConcat(init, [x], f);
      FilterMapRemoveAt(t, i, f);
    }
  }

  lemma RemoveAt<A>(t: seq<A>, i: nat)
    requires i < |t|
    ensures multiset(t) == multiset(t[..i] + t[i + 1..]) + multiset{t[i]}
  {
    assert t == t[..i] + [t[i]] + t[i + 1..];
  }

  lemma {:induction false} FilterMapRemoveAt<A, B>(t: seq<A>, i: nat, f: A -> Option<B>)
    requires i < |t|
    ensures multiset(FilterMap(t, f))
         == multiset(FilterMap(t[..i] + t[i + 1..], f)) + multiset(FilterMap([t[i]], f))
  {
    var a, x, b := t[..i], t[i], t[i + 1..];
    assert t == (a + [x]) + b;
    FilterMapConcat(a + [x], b, f);
    FilterMapConcat(a, [x], f);
    FilterMapConcat(a, b, f);
    var fa, fx, fb := FilterMap(a, f), FilterMap([x], f), FilterMap(b, f);
    assert multiset(FilterMap(t, f)) == multiset(fa) + multiset(fx) + multiset(fb) by {
      assert FilterMap(t, f) == (fa + fx) + fb;
    }
    assert multiset(FilterMap(a + b, f)) == multiset(fa) + multiset(fb) by {
      assert FilterMap(a + b, f) == fa + fb;
    }
  }
}
