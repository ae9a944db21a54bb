/** Order-preserving filtering of sequences, the meaning of JavaScript's
    `Array.prototype.filter` on which every query of the store is built. */
module Seqs {

  /** `r` can be obtained from `s` by deleting elements, keeping order. */
  ghost predicate SubsequenceOf<T>(r: seq<T>, s: seq<T>)
    decreases |s|
  {
    if r == [] then true
    else if s == [] then false
    else (r[0] == s[0] && SubsequenceOf(r[1..], s[1..])) || SubsequenceOf(r, s[1..])
  }

  /** The elements of `s` satisfying `p`, in their original order. */
  function Filter<T(==,!new)>(s: seq<T>, p: T -> bool): (r: seq<T>)
    ensures |r| <= |s|
    ensures forall i :: 0 <= i < |r| ==> p(r[i])
  {
    if s == [] then []
    else
      var rest := Filter(s[1..], p);
      assert s == [s[0]] + s[1..];
      if p(s[0]) then [s[0]] + rest else rest
  }

  /** Filtering keeps exactly the elements satisfying `p`, each as often as in `s`. */
  lemma {:induction false} FilterMultiplicity<T(!new)>(s: seq<T>, p: T -> bool, x: T)
    ensures multiset(Filter(s, p))[x] == if p(x) then multiset(s)[x] else 0
    ensures x in Filter(s, p) <==> x in s && p(x)
  {
    if s != [] {
      FilterMultiplicity(s[1..], p, x);
      assert s == [s[0]] + s[1..];
      assert multiset(s) == multiset{s[0]} + multiset(s[1..]);
    }
  }

  /** Filtering keeps the original order. */
  lemma {:induction false} FilterSubsequence<T(!new)>(s: seq<T>, p: T -> bool)
    ensures SubsequenceOf(Filter(s, p), s)
  {
    if s != [] {
      FilterSubsequence(s[1..], p);
      var rest := Filter(s[1..], p);
      if p(s[0]) {
        assert Filter(s, p) == [s[0]] + rest;
        assert ([s[0]] + rest)[1..] == rest;
      }
    }
  }

  lemma {:induction false} FilterAppend<T(!new)>(a: seq<T>, b: seq<T>, p: T -> bool)
    ensures Filter(a + b, p) == Filter(a, p) + Filter(b, p)
  {
    if a == [] {
      assert a + b == b;
    } else {
      assert (a + b)[1..] == a[1..] + b;
      FilterAppend(a[1..], b, p);
    }
  }

  lemma {:induction false} FilterNone<T(!new)>(s: seq<T>, p: T -> bool)
    requires forall i :: 0 <= i < |s| ==> !p(s[i])
    ensures Filter(s, p) == []
  {
    if s != [] {
      FilterNone(s[1..], p);
    }
  }

  lemma {:induction false} FilterAll<T(!new)>(s: seq<T>, p: T -> bool)
    requires forall i :: 0 <= i < |s| ==> p(s[i])
    ensures Filter(s, p) == s
  {
    if s != [] {
      FilterAll(s[1..], p);
    }
  }

  // ----- Concatenation of blocks -----

  /** The blocks of `bs` one after the other, as nested loops that `push`
      element by element produce them. */
  function Flatten<T>(bs: seq<seq<T>>): seq<T>
  {
    if bs == [] then [] else Flatten(bs[..|bs| - 1]) + bs[|bs| - 1]
  }

  /** Appending block k to the first k blocks gives the first k + 1 blocks. */
  lemma FlattenPush<T>(bs: seq<seq<T>>, k: nat)
    requires k < |bs|
    ensures Flatten(bs[..k + 1]) == Flatten(bs[..k]) + bs[k]
  {
    assert bs[..k + 1][..k] == bs[..k];
  }

  lemma {:induction false} FlattenAppend<T>(a: seq<seq<T>>, b: seq<seq<T>>)
    ensures Flatten(a + b) == Flatten(a) + Flatten(b)
  {
    if b == [] {
      assert a + b == a;
    } else {
      var b' := b[..|b| - 1];
      assert (a + b)[..|a + b| - 1] == a + b';
      FlattenAppend(a, b');
    }
  }

  /** Blocks of m elements each flatten to |bs| * m elements. */
  lemma {:induction false} FlattenLength<T>(bs: seq<seq<T>>, m: nat)
    requires forall i :: 0 <= i < |bs| ==> |bs[i]| == m
    ensures |Flatten(bs)| == |bs| * m
  {
    if bs != [] {
      var init := bs[..|bs| - 1];
      FlattenLength(init, m);
      assert |Flatten(bs)| == |init| * m + m;
      assert |init| * m + m == (|init| + 1) * m;
    }
  }

  /** Every element of the flattening is an element of some block. */
  lemma {:induction false} FlattenOrigin<T>(bs: seq<seq<T>>, x: T) returns (i: nat)
    requires x in Flatten(bs)
    ensures i < |bs| && x in bs[i]
  {
    var init := bs[..|bs| - 1];
    if x in Flatten(init) {
      i := FlattenOrigin(init, x);
      assert bs[i] == init[i];
    } else {
      i := |bs| - 1;
    }
  }

  /** Every element of every block is in the flattening. */
  lemma {:induction false} FlattenComplete<T>(bs: seq<seq<T>>, i: nat, x: T)
    requires i < |bs| && x in bs[i]
    ensures x in Flatten(bs)
  {
    var init := bs[..|bs| - 1];
    if i < |bs| - 1 {
      assert bs[i] == init[i];
      FlattenComplete(init, i, x);
    }
  }

  /** The first element of the flattening is the first element of the first block. */
  lemma {:induction false} FlattenFirst<T>(bs: seq<seq<T>>)
    requires |bs| > 0 && |bs[0]| > 0
    ensures |Flatten(bs)| > 0 && Flatten(bs)[0] == bs[0][0]
  {
    var init := bs[..|bs| - 1];
    if |bs| > 1 {
      FlattenFirst(init);
    }
  }

  /** `R` holds between every element and every later one. */
  ghost predicate Pairwise<T>(s: seq<T>, R: (T, T) -> bool)
  {
    forall p, q :: 0 <= p < q < |s| ==> R(s[p], s[q])
  }

  /** `R` holds pairwise across the flattening when it holds pairwise inside
      each block and between the elements of any block and of any later one. */
  lemma {:induction false} FlattenPairwise<T>(bs: seq<seq<T>>, R: (T, T) -> bool)
    requires forall i :: 0 <= i < |bs| ==> Pairwise(bs[i], R)
    requires forall i1, i2, x, y :: 0 <= i1 < i2 < |bs| && x in bs[i1] && y in bs[i2] ==> R(x, y)
    ensures Pairwise(Flatten(bs), R)
  {
    if bs != [] {
      var init, last := bs[..|bs| - 1], bs[|bs| - 1];
      var a := Flatten(init);
      assert forall i :: 0 <= i < |init| ==> init[i] == bs[i];
      FlattenPairwise(init, R);
      var s := Flatten(bs);
      assert s == a + last;
      forall p, q | 0 <= p < q < |s|
        ensures R(s[p], s[q])
      {
        if q < |a| {
          assert s[p] == a[p] && s[q] == a[q];
        } else if p >= |a| {
          assert s[p] == last[p - |a|] && s[q] == last[q - |a|];
        } else {
          assert s[p] == a[p] && s[q] == last[q - |a|];
          var i1 := FlattenOrigin(init, a[p]);
          assert s[q] in bs[|bs| - 1];
        }
      }
    }
  }

  /** When no element of any block satisfies `p`, filtering the flattening gives nothing. */
  lemma FilterFlattenNone<T(!new)>(bs: seq<seq<T>>, p: T -> bool)
    requires forall i, x :: 0 <= i < |bs| && x in bs[i] ==> !p(x)
    ensures Filter(Flatten(bs), p) == []
  {
    var f := Flatten(bs);
    forall k | 0 <= k < |f|
      ensures !p(f[k])
    {
      var i := FlattenOrigin(bs, f[k]);
    }
    FilterNone(f, p);
  }

  /** When exactly the elements of block c satisfy `p`, filtering the
      flattening gives block c. */
  lemma FilterFlattenSingle<T(!new)>(bs: seq<seq<T>>, p: T -> bool, c: nat)
    requires c < |bs|
    requires forall x :: x in bs[c] ==> p(x)
    requires forall i, x :: 0 <= i < |bs| && i != c && x in bs[i] ==> !p(x)
    ensures Filter(Flatten(bs), p) == bs[c]
  {
    var before, after := bs[..c], bs[c + 1..];
    FlattenAround(bs, c);
    forall i, x | 0 <= i < |before| && x in before[i]
      ensures !p(x)
    {
      assert before[i] == bs[i];
    }
    FilterFlattenNone(before, p);
    forall i, x | 0 <= i < |after| && x in after[i]
      ensures !p(x)
    {
      assert after[i] == bs[c + 1 + i];
    }
    FilterFlattenNone(after, p);
    FilterAll(bs[c], p);
    FilterAppend3(Flatten(before), bs[c], Flatten(after), p);
  }

  /** The flattening is the blocks before c, then block c, then the blocks after it. */
  lemma FlattenAround<T>(bs: seq<seq<T>>, c: nat)
    requires c < |bs|
    ensures Flatten(bs) == Flatten(bs[..c]) + bs[c] + Flatten(bs[c + 1..])
  {
    assert bs == bs[..c + 1] + bs[c + 1..];
    FlattenAppend(bs[..c + 1], bs[c + 1..]);
    FlattenPush(bs, c);
  }

  lemma FilterAppend3<T(!new)>(a: seq<T>, m: seq<T>, b: seq<T>, p: T -> bool)
    ensures Filter(a + m + b, p) == Filter(a, p) + Filter(m, p) + Filter(b, p)
  {
    FilterAppend(a + m, b, p);
    FilterAppend(a, m, p);
  }
}
