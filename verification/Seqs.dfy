/** Sequences and bags shared by the other modules. */
module Seqs {

  newtype byte = b: int | 0 <= b < 256

  datatype Option<+T> = None | Some(value: T)

  datatype Result<+T, +E> = Ok(value: T) | Err(error: E)

  /** The integers lo, lo + 1, ..., hi - 1; empty when hi <= lo. */
  function Range(lo: nat, hi: nat): (r: seq<nat>)
    ensures |r| == if lo <= hi then hi - lo else 0
  {
    if hi <= lo then [] else Range(lo, hi - 1) + [hi - 1]
  }

  lemma {:induction false} RangeAt(lo: nat, hi: nat, i: nat)
    requires lo + i < hi
    ensures Range(lo, hi)[i] == lo + i
  {
    if lo + i < hi - 1 {
      RangeAt(lo, hi - 1, i);
    }
  }

  lemma {:induction false} RangeMember(lo: nat, hi: nat, x: nat)
    ensures x in Range(lo, hi) <==> lo <= x < hi
  {
    if lo < hi {
      RangeMember(lo, hi - 1, x);
    }
  }

  lemma RangeDistinct(lo: nat, hi: nat)
    ensures Distinct(Range(lo, hi))
  {
    var r := Range(lo, hi);
    forall i, j | 0 <= i < j < |r| ensures r[i] != r[j] {
      RangeAt(lo, hi, i);
      RangeAt(lo, hi, j);
    }
  }

  lemma {:induction false} RangeSplit(lo: nat, mid: nat, hi: nat)
    requires lo <= mid <= hi
    ensures Range(lo, mid) + Range(mid, hi) == Range(lo, hi)
  {
    if mid < hi {
      RangeSplit(lo, mid, hi - 1);
      assert Range(lo, mid) + (Range(mid, hi - 1) + [hi - 1]) == (Range(lo, mid) + Range(mid, hi - 1)) + [hi - 1];
    }
  }

  /** Concatenation of a list of lists, in order. */
  function Flatten<T>(xss: seq<seq<T>>): seq<T> {
    if xss == [] then [] else Flatten(xss[..|xss| - 1]) + xss[|xss| - 1]
  }

  lemma FlattenSnoc<T>(xss: seq<seq<T>>, xs: seq<T>)
    ensures Flatten(xss + [xs]) == Flatten(xss) + xs
  {
    assert (xss + [xs])[..|xss|] == xss;
  }

  lemma {:induction false} FlattenAppend<T>(xss: seq<seq<T>>, yss: seq<seq<T>>)
    ensures Flatten(xss + yss) == Flatten(xss) + Flatten(yss)
  {
    if yss == [] {
      assert xss + yss == xss;
    } else {
      var init, last := yss[..|yss| - 1], yss[|yss| - 1];
      assert xss + yss == (xss + init) + [last];
      FlattenSnoc(xss + init, last);
      FlattenAppend(xss, init);
    }
  }

  ghost predicate Distinct<T>(xs: seq<T>) {
    forall i, j :: 0 <= i < j < |xs| ==> xs[i] != xs[j]
  }

  lemma DistinctAppend<T>(xs: seq<T>, ys: seq<T>)
    requires Distinct(xs) && Distinct(ys) && forall x :: x in xs ==> x !in ys
    ensures Distinct(xs + ys)
  {
    var zs := xs + ys;
    forall i, j | 0 <= i < j < |zs| ensures zs[i] != zs[j] {
      if i < |xs| <= j {
        assert zs[i] in xs && zs[j] in ys;
      }
    }
  }

  lemma {:induction false} DistinctCount<T>(xs: seq<T>, x: T)
    requires Distinct(xs)
    ensures multiset(xs)[x] == if x in xs then 1 else 0
  {
    if xs != [] {
      var init, last := xs[..|xs| - 1], xs[|xs| - 1];
      assert xs == init + [last];
      assert last !in init;
      DistinctCount(init, x);
    }
  }

  /** A bag that counts no element more often than another is contained in it. */
  lemma BagContained(a: multiset<nat>, b: multiset<nat>)
    requires forall x: nat :: a[x] <= b[x]
    ensures a <= b
  {
  }

  /** Bags that count every element alike are equal. */
  lemma SameBag(a: multiset<nat>, b: multiset<nat>)
    requires forall x: nat :: a[x] == b[x]
    ensures a == b
  {
    BagContained(a, b);
    BagContained(b, a);
  }
}
