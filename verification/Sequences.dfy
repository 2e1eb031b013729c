/** Subsequences, as the diff engine and the accept queues need them. */
module Sequences {

  /** `z` can be obtained from `x` by deleting elements. */
  predicate IsSubseq<T(==)>(z: seq<T>, x: seq<T>)
    decreases |x|
  {
    z == [] ||
    (x != [] && (IsSubseq(z, x[1..]) || (z[0] == x[0] && IsSubseq(z[1..], x[1..]))))
  }

  lemma {:induction false} SubseqOfTail<T>(z: seq<T>, x: seq<T>)
    requires z != [] && IsSubseq(z, x)
    ensures IsSubseq(z[1..], x)
    decreases |x|
  {
    if IsSubseq(z, x[1..]) {
      SubseqOfTail(z, x[1..]);
    }
    if |z| > 1 {
      assert z[1..] != [];
    }
  }

  lemma {:induction false} SubseqMore<T>(z: seq<T>, x: seq<T>, e: T)
    requires IsSubseq(z, x)
    ensures IsSubseq(z, x + [e]) && IsSubseq(z + [e], x + [e])
    decreases |x|
  {
    if x == [] {
      assert (x + [e])[1..] == [] && (z + [e])[1..] == [];
    } else {
      assert (x + [e])[1..] == x[1..] + [e];
      if IsSubseq(z, x[1..]) {
        SubseqMore(z, x[1..], e);
      } else {
        assert (z + [e])[1..] == z[1..] + [e];
        SubseqMore(z[1..], x[1..], e);
      }
    }
  }

  /** Any part of what follows may be left out at its end. */
  lemma {:induction false} SubseqJoin<T>(a: seq<T>, x: seq<T>, b: seq<T>, k: nat)
    requires IsSubseq(a, x) && k <= |b|
    ensures IsSubseq(a + b[..k], x + b)
    decreases |b|
  {
    if b == [] {
      assert a + b[..k] == a && x + b == x;
    } else {
      var n := |b| - 1;
      var most, e := b[..n], b[n];
      assert x + b == x + most + [e];
      if k == |b| {
        SubseqJoin(a, x, most, n);
        assert most[..n] == most && a + b[..k] == a + most + [e];
        SubseqMore(a + most, x + most, e);
      } else {
        SubseqJoin(a, x, most, k);
        SubseqMore(a + most[..k], x + most, e);
        assert most[..k] == b[..k];
      }
    }
  }

  lemma {:induction false} SubseqPrefix<T>(a: seq<T>, b: seq<T>, x: seq<T>)
    requires IsSubseq(a + b, x)
    ensures IsSubseq(a, x)
    decreases |x|
  {
    if a != [] {
      if IsSubseq(a + b, x[1..]) {
        SubseqPrefix(a, b, x[1..]);
      } else {
        assert (a + b)[1..] == a[1..] + b;
        SubseqPrefix(a[1..], b, x[1..]);
      }
    }
  }

  ghost predicate Distinct<T>(s: seq<T>) { forall i, j :: 0 <= i < j < |s| ==> s[i] != s[j] }

  lemma {:induction false} SubseqMembers<T>(z: seq<T>, x: seq<T>)
    requires IsSubseq(z, x)
    ensures forall e <- z :: e in x
    decreases |x|
  {
    if z != [] {
      if IsSubseq(z, x[1..]) {
        SubseqMembers(z, x[1..]);
      } else {
        SubseqMembers(z[1..], x[1..]);
        assert z == [z[0]] + z[1..];
      }
    }
  }

  lemma {:induction false} SubseqDistinct<T>(z: seq<T>, x: seq<T>)
    requires IsSubseq(z, x) && Distinct(x)
    ensures Distinct(z)
    decreases |x|
  {
    if z != [] {
      if IsSubseq(z, x[1..]) {
        SubseqDistinct(z, x[1..]);
      } else {
        SubseqDistinct(z[1..], x[1..]);
        SubseqMembers(z[1..], x[1..]);
        forall j | 0 < j < |z| ensures z[0] != z[j] {
          assert z[j] == z[1..][j - 1] && z[j] in x[1..];
        }
      }
    }
  }
}
