/** Shared vocabulary: optional values, the byte order of identifiers, and two
    counting facts about finite sets of integers. */
module Base {
  datatype Option<+T> = None | Some(value: T)

  // The order in which Go's sort.Strings and `<` on strings arrange identifiers.
  predicate Less(a: string, b: string) {
    b != "" && (a == "" || a[0] < b[0] || (a[0] == b[0] && Less(a[1..], b[1..])))
  }

  lemma {:induction false} LessIsStrictTotal(a: string, b: string)
    ensures !(Less(a, b) && Less(b, a))
    ensures a == b || Less(a, b) || Less(b, a)
  {
    if a != "" && b != "" {
      LessIsStrictTotal(a[1..], b[1..]);
      if a[0] == b[0] && a[1..] == b[1..] {
        assert a == [a[0]] + a[1..] == b;
      }
    }
  }

  // The first byte that differs decides; and what has ended comes before what goes on.
  lemma {:induction false} LessIsByFirstDifference(a: string, b: string, k: nat)
    requires k <= |a| && k < |b| && a[..k] == b[..k]
    requires k == |a| || a[k] < b[k]
    ensures Less(a, b)
  {
    if k > 0 {
      assert a[0] == a[..k][0] == b[0];
      assert a[1..][..k - 1] == a[..k][1..] && b[1..][..k - 1] == b[..k][1..];
      LessIsByFirstDifference(a[1..], b[1..], k - 1);
    }
  }

  lemma {:induction false} LessIsTransitive(a: string, b: string, c: string)
    requires Less(a, b) && Less(b, c)
    ensures Less(a, c)
  {
    if a != "" && a[0] == b[0] == c[0] {
      LessIsTransitive(a[1..], b[1..], c[1..]);
    }
  }

  predicate Bounded(k: int, n: nat) { k < n }

  function Below(n: nat): (s: set<int>)
    ensures forall k :: k in s <==> 0 <= k < n
  {
    set k: int {:trigger Bounded(k, n)} | 0 <= k < n && Bounded(k, n)
  }

  lemma {:induction false} BelowSize(n: nat)
    ensures |Below(n)| == n
  {
    if n > 0 {
      BelowSize(n - 1);
      assert Below(n) == Below(n - 1) + {n - 1};
    }
  }

  // A subset that is as large as the whole is the whole.
  lemma {:induction false} FullSubset<T>(part: set<T>, whole: set<T>)
    requires part <= whole && |part| >= |whole|
    ensures part == whole
  {
    if whole != {} {
      var x :| x in whole;
      if x in part {
        FullSubset(part - {x}, whole - {x});
        assert part == (part - {x}) + {x};
      } else {
        SubsetSize(part, whole - {x});
      }
    }
  }

  lemma {:induction false} SubsetSize<T>(part: set<T>, whole: set<T>)
    requires part <= whole
    ensures |part| <= |whole|
  {
    if part != {} {
      var x :| x in part;
      SubsetSize(part - {x}, whole - {x});
    }
  }

  // ---- Pigeonhole for n numbers below n.

  function Elems(xs: seq<int>): set<int> {
    set x | x in xs
  }

  predicate Distinct(xs: seq<int>) {
    forall i, j :: 0 <= i < j < |xs| ==> xs[i] != xs[j]
  }

  lemma {:induction false} ElemsOfDistinct(xs: seq<int>)
    ensures |Elems(xs)| <= |xs|
    ensures Distinct(xs) <==> |Elems(xs)| == |xs|
  {
    if xs != [] {
      var n := |xs| - 1;
      ElemsOfDistinct(xs[..n]);
      assert xs == xs[..n] + [xs[n]];
      assert Elems(xs) == Elems(xs[..n]) + {xs[n]};
      assert xs[n] in Elems(xs[..n]) <==> exists i :: 0 <= i < n && xs[i] == xs[n];
      assert Distinct(xs) <==> Distinct(xs[..n]) && xs[n] !in Elems(xs[..n]);
    }
  }

  // n numbers cover 0..n-1 exactly when they are in range and none repeats.
  lemma Pigeonhole(xs: seq<int>)
    ensures Elems(xs) == Below(|xs|) <==> Distinct(xs) && forall x :: x in xs ==> 0 <= x < |xs|
  {
    ElemsOfDistinct(xs);
    BelowSize(|xs|);
    assert forall x :: x in xs <==> x in Elems(xs);
    if Distinct(xs) && forall x :: x in xs ==> 0 <= x < |xs| {
      FullSubset(Elems(xs), Below(|xs|));
    }
  }

  // In ascending order such numbers sit at their own index.
  lemma {:induction false} AscendingCover(xs: seq<int>, k: nat)
    requires Distinct(xs) && forall x :: x in xs ==> 0 <= x < |xs|
    requires forall i, j :: 0 <= i < j < |xs| ==> xs[i] <= xs[j]
    requires k < |xs|
    ensures xs[k] == k
  {
    AtLeastIndex(xs, k);
    AtMostIndex(xs, k);
  }

  lemma {:induction false} AtLeastIndex(xs: seq<int>, k: nat)
    requires Distinct(xs) && forall x :: x in xs ==> 0 <= x < |xs|
    requires forall i, j :: 0 <= i < j < |xs| ==> xs[i] <= xs[j]
    requires k < |xs|
    ensures xs[k] >= k
  {
    assert xs[k] in xs;
    if k > 0 { AtLeastIndex(xs, k - 1); }
  }

  lemma {:induction false} AtMostIndex(xs: seq<int>, k: nat)
    requires Distinct(xs) && forall x :: x in xs ==> 0 <= x < |xs|
    requires forall i, j :: 0 <= i < j < |xs| ==> xs[i] <= xs[j]
    requires k < |xs|
    ensures xs[k] <= k
    decreases |xs| - k
  {
    assert xs[k] in xs;
    if k < |xs| - 1 { AtMostIndex(xs, k + 1); }
  }
}
