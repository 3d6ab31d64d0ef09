/** Bundling the cache domains of one system node: adjacent domains are merged while the
    pair fits, in passes that do not look twice at a merged one. */
module NumaBundle {
  import opened NumaText

  function Merged(ds: seq<seq<nat>>, j: nat): seq<seq<nat>>
    requires j + 1 < |ds|
  {
    ds[..j] + [ds[j] + ds[j + 1]] + ds[j + 2..]
  }

  /** Every bundle is one of the domains or is within the size. */
  ghost predicate Bundles(ds: seq<seq<nat>>, r: seq<seq<nat>>, size: nat) {
    Concat(r) == Concat(ds) && forall k :: 0 <= k < |r| ==> r[k] in ds || |r[k]| <= size
  }

  lemma {:induction false} ConcatTwo(a: seq<seq<nat>>, b: seq<seq<nat>>)
    ensures Concat(a + b) == Concat(a) + Concat(b)
  {
    if b == [] {
      assert a + b == a;
    } else {
      assert (a + b)[..|a + b| - 1] == a + b[..|b| - 1];
      ConcatTwo(a, b[..|b| - 1]);
    }
  }

  lemma ConcatOne(v: seq<nat>)
    ensures Concat([v]) == v
  {
    assert [v][..0] == [];
  }

  lemma MergeKeeps(ds: seq<seq<nat>>, j: nat)
    requires j + 1 < |ds|
    ensures Concat(Merged(ds, j)) == Concat(ds)
  {
    hide Concat;
    assert ds == ds[..j] + [ds[j]] + [ds[j + 1]] + ds[j + 2..];
    ConcatFour(ds[..j], ds[j], ds[j + 1], ds[j + 2..]);
  }

  lemma ConcatFour(front: seq<seq<nat>>, a: seq<nat>, b: seq<nat>, back: seq<seq<nat>>)
    ensures Concat(front + [a] + [b] + back) == Concat(front + [a + b] + back)
  {
    hide Concat;
    ConcatTwo(front + [a] + [b], back);
    ConcatTwo(front + [a], [b]);
    ConcatTwo(front, [a]);
    ConcatTwo(front + [a + b], back);
    ConcatTwo(front, [a + b]);
    ConcatOne(a);
    ConcatOne(b);
    ConcatOne(a + b);
    assert Concat(front) + a + b == Concat(front) + (a + b);
  }

  /** One pass, from the left: a domain is merged with the next if the pair fits, and what
      was merged is not looked at again. */
  function OnePass(ds: seq<seq<nat>>, size: nat): (r: seq<seq<nat>>)
    ensures |r| <= |ds|
  {
    if |ds| < 2 then ds
    else if |ds[0]| + |ds[1]| <= size then [ds[0] + ds[1]] + OnePass(ds[2..], size)
    else [ds[0]] + OnePass(ds[1..], size)
  }

  /** Passes until one changes nothing. */
  function AllPasses(ds: seq<seq<nat>>, size: nat): seq<seq<nat>>
    decreases |ds|
  {
    if |OnePass(ds, size)| == |ds| then ds else AllPasses(OnePass(ds, size), size)
  }

  /** A pass that merges nothing leaves the list as it is. */
  lemma {:induction false} NothingMerged(ds: seq<seq<nat>>, size: nat)
    requires |OnePass(ds, size)| == |ds|
    ensures OnePass(ds, size) == ds
  {
    if |ds| >= 2 {
      assert |OnePass(ds[2..], size)| <= |ds| - 2;
      NothingMerged(ds[1..], size);
    }
  }

  /** The pass at place `j`: in front of it is done. */
  lemma PassMerges(ds: seq<seq<nat>>, j: nat, size: nat)
    requires j + 1 < |ds| && |ds[j]| + |ds[j + 1]| <= size
    ensures ds[..j] + OnePass(ds[j..], size) == Merged(ds, j)[..j + 1] + OnePass(Merged(ds, j)[j + 1..], size)
  {
    var here, both := ds[j..], ds[j] + ds[j + 1];
    var rest := OnePass(ds[j + 2..], size);
    assert here[0] == ds[j] && here[1] == ds[j + 1] && here[2..] == ds[j + 2..];
    assert OnePass(here, size) == [both] + rest;
    hide OnePass;
    assert Merged(ds, j)[j + 1..] == ds[j + 2..] && Merged(ds, j)[..j + 1] == ds[..j] + [both];
    assert ds[..j] + ([both] + rest) == ds[..j] + [both] + rest;
  }

  lemma PassMoves(ds: seq<seq<nat>>, j: nat, size: nat)
    requires j + 1 < |ds| && |ds[j]| + |ds[j + 1]| > size
    ensures ds[..j] + OnePass(ds[j..], size) == ds[..j + 1] + OnePass(ds[j + 1..], size)
  {
    var here := ds[j..];
    var rest := OnePass(ds[j + 1..], size);
    assert here[0] == ds[j] && here[1] == ds[j + 1] && here[1..] == ds[j + 1..];
    assert OnePass(here, size) == [ds[j]] + rest;
    hide OnePass;
    assert ds[..j + 1] == ds[..j] + [ds[j]];
    assert ds[..j] + ([ds[j]] + rest) == ds[..j] + [ds[j]] + rest;
  }

  /** Passes until nothing changes.  The CPUs and their order stay, no bundle outgrows the
      size by merging, and no two neighbours could be merged any more. */
  method Bundle(domains: seq<seq<nat>>, size: nat) returns (ds: seq<seq<nat>>)
    ensures ds == AllPasses(domains, size)
    ensures Bundles(domains, ds, size)
    ensures forall j :: 0 <= j < |ds| - 1 ==> |ds[j]| + |ds[j + 1]| > size
  {
    ds := domains;
    var changed := true;
    hide Concat, OnePass, Bundles;
    StartsBundled(domains, size);
    while changed
      invariant Bundles(domains, ds, size)
      invariant AllPasses(ds, size) == AllPasses(domains, size)
      invariant !changed ==> |OnePass(ds, size)| == |ds|
      decreases |ds|, changed
    {
      ghost var before := ds;
      changed, ds := BundlePass(domains, ds, size);
      if !changed {
        NothingMerged(before, size);
      }
    }
    NothingFits(ds, size);
  }

  /** When a pass changes nothing, no two neighbours fit together. */
  lemma {:induction false} NothingFits(ds: seq<seq<nat>>, size: nat)
    requires |OnePass(ds, size)| == |ds|
    ensures forall j :: 0 <= j < |ds| - 1 ==> |ds[j]| + |ds[j + 1]| > size
  {
    if |ds| >= 2 {
      assert |OnePass(ds[2..], size)| <= |ds| - 2;
      NothingFits(ds[1..], size);
      forall j | 0 <= j < |ds| - 1
        ensures |ds[j]| + |ds[j + 1]| > size
      {
        if j > 0 {
          assert ds[1..][j - 1] == ds[j] && ds[1..][j] == ds[j + 1];
        }
      }
    }
  }

  method BundlePass(ghost domains: seq<seq<nat>>, before: seq<seq<nat>>, size: nat)
    returns (changed: bool, ds: seq<seq<nat>>)
    requires Bundles(domains, before, size)
    ensures Bundles(domains, ds, size)
    ensures ds == OnePass(before, size) && (changed <==> |ds| < |before|)
  {
    hide Concat, OnePass, Merged, Bundles;
    ds := before;
    changed := false;
    var j := 0;
    assert ds[..0] + OnePass(ds[0..], size) == OnePass(before, size) by {
      assert ds[0..] == before;
    }
    while j + 1 < |ds|
      invariant 0 <= j && Bundles(domains, ds, size)
      invariant |ds| <= |before| && (changed <==> |ds| < |before|)
      invariant j <= |ds| && ds[..j] + OnePass(ds[j..], size) == OnePass(before, size)
      decreases |ds| - j
    {
      if |ds[j]| + |ds[j + 1]| <= size {
        changed := true;
        MergeBundles(domains, ds, j, size);
        PassMerges(ds, j, size);
        IsMerged(ds, j);
        ds := ds[..j] + [ds[j] + ds[j + 1]] + ds[j + 2..];
      } else {
        PassMoves(ds, j, size);
      }
      j := j + 1;
    }
    PassEnds(ds[j..], size);
    assert ds == ds[..j] + ds[j..];
  }

  lemma PassEnds(ds: seq<seq<nat>>, size: nat)
    requires |ds| < 2
    ensures OnePass(ds, size) == ds
  {}

  lemma IsMerged(ds: seq<seq<nat>>, j: nat)
    requires j + 1 < |ds|
    ensures Merged(ds, j) == ds[..j] + [ds[j] + ds[j + 1]] + ds[j + 2..]
  {}

  lemma StartsBundled(ds: seq<seq<nat>>, size: nat)
    ensures Bundles(ds, ds, size)
  {}

  lemma MergeBundles(domains: seq<seq<nat>>, ds: seq<seq<nat>>, j: nat, size: nat)
    requires Bundles(domains, ds, size) && j + 1 < |ds| && |ds[j]| + |ds[j + 1]| <= size
    ensures Bundles(domains, Merged(ds, j), size)
  {
    MergeKeeps(ds, j);
    hide Concat;
  }

  /** So there are few bundles: fewer than twice what the CPUs could fill, and one. */
  lemma {:induction false} FewBundles(ds: seq<seq<nat>>, size: nat)
    requires ds != [] && forall j :: 0 <= j < |ds| - 1 ==> |ds[j]| + |ds[j + 1]| > size
    ensures (size + 1) * (|ds| - 1) + |ds[|ds| - 1]| <= 2 * |Concat(ds)|
  {
    var n := |ds| - 1;
    if n > 0 {
      FewBundles(ds[..n], size);
      assert |ds[n - 1]| + |ds[n]| >= size + 1;
      assert (size + 1) * n == (size + 1) * (n - 1) + (size + 1);
    } else {
      assert ds[..0] == [];
    }
  }
}
