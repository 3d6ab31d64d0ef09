/** The multiset difference of two feature lists, by sorting and merging. */
module IndexDiff {
  import opened Features

  predicate Sorted(s: seq<Feature>) {
    forall i, j :: 0 <= i < j < |s| ==> s[i] <= s[j]
  }

  method InsertSorted(s: seq<Feature>, x: Feature) returns (r: seq<Feature>)
    requires Sorted(s)
    ensures Sorted(r) && multiset(r) == multiset(s) + multiset{x}
  {
    var k := |s|;
    while k > 0 && s[k - 1] > x
      invariant 0 <= k <= |s|
      invariant forall i :: k <= i < |s| ==> s[i] > x
    {
      k := k - 1;
    }
    r := s[..k] + [x] + s[k..];
    InsertBag(s, k, x);
    InsertKeepsSorted(s, k, x);
  }

  lemma InsertBag(s: seq<Feature>, k: nat, x: Feature)
    requires k <= |s|
    ensures multiset(s[..k] + [x] + s[k..]) == multiset(s) + multiset{x}
  {
    assert s == s[..k] + s[k..];
  }

  lemma InsertKeepsSorted(s: seq<Feature>, k: nat, x: Feature)
    requires Sorted(s) && k <= |s|
    requires k > 0 ==> s[k - 1] <= x
    requires k < |s| ==> x <= s[k]
    ensures Sorted(s[..k] + [x] + s[k..])
  {
    var r := s[..k] + [x] + s[k..];
    forall i, j | 0 <= i < j < |r|
      ensures r[i] <= r[j]
    {
      assert r[i] == if i < k then s[i] else if i == k then x else s[i - 1];
      assert r[j] == if j < k then s[j] else if j == k then x else s[j - 1];
    }
  }

  method SortUnstable(s: seq<Feature>) returns (r: seq<Feature>)
    ensures Sorted(r) && multiset(r) == multiset(s)
  {
    hide Sorted;
    r := [];
    assert Sorted(r) by { EmptySorted(); }
    for n := 0 to |s|
      invariant Sorted(r) && multiset(r) == multiset(s[..n])
    {
      assert s[..n + 1] == s[..n] + [s[n]];
      r := InsertSorted(r, s[n]);
    }
    assert s[..|s|] == s;
  }

  lemma EmptySorted()
    ensures Sorted([])
  {}

  /** Everything in `low` lies strictly below the elements of `high` from `n` on. */
  predicate Below(low: seq<Feature>, high: seq<Feature>, n: nat) {
    forall x, k :: x in low && n <= k < |high| ==> x < high[k]
  }

  lemma TakeOne(s: seq<Feature>, i: nat)
    requires i < |s|
    ensures multiset(s[..i + 1]) == multiset(s[..i]) + multiset{s[i]}
  {
    assert s[..i + 1] == s[..i] + [s[i]];
  }

  lemma SplitBags(common: multiset<Feature>, removed: seq<Feature>, added: seq<Feature>,
                  before: multiset<Feature>, after: multiset<Feature>)
    requires before == common + multiset(removed) && after == common + multiset(added)
    requires forall x :: x in removed ==> x !in added
    ensures multiset(removed) == before - after && multiset(added) == after - before
  {
    forall f: Feature
      ensures multiset(removed)[f] == (before - after)[f] && multiset(added)[f] == (after - before)[f]
    {
      assert f in multiset(removed) ==> f in removed;
      assert f in multiset(added) ==> f in added;
    }
  }

  /** The state of the merge: the prefixes consumed so far hold the same common
      part, and nothing reported for one side can still turn up on the other. */
  ghost predicate Merged(sb: seq<Feature>, sa: seq<Feature>, i: nat, j: nat, common: multiset<Feature>,
                         removed: seq<Feature>, added: seq<Feature>)
  {
    && i <= |sb| && j <= |sa|
    && multiset(sb[..i]) == common + multiset(removed)
    && multiset(sa[..j]) == common + multiset(added)
    && Below(removed, sa, j) && Below(added, sb, i)
    && (forall x :: x in removed ==> x !in added)
  }

  lemma MergeEqual(sb: seq<Feature>, sa: seq<Feature>, i: nat, j: nat, common: multiset<Feature>,
                   removed: seq<Feature>, added: seq<Feature>)
    requires Merged(sb, sa, i, j, common, removed, added)
    requires i < |sb| && j < |sa| && sb[i] == sa[j]
    ensures Merged(sb, sa, i + 1, j + 1, common + multiset{sb[i]}, removed, added)
  {
    TakeOne(sb, i);
    TakeOne(sa, j);
  }

  lemma MergeRemove(sb: seq<Feature>, sa: seq<Feature>, i: nat, j: nat, common: multiset<Feature>,
                    removed: seq<Feature>, added: seq<Feature>)
    requires Merged(sb, sa, i, j, common, removed, added) && Sorted(sa)
    requires i < |sb| && forall k :: j <= k < |sa| ==> sb[i] < sa[k]
    ensures Merged(sb, sa, i + 1, j, common, removed + [sb[i]], added)
  {
    TakeOne(sb, i);
    assert multiset(removed + [sb[i]]) == multiset(removed) + multiset{sb[i]};
    assert sb[i] !in added;
  }

  lemma MergeAdd(sb: seq<Feature>, sa: seq<Feature>, i: nat, j: nat, common: multiset<Feature>,
                 removed: seq<Feature>, added: seq<Feature>)
    requires Merged(sb, sa, i, j, common, removed, added) && Sorted(sb)
    requires j < |sa| && forall k :: i <= k < |sb| ==> sa[j] < sb[k]
    ensures Merged(sb, sa, i, j + 1, common, removed, added + [sa[j]])
  {
    TakeOne(sa, j);
    assert multiset(added + [sa[j]]) == multiset(added) + multiset{sa[j]};
    assert sa[j] !in removed;
  }

  /** What is left on one side, once the other is used up, is all difference. */
  lemma MergeTail(sb: seq<Feature>, sa: seq<Feature>, i: nat, j: nat, common: multiset<Feature>,
                  removed: seq<Feature>, added: seq<Feature>)
    requires Merged(sb, sa, i, j, common, removed, added)
    requires i == |sb| || j == |sa|
    ensures multiset(removed + sb[i..]) == multiset(sb) - multiset(sa)
    ensures multiset(added + sa[j..]) == multiset(sa) - multiset(sb)
  {
    assert sb == sb[..i] + sb[i..] && sa == sa[..j] + sa[j..];
    SplitBags(common, removed + sb[i..], added + sa[j..], multiset(sb), multiset(sa));
  }

  /** What has to go and what has to come: nothing in common is reported. */
  method ChangedIndices(before: seq<Feature>, after: seq<Feature>)
    returns (removed: seq<Feature>, added: seq<Feature>)
    ensures multiset(removed) == multiset(before) - multiset(after)
    ensures multiset(added) == multiset(after) - multiset(before)
  {
    var sb := SortUnstable(before);
    var sa := SortUnstable(after);
    removed, added := [], [];
    var i, j := 0, 0;
    ghost var common: multiset<Feature> := multiset{};
    assert Merged(sb, sa, i, j, common, removed, added);
    hide Merged;
    while i < |sb| && j < |sa|
      invariant i <= |sb| && j <= |sa|
      invariant Merged(sb, sa, i, j, common, removed, added)
      decreases |sb| + |sa| - i - j
    {
      if sb[i] == sa[j] {
        MergeEqual(sb, sa, i, j, common, removed, added);
        common := common + multiset{sb[i]};
        i, j := i + 1, j + 1;
      } else if sb[i] < sa[j] {
        MergeRemove(sb, sa, i, j, common, removed, added);
        removed := removed + [sb[i]];
        i := i + 1;
      } else {
        MergeAdd(sb, sa, i, j, common, removed, added);
        added := added + [sa[j]];
        j := j + 1;
      }
    }
    MergeTail(sb, sa, i, j, common, removed, added);
    removed := removed + sb[i..];
    added := added + sa[j..];
  }
}
