/** The partial insertion sort of the move picker, and the stable sort it performs on
    the elements that reach its limit. */
module MoveSort {
  /** A packed 32-bit move; here only its identity matters. */
  type Move = nat

  datatype ExtMove = ExtMove(mv: Move, value: int)

  const I32_MIN := -0x8000_0000

  // ----- the stable descending sort -----

  /** Behind everything that is at least as good: equal elements keep their order. */
  function InsertDesc(s: seq<ExtMove>, x: ExtMove): (r: seq<ExtMove>)
    ensures |r| == |s| + 1
  {
    if s == [] || s[|s| - 1].value >= x.value then s + [x]
    else InsertDesc(s[..|s| - 1], x) + [s[|s| - 1]]
  }

  function SortDesc(s: seq<ExtMove>): (r: seq<ExtMove>)
    ensures |r| == |s|
  {
    if s == [] then [] else InsertDesc(SortDesc(s[..|s| - 1]), s[|s| - 1])
  }

  predicate Descending(s: seq<ExtMove>) {
    forall i, j :: 0 <= i < j < |s| ==> s[i].value >= s[j].value
  }

  function Filter(f: ExtMove -> bool, s: seq<ExtMove>): (r: seq<ExtMove>)
    ensures |r| <= |s|
  {
    if s == [] then []
    else Filter(f, s[..|s| - 1]) + if f(s[|s| - 1]) then [s[|s| - 1]] else []
  }

  // ----- the partial sort -----

  /** The array while it is being sorted: the sorted region, the elements passed
      over, and (not shown) the part not yet looked at. */
  datatype Progress = Progress(head: seq<ExtMove>, tail: seq<ExtMove>)

  /** Promoting an element moves the first element passed over to the end. */
  function Rotated(s: seq<ExtMove>): (r: seq<ExtMove>)
    ensures |r| == |s|
  {
    if s == [] then [] else s[1..] + [s[0]]
  }

  function Advance(g: Progress, x: ExtMove, limit: int): Progress {
    if x.value >= limit then Progress(InsertDesc(g.head, x), Rotated(g.tail))
    else Progress(g.head, g.tail + [x])
  }

  /** After the first `p` elements. The very first is never compared with `limit`. */
  function SortUpTo(s: seq<ExtMove>, limit: int, p: nat): (g: Progress)
    requires 1 <= p <= |s|
    ensures |g.head| + |g.tail| == p && |g.head| >= 1
  {
    if p == 1 then Progress([s[0]], []) else Advance(SortUpTo(s, limit, p - 1), s[p - 1], limit)
  }

  function PartialSort(s: seq<ExtMove>, limit: int): (r: seq<ExtMove>)
    ensures |r| == |s|
  {
    if s == [] then [] else SortUpTo(s, limit, |s|).head + SortUpTo(s, limit, |s|).tail
  }

  /** Where the insertion ends up. */
  lemma {:induction false} InsertDescAt(s: seq<ExtMove>, x: ExtMove, k: nat)
    requires k <= |s|
    requires k > 0 ==> s[k - 1].value >= x.value
    requires forall i :: k <= i < |s| ==> s[i].value < x.value
    ensures InsertDesc(s, x) == s[..k] + [x] + s[k..]
  {
    var n := |s|;
    if k < n {
      InsertDescAt(s[..n - 1], x, k);
      assert s[..n - 1][..k] == s[..k];
      assert s[k..] == s[..n - 1][k..] + [s[n - 1]];
    }
  }

  // The sort works in place; every claim about the array is a claim about `a[..]`,
  // so that the reasoning stays on sequences.

  lemma ShiftStep(b: seq<ExtMove>, end: nat, q: nat)
    requires 0 < q <= end < |b|
    ensures (b[..q + 1] + b[q..end] + b[end + 1..])[q := b[q - 1]] == b[..q] + b[q - 1..end] + b[end + 1..]
  {}

  lemma ShiftDone(b: seq<ExtMove>, lo: nat, end: nat, q: nat, tmp: ExtMove)
    requires lo <= q <= end < |b|
    requires q > lo ==> b[q - 1].value >= tmp.value
    requires forall i :: q <= i < end ==> b[i].value < tmp.value
    ensures (b[..q + 1] + b[q..end] + b[end + 1..])[q := tmp] == b[..lo] + InsertDesc(b[lo..end], tmp) + b[end + 1..]
  {
    hide InsertDesc;
    InsertDescAt(b[lo..end], tmp, q - lo);
    ShiftPieces(b, lo, end, q, tmp);
  }

  lemma ShiftPieces(b: seq<ExtMove>, lo: nat, end: nat, q: nat, tmp: ExtMove)
    requires lo <= q <= end < |b|
    ensures (b[..q + 1] + b[q..end] + b[end + 1..])[q := tmp]
         == b[..lo] + (b[lo..end][..q - lo] + [tmp] + b[lo..end][q - lo..]) + b[end + 1..]
  {
    assert b[lo..end][..q - lo] == b[lo..q];
    assert b[lo..end][q - lo..] == b[q..end];
  }

  /** Opens a gap for `tmp` by moving everything smaller one place up, and fills it. */
  method InsertInPlace(a: array<ExtMove>, lo: nat, end: nat, tmp: ExtMove)
    requires lo <= end < a.Length
    modifies a
    ensures a[..] == old(a[..lo]) + InsertDesc(old(a[lo..end]), tmp) + old(a[end + 1..])
  {
    ghost var b := a[..];
    var q := end;
    assert a[..] == b[..q + 1] + b[q..end] + b[end + 1..];
    while q != lo && a[q - 1].value < tmp.value
      invariant lo <= q <= end
      invariant a[..] == b[..q + 1] + b[q..end] + b[end + 1..]
      invariant forall i :: q <= i < end ==> b[i].value < tmp.value
    {
      ShiftStep(b, end, q);
      assert a[q - 1] == a[..][q - 1] == b[q - 1];
      a[q] := a[q - 1];
      q := q - 1;
    }
    assert q > lo ==> a[q - 1] == a[..][q - 1] == b[q - 1];
    ShiftDone(b, lo, end, q, tmp);
    a[q] := tmp;
    assert b[..lo] == old(a[..lo]) && b[lo..end] == old(a[lo..end]) && b[end + 1..] == old(a[end + 1..]);
  }

  lemma PromotedLayout(pre: seq<ExtMove>, head: seq<ExtMove>, tail: seq<ExtMove>, x: ExtMove, post: seq<ExtMove>)
    ensures var b := pre + head + tail + [x] + post;
      var e, p := |pre| + |head|, |pre| + |head| + |tail|;
      var c := b[p := b[e]];
      b[p] == x && c[..|pre|] == pre && c[|pre|..e] == head && c[e + 1..] == Rotated(tail) + post
  {}

  /** One promotion: the element at `p` joins the sorted region, and the first
      element passed over takes its place. */
  method Promote(a: array<ExtMove>, lo: nat, sortedEnd: nat, p: nat,
                 ghost pre: seq<ExtMove>, ghost g: Progress, ghost x: ExtMove, ghost post: seq<ExtMove>)
    requires a[..] == pre + g.head + g.tail + [x] + post
    requires lo == |pre| && sortedEnd == lo + |g.head| && p == sortedEnd + |g.tail|
    modifies a
    ensures a[..] == pre + InsertDesc(g.head, x) + Rotated(g.tail) + post
  {
    hide InsertDesc, Rotated;
    ghost var b := a[..];
    PromotedLayout(pre, g.head, g.tail, x, post);
    var tmp := a[p];
    a[p] := a[sortedEnd];
    ghost var c := b[p := b[sortedEnd]];
    assert a[..] == c;
    assert a[..lo] == c[..lo] && a[lo..sortedEnd] == c[lo..sortedEnd] && a[sortedEnd + 1..] == c[sortedEnd + 1..];
    InsertInPlace(a, lo, sortedEnd, tmp);
    Regroup(pre, InsertDesc(g.head, x), Rotated(g.tail), post);
  }

  lemma Regroup(a: seq<ExtMove>, b: seq<ExtMove>, c: seq<ExtMove>, d: seq<ExtMove>)
    ensures a + b + (c + d) == a + b + c + d
  {}

  lemma PassOver(pre: seq<ExtMove>, head: seq<ExtMove>, tail: seq<ExtMove>, s: seq<ExtMove>, k: nat, post: seq<ExtMove>)
    requires k < |s|
    ensures pre + head + tail + s[k..] + post == pre + head + tail + [s[k]] + (s[k + 1..] + post)
    ensures pre + head + tail + s[k..] + post == pre + head + (tail + [s[k]]) + s[k + 1..] + post
  {
    assert s[k..] == [s[k]] + s[k + 1..];
  }

  ghost function Layout(pre: seq<ExtMove>, g: Progress, rest: seq<ExtMove>, post: seq<ExtMove>): seq<ExtMove> {
    pre + g.head + g.tail + rest + post
  }

  /** One element of the scan. */
  method SortStep(a: array<ExtMove>, lo: nat, sortedEnd: nat, p: nat, limit: int,
                  ghost pre: seq<ExtMove>, ghost g: Progress, ghost s: seq<ExtMove>, ghost k: nat,
                  ghost post: seq<ExtMove>)
    returns (newEnd: nat)
    requires k < |s| && a[..] == Layout(pre, g, s[k..], post)
    requires g.head != [] && lo == |pre| && sortedEnd == lo + |g.head| - 1 && p == sortedEnd + |g.tail| + 1
    modifies a
    ensures a[..] == Layout(pre, Advance(g, s[k], limit), s[k + 1..], post)
    ensures newEnd == |pre| + |Advance(g, s[k], limit).head| - 1
  {
    hide InsertDesc, Rotated;
    newEnd := sortedEnd;
    PassOver(pre, g.head, g.tail, s, k, post);
    assert a[p] == a[..][p] == s[k];
    if a[p].value >= limit {
      newEnd := sortedEnd + 1;
      Promote(a, lo, newEnd, p, pre, g, s[k], s[k + 1..] + post);
    }
  }

  method SortScan(a: array<ExtMove>, lo: nat, hi: nat, limit: int,
                  ghost pre: seq<ExtMove>, ghost s: seq<ExtMove>, ghost post: seq<ExtMove>)
    requires a[..] == pre + s + post && lo == |pre| < hi == lo + |s|
    modifies a
    ensures a[..] == pre + PartialSort(s, limit) + post
  {
    hide PartialSort, Advance, SortUpTo;
    ghost var g := SortUpTo(s, limit, 1);
    var sortedEnd := lo;
    SortStart(pre, s, limit, post);
    hide Layout;
    for p := lo + 1 to hi
      invariant g == SortUpTo(s, limit, p - lo)
      invariant sortedEnd == lo + |g.head| - 1
      invariant a[..] == Layout(pre, g, s[p - lo..], post)
    {
      SortUpToNext(s, limit, p - lo);
      sortedEnd := SortStep(a, lo, sortedEnd, p, limit, pre, g, s, p - lo, post);
      g := SortUpTo(s, limit, p - lo + 1);
    }
    SortedLayout(pre, s, limit, post);
  }

  /** The sort itself, in place on the segment from `lo` to `hi`. */
  method PartialInsertionSort(a: array<ExtMove>, lo: nat, hi: nat, limit: int)
    requires lo <= hi <= a.Length
    modifies a
    ensures a[..] == old(a[..lo]) + PartialSort(old(a[lo..hi]), limit) + old(a[hi..])
  {
    assert a[..] == a[..lo] + a[lo..hi] + a[hi..];
    if lo < hi {
      SortScan(a, lo, hi, limit, a[..lo], a[lo..hi], a[hi..]);
    }
  }

  lemma SortStart(pre: seq<ExtMove>, s: seq<ExtMove>, limit: int, post: seq<ExtMove>)
    requires s != []
    ensures SortUpTo(s, limit, 1).head == [s[0]] && SortUpTo(s, limit, 1).tail == []
    ensures Layout(pre, SortUpTo(s, limit, 1), s[1..], post) == pre + s + post
  {
    assert s == [s[0]] + s[1..];
  }

  lemma SortUpToNext(s: seq<ExtMove>, limit: int, p: nat)
    requires 1 <= p < |s|
    ensures SortUpTo(s, limit, p + 1) == Advance(SortUpTo(s, limit, p), s[p], limit)
  {}

  lemma SortedLayout(pre: seq<ExtMove>, s: seq<ExtMove>, limit: int, post: seq<ExtMove>)
    requires s != []
    ensures Layout(pre, SortUpTo(s, limit, |s|), s[|s|..], post)
         == pre + PartialSort(s, limit) + post
  {
    hide InsertDesc, Rotated, SortUpTo;
  }
}
