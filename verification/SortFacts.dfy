/** What the partial insertion sort promises: the elements that reach the limit come
    first, in the one stable descending order; with the lowest limit it is that
    stable sort, which does not care whether a filter runs before or after it. */
module SortFacts {
  import opened MoveSort

  /** Where an insertion lands: behind the last element at least as good. */
  function Place(s: seq<ExtMove>, x: ExtMove): (k: nat)
    ensures k <= |s|
    ensures k > 0 ==> s[k - 1].value >= x.value
    ensures forall i :: k <= i < |s| ==> s[i].value < x.value
  {
    if s == [] || s[|s| - 1].value >= x.value then |s| else Place(s[..|s| - 1], x)
  }

  lemma InsertSplits(s: seq<ExtMove>, x: ExtMove)
    ensures InsertDesc(s, x) == s[..Place(s, x)] + [x] + s[Place(s, x)..]
  {
    InsertDescAt(s, x, Place(s, x));
  }

  lemma InsertKeepsDescending(s: seq<ExtMove>, x: ExtMove)
    requires Descending(s)
    ensures Descending(InsertDesc(s, x))
  {
    hide InsertDesc, Place;
    InsertSplits(s, x);
    var k := Place(s, x);
    var r := InsertDesc(s, x);
    forall i, j | 0 <= i < j < |r|
      ensures r[i].value >= r[j].value
    {
      assert r[i] == if i < k then s[i] else if i == k then x else s[i - 1];
      assert r[j] == if j < k then s[j] else if j == k then x else s[j - 1];
    }
  }

  lemma InsertBag(s: seq<ExtMove>, x: ExtMove)
    ensures multiset(InsertDesc(s, x)) == multiset(s) + multiset{x}
  {
    hide InsertDesc, Place;
    InsertSplits(s, x);
    assert s == s[..Place(s, x)] + s[Place(s, x)..];
  }

  /** `SortDesc` yields a descending permutation. */
  lemma {:induction false} SortDescSorts(s: seq<ExtMove>)
    ensures Descending(SortDesc(s)) && multiset(SortDesc(s)) == multiset(s)
  {
    hide InsertDesc, Descending;
    if s != [] {
      var init, x := s[..|s| - 1], s[|s| - 1];
      SortDescSorts(init);
      InsertKeepsDescending(SortDesc(init), x);
      InsertBag(SortDesc(init), x);
      assert s == init + [x];
    } else {
      EmptyDescending();
    }
  }

  lemma EmptyDescending()
    ensures Descending([])
  {}

  lemma {:induction false} FilterMembers(f: ExtMove -> bool, s: seq<ExtMove>)
    ensures forall i :: 0 <= i < |Filter(f, s)| ==> f(Filter(f, s)[i]) && Filter(f, s)[i] in s
  {
    if s != [] {
      FilterMembers(f, s[..|s| - 1]);
      assert forall x :: x in s[..|s| - 1] ==> x in s;
    }
  }

  lemma {:induction false} FilterConcat(f: ExtMove -> bool, a: seq<ExtMove>, b: seq<ExtMove>)
    ensures Filter(f, a + b) == Filter(f, a) + Filter(f, b)
  {
    if b == [] {
      assert a + b == a;
    } else {
      assert (a + b)[..|a + b| - 1] == a + b[..|b| - 1];
      FilterConcat(f, a, b[..|b| - 1]);
    }
  }

  lemma FilterOne(f: ExtMove -> bool, x: ExtMove)
    ensures Filter(f, [x]) == if f(x) then [x] else []
  {
    assert [x][..0] == [];
  }

  lemma FilterThree(f: ExtMove -> bool, a: seq<ExtMove>, x: ExtMove, b: seq<ExtMove>)
    ensures Filter(f, a + [x] + b) == Filter(f, a) + (if f(x) then [x] else []) + Filter(f, b)
  {
    hide Filter;
    FilterConcat(f, a + [x], b);
    FilterConcat(f, a, [x]);
    FilterOne(f, x);
  }

  predicate AllAtLeast(s: seq<ExtMove>, v: int) {
    forall i :: 0 <= i < |s| ==> s[i].value >= v
  }

  predicate AllBelow(s: seq<ExtMove>, v: int) {
    forall i :: 0 <= i < |s| ==> s[i].value < v
  }

  lemma InsertBetween(low: seq<ExtMove>, x: ExtMove, high: seq<ExtMove>)
    requires AllAtLeast(low, x.value) && AllBelow(high, x.value)
    ensures InsertDesc(low + high, x) == low + [x] + high
  {
    hide InsertDesc;
    InsertDescAt(low + high, x, |low|);
    assert (low + high)[..|low|] == low && (low + high)[|low|..] == high;
  }

  lemma FilteredAtLeast(f: ExtMove -> bool, s: seq<ExtMove>, v: int)
    requires AllAtLeast(s, v)
    ensures AllAtLeast(Filter(f, s), v)
  {
    hide Filter;
    FilterMembers(f, s);
    forall i | 0 <= i < |Filter(f, s)|
      ensures Filter(f, s)[i].value >= v
    {
      assert Filter(f, s)[i] in s;
    }
  }

  lemma FilteredBelow(f: ExtMove -> bool, s: seq<ExtMove>, v: int)
    requires AllBelow(s, v)
    ensures AllBelow(Filter(f, s), v)
  {
    hide Filter;
    FilterMembers(f, s);
    forall i | 0 <= i < |Filter(f, s)|
      ensures Filter(f, s)[i].value < v
    {
      assert Filter(f, s)[i] in s;
    }
  }

  lemma FilterInsertBetween(f: ExtMove -> bool, a: seq<ExtMove>, x: ExtMove, b: seq<ExtMove>)
    requires AllAtLeast(a, x.value) && AllBelow(b, x.value)
    ensures Filter(f, a + [x] + b) == if f(x) then InsertDesc(Filter(f, a + b), x) else Filter(f, a + b)
  {
    hide InsertDesc, Filter, AllAtLeast, AllBelow;
    FilterThree(f, a, x, b);
    FilterConcat(f, a, b);
    if f(x) {
      FilteredAtLeast(f, a, x.value);
      FilteredBelow(f, b, x.value);
      InsertBetween(Filter(f, a), x, Filter(f, b));
    } else {
      assert Filter(f, a) + [] + Filter(f, b) == Filter(f, a) + Filter(f, b);
    }
  }

  /** Filtering after an insertion is inserting after filtering. */
  lemma FilterInsert(f: ExtMove -> bool, s: seq<ExtMove>, x: ExtMove)
    requires Descending(s)
    ensures Filter(f, InsertDesc(s, x)) == if f(x) then InsertDesc(Filter(f, s), x) else Filter(f, s)
  {
    hide InsertDesc, Place, Filter;
    var k := Place(s, x);
    InsertSplits(s, x);
    assert s == s[..k] + s[k..];
    FilterInsertBetween(f, s[..k], x, s[k..]);
  }

  lemma FilterLast(f: ExtMove -> bool, s: seq<ExtMove>)
    requires s != []
    ensures Filter(f, s) == Filter(f, s[..|s| - 1]) + if f(s[|s| - 1]) then [s[|s| - 1]] else []
  {}

  lemma SortLast(s: seq<ExtMove>)
    requires s != []
    ensures SortDesc(s) == InsertDesc(SortDesc(s[..|s| - 1]), s[|s| - 1])
  {}

  lemma SortAppend(s: seq<ExtMove>, x: ExtMove)
    ensures SortDesc(s + [x]) == InsertDesc(SortDesc(s), x)
  {
    assert (s + [x])[..|s|] == s;
  }

  /** The stable sort commutes with every filter, so illegal captures may be
      dropped before sorting. */
  lemma {:induction false} SortCommutesWithFilter(f: ExtMove -> bool, s: seq<ExtMove>)
    ensures Filter(f, SortDesc(s)) == SortDesc(Filter(f, s))
  {
    if s != [] {
      hide InsertDesc, Filter, Descending, SortDesc;
      var init, x := s[..|s| - 1], s[|s| - 1];
      SortCommutesWithFilter(f, init);
      SortDescSorts(init);
      SortLast(s);
      FilterInsert(f, SortDesc(init), x);
      FilterLast(f, s);
      SortAppend(Filter(f, init), x);
      assert Filter(f, init) + [] == Filter(f, init);
    }
  }

  lemma {:induction false} SortOfEqualValues(s: seq<ExtMove>, v: int)
    requires forall i :: 0 <= i < |s| ==> s[i].value == v
    ensures SortDesc(s) == s
  {
    if s != [] {
      SortOfEqualValues(s[..|s| - 1], v);
      assert s == s[..|s| - 1] + [s[|s| - 1]];
    }
  }

  /** Stability: the elements of one value keep their input order. */
  lemma SortIsStable(s: seq<ExtMove>, v: int)
    ensures Filter((x: ExtMove) => x.value == v, SortDesc(s)) == Filter((x: ExtMove) => x.value == v, s)
  {
    var f := (x: ExtMove) => x.value == v;
    SortCommutesWithFilter(f, s);
    FilterMembers(f, s);
    SortOfEqualValues(Filter(f, s), v);
  }

  // ----- the partial sort -----

  function AtLeast(limit: int): ExtMove -> bool {
    (x: ExtMove) => x.value >= limit
  }

  lemma RotatedBag(s: seq<ExtMove>)
    ensures multiset(Rotated(s)) == multiset(s)
  {
    if s != [] {
      assert s == [s[0]] + s[1..];
    }
  }

  lemma {:induction false} FilterTakesNone(f: ExtMove -> bool, s: seq<ExtMove>)
    requires forall i :: 0 <= i < |s| ==> !f(s[i])
    ensures Filter(f, s) == []
  {
    if s != [] {
      FilterTakesNone(f, s[..|s| - 1]);
    }
  }

  /** The sorted region holds the promoted elements in stable order; the first
      element of the input trails them if it misses the limit itself. */
  ghost predicate Sorting(s: seq<ExtMove>, limit: int, p: nat, g: Progress)
    requires 1 <= p <= |s|
  {
    && Descending(g.head)
    && multiset(g.head) + multiset(g.tail) == multiset(s[..p])
    && (forall i :: 0 <= i < |g.tail| ==> g.tail[i].value < limit)
    && g.head == SortDesc(Filter(AtLeast(limit), s[..p])) + if s[0].value < limit then [s[0]] else []
  }

  lemma PrefixGrows(s: seq<ExtMove>, p: nat)
    requires p < |s|
    ensures s[..p + 1] == s[..p] + [s[p]]
    ensures multiset(s[..p + 1]) == multiset(s[..p]) + multiset{s[p]}
  {
    assert s[..p + 1] == s[..p] + [s[p]];
  }

  lemma FilterPrefix(f: ExtMove -> bool, s: seq<ExtMove>, p: nat)
    requires p < |s|
    ensures Filter(f, s[..p + 1]) == if f(s[p]) then Filter(f, s[..p]) + [s[p]] else Filter(f, s[..p])
  {
    hide Filter;
    PrefixGrows(s, p);
    FilterConcat(f, s[..p], [s[p]]);
    FilterOne(f, s[p]);
    assert Filter(f, s[..p]) + [] == Filter(f, s[..p]);
  }

  /** An element that reaches the limit is inserted, and the ones passed over rotate. */
  lemma SortingPromotes(s: seq<ExtMove>, limit: int, p: nat, g: Progress)
    requires 1 <= p < |s| && Sorting(s, limit, p, g) && s[p].value >= limit
    ensures Sorting(s, limit, p + 1, Advance(g, s[p], limit))
  {
    hide InsertDesc, Rotated, Filter, SortDesc, Descending;
    var f, x := AtLeast(limit), s[p];
    var last := if s[0].value < limit then [s[0]] else [];
    PrefixGrows(s, p);
    FilterPrefix(f, s, p);
    InsertBag(g.head, x);
    RotatedBag(g.tail);
    InsertKeepsDescending(g.head, x);
    SortAppend(Filter(f, s[..p]), x);
    PromotedHead(SortDesc(Filter(f, s[..p])), last, x);
    RotatedBelow(g.tail, limit);
  }

  /** Any other is passed over. */
  lemma SortingPasses(s: seq<ExtMove>, limit: int, p: nat, g: Progress)
    requires 1 <= p < |s| && Sorting(s, limit, p, g) && s[p].value < limit
    ensures Sorting(s, limit, p + 1, Advance(g, s[p], limit))
  {
    hide InsertDesc, Rotated, Filter, SortDesc, Descending;
    PrefixGrows(s, p);
    FilterPrefix(AtLeast(limit), s, p);
  }

  lemma SortingStep(s: seq<ExtMove>, limit: int, p: nat, g: Progress)
    requires 1 <= p < |s| && Sorting(s, limit, p, g)
    ensures Sorting(s, limit, p + 1, Advance(g, s[p], limit))
  {
    hide Sorting, Advance;
    if s[p].value >= limit {
      SortingPromotes(s, limit, p, g);
    } else {
      SortingPasses(s, limit, p, g);
    }
  }

  /** A promoted element goes in front of a first element that missed the limit. */
  lemma PromotedHead(sorted: seq<ExtMove>, last: seq<ExtMove>, x: ExtMove)
    requires last == [] || (|last| == 1 && last[0].value < x.value)
    ensures InsertDesc(sorted + last, x) == InsertDesc(sorted, x) + last
  {
    if last == [] {
      assert sorted + last == sorted;
    } else {
      assert (sorted + last)[..|sorted|] == sorted;
    }
  }

  lemma RotatedBelow(s: seq<ExtMove>, limit: int)
    requires forall i :: 0 <= i < |s| ==> s[i].value < limit
    ensures forall i :: 0 <= i < |Rotated(s)| ==> Rotated(s)[i].value < limit
  {}

  lemma SortingStart(s: seq<ExtMove>, limit: int)
    requires s != []
    ensures Sorting(s, limit, 1, Progress([s[0]], []))
  {
    hide InsertDesc, Filter, SortDesc;
    assert s[..1] == [s[0]];
    FilterOne(AtLeast(limit), s[0]);
    SortOne(s[0]);
    SortNone();
  }

  lemma SortNone()
    ensures SortDesc([]) == []
  {}

  lemma {:induction false} SortingInvariant(s: seq<ExtMove>, limit: int, p: nat)
    requires 1 <= p <= |s|
    ensures Sorting(s, limit, p, SortUpTo(s, limit, p))
  {
    hide InsertDesc, Rotated, Advance, Sorting;
    if p == 1 {
      SortingStart(s, limit);
    } else {
      SortingInvariant(s, limit, p - 1);
      SortingStep(s, limit, p - 1, SortUpTo(s, limit, p - 1));
    }
  }

  lemma SortOne(x: ExtMove)
    ensures SortDesc([x]) == [x]
  {
    assert [x][..0] == [];
  }

  /** The partial sort permutes its input, puts exactly the elements that reach the
      limit first, and puts them in the order of the stable sort. */
  lemma PartialSortOrders(s: seq<ExtMove>, limit: int)
    ensures multiset(PartialSort(s, limit)) == multiset(s)
    ensures PartialSort(s, limit)[..|Filter(AtLeast(limit), s)|] == SortDesc(Filter(AtLeast(limit), s))
    ensures forall i :: |Filter(AtLeast(limit), s)| <= i < |s| ==> PartialSort(s, limit)[i].value < limit
  {
    hide Filter, SortDesc, SortUpTo, Sorting;
    if s == [] {
      FilterTakesNone(AtLeast(limit), s);
      SortNone();
    } else {
      SortingInvariant(s, limit, |s|);
      SortedParts(s, limit, SortUpTo(s, limit, |s|));
    }
  }

  lemma SortedParts(s: seq<ExtMove>, limit: int, g: Progress)
    requires s != [] && Sorting(s, limit, |s|, g)
    ensures multiset(g.head + g.tail) == multiset(s) && |g.head + g.tail| == |s|
    ensures (g.head + g.tail)[..|Filter(AtLeast(limit), s)|] == SortDesc(Filter(AtLeast(limit), s))
    ensures forall i :: |Filter(AtLeast(limit), s)| <= i < |s| ==> (g.head + g.tail)[i].value < limit
  {
    hide Filter, SortDesc, Descending;
    assert s[..|s|] == s;
    assert |multiset(g.head + g.tail)| == |multiset(s)|;
  }

  /** With a limit no element misses, the partial sort is the whole stable sort. */
  lemma FullSortIsStableSort(s: seq<ExtMove>, limit: int)
    requires forall i :: 0 <= i < |s| ==> s[i].value >= limit
    ensures PartialSort(s, limit) == SortDesc(s)
  {
    FilterTakesAll(AtLeast(limit), s);
    PartialSortOrders(s, limit);
    assert PartialSort(s, limit)[..|s|] == PartialSort(s, limit);
  }

  lemma {:induction false} FilterTakesAll(f: ExtMove -> bool, s: seq<ExtMove>)
    requires forall i :: 0 <= i < |s| ==> f(s[i])
    ensures Filter(f, s) == s
  {
    if s != [] {
      FilterTakesAll(f, s[..|s| - 1]);
      assert s == s[..|s| - 1] + [s[|s| - 1]];
    }
  }
}
