/** The layout of CPUs on nodes: read from text, printed, and the map back from a CPU to
    its node. */
module NumaConfigs {
  import opened Wrappers
  import opened NumaText

  predicate NoRepeats(s: seq<nat>) {
    forall i, j :: 0 <= i < j < |s| ==> s[i] != s[j]
  }

  ghost function Elements(s: seq<nat>): set<nat> {
    set c | c in s
  }

  ghost predicate SameElements(a: seq<nat>, b: seq<nat>) {
    forall c: nat :: c in a <==> c in b
  }

  /** Going through the list, `c` is the first that was there before. */
  ghost predicate FirstRepeat(keys: set<nat>, s: seq<nat>, c: nat) {
    exists k :: 0 <= k < |s| && RepeatAt(keys, s, c, k)
  }

  ghost predicate RepeatAt(keys: set<nat>, s: seq<nat>, c: nat, k: nat)
    requires k < |s|
  {
    s[k] == c && NoRepeats(s[..k]) && Elements(s[..k]) !! keys && (c in keys || c in s[..k])
  }

  lemma FirstRepeatMore(s: seq<nat>, more: seq<nat>, c: nat)
    requires FirstRepeat({}, s, c)
    ensures FirstRepeat({}, s + more, c)
  {
    var k :| 0 <= k < |s| && RepeatAt({}, s, c, k);
    assert (s + more)[..k] == s[..k];
    assert RepeatAt({}, s + more, c, k);
  }

  lemma FirstIsRepeat(s: seq<nat>, c: nat)
    requires FirstRepeat({}, s, c)
    ensures !NoRepeats(s)
  {
    var k :| 0 <= k < |s| && RepeatAt({}, s, c, k);
    var i :| 0 <= i < k && s[..k][i] == c;
    assert s[i] == s[k];
  }

  /** A set of CPUs is kept as an ascending list. */
  function InsertAscending(v: seq<nat>, c: nat): (r: seq<nat>)
    ensures |r| == |v| + 1
  {
    if v == [] || v[|v| - 1] < c then v + [c] else InsertAscending(v[..|v| - 1], c) + [v[|v| - 1]]
  }

  lemma AscendingEnd(v: seq<nat>, last: nat)
    requires Ascending(v) && forall x :: x in v ==> x < last
    ensures Ascending(v + [last])
  {
    forall i | 0 <= i < |v|
      ensures v[i] < last
    {
      assert v[i] in v;
    }
  }

  lemma {:induction false} InsertedAscending(v: seq<nat>, c: nat)
    requires Ascending(v) && c !in v
    ensures Ascending(InsertAscending(v, c))
    ensures forall x: nat :: x in InsertAscending(v, c) <==> x in v || x == c
  {
    if v == [] || v[|v| - 1] < c {
      assert InsertAscending(v, c) == v + [c];
    } else {
      var n := |v| - 1;
      assert v == v[..n] + [v[n]];
      var r := InsertAscending(v[..n], c);
      assert InsertAscending(v, c) == r + [v[n]];
      hide InsertAscending;
      InsertedAscending(v[..n], c);
      forall x | x in r
        ensures x < v[n]
      {
        assert x in v[..n] || x == c;
      }
      hide Ascending;
      AscendingEnd(r, v[n]);
    }
  }

  /** An ascending list is determined by its elements. */
  lemma {:induction false} AscendingUnique(a: seq<nat>, b: seq<nat>)
    requires Ascending(a) && Ascending(b) && SameElements(a, b)
    ensures a == b
  {
    assert (a != [] ==> a[0] in b) && (b != [] ==> b[0] in a);
    if a != [] {
      var n, m := |a| - 1, |b| - 1;
      assert a[n] in b && b[m] in a;
      assert a[n] == b[m] && a[n] !in a[..n] && b[m] !in b[..m];
      forall c: nat
        ensures c in a[..n] <==> c in b[..m]
      {
        assert a == a[..n] + [a[n]] && b == b[..m] + [b[m]];
        assert c in a <==> c in b;
      }
      AscendingUnique(a[..n], b[..m]);
    }
  }

  /** Each list is an ascending, non-empty node, and the map leads from exactly the listed
      CPUs to their nodes. */
  ghost predicate Inverse(nodes: seq<seq<nat>>, m: map<nat, nat>) {
    && (forall n :: 0 <= n < |nodes| ==> Ascending(nodes[n]) && nodes[n] != [])
    && (forall n, c :: 0 <= n < |nodes| && c in nodes[n] ==> c in m && m[c] == n)
    && (forall c :: c in m ==> m[c] < |nodes| && c in nodes[m[c]])
  }

  function Added(nodes: seq<seq<nat>>, n: nat, c: nat): seq<seq<nat>>
    requires n <= |nodes|
  {
    if n == |nodes| then nodes + [[c]] else nodes[n := InsertAscending(nodes[n], c)]
  }

  lemma AddKeeps(nodes: seq<seq<nat>>, m: map<nat, nat>, n: nat, c: nat)
    requires Inverse(nodes, m) && n <= |nodes| && c !in m
    ensures Inverse(Added(nodes, n, c), m[c := n])
  {
    var after, back := Added(nodes, n, c), m[c := n];
    if n < |nodes| {
      assert c !in nodes[n];
      InsertedAscending(nodes[n], c);
    }
    hide InsertAscending, Ascending;
    forall k | 0 <= k < |after|
      ensures Ascending(after[k]) && after[k] != []
    {
      if k == |nodes| {
        OneAscending(c);
      }
    }
    forall k, x | 0 <= k < |after| && x in after[k]
      ensures x in back && back[x] == k
    {
      if k < |nodes| && x in nodes[k] {
        assert m[x] == k;
      }
    }
    forall x | x in back
      ensures back[x] < |after| && x in after[back[x]]
    {
      if x != c {
        assert x in nodes[m[x]];
      }
    }
  }

  /** A new node is added empty and then filled. */
  lemma PutIntoNode(nodes: seq<seq<nat>>, n: nat, c: nat)
    requires n <= |nodes|
    ensures var room := if |nodes| <= n then nodes + [[]] else nodes;
      room[n := InsertAscending(room[n], c)] == Added(nodes, n, c)
  {
    assert InsertAscending([], c) == [c];
  }

  lemma OneAscending(c: nat)
    ensures Ascending([c])
  {}

  class NumaConfig {
    var nodes: seq<seq<nat>>
    var nodeByCpu: map<nat, nat>
    var highestCpuIndex: nat
    var customAffinity: bool

    ghost predicate Valid()
      reads this
    {
      && Inverse(nodes, nodeByCpu)
      && (forall c :: c in nodeByCpu ==> c <= highestCpuIndex)
      && (highestCpuIndex == 0 || highestCpuIndex in nodeByCpu)
    }

    constructor ()
      ensures Valid() && nodes == [] && nodeByCpu == map[] && !customAffinity
    {
      nodes, nodeByCpu, highestCpuIndex, customAffinity := [], map[], 0, false;
    }

    /** Refuses, and changes nothing, when the CPU has a node already. */
    method AddCpuToNode(n: nat, c: nat) returns (ok: bool)
      requires Valid() && n <= |nodes|
      modifies this
      ensures Valid() && customAffinity == old(customAffinity)
      ensures ok <==> c !in old(nodeByCpu)
      ensures if ok then nodes == Added(old(nodes), n, c) && nodeByCpu == old(nodeByCpu)[c := n]
              else nodes == old(nodes) && nodeByCpu == old(nodeByCpu)
    {
      if c in nodeByCpu {
        return false;
      }
      hide Inverse, InsertAscending, Added;
      AddKeeps(nodes, nodeByCpu, n, c);
      PutIntoNode(nodes, n, c);
      if |nodes| <= n {
        nodes := nodes + [[]];
      }
      nodes := nodes[n := InsertAscending(nodes[n], c)];
      nodeByCpu := nodeByCpu[c := n];
      if c > highestCpuIndex {
        highestCpuIndex := c;
      }
      ok := true;
    }

    /** All indices of one group. */
    method AddGroup(indices: seq<nat>) returns (repeated: Option<nat>)
      requires Valid() && indices != []
      modifies this
      ensures Valid() && customAffinity == old(customAffinity)
      ensures repeated.None? <==> NoRepeats(indices) && Elements(indices) !! old(nodeByCpu.Keys)
      ensures repeated.Some? ==> FirstRepeat(old(nodeByCpu.Keys), indices, repeated.value)
      ensures repeated.None? ==>
        && |nodes| == |old(nodes)| + 1 && nodes[..|old(nodes)|] == old(nodes)
        && SameElements(nodes[|old(nodes)|], indices)
        && nodeByCpu.Keys == old(nodeByCpu.Keys) + Elements(indices)
    {
      var n := |nodes|;
      ghost var before, keys := nodes, nodeByCpu.Keys;
      for k := 0 to |indices|
        invariant Valid() && customAffinity == old(customAffinity) && n <= |nodes|
        invariant GroupSoFar(before, keys, nodes, nodeByCpu.Keys, indices[..k])
      {
        hide Inverse, GroupSoFar, NoRepeats, SameElements, Elements, Added;
        ghost var now, map0 := nodes, nodeByCpu;
        var ok := AddCpuToNode(n, indices[k]);
        if !ok {
          RepeatFound(before, keys, now, map0.Keys, indices, k);
          return Some(indices[k]);
        }
        GroupGrows(before, keys, now, map0, indices, k);
      }
      assert indices[..|indices|] == indices;
      repeated := None;
    }

    /** The whole text; an error as soon as a CPU repeats. */
    method FromString(text: string) returns (repeated: Option<nat>)
      requires Valid() && nodes == [] && nodeByCpu == map[]
      modifies this
      ensures Valid()
      ensures repeated.None? <==> NoRepeats(Concat(Groups(text)))
      ensures repeated.Some? ==> FirstRepeat({}, Concat(Groups(text)), repeated.value)
      ensures repeated.None? ==> customAffinity && Lists(nodes, Groups(text))
    {
      hide Split, Indices, Inverse, NoRepeats, SameElements, Elements, ReadSoFar;
      var pieces := Split(text, ':');
      ghost var lists := Mapped(Indices, pieces);
      NothingRead();
      assert NonEmpty(lists[..0]) == [] && nodeByCpu.Keys == {};
      for p := 0 to |pieces|
        invariant Valid() && ReadSoFar(nodes, nodeByCpu.Keys, NonEmpty(lists[..p]))
      {
        hide NonEmpty, Concat, Lists;
        var indices := Indices(pieces[p]);
        ghost var so := NonEmpty(lists[..p]);
        NonEmptyNext(lists, p);
        if indices != [] {
          ghost var before, keys := nodes, nodeByCpu.Keys;
          repeated := AddGroup(indices);
          if repeated.Some? {
            GroupRepeats(before, keys, so, indices, repeated.value);
            RepeatStays(lists, p + 1, repeated.value);
            FirstIsRepeat(Concat(NonEmpty(lists)), repeated.value);
            return;
          }
          GroupRead(before, keys, nodes, so, indices);
        } else {
          assert so + [] == so;
        }
      }
      assert lists[..|pieces|] == lists;
      AllRead(nodes, nodeByCpu.Keys, NonEmpty(lists));
      customAffinity := true;
      repeated := None;
    }

    /** The text form, with runs of CPUs as ranges. */
    method Display() returns (out: string)
      requires Valid()
      ensures out == Print(nodes)
    {
      out := "";
      var first := true;
      hide PrintNode;
      for n := 0 to |nodes|
        invariant out == Print(nodes[..n]) && (first <==> n == 0)
      {
        if !first {
          out := out + ":";
        }
        PrintNext(nodes, n);
        var node := DisplayNode(nodes[n]);
        out := out + node;
        first := false;
      }
      assert nodes[..|nodes|] == nodes;
    }
  }

  /** Walks the list once and prints a range at each of its ends. */
  method DisplayNode(v: seq<nat>) returns (out: string)
    ensures out == PrintNode(v)
  {
    out := "";
    var first, start := true, 0;
    hide PrintNode, PrintRange;
    NothingPrinted();
    for i := 0 to |v|
      invariant start <= i && (first <==> start == 0)
      invariant out == PrintNode(v[..start])
      invariant Run(v, start, i) && (i == |v| ==> start == i)
      invariant start < i ==> v[i] == v[i - 1] + 1
    {
      if i + 1 == |v| || v[i + 1] != v[i] + 1 {
        if !first {
          out := out + ",";
        }
        RunEnds(v, start, i);
        out := out + PrintRange(Range(v[start], v[i]));
        start, first := i + 1, false;
      }
    }
    assert v[..|v|] == v;
  }

  /** The lists after some indices of a new group. */
  ghost predicate Grown(before: seq<seq<nat>>, nodes: seq<seq<nat>>, added: seq<nat>) {
    if added == [] then nodes == before
    else |nodes| == |before| + 1 && nodes[..|before|] == before && SameElements(nodes[|before|], added)
  }

  lemma GrowOne(before: seq<seq<nat>>, nodes: seq<seq<nat>>, m: map<nat, nat>, added: seq<nat>, c: nat)
    requires Grown(before, nodes, added) && |before| <= |nodes|
    requires Inverse(nodes, m) && c !in m
    ensures Grown(before, Added(nodes, |before|, c), added + [c])
  {
    if added != [] {
      InsertedAscending(nodes[|before|], c);
    }
  }

  /** A group being added to the lists `before`, whose CPUs are `keys`. */
  ghost predicate GroupSoFar(
    before: seq<seq<nat>>, keys: set<nat>, nodes: seq<seq<nat>>, now: set<nat>, added: seq<nat>
  ) {
    Grown(before, nodes, added) && now == keys + Elements(added) && NoRepeats(added) && Elements(added) !! keys
  }

  lemma GroupGrows(
    before: seq<seq<nat>>, keys: set<nat>, nodes: seq<seq<nat>>, m: map<nat, nat>, indices: seq<nat>, k: nat
  )
    requires k < |indices| && GroupSoFar(before, keys, nodes, m.Keys, indices[..k]) && |before| <= |nodes|
    requires Inverse(nodes, m) && indices[k] !in m
    ensures |nodes| <= |Added(nodes, |before|, indices[k])|
    ensures GroupSoFar(before, keys, Added(nodes, |before|, indices[k]), m.Keys + {indices[k]},
                       indices[..k + 1])
  {
    assert indices[..k + 1] == indices[..k] + [indices[k]];
    GrowOne(before, nodes, m, indices[..k], indices[k]);
    hide Grown, Inverse, Added;
    assert Elements(indices[..k + 1]) == Elements(indices[..k]) + {indices[k]};
  }

  lemma RepeatFound(
    before: seq<seq<nat>>, keys: set<nat>, nodes: seq<seq<nat>>, now: set<nat>, indices: seq<nat>, k: nat
  )
    requires k < |indices| && GroupSoFar(before, keys, nodes, now, indices[..k]) && indices[k] in now
    ensures !(NoRepeats(indices) && Elements(indices) !! keys)
    ensures FirstRepeat(keys, indices, indices[k])
  {
    assert RepeatAt(keys, indices, indices[k], k);
    if indices[k] in keys {
      assert indices[k] in Elements(indices);
    } else {
      var i :| 0 <= i < k && indices[..k][i] == indices[k];
      assert indices[i] == indices[k];
    }
  }

  /** Each list holds what its group holds. */
  ghost predicate Lists(nodes: seq<seq<nat>>, groups: seq<seq<nat>>) {
    |nodes| == |groups| && forall k :: 0 <= k < |groups| ==> SameElements(nodes[k], groups[k])
  }

  /** The groups read so far, without a repeat. */
  ghost predicate ReadSoFar(nodes: seq<seq<nat>>, keys: set<nat>, so: seq<seq<nat>>) {
    Lists(nodes, so) && NoRepeats(Concat(so)) && keys == Elements(Concat(so))
  }

  lemma NothingRead()
    ensures ReadSoFar([], {}, [])
  {}

  lemma AllRead(nodes: seq<seq<nat>>, keys: set<nat>, so: seq<seq<nat>>)
    requires ReadSoFar(nodes, keys, so)
    ensures Lists(nodes, so) && NoRepeats(Concat(so))
  {}

  lemma GroupRead(
    before: seq<seq<nat>>, keys: set<nat>, nodes: seq<seq<nat>>, so: seq<seq<nat>>, indices: seq<nat>
  )
    requires ReadSoFar(before, keys, so) && NoRepeats(indices) && Elements(indices) !! keys
    requires |nodes| == |before| + 1 && nodes[..|before|] == before && SameElements(nodes[|before|], indices)
    ensures ReadSoFar(nodes, keys + Elements(indices), so + [indices])
  {
    ListsMore(before, nodes, so, indices);
    ConcatLast(so, indices);
    hide Lists, NoRepeats, Concat, SameElements;
    GroupDecides(Concat(so), indices);
    assert Elements(Concat(so) + indices) == Elements(Concat(so)) + Elements(indices);
  }

  lemma GroupRepeats(before: seq<seq<nat>>, keys: set<nat>, so: seq<seq<nat>>, indices: seq<nat>, c: nat)
    requires ReadSoFar(before, keys, so) && FirstRepeat(keys, indices, c)
    ensures FirstRepeat({}, Concat(so + [indices]), c)
  {
    hide Concat;
    ConcatLast(so, indices);
    var k :| 0 <= k < |indices| && RepeatAt(keys, indices, c, k);
    var all, n := Concat(so) + indices, |Concat(so)| + k;
    GroupDecides(Concat(so), indices[..k]);
    assert all[..n] == Concat(so) + indices[..k];
    assert RepeatAt({}, all, c, n);
  }

  lemma NonEmptyNext(lists: seq<seq<nat>>, p: nat)
    requires p < |lists|
    ensures NonEmpty(lists[..p + 1]) == NonEmpty(lists[..p]) + if lists[p] == [] then [] else [lists[p]]
  {
    assert lists[..p + 1][..p] == lists[..p];
  }

  lemma ConcatLast(lists: seq<seq<nat>>, last: seq<nat>)
    ensures Concat(lists + [last]) == Concat(lists) + last
  {
    assert (lists + [last])[..|lists|] == lists;
  }

  /** A group can be added without a repeat exactly when the longer list has none. */
  lemma GroupDecides(so: seq<nat>, indices: seq<nat>)
    requires NoRepeats(so)
    ensures NoRepeats(so + indices) <==> NoRepeats(indices) && Elements(indices) !! Elements(so)
  {
    var all := so + indices;
    if NoRepeats(all) {
      forall i, j | 0 <= i < j < |indices|
        ensures indices[i] != indices[j]
      {
        assert all[|so| + i] != all[|so| + j];
      }
      forall c | c in Elements(indices)
        ensures c !in Elements(so)
      {
        var j :| 0 <= j < |indices| && indices[j] == c;
        assert all[|so| + j] == c;
        assert forall i :: 0 <= i < |so| ==> so[i] == all[i] && all[i] != all[|so| + j];
      }
    } else if NoRepeats(indices) && Elements(indices) !! Elements(so) {
      forall i, j | 0 <= i < j < |all|
        ensures all[i] != all[j]
      {
        if i < |so| <= j {
          assert indices[j - |so|] in Elements(indices) && so[i] in Elements(so);
        }
      }
    }
  }

  /** The first repeat among the first groups is that of the text. */
  lemma {:induction false} RepeatStays(lists: seq<seq<nat>>, p: nat, c: nat)
    requires p <= |lists| && FirstRepeat({}, Concat(NonEmpty(lists[..p])), c)
    ensures FirstRepeat({}, Concat(NonEmpty(lists)), c)
    decreases |lists| - p
  {
    if p == |lists| {
      assert lists[..p] == lists;
    } else {
      hide Concat, NonEmpty, FirstRepeat;
      NonEmptyNext(lists, p);
      var so := NonEmpty(lists[..p]);
      if lists[p] == [] {
        assert so + [] == so;
      } else {
        ConcatLast(so, lists[p]);
        FirstRepeatMore(Concat(so), lists[p], c);
      }
      RepeatStays(lists, p + 1, c);
    }
  }

  lemma ListsMore(before: seq<seq<nat>>, nodes: seq<seq<nat>>, so: seq<seq<nat>>, indices: seq<nat>)
    requires Lists(before, so) && |nodes| == |before| + 1 && nodes[..|before|] == before
    requires SameElements(nodes[|before|], indices)
    ensures Lists(nodes, so + [indices])
  {
    forall k | 0 <= k < |nodes|
      ensures SameElements(nodes[k], (so + [indices])[k])
    {
      if k < |before| {
        assert nodes[k] == nodes[..|before|][k];
      }
    }
  }

  lemma {:induction false} JoinNext(pieces: seq<string>, n: nat, sep: char)
    requires n < |pieces|
    ensures Join(pieces[..n + 1], sep) == Join(pieces[..n], sep) + (if n == 0 then "" else [sep]) + pieces[n]
  {
    assert pieces[..n + 1][..n] == pieces[..n];
  }

  lemma PrintNext(nodes: seq<seq<nat>>, n: nat)
    requires n < |nodes|
    ensures Print(nodes[..n + 1]) == Print(nodes[..n]) + (if n == 0 then "" else ":") + PrintNode(nodes[n])
  {
    hide PrintNode;
    var pieces := Mapped(PrintNode, nodes);
    assert Mapped(PrintNode, nodes[..n + 1]) == pieces[..n + 1] && Mapped(PrintNode, nodes[..n]) == pieces[..n];
    JoinNext(pieces, n, ':');
  }

  /** From `start` to before `i` the CPUs follow one another, and `start` follows nothing. */
  ghost predicate Run(v: seq<nat>, start: nat, i: nat) {
    && start <= i <= |v|
    && (forall k :: start < k < i ==> v[k] == v[k - 1] + 1)
    && (0 < start < |v| ==> v[start] != v[start - 1] + 1)
  }

  lemma CompressNext(v: seq<nat>, i: nat)
    requires i < |v|
    ensures var front := Compress(v[..i]);
      Compress(v[..i + 1]) ==
      if front != [] && front[|front| - 1].last + 1 == v[i] then
        front[..|front| - 1] + [Range(front[|front| - 1].first, v[i])]
      else front + [Range(v[i], v[i])]
    ensures Compress(v[..i]) == [] <==> i == 0
    ensures i > 0 ==> Compress(v[..i])[|Compress(v[..i])| - 1].last == v[i - 1]
  {
    assert v[..i + 1][..i] == v[..i];
  }

  lemma {:induction false} CompressRun(v: seq<nat>, start: nat, i: nat)
    requires Run(v, start, i) && start < i
    ensures Compress(v[..i]) == Compress(v[..start]) + [Range(v[start], v[i - 1])]
    decreases i
  {
    hide Compress;
    CompressNext(v, i - 1);
    if start + 1 < i {
      CompressRun(v, start, i - 1);
    }
  }

  lemma RunEnds(v: seq<nat>, start: nat, i: nat)
    requires start <= i < |v| && Run(v, start, i + 1)
    ensures PrintNode(v[..i + 1])
         == PrintNode(v[..start]) + (if start == 0 then "" else ",") + PrintRange(Range(v[start], v[i]))
  {
    hide Compress, PrintRange, Join;
    CompressRun(v, start, i + 1);
    EmptyRanges(v[..start]);
    MoreRanges(Compress(v[..start]), Range(v[start], v[i]));
  }

  lemma MoreRanges(front: seq<Range>, last: Range)
    ensures Join(Mapped(PrintRange, front + [last]), ',')
         == Join(Mapped(PrintRange, front), ',') + (if front == [] then "" else ",") + PrintRange(last)
  {
    hide PrintRange, Join;
    var pieces := Mapped(PrintRange, front + [last]);
    assert Mapped(PrintRange, front) == pieces[..|front|];
    assert pieces[..|front| + 1] == pieces;
    JoinNext(pieces, |front|, ',');
  }

  lemma NothingPrinted()
    ensures PrintNode([]) == ""
  {}

  lemma EmptyRanges(v: seq<nat>)
    ensures Compress(v) == [] <==> v == []
  {}

  // ----- what text and layout mean to each other -----

  /** What a layout is: non-empty, ascending, pairwise disjoint lists of CPU indices. */
  ghost predicate Layout(nodes: seq<seq<nat>>) {
    && (forall k :: 0 <= k < |nodes| ==> nodes[k] != [] && Ascending(nodes[k]))
    && (forall k, i :: 0 <= k < |nodes| && 0 <= i < |nodes[k]| ==> nodes[k][i] < USIZE)
    && NoRepeats(Concat(nodes))
  }

  /** Reading what was printed gives the same nodes in the same order. */
  method PrintThenRead(config: NumaConfig, reread: NumaConfig) returns (repeated: Option<nat>)
    requires config != reread && config.Valid() && Layout(config.nodes)
    requires reread.Valid() && reread.nodes == [] && reread.nodeByCpu == map[]
    modifies reread
    ensures reread.Valid() && repeated.None? && reread.nodes == config.nodes
  {
    var text := config.Display();
    TextRoundTrip(config.nodes);
    repeated := reread.FromString(text);
    SameNodes(reread.nodes, reread.nodeByCpu, config.nodes);
  }

  lemma SameNodes(a: seq<seq<nat>>, m: map<nat, nat>, b: seq<seq<nat>>)
    requires Lists(a, b) && Inverse(a, m) && Layout(b)
    ensures a == b
  {
    forall k | 0 <= k < |a|
      ensures a[k] == b[k]
    {
      AscendingUnique(a[k], b[k]);
    }
  }
}
