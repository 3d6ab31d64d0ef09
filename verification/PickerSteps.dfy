/** What one walk over a segment of the picker's buffer means for the twin's lists. */
module PickerSteps {
  import opened Wrappers
  import opened MoveSort
  import opened SortFacts
  import opened TwinPicker

  /** The first index from `k` on that passes, or the length. */
  function FirstFrom(f: ExtMove -> bool, s: seq<ExtMove>, k: nat): (j: nat)
    requires k <= |s|
    ensures k <= j <= |s| && (j < |s| ==> f(s[j]))
    ensures forall i :: k <= i < j ==> !f(s[i])
    decreases |s| - k
  {
    if k == |s| || f(s[k]) then k else FirstFrom(f, s, k + 1)
  }

  /** The walk passes over the table move whatever the stage's own test says. */
  function Selectable(tt: Option<Move>, f: ExtMove -> bool): ExtMove -> bool {
    (e: ExtMove) => Some(e.mv) != tt && f(e)
  }

  function Always(): ExtMove -> bool {
    (e: ExtMove) => true
  }

  function Both(f: ExtMove -> bool, legal: Move -> bool): ExtMove -> bool {
    (e: ExtMove) => f(e) && legal(e.mv)
  }

  ghost predicate Lacks(tt: Option<Move>, s: seq<ExtMove>) {
    forall i :: 0 <= i < |s| ==> Some(s[i].mv) != tt
  }

  lemma FirstFromUnique(f: ExtMove -> bool, s: seq<ExtMove>, k: nat, j: nat)
    requires k <= j <= |s| && (j < |s| ==> f(s[j]))
    requires forall i :: k <= i < j ==> !f(s[i])
    ensures FirstFrom(f, s, k) == j
  {}

  /** Walking part of a buffer is walking that part by itself. */
  lemma FirstFromPart(f: ExtMove -> bool, b: seq<ExtMove>, lo: nat, hi: nat, k: nat)
    requires lo <= k <= hi <= |b|
    ensures FirstFrom(f, b[..hi], k) == lo + FirstFrom(f, b[lo..hi], k - lo)
  {
    var j := FirstFrom(f, b[lo..hi], k - lo);
    forall i | k <= i < lo + j
      ensures !f(b[..hi][i])
    {
      assert b[..hi][i] == b[lo..hi][i - lo];
    }
    FirstFromUnique(f, b[..hi], k, lo + j);
  }

  lemma FirstFromLacking(f: ExtMove -> bool, tt: Option<Move>, s: seq<ExtMove>, k: nat)
    requires k <= |s| && Lacks(tt, s)
    ensures FirstFrom(Selectable(tt, f), s, k) == FirstFrom(f, s, k)
  {
    var j := FirstFrom(f, s, k);
    forall i | k <= i < j
      ensures !Selectable(tt, f)(s[i])
    {}
    FirstFromUnique(Selectable(tt, f), s, k, j);
  }

  /** How many elements before `k` pass. */
  function Before(f: ExtMove -> bool, s: seq<ExtMove>, k: nat): (n: nat)
    requires k <= |s|
  {
    |Filter(f, s[..k])|
  }

  lemma BeforeNext(f: ExtMove -> bool, s: seq<ExtMove>, k: nat)
    requires k < |s|
    ensures Filter(f, s[..k + 1]) == Filter(f, s[..k]) + if f(s[k]) then [s[k]] else []
    ensures Before(f, s, k + 1) == Before(f, s, k) + if f(s[k]) then 1 else 0
  {
    assert s[..k + 1][..k] == s[..k];
  }

  lemma BeforeEnds(f: ExtMove -> bool, s: seq<ExtMove>)
    ensures Before(f, s, 0) == 0 && Before(f, s, |s|) == |Filter(f, s)|
  {
    assert s[..|s|] == s;
  }

  /** A passing element sits in the filtered list at the number of those before it. */
  lemma FilterIndex(f: ExtMove -> bool, s: seq<ExtMove>, k: nat)
    requires k < |s| && f(s[k])
    ensures Before(f, s, k) < |Filter(f, s)| && Filter(f, s)[Before(f, s, k)] == s[k]
  {
    assert s == s[..k] + [s[k]] + s[k + 1..];
    FilterThree(f, s[..k], s[k], s[k + 1..]);
  }

  lemma BeforeAtMost(f: ExtMove -> bool, s: seq<ExtMove>, k: nat)
    requires k <= |s|
    ensures Before(f, s, k) <= |Filter(f, s)|
  {
    assert s == s[..k] + s[k..];
    FilterConcat(f, s[..k], s[k..]);
  }

  /** Walking to the first element that passes is taking the next one of the
      filtered list. */
  lemma {:induction false} WalkIsNext(f: ExtMove -> bool, s: seq<ExtMove>, k: nat)
    requires k <= |s|
    ensures var j := FirstFrom(f, s, k);
      if j < |s| then
        Before(f, s, k) < |Filter(f, s)| && Filter(f, s)[Before(f, s, k)] == s[j]
        && Before(f, s, j + 1) == Before(f, s, k) + 1
      else Before(f, s, k) == |Filter(f, s)|
    decreases |s| - k
  {
    hide Before;
    if k == |s| {
      BeforeEnds(f, s);
    } else {
      BeforeNext(f, s, k);
      if f(s[k]) {
        FilterIndex(f, s, k);
      } else {
        WalkIsNext(f, s, k + 1);
      }
    }
  }

  /** The same when illegal moves and the table move are still in the list: walking
      the buffer with the combined test is scanning the filtered list. */
  lemma {:induction false} WalkIsScan(env: Env, tt: Option<Move>, f: ExtMove -> bool, s: seq<ExtMove>, k: nat)
    requires k <= |s|
    ensures Before(f, s, k) <= |Filter(f, s)|
    ensures var j := FirstFrom(Selectable(tt, Both(f, env.legal)), s, k);
      var i := Scan(env, tt, Moves(Filter(f, s)), Before(f, s, k));
      if j < |s| then i < |Filter(f, s)| && Moves(Filter(f, s))[i] == s[j].mv && Before(f, s, j + 1) == i + 1
      else i == |Filter(f, s)|
    decreases |s| - k
  {
    hide Before, Filter;
    BeforeAtMost(f, s, k);
    if k == |s| {
      BeforeEnds(f, s);
    } else {
      BeforeNext(f, s, k);
      if f(s[k]) {
        FilterIndex(f, s, k);
        assert Moves(Filter(f, s))[Before(f, s, k)] == s[k].mv;
        assert Yieldable(env, tt, s[k].mv) <==> Selectable(tt, Both(f, env.legal))(s[k]);
      }
      if !Selectable(tt, Both(f, env.legal))(s[k]) {
        WalkIsScan(env, tt, f, s, k + 1);
      }
    }
  }

  // ----- the compaction of losing captures -----

  /** The buffer `b` while the captures `s` are walked: the losers met so far stand in
      front, in order, and the rest is untouched. */
  ghost predicate Compacted(env: Env, s: seq<ExtMove>, b: seq<ExtMove>, bad: nat, cur: nat) {
    && bad <= cur <= |s| <= |b|
    && b[..bad] == Filter(Losing(env), s[..cur])
    && b[cur..|s|] == s[cur..]
  }

  lemma CompactedHere(env: Env, s: seq<ExtMove>, b: seq<ExtMove>, bad: nat, cur: nat)
    requires Compacted(env, s, b, bad, cur) && cur < |s|
    ensures b[cur] == s[cur]
  {
    assert b[cur] == b[cur..|s|][0];
  }

  lemma CompactedStart(env: Env, s: seq<ExtMove>, b: seq<ExtMove>)
    requires |s| <= |b| && b[..|s|] == s
    ensures Compacted(env, s, b, 0, 0)
  {}

  lemma CompactedEnd(env: Env, s: seq<ExtMove>, b: seq<ExtMove>, bad: nat)
    requires Compacted(env, s, b, bad, |s|)
    ensures b[..bad] == Filter(Losing(env), s)
  {
    assert s[..|s|] == s;
  }

  /** Walking past a winner leaves the buffer alone. */
  lemma CompactWinner(env: Env, s: seq<ExtMove>, b: seq<ExtMove>, bad: nat, cur: nat)
    requires Compacted(env, s, b, bad, cur) && cur < |s| && WinsExchange(env, s[cur])
    ensures Compacted(env, s, b, bad, cur + 1)
  {
    BeforeNext(Losing(env), s, cur);
    hide Filter;
    assert b[cur + 1..|s|] == b[cur..|s|][1..];
  }

  /** Walking past a loser swaps it to the end of the compacted region. */
  lemma CompactLoser(env: Env, s: seq<ExtMove>, b: seq<ExtMove>, bad: nat, cur: nat)
    requires Compacted(env, s, b, bad, cur) && cur < |s| && !WinsExchange(env, s[cur])
    ensures Compacted(env, s, b[bad := b[cur]][cur := b[bad]], bad + 1, cur + 1)
  {
    BeforeNext(Losing(env), s, cur);
    CompactedHere(env, s, b, bad, cur);
    hide Filter;
    var c := b[bad := b[cur]][cur := b[bad]];
    assert c[..bad + 1] == b[..bad] + [b[cur]];
    assert c[cur + 1..|s|] == b[cur..|s|][1..];
  }

  // ----- sorted segments -----

  lemma PermutationLacks(tt: Option<Move>, s: seq<ExtMove>, r: seq<ExtMove>)
    requires multiset(r) == multiset(s) && Lacks(tt, s)
    ensures Lacks(tt, r)
  {
    forall i | 0 <= i < |r|
      ensures Some(r[i].mv) != tt
    {
      assert r[i] in multiset(r);
      assert r[i] in s;
    }
  }

  lemma SortedCapturesFacts(t: Twin, env: Env, h: Scores, s: seq<ExtMove>)
    requires t.rawCaptures == Kept(env, t.tt, Generated(env, t.kind))
    requires s == Scored(t.rawCaptures, if t.kind.Evasion? then h.evasion else h.capture)
    ensures PartialSort(s, I32_MIN) == SortedCaptures(t, h)
    ensures Lacks(t.tt, SortedCaptures(t, h))
  {
    FullSortIsStableSort(s, I32_MIN);
    hide SortDesc, PartialSort, Kept;
    SortDescSorts(s);
    PermutationLacks(t.tt, s, SortDesc(s));
  }

  // ----- the twin, one stage at a time -----

  lemma NextFromTt(t: Twin, env: Env, h: Scores)
    requires WellIndexed(t) && t.stage.AtTt?
    ensures WellIndexed(t.(stage := CaptureInit))
    ensures Next(t, env, h)
         == if t.tt.Some? then Yield(t.tt, t.(stage := CaptureInit)) else Next(t.(stage := CaptureInit), env, h)
  {}

  lemma NextFromCaptureInit(t: Twin, env: Env, h: Scores)
    requires WellIndexed(t) && t.stage.CaptureInit?
    ensures var u := Enter(InitCaptures(t, env, h), GoodCaptures);
      WellIndexed(u) && Next(t, env, h) == Next(u, env, h)
  {
    hide Filter, SortDesc;
  }

  lemma NextFromGoodCaptures(t: Twin, env: Env, h: Scores)
    requires WellIndexed(t) && t.stage.GoodCaptures?
    ensures WellIndexed(Enter(t, QuietInit))
    ensures Next(t, env, h)
         == if t.idx < |t.goodCaptures| then Yield(Some(t.goodCaptures[t.idx]), t.(idx := t.idx + 1))
            else Next(Enter(t, QuietInit), env, h)
  {}

  lemma NextFromQuietInit(t: Twin, env: Env, h: Scores)
    requires WellIndexed(t) && t.stage.QuietInit?
    ensures var u := Enter(if t.kind.Main? && !t.skipQuiets then InitQuiets(t, h) else t, GoodQuiets);
      WellIndexed(u) && Next(t, env, h) == Next(u, env, h)
  {
    hide Filter, PartialSort;
  }

  lemma NextFromGoodQuiets(t: Twin, env: Env, h: Scores)
    requires WellIndexed(t) && t.stage.GoodQuiets?
    ensures WellIndexed(Enter(t, BadCaptures))
    ensures var j := Scan(env, t.tt, t.goodQuiets, t.idx);
      Next(t, env, h)
      == if !t.skipQuiets && j < |t.goodQuiets| then Yield(Some(t.goodQuiets[j]), t.(idx := j + 1))
         else Next(Enter(t, BadCaptures), env, h)
  {}

  lemma NextFromBadCaptures(t: Twin, env: Env, h: Scores)
    requires WellIndexed(t) && t.stage.BadCaptures?
    ensures WellIndexed(Enter(t, BadQuiets))
    ensures Next(t, env, h)
         == if t.idx < |t.badCaptures| then Yield(Some(t.badCaptures[t.idx]), t.(idx := t.idx + 1))
            else Next(Enter(t, BadQuiets), env, h)
  {}

  /** Outside the main search nothing comes after the one list. */
  lemma DrainsOut(t: Twin, env: Env, h: Scores)
    requires t.stage.GoodCaptures? && t.idx == |t.goodCaptures| && !t.kind.Main?
    requires t.badCaptures == [] && t.goodQuiets == [] && t.badQuiets == []
    ensures Next(t, env, h) == Yield(None, t.(stage := Done, idx := 0))
  {
    NextFromGoodCaptures(t, env, h);
    var u := Enter(t, QuietInit);
    NextFromQuietInit(u, env, h);
    var v := Enter(u, GoodQuiets);
    NextFromGoodQuiets(v, env, h);
    var w := Enter(v, BadCaptures);
    NextFromBadCaptures(w, env, h);
  }
}
