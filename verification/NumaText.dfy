/** The text form of a layout of CPUs on nodes, as lists of nodes, entries and ranges. */
module NumaText {
  import opened Wrappers

  const USIZE := 0x1_0000_0000_0000_0000

  // ----- splitting and joining -----

  /** The pieces between the separators; one more than there are separators. */
  function Split(s: string, sep: char): (r: seq<string>)
    ensures r != []
  {
    if s == "" then [""]
    else
      var front, c := Split(s[..|s| - 1], sep), s[|s| - 1];
      if c == sep then front + [""] else front[|front| - 1 := front[|front| - 1] + [c]]
  }

  function Join(pieces: seq<string>, sep: char): string {
    if pieces == [] then ""
    else if |pieces| == 1 then pieces[0]
    else Join(pieces[..|pieces| - 1], sep) + [sep] + pieces[|pieces| - 1]
  }

  lemma {:induction false} SplitAppend(s: string, t: string, sep: char)
    requires sep !in t
    ensures var front := Split(s, sep);
      Split(s + t, sep) == front[|front| - 1 := front[|front| - 1] + t]
  {
    var front := Split(s, sep);
    if t == "" {
      assert s + t == s;
      assert front[|front| - 1] + t == front[|front| - 1];
    } else {
      SplitAppend(s, t[..|t| - 1], sep);
      assert (s + t)[..|s + t| - 1] == s + t[..|t| - 1];
      assert front[|front| - 1] + t == (front[|front| - 1] + t[..|t| - 1]) + [t[|t| - 1]];
    }
  }

  lemma SplitAtSep(s: string, sep: char)
    ensures Split(s + [sep], sep) == Split(s, sep) + [""]
  {
    assert (s + [sep])[..|s|] == s;
  }

  lemma JoinLast(pieces: seq<string>, sep: char)
    requires |pieces| > 1
    ensures Join(pieces, sep) == Join(pieces[..|pieces| - 1], sep) + [sep] + pieces[|pieces| - 1]
  {}

  /** Splitting what was joined gives the pieces back. */
  lemma {:induction false} SplitJoin(pieces: seq<string>, sep: char)
    requires pieces != [] && forall i :: 0 <= i < |pieces| ==> sep !in pieces[i]
    ensures Split(Join(pieces, sep), sep) == pieces
  {
    if |pieces| == 1 {
      SplitAppend("", pieces[0], sep);
      assert "" + pieces[0] == pieces[0];
      assert Join(pieces, sep) == pieces[0];
    } else {
      var front, last := pieces[..|pieces| - 1], pieces[|pieces| - 1];
      JoinLast(pieces, sep);
      SplitJoin(front, sep);
      hide Split, Join;
      SplitAtSep(Join(front, sep), sep);
      SplitAppend(Join(front, sep) + [sep], last, sep);
      assert "" + last == last;
    }
  }

  // ----- numbers -----

  predicate IsDigit(c: char) {
    '0' <= c <= '9'
  }

  function Decimal(n: nat): (s: string)
    ensures s != ""
  {
    if n < 10 then [('0' as int + n) as char] else Decimal(n / 10) + [('0' as int + n % 10) as char]
  }

  function Number(digits: string): nat {
    if digits == "" then 0
    else
      var d := digits[|digits| - 1];
      10 * Number(digits[..|digits| - 1]) + if IsDigit(d) then d as int - '0' as int else 0
  }

  /** The characters with the Unicode property White_Space. */
  predicate IsSpace(c: char) {
    var u := c as int;
    || 0x9 <= u <= 0xD || u == 0x20 || u == 0x85 || u == 0xA0 || u == 0x1680 || 0x2000 <= u <= 0x200A
    || 0x2028 <= u <= 0x2029 || u == 0x202F || u == 0x205F || u == 0x3000
  }

  function TrimStart(s: string): string {
    if s != "" && IsSpace(s[0]) then TrimStart(s[1..]) else s
  }

  function TakeDigits(s: string): (r: string)
    ensures |r| <= |s|
  {
    if s != "" && IsDigit(s[0]) then [s[0]] + TakeDigits(s[1..]) else ""
  }

  /** A number, tolerating what may stand around it; `None` when it does not fit. */
  function ParseSize(s: string): Option<nat> {
    var digits := TakeDigits(TrimStart(s));
    if digits == "" || Number(digits) >= USIZE then None else Some(Number(digits))
  }

  predicate Digits(s: string) {
    forall i :: 0 <= i < |s| ==> '0' <= s[i] <= '9'
  }

  predicate Spaces(s: string) {
    forall i :: 0 <= i < |s| ==> IsSpace(s[i])
  }

  /** `s` is white space, then a number, then anything that does not begin with a digit. */
  ghost predicate Reads(s: string, space: string, digits: string, rest: string) {
    && s == space + digits + rest && Spaces(space) && digits != "" && Digits(digits)
    && (rest != "" ==> !('0' <= rest[0] <= '9'))
  }

  lemma {:induction false} TrimSplits(s: string) returns (space: string)
    ensures Spaces(space) && s == space + TrimStart(s)
    ensures TrimStart(s) != "" ==> !IsSpace(TrimStart(s)[0])
  {
    if s != "" && IsSpace(s[0]) {
      var front := TrimSplits(s[1..]);
      space := [s[0]] + front;
    } else {
      space := "";
    }
  }

  lemma {:induction false} TakeSplits(s: string) returns (rest: string)
    ensures Digits(TakeDigits(s)) && s == TakeDigits(s) + rest && (rest != "" ==> !IsDigit(rest[0]))
  {
    if s != "" && IsDigit(s[0]) {
      rest := TakeSplits(s[1..]);
    } else {
      rest := s;
    }
  }

  lemma {:induction false} TrimSpaces(space: string, s: string)
    requires Spaces(space) && (s != "" ==> !IsSpace(s[0]))
    ensures TrimStart(space + s) == s
  {
    if space == "" {
      assert space + s == s;
    } else {
      TrimSpaces(space[1..], s);
      assert (space + s)[0] == space[0] && (space + s)[1..] == space[1..] + s;
    }
  }

  lemma {:induction false} TakeThese(digits: string, rest: string)
    requires Digits(digits) && (rest != "" ==> !IsDigit(rest[0]))
    ensures TakeDigits(digits + rest) == digits
  {
    if digits == "" {
      assert digits + rest == rest;
    } else {
      TakeThese(digits[1..], rest);
      assert (digits + rest)[0] == digits[0] && (digits + rest)[1..] == digits[1..] + rest;
    }
  }

  /** Exactly which texts are read as which number. */
  lemma ParseSizeExactly(s: string, n: nat)
    ensures ParseSize(s) == Some(n)
        <==> n < USIZE && exists space, digits, rest :: Reads(s, space, digits, rest) && Number(digits) == n
  {
    hide TrimStart, TakeDigits, Number;
    if ParseSize(s) == Some(n) {
      var space := TrimSplits(s);
      var rest := TakeSplits(TrimStart(s));
      var digits := TakeDigits(TrimStart(s));
      assert s == space + digits + rest;
      assert Reads(s, space, digits, rest);
    }
    if space, digits, rest :| Reads(s, space, digits, rest) && Number(digits) == n {
      assert space + digits + rest == space + (digits + rest);
      assert (digits + rest)[0] == digits[0];
      TrimSpaces(space, digits + rest);
      TakeThese(digits, rest);
    }
  }

  lemma {:induction false} DecimalDigits(n: nat)
    ensures forall i :: 0 <= i < |Decimal(n)| ==> IsDigit(Decimal(n)[i])
  {
    if n >= 10 {
      DecimalDigits(n / 10);
    }
  }

  lemma {:induction false} DecimalNumber(n: nat)
    ensures Number(Decimal(n)) == n
  {
    if n >= 10 {
      DecimalNumber(n / 10);
      var s := Decimal(n);
      assert s[..|s| - 1] == Decimal(n / 10);
    } else {
      assert Decimal(n)[..0] == "";
    }
  }

  lemma {:induction false} TakesAllDigits(s: string)
    requires forall i :: 0 <= i < |s| ==> IsDigit(s[i])
    ensures TakeDigits(s) == s
  {
    if s != "" {
      TakesAllDigits(s[1..]);
    }
  }

  lemma ParseDecimal(n: nat)
    requires n < USIZE
    ensures ParseSize(Decimal(n)) == Some(n)
  {
    DecimalDigits(n);
    DecimalNumber(n);
    assert IsDigit(Decimal(n)[0]);
    TakesAllDigits(Decimal(n));
  }

  // ----- ranges -----

  datatype Range = Range(first: nat, last: nat)

  function Expand(r: Range): (s: seq<nat>)
    ensures r.first <= r.last ==> |s| == r.last - r.first + 1
    ensures forall i :: 0 <= i < |s| ==> s[i] == r.first + i
  {
    if r.first > r.last then [] else seq(r.last - r.first + 1, i => r.first + i)
  }

  function PrintRange(r: Range): string {
    if r.first == r.last then Decimal(r.last) else Decimal(r.first) + "-" + Decimal(r.last)
  }

  /** One entry: a number or an inclusive range; anything else stands for nothing. */
  function Entry(s: string): seq<nat> {
    var parts := Split(s, '-');
    if s == "" then []
    else if |parts| == 1 then
      match ParseSize(parts[0])
      case Some(c) => [c]
      case None => []
    else if |parts| == 2 then
      match (ParseSize(parts[0]), ParseSize(parts[1]))
      case (Some(a), Some(b)) => Expand(Range(a, b))
      case _ => []
    else []
  }

  lemma NoSeparator(n: nat, sep: char)
    requires !IsDigit(sep)
    ensures sep !in Decimal(n)
  {
    DecimalDigits(n);
  }

  lemma EntryRoundTrip(r: Range)
    requires r.first <= r.last < USIZE
    ensures Entry(PrintRange(r)) == Expand(r)
    ensures ',' !in PrintRange(r) && ':' !in PrintRange(r)
  {
    hide Decimal, Split, ParseSize;
    NoSeparator(r.first, '-');
    NoSeparator(r.last, '-');
    NoSeparator(r.first, ',');
    NoSeparator(r.last, ',');
    NoSeparator(r.first, ':');
    NoSeparator(r.last, ':');
    ParseDecimal(r.first);
    ParseDecimal(r.last);
    if r.first == r.last {
      SplitJoin([Decimal(r.last)], '-');
      assert Expand(r) == [r.last];
    } else {
      var pieces := [Decimal(r.first), Decimal(r.last)];
      SplitJoin(pieces, '-');
      assert pieces[..1] == [Decimal(r.first)];
      assert Join(pieces, '-') == PrintRange(r);
    }
  }

  function Concat(lists: seq<seq<nat>>): seq<nat> {
    if lists == [] then [] else Concat(lists[..|lists| - 1]) + lists[|lists| - 1]
  }

  function Mapped<A, B>(f: A -> B, s: seq<A>): (r: seq<B>)
    ensures |r| == |s| && forall i :: 0 <= i < |s| ==> r[i] == f(s[i])
  {
    seq(|s|, i requires 0 <= i < |s| => f(s[i]))
  }

  /** The list of one node. */
  function Indices(s: string): seq<nat> {
    Concat(Mapped(Entry, Split(s, ',')))
  }

  // ----- compressing -----

  predicate Ascending(v: seq<nat>) {
    forall i, j :: 0 <= i < j < |v| ==> v[i] < v[j]
  }

  function Compress(v: seq<nat>): (r: seq<Range>)
    ensures v != [] ==> r != [] && r[|r| - 1].last == v[|v| - 1]
    ensures forall i :: 0 <= i < |r| ==> r[i].first <= r[i].last
  {
    if v == [] then []
    else
      var front, x := Compress(v[..|v| - 1]), v[|v| - 1];
      if front != [] && front[|front| - 1].last + 1 == x then front[|front| - 1 := Range(front[|front| - 1].first, x)]
      else front + [Range(x, x)]
  }

  lemma {:induction false} CompressWithin(v: seq<nat>, i: nat)
    requires i < |Compress(v)|
    ensures Compress(v)[i].last in v
  {
    var n := |v| - 1;
    if i < |Compress(v[..n])| {
      CompressWithin(v[..n], i);
      assert v == v[..n] + [v[n]];
    }
  }

  function ExpandAll(r: seq<Range>): seq<nat> {
    Concat(Mapped(Expand, r))
  }

  lemma ExpandAllLast(front: seq<Range>, last: Range)
    ensures ExpandAll(front + [last]) == ExpandAll(front) + Expand(last)
  {
    var all := front + [last];
    assert Mapped(Expand, all)[..|front|] == Mapped(Expand, front);
  }

  lemma ExpandLonger(first: nat, last: nat)
    requires first <= last
    ensures Expand(Range(first, last + 1)) == Expand(Range(first, last)) + [last + 1]
  {}

  lemma ExpandOne(x: nat)
    ensures Expand(Range(x, x)) == [x]
  {}

  lemma CompressLast(v: seq<nat>)
    requires v != []
    ensures var front, x := Compress(v[..|v| - 1]), v[|v| - 1];
      Compress(v) ==
        if front != [] && front[|front| - 1].last + 1 == x then
          front[..|front| - 1] + [Range(front[|front| - 1].first, x)]
                     else front + [Range(x, x)]
  {}

  lemma LongerRange(front: seq<Range>, x: nat)
    requires front != [] && front[|front| - 1].first <= front[|front| - 1].last && front[|front| - 1].last + 1 == x
    ensures ExpandAll(front[..|front| - 1] + [Range(front[|front| - 1].first, x)]) == ExpandAll(front) + [x]
  {
    hide ExpandAll, Expand;
    var k := |front| - 1;
    assert front == front[..k] + [front[k]];
    ExpandAllLast(front[..k], front[k]);
    ExpandAllLast(front[..k], Range(front[k].first, x));
    ExpandLonger(front[k].first, front[k].last);
  }

  lemma NothingExpands()
    ensures ExpandAll(Compress([])) == []
  {}

  /** Expanding the ranges gives the list back, in order. */
  lemma {:induction false} ExpandCompress(v: seq<nat>)
    ensures ExpandAll(Compress(v)) == v
  {
    NothingExpands();
    hide Compress, ExpandAll, Expand;
    if v != [] {
      var n := |v| - 1;
      ExpandCompress(v[..n]);
      CompressLast(v);
      var front, x := Compress(v[..n]), v[n];
      if front != [] && front[|front| - 1].last + 1 == x {
        LongerRange(front, x);
      } else {
        ExpandAllLast(front, Range(x, x));
        ExpandOne(x);
      }
      assert v == v[..n] + [x];
    }
  }

  function PrintNode(v: seq<nat>): string {
    Join(Mapped(PrintRange, Compress(v)), ',')
  }

  /** Parsing the printed list of one node. */
  lemma NodeRoundTrip(v: seq<nat>)
    requires v != [] && forall i :: 0 <= i < |v| ==> v[i] < USIZE
    ensures Indices(PrintNode(v)) == v
  {
    var ranges := Compress(v);
    var pieces := Mapped(PrintRange, ranges);
    forall i | 0 <= i < |pieces|
      ensures Entry(pieces[i]) == Expand(ranges[i]) && ',' !in pieces[i]
    {
      CompressWithin(v, i);
      EntryRoundTrip(ranges[i]);
    }
    hide Entry, Compress, Join, Split, PrintRange;
    SplitJoin(pieces, ',');
    ExpandCompress(v);
    assert Mapped(Entry, pieces) == Mapped(Expand, ranges);
  }

  lemma {:induction false} JoinLacks(pieces: seq<string>, sep: char, c: char)
    requires c != sep && forall i :: 0 <= i < |pieces| ==> c !in pieces[i]
    ensures c !in Join(pieces, sep)
  {
    if |pieces| > 1 {
      JoinLacks(pieces[..|pieces| - 1], sep, c);
    }
  }

  lemma NodeLacksColon(v: seq<nat>)
    requires forall i :: 0 <= i < |v| ==> v[i] < USIZE
    ensures ':' !in PrintNode(v)
  {
    var ranges := Compress(v);
    var pieces := Mapped(PrintRange, ranges);
    forall i | 0 <= i < |pieces|
      ensures ':' !in pieces[i]
    {
      CompressWithin(v, i);
      EntryRoundTrip(ranges[i]);
    }
    hide PrintRange, Compress;
    JoinLacks(pieces, ',', ':');
  }

  function Print(nodes: seq<seq<nat>>): string {
    Join(Mapped(PrintNode, nodes), ':')
  }

  /** The lists of the nodes; a group without any index is no node. */
  function NonEmpty(lists: seq<seq<nat>>): (r: seq<seq<nat>>)
    ensures forall i :: 0 <= i < |r| ==> r[i] != []
  {
    if lists == [] then []
    else NonEmpty(lists[..|lists| - 1]) + if lists[|lists| - 1] == [] then [] else [lists[|lists| - 1]]
  }

  function Groups(s: string): seq<seq<nat>> {
    NonEmpty(Mapped(Indices, Split(s, ':')))
  }

  lemma {:induction false} AllNonEmpty(lists: seq<seq<nat>>)
    requires forall i :: 0 <= i < |lists| ==> lists[i] != []
    ensures NonEmpty(lists) == lists
  {
    if lists != [] {
      AllNonEmpty(lists[..|lists| - 1]);
      assert lists == lists[..|lists| - 1] + [lists[|lists| - 1]];
    }
  }

  /** The groups read from the printed form are the lists that were printed. */
  lemma TextRoundTrip(nodes: seq<seq<nat>>)
    requires forall k :: 0 <= k < |nodes| ==> nodes[k] != [] && forall i :: 0 <= i < |nodes[k]| ==> nodes[k][i] < USIZE
    ensures Groups(Print(nodes)) == nodes
  {
    if nodes == [] {
      EmptyText();
    } else {
      var pieces := Mapped(PrintNode, nodes);
      forall k | 0 <= k < |nodes|
        ensures ':' !in pieces[k] && Indices(pieces[k]) == nodes[k]
      {
        NodeLacksColon(nodes[k]);
        NodeRoundTrip(nodes[k]);
      }
      hide PrintNode, Indices, Join, Split;
      SplitJoin(pieces, ':');
      assert Mapped(Indices, pieces) == nodes;
      AllNonEmpty(nodes);
    }
  }

  lemma EmptyText()
    ensures Groups(Print([])) == []
  {
    var none: seq<seq<nat>> := [];
    assert Mapped(PrintNode, none) == [];
    assert Split("", ':') == [""] && Split("", ',') == [""];
    assert Mapped(Entry, [""]) == [[]];
    assert Concat([[]]) == [];
    assert Mapped(Indices, [""]) == [[]];
    assert NonEmpty([[]]) == [];
  }
}
