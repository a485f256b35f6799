/**
 Structural chunking: text units are grouped greedily under a token budget, tables stay whole,
 overflowing texts are split into token windows, and the resulting chunks are linked.
 */
module Chunking {
  import opened Common
  import opened TextWindows
  import opened CanonicalTree

  // ------------------------------------------------------------------ merging

  /** Adjacent units of one chunk, or one overflowing unit that is to be split. */
  datatype Group = Merged(members: seq<Unit>) | Cut(unit: Unit)

  /** The texts of adjacent units, one per line. */
  function JoinText(members: seq<Unit>): string
    requires |members| > 0
  {
    var n := |members| - 1;
    if n == 0 then members[0].text else JoinText(members[..n]) + "\n" + members[n].text
  }

  function SpansOf(units: seq<Unit>): seq<Span> {
    if units == [] then [] else SpansOf(units[..|units| - 1]) + units[|units| - 1].spans
  }

  /** The first unit stays the citation target; text and spans are those of all of them. */
  function MergeAll(members: seq<Unit>): Unit
    requires |members| > 0
  {
    members[0].(text := JoinText(members), spans := SpansOf(members))
  }

  /** _merge_units. */
  function MergeUnits(first: Unit, second: Unit): Unit {
    Unit(first.node, first.start, first.end, first.text + "\n" + second.text, first.language, first.kind,
         first.ancestry, first.spans + second.spans)
  }

  lemma MergeExtends(members: seq<Unit>, next: Unit)
    requires |members| > 0
    ensures MergeAll(members + [next]) == MergeUnits(MergeAll(members), next)
    ensures JoinText(members + [next]) == JoinText(members) + "\n" + next.text
  {
    assert (members + [next])[..|members|] == members;
  }

  lemma MergeOfOne(u: Unit)
    ensures MergeAll([u]) == u && JoinText([u]) == u.text
  {
    assert SpansOf([u]) == SpansOf([u][..0]) + u.spans == u.spans;
  }

  function TotalWords(members: seq<Unit>): nat {
    if members == [] then 0 else TotalWords(members[..|members| - 1]) + Words(members[|members| - 1].text)
  }

  /** The line break between two texts splits no word. */
  lemma WordsOfLines(a: string, b: string)
    ensures Words(a + "\n" + b) == Words(a) + Words(b)
  {
    WordsOfCut(a, "\n");
    WordsOfCut(a + "\n", b);
    assert Words("\n") == 0 by {
      assert "\n"[..0] == "" && Space('\n');
    }
    assert Space((a + "\n")[|a|]) && Space((a + "\n" + b)[|a|]);
  }

  /** The estimate of a merged text is the sum of the estimates. */
  lemma {:induction false} WordsOfMerge(members: seq<Unit>)
    requires |members| > 0
    ensures Words(JoinText(members)) == TotalWords(members)
  {
    var n := |members| - 1;
    if n > 0 {
      WordsOfMerge(members[..n]);
      WordsOfLines(JoinText(members[..n]), members[n].text);
    } else {
      assert TotalWords(members[..0]) == 0;
    }
  }

  lemma {:induction false} TotalWordsGrows(members: seq<Unit>, n: nat)
    requires n < |members|
    ensures TotalWords(members[..n]) + Words(members[n].text) <= TotalWords(members)
    decreases |members|
  {
    var last := |members| - 1;
    if n < last {
      TotalWordsGrows(members[..last], n);
      assert members[..last][..n] == members[..n];
    }
  }

  // ----------------------------------------------------------------- grouping

  /** A unit that does not fit the budget and is not a table. */
  predicate Overflows(u: Unit, budget: nat) { !u.kind.Table? && Words(u.text) > budget }

  /** How many units the inner loop takes, having taken `n`. */
  function Extent(units: seq<Unit>, n: nat, budget: nat): (m: nat)
    requires 0 < n <= |units|
    ensures n <= m <= |units|
    decreases |units| - n
  {
    if n == |units| || units[n].kind.Heading? || Overflows(units[n], budget)
       || Words(JoinText(units[..n]) + "\n" + units[n].text) > budget then n
    else Extent(units, n + 1, budget)
  }

  /** How many units the next chunk takes. */
  function FirstExtent(units: seq<Unit>, budget: nat): (n: nat)
    requires |units| > 0
    ensures 0 < n <= |units|
  {
    var unit := units[0];
    if unit.kind.Table? || Words(unit.text) > budget then 1
    else if unit.kind.Heading? then
      if |units| > 1 && !units[1].kind.Table? && Words(unit.text + "\n" + units[1].text) <= budget then 2 else 1
    else Extent(units, 1, budget)
  }

  function FirstGroup(units: seq<Unit>, budget: nat): Group
    requires |units| > 0
  {
    if Overflows(units[0], budget) then Cut(units[0]) else Merged(units[..FirstExtent(units, budget)])
  }

  /** The groups _group_units forms, in order. */
  function Plan(units: seq<Unit>, budget: nat): seq<Group> {
    if units == [] then []
    else [FirstGroup(units, budget)] + Plan(units[FirstExtent(units, budget)..], budget)
  }

  /** The chunk drafts of one group. */
  function Render(group: Group, budget: nat): seq<Unit> {
    match group
    case Merged(members) => if members == [] then [] else [MergeAll(members)]
    case Cut(unit) => Pieces(unit, WindowsFrom(unit.text, 0, budget))
  }

  function Piece(unit: Unit, w: Window): Unit {
    var text := if w.start <= w.end <= |unit.text| then unit.text[w.start..w.end] else "";
    Unit(unit.node, w.start, w.end, text, unit.language, unit.kind, unit.ancestry, [Span(unit.node, w.start, w.end)])
  }

  function Pieces(unit: Unit, windows: seq<Window>): (r: seq<Unit>)
    ensures |r| == |windows|
    ensures forall i :: 0 <= i < |r| ==> r[i] == Piece(unit, windows[i])
  {
    seq(|windows|, i requires 0 <= i < |windows| => Piece(unit, windows[i]))
  }

  function Drafts(plan: seq<Group>, budget: nat): seq<Unit> {
    if plan == [] then [] else Render(plan[0], budget) + Drafts(plan[1..], budget)
  }

  /** _split_unit. */
  method SplitUnit(unit: Unit, budget: nat) returns (pieces: seq<Unit>)
    ensures pieces == Render(Cut(unit), budget)
  {
    var windows := Windows(unit.text, budget);
    pieces := Pieces(unit, windows);
  }

  lemma DraftsStep(units: seq<Unit>, index: nat, budget: nat)
    requires index < |units|
    ensures var rest := units[index..];
            Drafts(Plan(rest, budget), budget)
            == Render(FirstGroup(rest, budget), budget)
               + Drafts(Plan(units[index + FirstExtent(rest, budget)..], budget), budget)
  {
    var rest := units[index..];
    var n := FirstExtent(rest, budget);
    assert rest[n..] == units[index + n..];
    var plan := Plan(rest, budget);
    assert plan[0] == FirstGroup(rest, budget) && plan[1..] == Plan(rest[n..], budget);
  }

  /** The inner loop stops at this unit. */
  predicate Stops(cursor: Unit, candidate: Unit, budget: nat) {
    || candidate.kind.Heading?
    || (Words(candidate.text) > budget && !candidate.kind.Table?)
    || Words(cursor.text + "\n" + candidate.text) > budget
  }

  /** The inner loop has taken the first `n` units. */
  ghost predicate Absorbed(units: seq<Unit>, n: nat, cursor: Unit, budget: nat) {
    && 0 < n <= |units|
    && Extent(units, 1, budget) == Extent(units, n, budget)
    && cursor == MergeAll(units[..n])
  }

  lemma AbsorbFirst(units: seq<Unit>, budget: nat)
    requires units != []
    ensures Absorbed(units, 1, units[0], budget)
  {
    MergeOfOne(units[0]);
    assert units[..1] == [units[0]];
  }

  lemma AbsorbStep(units: seq<Unit>, n: nat, cursor: Unit, budget: nat)
    requires Absorbed(units, n, cursor, budget) && n < |units|
    ensures if Stops(cursor, units[n], budget) then Extent(units, 1, budget) == n
            else Absorbed(units, n + 1, MergeUnits(cursor, units[n]), budget)
  {
    MergeExtends(units[..n], units[n]);
    assert units[..n] + [units[n]] == units[..n + 1];
  }

  lemma AbsorbedSlice(units: seq<Unit>, index: nat, position: nat, cursor: Unit, budget: nat)
    requires index < position <= |units| && Absorbed(units[index..], position - index, cursor, budget)
    ensures cursor == MergeAll(units[index..position])
    ensures position == |units| ==> Extent(units[index..], 1, budget) == position - index
  {
    assert units[index..][..position - index] == units[index..position];
  }

  /** The inner loop of _group_units: absorb the following units while they fit. */
  method Absorb(units: seq<Unit>, index: nat, budget: nat) returns (cursor: Unit, position: nat)
    requires index < |units|
    ensures position == index + Extent(units[index..], 1, budget)
    ensures index < position <= |units| && cursor == MergeAll(units[index..position])
  {
    ghost var rest := units[index..];
    cursor, position := units[index], index + 1;
    AbsorbFirst(rest, budget);
    while position < |units|
      invariant index < position <= |units| && Absorbed(rest, position - index, cursor, budget)
    {
      var candidate := units[position];
      AbsorbStep(rest, position - index, cursor, budget);
      if Stops(cursor, candidate, budget) {
        break;
      }
      cursor := MergeUnits(cursor, candidate);
      position := position + 1;
    }
    AbsorbedSlice(units, index, position, cursor, budget);
  }

  /** One round of the outer loop of _group_units: what it appends and where it goes on. */
  method NextGroup(units: seq<Unit>, index: nat, budget: nat) returns (drafts: seq<Unit>, next: nat)
    requires index < |units|
    ensures next == index + FirstExtent(units[index..], budget)
    ensures drafts == Render(FirstGroup(units[index..], budget), budget)
  {
    ghost var rest := units[index..];
    var unit := units[index];
    assert rest[0] == unit && rest[..1] == [unit];
    MergeOfOne(unit);
    if unit.kind.Table? {
      return [unit], index + 1;
    }
    if Words(unit.text) > budget {
      drafts := SplitUnit(unit, budget);
      return drafts, index + 1;
    }
    if unit.kind.Heading? {
      if index + 1 < |units| && !units[index + 1].kind.Table?
         && Words(unit.text + "\n" + units[index + 1].text) <= budget {
        MergeExtends([unit], units[index + 1]);
        assert rest[..2] == [unit] + [units[index + 1]];
        return [MergeUnits(unit, units[index + 1])], index + 2;
      }
      return [unit], index + 1;
    }
    var cursor, position := Absorb(units, index, budget);
    assert rest[..position - index] == units[index..position];
    return [cursor], position;
  }

  /** _group_units. */
  method GroupUnits(units: seq<Unit>, budget: nat) returns (grouped: seq<Unit>)
    ensures grouped == Drafts(Plan(units, budget), budget)
  {
    grouped := [];
    var index := 0;
    assert units[0..] == units;
    ghost var rest := Drafts(Plan(units, budget), budget);
    while index < |units|
      invariant index <= |units|
      invariant rest == Drafts(Plan(units[index..], budget), budget)
      invariant Drafts(Plan(units, budget), budget) == grouped + rest
      decreases |units| - index
    {
      var drafts, next := NextGroup(units, index, budget);
      DraftsStep(units, index, budget);
      rest := Drafts(Plan(units[next..], budget), budget);
      Associate(grouped, drafts, rest);
      grouped, index := grouped + drafts, next;
    }
  }

  // ------------------------------------------------- what a valid plan is

  function Members(group: Group): seq<Unit> {
    match group
    case Merged(members) => members
    case Cut(unit) => [unit]
  }

  function Flatten(plan: seq<Group>): seq<Unit> {
    if plan == [] then [] else Members(plan[0]) + Flatten(plan[1..])
  }

  /**
   A cut unit overflows and is no table; a merged group is one table, or fits the budget, has no
   heading after a unit that is not one, and a heading brings at most one unit along.
   */
  predicate GroupOk(group: Group, budget: nat) {
    match group
    case Cut(unit) => !unit.kind.Table? && Words(unit.text) > budget
    case Merged(m) =>
      && |m| > 0
      && (if m[0].kind.Table? then |m| == 1 else TotalWords(m) <= budget)
      && (if m[0].kind.Heading? then |m| == 1 || (|m| == 2 && !m[1].kind.Table?)
          else forall i :: 0 < i < |m| ==> !m[i].kind.Heading?)
  }

  /** The unit could have joined the group. */
  predicate CouldTake(group: Group, u: Unit, budget: nat) {
    && group.Merged?
    && group.members != []
    && !group.members[0].kind.Table?
    && (if group.members[0].kind.Heading? then |group.members| == 1 && !u.kind.Table? else !u.kind.Heading?)
    && TotalWords(group.members) + Words(u.text) <= budget
  }

  ghost predicate GroupsOk(plan: seq<Group>, budget: nat) {
    forall g :: g in plan ==> GroupOk(g, budget)
  }

  /** No group could have taken the first unit of the group after it. */
  ghost predicate Greedy(plan: seq<Group>, budget: nat) {
    forall k :: 0 <= k < |plan| - 1 && Members(plan[k + 1]) != [] ==>
      !CouldTake(plan[k], Members(plan[k + 1])[0], budget)
  }

  ghost predicate ValidPlan(plan: seq<Group>, units: seq<Unit>, budget: nat) {
    Flatten(plan) == units && GroupsOk(plan, budget) && Greedy(plan, budget)
  }

  lemma {:induction false} ExtentOk(units: seq<Unit>, n: nat, budget: nat)
    requires 0 < n <= |units| && GroupOk(Merged(units[..n]), budget)
    requires !units[0].kind.Table? && !units[0].kind.Heading?
    ensures var m := Extent(units, n, budget);
            && GroupOk(Merged(units[..m]), budget)
            && (m < |units| ==> !CouldTake(Merged(units[..m]), units[m], budget))
    decreases |units| - n
  {
    if n < |units| {
      WordsOfMerge(units[..n]);
      WordsOfLines(JoinText(units[..n]), units[n].text);
      var more := units[..n + 1];
      assert more[..n] == units[..n] && more[n] == units[n];
      if Extent(units, n, budget) != n {
        ExtentOk(units, n + 1, budget);
      }
    }
  }

  lemma TotalWordsOfOne(u: Unit)
    ensures TotalWords([u]) == Words(u.text)
  {
    assert [u][..0] == [];
  }

  lemma FirstGroupOk(units: seq<Unit>, budget: nat)
    requires units != []
    ensures GroupOk(FirstGroup(units, budget), budget)
    ensures Members(FirstGroup(units, budget)) == units[..FirstExtent(units, budget)]
    ensures FirstExtent(units, budget) < |units|
        ==> !CouldTake(FirstGroup(units, budget), units[FirstExtent(units, budget)], budget)
  {
    var unit := units[0];
    assert units[..1] == [unit];
    TotalWordsOfOne(unit);
    if !unit.kind.Table? && Words(unit.text) <= budget {
      if unit.kind.Heading? {
        if |units| > 1 {
          WordsOfLines(unit.text, units[1].text);
          assert units[..2][..1] == [unit];
          assert TotalWords(units[..2]) == Words(unit.text) + Words(units[1].text);
        }
      } else {
        ExtentOk(units, 1, budget);
      }
    }
  }

  /** Grouping loses, repeats and reorders no unit, keeps the budget, and closes a group only when it must. */
  lemma {:induction false} PlanIsValid(units: seq<Unit>, budget: nat)
    ensures ValidPlan(Plan(units, budget), units, budget)
    decreases |units|
  {
    if units != [] {
      var n := FirstExtent(units, budget);
      var plan, rest := Plan(units, budget), Plan(units[n..], budget);
      FirstGroupOk(units, budget);
      PlanIsValid(units[n..], budget);
      assert plan == [FirstGroup(units, budget)] + rest;
      assert units[..n] + units[n..] == units;
      assert rest != [] ==> Members(rest[0])[0] == units[n] by {
        if rest != [] { FirstGroupOk(units[n..], budget); }
      }
    }
  }

  /** A group that a larger valid group extends could have taken one more unit. */
  lemma PrefixCouldTake(m: seq<Unit>, n: seq<Unit>, budget: nat)
    requires GroupOk(Merged(n), budget) && m != [] && m <= n
    ensures m != n ==> CouldTake(Merged(m), n[|m|], budget)
  {
    if m != n {
      assert n[..|m|] == m;
      TotalWordsGrows(n, |m|);
    }
  }

  lemma PrefixesAgree(a: Group, b: Group, units: seq<Unit>, budget: nat)
    requires GroupOk(a, budget) && GroupOk(b, budget) && Members(a) <= units && Members(b) <= units
    requires |Members(a)| <= |Members(b)|
    requires |Members(a)| < |units| ==> !CouldTake(a, units[|Members(a)|], budget)
    ensures a == b
  {
    var m, n := Members(a), Members(b);
    assert m[0] == units[0] == n[0];
    TotalWordsOfOne(units[0]);
    TotalWordsGrows(m, 0);
    TotalWordsGrows(n, 0);
    assert m <= n;
    if a.Merged? && b.Merged? {
      PrefixCouldTake(m, n, budget);
    }
  }

  lemma FirstGroupForced(plan: seq<Group>, units: seq<Unit>, budget: nat)
    requires ValidPlan(plan, units, budget) && units != []
    ensures plan != [] && plan[0] == FirstGroup(units, budget)
  {
    var a, b := plan[0], FirstGroup(units, budget);
    FirstGroupOk(units, budget);
    assert a in plan;
    var m := |Members(a)|;
    if m < |units| {
      assert plan[1..] != [] && Flatten(plan[1..])[0] == units[m];
      assert plan[1] in plan;
      assert Members(plan[0 + 1])[0] == units[m];
    }
    if |Members(a)| <= |Members(b)| {
      PrefixesAgree(a, b, units, budget);
    } else {
      PrefixesAgree(b, a, units, budget);
    }
  }

  /** The plan is the only one with these properties. */
  lemma {:induction false} PlanIsUnique(plan: seq<Group>, units: seq<Unit>, budget: nat)
    requires ValidPlan(plan, units, budget)
    ensures plan == Plan(units, budget)
    decreases |units|
  {
    if units == [] {
      assert forall g :: g in plan ==> Members(g) != [];
    } else {
      FirstGroupForced(plan, units, budget);
      FirstGroupOk(units, budget);
      var n := FirstExtent(units, budget);
      assert Flatten(plan[1..]) == units[n..];
      forall k | 0 <= k < |plan[1..]| - 1 && Members(plan[1..][k + 1]) != []
        ensures !CouldTake(plan[1..][k], Members(plan[1..][k + 1])[0], budget)
      {
        assert plan[1..][k] == plan[k + 1] && plan[1..][k + 1] == plan[(k + 1) + 1];
      }
      PlanIsUnique(plan[1..], units[n..], budget);
      assert plan == [plan[0]] + plan[1..];
    }
  }

  // ----------------------------------------------------------- what chunks hold

  /** Every chunk is within the budget, or is one table exactly as it was. */
  predicate WithinBudget(d: Unit, units: seq<Unit>, budget: nat) {
    Words(d.text) <= budget || (d.kind.Table? && d in units)
  }

  lemma RenderWithin(group: Group, budget: nat, d: Unit)
    requires budget >= 1 && GroupOk(group, budget) && d in Render(group, budget)
    ensures WithinBudget(d, Members(group), budget)
  {
    match group {
      case Merged(m) =>
        WordsOfMerge(m);
        if m[0].kind.Table? {
          assert m == [m[0]];
          MergeOfOne(m[0]);
        }
      case Cut(unit) =>
        WindowsTile(unit.text, 0, budget);
        var windows := WindowsFrom(unit.text, 0, budget);
        var i :| 0 <= i < |windows| && d == Piece(unit, windows[i]);
        assert windows[i] in windows && WindowOk(unit.text, budget, windows[i]);
    }
  }

  lemma {:induction false} DraftsWithin(plan: seq<Group>, budget: nat, d: Unit)
    requires budget >= 1 && GroupsOk(plan, budget) && d in Drafts(plan, budget)
    ensures WithinBudget(d, Flatten(plan), budget)
    decreases |plan|
  {
    assert plan[0] in plan;
    if d in Render(plan[0], budget) {
      RenderWithin(plan[0], budget, d);
    } else {
      DraftsWithin(plan[1..], budget, d);
    }
  }

  // ---------------------------------------------------------------- rejoining

  /** Consecutive spans of one node are joined again. */
  function Rejoin(spans: seq<Span>): (r: seq<Span>)
    ensures spans != [] ==> r != [] && r[0].node == spans[0].node && r[0].start == spans[0].start
    decreases |spans|
  {
    if |spans| <= 1 then spans
    else
      var r := Rejoin(spans[1..]);
      if spans[0].node == spans[1].node && spans[0].end == spans[1].start
      then [Span(spans[0].node, spans[0].start, r[0].end)] + r[1..]
      else [spans[0]] + r
  }

  lemma RejoinPush(s: Span, t: seq<Span>)
    ensures (t == [] || t[0].node != s.node) ==> Rejoin([s] + t) == [s] + Rejoin(t)
    ensures t != [] && t[0].node == s.node && t[0].start == s.end ==>
      Rejoin([s] + t) == [Span(s.node, s.start, Rejoin(t)[0].end)] + Rejoin(t)[1..]
  {
    assert ([s] + t)[1..] == t;
  }

  lemma {:induction false} SpansAppend(a: seq<Unit>, b: seq<Unit>)
    ensures SpansOf(a + b) == SpansOf(a) + SpansOf(b)
    decreases |b|
  {
    if b == [] {
      assert a + b == a;
    } else {
      var n := |b| - 1;
      assert (a + b)[..|a| + n] == a + b[..n];
      SpansAppend(a, b[..n]);
    }
  }

  lemma SpansFirst(u: Unit, rest: seq<Unit>)
    ensures SpansOf([u] + rest) == u.spans + SpansOf(rest)
  {
    SpansAppend([u], rest);
    MergeOfOne(u);
    assert SpansOf([u]) == u.spans;
  }

  /** The windows of one cut text join up again. */
  lemma {:induction false} PiecesRejoin(unit: Unit, windows: seq<Window>, from: nat, to: nat, after: seq<Span>)
    requires Tiles(windows, from, to) && windows != []
    requires after == [] || after[0].node != unit.node
    ensures SpansOf(Pieces(unit, windows)) != [] &&
            SpansOf(Pieces(unit, windows))[0] == Span(unit.node, from, windows[0].end)
    ensures Rejoin(SpansOf(Pieces(unit, windows)) + after) == [Span(unit.node, from, to)] + Rejoin(after)
    decreases |windows|
  {
    var w, rest := windows[0], windows[1..];
    var s := Span(unit.node, w.start, w.end);
    assert Pieces(unit, windows) == [Piece(unit, w)] + Pieces(unit, rest);
    SpansFirst(Piece(unit, w), Pieces(unit, rest));
    var t := SpansOf(Pieces(unit, rest)) + after;
    assert SpansOf(Pieces(unit, windows)) + after == [s] + t;
    RejoinPush(s, t);
    if rest == [] {
      assert SpansOf(Pieces(unit, rest)) == [] && t == after;
    } else {
      PiecesRejoin(unit, rest, w.end, to, after);
    }
  }

  /** What the walk guarantees of its units: whole, not empty, of different nodes. */
  ghost predicate WholeUnits(units: seq<Unit>) {
    && DistinctNodes(units)
    && forall i :: 0 <= i < |units| ==>
      units[i].text != "" && units[i].start == 0 && units[i].end == |units[i].text|
      && units[i].spans == [Span(units[i].node, 0, |units[i].text|)]
  }

  lemma WholeParts(a: seq<Unit>, b: seq<Unit>)
    requires WholeUnits(a + b)
    ensures WholeUnits(a) && WholeUnits(b)
    ensures forall i, j :: 0 <= i < |a| && 0 <= j < |b| ==> a[i].node != b[j].node
  {
    forall i | 0 <= i < |a| ensures (a + b)[i] == a[i] { }
    forall j | 0 <= j < |b| ensures (a + b)[|a| + j] == b[j] { }
    forall i, j | 0 <= i < j < |b| ensures b[i].node != b[j].node {
      assert (a + b)[|a| + i].node != (a + b)[|a| + j].node;
    }
    forall i, j | 0 <= i < |a| && 0 <= j < |b| ensures a[i].node != b[j].node {
      assert (a + b)[i].node != (a + b)[|a| + j].node;
    }
  }

  lemma PushWhole(s: Span, more: seq<Span>, after: seq<Span>)
    requires more + after == [] || (more + after)[0].node != s.node
    requires Rejoin(more + after) == more + Rejoin(after)
    ensures Rejoin([s] + more + after) == [s] + more + Rejoin(after)
  {
    assert [s] + more + after == [s] + (more + after);
    RejoinPush(s, more + after);
  }

  /** Whole spans of different nodes are left as they are. */
  lemma {:induction false} WholeRejoin(units: seq<Unit>, after: seq<Span>)
    requires WholeUnits(units)
    requires after == [] || forall i :: 0 <= i < |units| ==> units[i].node != after[0].node
    ensures Rejoin(SpansOf(units) + after) == SpansOf(units) + Rejoin(after)
    ensures units != [] ==> SpansOf(units) != [] && SpansOf(units)[0].node == units[0].node
    decreases |units|
  {
    if units == [] {
      assert SpansOf(units) + after == after;
    } else {
      var u, rest := units[0], units[1..];
      assert units == [u] + rest;
      WholeParts([u], rest);
      SpansFirst(u, rest);
      WholeRejoin(rest, after);
      var s, more := u.spans[0], SpansOf(rest);
      assert more + after == [] || (more + after)[0].node != s.node by {
        if rest == [] { assert more == []; }
      }
      PushWhole(s, more, after);
    }
  }

  lemma {:induction false} RenderRejoins(group: Group, budget: nat, after: seq<Span>)
    requires budget >= 1 && GroupOk(group, budget) && WholeUnits(Members(group))
    requires after == [] || forall i :: 0 <= i < |Members(group)| ==> Members(group)[i].node != after[0].node
    ensures Rejoin(SpansOf(Render(group, budget)) + after) == SpansOf(Members(group)) + Rejoin(after)
    ensures var spans := SpansOf(Render(group, budget)); spans != [] && spans[0].node == Members(group)[0].node
  {
    WholeRejoin(Members(group), after);
    match group {
      case Merged(m) =>
        MergeOfOne(MergeAll(m));
      case Cut(unit) =>
        assert Members(group)[0] == unit;
        MergeOfOne(unit);
        WindowsTile(unit.text, 0, budget);
        var windows := WindowsFrom(unit.text, 0, budget);
        PiecesRejoin(unit, windows, 0, |unit.text|, after);
    }
  }

  /** The spans of all chunks, split windows rejoined, are the spans of all units, in order. */
  lemma {:induction false} SpansConserved(plan: seq<Group>, budget: nat)
    requires budget >= 1 && GroupsOk(plan, budget) && WholeUnits(Flatten(plan))
    ensures Rejoin(SpansOf(Drafts(plan, budget))) == SpansOf(Flatten(plan))
    ensures var spans := SpansOf(Drafts(plan, budget));
            if plan == [] then spans == [] else spans != [] && spans[0].node == Flatten(plan)[0].node
    decreases |plan|
  {
    if plan != [] {
      assert plan[0] in plan;
      var here, rest := Members(plan[0]), Flatten(plan[1..]);
      WholeParts(here, rest);
      SpansConserved(plan[1..], budget);
      var after := SpansOf(Drafts(plan[1..], budget));
      assert plan[1..] != [] ==> |rest| > 0 by {
        if plan[1..] != [] { assert plan[1..][0] in plan; }
      }
      assert after == [] || forall i :: 0 <= i < |here| ==> here[i].node != after[0].node;
      RenderRejoins(plan[0], budget, after);
      SpansAppend(Render(plan[0], budget), Drafts(plan[1..], budget));
      SpansAppend(here, rest);
    }
  }

  /** The texts of some pieces, one after the other. */
  function AllText(units: seq<Unit>): string {
    if units == [] then "" else units[0].text + AllText(units[1..])
  }

  lemma {:induction false} PiecesText(unit: Unit, windows: seq<Window>, from: nat, to: nat)
    requires Tiles(windows, from, to) && to <= |unit.text|
    ensures from <= to && AllText(Pieces(unit, windows)) == unit.text[from..to]
    decreases |windows|
  {
    if windows != [] {
      var w, rest := windows[0], windows[1..];
      PiecesText(unit, rest, w.end, to);
      assert Pieces(unit, windows)[1..] == Pieces(unit, rest);
      assert unit.text[from..to] == unit.text[from..w.end] + unit.text[w.end..to];
    }
  }

  /** Whatever the units: a merged group keeps its members' spans in order, and a cut one gives back its text. */
  lemma GroupConserves(group: Group, budget: nat)
    requires budget >= 1 && GroupOk(group, budget)
    ensures group.Merged? ==> SpansOf(Render(group, budget)) == SpansOf(group.members)
    ensures group.Cut? ==> AllText(Render(group, budget)) == group.unit.text
  {
    match group {
      case Merged(m) =>
        MergeOfOne(MergeAll(m));
        assert SpansOf([MergeAll(m)]) == SpansOf([MergeAll(m)][..0]) + MergeAll(m).spans;
      case Cut(unit) =>
        WindowsTile(unit.text, 0, budget);
        PiecesText(unit, WindowsFrom(unit.text, 0, budget), 0, |unit.text|);
    }
  }

  // ---------------------------------------------------------------- citations

  /** The text a span points at. */
  function Quote(units: seq<Unit>, s: Span): string {
    if units == [] then ""
    else if units[0].node == s.node then
      if s.start <= s.end <= |units[0].text| then units[0].text[s.start..s.end] else ""
    else Quote(units[1..], s)
  }

  /** The texts the spans point at, one per line. */
  function QuoteLines(units: seq<Unit>, spans: seq<Span>): string
    requires spans != []
  {
    var n := |spans| - 1;
    if n == 0 then Quote(units, spans[0]) else QuoteLines(units, spans[..n]) + "\n" + Quote(units, spans[n])
  }

  /** A chunk cites its first span, reads exactly as its spans do, and describes the cited unit. */
  ghost predicate CitationOk(units: seq<Unit>, d: Unit) {
    && d.spans != [] && d.spans[0] == Span(d.node, d.start, d.end)
    && d.text == QuoteLines(units, d.spans)
    && exists k: nat :: k < |units| && Describes(units[k], d)
  }

  predicate Describes(u: Unit, d: Unit) {
    && u.node == d.node && u.language == d.language && u.kind == d.kind && u.ancestry == d.ancestry
    && d.start < d.end <= |u.text|
  }

  lemma {:induction false} QuoteOf(units: seq<Unit>, k: nat, start: nat, end: nat)
    requires DistinctNodes(units) && k < |units| && start <= end <= |units[k].text|
    ensures Quote(units, Span(units[k].node, start, end)) == units[k].text[start..end]
    decreases k
  {
    if k > 0 {
      QuoteOf(units[1..], k - 1, start, end);
    }
  }

  /** The merged text of these units reads as their spans do, from the first one's beginning. */
  ghost predicate LinesOk(units: seq<Unit>, m: seq<Unit>) {
    && m != [] && SpansOf(m) != [] && SpansOf(m)[0] == Span(m[0].node, 0, |m[0].text|)
    && JoinText(m) == QuoteLines(units, SpansOf(m))
  }

  lemma LinesOne(units: seq<Unit>, last: Unit)
    requires last.spans == [Span(last.node, 0, |last.text|)] && Quote(units, last.spans[0]) == last.text
    ensures LinesOk(units, [last])
  {
    MergeOfOne(last);
    assert SpansOf([last]) == last.spans;
  }

  lemma LinesPush(units: seq<Unit>, front: seq<Unit>, last: Unit)
    requires last.spans == [Span(last.node, 0, |last.text|)] && Quote(units, last.spans[0]) == last.text
    requires LinesOk(units, front)
    ensures LinesOk(units, front + [last])
  {
    assert (front + [last])[..|front|] == front;
    var spans := SpansOf(front) + last.spans;
    assert spans[..|spans| - 1] == SpansOf(front);
  }

  /** Adjacent whole units, wherever they stand among all of them. */
  lemma {:induction false} LinesOfMerge(units: seq<Unit>, lo: nat, hi: nat)
    requires WholeUnits(units) && lo < hi <= |units|
    ensures LinesOk(units, units[lo..hi])
    decreases hi - lo
  {
    var last := units[hi - 1];
    QuoteOf(units, hi - 1, 0, |last.text|);
    assert last.text[0..|last.text|] == last.text;
    if lo + 1 == hi {
      assert units[lo..hi] == [last];
      LinesOne(units, last);
    } else {
      LinesOfMerge(units, lo, hi - 1);
      assert units[lo..hi] == units[lo..hi - 1] + [last];
      LinesPush(units, units[lo..hi - 1], last);
    }
  }

  lemma RenderCites(units: seq<Unit>, lo: nat, hi: nat, group: Group, budget: nat, d: Unit)
    requires WholeUnits(units) && lo < hi <= |units| && budget >= 1
    requires Members(group) == units[lo..hi] && d in Render(group, budget)
    ensures CitationOk(units, d)
  {
    match group {
      case Merged(m) =>
        LinesOfMerge(units, lo, hi);
        assert m[0] == units[lo] && Describes(units[lo], d);
      case Cut(unit) =>
        assert unit == units[lo..hi][0] == units[lo];
        WindowsTile(unit.text, 0, budget);
        var windows := WindowsFrom(unit.text, 0, budget);
        var i :| 0 <= i < |windows| && d == Piece(unit, windows[i]);
        assert windows[i] in windows && WindowOk(unit.text, budget, windows[i]);
        QuoteOf(units, lo, windows[i].start, windows[i].end);
        assert Describes(units[lo], d);
    }
  }

  /** The group a chunk comes from. */
  lemma {:induction false} DraftGroup(plan: seq<Group>, budget: nat, d: Unit) returns (k: nat)
    requires d in Drafts(plan, budget)
    ensures k < |plan| && d in Render(plan[k], budget)
    decreases |plan|
  {
    k := 0;
    if d !in Render(plan[0], budget) {
      var j := DraftGroup(plan[1..], budget, d);
      k := j + 1;
    }
  }

  /** Where the members of a group stand. */
  lemma {:induction false} MembersStand(plan: seq<Group>, k: nat) returns (lo: nat)
    requires k < |plan|
    ensures StandsAt(Flatten(plan), lo, Members(plan[k]))
    decreases k
  {
    var first, rest := Members(plan[0]), plan[1..];
    if k == 0 {
      lo := 0;
      StandsFirst(first, Flatten(rest));
    } else {
      var from := MembersStand(rest, k - 1);
      lo := |first| + from;
      StandsLater(first, Flatten(rest), from, Members(plan[k]));
    }
  }

  /** `part` stands in the list at position `lo`. */
  predicate StandsAt(units: seq<Unit>, lo: nat, part: seq<Unit>) {
    lo + |part| <= |units| && units[lo..lo + |part|] == part
  }

  lemma StandsFirst(first: seq<Unit>, rest: seq<Unit>)
    ensures StandsAt(first + rest, 0, first)
  {
  }

  lemma StandsLater(first: seq<Unit>, rest: seq<Unit>, lo: nat, part: seq<Unit>)
    requires StandsAt(rest, lo, part)
    ensures StandsAt(first + rest, |first| + lo, part)
  {
    assert (first + rest)[|first| + lo..|first| + lo + |part|] == rest[lo..lo + |part|];
  }

  lemma DraftsCite(plan: seq<Group>, budget: nat, d: Unit)
    requires WholeUnits(Flatten(plan)) && budget >= 1 && GroupsOk(plan, budget) && d in Drafts(plan, budget)
    ensures CitationOk(Flatten(plan), d)
  {
    var k := DraftGroup(plan, budget, d);
    var lo := MembersStand(plan, k);
    GroupCites(Flatten(plan), lo, plan[k], budget, d) by {
      assert plan[k] in plan;
    }
  }

  lemma GroupCites(units: seq<Unit>, lo: nat, group: Group, budget: nat, d: Unit)
    requires WholeUnits(units) && budget >= 1 && GroupOk(group, budget) && StandsAt(units, lo, Members(group))
    requires d in Render(group, budget)
    ensures CitationOk(units, d)
  {
    RenderCites(units, lo, lo + |Members(group)|, group, budget, d);
  }

  // --------------------------------------------------------------------- keys

  predicate SameKey(a: Unit, b: Unit) { a.node == b.node && a.start == b.start && a.end == b.end }

  predicate DistinctKeys(drafts: seq<Unit>) {
    forall i, j :: 0 <= i < j < |drafts| ==> !SameKey(drafts[i], drafts[j])
  }

  lemma RenderKeys(group: Group, budget: nat)
    requires budget >= 1 && GroupOk(group, budget)
    ensures DistinctKeys(Render(group, budget))
  {
    if group.Cut? {
      var windows := WindowsFrom(group.unit.text, 0, budget);
      WindowsTile(group.unit.text, 0, budget);
      forall i, j | 0 <= i < j < |windows| ensures windows[i].start != windows[j].start {
        TilesIncrease(windows, 0, |group.unit.text|, i, j);
      }
    }
  }

  lemma RenderNode(group: Group, budget: nat, d: Unit)
    requires Members(group) != [] && d in Render(group, budget)
    ensures d.node == Members(group)[0].node
  {
  }

  lemma GroupsTail(plan: seq<Group>, budget: nat)
    requires GroupsOk(plan, budget) && plan != []
    ensures GroupOk(plan[0], budget) && GroupsOk(plan[1..], budget) && Members(plan[0]) != []
  {
    assert plan[0] in plan;
  }

  /** A draft is one of the first group's, and cites its first member, or a later one. */
  lemma {:induction false} DraftsTail(plan: seq<Group>, budget: nat, d: Unit)
    requires GroupsOk(plan, budget) && d in Drafts(plan, budget)
    ensures plan != [] && Members(plan[0]) != [] && GroupsOk(plan[1..], budget)
    ensures d.node == Members(plan[0])[0].node || d in Drafts(plan[1..], budget)
  {
    GroupsTail(plan, budget);
    if d in Render(plan[0], budget) { RenderNode(plan[0], budget, d); }
  }

  lemma JoinIndex<T>(a: seq<T>, b: seq<T>, j: nat)
    requires j < |b|
    ensures (a + b)[|a| + j] == b[j]
  {
  }

  lemma {:induction false} DraftNode(plan: seq<Group>, budget: nat, d: Unit) returns (k: nat)
    requires budget >= 1 && GroupsOk(plan, budget) && d in Drafts(plan, budget)
    ensures k < |Flatten(plan)| && Flatten(plan)[k].node == d.node
    decreases |plan|
  {
    DraftsTail(plan, budget, d);
    if d.node == Members(plan[0])[0].node {
      k := 0;
    } else {
      var j := DraftNode(plan[1..], budget, d);
      k := |Members(plan[0])| + j;
      JoinIndex(Members(plan[0]), Flatten(plan[1..]), j);
    }
  }

  /** No two chunks share node, start and end. */
  lemma {:induction false} KeysDistinct(plan: seq<Group>, budget: nat)
    requires budget >= 1 && GroupsOk(plan, budget) && WholeUnits(Flatten(plan))
    ensures DistinctKeys(Drafts(plan, budget))
    decreases |plan|
  {
    if plan != [] {
      assert plan[0] in plan;
      var here, rest := Members(plan[0]), Flatten(plan[1..]);
      var first, later := Render(plan[0], budget), Drafts(plan[1..], budget);
      WholeParts(here, rest);
      RenderKeys(plan[0], budget);
      KeysDistinct(plan[1..], budget);
      forall i, j | 0 <= i < |first| && 0 <= j < |later| ensures first[i].node != later[j].node {
        assert first[i] in first && later[j] in later;
        RenderNode(plan[0], budget, first[i]);
        var k := DraftNode(plan[1..], budget, later[j]);
        assert here[0].node != rest[k].node;
      }
      KeysJoin(first, later);
    }
  }

  lemma KeysJoin(a: seq<Unit>, b: seq<Unit>)
    requires DistinctKeys(a) && DistinctKeys(b)
    requires forall i, j :: 0 <= i < |a| && 0 <= j < |b| ==> a[i].node != b[j].node
    ensures DistinctKeys(a + b)
  {
  }

  // ------------------------------------------------------------------ linking

  datatype Profile = Profile(revision: string, maxTokens: int)

  /** canonical_chunk_id: an injective function of node, revision and span. */
  datatype ChunkId = ChunkId(node: nat, revision: string, start: nat, end: nat)

  datatype Chunk = Chunk(id: ChunkId, draft: Unit, tokens: nat, order: nat, prev: Option<ChunkId>,
                         next: Option<ChunkId>)

  datatype Chunking = Chunked(chunks: seq<Chunk>) | ProfileRefused

  function IdOf(d: Unit, revision: string): ChunkId { ChunkId(d.node, revision, d.start, d.end) }

  /** The chunk at one position, linked to its neighbours. */
  function LinkedAt(drafts: seq<Unit>, revision: string, i: nat): Chunk
    requires i < |drafts|
  {
    Chunk(IdOf(drafts[i], revision), drafts[i], Words(drafts[i].text), i,
          if i > 0 then Some(IdOf(drafts[i - 1], revision)) else None,
          if i + 1 < |drafts| then Some(IdOf(drafts[i + 1], revision)) else None)
  }

  function Linked(drafts: seq<Unit>, revision: string): (r: seq<Chunk>)
    ensures |r| == |drafts|
  {
    seq(|drafts|, i requires 0 <= i < |drafts| => LinkedAt(drafts, revision, i))
  }

  /** chunk_document: collect, group, number, then link each chunk to its neighbours in place. */
  method ChunkDocument(doc: Doc, profile: Profile) returns (r: Chunking)
    requires WellFormed(doc)
    ensures profile.maxTokens < 1 ==> r == ProfileRefused
    ensures profile.maxTokens >= 1 ==>
      && r == Chunked(Linked(Drafts(Plan(WalkRoots(doc, doc.roots), profile.maxTokens), profile.maxTokens),
                             profile.revision))
      && ChunksOk(WalkRoots(doc, doc.roots), r.chunks, profile)
  {
    if profile.maxTokens < 1 {
      return ProfileRefused;
    }
    var units := CollectUnits(doc);
    var drafts := GroupUnits(units, profile.maxTokens);
    var chunks := Number(drafts, profile.revision);
    chunks := Link(chunks, drafts, profile.revision);
    r := Chunked(chunks);
    WalkUnitsWhole(doc);
    ChunksOfUnits(units, profile);
  }

  /** The chunk at one position before linking. */
  function UnlinkedAt(drafts: seq<Unit>, revision: string, i: nat): Chunk
    requires i < |drafts|
  {
    Chunk(IdOf(drafts[i], revision), drafts[i], Words(drafts[i].text), i, None, None)
  }

  method Number(drafts: seq<Unit>, revision: string) returns (chunks: seq<Chunk>)
    ensures |chunks| == |drafts| && forall i :: 0 <= i < |drafts| ==> chunks[i] == UnlinkedAt(drafts, revision, i)
  {
    chunks := [];
    for order := 0 to |drafts|
      invariant |chunks| == order && forall i :: 0 <= i < order ==> chunks[i] == UnlinkedAt(drafts, revision, i)
    {
      var d := drafts[order];
      chunks := chunks + [Chunk(IdOf(d, revision), d, Words(d.text), order, None, None)];
    }
  }

  /** The second loop: each chunk is linked to its neighbours in place. */
  method Link(unlinked: seq<Chunk>, ghost drafts: seq<Unit>, ghost revision: string) returns (chunks: seq<Chunk>)
    requires |unlinked| == |drafts| && forall i :: 0 <= i < |drafts| ==> unlinked[i] == UnlinkedAt(drafts, revision, i)
    ensures chunks == Linked(drafts, revision)
  {
    chunks := unlinked;
    for position := 0 to |chunks|
      invariant |chunks| == |drafts|
      invariant forall i :: 0 <= i < |drafts| ==>
        chunks[i] == if i < position then LinkedAt(drafts, revision, i) else UnlinkedAt(drafts, revision, i)
    {
      var previous := if position > 0 then Some(chunks[position - 1].id) else None;
      var next := if position + 1 < |chunks| then Some(chunks[position + 1].id) else None;
      chunks := chunks[position := chunks[position].(prev := previous, next := next)];
    }
  }

  predicate DistinctChunkIds(chunks: seq<Chunk>) {
    forall i, j :: 0 <= i < j < |chunks| ==> chunks[i].id != chunks[j].id
  }

  /** The first chunk of an id, as a lookup by id finds it. */
  function Lookup(chunks: seq<Chunk>, id: ChunkId): (r: Option<Chunk>)
    ensures r.Some? ==> r.value in chunks && r.value.id == id
    ensures r.None? ==> forall c :: c in chunks ==> c.id != id
  {
    if chunks == [] then None else if chunks[0].id == id then Some(chunks[0]) else Lookup(chunks[1..], id)
  }

  /** The chunks met when following `next` from an id, at most `fuel` of them. */
  function Follow(chunks: seq<Chunk>, at: Option<ChunkId>, fuel: nat): seq<Chunk>
    decreases fuel
  {
    if at.None? || fuel == 0 || Lookup(chunks, at.value).None? then []
    else
      var c := Lookup(chunks, at.value).value;
      [c] + Follow(chunks, c.next, fuel - 1)
  }

  lemma LookupAt(chunks: seq<Chunk>, i: nat)
    requires DistinctChunkIds(chunks) && i < |chunks|
    ensures Lookup(chunks, chunks[i].id) == Some(chunks[i])
  {
    var c := Lookup(chunks, chunks[i].id);
    assert chunks[i] in chunks;
    var j :| 0 <= j < |chunks| && chunks[j] == c.value;
  }

  lemma FollowStep(chunks: seq<Chunk>, i: nat, fuel: nat)
    requires DistinctChunkIds(chunks) && i < |chunks| && fuel > 0
    ensures Follow(chunks, Some(chunks[i].id), fuel) == [chunks[i]] + Follow(chunks, chunks[i].next, fuel - 1)
  {
    LookupAt(chunks, i);
  }

  /** Each chunk names the one after it, the last one none. */
  ghost predicate Chained(chunks: seq<Chunk>) {
    && DistinctChunkIds(chunks)
    && forall i :: 0 <= i < |chunks| ==> chunks[i].next == if i + 1 < |chunks| then Some(chunks[i + 1].id) else None
  }

  lemma LinkedIsChained(drafts: seq<Unit>, revision: string)
    requires DistinctKeys(drafts)
    ensures Chained(Linked(drafts, revision))
  {
  }

  /** Following `next` from any chunk meets the rest, each once and in order, and then ends. */
  lemma {:induction false} FollowVisits(chunks: seq<Chunk>, i: nat, fuel: nat)
    requires Chained(chunks) && i <= |chunks| && fuel >= |chunks| - i
    ensures Follow(chunks, if i < |chunks| then Some(chunks[i].id) else None, fuel) == chunks[i..]
    decreases |chunks| - i
  {
    if i < |chunks| {
      FollowStep(chunks, i, fuel);
      FollowVisits(chunks, i + 1, fuel - 1);
      assert chunks[i..] == [chunks[i]] + chunks[i + 1..];
    }
  }

  /** `prev` is the inverse of `next`. */
  lemma PrevInvertsNext(drafts: seq<Unit>, revision: string, i: nat, j: nat)
    requires DistinctKeys(drafts) && i < |drafts| && j < |drafts|
    ensures var chunks := Linked(drafts, revision);
            && (chunks[i].next == Some(chunks[j].id) <==> chunks[j].prev == Some(chunks[i].id))
            && (chunks[i].next == Some(chunks[j].id) <==> j == i + 1)
  {
    var chunks := Linked(drafts, revision);
    assert DistinctChunkIds(chunks);
    if i + 1 < |drafts| && j != i + 1 { assert chunks[i + 1].id != chunks[j].id; }
    if j > 0 && i != j - 1 { assert chunks[j - 1].id != chunks[i].id; }
  }

  lemma WalkUnitsWhole(doc: Doc)
    requires WellFormed(doc)
    ensures WholeUnits(WalkRoots(doc, doc.roots))
  {
    var units := WalkRoots(doc, doc.roots);
    RootsDistinct(doc, doc.roots);
    forall i | 0 <= i < |units|
      ensures units[i].text != "" && units[i].start == 0 && units[i].end == |units[i].text|
           && units[i].spans == [Span(units[i].node, 0, |units[i].text|)]
    {
      assert units[i] in units && UnitOk(doc, units[i]);
    }
  }

  ghost predicate DraftsOk(units: seq<Unit>, drafts: seq<Unit>, budget: nat) {
    forall d :: d in drafts ==> CitationOk(units, d) && WithinBudget(d, units, budget)
  }

  lemma PlanDraftsOk(units: seq<Unit>, plan: seq<Group>, budget: nat)
    requires WholeUnits(units) && budget >= 1 && ValidPlan(plan, units, budget)
    ensures DraftsOk(units, Drafts(plan, budget), budget)
  {
    forall d | d in Drafts(plan, budget) ensures CitationOk(units, d) && WithinBudget(d, units, budget) {
      DraftsWithin(plan, budget, d);
      DraftsCite(plan, budget, d);
    }
  }

  lemma LinkedIsChain(drafts: seq<Unit>, revision: string)
    requires DistinctKeys(drafts)
    ensures var chunks := Linked(drafts, revision);
            && DistinctChunkIds(chunks)
            && (chunks != [] ==> Follow(chunks, Some(chunks[0].id), |chunks|) == chunks)
  {
    var chunks := Linked(drafts, revision);
    LinkedIsChained(drafts, revision);
    FollowVisits(chunks, 0, |chunks|);
    assert chunks[0..] == chunks;
  }

  /** The drafts the chunks were made of, as the chunks hold them. */
  function Bodies(chunks: seq<Chunk>): (r: seq<Unit>)
    ensures |r| == |chunks|
  {
    seq(|chunks|, i requires 0 <= i < |chunks| => chunks[i].draft)
  }

  /** A chunk by itself: what it says, what it cites, how it is named and counted. */
  ghost predicate ChunkOk(units: seq<Unit>, c: Chunk, order: nat, profile: Profile)
    requires profile.maxTokens >= 1
  {
    && c.draft.spans != [] && c.draft.text == QuoteLines(units, c.draft.spans)
    && c.id == ChunkId(c.draft.spans[0].node, profile.revision, c.draft.spans[0].start, c.draft.spans[0].end)
    && c.draft.node == c.id.node && c.draft.start == c.id.start && c.draft.end == c.id.end
    && (exists k: nat :: k < |units| && Describes(units[k], c.draft))
    && WithinBudget(c.draft, units, profile.maxTokens)
    && c.tokens == Words(c.draft.text) && c.order == order
  }

  /** The chunks that cover these units: nothing lost, each one right by itself, linked into one chain. */
  ghost predicate ChunksOk(units: seq<Unit>, chunks: seq<Chunk>, profile: Profile)
    requires profile.maxTokens >= 1
  {
    && Rejoin(SpansOf(Bodies(chunks))) == SpansOf(units)
    && EachOk(units, chunks, profile)
    && DistinctChunkIds(chunks) && Backward(chunks)
    && (chunks != [] ==> Follow(chunks, Some(chunks[0].id), |chunks|) == chunks)
  }

  ghost predicate EachOk(units: seq<Unit>, chunks: seq<Chunk>, profile: Profile)
    requires profile.maxTokens >= 1
  {
    forall i: nat :: i < |chunks| ==> ChunkOk(units, chunks[i], i, profile)
  }

  /** Each chunk names the one before it, the first one none. */
  predicate Backward(chunks: seq<Chunk>) {
    forall i :: 0 <= i < |chunks| ==> chunks[i].prev == if i > 0 then Some(chunks[i - 1].id) else None
  }

  lemma LinkedBodies(drafts: seq<Unit>, revision: string)
    ensures Bodies(Linked(drafts, revision)) == drafts && Backward(Linked(drafts, revision))
  {
  }

  lemma LinkedChunkOk(units: seq<Unit>, drafts: seq<Unit>, profile: Profile, i: nat)
    requires profile.maxTokens >= 1 && i < |drafts| && DraftsOk(units, drafts, profile.maxTokens)
    ensures ChunkOk(units, Linked(drafts, profile.revision)[i], i, profile)
  {
    assert drafts[i] in drafts;
  }

  lemma LinkedEachOk(units: seq<Unit>, drafts: seq<Unit>, profile: Profile)
    requires profile.maxTokens >= 1 && DraftsOk(units, drafts, profile.maxTokens)
    ensures EachOk(units, Linked(drafts, profile.revision), profile)
  {
    forall i: nat | i < |drafts| ensures ChunkOk(units, Linked(drafts, profile.revision)[i], i, profile) {
      LinkedChunkOk(units, drafts, profile, i);
    }
  }

  lemma ChunksOfDrafts(units: seq<Unit>, drafts: seq<Unit>, profile: Profile)
    requires profile.maxTokens >= 1 && DraftsOk(units, drafts, profile.maxTokens) && DistinctKeys(drafts)
    requires Rejoin(SpansOf(drafts)) == SpansOf(units)
    ensures ChunksOk(units, Linked(drafts, profile.revision), profile)
  {
    LinkedIsChain(drafts, profile.revision);
    LinkedBodies(drafts, profile.revision);
    LinkedEachOk(units, drafts, profile);
  }

  lemma ChunksOfUnits(units: seq<Unit>, profile: Profile)
    requires WholeUnits(units) && profile.maxTokens >= 1
    ensures var drafts := Drafts(Plan(units, profile.maxTokens), profile.maxTokens);
            ChunksOk(units, Linked(drafts, profile.revision), profile)
  {
    var plan := Plan(units, profile.maxTokens);
    PlanIsValid(units, profile.maxTokens);
    SpansConserved(plan, profile.maxTokens);
    KeysDistinct(plan, profile.maxTokens);
    PlanDraftsOk(units, plan, profile.maxTokens);
    ChunksOfDrafts(units, Drafts(plan, profile.maxTokens), profile);
  }

  /**
   The chunks of a document: their spans, rejoined, are the whole texts of exactly the shown nodes,
   each once; every chunk reads as its own spans do, is named after the first of them, counts its own
   words, and is within the budget unless it is one whole table; ids are distinct and following `next`
   visits every chunk once.
   */
  lemma ChunksOfDocument(doc: Doc, profile: Profile, id: nat)
    requires WellFormed(doc) && profile.maxTokens >= 1
    ensures var units := WalkRoots(doc, doc.roots);
            var drafts := Drafts(Plan(units, profile.maxTokens), profile.maxTokens);
            && ChunksOk(units, Linked(drafts, profile.revision), profile)
            && (Shown(doc, doc.roots, id) <==> exists k: nat :: k < |units| && units[k].node == id)
  {
    WalkUnitsWhole(doc);
    WalkIsExact(doc, id);
    ChunksOfUnits(WalkRoots(doc, doc.roots), profile);
  }
}
