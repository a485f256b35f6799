/** Word counting and the token windows of an overflowing text. */
module TextWindows {

  /** str.isspace, which is also what `\s` matches. */
  predicate Space(c: char) {
    || '\t' <= c <= '\r' || '\U{1c}' <= c <= ' ' || c == '\U{85}' || c == '\U{a0}' || c == '\U{1680}'
    || '\U{2000}' <= c <= '\U{200a}' || c == '\U{2028}' || c == '\U{2029}' || c == '\U{202f}'
    || c == '\U{205f}' || c == '\U{3000}'
  }

  /** estimate_tokens: the number of maximal runs of non-space characters, counted at their starts. */
  function Words(s: string): nat {
    if s == "" then 0
    else
      var n := |s| - 1;
      Words(s[..n]) + (if !Space(s[n]) && (n == 0 || Space(s[n - 1])) then 1 else 0)
  }

  /** strip() leaves something. */
  predicate NonBlank(s: string) { exists i :: 0 <= i < |s| && !Space(s[i]) }

  /** Position `i` falls inside a word. */
  predicate InsideWord(s: string, i: int) {
    0 < i < |s| && !Space(s[i - 1]) && !Space(s[i])
  }

  /** Cutting a text costs no word, unless the cut falls inside one, which then counts twice. */
  lemma {:induction false} WordsOfCut(a: string, b: string)
    ensures Words(a + b) + (if InsideWord(a + b, |a|) then 1 else 0) == Words(a) + Words(b)
    decreases |b|
  {
    if b == "" {
      assert a + b == a;
    } else {
      var n := |b| - 1;
      WordsOfCut(a, b[..n]);
      assert (a + b)[..|a| + n] == a + b[..n];
      if n > 0 { assert (a + b)[|a| + n - 1] == b[n - 1]; }
    }
  }

  lemma WordsOfSlice(s: string, lo: nat, mid: nat, hi: nat)
    requires lo <= mid <= hi <= |s| && !InsideWord(s, mid)
    ensures Words(s[lo..hi]) == Words(s[lo..mid]) + Words(s[mid..hi])
  {
    assert s[lo..hi] == s[lo..mid] + s[mid..hi];
    WordsOfCut(s[lo..mid], s[mid..hi]);
    assert !InsideWord(s[lo..hi], mid - lo);
  }

  lemma {:induction false} WordsOfBlank(s: string)
    requires !NonBlank(s)
    ensures Words(s) == 0
  {
    if s != "" {
      assert Space(s[|s| - 1]);
      assert !NonBlank(s[..|s| - 1]) by {
        assert forall i :: 0 <= i < |s| - 1 ==> s[..|s| - 1][i] == s[i];
      }
      WordsOfBlank(s[..|s| - 1]);
    }
  }

  lemma {:induction false} WordsOfRun(s: string)
    requires |s| > 0 && forall i :: 0 <= i < |s| ==> !Space(s[i])
    ensures Words(s) == 1
  {
    var n := |s| - 1;
    assert !Space(s[n]);
    if n > 0 { WordsOfRun(s[..n]); }
  }

  // ------------------------------------------------------------------ windows

  /** Where the next match of \S+ at or after `i` starts; the length of the text when there is none. */
  function WordStart(s: string, i: nat): (j: nat)
    requires i <= |s|
    ensures i <= j <= |s|
    ensures j < |s| ==> !Space(s[j])
    ensures forall k :: i <= k < j ==> Space(s[k])
    decreases |s| - i
  {
    if i == |s| || !Space(s[i]) then i else WordStart(s, i + 1)
  }

  /** Where a match of \S+ containing position `i` ends. */
  function WordEnd(s: string, i: nat): (j: nat)
    requires i <= |s|
    ensures i <= j <= |s|
    ensures i < |s| && !Space(s[i]) ==> i < j
    ensures j < |s| ==> Space(s[j])
    ensures forall k :: i <= k < j ==> !Space(s[k])
    decreases |s| - i
  {
    if i == |s| || Space(s[i]) then i else WordEnd(s, i + 1)
  }

  /** One more word, with the spaces before it, adds exactly one. */
  lemma NextWord(s: string, start: nat, end: nat)
    requires start <= end <= |s| && !InsideWord(s, end) && WordStart(s, end) < |s|
    ensures var next := WordEnd(s, WordStart(s, end));
            end < next <= |s| && !InsideWord(s, next) && Words(s[start..next]) == Words(s[start..end]) + 1
  {
    var w := WordStart(s, end);
    var next := WordEnd(s, w);
    assert !InsideWord(s, w);
    WordsOfSlice(s, start, end, next);
    WordsOfSlice(s, end, w, next);
    WordsOfBlank(s[end..w]);
    WordsOfRun(s[w..next]);
  }

  lemma NoMoreWords(s: string, end: nat)
    requires end <= |s| && WordStart(s, end) == |s|
    ensures Words(s[end..]) == 0
  {
    WordsOfBlank(s[end..]);
  }

  /** The end of the `count`-th match of \S+ after `end`, or of the last one. */
  function EndAfter(s: string, end: nat, count: nat): (e: nat)
    requires end <= |s|
    ensures end <= e <= |s|
    decreases count
  {
    if count == 0 || WordStart(s, end) == |s| then end
    else EndAfter(s, WordEnd(s, WordStart(s, end)), count - 1)
  }

  function WindowStop(s: string, start: nat, limit: nat): (end: nat)
    requires start < |s|
    ensures start < end <= |s|
  {
    var end := EndAfter(s, start, limit);
    if end < start + 1 then start + 1 else end
  }

  /** _window_end: the loop over the matches from `start`, at least one character long. */
  method WindowEnd(s: string, start: nat, limit: nat) returns (end: nat)
    requires start < |s|
    ensures end == WindowStop(s, start, limit)
  {
    end := start;
    var index := 0;
    while index < limit && WordStart(s, end) < |s|
      invariant start <= end <= |s| && index <= limit
      invariant EndAfter(s, start, limit) == EndAfter(s, end, limit - index)
      decreases limit - index
    {
      end := WordEnd(s, WordStart(s, end));
      index := index + 1;
    }
    if end < start + 1 { end := start + 1; }
  }

  datatype Window = Window(start: nat, end: nat)

  function WindowsFrom(s: string, start: nat, limit: nat): seq<Window>
    requires start <= |s|
    decreases |s| - start
  {
    if start == |s| then []
    else
      var end := WindowStop(s, start, limit);
      [Window(start, end)] + WindowsFrom(s, end, limit)
  }

  /** The window loop of _split_unit. */
  method Windows(s: string, limit: nat) returns (windows: seq<Window>)
    ensures windows == WindowsFrom(s, 0, limit)
  {
    windows := [];
    var start := 0;
    while start < |s|
      invariant start <= |s|
      invariant WindowsFrom(s, 0, limit) == windows + WindowsFrom(s, start, limit)
      decreases |s| - start
    {
      var end := WindowEnd(s, start, limit);
      windows := windows + [Window(start, end)];
      start := end;
    }
  }

  /** From `from` to `to` the text holds `count` words, or fewer when it holds no more. */
  ghost predicate TakesWords(s: string, from: nat, to: nat, count: nat)
    requires from <= to <= |s|
  {
    && !InsideWord(s, to)
    && Words(s[from..to]) <= count
    && (Words(s[from..to]) < count ==> Words(s[to..]) == 0)
    && (to > from ==> !Space(s[to - 1]) && Words(s[from..to]) > 0)
  }

  lemma {:induction false} EndAfterTakes(s: string, from: nat, count: nat)
    requires from <= |s| && !InsideWord(s, from)
    ensures TakesWords(s, from, EndAfter(s, from, count), count)
    decreases count
  {
    assert s[from..from] == "";
    if WordStart(s, from) == |s| {
      NoMoreWords(s, from);
    } else if count > 0 {
      var next := WordEnd(s, WordStart(s, from));
      NextWord(s, from, from);
      EndAfterTakes(s, next, count - 1);
      WordsOfSlice(s, from, next, EndAfter(s, next, count - 1));
    }
  }

  /** A window ends at no place inside a word, and takes every word the limit lets it take. */
  predicate WindowOk(s: string, limit: nat, w: Window) {
    && w.start < w.end <= |s|
    && !InsideWord(s, w.start) && !InsideWord(s, w.end)
    && Words(s[w.start..w.end]) <= limit
    && (Words(s[w.start..w.end]) < limit ==> Words(s[w.end..]) == 0)
    && (Words(s[w.start..w.end]) == 0 ==> w.end == w.start + 1)
  }

  lemma WindowIsOk(s: string, start: nat, limit: nat)
    requires start < |s| && limit >= 1 && !InsideWord(s, start)
    ensures WindowOk(s, limit, Window(start, WindowStop(s, start, limit)))
  {
    var e := EndAfter(s, start, limit);
    EndAfterTakes(s, start, limit);
    if e == start {
      assert s[start..start] == "";
      assert s[start..] == s[start..|s|];
      assert Space(s[start]);
      WordsOfSlice(s, start, start + 1, |s|);
      assert s[start + 1..] == s[start + 1..|s|];
    }
  }

  /** The windows cut the text into consecutive pieces, none of them empty. */
  predicate Tiles(windows: seq<Window>, from: nat, to: nat) {
    if windows == [] then from == to
    else windows[0].start == from && from < windows[0].end <= to && Tiles(windows[1..], windows[0].end, to)
  }

  /** Splitting tiles the whole text with windows of whole words within the limit. */
  lemma {:induction false} WindowsTile(s: string, start: nat, limit: nat)
    requires start <= |s| && limit >= 1 && !InsideWord(s, start)
    ensures Tiles(WindowsFrom(s, start, limit), start, |s|)
    ensures forall w :: w in WindowsFrom(s, start, limit) ==> WindowOk(s, limit, w)
    decreases |s| - start
  {
    if start < |s| {
      var end := WindowStop(s, start, limit);
      WindowIsOk(s, start, limit);
      WindowsTile(s, end, limit);
    }
  }

  function WordsOfWindows(s: string, windows: seq<Window>): nat {
    if windows == [] then 0
    else
      var w := windows[0];
      (if w.start <= w.end <= |s| then Words(s[w.start..w.end]) else 0) + WordsOfWindows(s, windows[1..])
  }

  lemma {:induction false} WindowsSplit(s: string, start: nat, limit: nat)
    requires start < |s| && limit >= 1
    requires start < WindowStop(s, start, limit) <= |s|
    ensures var end := WindowStop(s, start, limit);
            WordsOfWindows(s, WindowsFrom(s, start, limit))
            == Words(s[start..end]) + WordsOfWindows(s, WindowsFrom(s, end, limit))
  {
  }

  /** No word is lost or counted twice by the splitting. */
  lemma {:induction false} WindowsKeepWords(s: string, start: nat, limit: nat)
    requires start <= |s| && limit >= 1 && !InsideWord(s, start)
    ensures WordsOfWindows(s, WindowsFrom(s, start, limit)) == Words(s[start..])
    decreases |s| - start
  {
    if start < |s| {
      var end := WindowStop(s, start, limit);
      assert !InsideWord(s, end) by { WindowIsOk(s, start, limit); }
      WindowsKeepWords(s, end, limit);
      WindowsSplit(s, start, limit);
      assert Words(s[start..]) == Words(s[start..end]) + Words(s[end..]) by {
        WordsOfSlice(s, start, end, |s|);
        assert s[start..|s|] == s[start..] && s[end..|s|] == s[end..];
      }
    }
  }

  /** Windows with different starts: the tiling is strictly increasing. */
  lemma {:induction false} TilesIncrease(windows: seq<Window>, from: nat, to: nat, i: nat, j: nat)
    requires Tiles(windows, from, to) && i < j < |windows|
    ensures from <= windows[i].start < windows[i].end <= windows[j].start
    decreases j
  {
    if i > 0 {
      TilesIncrease(windows[1..], windows[0].end, to, i - 1, j - 1);
    } else if j > 1 {
      TilesIncrease(windows[1..], windows[0].end, to, 0, j - 1);
    }
  }
}
