/**
 The in-memory sliding-window limiter and the active-users tracker: both forget old entries, and
 both answer as if they had forgotten nothing, as long as the clock does not run backwards.
 */
module RateLimit {

  // ------------------------------------------------------------ specification

  predicate InOrder(s: seq<real>, i: int, j: int) { 0 <= i <= j < |s| ==> s[i] <= s[j] }

  ghost predicate Sorted(s: seq<real>) { forall i, j :: InOrder(s, i, j) }

  /** The events strictly after a cutoff. */
  function After(events: seq<real>, cutoff: real): (r: seq<real>)
    ensures |r| <= |events|
  {
    if events == [] then []
    else if events[0] <= cutoff then After(events[1..], cutoff) else [events[0]] + After(events[1..], cutoff)
  }

  /** An attempt is admitted when fewer than the allowed number of accepted ones are inside the window. */
  predicate Admits(accepted: seq<real>, maxEvents: int, window: real, now: real) {
    |After(accepted, now - window)| < maxEvents
  }

  /** Waiting this many whole seconds, with no attempt in between, leads to an admission. */
  predicate AdmitsAfter(accepted: seq<real>, maxEvents: int, window: real, now: real, seconds: int) {
    Admits(accepted, maxEvents, window, now + seconds as real)
  }

  /** An attempt made `oldest` has left the window after this many seconds more. */
  predicate HasLeft(oldest: real, window: real, now: real, seconds: int) {
    oldest <= now + seconds as real - window
  }

  /** The accepted attempts of one key, from all its attempts in order. */
  function Accepted(attempts: seq<real>, maxEvents: int, window: real): (r: seq<real>)
    ensures |r| <= |attempts|
  {
    if attempts == [] then []
    else
      var n := |attempts| - 1;
      var before := Accepted(attempts[..n], maxEvents, window);
      if Admits(before, maxEvents, window, attempts[n]) then before + [attempts[n]] else before
  }

  lemma {:induction false} AfterIsSuffix(events: seq<real>, cutoff: real)
    requires Sorted(events)
    ensures var n := |events| - |After(events, cutoff)|;
            && After(events, cutoff) == events[n..]
            && (forall i :: 0 <= i < n ==> events[i] <= cutoff)
            && (forall i :: n <= i < |events| ==> events[i] > cutoff)
  {
    if events != [] {
      SortedRest(events);
      AfterIsSuffix(events[1..], cutoff);
      assert forall i :: 1 <= i < |events| ==> events[i] == events[1..][i - 1];
      assert events[0] > cutoff && |events| > 1 ==> events[1] > cutoff by { assert InOrder(events, 0, 1); }
    }
  }

  lemma SortedRest(s: seq<real>)
    requires Sorted(s) && s != []
    ensures Sorted(s[1..]) && Sorted(s[..|s| - 1])
  {
    forall i, j ensures InOrder(s[1..], i, j) { assert InOrder(s, i + 1, j + 1); }
    var front := s[..|s| - 1];
    forall i, j ensures InOrder(front, i, j) { assert InOrder(s, i, j); }
  }

  lemma SortedPush(s: seq<real>, x: real)
    requires Sorted(s) && (s != [] ==> s[|s| - 1] <= x)
    ensures Sorted(s + [x])
  {
    forall i, j ensures InOrder(s + [x], i, j) {
      assert InOrder(s, i, j) && InOrder(s, i, |s| - 1);
    }
  }

  lemma SortedTail(s: seq<real>, n: nat)
    requires Sorted(s) && n <= |s|
    ensures Sorted(s[n..])
  {
    forall i, j ensures InOrder(s[n..], i, j) { assert InOrder(s, i + n, j + n); }
  }

  predicate Spans(accepted: seq<real>, maxEvents: int, window: real, i: int, j: int) {
    0 <= i <= j < |accepted| && accepted[j] - accepted[i] < window ==> j - i + 1 <= maxEvents
  }

  /** Any run of accepted attempts that spans less than the window has at most the allowed number. */
  ghost predicate Bounded(accepted: seq<real>, maxEvents: int, window: real) {
    forall i, j :: Spans(accepted, maxEvents, window, i, j)
  }

  lemma AdmitKeeps(accepted: seq<real>, maxEvents: int, window: real, now: real)
    requires Sorted(accepted) && Bounded(accepted, maxEvents, window) && Admits(accepted, maxEvents, window, now)
    requires |accepted| > 0 ==> accepted[|accepted| - 1] <= now
    ensures Bounded(accepted + [now], maxEvents, window)
  {
    AfterIsSuffix(accepted, now - window);
    forall i, j ensures Spans(accepted + [now], maxEvents, window, i, j) {
      assert Spans(accepted, maxEvents, window, i, j);
    }
  }

  lemma {:induction false} AcceptedSorted(attempts: seq<real>, maxEvents: int, window: real)
    requires Sorted(attempts)
    ensures var accepted := Accepted(attempts, maxEvents, window);
            Sorted(accepted) && (accepted != [] ==> accepted[|accepted| - 1] <= attempts[|attempts| - 1])
  {
    if attempts != [] {
      var n := |attempts| - 1;
      SortedRest(attempts);
      AcceptedSorted(attempts[..n], maxEvents, window);
      assert n > 0 ==> attempts[n - 1] <= attempts[n] by { assert InOrder(attempts, n - 1, n); }
      var before := Accepted(attempts[..n], maxEvents, window);
      if Admits(before, maxEvents, window, attempts[n]) {
        SortedPush(before, attempts[n]);
      }
    }
  }

  lemma {:induction false} AcceptedBounded(attempts: seq<real>, maxEvents: int, window: real)
    requires Sorted(attempts)
    ensures Bounded(Accepted(attempts, maxEvents, window), maxEvents, window)
  {
    if attempts != [] {
      var n := |attempts| - 1;
      SortedRest(attempts);
      AcceptedBounded(attempts[..n], maxEvents, window);
      assert n > 0 ==> attempts[n - 1] <= attempts[n] by { assert InOrder(attempts, n - 1, n); }
      AcceptedSorted(attempts[..n], maxEvents, window);
      var before := Accepted(attempts[..n], maxEvents, window);
      if Admits(before, maxEvents, window, attempts[n]) {
        AdmitKeeps(before, maxEvents, window, attempts[n]);
      }
    }
  }

  function CountIn(events: seq<real>, from: real, to: real): nat {
    if events == [] then 0 else CountIn(events[1..], from, to) + if from < events[0] <= to then 1 else 0
  }

  lemma {:induction false} CountByAfter(events: seq<real>, from: real, to: real)
    requires from <= to
    ensures CountIn(events, from, to) == |After(events, from)| - |After(events, to)|
  {
    if events != [] {
      CountByAfter(events[1..], from, to);
    }
  }

  lemma {:induction false} CountNone(events: seq<real>, from: real, to: real)
    requires from > to
    ensures CountIn(events, from, to) == 0
  {
    if events != [] {
      CountNone(events[1..], from, to);
    }
  }

  /** Every half-open window of the configured length holds at most `maxEvents` accepted attempts of a key. */
  lemma WindowBound(attempts: seq<real>, maxEvents: int, window: real, end: real)
    requires Sorted(attempts) && maxEvents >= 0
    ensures CountIn(Accepted(attempts, maxEvents, window), end - window, end) <= maxEvents
  {
    var accepted := Accepted(attempts, maxEvents, window);
    AcceptedSorted(attempts, maxEvents, window);
    AcceptedBounded(attempts, maxEvents, window);
    if window < 0.0 {
      CountNone(accepted, end - window, end);
    } else {
      CountByAfter(accepted, end - window, end);
      AfterIsSuffix(accepted, end - window);
      AfterIsSuffix(accepted, end);
      var i, j := |accepted| - |After(accepted, end - window)|, |accepted| - |After(accepted, end)| - 1;
      if i <= j {
        assert Spans(accepted, maxEvents, window, i, j);
      }
    }
  }

  /** And no attempt is refused without the window before it being full of accepted ones. */
  lemma RefusedOnlyWhenFull(attempts: seq<real>, maxEvents: int, window: real)
    requires attempts != [] && Sorted(attempts)
    ensures var n := |attempts| - 1;
            var now := attempts[n];
            Accepted(attempts, maxEvents, window) == Accepted(attempts[..n], maxEvents, window)
            <==> CountIn(Accepted(attempts[..n], maxEvents, window), now - window, now) >= maxEvents
  {
    var n := |attempts| - 1;
    SortedRest(attempts);
    AcceptedSorted(attempts[..n], maxEvents, window);
    assert n > 0 ==> attempts[n - 1] <= attempts[n] by { assert InOrder(attempts, n - 1, n); }
    CountToNow(Accepted(attempts[..n], maxEvents, window), window, attempts[n]);
  }

  lemma CountToNow(events: seq<real>, window: real, now: real)
    requires Sorted(events) && (events != [] ==> events[|events| - 1] <= now)
    ensures CountIn(events, now - window, now) == |After(events, now - window)|
  {
    AfterIsSuffix(events, now);
    if window < 0.0 {
      CountNone(events, now - window, now);
      AfterIsSuffix(events, now - window);
    } else {
      CountByAfter(events, now - window, now);
    }
  }

  // --------------------------------------------------------------- retry advice

  function Ceil(x: real): (r: int)
    ensures r as real >= x && (r - 1) as real < x
  {
    -((-x).Floor)
  }

  /** int(): toward zero. */
  function Truncate(x: real): (r: int)
    ensures x >= 0.0 ==> r as real <= x < (r + 1) as real
    ensures x < 0.0 ==> (r - 1) as real < x <= r as real
  {
    if x >= 0.0 then x.Floor else -((-x).Floor)
  }

  function RetryAdvice(events: seq<real>, window: real, now: real): int {
    if events == [] then Truncate(window)
    else
      var seconds := Ceil(events[0] + window - now);
      if seconds < 1 then 1 else seconds
  }

  /** What is inside the window of an attempt never exceeds the allowed number. */
  lemma {:induction false} PrunedFits(accepted: seq<real>, maxEvents: int, window: real, now: real)
    requires Sorted(accepted) && Bounded(accepted, maxEvents, window)
    requires accepted != [] ==> accepted[|accepted| - 1] <= now
    ensures After(accepted, now - window) != [] ==> |After(accepted, now - window)| <= maxEvents
  {
    var events := After(accepted, now - window);
    AfterIsSuffix(accepted, now - window);
    if events != [] {
      assert Spans(accepted, maxEvents, window, |accepted| - |events|, |accepted| - 1);
    }
  }

  /**
   With the newest accepted attempts in the deque, and no more of them than allowed, the advised
   wait leads to an admission; when the deque is full, no shorter wait of whole seconds does.
   */
  lemma {:induction false} RetryFits(deque: seq<real>, accepted: seq<real>, maxEvents: int, window: real, now: real)
    requires Sorted(accepted) && 0 < |deque| <= |accepted| && deque == accepted[|accepted| - |deque|..]
    requires |deque| <= maxEvents
    ensures var advice := RetryAdvice(deque, window, now);
            && advice >= 1
            && AdmitsAfter(accepted, maxEvents, window, now, advice)
            && (|deque| == maxEvents ==>
                  forall k: int :: 1 <= k < advice ==> !AdmitsAfter(accepted, maxEvents, window, now, k))
  {
    var advice, first := RetryAdvice(deque, window, now), |accepted| - |deque|;
    AfterIsSuffix(accepted, now + advice as real - window);
    assert accepted[first] <= now + advice as real - window;
    if |deque| == maxEvents {
      forall k: int | 1 <= k < advice ensures !AdmitsAfter(accepted, maxEvents, window, now, k) {
        AfterIsSuffix(accepted, now + k as real - window);
        assert accepted[first] > now + k as real - window;
      }
    }
  }

  /**
   After a refusal, with nothing in between, waiting the advised number of seconds is admitted, and
   no smaller positive number of whole seconds is.
   */
  lemma {:induction false} RetryIsLeast(attempts: seq<real>, maxEvents: int, window: real, refused: real, now: real,
                                        k: int)
    requires Sorted(attempts + [refused]) && maxEvents >= 1 && refused <= now
    requires !Admits(Accepted(attempts, maxEvents, window), maxEvents, window, refused)
    ensures var accepted := Accepted(attempts, maxEvents, window);
            var advice := RetryAdvice(After(accepted, refused - window), window, now);
            && advice >= 1
            && AdmitsAfter(accepted, maxEvents, window, now, advice)
            && (1 <= k < advice ==> !AdmitsAfter(accepted, maxEvents, window, now, k))
  {
    var accepted := Accepted(attempts, maxEvents, window);
    RefusedLast(attempts, maxEvents, window, refused);
    AcceptedBounded(attempts, maxEvents, window);
    RefusedAdvice(accepted, maxEvents, window, refused, now);
  }

  /** What a refusal leaves in the deque is as many attempts as are allowed. */
  lemma {:induction false} RefusedAdvice(accepted: seq<real>, maxEvents: int, window: real, refused: real, now: real)
    requires Sorted(accepted) && Bounded(accepted, maxEvents, window) && maxEvents >= 1
    requires accepted != [] ==> accepted[|accepted| - 1] <= refused
    requires !Admits(accepted, maxEvents, window, refused)
    ensures var advice := RetryAdvice(After(accepted, refused - window), window, now);
            && advice >= 1
            && AdmitsAfter(accepted, maxEvents, window, now, advice)
            && (forall k: int :: 1 <= k < advice ==> !AdmitsAfter(accepted, maxEvents, window, now, k))
  {
    PrunedFits(accepted, maxEvents, window, refused);
    AfterIsSuffix(accepted, refused - window);
    RetryFits(After(accepted, refused - window), accepted, maxEvents, window, now);
  }

  /** The accepted attempts before one are in order and none is later. */
  lemma {:induction false} RefusedLast(attempts: seq<real>, maxEvents: int, window: real, refused: real)
    requires Sorted(attempts + [refused])
    ensures var accepted := Accepted(attempts, maxEvents, window);
            Sorted(attempts) && Sorted(accepted) && (accepted != [] ==> accepted[|accepted| - 1] <= refused)
  {
    SortedRest(attempts + [refused]);
    assert (attempts + [refused])[..|attempts|] == attempts;
    AcceptedSorted(attempts, maxEvents, window);
    assert attempts != [] ==> attempts[|attempts| - 1] <= refused by {
      assert InOrder(attempts + [refused], |attempts| - 1, |attempts|);
    }
  }

  // ---------------------------------------------------------------------- limiter

  /** What attempts are counted under, an address or an account name. */
  datatype Key = Key(name: string)

  class SlidingWindowLimiter {
    const maxEvents: int
    const window: real
    var events: map<Key, seq<real>>
    /** All attempts of each key, in order, and the last clock reading. */
    ghost var attempts: map<Key, seq<real>>
    ghost var last: real

    constructor (maxEvents: int, window: real, start: real)
      ensures Valid() && this.maxEvents == maxEvents && this.window == window && attempts == map[] && last == start
    {
      this.maxEvents := maxEvents;
      this.window := window;
      events := map[];
      attempts := map[];
      last := start;
      new;
      TableEmpty(maxEvents, window, start);
    }

    ghost predicate Valid()
      reads this
    {
      TableOk(events, attempts, maxEvents, window, last)
    }

    /** The pruning loop: drop from the front while the oldest event is not inside the window. */
    method Prune(deque: seq<real>, cutoff: real) returns (kept: seq<real>)
      requires Sorted(deque)
      ensures kept == After(deque, cutoff)
    {
      kept := deque;
      while kept != [] && kept[0] <= cutoff
        invariant Sorted(kept) && After(kept, cutoff) == After(deque, cutoff)
        decreases |kept|
      {
        SortedRest(kept);
        kept := kept[1..];
      }
      AfterIsSuffix(kept, cutoff);
    }

    /** Prune one deque, and append the attempt when there is room. */
    method Decide(deque: seq<real>, now: real, ghost history: seq<real>) returns (allowed: bool, next: seq<real>)
      requires KeyOk(deque, history, maxEvents, window, last) && now >= last
      ensures Attempted(history, next, allowed, maxEvents, window, now)
      ensures KeyOk(next, history + [now], maxEvents, window, now)
    {
      KeyDecides(deque, history, maxEvents, window, last, now);
      next := Prune(deque, now - window);
      allowed := |next| < maxEvents;
      if allowed {
        next := next + [now];
      }
      AttemptExtends(history, maxEvents, window, now);
      AttemptKeepsOk(history, next, allowed, maxEvents, window, last, now);
    }

    /** Keep the pruned deque, with the attempt in it when it was accepted. */
    method Record(key: Key, next: seq<real>, now: real)
      requires Valid() && last <= now && KeyOk(next, Of(attempts, key) + [now], maxEvents, window, now)
      modifies this
      ensures Valid() && last == now
      ensures attempts == old(attempts)[key := Of(old(attempts), key) + [now]]
      ensures events == old(events)[key := next]
    {
      TableStep(events, attempts, key, next, maxEvents, window, last, now);
      attempts, events, last := attempts[key := Of(attempts, key) + [now]], events[key := next], now;
    }

    /** allow: decides as the full history of the key would, and touches no other key. */
    method Allow(key: Key, now: real) returns (allowed: bool)
      requires Valid() && now >= last
      modifies this
      ensures Valid() && last == now
      ensures attempts == old(attempts)[key := Of(old(attempts), key) + [now]]
      ensures key in events && events == old(events)[key := events[key]]
      ensures Attempted(Of(old(attempts), key), events[key], allowed, maxEvents, window, now)
    {
      TableAt(events, attempts, key, maxEvents, window, last);
      var next;
      allowed, next := Decide(Of(events, key), now, Of(attempts, key));
      Record(key, next, now);
    }

    /**
     retry_after_seconds: the least positive number of whole seconds after which the oldest remembered
     attempt has left the window. An attempt is then admitted, and, when as many as allowed are
     remembered, at no earlier whole second. With none remembered the whole window is advised.
     */
    method RetryAfter(key: Key, now: real) returns (seconds: int)
      requires Valid() && now >= last
      ensures Of(events, key) == [] ==> seconds == Truncate(window)
      ensures Of(events, key) != [] ==>
                && seconds >= 1 && HasLeft(Of(events, key)[0], window, now, seconds)
                && (forall k: int :: 1 <= k < seconds ==> !HasLeft(Of(events, key)[0], window, now, k))
                && |Of(events, key)| <= maxEvents
                && AdmitsAfter(Accepted(Of(attempts, key), maxEvents, window), maxEvents, window, now, seconds)
      ensures |Of(events, key)| == maxEvents >= 1 ==>
                forall k: int :: 1 <= k < seconds ==>
                  !AdmitsAfter(Accepted(Of(attempts, key), maxEvents, window), maxEvents, window, now, k)
    {
      TableAt(events, attempts, key, maxEvents, window, last);
      var deque := Of(events, key);
      if deque == [] {
        return Truncate(window);
      }
      KeyAdvises(deque, Of(attempts, key), maxEvents, window, last, now);
      seconds := Ceil(deque[0] + window - now);
      if seconds < 1 { seconds := 1; }
    }
  }

  // ------------------------------------------------------------------- tails

  /** What remains of `all` when some oldest ones, none of them later than `cutoff`, are dropped. */
  ghost predicate IsTail(deque: seq<real>, all: seq<real>, cutoff: real) {
    |deque| <= |all| && TailFrom(deque, all, cutoff, |all| - |deque|)
  }

  ghost predicate TailFrom(deque: seq<real>, all: seq<real>, cutoff: real, n: nat) {
    n <= |all| && deque == all[n..] && forall i :: 0 <= i < n ==> all[i] <= cutoff
  }

  lemma TailSorted(deque: seq<real>, all: seq<real>, cutoff: real)
    requires IsTail(deque, all, cutoff) && Sorted(all)
    ensures Sorted(deque)
  {
    SortedTail(all, |all| - |deque|);
  }

  lemma {:induction false} AfterDrops(all: seq<real>, n: nat, cutoff: real)
    requires n <= |all| && forall i :: 0 <= i < n ==> all[i] <= cutoff
    ensures After(all[n..], cutoff) == After(all, cutoff)
    decreases n
  {
    if n > 0 {
      AfterDrops(all[1..], n - 1, cutoff);
      assert all[1..][n - 1..] == all[n..];
    } else {
      assert all[0..] == all;
    }
  }

  lemma TailPruned(deque: seq<real>, all: seq<real>, earlier: real, cutoff: real)
    requires IsTail(deque, all, earlier) && earlier <= cutoff
    ensures After(deque, cutoff) == After(all, cutoff)
  {
    AfterDrops(all, |all| - |deque|, cutoff);
  }

  function Push(events: seq<real>, allowed: bool, now: real): seq<real> { if allowed then events + [now] else events }

  lemma TailAfter(all: seq<real>, cutoff: real, allowed: bool, now: real)
    requires Sorted(all)
    ensures IsTail(Push(After(all, cutoff), allowed, now), Push(all, allowed, now), cutoff)
  {
    AfterIsSuffix(all, cutoff);
  }

  ghost predicate KeyOk(deque: seq<real>, history: seq<real>, maxEvents: int, window: real, last: real) {
    && Sorted(history) && (history != [] ==> history[|history| - 1] <= last)
    && IsTail(deque, Accepted(history, maxEvents, window), last - window)
    && (deque != [] ==> |deque| <= maxEvents)
  }

  /** What a table of event lists holds for a key. */
  function Of(table: map<Key, seq<real>>, key: Key): seq<real> { if key in table then table[key] else [] }

  /** Each deque holds the accepted attempts of its key but for the oldest ones, which no later window reaches. */
  ghost predicate TableOk(events: map<Key, seq<real>>, attempts: map<Key, seq<real>>, maxEvents: int, window: real,
                          last: real)
  {
    forall key :: InTable(events, attempts, key, maxEvents, window, last)
  }

  ghost predicate InTable(events: map<Key, seq<real>>, attempts: map<Key, seq<real>>, key: Key, maxEvents: int,
                          window: real, last: real)
  {
    KeyOk(Of(events, key), Of(attempts, key), maxEvents, window, last)
  }

  lemma TableEmpty(maxEvents: int, window: real, last: real)
    ensures TableOk(map[], map[], maxEvents, window, last)
  {
  }

  lemma TableAt(events: map<Key, seq<real>>, attempts: map<Key, seq<real>>, key: Key, maxEvents: int, window: real,
                last: real)
    requires TableOk(events, attempts, maxEvents, window, last)
    ensures KeyOk(Of(events, key), Of(attempts, key), maxEvents, window, last)
  {
    assert InTable(events, attempts, key, maxEvents, window, last);
  }

  lemma TableStep(events: map<Key, seq<real>>, attempts: map<Key, seq<real>>, key: Key, next: seq<real>,
                  maxEvents: int, window: real, last: real, now: real)
    requires TableOk(events, attempts, maxEvents, window, last) && last <= now
    requires KeyOk(next, Of(attempts, key) + [now], maxEvents, window, now)
    ensures TableOk(events[key := next], attempts[key := Of(attempts, key) + [now]], maxEvents, window, now)
  {
    var e, a := events[key := next], attempts[key := Of(attempts, key) + [now]];
    forall other ensures InTable(e, a, other, maxEvents, window, now) {
      if other != key {
        assert InTable(events, attempts, other, maxEvents, window, last);
        KeyLater(Of(events, other), Of(attempts, other), maxEvents, window, last, now);
        assert Of(e, other) == Of(events, other) && Of(a, other) == Of(attempts, other);
      }
    }
  }

  lemma KeyLater(deque: seq<real>, history: seq<real>, maxEvents: int, window: real, last: real, now: real)
    requires KeyOk(deque, history, maxEvents, window, last) && last <= now
    ensures KeyOk(deque, history, maxEvents, window, now)
  {
  }

  lemma KeyDecides(deque: seq<real>, history: seq<real>, maxEvents: int, window: real, last: real, now: real)
    requires KeyOk(deque, history, maxEvents, window, last) && last <= now
    ensures Sorted(deque) && After(deque, now - window) == After(Accepted(history, maxEvents, window), now - window)
  {
    var accepted := Accepted(history, maxEvents, window);
    AcceptedSorted(history, maxEvents, window);
    TailSorted(deque, accepted, last - window);
    TailPruned(deque, accepted, last - window, now - window);
  }

  lemma {:induction false} KeyAdvises(deque: seq<real>, history: seq<real>, maxEvents: int, window: real, last: real,
                                      now: real)
    requires KeyOk(deque, history, maxEvents, window, last) && deque != []
    ensures var accepted := Accepted(history, maxEvents, window);
            var advice := RetryAdvice(deque, window, now);
            && advice >= 1
            && AdmitsAfter(accepted, maxEvents, window, now, advice)
            && (|deque| == maxEvents ==>
                  forall k: int :: 1 <= k < advice ==> !AdmitsAfter(accepted, maxEvents, window, now, k))
  {
    AcceptedSorted(history, maxEvents, window);
    RetryFits(deque, Accepted(history, maxEvents, window), maxEvents, window, now);
  }

  lemma AttemptExtends(history: seq<real>, maxEvents: int, window: real, now: real)
    ensures var accepted := Accepted(history, maxEvents, window);
            Accepted(history + [now], maxEvents, window) ==
              Push(accepted, Admits(accepted, maxEvents, window, now), now)
  {
    assert (history + [now])[..|history|] == history;
  }

  lemma PushKeepsOk(deque: seq<real>, history: seq<real>, accepted: seq<real>, maxEvents: int, window: real, now: real)
    requires Sorted(history) && (history != [] ==> history[|history| - 1] <= now)
    requires Accepted(history + [now], maxEvents, window) == accepted && IsTail(deque, accepted, now - window)
    requires deque != [] ==> |deque| <= maxEvents
    ensures KeyOk(deque, history + [now], maxEvents, window, now)
  {
    SortedPush(history, now);
  }

  /** One attempt: decided on the pruned deque, remembered in it when accepted. */
  ghost predicate Attempted(history: seq<real>, next: seq<real>, allowed: bool, maxEvents: int, window: real, now: real)
  {
    var accepted := Accepted(history, maxEvents, window);
    && allowed == Admits(accepted, maxEvents, window, now)
    && Accepted(history + [now], maxEvents, window) == Push(accepted, allowed, now)
    && next == Push(After(accepted, now - window), allowed, now)
  }

  lemma AttemptKeepsOk(history: seq<real>, next: seq<real>, allowed: bool, maxEvents: int, window: real, last: real,
                       now: real)
    requires Sorted(history) && (history != [] ==> history[|history| - 1] <= now)
    requires Attempted(history, next, allowed, maxEvents, window, now)
    ensures KeyOk(next, history + [now], maxEvents, window, now)
  {
    var accepted := Accepted(history, maxEvents, window);
    AcceptedSorted(history, maxEvents, window);
    AcceptedBounded(history, maxEvents, window);
    PrunedFits(accepted, maxEvents, window, now);
    TailAfter(accepted, now - window, allowed, now);
    PushKeepsOk(next, history, Push(accepted, allowed, now), maxEvents, window, now);
  }

  // ------------------------------------------------------------------ active users

  class ActiveUsersTracker {
    const window: int
    var lastSeen: map<nat, int>
    /** The last activity of every user ever, and the latest cutoff that was applied. */
    ghost var everSeen: map<nat, int>
    ghost var applied: int

    constructor (window: int, start: int)
      ensures Valid() && this.window == window && everSeen == map[] && applied == start
    {
      this.window := window;
      lastSeen, everSeen := map[], map[];
      applied := start;
    }

    /** Only users whose last activity no later window reaches are forgotten. */
    ghost predicate Valid()
      reads this
    {
      && (forall u :: u in lastSeen ==> u in everSeen && lastSeen[u] == everSeen[u])
      && (forall u :: u in everSeen && u !in lastSeen ==> everSeen[u] <= applied)
    }

    method Touch(user: nat, now: int)
      requires Valid()
      modifies this
      ensures Valid() && everSeen == old(everSeen)[user := now] && applied == old(applied)
    {
      lastSeen := lastSeen[user := now];
      everSeen := everSeen[user := now];
    }

    /** count_active: the users seen strictly inside the window, none forgotten. */
    method CountActive(now: int) returns (active: nat)
      requires Valid() && now - window >= applied
      modifies this
      ensures Valid() && everSeen == old(everSeen) && applied == now - window
      ensures active == |set u | u in everSeen && everSeen[u] > now - window|
      ensures lastSeen.Keys == set u | u in everSeen && everSeen[u] > now - window
    {
      var cutoff := now - window;
      var left := lastSeen.Keys;
      ghost var listed := lastSeen;
      assert lastSeen == Listed(listed, left, cutoff);
      assert Active(listed, left, cutoff) == {};
      active := 0;
      while left != {}
        invariant everSeen == old(everSeen) && applied == old(applied) && left <= listed.Keys
        invariant lastSeen == Listed(listed, left, cutoff) && active == |Active(listed, left, cutoff)|
        decreases |left|
      {
        var user :| user in left;
        VisitOne(listed, left, cutoff, user);
        if lastSeen[user] > cutoff {
          active := active + 1;
        } else {
          lastSeen := lastSeen - {user};
        }
        left := left - {user};
      }
      applied := cutoff;
      assert Active(listed, {}, cutoff) == set u | u in everSeen && everSeen[u] > now - window;
    }
  }

  /** Of the listed users, those not visited yet and those found active. */
  ghost function Listed(listed: map<nat, int>, left: set<nat>, cutoff: int): map<nat, int> {
    map u | u in listed && (u in left || listed[u] > cutoff) :: listed[u]
  }

  ghost function Active(listed: map<nat, int>, left: set<nat>, cutoff: int): set<nat> {
    set u | u in listed && u !in left && listed[u] > cutoff
  }

  lemma VisitOne(listed: map<nat, int>, left: set<nat>, cutoff: int, user: nat)
    requires user in left && left <= listed.Keys
    ensures var rest := left - {user};
            && user in Listed(listed, left, cutoff) && Listed(listed, left, cutoff)[user] == listed[user]
            && Listed(listed, rest, cutoff)
               == (if listed[user] > cutoff then Listed(listed, left, cutoff)
                   else Listed(listed, left, cutoff) - {user})
            && |Active(listed, rest, cutoff)| == |Active(listed, left, cutoff)| + if listed[user] > cutoff then 1 else 0
  {
    var rest := left - {user};
    if listed[user] > cutoff {
      assert Active(listed, rest, cutoff) == Active(listed, left, cutoff) + {user};
    } else {
      assert Active(listed, rest, cutoff) == Active(listed, left, cutoff);
    }
  }
}
