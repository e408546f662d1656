/**
 * The fixed-window rate limiter: one stored counter per scope and window, incremented by every call,
 * whatever order the clock readings of the replicas arrive in. Retention deletes old counters.
 */
module RateLimit {
  import opened Common

  /** `retention` is in seconds. */
  datatype Event = Call(scope: string, now: real) | Prune(now: real, retention: real)

  datatype Slot = Slot(scope: string, windowStart: int)

  function WindowStart(now: real, window: nat): int
    requires window > 0
  {
    (now / window as real).Floor * window
  }

  /** A window starts at a multiple of its length, and holds the reading it was taken from. */
  lemma WindowHoldsNow(now: real, window: nat)
    requires window > 0
    ensures WindowStart(now, window) as real <= now < (WindowStart(now, window) + window) as real
    ensures exists n: int :: WindowStart(now, window) == n * window
  {
    var n := (now / window as real).Floor;
    var w := window as real;
    Scaled(n as real, now / w, w);
    Scaled(now / w, n as real + 1.0, w);
    assert (now / w) * w == now;
    assert WindowStart(now, window) == n * window;
    assert (n * window) as real == n as real * window as real;
    assert (n * window + window) as real == (n as real + 1.0) * window as real;
  }

  lemma Scaled(a: real, b: real, y: real)
    requires y > 0.0
    ensures a <= b ==> a * y <= b * y
    ensures a < b ==> a * y < b * y
  {
  }

  ghost predicate Lands(e: Event, slot: Slot, window: nat)
    requires window > 0
  {
    e.Call? && e.scope == slot.scope && WindowStart(e.now, window) == slot.windowStart
  }

  /** `int(x)`: towards zero. */
  function Truncated(x: real): int {
    if x >= 0.0 then x.Floor else -((-x).Floor)
  }

  /** The integer next to `x` on the side of nought. */
  lemma TruncatedIsNext(x: real)
    ensures x >= 0.0 ==> Truncated(x) as real <= x < (Truncated(x) + 1) as real
    ensures x < 0.0 ==> (Truncated(x) - 1) as real < x <= Truncated(x) as real <= 0.0
  {
  }

  function Cutoff(now: real, retention: real): int {
    Truncated(now - retention)
  }

  ghost predicate Hits(e: Event, slot: Slot) {
    e.Prune? && slot.windowStart < Cutoff(e.now, e.retention)
  }

  /** The counter of a slot, read off the history: calls since the last deletion that hit it. */
  ghost function Count(history: seq<Event>, slot: Slot, window: nat): nat
    requires window > 0
  {
    if history == [] then 0
    else
      var before, last := Count(history[..|history| - 1], slot, window), history[|history| - 1];
      if Hits(last, slot) then 0 else if Lands(last, slot, window) then before + 1 else before
  }

  function Stored(counts: map<Slot, nat>, slot: Slot): nat {
    if slot in counts then counts[slot] else 0
  }

  class RateLimiter {
    const window: nat
    var counts: map<Slot, nat>
    ghost var history: seq<Event>

    ghost predicate Valid()
      reads this
    {
      window > 0 && forall slot :: Stored(counts, slot) == Count(history, slot, window)
    }

    constructor (window: nat)
      requires window > 0
      ensures Valid() && history == [] && this.window == window
    {
      this.window, counts, history := window, map[], [];
    }

    method CheckRateLimit(scope: string, limit: int, now: real) returns (within: bool)
      requires Valid()
      modifies this
      ensures Valid() && history == old(history) + [Call(scope, now)]
      ensures within <==> Count(history, Slot(scope, WindowStart(now, window)), window) <= limit
    {
      var slot := Slot(scope, WindowStart(now, window));
      var count := Stored(counts, slot) + 1;
      counts := counts[slot := count];
      history := history + [Call(scope, now)];
      assert history[..|history| - 1] == old(history);
      return count <= limit;
    }

    /** The counters deleted with the stale events of finished runs. */
    method PruneWindows(now: real, retention: real)
      requires Valid()
      modifies this
      ensures Valid() && history == old(history) + [Prune(now, retention)]
    {
      var cutoff := Cutoff(now, retention);
      counts := map slot | slot in counts && slot.windowStart >= cutoff :: counts[slot];
      history := history + [Prune(now, retention)];
      assert history[..|history| - 1] == old(history);
    }
  }

  // ----- How many calls are admitted -----

  function Most(limit: int): nat {
    if limit < 0 then 0 else limit
  }

  /** The last event is a call of this slot that was within the limit. */
  ghost predicate Admits(history: seq<Event>, slot: Slot, window: nat, limit: int)
    requires window > 0 && history != []
  {
    Lands(history[|history| - 1], slot, window) && Count(history, slot, window) <= limit
  }

  ghost function Admitted(history: seq<Event>, slot: Slot, window: nat, limit: int): nat
    requires window > 0
  {
    if history == [] then 0
    else Admitted(history[..|history| - 1], slot, window, limit) + if Admits(history, slot, window, limit) then 1 else 0
  }

  ghost function Calls(history: seq<Event>, slot: Slot, window: nat): nat
    requires window > 0
  {
    if history == [] then 0
    else Calls(history[..|history| - 1], slot, window) + if Lands(history[|history| - 1], slot, window) then 1 else 0
  }

  ghost function Spent(count: nat, limit: int): nat {
    if count <= Most(limit) then count else Most(limit)
  }

  /** What the counter had let through each time a deletion reset it. */
  ghost function Forgotten(history: seq<Event>, slot: Slot, window: nat, limit: int): nat
    requires window > 0
  {
    if history == [] then 0
    else
      var front := history[..|history| - 1];
      Forgotten(front, slot, window, limit)
      + if Hits(history[|history| - 1], slot) then Spent(Count(front, slot, window), limit) else 0
  }

  /** Exactly what a window admits: up to `limit` calls in each stretch between the deletions that hit it. */
  lemma {:induction false} WindowAdmits(history: seq<Event>, slot: Slot, window: nat, limit: int)
    requires window > 0
    ensures Admitted(history, slot, window, limit)
         == Forgotten(history, slot, window, limit) + Spent(Count(history, slot, window), limit)
  {
    if history != [] {
      WindowAdmits(history[..|history| - 1], slot, window, limit);
    }
  }

  // ----- When a deletion can touch a window that is still being called -----

  /** Some deletion resets the slot before a later call of it. */
  ghost predicate DeletesOpen(history: seq<Event>, slot: Slot, window: nat)
    requires window > 0
  {
    exists i, j :: 0 <= i < j < |history| && Hits(history[i], slot) && Lands(history[j], slot, window)
  }

  ghost predicate NeverHit(history: seq<Event>, slot: Slot) {
    forall i :: 0 <= i < |history| ==> !Hits(history[i], slot)
  }

  lemma {:induction false} NeverHitCountsAll(history: seq<Event>, slot: Slot, window: nat)
    requires window > 0 && NeverHit(history, slot)
    ensures Count(history, slot, window) == Calls(history, slot, window)
  {
    if history != [] {
      NeverHitCountsAll(history[..|history| - 1], slot, window);
    }
  }

  lemma FrontDeletesNoOpen(history: seq<Event>, slot: Slot, window: nat)
    requires window > 0 && history != [] && !DeletesOpen(history, slot, window)
    ensures !DeletesOpen(history[..|history| - 1], slot, window)
    ensures Lands(history[|history| - 1], slot, window) ==> NeverHit(history, slot)
  {
    var n := |history| - 1;
    forall i, j | 0 <= i < j < n ensures !(Hits(history[..n][i], slot) && Lands(history[..n][j], slot, window)) {
      assert history[..n][i] == history[i] && history[..n][j] == history[j];
    }
  }

  /** A window whose counter is not reset while it is called admits exactly its first `limit` calls. */
  lemma {:induction false} WindowAdmitsExactly(history: seq<Event>, slot: Slot, window: nat, limit: int)
    requires window > 0 && !DeletesOpen(history, slot, window)
    ensures Admitted(history, slot, window, limit) == Spent(Calls(history, slot, window), limit)
  {
    if history != [] {
      FrontDeletesNoOpen(history, slot, window);
      WindowAdmitsExactly(history[..|history| - 1], slot, window, limit);
      if Lands(history[|history| - 1], slot, window) {
        NeverHitCountsAll(history, slot, window);
      }
    }
  }

  /** Readings of one clock that does not step back, and deletions that all keep `retention` seconds. */
  ghost predicate Timely(history: seq<Event>, retention: real) {
    (forall i :: 0 <= i < |history| ==> history[i].now >= 0.0 && (history[i].Prune? ==> history[i].retention == retention))
    && forall i, j :: 0 <= i < j < |history| ==> history[i].now <= history[j].now
  }

  lemma FloorBracket(now: real, w: real)
    requires w > 0.0
    ensures (now / w).Floor as real * w <= now < (now / w).Floor as real * w + w
  {
    Quotient(now, w);
    Bracket((now / w).Floor as real, now / w, w, now);
  }

  lemma Quotient(x: real, w: real)
    requires w > 0.0
    ensures (x / w) * w == x
  {
  }

  lemma WholeBracket(f: int, now: real, window: nat)
    requires f as real * window as real <= now < f as real * window as real + window as real
    ensures (f * window) as real <= now < (f * window) as real + window as real
  {
    ProductAsReal(f, window);
  }

  lemma WindowHolds(now: real, window: nat)
    requires window > 0
    ensures WindowStart(now, window) as real <= now < WindowStart(now, window) as real + window as real
  {
    FloorBracket(now, window as real);
    WholeBracket((now / window as real).Floor, now, window);
  }

  lemma WindowAfterEpoch(now: real, window: nat)
    requires window > 0 && now >= 0.0
    ensures WindowStart(now, window) >= 0
  {
    SharesAdd(0.0, now, window as real);
    ProductAsReal((now / window as real).Floor, window);
  }

  lemma ProductAsReal(a: int, b: int)
    ensures (a * b) as real == a as real * b as real
    ensures a >= 0 && b >= 0 ==> a * b >= 0
  {
  }

  lemma Share(d: real, w: real)
    requires w > 0.0 && 0.0 <= d < 1.0
    ensures 0.0 <= d * w < w
  {
    assert (1.0 - d) * w == w - d * w;
  }

  lemma Parts(f: real, d: real, w: real)
    ensures (f + d) * w == f * w + d * w
  {
  }

  lemma Between(x: real, y: real, w: real)
    requires 0.0 <= y < w
    ensures x <= x + y < x + w
  {
  }

  lemma Bracket(f: real, q: real, w: real, now: real)
    requires w > 0.0 && f <= q < f + 1.0 && q * w == now
    ensures f * w <= now < f * w + w
  {
    var d := q - f;
    Share(d, w);
    Parts(f, d, w);
    assert f + d == q;
    Between(f * w, d * w, w);
  }

  lemma LongRetentionKeepsOpen(history: seq<Event>, slot: Slot, window: nat, retention: real)
    requires window > 0 && Timely(history, retention) && retention + 1.0 >= window as real
    ensures !DeletesOpen(history, slot, window)
  {
    forall i, j | 0 <= i < j < |history| && Lands(history[j], slot, window) ensures !Hits(history[i], slot) {
      WindowHolds(history[j].now, window);
      WindowAfterEpoch(history[j].now, window);
    }
  }

  /** A call, a deletion inside the same window and another call: both are let through where one should be. */
  lemma ShortRetentionForgets(window: nat, retention: real) returns (history: seq<Event>, slot: Slot)
    requires window > 0 && retention + 1.0 < window as real
    ensures Timely(history, retention) && DeletesOpen(history, slot, window)
    ensures Admitted(history, slot, window, 1) == 2
  {
    var at := Max(0.0, retention + 1.0);
    slot, history := Slot("s", 0), [Call("s", 0.0), Prune(at, retention), Call("s", at)];
    StartsAtZero(0.0, window);
    StartsAtZero(at, window);
    assert Hits(history[1], slot) && Lands(history[2], slot, window);
    HitBetweenCalls(history[0], history[1], history[2], slot, window);
  }

  lemma HitBetweenCalls(first: Event, deletion: Event, last: Event, slot: Slot, window: nat)
    requires window > 0 && Lands(first, slot, window) && Hits(deletion, slot) && Lands(last, slot, window)
    ensures Admitted([first, deletion, last], slot, window, 1) == 2
  {
    var one, two, three := [first], [first, deletion], [first, deletion, last];
    assert three[..2] == two && two[..1] == one && one[..0] == [];
    assert Count(one, slot, window) == 1 && Count(two, slot, window) == 0 && Count(three, slot, window) == 1;
    assert Admitted(one, slot, window, 1) == 1 && Admitted(two, slot, window, 1) == 1;
  }

  lemma StartsAtZero(now: real, window: nat)
    requires window > 0 && 0.0 <= now < window as real
    ensures WindowStart(now, window) == 0
  {
    var w := window as real;
    SharesAdd(0.0, now, w);
    SharesAdd(now, w, w);
    assert 0.0 / w == 0.0 && w / w == 1.0;
    assert (now / w).Floor == 0;
  }

  /** No run deletes a window that is still called exactly when the retention is no shorter than the window less a second. */
  lemma OpenWindowsSurviveIff(window: nat, retention: real)
    requires window > 0
    ensures (forall history, slot :: Timely(history, retention) ==> !DeletesOpen(history, slot, window))
        <==> retention + 1.0 >= window as real
  {
    if retention + 1.0 >= window as real {
      forall history, slot | Timely(history, retention) ensures !DeletesOpen(history, slot, window) {
        LongRetentionKeepsOpen(history, slot, window, retention);
      }
    } else {
      var history, slot := ShortRetentionForgets(window, retention);
    }
  }

  const DAY: nat := 86400

  /** Whole days of retention are enough for every window up to a day, and none is not enough. */
  lemma OneDayIsEnough(window: nat, days: int)
    requires 1 < window <= DAY
    ensures (forall history, slot :: Timely(history, (days * DAY) as real) ==> !DeletesOpen(history, slot, window))
        <==> days >= 1
  {
    OpenWindowsSurviveIff(window, (days * DAY) as real);
  }

  /** Calls of a scope read in the half-open interval, and admitted by the counter of their window. */
  ghost function AdmittedBetween(history: seq<Event>, scope: string, from: real, until: real, window: nat, limit: int): nat
    requires window > 0
  {
    if history == [] then 0
    else
      var last := history[|history| - 1];
      AdmittedBetween(history[..|history| - 1], scope, from, until, window, limit)
      + if last.Call? && last.scope == scope && from <= last.now < until
           && Admits(history, Slot(scope, WindowStart(last.now, window)), window, limit) then 1 else 0
  }

  lemma FloorOfNext(a: real, b: real)
    requires a <= b < a + 1.0
    ensures b.Floor == a.Floor || b.Floor == a.Floor + 1
  {
  }

  lemma IntervalMeetsTwoWindows(from: real, now: real, window: nat)
    requires window > 0 && from <= now < from + window as real
    ensures WindowStart(now, window) == WindowStart(from, window)
            || WindowStart(now, window) == WindowStart(from, window) + window
  {
    var w := window as real;
    SharesAdd(from, w, w);
    SharesAdd(from, now, w);
    SharesAdd(now, from + w, w);
    assert w / w == 1.0;
    FloorOfNext(from / w, now / w);
    assert ((from / w).Floor + 1) * window == (from / w).Floor * window + window;
  }

  lemma {:induction false} IntervalIsTwoWindows(
    history: seq<Event>, scope: string, from: real, window: nat, limit: int)
    requires window > 0
    ensures AdmittedBetween(history, scope, from, from + window as real, window, limit)
         <= Admitted(history, Slot(scope, WindowStart(from, window)), window, limit)
          + Admitted(history, Slot(scope, WindowStart(from, window) + window), window, limit)
  {
    if history != [] {
      IntervalIsTwoWindows(history[..|history| - 1], scope, from, window, limit);
      var last := history[|history| - 1];
      if last.Call? && from <= last.now < from + window as real {
        IntervalMeetsTwoWindows(from, last.now, window);
      }
    }
  }

  /**
   * Any half-open interval of one window's length admits at most twice the limit, in whatever order the
   * readings come, as long as no deletion resets one of the two windows it meets while it is called.
   */
  lemma AnyIntervalAdmitsTwiceTheLimit(history: seq<Event>, scope: string, from: real, window: nat, limit: int)
    requires window > 0
    requires !DeletesOpen(history, Slot(scope, WindowStart(from, window)), window)
    requires !DeletesOpen(history, Slot(scope, WindowStart(from, window) + window), window)
    ensures AdmittedBetween(history, scope, from, from + window as real, window, limit) <= 2 * Most(limit)
  {
    IntervalIsTwoWindows(history, scope, from, window, limit);
    WindowAdmitsExactly(history, Slot(scope, WindowStart(from, window)), window, limit);
    WindowAdmitsExactly(history, Slot(scope, WindowStart(from, window) + window), window, limit);
  }

  /** The bound is reached: `limit` calls late in one window and `limit` early in the next. */
  lemma TwiceTheLimitIsReached()
    ensures AdmittedBetween([Call("s", 9.0), Call("s", 10.0)], "s", 9.0, 19.0, 10, 1) == 2
  {
    var history := [Call("s", 9.0), Call("s", 10.0)];
    assert history[..1] == [Call("s", 9.0)] && [Call("s", 9.0)][..0] == [];
    assert WindowStart(9.0, 10) == 0 && WindowStart(10.0, 10) == 10;
    assert Count([Call("s", 9.0)], Slot("s", 0), 10) == 1 && Count([Call("s", 9.0)], Slot("s", 10), 10) == 0;
    assert Count(history, Slot("s", 10), 10) == 1;
    assert AdmittedBetween([Call("s", 9.0)], "s", 9.0, 19.0, 10, 1) == 1;
  }
}
