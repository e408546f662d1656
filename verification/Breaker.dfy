/**
 * The per-provider circuit breaker, proved against the history of what was reported to it: its few
 * fields always say how many failures came since the last success, and when the latest was.
 */
module Breaker {
  import opened Common

  datatype KeyState = KeyState(fails: nat, openedAt: Option<real>)

  const CLOSED: KeyState := KeyState(0, None)

  datatype Report = Asked(key: string) | Succeeded(key: string) | Failed(key: string, at: real)

  // ----- The history, read backwards -----

  ghost predicate Touched(history: seq<Report>, key: string) {
    exists i :: 0 <= i < |history| && history[i].key == key
  }

  /** Failures of the key since its last success. */
  ghost function FailuresInARow(history: seq<Report>, key: string): nat {
    if history == [] then 0
    else
      var front, last := history[..|history| - 1], history[|history| - 1];
      if last.key != key || last.Asked? then FailuresInARow(front, key)
      else if last.Succeeded? then 0
      else FailuresInARow(front, key) + 1
  }

  ghost function LatestFailure(history: seq<Report>, key: string): Option<real> {
    if history == [] then None
    else
      var last := history[|history| - 1];
      if last.Failed? && last.key == key then Some(last.at) else LatestFailure(history[..|history| - 1], key)
  }

  /** A threshold below one acts like one, since the count is taken after the first failure. */
  function Needed(threshold: int): nat {
    if threshold < 1 then 1 else threshold
  }

  ghost predicate Tripped(threshold: int, history: seq<Report>, key: string) {
    FailuresInARow(history, key) >= Needed(threshold)
  }

  lemma {:induction false} FailuresHaveALatest(history: seq<Report>, key: string)
    requires FailuresInARow(history, key) > 0
    ensures LatestFailure(history, key).Some?
  {
    var last := history[|history| - 1];
    if !(last.Failed? && last.key == key) {
      FailuresHaveALatest(history[..|history| - 1], key);
    }
  }

  /** Whether a call may proceed at `now`, said of the history alone. */
  ghost predicate MayCall(threshold: int, reset: real, history: seq<Report>, key: string, now: real) {
    Tripped(threshold, history, key) ==>
      LatestFailure(history, key).Some? && now - LatestFailure(history, key).value >= reset
  }

  /** What the two fields of a key must be. */
  ghost predicate Reflects(threshold: int, history: seq<Report>, key: string, state: KeyState) {
    state.openedAt == (if Tripped(threshold, history, key) then LatestFailure(history, key) else None)
    && state.fails == (if Tripped(threshold, history, key) then Needed(threshold) else FailuresInARow(history, key))
  }

  function StateOf(states: map<string, KeyState>, key: string): KeyState {
    if key in states then states[key] else CLOSED
  }

  ghost predicate RefinesHistory(threshold: int, history: seq<Report>, states: map<string, KeyState>) {
    forall key :: Reflects(threshold, history, key, StateOf(states, key)) && (key in states <==> Touched(history, key))
  }

  lemma TouchedByLast(history: seq<Report>, last: Report, key: string)
    ensures Touched(history + [last], key) <==> Touched(history, key) || key == last.key
  {
    var longer := history + [last];
    if Touched(history, key) {
      var i :| 0 <= i < |history| && history[i].key == key;
      assert longer[i].key == key;
    }
    if key == last.key {
      assert longer[|history|].key == key;
    }
  }

  lemma ReportElsewhere(threshold: int, history: seq<Report>, last: Report, key: string, state: KeyState)
    requires Reflects(threshold, history, key, state) && (last.key != key || last.Asked?)
    ensures Reflects(threshold, history + [last], key, state)
  {
  }

  lemma SuccessCloses(threshold: int, history: seq<Report>, key: string)
    ensures Reflects(threshold, history + [Succeeded(key)], key, CLOSED)
  {
  }

  lemma FailureCounts(threshold: int, history: seq<Report>, key: string, at: real)
    ensures FailuresInARow(history + [Failed(key, at)], key) == FailuresInARow(history, key) + 1
    ensures LatestFailure(history + [Failed(key, at)], key) == Some(at)
  {
  }

  /** One more report keeps the refinement when the key's new state reflects the longer history. */
  lemma OneMoreReport(
    threshold: int, history: seq<Report>, states: map<string, KeyState>, last: Report, state: KeyState)
    requires RefinesHistory(threshold, history, states)
    requires Reflects(threshold, history + [last], last.key, state)
    ensures RefinesHistory(threshold, history + [last], states[last.key := state])
  {
  }

  datatype Phase = Closed | Open | HalfOpen

  datatype Health = Health(phase: Phase, retryIn: Option<real>, consecutiveFailures: nat)

  /** `round(x, 2)`. */
  function Round2(x: real): real {
    Nearest(x * 100.0) as real / 100.0
  }

  /** A tripped key may be called exactly from `left` after `now` on. */
  ghost predicate ComesDueIn(threshold: int, reset: real, history: seq<Report>, key: string, now: real, left: real) {
    forall later: real :: MayCall(threshold, reset, history, key, later) <==> later >= now + left
  }

  /** What the health view must say of a key: the same as `Allow` at that instant, and the rounded wait left. */
  ghost predicate Agrees(threshold: int, reset: real, history: seq<Report>, key: string, now: real, health: Health) {
    (health.phase.Closed? <==> !Tripped(threshold, history, key))
    && (health.phase.Open? <==> !MayCall(threshold, reset, history, key, now))
    && (health.phase.Closed? <==> health.retryIn.None?)
    && (health.phase.HalfOpen? ==> health.retryIn == Some(0.0))
    && (health.phase.Open? ==>
          exists left: real :: ComesDueIn(threshold, reset, history, key, now, left) && health.retryIn == Some(Round2(left)))
    && health.consecutiveFailures == if Tripped(threshold, history, key) then Needed(threshold) else FailuresInARow(history, key)
  }

  /** The advertised wait is right to half a hundredth: waiting that much longer is enough, that much less is not. */
  lemma AdvertisedWaitIsNear(
    threshold: int, reset: real, history: seq<Report>, key: string, now: real, health: Health, later: real)
    requires Agrees(threshold, reset, history, key, now, health) && health.phase.Open?
    ensures health.retryIn.Some? && health.retryIn.value >= 0.0
    ensures later >= now + health.retryIn.value + 0.005 ==> MayCall(threshold, reset, history, key, later)
    ensures later < now + health.retryIn.value - 0.005 ==> !MayCall(threshold, reset, history, key, later)
  {
    var left: real :| ComesDueIn(threshold, reset, history, key, now, left) && health.retryIn == Some(Round2(left));
    assert !MayCall(threshold, reset, history, key, now);
  }

  class CircuitBreaker {
    const threshold: int
    const reset: real
    var states: map<string, KeyState>
    ghost var history: seq<Report>

    ghost predicate Valid()
      reads this
    {
      RefinesHistory(threshold, history, states)
    }

    constructor (threshold: int, reset: real)
      ensures Valid() && this.threshold == threshold && this.reset == reset && history == []
    {
      this.threshold, this.reset := threshold, reset;
      states, history := map[], [];
    }

    method Allow(key: string, now: real) returns (may: bool)
      requires Valid()
      modifies this
      ensures Valid() && history == old(history) + [Asked(key)]
      ensures may <==> MayCall(threshold, reset, history, key, now)
      ensures may <==> MayCall(threshold, reset, old(history), key, now)
    {
      var state := StateOf(states, key);
      assert Reflects(threshold, history, key, state);
      ReportElsewhere(threshold, history, Asked(key), key, state);
      OneMoreReport(threshold, history, states, Asked(key), state);
      states := states[key := state];
      history := history + [Asked(key)];
      TrippedIsOpen(key, state);
      if state.openedAt.None? {
        return true;
      }
      return now - state.openedAt.value >= reset;
    }

    lemma TrippedIsOpen(key: string, state: KeyState)
      requires Reflects(threshold, history, key, state)
      ensures state.openedAt.Some? <==> Tripped(threshold, history, key)
    {
      if Tripped(threshold, history, key) {
        FailuresHaveALatest(history, key);
      }
    }

    /** Answers the opposite of `Allow` at the same instant, without touching the key. */
    method IsOpen(key: string, now: real) returns (open: bool)
      requires Valid()
      ensures open <==> !MayCall(threshold, reset, history, key, now)
    {
      assert Reflects(threshold, history, key, StateOf(states, key));
      TrippedIsOpen(key, StateOf(states, key));
      open := key in states && states[key].openedAt.Some? && now - states[key].openedAt.value < reset;
    }

    method OnSuccess(key: string) returns (closed: bool)
      requires Valid()
      modifies this
      ensures Valid() && history == old(history) + [Succeeded(key)]
      ensures closed <==> Tripped(threshold, old(history), key)
    {
      assert Reflects(threshold, history, key, StateOf(states, key));
      TrippedIsOpen(key, StateOf(states, key));
      closed := StateOf(states, key).openedAt.Some?;
      SuccessCloses(threshold, history, key);
      OneMoreReport(threshold, history, states, Succeeded(key), CLOSED);
      states := states[key := CLOSED];
      history := history + [Succeeded(key)];
    }

    method OnFailure(key: string, now: real) returns (trips: bool)
      requires Valid()
      modifies this
      ensures Valid() && history == old(history) + [Failed(key, now)]
      ensures trips <==> !Tripped(threshold, old(history), key) && Tripped(threshold, history, key)
    {
      var state := StateOf(states, key);
      assert Reflects(threshold, history, key, state);
      TrippedIsOpen(key, state);
      FailureCounts(threshold, history, key, now);
      trips := false;
      if state.openedAt.Some? {
        state := state.(openedAt := Some(now));
      } else {
        state := state.(fails := state.fails + 1);
        if state.fails >= threshold {
          state := state.(openedAt := Some(now));
          trips := true;
        }
      }
      OneMoreReport(threshold, history, states, Failed(key, now), state);
      states := states[key := state];
      history := history + [Failed(key, now)];
    }

    /** The health view: one entry per touched key, agreeing with `Allow` and `IsOpen` at that instant. */
    method Snapshot(now: real) returns (view: map<string, Health>)
      requires Valid()
      ensures forall key :: key in view <==> Touched(history, key)
      ensures forall key :: key in view ==> Agrees(threshold, reset, history, key, now, view[key])
    {
      view := map[];
      var rest := states.Keys;
      while rest != {}
        invariant rest <= states.Keys && view.Keys == states.Keys - rest
        invariant forall key :: key in view ==> Agrees(threshold, reset, history, key, now, view[key])
        decreases rest
      {
        var key :| key in rest;
        var state := states[key];
        assert Reflects(threshold, history, key, StateOf(states, key));
        TrippedIsOpen(key, state);
        if state.openedAt.None? {
          view := view[key := Health(Closed, None, state.fails)];
        } else {
          var left := reset - (now - state.openedAt.value);
          if left > 0.0 {
            assert ComesDueIn(threshold, reset, history, key, now, left);
            view := view[key := Health(Open, Some(Round2(left)), state.fails)];
          } else {
            view := view[key := Health(HalfOpen, Some(0.0), state.fails)];
          }
        }
        rest := rest - {key};
      }
      assert forall key :: key in states <==> Touched(history, key);
    }
  }

  // ----- The edges the caller sees -----

  datatype Edge = Opened | ClosedAgain

  /** The True answers about a key, in order: `on_failure` opening it and `on_success` closing it. */
  ghost function Edges(threshold: int, history: seq<Report>, key: string): seq<Edge> {
    if history == [] then []
    else
      var front, last := history[..|history| - 1], history[|history| - 1];
      Edges(threshold, front, key)
      + if last == Succeeded(key) && Tripped(threshold, front, key) then [ClosedAgain]
        else if last.Failed? && last.key == key && !Tripped(threshold, front, key) && Tripped(threshold, history, key)
        then [Opened] else []
  }

  ghost predicate Alternating(edges: seq<Edge>) {
    forall i :: 0 <= i < |edges| ==> edges[i] == if i % 2 == 0 then Opened else ClosedAgain
  }

  /** Openings and closings strictly alternate, openings first, and an odd number means tripped. */
  lemma {:induction false} EdgesAlternate(threshold: int, history: seq<Report>, key: string)
    ensures Alternating(Edges(threshold, history, key))
    ensures Tripped(threshold, history, key) <==> |Edges(threshold, history, key)| % 2 == 1
  {
    if history != [] {
      EdgesAlternate(threshold, history[..|history| - 1], key);
    }
  }

  /** Waiting is enough: a tripped key may be tried again once `reset` has passed since its latest failure. */
  lemma TrialComesDue(threshold: int, reset: real, history: seq<Report>, key: string, now: real, later: real)
    requires MayCall(threshold, reset, history, key, now) && now <= later
    ensures MayCall(threshold, reset, history, key, later)
  {
  }

  /** Being asked about is being touched: a key with no failure at all is listed once a call was considered. */
  lemma AskingListsTheKey(history: seq<Report>, key: string)
    ensures Touched(history + [Asked(key)], key) && FailuresInARow([Asked(key)], key) == 0
  {
    TouchedByLast(history, Asked(key), key);
    assert [Asked(key)][..0] == [];
  }

  function FailuresAt(key: string, times: seq<real>): seq<Report> {
    if times == [] then [] else FailuresAt(key, times[..|times| - 1]) + [Failed(key, times[|times| - 1])]
  }

  lemma {:induction false} FailuresAdd(before: seq<Report>, key: string, times: seq<real>)
    requires before == [] || before[|before| - 1] == Succeeded(key)
    ensures FailuresInARow(before + FailuresAt(key, times), key) == |times|
    ensures times != [] ==> LatestFailure(before + FailuresAt(key, times), key) == Some(times[|times| - 1])
  {
    if times == [] {
      assert before + [] == before;
    } else {
      var front, last := times[..|times| - 1], Failed(key, times[|times| - 1]);
      FailuresAdd(before, key, front);
      assert before + FailuresAt(key, times) == before + FailuresAt(key, front) + [last];
      FailureCounts(0, before + FailuresAt(key, front), key, last.at);
    }
  }

  /**
   * After a success, or from the start, fewer failures in a row than the threshold never stop a call; as many or more
   * stop it until the reset time has passed since the latest. A threshold below one acts like one.
   */
  lemma OpensAtTheThreshold(threshold: int, reset: real, before: seq<Report>, key: string, times: seq<real>, now: real)
    requires before == [] || before[|before| - 1] == Succeeded(key)
    ensures MayCall(threshold, reset, before + FailuresAt(key, times), key, now) <==>
            times == [] || |times| < threshold || now - times[|times| - 1] >= reset
  {
    FailuresAdd(before, key, times);
  }
}
