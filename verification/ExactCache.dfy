/**
 * The two-level exact cache: a bounded first level in recency order over an optional written-through
 * second level. The first level never rewrites the value of a key it already holds.
 */
module ExactCache {
  import opened Common

  /** `order` lists the keys of `mem`, least recent first. */
  datatype Cache = Cache(order: seq<string>, mem: map<string, string>, disk: Option<map<string, string>>)

  ghost predicate Distinct(keys: seq<string>) {
    forall i, j :: 0 <= i < j < |keys| ==> keys[i] != keys[j]
  }

  ghost predicate WellKept(c: Cache, capacity: nat) {
    |c.order| <= capacity
    && Distinct(c.order)
    && forall key :: key in c.mem <==> key in c.order
  }

  function Without(keys: seq<string>, key: string): seq<string> {
    if keys == [] then []
    else Without(keys[..|keys| - 1], key) + if keys[|keys| - 1] == key then [] else [keys[|keys| - 1]]
  }

  /** `_mem_set`: promote a held key as it is, or evict the least recent one and insert. */
  function Kept(c: Cache, key: string, raw: string, capacity: nat): Cache {
    if key in c.mem then c.(order := Without(c.order, key) + [key])
    else if |c.order| >= capacity > 0 && c.order != [] then
      c.(order := c.order[1..] + [key], mem := (c.mem - {c.order[0]})[key := raw])
    else c.(order := c.order + [key], mem := c.mem[key := raw])
  }

  function Answer(c: Cache, key: string): Option<string> {
    if key in c.mem then Some(c.mem[key])
    else if c.disk.Some? && key in c.disk.value then Some(c.disk.value[key])
    else None
  }

  function AfterGet(c: Cache, key: string, capacity: nat): Cache {
    match Answer(c, key)
    case None => c
    case Some(raw) => Kept(c, key, raw, capacity)
  }

  function AfterPut(c: Cache, key: string, raw: string, capacity: nat): Cache {
    var kept := Kept(c, key, raw, capacity);
    if c.disk.Some? then kept.(disk := Some(c.disk.value[key := raw])) else kept
  }

  // ----- The methods -----

  method Promoted(keys: seq<string>, key: string) returns (rest: seq<string>)
    ensures rest == Without(keys, key)
  {
    rest := [];
    for i := 0 to |keys|
      invariant rest == Without(keys[..i], key)
    {
      assert keys[..i + 1][..i] == keys[..i];
      if keys[i] != key {
        rest := rest + [keys[i]];
      }
    }
    assert keys[..|keys|] == keys;
  }

  class ExactCache {
    const maxEntries: int
    var order: seq<string>
    var mem: map<string, string>
    var disk: Option<map<string, string>>

    ghost function State(): Cache
      reads this
    {
      Cache(order, mem, disk)
    }

    ghost function Capacity(): nat {
      if maxEntries < 1 then 0 else maxEntries
    }

    ghost predicate Valid()
      reads this
    {
      WellKept(State(), Capacity())
    }

    constructor (maxEntries: int, disk: Option<map<string, string>>)
      ensures Valid() && this.maxEntries == maxEntries && State() == Cache([], map[], disk)
    {
      this.maxEntries, order, mem, this.disk := maxEntries, [], map[], disk;
    }

    /** With no room at all there is nothing to evict, and inserting raises. */
    method MemSet(key: string, raw: string) returns (ok: bool)
      requires Valid()
      modifies this`order, this`mem
      ensures Valid() && (ok <==> maxEntries >= 1)
      ensures State() == if ok then Kept(old(State()), key, raw, Capacity()) else old(State())
    {
      KeptIsWellKept(State(), key, raw, Capacity());
      if key in mem {
        order := Promoted(order, key);
        order := order + [key];
      } else {
        if |order| >= maxEntries {
          if order == [] {
            return false;
          }
          mem := mem - {order[0]};
          order := order[1..];
        }
        mem := mem[key := raw];
        order := order + [key];
      }
      return true;
    }

    /** `failed` is a lookup that found its key on the second level but could not warm the first. */
    method Get(key: string) returns (found: Option<string>, failed: bool)
      requires Valid()
      modifies this`order, this`mem
      ensures Valid() && (failed <==> maxEntries < 1 && Answer(old(State()), key).Some?)
      ensures !failed ==> found == Answer(old(State()), key) && State() == AfterGet(old(State()), key, Capacity())
      ensures failed ==> State() == old(State())
    {
      if key in mem {
        KeptIsWellKept(State(), key, mem[key], Capacity());
        found := Some(mem[key]);
        order := Promoted(order, key);
        order := order + [key];
        return found, false;
      }
      if disk.Some? && key in disk.value {
        var raw := disk.value[key];
        var ok := MemSet(key, raw);
        return Some(raw), !ok;
      }
      return None, false;
    }

    method Put(key: string, raw: string) returns (ok: bool)
      requires Valid()
      modifies this
      ensures Valid() && (ok <==> maxEntries >= 1)
      ensures State() == if ok then AfterPut(old(State()), key, raw, Capacity()) else old(State())
    {
      ok := MemSet(key, raw);
      if ok && disk.Some? {
        disk := Some(disk.value[key := raw]);
      }
    }
  }

  // ----- One step -----

  lemma {:induction false} WithoutDrops(keys: seq<string>, key: string)
    requires Distinct(keys)
    ensures Distinct(Without(keys, key)) && forall k :: k in Without(keys, key) <==> k in keys && k != key
    ensures |Without(keys, key)| == if key in keys then |keys| - 1 else |keys|
  {
    if keys != [] {
      var front, last := keys[..|keys| - 1], keys[|keys| - 1];
      assert keys == front + [last];
      forall i, j | 0 <= i < j < |front| ensures front[i] != front[j] {
        assert front[i] == keys[i] && front[j] == keys[j];
      }
      assert last !in front;
      WithoutDrops(front, key);
    }
  }

  /** The first level stays within its capacity and its order lists exactly its keys. */
  lemma KeptIsWellKept(c: Cache, key: string, raw: string, capacity: nat)
    requires WellKept(c, capacity)
    ensures capacity >= 1 ==> WellKept(Kept(c, key, raw, capacity), capacity)
    ensures capacity == 0 ==> c.order == [] && key !in c.mem
  {
    WithoutDrops(c.order, key);
    if capacity == 0 {
      assert key in c.mem <==> key in c.order;
    } else if key !in c.mem && |c.order| >= capacity {
      assert c.order == [c.order[0]] + c.order[1..];
    }
  }

  // ----- Runs -----

  datatype Op = Get(key: string) | Put(key: string, raw: string)

  function After(c: Cache, op: Op, capacity: nat): Cache {
    match op
    case Get(key) => AfterGet(c, key, capacity)
    case Put(key, raw) => AfterPut(c, key, raw, capacity)
  }

  ghost function StateAt(start: Cache, ops: seq<Op>, capacity: nat): Cache {
    if ops == [] then start else After(StateAt(start, ops[..|ops| - 1], capacity), ops[|ops| - 1], capacity)
  }

  /** The reference: an unbounded map that remembers the last value put under each key. */
  ghost function MapAfter(start: map<string, string>, ops: seq<Op>): map<string, string> {
    if ops == [] then start
    else
      var before, last := MapAfter(start, ops[..|ops| - 1]), ops[|ops| - 1];
      if last.Put? then before[last.key := last.raw] else before
  }

  function Lookup(m: map<string, string>, key: string): Option<string> {
    if key in m then Some(m[key]) else None
  }

  /** A put that the first level will not take over: its key is held there under another value. */
  predicate Stale(c: Cache, op: Op) {
    op.Put? && op.key in c.mem && c.mem[op.key] != op.raw
  }

  ghost predicate NeverStale(start: Cache, ops: seq<Op>, capacity: nat) {
    forall k :: 0 <= k < |ops| ==> !Stale(StateAt(start, ops[..k], capacity), ops[k])
  }

  /** The first level agrees with `m`, and the second, if any, is `m`. */
  ghost predicate Coherent(c: Cache, m: map<string, string>) {
    (c.disk.Some? ==> c.disk.value == m) && forall key :: key in c.mem ==> key in m && c.mem[key] == m[key]
  }

  /** From a coherent state an operation keeps coherence exactly when it is not a stale put. */
  lemma CoherentIff(c: Cache, m: map<string, string>, op: Op, capacity: nat)
    requires WellKept(c, capacity) && Coherent(c, m) && capacity >= 1
    ensures Coherent(After(c, op, capacity), if op.Put? then m[op.key := op.raw] else m) <==> !Stale(c, op)
  {
  }

  lemma {:induction false} PrefixNeverStale(start: Cache, ops: seq<Op>, capacity: nat)
    requires NeverStale(start, ops, capacity) && ops != []
    ensures NeverStale(start, ops[..|ops| - 1], capacity)
    ensures !Stale(StateAt(start, ops[..|ops| - 1], capacity), ops[|ops| - 1])
  {
    var front := ops[..|ops| - 1];
    forall k | 0 <= k < |front| ensures !Stale(StateAt(start, front[..k], capacity), front[k]) {
      assert front[..k] == ops[..k];
    }
  }

  lemma {:induction false} RunIsWellKept(start: Cache, ops: seq<Op>, capacity: nat)
    requires WellKept(start, capacity) && capacity >= 1
    ensures WellKept(StateAt(start, ops, capacity), capacity)
  {
    if ops != [] {
      var before, last := StateAt(start, ops[..|ops| - 1], capacity), ops[|ops| - 1];
      RunIsWellKept(start, ops[..|ops| - 1], capacity);
      match last
      case Put(key, raw) => KeptIsWellKept(before, key, raw, capacity);
      case Get(key) =>
        if Answer(before, key).Some? {
          KeptIsWellKept(before, key, Answer(before, key).value, capacity);
        }
    }
  }

  /**
   * Refinement: over any run without a stale put, with the second level in place, a lookup answers what
   * the unbounded map would; without the second level it answers that or nothing.
   */
  lemma {:induction false} RunAgreesWithMap(
    start: Cache, m: map<string, string>, ops: seq<Op>, capacity: nat, key: string)
    requires WellKept(start, capacity) && Coherent(start, m) && capacity >= 1
    requires NeverStale(start, ops, capacity)
    ensures Coherent(StateAt(start, ops, capacity), MapAfter(m, ops))
    ensures start.disk.Some? ==> Answer(StateAt(start, ops, capacity), key) == Lookup(MapAfter(m, ops), key)
    ensures Answer(StateAt(start, ops, capacity), key) in {None, Lookup(MapAfter(m, ops), key)}
    ensures StateAt(start, ops, capacity).disk.Some? <==> start.disk.Some?
  {
    if ops != [] {
      var front := ops[..|ops| - 1];
      PrefixNeverStale(start, ops, capacity);
      RunAgreesWithMap(start, m, front, capacity, key);
      RunIsWellKept(start, front, capacity);
      CoherentIff(StateAt(start, front, capacity), MapAfter(m, front), ops[|ops| - 1], capacity);
    }
  }

  /** After a stale put from a coherent state the very next lookup of that key answers the old value. */
  lemma StalePutIsSeen(c: Cache, m: map<string, string>, op: Op, capacity: nat)
    requires WellKept(c, capacity) && Coherent(c, m) && capacity >= 1 && Stale(c, op)
    ensures Answer(After(c, op, capacity), op.key) == Lookup(m, op.key)
    ensures Answer(After(c, op, capacity), op.key) != Lookup(m[op.key := op.raw], op.key)
  {
  }

  /** Every lookup answers what the unbounded map would. */
  ghost predicate AnswersAs(c: Cache, m: map<string, string>) {
    forall key :: Answer(c, key) == Lookup(m, key)
  }

  lemma NeverStaleAnswers(start: Cache, m: map<string, string>, ops: seq<Op>, capacity: nat)
    requires WellKept(start, capacity) && Coherent(start, m) && capacity >= 1 && start.disk.Some?
    requires NeverStale(start, ops, capacity)
    ensures AnswersAs(StateAt(start, ops, capacity), MapAfter(m, ops)) && Coherent(StateAt(start, ops, capacity), MapAfter(m, ops))
  {
    RunAgreesWithMap(start, m, ops, capacity, "");
    forall key ensures Answer(StateAt(start, ops, capacity), key) == Lookup(MapAfter(m, ops), key) {
      RunAgreesWithMap(start, m, ops, capacity, key);
    }
  }

  lemma NeverStaleBefore(start: Cache, ops: seq<Op>, capacity: nat, k: nat)
    requires NeverStale(start, ops, capacity) && k <= |ops|
    ensures NeverStale(start, ops[..k], capacity)
  {
    forall j | 0 <= j < k ensures !Stale(StateAt(start, ops[..k][..j], capacity), ops[..k][j]) {
      assert ops[..k][..j] == ops[..j];
    }
  }

  /** In a run with a stale put the lookups go wrong right after the first one. */
  lemma {:induction false} FirstStaleIsSeen(start: Cache, m: map<string, string>, ops: seq<Op>, capacity: nat) returns (k: nat)
    requires WellKept(start, capacity) && Coherent(start, m) && capacity >= 1 && start.disk.Some?
    requires !NeverStale(start, ops, capacity)
    ensures k <= |ops| && !AnswersAs(StateAt(start, ops[..k], capacity), MapAfter(m, ops[..k]))
  {
    var n := |ops| - 1;
    if !NeverStale(start, ops[..n], capacity) {
      k := FirstStaleIsSeen(start, m, ops[..n], capacity);
      assert ops[..n][..k] == ops[..k];
    } else {
      k := |ops|;
      assert ops[..k] == ops;
      StaleIsLast(start, ops, capacity);
      NeverStaleAnswers(start, m, ops[..n], capacity);
      RunIsWellKept(start, ops[..n], capacity);
      StalePutIsSeen(StateAt(start, ops[..n], capacity), MapAfter(m, ops[..n]), ops[n], capacity);
    }
  }

  lemma StaleIsLast(start: Cache, ops: seq<Op>, capacity: nat)
    requires !NeverStale(start, ops, capacity) && ops != [] && NeverStale(start, ops[..|ops| - 1], capacity)
    ensures Stale(StateAt(start, ops[..|ops| - 1], capacity), ops[|ops| - 1])
  {
    var front := ops[..|ops| - 1];
    assert forall k :: 0 <= k < |front| ==> front[..k] == ops[..k];
  }

  /** With the second level in place, every lookup of a run answers as the map would exactly when no put of it is stale. */
  lemma RunAnswersIff(start: Cache, m: map<string, string>, ops: seq<Op>, capacity: nat)
    requires WellKept(start, capacity) && Coherent(start, m) && capacity >= 1 && start.disk.Some?
    ensures (forall k :: 0 <= k <= |ops| ==> AnswersAs(StateAt(start, ops[..k], capacity), MapAfter(m, ops[..k])))
        <==> NeverStale(start, ops, capacity)
  {
    if NeverStale(start, ops, capacity) {
      forall k | 0 <= k <= |ops| ensures AnswersAs(StateAt(start, ops[..k], capacity), MapAfter(m, ops[..k])) {
        NeverStaleBefore(start, ops, capacity, k);
        NeverStaleAnswers(start, m, ops[..k], capacity);
      }
    } else {
      var k := FirstStaleIsSeen(start, m, ops, capacity);
    }
  }

  // ----- Recency -----

  /** The keys an operation touches: what it puts, and what it finds. */
  ghost function Touched(c: Cache, op: Op): seq<string> {
    if op.Put? || Answer(c, op.key).Some? then [op.key] else []
  }

  /** The distinct keys touched so far, in the order of their last touch. */
  ghost function ByLastTouch(start: Cache, ops: seq<Op>, capacity: nat): seq<string> {
    if ops == [] then []
    else
      var before, last := ByLastTouch(start, ops[..|ops| - 1], capacity), ops[|ops| - 1];
      if Touched(StateAt(start, ops[..|ops| - 1], capacity), last) == [] then before
      else Without(before, last.key) + [last.key]
  }

  function LastFew(keys: seq<string>, n: nat): seq<string> {
    if |keys| <= n then keys else keys[|keys| - n..]
  }

  lemma {:induction false} WithoutAbsent(keys: seq<string>, key: string)
    requires key !in keys
    ensures Without(keys, key) == keys
  {
    if keys != [] {
      WithoutAbsent(keys[..|keys| - 1], key);
    }
  }

  lemma {:induction false} WithoutOfSplit(left: seq<string>, right: seq<string>, key: string)
    ensures Without(left + right, key) == Without(left, key) + Without(right, key)
  {
    if right == [] {
      assert left + right == left;
    } else {
      assert (left + right)[..|left + right| - 1] == left + right[..|right| - 1];
      WithoutOfSplit(left, right[..|right| - 1], key);
    }
  }

  lemma TailOf(left: seq<string>, right: seq<string>, n: nat)
    requires |right| == n
    ensures LastFew(left + right, n) == right
  {
  }

  ghost function Touch(order: seq<string>, key: string, n: nat): seq<string> {
    if key in order then Without(order, key) + [key]
    else if |order| >= n && order != [] then order[1..] + [key]
    else order + [key]
  }

  lemma TouchHeld(left: seq<string>, order: seq<string>, key: string, n: nat)
    requires Distinct(order) && key in order && key !in left && (left == [] || |order| == n) && |order| <= n
    ensures LastFew(Without(left + order, key) + [key], n) == Touch(order, key, n)
  {
    WithoutOfSplit(left, order, key);
    WithoutAbsent(left, key);
    WithoutDrops(order, key);
    var moved := Without(order, key) + [key];
    assert Without(left + order, key) + [key] == left + moved;
    if left == [] {
      assert left + moved == moved;
    } else {
      TailOf(left, moved, n);
    }
  }

  lemma TouchNew(left: seq<string>, order: seq<string>, key: string, n: nat)
    requires key !in order && (left == [] || |order| == n) && 1 <= n && |order| <= n
    ensures LastFew(Without(left + order, key) + [key], n) == Touch(order, key, n)
  {
    WithoutOfSplit(left, order, key);
    WithoutAbsent(order, key);
    var rest := Without(left, key);
    if |order| < n {
      assert rest + order + [key] == order + [key];
    } else {
      assert rest + order + [key] == (rest + [order[0]]) + (order[1..] + [key]);
      TailOf(rest + [order[0]], order[1..] + [key], n);
    }
  }

  lemma SplitApart(left: seq<string>, right: seq<string>, key: string)
    requires Distinct(left + right)
    ensures Distinct(right) && (key in right ==> key !in left)
  {
    var all := left + right;
    forall i, j | 0 <= i < j < |right| ensures right[i] != right[j] {
      assert all[|left| + i] == right[i] && all[|left| + j] == right[j];
    }
    forall i, j | 0 <= i < |left| && 0 <= j < |right| ensures left[i] != right[j] {
      assert all[i] == left[i] && all[|left| + j] == right[j];
    }
  }

  /** Touching a key keeps the bounded order equal to the tail of the unbounded one. */
  lemma TouchKeepsTail(all: seq<string>, key: string, n: nat)
    requires n >= 1 && Distinct(all)
    ensures LastFew(Without(all, key) + [key], n) == Touch(LastFew(all, n), key, n)
  {
    var order := LastFew(all, n);
    var left := all[..|all| - |order|];
    assert all == left + order;
    SplitApart(left, order, key);
    if key in order {
      TouchHeld(left, order, key, n);
    } else {
      TouchNew(left, order, key, n);
    }
  }

  lemma {:induction false} TouchOrderIsDistinct(start: Cache, ops: seq<Op>, capacity: nat)
    ensures Distinct(ByLastTouch(start, ops, capacity))
  {
    if ops != [] {
      TouchOrderIsDistinct(start, ops[..|ops| - 1], capacity);
      WithoutDrops(ByLastTouch(start, ops[..|ops| - 1], capacity), ops[|ops| - 1].key);
    }
  }

  lemma StepTouches(c: Cache, op: Op, capacity: nat)
    requires WellKept(c, capacity) && capacity >= 1
    ensures After(c, op, capacity).order == if Touched(c, op) == [] then c.order else Touch(c.order, op.key, capacity)
  {
  }

  /**
   * The policy is least recently used: from an empty first level, its keys are at all times the most
   * recently touched distinct keys, as many as fit, in the order of their last touch.
   */
  lemma {:induction false} OrderIsRecency(start: Cache, ops: seq<Op>, capacity: nat)
    requires start.order == [] && start.mem == map[] && capacity >= 1
    ensures StateAt(start, ops, capacity).order == LastFew(ByLastTouch(start, ops, capacity), capacity)
  {
    if ops != [] {
      var front, last := ops[..|ops| - 1], ops[|ops| - 1];
      OrderIsRecency(start, front, capacity);
      RunIsWellKept(start, front, capacity);
      TouchOrderIsDistinct(start, front, capacity);
      StepTouches(StateAt(start, front, capacity), last, capacity);
      TouchKeepsTail(ByLastTouch(start, front, capacity), last.key, capacity);
    }
  }
}
