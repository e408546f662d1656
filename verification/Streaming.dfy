/** The body of `Gateway.stream`: a stream driver that may reopen its upstream, but only before the first chunk. */
module Streaming {
  import opened Common

  /** A chunk carries either usage or some text for the client. */
  datatype Chunk = Chunk(usage: Option<nat>, text: string)

  /**
   * What one pull of the upstream iterator yields. `closes` is whether the client goes away at the yield
   * of this chunk. An iterator that has nothing more to pull ends the stream.
   */
  datatype Pull = Data(chunk: Chunk, closes: bool) | Stall | Raises(name: string, retryable: bool) | Cancelled

  /** What happens between giving up one attempt and pulling the next. */
  datatype Reopening = Reopened | CancelledInWait | OpenRaises(name: string)

  datatype Exit = Completed | Stalled | ClientGone | Failed(name: string) | Aborted

  datatype Trace = Trace(exit: Exit, usage: Option<nat>, text: string)

  /** Which part of the closing work raises, if any: the accounting, or what follows the trace. */
  datatype Hooks = Quiet | RaiseBeforeTrace | RaiseAfterTrace

  ghost predicate AllData(pulls: seq<Pull>) {
    forall k :: 0 <= k < |pulls| ==> pulls[k].Data?
  }

  predicate Forwarded(chunk: Chunk, wantUsage: bool) {
    chunk.usage.None? || wantUsage
  }

  /** What the client sees of the pulls: everything but usage it did not ask for. */
  ghost function Visible(pulls: seq<Pull>, wantUsage: bool): seq<Chunk>
    requires AllData(pulls)
  {
    if pulls == [] then []
    else
      var last := pulls[|pulls| - 1].chunk;
      Visible(pulls[..|pulls| - 1], wantUsage) + if Forwarded(last, wantUsage) then [last] else []
  }

  /** The text of the chunks that carry no usage, concatenated. */
  ghost function TextOf(pulls: seq<Pull>): string
    requires AllData(pulls)
  {
    if pulls == [] then ""
    else
      var last := pulls[|pulls| - 1].chunk;
      TextOf(pulls[..|pulls| - 1]) + if last.usage.None? then last.text else ""
  }

  ghost function LastUsage(pulls: seq<Pull>): Option<nat>
    requires AllData(pulls)
  {
    if pulls == [] then None
    else if pulls[|pulls| - 1].chunk.usage.Some? then pulls[|pulls| - 1].chunk.usage
    else LastUsage(pulls[..|pulls| - 1])
  }

  predicate Transient(pull: Pull) {
    pull.Stall? || (pull.Raises? && pull.retryable)
  }

  /** The attempt failed transiently before yielding anything. */
  ghost predicate GaveNothing(pulls: seq<Pull>) {
    pulls != [] && Transient(pulls[0])
  }

  /** Only a direct provider route may reopen its upstream, and only that often. */
  function Reopenings(lane: string, retries: int): nat {
    if lane == "provider" && retries > 0 then retries else 0
  }

  /** The attempt gave nothing and another one is due. */
  ghost predicate Reopens(pulls: seq<Pull>, due: bool) {
    due && GaveNothing(pulls)
  }

  /** Why the final attempt, having yielded `taken`, ended the way it did; `due` is whether another was left. */
  ghost predicate Explains(
    exit: Exit, pulls: seq<Pull>, taken: seq<Pull>, due: bool, reopening: Reopening, wantUsage: bool)
  {
    if Reopens(pulls, due) then
      taken == [] && exit == (match reopening case OpenRaises(name) => Failed(name) case _ => Aborted)
      && reopening != Reopened
    else if taken != [] && Closes(taken[|taken| - 1], wantUsage) then exit == ClientGone
    else if |taken| < |pulls| then exit == ExitAt(pulls[|taken|]) && !pulls[|taken|].Data?
    else exit == Completed
  }

  /** The client goes away at this chunk, which it is sent. */
  predicate Closes(pull: Pull, wantUsage: bool) {
    pull.Data? && pull.closes && Forwarded(pull.chunk, wantUsage)
  }

  function ExitAt(pull: Pull): Exit {
    match pull
    case Data(_, _) => ClientGone
    case Stall => Stalled
    case Raises(name, _) => Failed(name)
    case Cancelled => Aborted
  }

  /** The whole story of a stream, told by the attempt it ended in and what it took from it. */
  ghost predicate IsStream(
    upstream: nat -> seq<Pull>, reopening: nat -> Reopening, reopenings: nat, wantUsage: bool,
    attempt: nat, taken: seq<Pull>, exit: Exit, sent: seq<Chunk>)
  {
    attempt <= reopenings
    && (forall m: nat :: m < attempt ==> GaveNothing(upstream(m)) && reopening(m) == Reopened)
    && taken <= upstream(attempt) && AllData(taken)
    && sent == Visible(taken, wantUsage)
    && (forall k :: 0 <= k < |taken| - 1 ==> !Closes(taken[k], wantUsage))
    && Explains(exit, upstream(attempt), taken, attempt < reopenings, reopening(attempt), wantUsage)
  }

  /** What the client sees, and how the stream ends, is determined by what the upstreams do. */
  lemma StreamIsDetermined(
    upstream: nat -> seq<Pull>, reopening: nat -> Reopening, reopenings: nat, wantUsage: bool,
    a: nat, t: seq<Pull>, e: Exit, s: seq<Chunk>, a': nat, t': seq<Pull>, e': Exit, s': seq<Chunk>)
    requires IsStream(upstream, reopening, reopenings, wantUsage, a, t, e, s)
    requires IsStream(upstream, reopening, reopenings, wantUsage, a', t', e', s')
    ensures a == a' && t == t' && e == e' && s == s'
  {
  }

  /** The texts of the chunks that carry no usage, one after the other. */
  function Joined(chunks: seq<Chunk>): string {
    if chunks == [] then ""
    else
      var last := chunks[|chunks| - 1];
      if last.usage.Some? then Joined(chunks[..|chunks| - 1]) else Joined(chunks[..|chunks| - 1]) + last.text
  }

  /** The text that is recorded is the text that was sent, in the order it was sent. */
  lemma {:induction false} TextIsSent(taken: seq<Pull>, wantUsage: bool)
    requires AllData(taken)
    ensures TextOf(taken) == Joined(Visible(taken, wantUsage))
  {
    if taken != [] {
      var front, last := taken[..|taken| - 1], taken[|taken| - 1].chunk;
      TextIsSent(front, wantUsage);
      assert TextOf(taken) == if last.usage.Some? then TextOf(front) else TextOf(front) + last.text;
      assert Visible(taken, wantUsage) == if Forwarded(last, wantUsage) then Visible(front, wantUsage) + [last]
                                          else Visible(front, wantUsage);
    }
  }

  /**
   * What the recorded end says of the last attempt, in both directions: completed when the client was sent all of it
   * and stayed; stalled or failed at the pull that did; gone at a chunk it was sent last; and anything else is an abort.
   */
  lemma ExitTells(
    upstream: nat -> seq<Pull>, reopening: nat -> Reopening, reopenings: nat, wantUsage: bool,
    attempt: nat, taken: seq<Pull>, exit: Exit, sent: seq<Chunk>)
    requires IsStream(upstream, reopening, reopenings, wantUsage, attempt, taken, exit, sent)
    ensures exit == ClientGone <==>
            taken != [] && taken[|taken| - 1].closes && sent != [] && sent[|sent| - 1] == taken[|taken| - 1].chunk
            && (taken[|taken| - 1].chunk.usage.Some? ==> wantUsage)
    ensures exit == Completed <==> taken == upstream(attempt) && exit != ClientGone
    ensures exit == Stalled ==> |taken| < |upstream(attempt)| && upstream(attempt)[|taken|] == Stall
    ensures |taken| < |upstream(attempt)| && upstream(attempt)[|taken|] == Stall && reopening(attempt) == Reopened ==>
              exit == Stalled || exit == ClientGone
    ensures forall name :: exit == Failed(name) ==>
              (|taken| < |upstream(attempt)|
               && (upstream(attempt)[|taken|] == Raises(name, true) || upstream(attempt)[|taken|] == Raises(name, false)))
              || reopening(attempt) == OpenRaises(name)
    ensures exit == Aborted ==>
              (|taken| < |upstream(attempt)| && upstream(attempt)[|taken|] == Cancelled) || reopening(attempt) == CancelledInWait
  {
  }

  /** Cancelled between two attempts, when the permit has been given back and not taken again. */
  ghost predicate LeftWaiting(pulls: seq<Pull>, reopening: Reopening, due: bool) {
    Reopens(pulls, due) && reopening == CancelledInWait
  }

  class StreamDriver {
    const limited: bool
    const retries: int
    /** Permits of the concurrency limit this stream holds. */
    var held: nat
    var traces: seq<Trace>

    constructor (limited: bool, retries: int)
      ensures held == 0 && traces == [] && this.limited == limited && this.retries == retries
    {
      this.limited, this.retries, held, traces := limited, retries, 0, [];
    }

    method Acquire(slotHeld: bool) returns (nowHeld: bool)
      requires held == if slotHeld then 1 else 0
      modifies this`held
      ensures nowHeld == (limited || slotHeld) && held == if nowHeld then 1 else 0
    {
      nowHeld := slotHeld;
      if limited && !slotHeld {
        held := held + 1;
        nowHeld := true;
      }
    }

    method Release(slotHeld: bool) returns (nowHeld: bool)
      requires held == if slotHeld then 1 else 0
      requires slotHeld ==> limited
      modifies this`held
      ensures !nowHeld && held == 0
    {
      nowHeld := slotHeld;
      if limited && slotHeld {
        held := held - 1;
        nowHeld := false;
      }
    }

    /** Pulls one attempt until it ends, the client goes away, or a pull is no chunk. */
    method Consume(pulls: seq<Pull>, wantUsage: bool) returns (pos: nat, sent: seq<Chunk>, text: string, usage: Option<nat>)
      ensures pos <= |pulls| && AllData(pulls[..pos])
      ensures sent == Visible(pulls[..pos], wantUsage) && text == TextOf(pulls[..pos]) && usage == LastUsage(pulls[..pos])
      ensures forall k :: 0 <= k < pos - 1 ==> !Closes(pulls[k], wantUsage)
      ensures pos == |pulls| || !pulls[pos].Data? || (pos > 0 && Closes(pulls[pos - 1], wantUsage))
    {
      pos, sent, text, usage := 0, [], "", None;
      while pos < |pulls| && pulls[pos].Data?
        invariant 0 <= pos <= |pulls| && AllData(pulls[..pos])
        invariant sent == Visible(pulls[..pos], wantUsage) && text == TextOf(pulls[..pos]) && usage == LastUsage(pulls[..pos])
        invariant forall k :: 0 <= k < pos ==> !Closes(pulls[k], wantUsage)
      {
        var chunk, closes := pulls[pos].chunk, pulls[pos].closes;
        pos := pos + 1;
        assert pulls[..pos][..pos - 1] == pulls[..pos - 1];
        if chunk.usage.Some? {
          usage := chunk.usage;
          if !wantUsage {
            continue;
          }
        } else {
          text := text + chunk.text;
        }
        sent := sent + [chunk];
        if closes {
          return;
        }
      }
    }

    /** The loop of the `try` block. `slotHeld` says whether the permit is held when it is left. */
    method Drive(lane: string, wantUsage: bool, upstream: nat -> seq<Pull>, reopening: nat -> Reopening)
      returns (exit: Exit, sent: seq<Chunk>, text: string, usage: Option<nat>, slotHeld: bool,
               ghost attempt: nat, ghost taken: seq<Pull>)
      requires held == if limited then 1 else 0
      modifies this`held
      ensures held == if slotHeld then 1 else 0
      ensures slotHeld <==> limited && !LeftWaiting(upstream(attempt), reopening(attempt), attempt < Reopenings(lane, retries))
      ensures IsStream(upstream, reopening, Reopenings(lane, retries), wantUsage, attempt, taken, exit, sent)
      ensures text == TextOf(taken) && usage == LastUsage(taken)
    {
      var n := 0;
      slotHeld := limited;
      while true
        invariant 0 <= n <= Reopenings(lane, retries)
        invariant forall m: nat :: m < n ==> GaveNothing(upstream(m)) && reopening(m) == Reopened
        invariant slotHeld == limited && held == if slotHeld then 1 else 0
        decreases Reopenings(lane, retries) - n
      {
        var pos;
        pos, sent, text, usage := Consume(upstream(n), wantUsage);
        attempt, taken := n, upstream(n)[..pos];
        if pos > 0 && Closes(upstream(n)[pos - 1], wantUsage) {
          exit := ClientGone;
          return;
        }
        if pos == |upstream(n)| {
          exit := Completed;
          return;
        }
        var pull, started := upstream(n)[pos], pos > 0;
        if Transient(pull) && lane == "provider" && !started && n < retries {
          slotHeld := Release(slotHeld);
          match reopening(n) {
            case CancelledInWait =>
              exit := Aborted;
              return;
            case OpenRaises(name) =>
              slotHeld := Acquire(slotHeld);
              exit := Failed(name);
              return;
            case Reopened =>
              slotHeld := Acquire(slotHeld);
              n := n + 1;
          }
        } else {
          exit := ExitAt(pull);
          return;
        }
      }
    }

    /**
     * The stream from taking the permit to leaving the `finally` block. The client has seen a prefix of one
     * upstream attempt; the trace is written once; and the permit is given back exactly unless the closing
     * hooks raise while it is held, since it is released after them.
     */
    method Stream(
      lane: string, wantUsage: bool, upstream: nat -> seq<Pull>, reopening: nat -> Reopening, hooks: Hooks)
      returns (exit: Exit, sent: seq<Chunk>, ghost attempt: nat, ghost taken: seq<Pull>)
      requires held == 0
      modifies this`held, this`traces
      ensures IsStream(upstream, reopening, Reopenings(lane, retries), wantUsage, attempt, taken, exit, sent)
      ensures traces == old(traces) + if hooks.RaiseBeforeTrace? then [] else [Trace(exit, LastUsage(taken), TextOf(taken))]
      ensures TextOf(taken) == Joined(sent)
      ensures lane != "provider" || retries <= 0 ==> attempt == 0
      ensures forall m: nat :: m < attempt ==>
                |upstream(m)| > 0 && (upstream(m)[0].Stall? || (upstream(m)[0].Raises? && upstream(m)[0].retryable))
      ensures lane == "provider" && retries > 0 ==> attempt <= retries
      ensures lane == "provider" && 0 <= retries && |upstream(attempt)| > 0 && reopening(attempt).Reopened? ==>
                (upstream(attempt)[0].Stall? || (upstream(attempt)[0].Raises? && upstream(attempt)[0].retryable) ==>
                   attempt == retries)
      ensures held == 0 <==> hooks.Quiet? || !limited
                             || LeftWaiting(upstream(attempt), reopening(attempt), attempt < Reopenings(lane, retries))
    {
      var slotHeld := Acquire(false);
      var text, usage;
      exit, sent, text, usage, slotHeld, attempt, taken := Drive(lane, wantUsage, upstream, reopening);
      TextIsSent(taken, wantUsage);
      if hooks.RaiseBeforeTrace? {
        return;
      }
      traces := traces + [Trace(exit, usage, text)];
      if hooks.RaiseAfterTrace? {
        return;
      }
      slotHeld := Release(slotHeld);
    }
  }
}
