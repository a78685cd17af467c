/** The consumer run loop: fetch a batch, hand each event to the handler,
    commit it, and back off or reset; wait for a change when the batch is empty.
    The driver, the handler and the backoffer are scripted: each loop turn is
    given the fetch reply and the outcome of every handler and commit call, and
    the loop records the calls it makes in a ghost trace. */
module Consumer {
  import opened Types

  const DefaultWaitChangeTimeoutSec := 20
  const DefaultBatchSize := 10
  /** time.Second, in nanoseconds. */
  const Second := 1_000_000_000

  /** A call the loop makes on its collaborators. */
  datatype Call =
    | Fetch(readGroup: string, limit: int)
    | SleepBackoff
    | ResetSleepBackoff
    | Handle(eventId: nat, ok: bool)
    | CommitEvent(readGroup: string, eventId: nat, ok: bool)
    | WaitChange(timeoutNs: int)

  /** One fetched event with the scripted outcomes of its handler and commit calls
      (the commit outcome is unused when the handler fails). */
  datatype Attempt = Attempt(event: Event, handlerOk: bool, commitOk: bool)

  datatype FetchReply = FetchFailed | Fetched(batch: seq<Attempt>)

  /** One loop turn: the driver's reply, and whether Close was called while the
      turn ran (from a callback or from elsewhere, before the loop condition is
      next read). */
  datatype Turn = Turn(reply: FetchReply, closed: bool)

  predicate Delivered(a: Attempt) { a.handlerOk && a.commitOk }

  // ---------------------------------------------------------------------------
  // The calls of one loop turn

  /** The calls made for one event: the handler, then on success the commit,
      then a reset on success or one sleep on the first failure. */
  function AttemptCalls(readGroup: string, a: Attempt): seq<Call>
  {
    [Handle(a.event.id, a.handlerOk)] +
    if !a.handlerOk then [SleepBackoff]
    else [CommitEvent(readGroup, a.event.id, a.commitOk)] + if a.commitOk then [ResetSleepBackoff] else [SleepBackoff]
  }

  /** The calls made for a batch: events in order, stopping after the first failure. */
  function BatchCalls(readGroup: string, batch: seq<Attempt>): seq<Call>
  {
    if batch == [] then []
    else AttemptCalls(readGroup, batch[0]) + if Delivered(batch[0]) then BatchCalls(readGroup, batch[1..]) else []
  }

  function TurnCalls(readGroup: string, batchSize: int, waitSec: int, reply: FetchReply): seq<Call>
  {
    [Fetch(readGroup, batchSize)] +
    match reply
    case FetchFailed => [SleepBackoff]
    case Fetched(batch) =>
      [ResetSleepBackoff] + BatchCalls(readGroup, batch) + if batch == [] then [WaitChange(waitSec * Second)] else []
  }

  /** How many turns run: up to and including the first in which Close was called. */
  function Executed(turns: seq<Turn>): (n: nat)
    ensures n <= |turns|
  {
    if turns == [] then 0 else if turns[0].closed then 1 else 1 + Executed(turns[1..])
  }

  function TurnsCalls(readGroup: string, batchSize: int, waitSec: int, turns: seq<Turn>): seq<Call>
  {
    if turns == [] then []
    else
      var n := |turns| - 1;
      TurnsCalls(readGroup, batchSize, waitSec, turns[..n]) + TurnCalls(readGroup, batchSize, waitSec, turns[n].reply)
  }

  // ---------------------------------------------------------------------------
  // The objects

  class ConsumerConfig {
    var waitChangeTimeoutSec: int
    var batchSize: int

    constructor (waitChangeTimeoutSec: int, batchSize: int)
      ensures this.waitChangeTimeoutSec == waitChangeTimeoutSec && this.batchSize == batchSize
    {
      this.waitChangeTimeoutSec := waitChangeTimeoutSec;
      this.batchSize := batchSize;
    }
  }

  class Consumer {
    const readGroup: string
    const config: ConsumerConfig
    var running: bool
    /** Every call made on the driver, the handler and the backoffer, in order. */
    ghost var trace: seq<Call>

    /** NewConsumer: fills the defaults into the caller's configuration, in place. */
    constructor (readGroup: string, config: ConsumerConfig)
      modifies config
      ensures this.readGroup == readGroup && this.config == config
      ensures config.waitChangeTimeoutSec ==
        if old(config.waitChangeTimeoutSec) == 0 then DefaultWaitChangeTimeoutSec else old(config.waitChangeTimeoutSec)
      ensures config.batchSize == if old(config.batchSize) == 0 then DefaultBatchSize else old(config.batchSize)
      ensures !running && trace == []
    {
      if config.waitChangeTimeoutSec == 0 {
        config.waitChangeTimeoutSec := DefaultWaitChangeTimeoutSec;
      }
      if config.batchSize == 0 {
        config.batchSize := DefaultBatchSize;
      }
      this.readGroup := readGroup;
      this.config := config;
      running := false;
      trace := [];
    }

    method Close()
      modifies this`running
      ensures !running
    {
      running := false;
    }

    /** One turn of the loop body. */
    method RunTurn(turn: Turn)
      modifies this`running, this`trace
      ensures trace == old(trace) + TurnCalls(readGroup, config.batchSize, config.waitChangeTimeoutSec, turn.reply)
      ensures running == (old(running) && !turn.closed)
    {
      ghost var start := trace;
      var fetch := Fetch(readGroup, config.batchSize);
      trace := trace + [fetch];
      match turn.reply {
        case FetchFailed =>
          trace := trace + [SleepBackoff];
          AppendAssoc(start, [fetch], [SleepBackoff]);
        case Fetched(batch) =>
          trace := trace + [ResetSleepBackoff];
          AppendAssoc(start, [fetch], [ResetSleepBackoff]);
          RunBatch(batch);
          ghost var calls := BatchCalls(readGroup, batch);
          AppendAssoc(start, [fetch] + [ResetSleepBackoff], calls);
          AppendAssoc([fetch], [ResetSleepBackoff], calls);
          if |batch| == 0 {
            var wait := WaitChange(config.waitChangeTimeoutSec * Second);
            trace := trace + [wait];
            AppendAssoc(start, ([fetch] + [ResetSleepBackoff]) + calls, [wait]);
            AppendAssoc([fetch], [ResetSleepBackoff] + calls, [wait]);
          }
      }
      if turn.closed {
        running := false;
      }
    }

    /** The inner loop over a fetched batch; it breaks at the first failure. */
    method RunBatch(batch: seq<Attempt>)
      modifies this`trace
      ensures trace == old(trace) + BatchCalls(readGroup, batch)
    {
      ghost var start := trace;
      var i := 0;
      while i < |batch|
        invariant 0 <= i <= |batch|
        invariant forall k :: 0 <= k < i ==> Delivered(batch[k])
        invariant trace == start + BatchCalls(readGroup, batch[..i])
      {
        var delivered := RunAttempt(batch[i]);
        AppendAssoc(start, BatchCalls(readGroup, batch[..i]), AttemptCalls(readGroup, batch[i]));
        if !delivered {
          BatchCallsStop(readGroup, batch, i);
          break;
        }
        BatchCallsStep(readGroup, batch, i);
        i := i + 1;
      }
      if i == |batch| {
        assert batch[..i] == batch;
      }
    }

    /** The handler, then the commit, then a reset, or one sleep on failure. */
    method RunAttempt(attempt: Attempt) returns (delivered: bool)
      modifies this`trace
      ensures trace == old(trace) + AttemptCalls(readGroup, attempt)
      ensures delivered == Delivered(attempt)
    {
      trace := trace + [Handle(attempt.event.id, attempt.handlerOk)];
      if !attempt.handlerOk {
        trace := trace + [SleepBackoff];
        return false;
      }
      trace := trace + [CommitEvent(readGroup, attempt.event.id, attempt.commitOk)];
      if !attempt.commitOk {
        trace := trace + [SleepBackoff];
        return false;
      }
      trace := trace + [ResetSleepBackoff];
      return true;
    }

    /** Consume: sets `running` and repeats the loop body while it holds. The
        script bounds the number of turns; the loop also stops after the turn
        in which Close is called. */
    method Consume(turns: seq<Turn>)
      modifies this`running, this`trace
      ensures trace == old(trace) + TurnsCalls(readGroup, config.batchSize, config.waitChangeTimeoutSec,
                                               turns[..Executed(turns)])
      ensures !running <==> exists k :: 0 <= k < |turns| && turns[k].closed
    {
      running := true;
      var i := 0;
      while running && i < |turns|
        invariant 0 <= i <= Executed(turns)
        invariant forall k :: 0 <= k < i - 1 ==> !turns[k].closed
        invariant running <==> forall k :: 0 <= k < i ==> !turns[k].closed
        invariant !running ==> i == Executed(turns)
        invariant trace == old(trace) + TurnsCalls(readGroup, config.batchSize, config.waitChangeTimeoutSec, turns[..i])
      {
        ExecutedAfter(turns, i);
        if !turns[i].closed {
          ExecutedAfter(turns, i + 1);
        }
        RunTurn(turns[i]);
        assert turns[..i + 1][..i] == turns[..i];
        AppendAssoc(old(trace), TurnsCalls(readGroup, config.batchSize, config.waitChangeTimeoutSec, turns[..i]),
                    TurnCalls(readGroup, config.batchSize, config.waitChangeTimeoutSec, turns[i].reply));
        i := i + 1;
      }
      if running {
        ExecutedAfter(turns, i);
      }
    }
  }

  // ---------------------------------------------------------------------------
  // Lemmas used by the loops

  lemma AppendAssoc(a: seq<Call>, b: seq<Call>, c: seq<Call>)
    ensures a + (b + c) == a + b + c
  {
  }

  /** Delivered events do not cut a batch short. */
  lemma {:induction false} BatchCallsAppend(readGroup: string, p: seq<Attempt>, q: seq<Attempt>)
    requires forall k :: 0 <= k < |p| ==> Delivered(p[k])
    ensures BatchCalls(readGroup, p + q) == BatchCalls(readGroup, p) + BatchCalls(readGroup, q)
  {
    if p != [] {
      assert (p + q)[0] == p[0];
      assert (p + q)[1..] == p[1..] + q;
      BatchCallsAppend(readGroup, p[1..], q);
    } else {
      assert p + q == q;
    }
  }

  lemma BatchCallsStep(readGroup: string, batch: seq<Attempt>, i: nat)
    requires i < |batch|
    requires forall k :: 0 <= k <= i ==> Delivered(batch[k])
    ensures BatchCalls(readGroup, batch[..i + 1]) == BatchCalls(readGroup, batch[..i]) + AttemptCalls(readGroup, batch[i])
  {
    assert batch[..i + 1] == batch[..i] + [batch[i]];
    BatchCallsAppend(readGroup, batch[..i], [batch[i]]);
    assert [batch[i]][1..] == [];
  }

  lemma BatchCallsStop(readGroup: string, batch: seq<Attempt>, i: nat)
    requires i < |batch|
    requires forall k :: 0 <= k < i ==> Delivered(batch[k])
    requires !Delivered(batch[i])
    ensures BatchCalls(readGroup, batch) == BatchCalls(readGroup, batch[..i]) + AttemptCalls(readGroup, batch[i])
  {
    assert batch == batch[..i] + batch[i..];
    BatchCallsAppend(readGroup, batch[..i], batch[i..]);
    assert batch[i..][0] == batch[i];
  }

  /** While no turn before `i` closed, all of them run. */
  lemma {:induction false} ExecutedAfter(turns: seq<Turn>, i: nat)
    requires i <= |turns|
    requires forall k :: 0 <= k < i ==> !turns[k].closed
    ensures i <= Executed(turns)
    ensures i < |turns| && turns[i].closed ==> Executed(turns) == i + 1
    ensures i == |turns| ==> Executed(turns) == |turns|
  {
    if i > 0 {
      ExecutedAfter(turns[1..], i - 1);
    }
  }

  // ---------------------------------------------------------------------------
  // Properties of the loop

  datatype CallKind = FetchKind | SleepKind | ResetKind | HandleKind | CommitKind | WaitKind

  function KindOf(c: Call): CallKind
  {
    match c
    case Fetch(_, _) => FetchKind
    case SleepBackoff => SleepKind
    case ResetSleepBackoff => ResetKind
    case Handle(_, _) => HandleKind
    case CommitEvent(_, _, _) => CommitKind
    case WaitChange(_) => WaitKind
  }

  function Count(calls: seq<Call>, kind: CallKind): nat
  {
    if calls == [] then 0 else (if KindOf(calls[0]) == kind then 1 else 0) + Count(calls[1..], kind)
  }

  /** The ids of the events handed to the handler, in order. */
  function HandledIds(calls: seq<Call>): seq<nat>
  {
    if calls == [] then []
    else (if calls[0].Handle? then [calls[0].eventId] else []) + HandledIds(calls[1..])
  }

  function Ids(batch: seq<Attempt>): seq<nat>
  {
    if batch == [] then [] else [batch[0].event.id] + Ids(batch[1..])
  }

  /** The position of the first event that was not delivered, or the batch size. */
  function FirstFailure(batch: seq<Attempt>): (n: nat)
    ensures n <= |batch|
  {
    if batch == [] then 0 else if !Delivered(batch[0]) then 0 else 1 + FirstFailure(batch[1..])
  }

  lemma CountSingle(c: Call, kind: CallKind)
    ensures Count([c], kind) == if KindOf(c) == kind then 1 else 0
    ensures HandledIds([c]) == if c.Handle? then [c.eventId] else []
  {
    assert [c][1..] == [];
  }

  lemma {:induction false} CountAppend(a: seq<Call>, b: seq<Call>, kind: CallKind)
    ensures Count(a + b, kind) == Count(a, kind) + Count(b, kind)
  {
    if a != [] {
      assert (a + b)[1..] == a[1..] + b;
      CountAppend(a[1..], b, kind);
    } else {
      assert a + b == b;
    }
  }

  lemma {:induction false} HandledIdsAppend(a: seq<Call>, b: seq<Call>)
    ensures HandledIds(a + b) == HandledIds(a) + HandledIds(b)
  {
    if a != [] {
      assert (a + b)[1..] == a[1..] + b;
      HandledIdsAppend(a[1..], b);
    } else {
      assert a + b == b;
    }
  }

  /** One event's calls: it is handled once; a commit follows a successful
      handler; then one reset if delivered, else one sleep. */
  lemma AttemptOutcome(readGroup: string, a: Attempt)
    ensures var calls := AttemptCalls(readGroup, a);
            && HandledIds(calls) == [a.event.id]
            && Count(calls, SleepKind) == (if Delivered(a) then 0 else 1)
            && Count(calls, ResetKind) == (if Delivered(a) then 1 else 0)
            && Count(calls, CommitKind) == (if a.handlerOk then 1 else 0)
            && Count(calls, FetchKind) == 0
            && Count(calls, WaitKind) == 0
  {
    var handle := [Handle(a.event.id, a.handlerOk)];
    var tail := if !a.handlerOk then [SleepBackoff]
                else [CommitEvent(readGroup, a.event.id, a.commitOk)] + if a.commitOk then [ResetSleepBackoff] else [SleepBackoff];
    assert AttemptCalls(readGroup, a) == handle + tail;
    HandledIdsAppend(handle, tail);
    forall kind: CallKind
      ensures Count(handle + tail, kind) == Count(handle, kind) + Count(tail, kind)
    {
      CountAppend(handle, tail, kind);
    }
    if a.handlerOk {
      var commit := [CommitEvent(readGroup, a.event.id, a.commitOk)];
      var last := if a.commitOk then [ResetSleepBackoff] else [SleepBackoff];
      assert tail == commit + last;
      HandledIdsAppend(commit, last);
      forall kind: CallKind
        ensures Count(commit + last, kind) == Count(commit, kind) + Count(last, kind)
      {
        CountAppend(commit, last, kind);
      }
    }
  }

  /** What a batch does: the events up to and including the first failure are
      handed to the handler in the order fetched and the rest are skipped; each
      delivered event is followed by one reset, a failure by exactly one sleep;
      a commit is attempted for every event whose handler succeeded; the batch
      never fetches or waits. */
  lemma {:induction false} BatchOutcome(readGroup: string, batch: seq<Attempt>)
    ensures var calls := BatchCalls(readGroup, batch);
            var n := FirstFailure(batch);
            && HandledIds(calls) == Ids(batch[..if n < |batch| then n + 1 else n])
            && Count(calls, SleepKind) == (if n < |batch| then 1 else 0)
            && Count(calls, ResetKind) == n
            && Count(calls, CommitKind) == n + (if n < |batch| && batch[n].handlerOk then 1 else 0)
            && Count(calls, FetchKind) == 0
            && Count(calls, WaitKind) == 0
  {
    if batch != [] {
      var a := batch[0];
      var head := AttemptCalls(readGroup, a);
      var rest := if Delivered(a) then BatchCalls(readGroup, batch[1..]) else [];
      assert BatchCalls(readGroup, batch) == head + rest;
      BatchOutcome(readGroup, batch[1..]);
      AttemptOutcome(readGroup, a);
      forall kind: CallKind
        ensures Count(head + rest, kind) == Count(head, kind) + Count(rest, kind)
      {
        CountAppend(head, rest, kind);
      }
      HandledIdsAppend(head, rest);
      var n := FirstFailure(batch);
      var k := if n < |batch| then n + 1 else n;
      var s := batch[..k];
      assert s[0] == a;
      if Delivered(a) {
        var m := FirstFailure(batch[1..]);
        assert n == m + 1;
        var taken := if m < |batch| - 1 then m + 1 else m;
        assert k == taken + 1;
        assert s[1..] == batch[1..][..taken];
        if n < |batch| {
          assert batch[1..][m] == batch[n];
        }
      } else {
        assert k == 1 && s[1..] == [];
      }
    }
  }

  /** Every commit call comes right after the handler call for the same event,
      and only when that handler succeeded. */
  lemma {:induction false} CommitFollowsSuccessfulHandle(readGroup: string, batch: seq<Attempt>, k: nat)
    requires k < |BatchCalls(readGroup, batch)| && BatchCalls(readGroup, batch)[k].CommitEvent?
    ensures k > 0 && BatchCalls(readGroup, batch)[k - 1] == Handle(BatchCalls(readGroup, batch)[k].eventId, true)
  {
    var a := batch[0];
    var head := AttemptCalls(readGroup, a);
    var calls := BatchCalls(readGroup, batch);
    if k >= |head| {
      assert Delivered(a);
      var rest := BatchCalls(readGroup, batch[1..]);
      assert calls == head + rest;
      assert rest[k - |head|] == calls[k];
      CommitFollowsSuccessfulHandle(readGroup, batch[1..], k - |head|);
      if k - |head| > 0 {
        assert calls[k - 1] == rest[k - |head| - 1];
      } else {
        assert false;
      }
    }
  }

  /** Each turn fetches exactly once, as its first call, asking for the batch size. */
  lemma OneFetchPerTurn(readGroup: string, batchSize: int, waitSec: int, reply: FetchReply)
    ensures var calls := TurnCalls(readGroup, batchSize, waitSec, reply);
            calls[0] == Fetch(readGroup, batchSize) && Count(calls, FetchKind) == 1
  {
    TurnCounts(readGroup, batchSize, waitSec, reply);
  }

  /** After a fetch error: one sleep, and no handler, commit or wait call. */
  lemma FetchErrorTurn(readGroup: string, batchSize: int, waitSec: int)
    ensures var calls := TurnCalls(readGroup, batchSize, waitSec, FetchFailed);
            && Count(calls, SleepKind) == 1 && Count(calls, ResetKind) == 0
            && Count(calls, HandleKind) == 0 && Count(calls, CommitKind) == 0 && Count(calls, WaitKind) == 0
  {
    TurnCounts(readGroup, batchSize, waitSec, FetchFailed);
  }

  /** After a successful fetch the backoff is reset before any event is handled. */
  lemma ResetBeforeEvents(readGroup: string, batchSize: int, waitSec: int, batch: seq<Attempt>)
    ensures TurnCalls(readGroup, batchSize, waitSec, Fetched(batch))[..2] == [Fetch(readGroup, batchSize), ResetSleepBackoff]
  {
  }

  /** WaitChange is called, once and with the configured timeout, exactly when
      the fetched batch is empty; never after a fetch error, nor after a
      non-empty batch whose every event failed. */
  lemma WaitChangeIffEmptyBatch(readGroup: string, batchSize: int, waitSec: int, reply: FetchReply)
    ensures var calls := TurnCalls(readGroup, batchSize, waitSec, reply);
            && Count(calls, WaitKind) == (if reply == Fetched([]) then 1 else 0)
            && (reply == Fetched([]) ==> calls[|calls| - 1] == WaitChange(waitSec * Second))
  {
    TurnCounts(readGroup, batchSize, waitSec, reply);
  }

  /** The counts of the calls of one turn. */
  lemma TurnCounts(readGroup: string, batchSize: int, waitSec: int, reply: FetchReply)
    ensures var calls := TurnCalls(readGroup, batchSize, waitSec, reply);
            && Count(calls, FetchKind) == 1
            && (reply.FetchFailed? ==>
                  && Count(calls, SleepKind) == 1 && Count(calls, ResetKind) == 0
                  && Count(calls, HandleKind) == 0 && Count(calls, CommitKind) == 0
                  && Count(calls, WaitKind) == 0)
            && (reply.Fetched? ==>
                  && Count(calls, SleepKind) == Count(BatchCalls(readGroup, reply.batch), SleepKind)
                  && Count(calls, ResetKind) == 1 + Count(BatchCalls(readGroup, reply.batch), ResetKind)
                  && Count(calls, WaitKind) == if reply.batch == [] then 1 else 0)
  {
    match reply {
      case FetchFailed =>
        var first := [Fetch(readGroup, batchSize)];
        assert TurnCalls(readGroup, batchSize, waitSec, reply) == first + [SleepBackoff];
        forall kind: CallKind { CountAppend(first, [SleepBackoff], kind); }
      case Fetched(batch) =>
        BatchOutcome(readGroup, batch);
        FetchedTurnCount(readGroup, batchSize, waitSec, batch, FetchKind);
        FetchedTurnCount(readGroup, batchSize, waitSec, batch, SleepKind);
        FetchedTurnCount(readGroup, batchSize, waitSec, batch, ResetKind);
        FetchedTurnCount(readGroup, batchSize, waitSec, batch, WaitKind);
    }
  }

  lemma FetchedTurnCount(readGroup: string, batchSize: int, waitSec: int, batch: seq<Attempt>, kind: CallKind)
    ensures Count(TurnCalls(readGroup, batchSize, waitSec, Fetched(batch)), kind) ==
            (if kind == FetchKind then 1 else 0) + (if kind == ResetKind then 1 else 0) +
            Count(BatchCalls(readGroup, batch), kind) + (if kind == WaitKind && batch == [] then 1 else 0)
  {
    var first := [Fetch(readGroup, batchSize)];
    var body := BatchCalls(readGroup, batch);
    var wait := if batch == [] then [WaitChange(waitSec * Second)] else [];
    assert TurnCalls(readGroup, batchSize, waitSec, Fetched(batch)) == first + [ResetSleepBackoff] + body + wait;
    CountAppend(first + [ResetSleepBackoff], body, kind);
    CountAppend(first, [ResetSleepBackoff], kind);
    CountAppend(first + [ResetSleepBackoff] + body, wait, kind);
    CountSingle(Fetch(readGroup, batchSize), kind);
    CountSingle(ResetSleepBackoff, kind);
    if batch == [] {
      CountSingle(WaitChange(waitSec * Second), kind);
    }
  }

  /** Over a run, the number of fetches is the number of turns. */
  lemma {:induction false} FetchPerTurn(readGroup: string, batchSize: int, waitSec: int, turns: seq<Turn>)
    ensures Count(TurnsCalls(readGroup, batchSize, waitSec, turns), FetchKind) == |turns|
  {
    if turns != [] {
      var n := |turns| - 1;
      FetchPerTurn(readGroup, batchSize, waitSec, turns[..n]);
      TurnCounts(readGroup, batchSize, waitSec, turns[n].reply);
      CountAppend(TurnsCalls(readGroup, batchSize, waitSec, turns[..n]),
                  TurnCalls(readGroup, batchSize, waitSec, turns[n].reply), FetchKind);
    }
  }

  predicate FailsFirstEvent(t: Turn)
  {
    t.reply.Fetched? && |t.reply.batch| > 0 && !Delivered(t.reply.batch[0])
  }

  /** Turns whose first event keeps failing: one sleep per fetch, the failed
      event is retried by the next fetch, and nothing is reset beyond the one
      reset that follows each successful fetch. */
  lemma {:induction false} FailingTurns(readGroup: string, batchSize: int, waitSec: int, turns: seq<Turn>)
    requires forall k :: 0 <= k < |turns| ==> FailsFirstEvent(turns[k])
    ensures var calls := TurnsCalls(readGroup, batchSize, waitSec, turns);
            && Count(calls, FetchKind) == |turns|
            && Count(calls, SleepKind) == |turns|
            && Count(calls, ResetKind) == |turns|
            && Count(calls, WaitKind) == 0
  {
    if turns != [] {
      var n := |turns| - 1;
      FailingTurns(readGroup, batchSize, waitSec, turns[..n]);
      var batch := turns[n].reply.batch;
      TurnCounts(readGroup, batchSize, waitSec, turns[n].reply);
      BatchOutcome(readGroup, batch);
      forall kind: CallKind {
        CountAppend(TurnsCalls(readGroup, batchSize, waitSec, turns[..n]),
                    TurnCalls(readGroup, batchSize, waitSec, turns[n].reply), kind);
      }
      assert FailsFirstEvent(turns[n]);
      assert FirstFailure(batch) == 0;
    }
  }

  /** Two turns, each fetching one event whose handler fails, Close called in
      the second: the run makes two fetches and two sleeps and then stops. */
  method HandlerFailsTwiceScenario(e: Event, later: seq<Turn>)
  {
    var failing := Fetched([Attempt(e, false, false)]);
    var turns := [Turn(failing, false), Turn(failing, true)] + later;
    var config := new ConsumerConfig(0, 0);
    var consumer := new Consumer("testGroup", config);
    consumer.Consume(turns);
    assert Executed(turns) == 2 by {
      assert turns[1..][0].closed;
    }
    assert !consumer.running by {
      assert turns[1].closed;
    }
    var run := turns[..2];
    assert run == [Turn(failing, false), Turn(failing, true)];
    assert consumer.trace == TurnsCalls("testGroup", config.batchSize, config.waitChangeTimeoutSec, run);
    assert FailsFirstEvent(run[0]) && FailsFirstEvent(run[1]);
    FailingTurns("testGroup", config.batchSize, config.waitChangeTimeoutSec, run);
    assert Count(consumer.trace, FetchKind) == 2;
    assert Count(consumer.trace, SleepKind) == 2;
  }
}
