/** The world a relay client runs in, and its bounded retry policy. */
module Retry {
  import opened Wrappers
  import opened Protocol
  import opened RelayHistory
  import opened Schedule

  /** Everything outside the client: an arbitrary schedule of outcomes, a clock, the await from
      which on the relay is quiet, and a record of what happened at each await of an exchange. */
  class World {
    const script: nat -> Tick
    const quiet: nat
    var at: nat
    var clock: nat
    ghost var ids: Ids
    ghost var kind: ConnectionKind
    ghost var start: Moment
    ghost var history: History

    constructor (script: nat -> Tick, quiet: nat, clock: nat, ids: Ids, kind: ConnectionKind)
      ensures this.script == script && this.quiet == quiet && at == 0 && this.clock == clock
      ensures Truthful() && history == Start
    {
      this.script := script;
      this.quiet := quiet;
      this.at := 0;
      this.clock := clock;
      this.ids := ids;
      this.kind := kind;
      this.start := Moment(0, clock);
      this.history := Start;
    }

    /** The run of the exchange that the record is about. */
    ghost function ThisRun(): Run
      reads this`ids, this`kind, this`start
    {
      Run(script, quiet, ids, kind, start)
    }

    /** The record is what was scheduled, and all of it. */
    ghost predicate Truthful()
      reads this
    {
      Scheduled(ThisRun(), history) && MomentOf(ThisRun(), history) == Moment(at, clock)
    }

    /** The record is that of this exchange. */
    ghost predicate Serves(ids: Ids, kind: ConnectionKind)
      reads this
    {
      Truthful() && this.ids == ids && this.kind == kind
    }

    /** The future was dropped at one of the awaits since `from`. */
    ghost predicate DroppedSince(from: nat)
      reads this
    {
      exists k | from <= k < at :: script(k).dropped
    }

    lemma DroppedInParts(from: nat, middle: nat)
      requires from <= middle <= at
      ensures DroppedSince(from) <==> DroppedSince(middle) || exists k | from <= k < middle :: script(k).dropped
    {
    }

    /** The future of a call was dropped there, and that was the end of it. */
    ghost predicate CutOffSince(from: nat)
      reads this
    {
      DroppedSince(from) && Cut(history)
    }

    /** One await and what came of it are added to the record. */
    twostate predicate Adds(event: Event)
      reads this
    {
      && history == After(old(history), event)
      && at == old(at) + 1 && clock >= old(clock)
    }

    /** One await, and the event that it is recorded as. */
    method Next(duration: nat, ghost event: Event) returns (tick: Tick)
      requires Truthful() && Fits(ThisRun(), Moment(at, clock), event) && !IsNote(event)
      requires duration == if event.Slept? then event.duration else 0
      modifies this`at, this`clock, this`history
      ensures Truthful() && tick == script(old(at)) && Adds(event)
      ensures clock == old(clock) + duration + tick.elapsed
      ensures tick.dropped ==> DroppedSince(old(at))
    {
      tick := script(at);
      history := After(history, event);
      at := at + 1;
      clock := clock + duration + tick.elapsed;
    }

    /** The client's own notes: that a call begins, and that a failure is counted. */
    ghost method Note(event: Event)
      requires Truthful() && IsNote(event) && (event.Failure? ==> event.now == clock)
      modifies this`history
      ensures Truthful() && history == After(old(history), event)
    {
      history := After(history, event);
    }

    /** A new exchange has a record of its own. */
    ghost method Renew(ids: Ids, kind: ConnectionKind)
      modifies this`history, this`ids, this`kind, this`start
      ensures Serves(ids, kind) && history == Start
    {
      this.ids := ids;
      this.kind := kind;
      start := Moment(at, clock);
      history := Start;
    }

    /** A connection attempt. */
    method Connect(ghost kind: ConnectionKind) returns (outcome: ConnectOutcome, dropped: bool)
      requires Truthful() && kind == this.kind
      modifies this`at, this`clock, this`history
      ensures Truthful() && outcome == script(old(at)).connect && dropped == script(old(at)).dropped
      ensures Adds(if dropped then Stopped else AttemptOf(kind, outcome))
      ensures dropped ==> DroppedSince(old(at))
    {
      var tick := Next(0, if script(at).dropped then Stopped else AttemptOf(kind, script(at).connect));
      outcome, dropped := tick.connect, tick.dropped;
    }

    method Write(frame: OutgoingFrame) returns (written: bool, dropped: bool)
      requires Truthful()
      modifies this`at, this`clock, this`history
      ensures Truthful() && written == script(old(at)).written && dropped == script(old(at)).dropped
      ensures Adds(if dropped then CutShort(frame) else if written then Wrote(frame) else WriteBroke(frame))
      ensures dropped ==> DroppedSince(old(at))
    {
      ghost var tick := script(at);
      var passed := Next(0,
        if tick.dropped then CutShort(frame) else if tick.written then Wrote(frame) else WriteBroke(frame));
      written, dropped := passed.written, passed.dropped;
    }

    /** A socket read. */
    method Arrive(ghost ids: Ids) returns (arrival: Arrival, dropped: bool)
      requires Truthful() && ids == this.ids
      modifies this`at, this`clock, this`history
      ensures Truthful() && dropped == script(old(at)).dropped && arrival == Yielded(script, quiet, old(at))
      ensures Adds(if dropped then Stopped else EventOf(ids, arrival))
      ensures dropped ==> DroppedSince(old(at))
    {
      arrival := Yielded(script, quiet, at);
      var tick := Next(0, if script(at).dropped then Stopped else EventOf(ids, arrival));
      dropped := tick.dropped;
    }

    /** Waking up can be late. */
    method Sleep(duration: nat) returns (dropped: bool)
      requires Truthful()
      modifies this`at, this`clock, this`history
      ensures Truthful() && dropped == script(old(at)).dropped
      ensures clock == old(clock) + (if dropped then 0 else duration) + script(old(at)).elapsed
      ensures Adds(if dropped then Stopped else Slept(duration, clock))
      ensures dropped ==> DroppedSince(old(at))
    {
      dropped := script(at).dropped;
      ghost var woken := clock + duration + script(at).elapsed;
      var _ := Next(if dropped then 0 else duration, if dropped then Stopped else Slept(duration, woken));
    }

    /** A look at whether the future is dropped now. */
    method Poll() returns (dropped: bool)
      requires Truthful()
      modifies this`at, this`clock, this`history
      ensures Truthful() && dropped == script(old(at)).dropped && Adds(Polled(dropped))
      ensures dropped ==> DroppedSince(old(at))
    {
      var tick := Next(0, Polled(script(at).dropped));
      dropped := tick.dropped;
    }
  }

  /** What becomes of a failure counted at `now`, when `failures` consecutive ones began at `first`:
      no retry is left; or one sleep, which is cut short by nothing but a dropped future, and
      which can end too late. */
  predicate Retries(policy: RetryPolicy, lost: History, now: nat, delay: nat, failures: nat, first: nat,
                    h: History, r: Await<()>)
  {
    var counted, deadline := After(lost, Failure(now)), first + policy.failureTimeout;
    if failures >= policy.maximumFailures || now >= deadline then
      h == counted && r == Failed(RetriesExhausted(failures))
    else if r.Dropped? then
      h == After(counted, Stopped)
    else
      && h.After? && h.past == counted && h.event.Slept?
      && h.event.duration == (if now + delay < deadline then delay else deadline - now)
      && h.event.woken >= now + h.event.duration
      && r == if h.event.woken >= deadline then Failed(RetriesExhausted(failures)) else Done(())
  }

  /** Counts consecutive failures of one call. */
  class RetryState {
    const policy: RetryPolicy
    var firstFailure: Option<nat>
    var failures: nat

    constructor (policy: RetryPolicy)
      ensures this.policy == policy && firstFailure == None && failures == 0
    {
      this.policy := policy;
      firstFailure := None;
      failures := 0;
    }

    method Succeeded()
      modifies this
      ensures firstFailure == None && failures == 0
    {
      firstFailure := None;
      failures := 0;
    }

    /** The time that the first consecutive failure sets. */
    function Deadline(): nat
      reads this
      requires firstFailure.Some?
    {
      firstFailure.value + policy.failureTimeout
    }

    /** No retry is left: the limit of failures is reached, or the deadline. */
    predicate IsExhausted(now: nat)
      reads this
    {
      failures >= policy.maximumFailures || (firstFailure.Some? && now >= Deadline())
    }

    /** Goes on only below the failure limit and strictly before the deadline that the
        first consecutive failure set, and never starts a sleep that would end past it. */
    method Failed(delay: nat, world: World) returns (r: Await<()>)
      requires world.Truthful()
      modifies this, world`at, world`clock, world`history
      ensures world.Truthful() && failures == old(failures) + 1
      ensures firstFailure == Some(if old(firstFailure).Some? then old(firstFailure).value else old(world.clock))
      ensures Retries(policy, old(world.history), old(world.clock), delay, failures, firstFailure.value, world.history, r)
      ensures world.at == old(world.at) + if IsExhausted(old(world.clock)) then 0 else 1
      ensures if r.Done? then !IsExhausted(world.clock) else r.Failed? ==> IsExhausted(world.clock)
      ensures r.Dropped? ==> world.DroppedSince(old(world.at))
    {
      if firstFailure == None {
        firstFailure := Some(world.clock);
      }
      failures := failures + 1;
      world.Note(Failure(world.clock));
      var deadline := firstFailure.value + policy.failureTimeout;
      if failures >= policy.maximumFailures || world.clock >= deadline {
        return Await.Failed(RetriesExhausted(failures));
      }
      var remaining := deadline - world.clock;
      var dropped := world.Sleep(if delay < remaining then delay else remaining);
      if dropped {
        return Dropped;
      }
      if world.clock >= deadline {
        return Await.Failed(RetriesExhausted(failures));
      }
      return Done(());
    }
  }
}
