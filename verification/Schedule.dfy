/** What the world has in store for one exchange, and what it means that a history of the
    exchange is the whole truth about it. */
module Schedule {
  import opened Wrappers
  import opened Protocol
  import opened RelayHistory

  /** What the world does at one await. Only the members the await looks at matter;
      `dropped` drops the future there instead. */
  datatype Tick = Tick(elapsed: nat, connect: ConnectOutcome, written: bool, arrival: Arrival, dropped: bool)

  /** How many awaits there were, and what the clock says. */
  datatype Moment = Moment(at: nat, clock: nat)

  /** The run of one exchange: the outcomes of all awaits, the first await from which on the
      relay delivers no more frames, whose exchange it is, and when that began. */
  datatype Run = Run(script: nat -> Tick, quiet: nat, ids: Ids, kind: ConnectionKind, start: Moment)

  /** What a socket read yields. A relay that has no frame left to deliver disconnects instead. */
  function Yielded(script: nat -> Tick, quiet: nat, at: nat): Arrival {
    var arrival := script(at).arrival;
    if at >= quiet && (arrival.Text? || arrival.Control?) then Gone else arrival
  }

  /** Each event but the client's notes takes one await. */
  function Later(run: Run, m: Moment, event: Event): Moment {
    if IsNote(event) then m
    else Moment(m.at + 1, m.clock + run.script(m.at).elapsed + if event.Slept? then event.duration else 0)
  }

  /** The moment after a history. */
  function MomentOf(run: Run, h: History): Moment {
    match h
    case Start => run.start
    case After(past, event) => Later(run, MomentOf(run, past), event)
  }

  predicate IsAttempt(event: Event) {
    event.Opened? || event.Unopened? || event.Refused?
  }

  predicate IsArrival(event: Event) {
    event.Got? || event.Alive? || event.Lost? || event.Ended?
  }

  /** An event is what happened then. A connection attempt and a socket read can only be
      recorded as what they came to, and a failure is counted by the clock. */
  predicate Fits(run: Run, m: Moment, event: Event) {
    var tick := run.script(m.at);
    if IsAttempt(event) then !tick.dropped && event == AttemptOf(run.kind, tick.connect)
    else if IsArrival(event) then
      !tick.dropped && event == EventOf(run.ids, Yielded(run.script, run.quiet, m.at))
    else match event
      case Wrote(_) => !tick.dropped && tick.written
      case WriteBroke(_) => !tick.dropped && !tick.written
      case CutShort(_) => tick.dropped
      case Failure(now) => now == m.clock
      case Slept(duration, woken) => !tick.dropped && woken == m.clock + duration + tick.elapsed
      case Stopped => tick.dropped
      case Polled(dropped) => dropped == tick.dropped
      case _ => true
  }

  /** Every event of a history is what happened at its moment, and no await is left out. */
  ghost predicate Scheduled(run: Run, h: History) {
    h.After? ==> Scheduled(run, h.past) && Fits(run, MomentOf(run, h.past), h.event)
  }

  lemma HappensNext(run: Run, h: History, m: Moment, event: Event)
    requires Scheduled(run, h) && MomentOf(run, h) == m && Fits(run, m, event)
    ensures Scheduled(run, After(h, event)) && MomentOf(run, After(h, event)) == Later(run, m, event)
  {
  }
}
