// What an on-demand bridge may be seen doing, as a monitor over the effects it
// has on its producer, the sensor driver and the loopback device.
module SessionMonitor {
  import opened Wrappers
  import opened Bytes
  import Reframing
  import RestartLimiter

  const STOP_BUDGET: real := 20.0
  const MAX_ATTEMPTS: nat := 3

  datatype Signal = SIGINT | SIGTERM | SIGKILL

  // Times are those of the daemon's clock.
  datatype Effect =
    | EpisodeStart                             // a client opened the loopback
    | SessionStart
    | Scanned(others: bool)                    // whether somebody else's producer is running
    | Refused(clients: Option<nat>)            // no session for it; the newest client count
    | Restarted(at: real)                      // another session for the same client
    | GaveUp(at: real)                         // no more sessions for it: too many restarts
    | Spawned(pid: nat)                        // Popen returned
    | Recorded(pid: nat)                       // CURRENT_PROC holds it
    | Signalled(pid: nat, sig: Signal, at: real)
    | Died(pid: nat)                           // poll() found it gone
    | Armed(next: real)                        // the first SIGINT is sent; when the next is due
    | Alive(at: real, next: real)              // a look while stopping found it alive, at this time
    | Napped                                   // a fifth of a second
    | Reloaded                                 // modprobe -r, modprobe
    | Waiting(at: real)                        // spawn_t: waiting for the first frame from now on
    | Round(at: real)                          // a round of the relay loop, at the clock read at its head
    | Stuck(at: real)                          // no round: the start is given up
    | Black(at: real, written: bool)           // a splash frame on the loopback
    | Selected(readable: bool)                 // whether there is something to read
    | Chunk(bytes: seq<Byte>)                  // read from the producer's pipe
    | Frame(frame: seq<Byte>)                  // a frame on the loopback
    | WriteFailed                              // none: the session ends
    | Report(count: nat, at: real)             // newest client count, when it was taken note of
    | NoNews                                   // no client count
    | Looked(at: real)                         // the end of a round: the session goes on
    | ClientsGone(at: real)                    // the session ends for want of clients
    | Interrupted(at: real)                    // SIGTERM or SIGINT reached the daemon
    | Leaving(at: real)                        // main's finally block is entered
    | Masked                                   // signals are ignored from now on
    | Exited(at: real)                         // the daemon is gone

  // Where the daemon is on its way out: serving; hit by a signal, perhaps by
  // another before the finally block; in that block; with signals masked, or cut
  // off by one before that; gone.
  datatype Life = Serving | Hit | HitAgain | Finally | SignalsMasked | CutOff | Gone

  // Where a serving daemon is.
  datatype Stage =
    | Starting          // nothing on the loopback yet
    | AtRest            // between clients
    | Ready             // a session is about to start
    | Clear             // and nobody else's producer runs
    | Blocked           // but one does
    | Attempting        // a producer is about to be started
    | Launched          // it is, and recorded
    | Fresh             // relaying, before a round
    | InRound           // in one
    | Readable          // there is something to read
    | HasRead           // it is read, or there was nothing
    | Told              // and news of the clients was asked for
    | Retry             // the start is given up
    | SessionOver(again: bool) // the session is over; there may be another

  // When another SIGINT is due, whether one was sent since that was settled, and
  // whether the producer was looked after since the last nap.
  datatype Pace = Pace(next: real, sent: bool, asked: bool)

  datatype Monitor = Monitor(
    alive: set<nat>,             // spawned and not seen dead
    known: set<nat>,             // recorded in CURRENT_PROC at some time
    justSpawned: bool,           // between Popen and the assignment
    firstSigint: map<nat, real>, // since the start, or since signals are masked
    pace: Pace,                  // of stopping the producer
    stage: Stage,
    episodes: nat,               // clients served so far
    restarts: seq<real>,         // of this episode
    attempts: nat,               // spawns of this session
    waiting: real,               // since when the first frame is waited for
    splash: real,                // when the next black frame is due
    due: bool,                   // it is, in this round
    frames: nat,                 // real frames of this session
    report: Option<(nat, real)>, // latest client count of this attempt
    left: seq<Byte>,             // read in this attempt and not yet forwarded
    life: Life)

  // FIRST_FRAME_TIMEOUT and CLIENT_GRACE, which the two bridges set differently,
  // whether restarts are limited, and whether the sensor driver is reloaded
  // between attempts.
  datatype Limits = Limits(firstFrame: real, grace: real, restarts: bool, reloads: bool)

  const PSYS: Limits := Limits(10.0, 2.0, false, true)
  const REAR: Limits := Limits(20.0, 3.0, true, false)
  const FPS: real := 30.0

  const START: Monitor :=
    Monitor({}, {}, false, map[], Pace(0.0, false, false), Starting, 0, [], 0, 0.0, 0.0, false, 0, None, [], Serving)

  function AfterSignal(life: Life): Life {
    if life == Serving then Hit else if life == Hit then HitAgain else CutOff
  }

  // No client, as far as was reported.
  predicate Deserted(report: Option<(nat, real)>) {
    report.Some? && report.value.0 == 0
  }

  // The end of a relay loop that found its producer dead.
  function AfterDeath(m: Monitor): Stage {
    if m.life == Serving && m.stage == Readable then if m.frames == 0 then Retry else SessionOver(!Deserted(m.report)) else m.stage
  }

  function Next(m: Monitor, e: Effect): Monitor {
    var m := m.(justSpawned := e.Spawned?);
    match e
    case EpisodeStart => m.(stage := Ready, episodes := m.episodes + 1, restarts := [])
    case SessionStart => m.(stage := Attempting, attempts := 0, frames := 0)
    case Scanned(others) => m.(stage := if others then Blocked else Clear)
    case Refused(clients) => m.(stage := SessionOver(clients != Some(0)))
    case Restarted(at) => m.(stage := Ready, restarts := m.restarts + [at])
    case GaveUp(_) => m.(stage := AtRest)
    case Spawned(pid) => m.(alive := m.alive + {pid}, attempts := m.attempts + 1, report := None, left := [])
    case Recorded(pid) => m.(known := m.known + {pid}, stage := Launched)
    case Signalled(pid, _, at) =>
      m.(firstSigint := if pid in m.firstSigint then m.firstSigint else m.firstSigint[pid := at], pace := m.pace.(sent := true))
    case Armed(next) => m.(pace := Pace(next, false, false))
    case Alive(_, next) => m.(pace := Pace(next, false, true))
    case Napped => m.(pace := m.pace.(asked := false))
    case Died(pid) => m.(alive := m.alive - {pid}, stage := AfterDeath(m))
    case Reloaded => m.(stage := Attempting)
    case Waiting(at) => m.(stage := Fresh, waiting := at, splash := 0.0, due := false)
    case Round(at) => m.(stage := InRound, due := m.frames == 0 && at >= m.splash)
    case Stuck(_) => m.(stage := Retry)
    case Black(at, _) => m.(stage := if m.stage == Starting then AtRest else m.stage, splash := at + 1.0 / FPS, due := false)
    case Selected(readable) => m.(stage := if readable then Readable else HasRead)
    case Chunk(b) => m.(stage := HasRead, left := m.left + b)
    case Frame(f) => m.(frames := m.frames + 1, left := if |f| <= |m.left| then m.left[|f|..] else [])
    case WriteFailed => m.(stage := SessionOver(false))
    case NoNews => m.(stage := Told)
    case Report(count, at) => m.(stage := Told, report := Some((count, at)))
    case Looked(_) => m.(stage := Fresh)
    case ClientsGone(_) => m.(stage := SessionOver(false))
    case Interrupted(_) => m.(life := AfterSignal(m.life))
    case Leaving(_) => m.(life := Finally)
    case Masked => m.(life := SignalsMasked, firstSigint := map[])
    case Exited(_) => m.(life := Gone)
  }

  // A recorded producer had its whole SIGINT budget.
  predicate BudgetSpent(m: Monitor, pid: nat, at: real) {
    pid in m.firstSigint && at >= m.firstSigint[pid] + STOP_BUDGET
  }

  // The fifth restart before this one is a minute ago.
  predicate Rested(restarts: seq<real>, at: real) {
    var n, most := |restarts|, RestartLimiter.MAX_RESTARTS_PER_MIN;
    n >= most ==> at - restarts[n - most] >= RestartLimiter.WINDOW
  }

  // Times do not run backwards.
  predicate Later(restarts: seq<real>, at: real) {
    restarts != [] ==> restarts[|restarts| - 1] <= at
  }

  // No first frame came in time.
  predicate TooLate(m: Monitor, at: real, limits: Limits) {
    m.frames == 0 && at - m.waiting > limits.firstFrame
  }

  // Every client has been gone for longer than the grace period.
  predicate GraceOver(m: Monitor, at: real, limits: Limits) {
    Deserted(m.report) && at - m.report.value.1 > limits.grace
  }

  // Every whole frame read is forwarded.
  predicate AllForwarded(m: Monitor) {
    m.stage == HasRead && |m.left| < Reframing.FRAME_SIZE
  }

  // Attempts are used up, or the session is over: the client has to come again.
  predicate ClientDone(m: Monitor) {
    m.stage == AtRest || m.stage == SessionOver(false) || (m.stage == Retry && m.attempts == MAX_ATTEMPTS)
  }

  // A producer is to be started: the first of the session, or after the sensor
  // driver was reloaded where it is.
  predicate SpawnDue(m: Monitor, limits: Limits) {
    m.stage == Attempting || (m.stage == Retry && m.attempts < MAX_ATTEMPTS && !limits.reloads)
  }

  // A look leaves the date of the next SIGINT alone before that date; from then on
  // one was just sent, and the next is due four seconds on.
  predicate Paced(m: Monitor, e: Effect) {
    && (e.Armed? ==> m.pace.sent) && (e.Alive? ==> !m.pace.asked)
    && (e.Alive? ==> if e.at < m.pace.next then !m.pace.sent && e.next == m.pace.next
                     else m.pace.sent && e.next >= e.at + 4.0)
  }

  // What a serving daemon does. Each effect has its stage, so where a stage allows
  // one effect only, or two told apart by a condition, that is what comes next.
  ghost predicate Serves(m: Monitor, e: Effect, limits: Limits) {
    match e
    case EpisodeStart => m.alive == {} && ClientDone(m)
    case Scanned(_) => m.alive == {} && m.stage == Ready
    case SessionStart => m.alive == {} && m.stage == Clear
    case Refused(_) => m.alive == {} && m.stage == Blocked
    case Restarted(at) =>
      && m.alive == {} && m.stage == SessionOver(true)
      && Later(m.restarts, at) && (limits.restarts ==> Rested(m.restarts, at))
    case GaveUp(at) => m.alive == {} && m.stage == SessionOver(true) && limits.restarts && !Rested(m.restarts, at)
    case Spawned(pid) =>
      pid !in m.known && m.alive == {} && m.attempts < MAX_ATTEMPTS && m.frames == 0 && SpawnDue(m, limits)
    case Recorded(pid) => pid in m.alive && m.justSpawned
    case Signalled(pid, sig, _) => sig == SIGINT && pid in m.alive && pid in m.known && (m.stage.Retry? || m.stage.SessionOver?)
    case Died(pid) => pid in m.alive && pid in m.known && (m.stage.Retry? || m.stage.SessionOver? || m.stage == Readable)
    case Armed(_) => Paced(m, e) && (m.stage.Retry? || m.stage.SessionOver?)
    case Alive(_, _) => Paced(m, e) && (m.stage.Retry? || m.stage.SessionOver?)
    case Napped => m.pace.asked && (m.stage.Retry? || m.stage.SessionOver?)
    case Reloaded =>
      m.alive == {} && m.frames == 0 && m.stage == Retry && m.attempts < MAX_ATTEMPTS && limits.reloads
    case Waiting(_) => m.frames == 0 && m.stage == Launched
    case Round(at) => m.stage == Fresh && !TooLate(m, at, limits)
    case Stuck(at) => m.stage == Fresh && TooLate(m, at, limits)
    case Black(at, _) =>
      && m.frames == 0 && (m.stage == Starting || (m.stage == InRound && m.due))
      && (m.attempts > 0 ==> at - m.waiting <= limits.firstFrame)
    case Selected(_) => m.stage == InRound && !m.due
    case Chunk(_) => m.stage == Readable && |m.left| < Reframing.FRAME_SIZE
    case Frame(f) => |f| == Reframing.FRAME_SIZE && f <= m.left && m.stage == HasRead
    case WriteFailed => |m.left| >= Reframing.FRAME_SIZE && m.stage == HasRead
    case Report(_, _) => AllForwarded(m)
    case NoNews => AllForwarded(m)
    case Looked(at) => m.stage == Told && |m.left| < Reframing.FRAME_SIZE && !GraceOver(m, at, limits)
    case ClientsGone(at) => m.stage == Told && |m.left| < Reframing.FRAME_SIZE && GraceOver(m, at, limits)
    case Interrupted(_) => true
    case Leaving(at) =>
      && (m.stage.Retry? || m.stage.SessionOver?)
      && m.alive != {} && forall pid :: pid in m.alive ==> BudgetSpent(m, pid, at)
    case Masked => false
    case Exited(_) => false
  }

  // What one in its finally block does, signals masked.
  ghost predicate StopsTheProducer(m: Monitor, e: Effect) {
    match e
    case Signalled(pid, sig, _) => sig == SIGINT && pid in m.alive && pid in m.known
    case Died(pid) => pid in m.alive && pid in m.known
    case Armed(_) => Paced(m, e)
    case Alive(_, _) => Paced(m, e)
    case Napped => m.pace.asked
    case Exited(at) => forall pid :: pid in m.alive && pid in m.known ==> BudgetSpent(m, pid, at)
    case _ => false
  }

  // The rules. A daemon that was interrupted, or gives up, enters the finally
  // block, masks signals unless one cuts it off, stops its producer and exits; a
  // second signal before that block changes nothing.
  ghost predicate Allowed(m: Monitor, e: Effect, limits: Limits) {
    && (m.justSpawned ==> e.Recorded? || e.Interrupted?)
    && match m.life
       case Serving => Serves(m, e, limits)
       case Hit => e.Interrupted? || e.Leaving?
       case HitAgain => e.Leaving?
       case Finally => e.Interrupted? || e.Masked?
       case CutOff => e.Exited?
       case SignalsMasked => StopsTheProducer(m, e)
       case Gone => false
  }

  function Run(tr: seq<Effect>): Monitor {
    if tr == [] then START else Next(Run(tr[..|tr| - 1]), tr[|tr| - 1])
  }

  ghost predicate Accepts(tr: seq<Effect>, limits: Limits) {
    tr == [] || (Accepts(tr[..|tr| - 1], limits) && Allowed(Run(tr[..|tr| - 1]), tr[|tr| - 1], limits))
  }

  lemma OneMore(tr: seq<Effect>, e: Effect, limits: Limits)
    ensures Run(tr + [e]) == Next(Run(tr), e)
    ensures Accepts(tr + [e], limits) == (Accepts(tr, limits) && Allowed(Run(tr), e, limits))
  {
    assert (tr + [e])[..|tr|] == tr;
  }
}
