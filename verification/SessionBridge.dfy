// The psys and rear bridges (bridges/surface-psys-bridge,
// bridges/surface-rear-bridge): run_session, stop_gst and main, against an
// environment that may do anything at every call, signals included. Every
// effect goes through the monitor's rules.
module SessionBridge {
  import opened Wrappers
  import opened Bytes
  import opened Reframing
  import opened SessionMonitor
  import RestartLimiter

  const CLIENT_USAGE: nat := 0x08000000 + 0x08E00000 + 1

  // An event of the loopback's queue.
  datatype Event = Event(kind: nat, count: nat)

  function LatestUsage(q: seq<Event>): Option<nat> {
    if q == [] then None
    else if q[|q| - 1].kind == CLIENT_USAGE then Some(q[|q| - 1].count)
    else LatestUsage(q[..|q| - 1])
  }

  // The count of the last usage event there is, whatever else is queued.
  lemma {:induction false} LatestUsageIs(q: seq<Event>)
    ensures match LatestUsage(q)
            case None => forall e :: e in q ==> e.kind != CLIENT_USAGE
            case Some(count) =>
              exists i :: 0 <= i < |q| && q[i] == Event(CLIENT_USAGE, count) && forall j :: i < j < |q| ==> q[j].kind != CLIENT_USAGE
  {
    if q != [] && q[|q| - 1].kind != CLIENT_USAGE {
      LatestUsageIs(q[..|q| - 1]);
    } else if q != [] {
      assert q[|q| - 1] == Event(CLIENT_USAGE, q[|q| - 1].count);
    }
  }

  // poll_client_count: drain the queue, or stop early when VIDIOC_DQEVENT
  // fails; the newest client count among the events dequeued.
  method PollClientCount(q: seq<Event>, failAt: Option<nat>) returns (count: Option<nat>, taken: nat)
    ensures taken == if failAt.Some? && failAt.value < |q| then failAt.value else |q|
    ensures count == LatestUsage(q[..taken])
  {
    count, taken := None, 0;
    while taken < |q|
      invariant taken <= |q| && (failAt.Some? && failAt.value < |q| ==> taken <= failAt.value)
      invariant count == LatestUsage(q[..taken])
    {
      if failAt == Some(taken) {
        return;
      }
      assert q[..taken + 1][..taken] == q[..taken];
      if q[taken].kind == CLIENT_USAGE {
        count := Some(q[taken].count);
      }
      taken := taken + 1;
    }
  }

  // How the relay loop of one attempt ends.
  datatype RelayEnd = NoFrame | Over(producerExited: bool, clientsLeft: bool) | Signal | Unobserved

  // How one read from the producer's pipe ends.
  datatype ReadEnd = Drained(delivered: bool) | ProducerGone | WriteError | Broken

  // How run_session, or one round of main's loop, ends; Unobserved when the run
  // is not followed any further.
  datatype SessionEnd = Again | Idle | SysExit | KeyboardInterrupt | NotFollowed

  lemma LessTime(deadline: real, before: real, after: real)
    requires after >= before + 0.2
    ensures ((deadline - after) * 5.0).Floor < ((deadline - before) * 5.0).Floor
    ensures before < deadline ==> 0 <= ((deadline - before) * 5.0).Floor
  {
    var x, y := (deadline - after) * 5.0, (deadline - before) * 5.0;
    assert x <= y - 1.0;
    assert x.Floor as real <= x <= y - 1.0;
  }

  lemma HitInTheWindow(m: Monitor, limits: Limits)
    requires m.life == Serving
    ensures forall at :: Allowed(m, Interrupted(at), limits)
    ensures forall at :: Next(m, Interrupted(at)) == m.(life := Hit, justSpawned := false)
  {
  }

  lemma FinallySteps(m: Monitor, limits: Limits)
    requires m.life == Finally && !m.justSpawned
    ensures forall at :: Allowed(m, Interrupted(at), limits) && Next(m, Interrupted(at)) == m.(life := CutOff)
    ensures Allowed(m, Masked, limits) && Next(m, Masked) == m.(life := SignalsMasked, firstSigint := map[])
  {
  }

  lemma SplashAllowed(m: Monitor, t: real, limits: Limits)
    requires m.life == Serving && !m.justSpawned && m.stage == InRound && m.due && m.frames == 0 && !TooLate(m, t, limits)
    ensures forall written :: Allowed(m, Black(t, written), limits)
  {
  }

  class Bridge {
    const limits: Limits

    var now: real
    var current: Option<nat> // CURRENT_PROC[0]
    var nextPid: nat
    var living: set<nat>     // the environment's: producers that have not been reaped
    var horizon: nat         // loop rounds of the run still followed
    var signals: seq<bool>   // whether a signal arrives at each of the next points where one may
    var others: seq<bool>    // whether somebody else's producer runs, at the next times it is asked
    ghost var trace: seq<Effect>
    ghost var m: Monitor

    ghost predicate Valid()
      reads this`trace, this`m, this`living, this`nextPid
    {
      && Accepts(trace, limits) && m == Run(trace)
      && !m.justSpawned && m.life !in {CutOff, Gone} && living == m.alive
      && (forall pid :: pid in m.alive || pid in m.known ==> pid < nextPid)
    }

    constructor (limits: Limits, horizon: nat, signals: seq<bool>, others: seq<bool>)
      ensures Quiet() && trace == [] && m == START && nextPid == 0 && current == None
      ensures this.limits == limits && this.signals == signals && this.others == others
    {
      this.limits, this.horizon, this.signals, this.others := limits, horizon, signals, others;
      now, current, nextPid, living := 0.0, None, 0, {};
      trace, m := [], START;
    }

    ghost method Emit(e: Effect)
      requires Accepts(trace, limits) && m == Run(trace) && Allowed(m, e, limits)
      modifies this`trace, this`m
      ensures trace == old(trace) + [e] && Accepts(trace, limits) && m == Run(trace) == Next(old(m), e)
    {
      OneMore(trace, e, limits);
      trace := trace + [e];
      m := Next(m, e);
    }

    // time.monotonic()
    method Clock() returns (t: real)
      modifies this`now
      ensures t == now >= old(now)
    {
      var later: real := *;
      if later > now {
        now := later;
      }
      t := now;
    }

    method Sleep(d: real)
      requires d >= 0.0
      modifies this`now
      ensures now >= old(now) + d
    {
      var t := Clock();
      now := now + d;
    }

    predicate SignalNext()
      reads this`signals
    {
      signals != [] && signals[0]
    }

    // Whether a signal arrives here, raising KeyboardInterrupt.
    method SignalHere() returns (hit: bool)
      requires Accepts(trace, limits) && m == Run(trace) && forall at :: Allowed(m, Interrupted(at), limits)
      modifies this`signals, this`trace, this`m, this`now
      ensures Accepts(trace, limits) && m == Run(trace) && now >= old(now)
      ensures hit == old(SignalNext()) && signals == if old(signals) == [] then [] else old(signals)[1..]
      ensures trace == if hit then old(trace) + [Interrupted(now)] else old(trace)
      ensures m == if hit then Next(old(m), Interrupted(now)) else old(m)
      ensures !hit ==> now == old(now)
    {
      hit := SignalNext();
      if signals != [] {
        signals := signals[1..];
      }
      if hit {
        var t := Clock();
        Emit(Interrupted(t));
      }
    }

    // The same while the daemon serves.
    method Tick() returns (hit: bool)
      requires Valid() && m.life == Serving
      modifies this`signals, this`trace, this`m, this`now
      ensures Valid() && now >= old(now)
      ensures hit == old(SignalNext()) && signals == if old(signals) == [] then [] else old(signals)[1..]
      ensures trace == if hit then old(trace) + [Interrupted(now)] else old(trace)
      ensures m == old(m).(life := if hit then Hit else Serving)
    {
      hide Accepts, Run, Allowed, Next;
      HitInTheWindow(m, limits);
      hit := SignalHere();
    }

    method TickUnless(masked: bool) returns (hit: bool)
      requires Valid() && m.life == if masked then SignalsMasked else Serving
      modifies this`signals, this`trace, this`m, this`now
      ensures Valid() && now >= old(now) && (masked ==> !hit)
      ensures m == old(m).(life := if hit then Hit else old(m).life)
    {
      hide Accepts, Run, Allowed, Next, Valid;
      hit := false;
      if !masked {
        hit := Tick();
      }
    }

    // A producer may be stopped: once its relaying is over, or with signals masked.
    ghost predicate Stopping()
      reads this`m
    {
      m.life == SignalsMasked || (m.life == Serving && (m.stage.Retry? || m.stage.SessionOver?))
    }

    // Or be found dead, when a read from its pipe came back empty.
    ghost predicate Acting(pid: nat)
      reads this`m
    {
      Stopping() || (m.life == Serving && m.stage == Readable && pid in m.alive)
    }

    // proc.poll() is not None
    method Poll(pid: nat) returns (dead: bool)
      requires Valid() && m.alive <= {pid} && Acting(pid) && (pid in m.alive ==> pid in m.known)
      modifies this`trace, this`m, this`living
      ensures Valid() && old(trace) <= trace
      ensures m == if dead then old(m).(alive := {}, stage := AfterDeath(old(m))) else old(m)
      ensures if dead then m.alive == {} else pid in m.alive && trace == old(trace)
    {
      hide Accepts, Run;
      if pid !in living {
        return true;
      }
      dead := *;
      if dead {
        Emit(Died(pid));
        living := living - {pid};
      }
    }

    // proc.send_signal(SIGINT): it polls first and leaves a dead child alone.
    method SendSigint(pid: nat) returns (gone: bool)
      requires Valid() && m.alive <= {pid} && pid in m.known && Stopping()
      modifies this`trace, this`m, this`living
      ensures Valid() && old(trace) <= trace
      ensures gone ==> m == old(m).(alive := {})
      ensures !gone ==> trace == old(trace) + [Signalled(pid, SIGINT, now)]
      ensures !gone ==> pid in m.alive && pid in m.firstSigint && m == old(m).(firstSigint := m.firstSigint, pace := m.pace)
      ensures !gone ==> m.pace == old(m).pace.(sent := true)
      ensures !gone ==> m.firstSigint == if pid in old(m).firstSigint then old(m).firstSigint
                                         else old(m).firstSigint[pid := now]
    {
      hide Accepts, Run;
      gone := Poll(pid);
      if !gone {
        Emit(Signalled(pid, SIGINT, now));
      }
    }

    // One round of stop_gst's loop: look whether the producer is gone, and
    // repeat the SIGINT exactly when it is time to, which puts off the next one.
    method Nudge(pid: nat, nextInt: real) returns (gone: bool, next: real, ghost looked: real)
      requires Valid() && m.alive <= {pid} && pid in m.known && pid in m.firstSigint && Stopping()
      requires m.pace == Pace(nextInt, false, false)
      modifies this`trace, this`m, this`living, this`now
      ensures Valid() && now >= looked >= old(now)
      ensures m == old(m).(alive := if gone then {} else old(m).alive, pace := m.pace)
      ensures !gone ==> m.pace == Pace(next, false, true) && pid in m.alive
      ensures !gone ==> if looked < nextInt then trace == old(trace) + [Alive(looked, next)] && next == nextInt
                        else trace == old(trace) + [Signalled(pid, SIGINT, looked), Alive(looked, next)] && next == now + 4.0
    {
      hide Allowed, Accepts, Run, Next, Valid;
      next, looked := nextInt, now;
      gone := Poll(pid);
      if gone {
        return;
      }
      var t := Clock();
      looked := t;
      if t >= nextInt {
        gone := SendSigint(pid);
        if gone {
          return;
        }
        next := Clock();
        next := next + 4.0;
      }
      EmitPace(Alive(looked, next));
    }

    ghost method EmitPace(e: Effect)
      requires Valid() && Stopping() && Paced(m, e) && (e.Armed? || e.Alive?)
      modifies this`trace, this`m
      ensures Valid() && trace == old(trace) + [e]
      ensures m == old(m).(pace := Pace(e.next, false, e.Alive?))
    {
      hide Accepts, Run;
      Emit(e);
    }

    // time.sleep(0.2), between two looks.
    method Nap()
      requires Valid() && Stopping() && m.pace.asked
      modifies this`trace, this`m, this`now
      ensures Valid() && now >= old(now) + 0.2 && m == old(m).(pace := old(m).pace.(asked := false))
    {
      hide Accepts, Run;
      Emit(Napped);
      Sleep(0.2);
    }

    // stop_gst: SIGINT, again every four seconds, for at most STOP_BUDGET. With
    // `masked` signals are ignored (main's finally block); otherwise one may
    // break the wait off.
    method StopGst(pid: nat, masked: bool) returns (gone: bool, hit: bool)
      requires Valid() && m.alive <= {pid} && (pid in m.alive ==> pid in m.known)
      requires Stopping() && m.life == if masked then SignalsMasked else Serving
      requires pid in m.firstSigint ==> m.firstSigint[pid] <= now
      modifies this`signals, this`trace, this`m, this`living, this`now
      ensures Valid() && now >= old(now)
      ensures masked ==> !hit
      ensures m == old(m).(alive := m.alive, firstSigint := m.firstSigint, life := if hit then Hit else old(m).life,
                           pace := m.pace)
      ensures m.alive <= old(m).alive && (gone && !hit ==> m.alive == {})
      ensures pid in m.firstSigint ==> m.firstSigint[pid] <= now
      ensures m.firstSigint == old(m).firstSigint
              || (pid in m.firstSigint && m.firstSigint == old(m).firstSigint[pid := m.firstSigint[pid]])
      ensures !gone && !hit ==> pid in m.alive && BudgetSpent(m, pid, now)
    {
      hide Allowed, Accepts, Run, Next, Valid;
      hit := false;
      gone := Poll(pid);
      if gone {
        return;
      }
      var deadline := Clock();
      deadline := deadline + STOP_BUDGET;
      var nextInt;
      gone, hit, nextInt := FirstSigint(pid, masked);
      if !gone && !hit {
        gone, hit := AwaitEnd(pid, masked, deadline, nextInt);
      }
    }

    // Its first SIGINT, and when the next is due.
    method FirstSigint(pid: nat, masked: bool) returns (gone: bool, hit: bool, nextInt: real)
      requires Valid() && m.alive == {pid} && pid in m.known
      requires Stopping() && m.life == if masked then SignalsMasked else Serving
      requires pid in m.firstSigint ==> m.firstSigint[pid] <= now
      modifies this`signals, this`trace, this`m, this`living, this`now
      ensures Valid() && now >= old(now) && (masked ==> !hit) && !(gone && hit)
      ensures m == old(m).(alive := m.alive, firstSigint := m.firstSigint, life := if hit then Hit else old(m).life,
                           pace := m.pace)
      ensures if gone then m.alive == {} && m.firstSigint == old(m).firstSigint
              else m.alive == {pid} && pid in m.firstSigint && m.firstSigint[pid] <= old(now)
                   && m.firstSigint == old(m).firstSigint[pid := m.firstSigint[pid]]
      ensures !gone && !hit ==> m.pace == Pace(nextInt, false, false) && nextInt == now + 4.0
    {
      hide Allowed, Accepts, Run, Next, Valid;
      hit, nextInt := false, 0.0;
      gone := SendSigint(pid);
      if gone {
        return;
      }
      hit := TickUnless(masked);
      if hit {
        return;
      }
      nextInt := Clock();
      nextInt := nextInt + 4.0;
      EmitPace(Armed(nextInt));
    }

    // Its loop, and one last look.
    method AwaitEnd(pid: nat, masked: bool, deadline: real, firstInt: real) returns (gone: bool, hit: bool)
      requires Valid() && m.alive == {pid} && pid in m.known && pid in m.firstSigint
      requires Stopping() && m.life == if masked then SignalsMasked else Serving
      requires m.firstSigint[pid] + STOP_BUDGET <= deadline && m.pace == Pace(firstInt, false, false)
      modifies this`signals, this`trace, this`m, this`living, this`now
      ensures Valid() && now >= old(now)
      ensures masked ==> !hit
      ensures m == old(m).(alive := m.alive, life := if hit then Hit else old(m).life,
                           pace := m.pace)
      ensures if gone then m.alive == {} else m.alive == {pid}
      ensures !gone && !hit ==> now >= deadline
    {
      hide Allowed, Accepts, Run, Next, Valid;
      hit := false;
      var nextInt := firstInt;
      var t := Clock();
      while t < deadline
        invariant Valid() && t <= now && old(now) <= now && m == old(m).(pace := m.pace)
        invariant m.pace == Pace(nextInt, false, false)
        decreases ((deadline - t) * 5.0).Floor
      {
        ghost var looked;
        gone, nextInt, looked := Nudge(pid, nextInt);
        if gone {
          return;
        }
        hit := TickUnless(masked);
        if hit {
          return;
        }
        ghost var before := t;
        Nap();
        t := Clock();
        LessTime(deadline, before, t);
      }
      gone := Poll(pid);
    }

    // The inner while of run_session: forward every whole frame of buf. Stops
    // when a write to the loopback fails, or on a signal.
    method Drain(buf: seq<Byte>) returns (rest: seq<Byte>, failed: bool, hit: bool)
      requires Valid() && m.life == Serving && m.stage == HasRead && m.left == buf
      modifies this`signals, this`trace, this`m, this`now
      ensures Valid() && old(trace) <= trace && now >= old(now)
      ensures m == old(m).(frames := m.frames, left := m.left, life := if hit then Hit else Serving,
                           stage := if failed then SessionOver(false) else HasRead)
      ensures !failed && !hit ==>
                rest == m.left == Left(buf, FRAME_SIZE) && m.frames == old(m).frames + |Frames(buf, FRAME_SIZE)|
      ensures !failed && !hit ==> (m.frames > old(m).frames <==> |buf| >= FRAME_SIZE)
      ensures !(failed && hit)
    {
      hide Accepts, Run;
      rest, failed, hit := buf, false, false;
      while |rest| >= FRAME_SIZE
        invariant Valid() && m.life == Serving && old(trace) <= trace && rest == m.left && now >= old(now)
        invariant m == old(m).(frames := m.frames, left := m.left)
        invariant Left(rest, FRAME_SIZE) == Left(buf, FRAME_SIZE)
        invariant m.frames + |Frames(rest, FRAME_SIZE)| == old(m).frames + |Frames(buf, FRAME_SIZE)|
        invariant |rest| <= |buf|
      {
        hit := Tick();
        if hit {
          return;
        }
        var frame := rest[..FRAME_SIZE];
        rest := rest[FRAME_SIZE..];
        failed := *;
        if failed {
          Emit(Effect.WriteFailed);
          return;
        }
        Emit(Effect.Frame(frame));
      }
    }

    // What stays put while the producer pid is relayed or stopped.
    twostate predicate SameProducer(pid: nat)
      reads this`trace, this`m, this`living, this`nextPid
    {
      && Valid() && m.alive <= {pid}
      && m.known == old(m).known && m.attempts == old(m).attempts && m.firstSigint == old(m).firstSigint
      && m.restarts == old(m).restarts && m.episodes == old(m).episodes
    }

    // A black frame for the waiting client; a failing write is ignored.
    method Splash(at: real)
      requires Valid() && m.life == Serving && m.stage == InRound && forall written :: Allowed(m, Black(at, written), limits)
      modifies this`trace, this`m
      ensures Valid() && m == old(m).(splash := at + 1.0 / FPS, due := false)
    {
      hide Accepts, Run;
      var written: bool := *;
      Emit(Black(at, written));
    }

    // One read from the pipe, and the frames it completes.
    method ReadPipe(pid: nat, buf: seq<Byte>) returns (read: ReadEnd, rest: seq<Byte>)
      requires Valid() && m.alive == {pid} && m.life == Serving && m.left == buf && |buf| < FRAME_SIZE
      requires pid in m.known && m.stage == Readable
      modifies this`signals, this`trace, this`m, this`living, this`now
      ensures SameProducer(pid) && m.report == old(m).report && m.waiting == old(m).waiting && now >= old(now)
      ensures m.splash == old(m).splash
      ensures m.life == if read == Broken then Hit else Serving
      ensures if read == ProducerGone then m.alive == {} && m.frames == old(m).frames else m.alive == {pid}
      ensures read == ProducerGone ==> m.stage == if m.frames == 0 then Retry else SessionOver(!Deserted(m.report))
      ensures read == WriteError ==> m.stage == SessionOver(false)
      ensures read.Drained? ==> m.stage == HasRead && rest == m.left && |rest| < FRAME_SIZE
      ensures read.Drained? ==> if read.delivered then m.frames > old(m).frames else m.frames == old(m).frames
    {
      hide Accepts, Run, Left, Frames;
      rest := buf;
      var hit := Tick();
      if hit {
        return Broken, rest;
      }
      var chunk: seq<Byte> := *;  // b"" at the end of the pipe and when nothing is there
      if chunk == [] {
        var dead := Poll(pid);
        if dead {
          return ProducerGone, rest;
        }
      }
      EmitChunk(chunk);
      var failed;
      rest, failed, hit := Drain(buf + chunk);
      if hit {
        return Broken, rest;
      }
      if failed {
        return WriteError, rest;
      }
      read := Drained(|buf + chunk| >= FRAME_SIZE);
    }

    ghost method EmitChunk(chunk: seq<Byte>)
      requires Valid() && m.life == Serving && m.stage == Readable && |m.left| < FRAME_SIZE
      modifies this`trace, this`m
      ensures Valid() && m == old(m).(stage := HasRead, left := old(m).left + chunk)
    {
      hide Accepts, Run;
      Emit(Chunk(chunk));
    }

    // Take note of the newest client count; end the session exactly when the
    // latest report is of no client, longer ago than the grace period.
    method WatchClients(gone: Option<real>) returns (goneSince: Option<real>, over: bool, hit: bool)
      requires Valid() && m.life == Serving && AllForwarded(m) && Tells(gone)
      modifies this`signals, this`now, this`trace, this`m
      ensures Valid() && now >= old(now)
      ensures m == old(m).(report := m.report, life := if hit then Hit else Serving, stage := m.stage)
      ensures !hit ==> m.stage == if over then SessionOver(false) else Fresh
      ensures !hit ==> (over <==> GraceOver(m, now, limits))
      ensures Tells(goneSince)
    {
      hide Accepts, Run, Allowed, Next, Valid;
      goneSince, over := gone, false;
      hit := Tick();
      if hit {
        return;
      }
      var q: seq<Event> := *;
      var failAt: Option<nat> := *;
      var count, taken := PollClientCount(q, failAt);
      if count.Some? {
        var at := Clock();
        goneSince := if count.value > 0 then None else Some(at);
        EmitNews(Report(count.value, at));
        hit := Tick();
        if hit {
          return;
        }
      } else {
        EmitNews(NoNews);
      }
      over := EndRound(goneSince);
    }

    // The grace period of clients that are gone.
    method EndRound(goneSince: Option<real>) returns (over: bool)
      requires Valid() && m.life == Serving && m.stage == Told && |m.left| < FRAME_SIZE && Tells(goneSince)
      modifies this`now, this`trace, this`m
      ensures Valid() && now >= old(now) && (over <==> GraceOver(m, now, limits))
      ensures m == old(m).(stage := if over then SessionOver(false) else Fresh)
    {
      hide Accepts, Run, Allowed, Next, Valid;
      if goneSince.Some? {
        var later := Clock();
        if later - goneSince.value > limits.grace {
          EmitLook(ClientsGone(later));
          return true;
        }
      }
      EmitLook(Looked(now));
      over := false;
    }

    // gone_since: the time of the latest report, when that was of no client.
    ghost predicate Tells(goneSince: Option<real>)
      reads this`m
    {
      goneSince == if Deserted(m.report) then Some(m.report.value.1) else None
    }

    ghost method EmitNews(e: Effect)
      requires Valid() && m.life == Serving && AllForwarded(m) && (e.Report? || e.NoNews?)
      modifies this`trace, this`m
      ensures Valid() && m == old(m).(report := if e.Report? then Some((e.count, e.at)) else old(m).report, stage := Told)
    {
      hide Accepts, Run;
      Emit(e);
    }

    ghost method EmitLook(e: Effect)
      requires Valid() && m.life == Serving && m.stage == Told && |m.left| < FRAME_SIZE
      requires (e.Looked? && !GraceOver(m, e.at, limits)) || (e.ClientsGone? && GraceOver(m, e.at, limits))
      modifies this`trace, this`m
      ensures Valid() && m == old(m).(stage := if e.Looked? then Fresh else SessionOver(false))
    {
      hide Accepts, Run;
      Emit(e);
    }

    // spawn_t = time.monotonic()
    method StartWaiting() returns (t: real)
      requires Valid() && m.life == Serving && m.frames == 0 && m.stage == Launched
      modifies this`now, this`trace, this`m
      ensures Valid() && t == now >= old(now)
      ensures m == old(m).(stage := Fresh, waiting := t, splash := 0.0, due := false)
    {
      hide Accepts, Run;
      t := Clock();
      Emit(Waiting(t));
    }

    // The head of one round: give up on a start exactly when the first frame is
    // too late, and feed the waiting client.
    method Watchdog(first: bool, spawnT: real, nextSplash: real) returns (stuck: bool, hit: bool, next: real)
      requires Valid() && m.life == Serving && m.stage == Fresh
      requires m.waiting == spawnT && m.splash == nextSplash && (first <==> m.frames > 0)
      modifies this`signals, this`now, this`trace, this`m
      ensures Valid() && now >= old(now)
      ensures m == old(m).(life := if hit then Hit else Serving, stage := m.stage, splash := m.splash, due := m.due)
      ensures !hit ==> m.splash == next && (stuck <==> TooLate(m, now, limits))
      ensures !hit ==> if stuck then m.stage == Retry else m.stage == InRound && !m.due
      ensures !hit && !stuck ==> next == if !first && now >= nextSplash then now + 1.0 / FPS else nextSplash
    {
      hide Accepts, Run, Allowed, Next, Valid;
      stuck, next := false, nextSplash;
      hit := Tick();
      if hit {
        return;
      }
      var t := Clock();
      stuck := !first && t - spawnT > limits.firstFrame;
      EmitHead(t, stuck);
      if !stuck && !first && t >= nextSplash {
        SplashAllowed(m, t, limits);
        Splash(t);
        next := t + 1.0 / FPS;
      }
    }

    ghost method EmitHead(t: real, stuck: bool)
      requires Valid() && m.life == Serving && m.stage == Fresh && (stuck <==> TooLate(m, t, limits))
      modifies this`trace, this`m
      ensures Valid() && !m.justSpawned
      ensures m == if stuck then old(m).(stage := Retry) else old(m).(stage := InRound, due := m.due)
      ensures !stuck ==> (m.due <==> m.frames == 0 && t >= m.splash)
    {
      hide Accepts, Run;
      Emit(if stuck then Stuck(t) else Round(t));
    }

    // Read what select says is there; Unobserved when the attempt goes on.
    method ReadIfReady(pid: nat, buf: seq<Byte>, first: bool, clients: bool)
      returns (end: RelayEnd, rest: seq<Byte>, delivered: bool)
      requires Valid() && m.alive == {pid} && m.life == Serving && m.left == buf && |buf| < FRAME_SIZE
      requires pid in m.known && m.stage == InRound && !m.due && (first <==> m.frames > 0)
      requires clients == !Deserted(m.report)
      modifies this`signals, this`trace, this`m, this`living, this`now
      ensures SameProducer(pid) && m.report == old(m).report && m.waiting == old(m).waiting && now >= old(now)
      ensures m.splash == old(m).splash && m.life == if end.Signal? then Hit else Serving
      ensures end.NoFrame? ==> m.frames == 0 && m.stage == Retry
      ensures end.Over? ==> m.stage == SessionOver(end.producerExited && end.clientsLeft) && end.clientsLeft == clients
      ensures end.Over? && end.producerExited ==> m.alive == {} && m.frames > 0
      ensures end.Unobserved? ==> AllForwarded(m) && rest == m.left && m.alive == {pid} && (delivered <==> m.frames > 0)
    {
      hide Accepts, Run, Allowed, Next, Valid;
      end, rest, delivered := Unobserved, buf, first;
      var readable := Select();
      if readable {
        var read;
        read, rest := ReadPipe(pid, buf);
        if read == ProducerGone {
          end := if first then RelayEnd.Over(true, clients) else NoFrame;
        } else if read == Broken {
          end := RelayEnd.Signal;
        } else if read == WriteError {
          end := RelayEnd.Over(false, clients);
        } else {
          delivered := read == Drained(true) || first;
        }
      }
    }

    // select.select on the pipe.
    method Select() returns (readable: bool)
      requires Valid() && m.life == Serving && m.stage == InRound && !m.due
      modifies this`trace, this`m
      ensures Valid() && m == old(m).(stage := if readable then Readable else HasRead)
    {
      hide Accepts, Run;
      readable := *;
      Emit(Selected(readable));
    }

    // The event loop of one attempt.
    method Relay(pid: nat) returns (end: RelayEnd)
      requires Valid() && m.alive == {pid} && m.life == Serving && pid in m.known
      requires m.frames == 0 && m.report == None && m.left == [] && m.stage == Launched
      modifies this`signals, this`now, this`trace, this`m, this`living, this`horizon
      ensures horizon <= old(horizon)
      ensures SameProducer(pid) && now >= old(now)
      ensures m.life == if end.Signal? then Hit else Serving
      ensures old(SignalNext()) ==> end.Signal? && m.alive == old(m).alive
      ensures old(SignalNext()) ==> trace == old(trace) + [Interrupted(now)] && signals == old(signals)[1..]
      ensures end.NoFrame? ==> m.frames == 0 && m.stage == Retry
      ensures end.Over? ==> m.stage == SessionOver(end.producerExited && end.clientsLeft)
      ensures end.Over? ==> end.clientsLeft == !Deserted(m.report)
      ensures end.Over? && end.producerExited ==> m.alive == {} && m.frames > 0
    {
      hide Accepts, Run, Left, Frames, Allowed, Next, Valid;
      var buf: seq<Byte>, first, goneSince := [], false, None;
      var hit := Tick();
      if hit {
        return RelayEnd.Signal;
      }
      var spawnT := StartWaiting();
      var nextSplash := 0.0;
      while horizon > 0
        invariant SameProducer(pid) && m.life == Serving && now >= old(now) && m.alive == {pid} && m.stage == Fresh
        invariant buf == m.left && |buf| < FRAME_SIZE && (first <==> m.frames > 0)
        invariant m.waiting == spawnT && m.splash == nextSplash
        invariant horizon <= old(horizon) && Tells(goneSince)
        decreases horizon
      {
        horizon := horizon - 1;
        var stuck;
        stuck, hit, nextSplash := Watchdog(first, spawnT, nextSplash);
        if hit {
          return RelayEnd.Signal;
        }
        if stuck {
          return NoFrame;
        }
        end, buf, first := ReadIfReady(pid, buf, first, goneSince.None?);
        if !end.Unobserved? {
          return;
        }
        var over;
        goneSince, over, hit := WatchClients(goneSince);
        if hit {
          return RelayEnd.Signal;
        }
        if over {
          return RelayEnd.Over(false, false);
        }
      }
      end := Unobserved;
    }

    // The states run_session and main's finally block may find.
    ghost predicate Sound()
      reads this`trace, this`m, this`living, this`nextPid, this`current, this`now
    {
      && Valid()
      && (forall pid :: pid in m.alive ==> pid == nextPid - 1)
      && (forall pid :: pid in m.alive && pid in m.known ==> current == Some(pid))
      && (current.Some? ==> current.value in m.known)
      && (forall pid :: pid in m.firstSigint ==> m.firstSigint[pid] <= now && pid in m.known)
    }

    // No producer is alive.
    ghost predicate Quiet()
      reads this`trace, this`m, this`living, this`nextPid, this`current, this`now
    {
      Sound() && m.life == Serving && m.alive == {}
    }

    ghost predicate Phase(end: SessionEnd)
      reads this`trace, this`m, this`living, this`nextPid, this`current, this`now
    {
      && Sound()
      && match end
         case Again => Quiet() && m.stage == SessionOver(true)
         case Idle => Quiet() && ClientDone(m)
         case SysExit =>
           && m.life == Serving && (m.stage.Retry? || m.stage.SessionOver?)
           && current.Some? && m.alive == {current.value} && BudgetSpent(m, current.value, now)
         case KeyboardInterrupt => m.life == Hit
         case NotFollowed => m.life == Serving
    }

    // What stays put over a session, or a part of one.
    twostate predicate SameEpisode()
      reads this`m, this`now
    {
      m.restarts == old(m).restarts && m.episodes == old(m).episodes && now >= old(now)
    }

    // subprocess.Popen, then CURRENT_PROC[0] = proc: a signal may hit between
    // the two.
    method Spawn() returns (pid: nat, hit: bool)
      requires Quiet() && m.attempts < MAX_ATTEMPTS && m.frames == 0 && SpawnDue(m, limits)
      modifies this`signals, this`trace, this`m, this`living, this`nextPid, this`current, this`now
      ensures now >= old(now) && (hit ==> Phase(KeyboardInterrupt))
      ensures !hit ==> Phase(NotFollowed) && current == Some(pid) && m.alive == {pid} && pid in m.known
      ensures !hit ==> pid !in m.firstSigint && m.frames == 0 && m.report == None && m.left == [] && m.stage == Launched
      ensures m.attempts == old(m).attempts + 1 && SameEpisode()
      ensures pid == old(nextPid) && hit == old(SignalNext())
      ensures signals == if old(signals) == [] then [] else old(signals)[1..]
      ensures trace == old(trace) + if hit then [Spawned(pid), Interrupted(now)] else [Spawned(pid), Recorded(pid)]
      ensures hit ==> m.alive == {pid} && current == old(current) && living == {pid}
    {
      hide Accepts, Run, Allowed, Next, Valid, Phase, JustSpawned;
      pid := Launch();
      hit := HitInWindow(pid);
      if !hit {
        Record(pid);
      }
      assert trace == old(trace) + if hit then [Spawned(pid), Interrupted(now)] else [Spawned(pid), Recorded(pid)];
    }

    // Between Popen and the assignment.
    ghost predicate JustSpawned(pid: nat)
      reads this`trace, this`m, this`living, this`nextPid, this`current, this`now
    {
      && Accepts(trace, limits) && m == Run(trace) && m.justSpawned && m.life == Serving
      && m.alive == living == {pid} && nextPid == pid + 1 && (forall q :: q in m.known ==> q < pid)
      && (current.Some? ==> current.value in m.known)
      && (forall q :: q in m.firstSigint ==> m.firstSigint[q] <= now && q in m.known)
    }

    method Launch() returns (pid: nat)
      requires Quiet() && m.attempts < MAX_ATTEMPTS && m.frames == 0 && SpawnDue(m, limits)
      modifies this`trace, this`m, this`living, this`nextPid
      ensures JustSpawned(pid) && pid == old(nextPid) && pid !in m.firstSigint && trace == old(trace) + [Spawned(pid)]
      ensures m == old(m).(alive := {pid}, attempts := old(m).attempts + 1, report := None, left := [], justSpawned := true)
    {
      hide Accepts, Run, Allowed, Next;
      pid := nextPid;
      EmitSpawned();
      nextPid := nextPid + 1;
      living := living + {pid};
    }

    method HitInWindow(pid: nat) returns (hit: bool)
      requires JustSpawned(pid)
      modifies this`signals, this`trace, this`m, this`now
      ensures now >= old(now) && hit == old(SignalNext())
      ensures signals == if old(signals) == [] then [] else old(signals)[1..]
      ensures if hit then Phase(KeyboardInterrupt) && trace == old(trace) + [Interrupted(now)]
              else JustSpawned(pid) && trace == old(trace)
      ensures m == if hit then old(m).(life := Hit, justSpawned := false) else old(m)
      ensures living == {pid}
    {
      hide Accepts, Run, Allowed, Next, Phase, Valid, Sound;
      HitInTheWindow(m, limits);
      hit := SignalHere();
      if hit {
        HitUnrecorded(pid);
      }
    }

    lemma HitUnrecorded(pid: nat)
      requires Accepts(trace, limits) && m == Run(trace) && !m.justSpawned && m.life == Hit
      requires m.alive == living == {pid} && nextPid == pid + 1 && (forall q :: q in m.known ==> q < pid)
      requires current.Some? ==> current.value in m.known
      requires forall q :: q in m.firstSigint ==> m.firstSigint[q] <= now && q in m.known
      ensures Phase(KeyboardInterrupt)
    {
      hide Accepts, Run;
    }

    method Record(pid: nat)
      requires JustSpawned(pid)
      modifies this`trace, this`m, this`current
      ensures Phase(NotFollowed) && current == Some(pid) && trace == old(trace) + [Recorded(pid)]
      ensures m == old(m).(known := old(m).known + {pid}, justSpawned := false, stage := Launched)
    {
      hide Accepts, Run, Allowed, Next;
      current := Some(pid);
      EmitRecorded(pid);
    }

    ghost method EmitSpawned()
      requires Quiet() && m.attempts < MAX_ATTEMPTS && m.frames == 0 && SpawnDue(m, limits)
      modifies this`trace, this`m
      ensures Accepts(trace, limits) && m == Run(trace) && trace == old(trace) + [Spawned(nextPid)]
      ensures m == old(m).(alive := {nextPid}, attempts := old(m).attempts + 1, report := None, left := [], justSpawned := true)
    {
      hide Accepts, Run;
      Emit(Spawned(nextPid));
      assert old(m).alive + {nextPid} == {nextPid};
    }

    ghost method EmitRecorded(pid: nat)
      requires Accepts(trace, limits) && m == Run(trace) && m.justSpawned && m.life == Serving && pid in m.alive
      modifies this`trace, this`m
      ensures Accepts(trace, limits) && m == Run(trace) && trace == old(trace) + [Recorded(pid)]
      ensures m == old(m).(known := old(m).known + {pid}, justSpawned := false, stage := Launched)
    {
      hide Accepts, Run;
      Emit(Recorded(pid));
    }

    // stop_gst on the recorded producer, as run_session calls it.
    method Stop(pid: nat) returns (gone: bool, hit: bool)
      requires Phase(NotFollowed) && current == Some(pid) && m.alive <= {pid} && pid in m.known && Stopping()
      modifies this`signals, this`trace, this`m, this`living, this`now
      ensures m.frames == old(m).frames && m.attempts == old(m).attempts && SameEpisode()
      ensures hit ==> Phase(KeyboardInterrupt)
      ensures !hit && gone ==> Quiet() && m.stage == old(m).stage
      ensures !hit && !gone ==> Phase(SysExit)
    {
      hide Accepts, Run, Allowed, Next, Valid;
      gone := false;
      hit := Tick();
      if !hit {
        gone, hit := StopGst(pid, false);
        if !hit && !gone {
          hit := Tick();
        }
      }
    }

    // recycle_sensor of the psys bridge; the rear bridge only waits.
    method BetweenAttempts() returns (hit: bool)
      requires Quiet() && m.frames == 0 && m.stage == Retry && m.attempts < MAX_ATTEMPTS
      modifies this`signals, this`trace, this`m, this`now
      ensures m.frames == 0 && m.attempts == old(m).attempts && SameEpisode()
      ensures if hit then Phase(KeyboardInterrupt) else Quiet() && SpawnDue(m, limits) && now >= old(now) + 1.0
    {
      hide Accepts, Run, Allowed, Next, Valid;
      hit := Tick();
      if hit {
        return;
      }
      if limits.reloads {
        EmitReloaded();
      }
      Sleep(1.0);
      hit := Tick();
    }

    ghost method EmitReloaded()
      requires Quiet() && m.frames == 0 && m.stage == Retry && m.attempts < MAX_ATTEMPTS && limits.reloads
      modifies this`trace, this`m
      ensures Quiet() && m == old(m).(stage := Attempting)
    {
      hide Accepts, Run;
      Emit(Reloaded);
    }

    // Relay from the recorded producer.
    method RelayProducer(pid: nat) returns (end: RelayEnd)
      requires Phase(NotFollowed) && current == Some(pid) && m.alive == {pid} && pid in m.known && pid !in m.firstSigint
      requires m.frames == 0 && m.report == None && m.left == [] && m.stage == Launched
      modifies this`signals, this`now, this`trace, this`m, this`living, this`horizon
      ensures horizon <= old(horizon)
      ensures Phase(if end.Signal? then KeyboardInterrupt else NotFollowed) && m.alive <= {pid} && pid in m.known
      ensures m.attempts == old(m).attempts && SameEpisode()
      ensures end.NoFrame? ==> m.frames == 0 && m.stage == Retry
      ensures end.Over? ==> m.stage == SessionOver(end.producerExited && end.clientsLeft)
      ensures end.NoFrame? || end.Over? ==> Stopping()
    {
      hide Accepts, Run, Allowed, Next, Valid;
      end := Relay(pid);
    }

    // run_session
    method RunSession() returns (end: SessionEnd)
      requires Quiet() && m.stage == Ready
      modifies this`signals, this`trace, this`m, this`living, this`nextPid, this`current, this`now, this`horizon, this`others
      ensures horizon <= old(horizon)
      ensures Phase(end) && SameEpisode()
      ensures end == Again ==> now >= old(now) + 1.0
      ensures end == Idle && m.stage == Retry ==> now >= old(now) + 4.0
    {
      hide Accepts, Run, Valid, Allowed, Next, Sound, Phase, Quiet, Stopping;
      var found := Scan();
      if found {
        end := WaitForOthers();
        return;
      }
      var early := StartSession();
      if early {
        return KeyboardInterrupt;
      }
      var attempt := 1;
      while attempt <= MAX_ATTEMPTS
        invariant 1 <= attempt <= MAX_ATTEMPTS + 1
        invariant horizon <= old(horizon)
        invariant Quiet() && m.attempts == attempt - 1 && m.frames == 0 && SameEpisode()
        invariant if attempt <= MAX_ATTEMPTS then SpawnDue(m, limits) else m.stage == Retry
        invariant now >= old(now) + (if attempt <= MAX_ATTEMPTS then attempt - 1 else 2) as real
      {
        var pid, hit := Spawn();
        if hit {
          return KeyboardInterrupt;
        }
        var relayed := RelayProducer(pid);
        if relayed.Signal? {
          return KeyboardInterrupt;
        }
        if relayed.Unobserved? {
          return NotFollowed;
        }
        var gone;
        gone, hit := Stop(pid);
        if hit {
          return KeyboardInterrupt;
        }
        if !gone {
          return SysExit;
        }
        if relayed.Over? {
          var again := relayed.producerExited && relayed.clientsLeft;
          end := AfterSession(again, if again then 1.0 else 0.0);
          return;
        }
        if attempt < MAX_ATTEMPTS {
          hit := BetweenAttempts();
          if hit {
            return KeyboardInterrupt;
          }
        }
        attempt := attempt + 1;
      }
      end := AfterSession(false, 2.0);
    }

    // Whether somebody else's producer is running.
    method Scan() returns (found: bool)
      requires Quiet() && m.stage == Ready
      modifies this`trace, this`m, this`others
      ensures Quiet() && m == old(m).(stage := if found then Blocked else Clear)
      ensures found == old(others != [] && others[0])
      ensures trace == old(trace) + [Scanned(found)]
    {
      hide Accepts, Run;
      found := others != [] && others[0];
      if others != [] {
        others := others[1..];
      }
      Emit(Scanned(found));
    }

    method StartSession() returns (hit: bool)
      requires Quiet() && m.stage == Clear
      modifies this`signals, this`trace, this`m, this`now
      ensures now >= old(now)
      ensures if hit then Phase(KeyboardInterrupt) else Quiet() && m.stage == Attempting
      ensures m.attempts == 0 && m.frames == 0
      ensures SameEpisode() && hit == old(SignalNext())
      ensures signals == if old(signals) == [] then [] else old(signals)[1..]
      ensures trace == old(trace) + if hit then [SessionStart, Interrupted(now)] else [SessionStart]
    {
      hide Accepts, Run;
      Emit(SessionStart);
      hit := Tick();
    }

    // Another producer is running: wait, and retry while a client is waiting.
    method WaitForOthers() returns (end: SessionEnd)
      requires Quiet() && m.stage == Blocked
      modifies this`signals, this`trace, this`m, this`now
      ensures Phase(end) && SameEpisode() && now >= old(now) + 5.0
      ensures end in {KeyboardInterrupt, Again, Idle} && !m.stage.Retry?
    {
      hide Accepts, Run, Allowed, Next, Valid;
      Sleep(5.0);
      var hit := Tick();
      if hit {
        return KeyboardInterrupt;
      }
      var q: seq<Event> := *;
      var failAt: Option<nat> := *;
      var count, taken := PollClientCount(q, failAt);
      var waiting := count.None? || count.value > 0;
      EmitRefused(count);
      end := if waiting then Again else Idle;
    }

    ghost method EmitRefused(count: Option<nat>)
      requires Quiet() && m.stage == Blocked
      modifies this`trace, this`m
      ensures Quiet() && m == old(m).(stage := SessionOver(count != Some(0)))
    {
      hide Accepts, Run;
      Emit(Refused(count));
    }

    // The pause before main takes over again.
    method AfterSession(again: bool, pause: real) returns (end: SessionEnd)
      requires Quiet() && pause >= 0.0
      requires if again then m.stage == SessionOver(true) else ClientDone(m)
      modifies this`signals, this`trace, this`m, this`now
      ensures Phase(end) && SameEpisode()
      ensures end in {KeyboardInterrupt, if again then Again else Idle} && m.stage == old(m).stage
      ensures now >= old(now) + pause
    {
      hide Accepts, Run, Allowed, Next;
      Sleep(pause);
      var hit := Tick();
      end := if hit then KeyboardInterrupt else if again then Again else Idle;
    }

    // The serve loop of main.
    method Serve() returns (end: SessionEnd)
      requires Phase(Idle)
      modifies this`signals, this`trace, this`m, this`living, this`nextPid, this`current, this`now, this`horizon, this`others
      ensures horizon <= old(horizon)
      ensures Phase(end) && end != Again && end != Idle
    {
      hide Accepts, Run, Allowed, Next, Valid;
      while horizon > 0
        invariant Phase(Idle) && horizon <= old(horizon)
        decreases horizon
      {
        horizon := horizon - 1;
        var hit := Tick();
        if hit {
          return KeyboardInterrupt;
        }
        var q: seq<Event> := *;
        var failAt: Option<nat> := *;
        var count, taken := PollClientCount(q, failAt);
        end := Wake(count);
        if end != Idle {
          return;
        }
      }
      end := NotFollowed;
    }

    // A client is served exactly when one is reported.
    method Wake(count: Option<nat>) returns (end: SessionEnd)
      requires Phase(Idle)
      modifies this`signals, this`trace, this`m, this`living, this`nextPid, this`current, this`now, this`horizon, this`others
      ensures horizon <= old(horizon)
      ensures Phase(end) && end != Again
      ensures m.episodes == old(m).episodes + if count.Some? && count.value > 0 then 1 else 0
      ensures m.episodes == old(m).episodes ==> end == Idle && trace == old(trace)
    {
      hide Accepts, Run, Allowed, Next, Valid;
      end := Idle;
      if count.Some? && count.value > 0 {
        end := Episode();
      }
    }

    method StartEpisode()
      requires Phase(Idle)
      modifies this`trace, this`m
      ensures Quiet() && m.stage == Ready && m.restarts == [] && m.episodes == old(m).episodes + 1
      ensures trace == old(trace) + [EpisodeStart]
    {
      hide Accepts, Run;
      Emit(EpisodeStart);
    }

    // The list main keeps is that of this episode's restarts, pruned as it goes.
    ghost predicate Limited(restarts: seq<real>)
      reads this`m, this`now
    {
      && RestartLimiter.Ascending(m.restarts) && Later(m.restarts, now)
      && (limits.restarts ==> restarts == RestartLimiter.List(m.restarts) && RestartLimiter.AllAllowed(m.restarts))
    }

    // Another session for the same client, unless the rear bridge has restarted
    // too often: then it goes idle.
    method Restart(restarts: seq<real>) returns (kept: seq<real>, allowed: bool)
      requires Phase(Again) && Limited(restarts)
      modifies this`now, this`trace, this`m
      ensures if allowed then Quiet() && m.stage == Ready && Limited(kept) else Phase(Idle) && now >= old(now) + 10.0
      ensures allowed ==> |m.restarts| == |old(m).restarts| + 1
      ensures m.episodes == old(m).episodes
    {
      hide Accepts, Run, Allowed, Next, Valid, RestartLimiter.List, RestartLimiter.AllAllowed, RestartLimiter.Ascending;
      kept, allowed := restarts, true;
      var t := Clock();
      RestartLimiter.OneMoreRestart(m.restarts, t);
      if limits.restarts {
        kept, allowed := RestartLimiter.Note(restarts, t);
        if !allowed {
          EmitAgain(GaveUp(t));
          Sleep(10.0);
          return;
        }
      }
      EmitAgain(Restarted(t));
    }

    ghost method EmitAgain(e: Effect)
      requires Phase(Again) && (e.Restarted? || e.GaveUp?) && Later(m.restarts, e.at)
      requires limits.restarts ==> (e.Restarted? <==> Rested(m.restarts, e.at))
      requires e.GaveUp? ==> limits.restarts
      modifies this`trace, this`m
      ensures if e.Restarted? then Quiet() && m.stage == Ready && m.restarts == old(m).restarts + [e.at]
              else Phase(Idle) && m.restarts == old(m).restarts
      ensures m.episodes == old(m).episodes
    {
      hide Accepts, Run;
      Emit(e);
    }

    // Sessions of one client, one after the other.
    method Episode() returns (end: SessionEnd)
      requires Phase(Idle)
      modifies this`signals, this`trace, this`m, this`living, this`nextPid, this`current, this`now, this`horizon, this`others
      ensures horizon <= old(horizon)
      ensures Phase(end) && end != Again && m.episodes == old(m).episodes + 1
    {
      hide Accepts, Run, Allowed, Next, Valid;
      var restarts := [];
      StartEpisode();
      end := RunSession();
      while end == Again && horizon > 0
        invariant Phase(end) && horizon <= old(horizon) && Limited(restarts) && m.episodes == old(m).episodes + 1
        decreases horizon
      {
        horizon := horizon - 1;
        var allowed;
        restarts, allowed := Restart(restarts);
        if !allowed {
          return Idle;
        }
        end := RunSession();
      }
      if end == Again {
        end := NotFollowed;
      }
    }

    // What main does when its loop is left. A further signal in the except clause
    // changes nothing; one in the finally block, before it masks signals, cuts it
    // off. Otherwise the producer main knows of is stopped.
    method Teardown(end: SessionEnd) returns (left: real)
      requires Phase(end) && (end == SysExit || end == KeyboardInterrupt)
      modifies this`signals, this`trace, this`m, this`living, this`now
      ensures Accepts(trace, limits) && m == Run(trace) && m.life == Gone
      ensures end == KeyboardInterrupt && old(current).None? && old(signals) == [] ==>
                m.alive == old(m).alive && trace == old(trace) + [Leaving(left), Masked, Exited(now)]
      ensures end == KeyboardInterrupt && old(signals) == [false, true] ==>
                m.alive == old(m).alive && trace == old(trace) + [Leaving(left), Interrupted(now), Exited(now)]
    {
      hide Accepts, Run, Allowed, Next, BudgetSpent;
      if end == KeyboardInterrupt {
        Except();
      }
      left := EnterFinally(end);
      var cut := Mask();
      if !cut {
        StopRecorded();
      }
      EmitExited();
    }

    // The except clause.
    method Except()
      requires Phase(KeyboardInterrupt)
      modifies this`signals, this`trace, this`m, this`now
      ensures Valid() && now >= old(now) && m == old(m).(life := if old(SignalNext()) then HitAgain else Hit)
      ensures trace == if old(SignalNext()) then old(trace) + [Interrupted(now)] else old(trace)
      ensures signals == if old(signals) == [] then [] else old(signals)[1..]
    {
      hide Accepts, Run;
      var hit := SignalHere();
    }

    method EnterFinally(end: SessionEnd) returns (t: real)
      requires Valid() && m.life == Serving ==> Phase(end) && end == SysExit
      requires Valid() && m.life in {Serving, Hit, HitAgain}
      modifies this`trace, this`m, this`now
      ensures Valid() && m == old(m).(life := Finally) && t == now >= old(now) && trace == old(trace) + [Leaving(t)]
    {
      hide Accepts, Run;
      t := Clock();
      Emit(Leaving(t));
    }

    // Signals are ignored from here on, unless one arrives just before.
    method Mask() returns (cut: bool)
      requires Valid() && m.life == Finally
      modifies this`signals, this`trace, this`m, this`now
      ensures Accepts(trace, limits) && m == Run(trace) && now >= old(now) && (!cut ==> now == old(now))
      ensures cut == old(SignalNext())
      ensures trace == if cut then old(trace) + [Interrupted(now)] else old(trace) + [Masked]
      ensures m == if cut then old(m).(life := CutOff) else old(m).(life := SignalsMasked, firstSigint := map[])
      ensures !cut ==> Valid()
    {
      hide Accepts, Run, Allowed, Next;
      FinallySteps(m, limits);
      cut := SignalHere();
      if !cut {
        EmitMasked();
      }
    }

    ghost method EmitMasked()
      requires Valid() && m.life == Finally
      modifies this`trace, this`m
      ensures Valid() && m == old(m).(life := SignalsMasked, firstSigint := map[]) && trace == old(trace) + [Masked]
    {
      hide Accepts, Run;
      Emit(Masked);
    }

    ghost method EmitExited()
      requires Accepts(trace, limits) && m == Run(trace) && !m.justSpawned
      requires
        || m.life == CutOff
        || (m.life == SignalsMasked && forall pid :: pid in m.alive && pid in m.known ==> BudgetSpent(m, pid, now))
      modifies this`trace, this`m
      ensures Accepts(trace, limits) && m == Run(trace) == old(m).(life := Gone) && trace == old(trace) + [Exited(now)]
    {
      hide Accepts, Run;
      Emit(Exited(now));
    }

    // With signals masked, stop the producer main knows of.
    method StopRecorded()
      requires Valid() && m.life == SignalsMasked && m.firstSigint == map[]
      requires forall pid :: pid in m.alive && pid in m.known ==> current == Some(pid)
      requires forall pid, q :: pid in m.alive && q in m.alive ==> pid == q
      requires current.Some? ==> current.value in m.known
      modifies this`signals, this`trace, this`m, this`living, this`now
      ensures Valid() && m == old(m).(alive := m.alive, firstSigint := m.firstSigint, pace := m.pace)
      ensures forall pid :: pid in m.alive && pid in m.known ==> BudgetSpent(m, pid, now)
      ensures current.None? ==> trace == old(trace) && m == old(m) && now == old(now)
    {
      hide Accepts, Run, Allowed, Next;
      if current.Some? && current.value in living {
        var dead := Poll(current.value);
        if !dead {
          var gone, hit := StopGst(current.value, true);
        }
      }
    }

    // The black frame that makes the loopback a capture device.
    method FirstSplash()
      requires Quiet() && m.stage == Starting && m.frames == 0 && m.attempts == 0
      modifies this`trace, this`m
      ensures Phase(Idle) && m == old(m).(stage := AtRest, splash := m.splash, due := false)
      ensures trace == old(trace) + [Black(now, true)]
    {
      hide Accepts, Run;
      Emit(Black(now, true));
    }

    // The whole daemon: what it does is accepted, from its start to its exit.
    method Daemon() returns (exited: bool)
      requires Quiet() && m.stage == Starting && m.frames == 0 && m.attempts == 0
      modifies this`signals, this`trace, this`m, this`living, this`nextPid, this`current, this`now, this`horizon, this`others
      ensures Accepts(trace, limits) && m == Run(trace)
      ensures exited == (m.life == Gone)
    {
      hide Accepts, Run, Allowed, Next, BudgetSpent;
      FirstSplash();
      var end := Serve();
      exited := end != NotFollowed;
      if exited {
        var left := Teardown(end);
      }
    }

    // A run whose signal falls between Popen and the record of it: the
    // producer is left running without a single SIGINT.
    method HitBeforeTheRecord() returns (hitAt: real, left: real)
      requires Quiet() && trace == [] && m == START && current == None && nextPid == 0
      requires signals == [false, true] && others == []
      modifies this`signals, this`trace, this`m, this`living, this`nextPid, this`current, this`now, this`others
      ensures Accepts(trace, limits) && m == Run(trace) && m.alive == {0}
      ensures trace == [Black(old(now), true), EpisodeStart, Scanned(false), SessionStart, Spawned(0), Interrupted(hitAt), Leaving(left), Masked, Exited(now)]
    {
      hide Accepts, Run, Allowed, Next, Valid, Phase;
      HitLaunching();
      hitAt := now;
      left := Teardown(KeyboardInterrupt);
    }

    method HitLaunching()
      requires Quiet() && trace == [] && m == START && current == None && nextPid == 0
      requires signals == [false, true] && others == []
      modifies this`signals, this`trace, this`m, this`living, this`nextPid, this`current, this`now, this`others
      ensures Phase(KeyboardInterrupt) && m.alive == {0} && current == None && signals == []
      ensures trace == [Black(old(now), true), EpisodeStart, Scanned(false), SessionStart, Spawned(0), Interrupted(now)]
    {
      hide Accepts, Run, Allowed, Next, Valid, Phase, Quiet;
      FirstSplash();
      StartEpisode();
      var found := Scan();
      var hit := StartSession();
      var pid;
      pid, hit := Spawn();
    }

    // A run with a signal while the first frame is waited for, and another just
    // before main masks them.
    method HitBeforeTheMask() returns (hitAt: real, left: real)
      requires Quiet() && trace == [] && m == START && current == None && nextPid == 0
      requires signals == [false, false, true, false, true] && others == []
      modifies this`signals, this`trace, this`m, this`living, this`nextPid, this`current, this`now, this`horizon, this`others
      ensures Accepts(trace, limits) && m == Run(trace) && m.alive == {0}
      ensures trace == [Black(old(now), true), EpisodeStart, Scanned(false), SessionStart, Spawned(0), Recorded(0), Interrupted(hitAt),
                        Leaving(left), Interrupted(now), Exited(now)]
    {
      hide Accepts, Run, Allowed, Next, Valid, Phase;
      HitWaiting();
      hitAt := now;
      left := Teardown(KeyboardInterrupt);
    }

    method HitWaiting()
      requires Quiet() && trace == [] && m == START && current == None && nextPid == 0
      requires signals == [false, false, true, false, true] && others == []
      modifies this`signals, this`trace, this`m, this`living, this`nextPid, this`current, this`now, this`horizon, this`others
      ensures Phase(KeyboardInterrupt) && m.alive == {0} && signals == [false, true]
      ensures trace == [Black(old(now), true), EpisodeStart, Scanned(false), SessionStart, Spawned(0), Recorded(0), Interrupted(now)]
    {
      hide Accepts, Run, Allowed, Next, Valid;
      FirstSpawn();
      var end := Relay(0);
    }

    method FirstSpawn()
      requires Quiet() && trace == [] && m == START && current == None && nextPid == 0
      requires signals == [false, false, true, false, true] && others == []
      modifies this`signals, this`trace, this`m, this`living, this`nextPid, this`current, this`now, this`others
      ensures Phase(NotFollowed) && current == Some(0) && m.alive == {0} && 0 in m.known && 0 !in m.firstSigint
      ensures m.frames == 0 && m.report == None && m.left == [] && m.stage == Launched && signals == [true, false, true]
      ensures trace == [Black(old(now), true), EpisodeStart, Scanned(false), SessionStart, Spawned(0), Recorded(0)]
    {
      hide Accepts, Run, Allowed, Next, Valid, Phase;
      FirstSplash();
      StartEpisode();
      var found := Scan();
      var hit := StartSession();
      var pid;
      pid, hit := Spawn();
    }
  }
}
