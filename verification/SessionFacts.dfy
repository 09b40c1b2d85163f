// What every run the monitor accepts has in common; SessionBridge proves that
// the daemons only ever have such runs.
module SessionFacts {
  import opened Wrappers
  import opened Bytes
  import opened Reframing
  import opened SessionMonitor
  import RestartLimiter

  // Every prefix of an accepted run is accepted, and its next effect allowed.
  lemma {:induction false} AcceptsAt(tr: seq<Effect>, limits: Limits, i: nat)
    requires Accepts(tr, limits) && i < |tr|
    ensures Accepts(tr[..i], limits) && Allowed(Run(tr[..i]), tr[i], limits)
    ensures Run(tr[..i + 1]) == Next(Run(tr[..i]), tr[i])
  {
    hide Allowed, Next;
    if i < |tr| - 1 {
      AcceptsAt(tr[..|tr| - 1], limits, i);
      assert tr[..|tr| - 1][..i] == tr[..i] && tr[..|tr| - 1][..i + 1] == tr[..i + 1];
    } else {
      assert tr[..i + 1] == tr;
    }
  }

  ghost predicate AtMostOne(s: set<nat>) {
    |s| <= 1 && forall p, q :: p in s && q in s ==> p == q
  }

  // At most one producer is alive at any time.
  lemma {:induction false} AtMostOneProducer(tr: seq<Effect>, limits: Limits)
    requires Accepts(tr, limits)
    ensures |Run(tr).alive| <= 1
    ensures forall p, q :: p in Run(tr).alive && q in Run(tr).alive ==> p == q
  {
    hide Allowed, Next;
    if tr != [] {
      var n := |tr| - 1;
      AtMostOneProducer(tr[..n], limits);
      AtMostOneStep(Run(tr[..n]), tr[n], limits);
    }
  }

  lemma AtMostOneStep(m: Monitor, e: Effect, limits: Limits)
    requires Allowed(m, e, limits) && AtMostOne(m.alive)
    ensures AtMostOne(Next(m, e).alive)
  {
    hide Allowed, Next;
    AliveStep(m, e, limits);
    if e.Spawned? {
      assert m.alive + {e.pid} == {e.pid};
    } else if e.Died? {
      Single(m.alive, e.pid);
      assert m.alive - {e.pid} == {};
    }
  }

  lemma AliveStep(m: Monitor, e: Effect, limits: Limits)
    requires Allowed(m, e, limits)
    ensures Next(m, e).alive ==
            match e case Spawned(pid) => m.alive + {pid} case Died(pid) => m.alive - {pid} case _ => m.alive
    ensures e.Spawned? ==> m.alive == {}
    ensures e.Died? ==> e.pid in m.alive
  {
    AliveRule(m, e, limits);
    hide Allowed;
  }

  lemma AliveRule(m: Monitor, e: Effect, limits: Limits)
    requires Allowed(m, e, limits)
    ensures e.Spawned? ==> m.alive == {} && m.frames == 0
    ensures e.Died? ==> e.pid in m.alive
  {
  }

  // Where an effect leads to, and where it comes from.
  lemma StageStep(m: Monitor, e: Effect)
    ensures Next(m, e).justSpawned == e.Spawned?
    ensures Next(m, e).stage ==
            match e
            case EpisodeStart => Ready
            case Scanned(others) => if others then Blocked else Clear
            case SessionStart => Attempting
            case Refused(clients) => SessionOver(clients != Some(0))
            case Restarted(_) => Ready
            case GaveUp(_) => AtRest
            case Recorded(_) => Launched
            case Died(_) => AfterDeath(m.(justSpawned := false))
            case Reloaded => Attempting
            case Waiting(_) => Fresh
            case Round(_) => InRound
            case Stuck(_) => Retry
            case Black(_, _) => if m.stage == Starting then AtRest else m.stage
            case Selected(readable) => if readable then Readable else HasRead
            case Chunk(_) => HasRead
            case WriteFailed => SessionOver(false)
            case Report(_, _) => Told
            case NoNews => Told
            case Looked(_) => Fresh
            case ClientsGone(_) => SessionOver(false)
            case _ => m.stage
  {
  }

  lemma StageRule(m: Monitor, e: Effect, limits: Limits)
    requires Allowed(m, e, limits)
    ensures e.Recorded? ==> m.justSpawned
    ensures e.Waiting? ==> m.stage == Launched
    ensures e.Round? ==> m.stage == Fresh
    ensures e.Selected? ==> m.stage == InRound
    ensures e.Chunk? ==> m.stage == Readable
    ensures e.SessionStart? ==> m.stage == Clear
    ensures e.Scanned? ==> m.stage == Ready
    ensures e.Report? || e.NoNews? ==> m.stage == HasRead
  {
  }

  lemma Single(s: set<nat>, p: nat)
    requires p in s && forall q, r :: q in s && r in s ==> q == r
    ensures s == {p}
  {
  }

  // Only SIGINT is ever sent, and only to a live producer; the driver is only
  // reloaded with no producer alive.
  lemma SignalsAndReloads(tr: seq<Effect>, limits: Limits, i: nat)
    requires Accepts(tr, limits) && i < |tr|
    ensures tr[i].Signalled? ==> tr[i].sig == SIGINT && tr[i].pid in Run(tr[..i]).alive
    ensures tr[i].Reloaded? ==> Run(tr[..i]).alive == {}
    ensures tr[i].Spawned? ==> Run(tr[..i]).alive == {}
    ensures tr[i].Died? ==> tr[i].pid in Run(tr[..i]).known
  {
    hide Accepts, Run, Next;
    AcceptsAt(tr, limits, i);
  }

  // A producer that was never recorded was hit in the window between Popen and
  // the assignment to CURRENT_PROC.
  lemma {:induction false} UnknownWasHitInTheWindow(tr: seq<Effect>, limits: Limits, pid: nat) returns (i: nat)
    requires Accepts(tr, limits) && pid in Run(tr).alive && pid !in Run(tr).known
    ensures i < |tr| && tr[i] == Spawned(pid) && (i + 1 == |tr| || tr[i + 1].Interrupted?)
    ensures i + 1 == |tr| ==> Run(tr).justSpawned
  {
    hide Allowed, Next;
    var n := |tr| - 1;
    UnknownStep(Run(tr[..n]), tr[n], limits, pid);
    if tr[n] == Spawned(pid) {
      i := n;
    } else {
      i := UnknownWasHitInTheWindow(tr[..n], limits, pid);
      if i + 1 == n {
        JustSpawnedIs(tr[..n], limits, pid);
      }
    }
  }

  lemma UnknownStep(m: Monitor, e: Effect, limits: Limits, pid: nat)
    requires Allowed(m, e, limits)
    ensures var after := Next(m, e);
            && (pid in after.alive && pid !in after.known ==> e == Spawned(pid) || (pid in m.alive && pid !in m.known))
            && (e == Spawned(pid) ==> after.justSpawned)
            && (m.justSpawned && m.alive == {pid} && pid !in after.known && pid in after.alive ==> e.Interrupted?)
  {
  }

  lemma JustSpawnedIs(tr: seq<Effect>, limits: Limits, pid: nat)
    requires Accepts(tr, limits) && tr != [] && tr[|tr| - 1] == Spawned(pid)
    ensures Run(tr).alive == {pid} && Run(tr).justSpawned
  {
  }

  // The first SIGINT a producer got, since signals are masked if they are, is in
  // the trace.
  lemma {:induction false} FirstSigintIsThere(tr: seq<Effect>, limits: Limits, pid: nat) returns (i: nat)
    requires Accepts(tr, limits) && pid in Run(tr).firstSigint
    ensures i < |tr| && tr[i] == Signalled(pid, SIGINT, Run(tr).firstSigint[pid])
    ensures Run(tr).life == SignalsMasked ==> forall k :: i < k < |tr| ==> !tr[k].Interrupted?
  {
    hide Allowed, Next;
    var n := |tr| - 1;
    SigintStep(Run(tr[..n]), tr[n], limits, pid);
    if pid !in Run(tr[..n]).firstSigint {
      i := n;
    } else {
      i := FirstSigintIsThere(tr[..n], limits, pid);
    }
  }

  lemma SigintStep(m: Monitor, e: Effect, limits: Limits, pid: nat)
    requires Allowed(m, e, limits) && pid in Next(m, e).firstSigint
    ensures pid !in m.firstSigint ==> e == Signalled(pid, SIGINT, Next(m, e).firstSigint[pid])
    ensures pid in m.firstSigint ==> m.firstSigint[pid] == Next(m, e).firstSigint[pid]
    ensures pid in m.firstSigint && Next(m, e).life == SignalsMasked ==> m.life == SignalsMasked && !e.Interrupted?
  {
    hide Allowed, Next;
    LifeStep(m, e);
    LifeRule(m, e, limits);
    FirstSigintStep(m, e);
    if e.Signalled? {
      OnlySigint(m, e, limits);
    }
  }

  lemma FirstSigintStep(m: Monitor, e: Effect)
    ensures Next(m, e).firstSigint ==
            match e
            case Signalled(pid, _, at) => if pid in m.firstSigint then m.firstSigint else m.firstSigint[pid := at]
            case Masked => map[]
            case _ => m.firstSigint
  {
  }

  lemma OnlySigint(m: Monitor, e: Effect, limits: Limits)
    requires Allowed(m, e, limits) && e.Signalled?
    ensures e.sig == SIGINT
  {
  }

  // ------------------------------------------------------- leaving one running

  // A SIGINT sent to pid at j, undisturbed by signals up to e, where the daemon is
  // hit, enters the finally block or exits, twenty seconds later or more.
  ghost predicate WaitedFor(tr: seq<Effect>, pid: nat, j: nat, e: nat)
    requires j < e < |tr|
  {
    && tr[j].Signalled? && tr[j].pid == pid && tr[j].sig == SIGINT
    && (forall k :: j < k < e ==> !tr[k].Interrupted?)
    && (tr[e].Interrupted? || tr[e].Leaving? || tr[e].Exited?)
    && tr[e].at >= tr[j].at + 20.0
  }

  // Before it exited at i, the daemon gave pid a SIGINT and twenty seconds.
  ghost predicate HadItsBudget(tr: seq<Effect>, i: nat, pid: nat)
    requires i < |tr|
  {
    exists j: nat, e: nat :: j < e <= i && WaitedFor(tr, pid, j, e)
  }

  // The signal hit between Popen and the assignment to CURRENT_PROC.
  ghost predicate HitUnrecorded(tr: seq<Effect>, i: nat, pid: nat)
    requires i <= |tr|
  {
    exists j: nat :: j + 1 < i && tr[j] == Spawned(pid) && tr[j + 1].Interrupted?
  }

  ghost predicate FirstInterrupt(tr: seq<Effect>, h: nat)
    requires h < |tr|
  {
    tr[h].Interrupted? && forall k :: 0 <= k < h ==> !tr[k].Interrupted?
  }

  // Hit at h with no SIGINT to pid twenty seconds old, and again at l + 1: in the
  // finally block, before it masked signals.
  ghost predicate CutAt(tr: seq<Effect>, i: nat, pid: nat, h: nat, l: nat)
    requires h < l && l + 1 < i <= |tr|
  {
    && FirstInterrupt(tr, h)
    && (forall j :: 0 <= j < h && tr[j].Signalled? && tr[j].pid == pid ==> tr[h].at < tr[j].at + 20.0)
    && tr[l].Leaving? && tr[l + 1].Interrupted?
  }

  ghost predicate CutTooEarly(tr: seq<Effect>, i: nat, pid: nat)
    requires i <= |tr|
  {
    exists h: nat, l: nat :: h < l && l + 1 < i && CutAt(tr, i, pid, h, l)
  }

  // How far the daemon is on its way out: it never goes back.
  function Rank(life: Life): nat {
    match life
    case Serving => 0
    case Hit => 1
    case HitAgain => 2
    case Finally => 3
    case CutOff => 4
    case SignalsMasked => 4
    case Gone => 5
  }

  lemma RankStep(m: Monitor, e: Effect, limits: Limits)
    requires Allowed(m, e, limits)
    ensures var after := Next(m, e).life;
            && Rank(m.life) <= Rank(after)
            && (e.Interrupted? ==> Rank(after) >= 1)
            && (e.Leaving? ==> Rank(m.life) <= 2 && after == Finally)
            && (e.Exited? ==> after == Gone)
            && (e.Signalled? ==> m.life in {Serving, SignalsMasked})
            && (after in {Hit, HitAgain} ==> m.life in {Hit, HitAgain} || (m.life == Serving && e.Interrupted?))
            && (after == Finally ==> e.Leaving?)
            && (after == CutOff ==> e.Interrupted? && m.life == Finally)
            && m.known <= Next(m, e).known
  {
    hide Allowed, Next;
    LifeStep(m, e);
    LifeRule(m, e, limits);
  }

  lemma LifeStep(m: Monitor, e: Effect)
    ensures Next(m, e).life ==
            match e
            case Interrupted(_) => AfterSignal(m.life)
            case Leaving(_) => Finally
            case Masked => SignalsMasked
            case Exited(_) => Gone
            case _ => m.life
    ensures m.known <= Next(m, e).known
  {
  }

  lemma LifeRule(m: Monitor, e: Effect, limits: Limits)
    requires Allowed(m, e, limits)
    ensures e.Interrupted? ==> m.life in {Serving, Hit, Finally}
    ensures e.Leaving? ==> m.life in {Serving, Hit, HitAgain}
    ensures e.Masked? ==> m.life == Finally
    ensures e.Exited? ==> m.life in {CutOff, SignalsMasked}
    ensures m.life == Finally ==> e.Interrupted? || e.Masked?
    ensures m.life == CutOff ==> e.Exited?
    ensures m.life != Gone
    ensures e.Signalled? ==> m.life in {Serving, SignalsMasked}
  {
  }

  lemma {:induction false} RankGrows(tr: seq<Effect>, limits: Limits, i: nat, j: nat)
    requires Accepts(tr, limits) && i <= j <= |tr|
    ensures Rank(Run(tr[..i]).life) <= Rank(Run(tr[..j]).life)
    ensures Run(tr[..i]).known <= Run(tr[..j]).known
  {
    hide Accepts, Run, Allowed, Next, Rank;
    if i < j {
      RankGrows(tr, limits, i, j - 1);
      AcceptsAt(tr, limits, j - 1);
      RankStep(Run(tr[..j - 1]), tr[j - 1], limits);
    }
  }

  // While it serves, no signal has hit the daemon.
  lemma ServingMeansUnhit(tr: seq<Effect>, limits: Limits, k: nat)
    requires Accepts(tr, limits) && k < |tr| && tr[k].Interrupted?
    ensures Run(tr).life != Serving
  {
    hide Accepts, Run, Allowed, Next;
    AcceptsAt(tr, limits, k);
    RankStep(Run(tr[..k]), tr[k], limits);
    RankGrows(tr, limits, k + 1, |tr|);
    assert tr[..|tr|] == tr;
  }

  // Hit, it was hit a first time.
  lemma {:induction false} FirstHit(tr: seq<Effect>, limits: Limits) returns (h: nat)
    requires Accepts(tr, limits) && Run(tr).life in {Hit, HitAgain}
    ensures h < |tr| && FirstInterrupt(tr, h)
  {
    hide Allowed, Next;
    var n := |tr| - 1;
    RankStep(Run(tr[..n]), tr[n], limits);
    if Run(tr[..n]).life == Serving {
      h := n;
      forall k | 0 <= k < n ensures !tr[k].Interrupted? {
        if tr[k].Interrupted? {
          ServingMeansUnhit(tr[..n], limits, k);
        }
      }
    } else {
      h := FirstHit(tr[..n], limits);
    }
  }

  // Once hit before it was recorded, a producer is never recorded, never sent a
  // signal, and never seen dead.
  lemma {:induction false} NeverRecorded(tr: seq<Effect>, limits: Limits, j: nat, k: nat)
    requires Accepts(tr, limits) && j + 1 < k <= |tr| && tr[j].Spawned? && tr[j + 1].Interrupted?
    ensures var m := Run(tr[..k]);
            tr[j].pid !in m.known && tr[j].pid in m.alive && m.life != Serving && !m.justSpawned
    ensures forall i :: 0 <= i < k ==> !(tr[i].Signalled? && tr[i].pid == tr[j].pid)
  {
    hide Accepts, Run, Allowed, Next;
    AcceptsAt(tr, limits, k - 1);
    UnrecordedStep(Run(tr[..k - 1]), tr[k - 1], limits, tr[j].pid);
    if k == j + 2 {
      AcceptsAt(tr, limits, j);
      UnrecordedStep(Run(tr[..j]), tr[j], limits, tr[j].pid);
      forall i | 0 <= i < j ensures !(tr[i].Signalled? && tr[i].pid == tr[j].pid) {
        AcceptsAt(tr, limits, i);
        UnrecordedStep(Run(tr[..i]), tr[i], limits, tr[j].pid);
        RankGrows(tr, limits, i, j);
      }
    } else {
      NeverRecorded(tr, limits, j, k - 1);
    }
  }

  // One effect, seen on a producer that is not recorded.
  lemma UnrecordedStep(m: Monitor, e: Effect, limits: Limits, pid: nat)
    requires Allowed(m, e, limits)
    ensures var after := Next(m, e);
            && (e.Signalled? && e.pid == pid ==> pid in m.known)
            && (e == Spawned(pid) ==> pid !in m.known && pid !in after.known && pid in after.alive && after.justSpawned)
            && (pid !in m.known && pid in m.alive && (e.Interrupted? || (m.life != Serving && !m.justSpawned)) ==>
                  pid !in after.known && pid in after.alive && after.life != Serving && !after.justSpawned)
  {
  }

  // The finally block just entered, or just cut off, is seen in the last effects.
  lemma FinallyIsSeen(tr: seq<Effect>, limits: Limits)
    requires Accepts(tr, limits) && Run(tr).life == Finally
    ensures tr != [] && tr[|tr| - 1].Leaving?
  {
    hide Allowed, Next;
    RankStep(Run(tr[..|tr| - 1]), tr[|tr| - 1], limits);
  }

  lemma CutOffIsSeen(tr: seq<Effect>, limits: Limits)
    requires Accepts(tr, limits) && Run(tr).life == CutOff
    ensures |tr| > 1 && tr[|tr| - 2].Leaving? && tr[|tr| - 1].Interrupted?
  {
    hide Allowed, Next;
    var n := |tr| - 1;
    RankStep(Run(tr[..n]), tr[n], limits);
    FinallyIsSeen(tr[..n], limits);
  }

  // Cut off, the daemon is gone at once.
  lemma CutOffEndsIt(tr: seq<Effect>, limits: Limits, j: nat, i: nat)
    requires Accepts(tr, limits) && j + 1 < i < |tr| && tr[j].Leaving? && tr[j + 1].Interrupted?
    ensures i == j + 2 && tr[i].Exited?
  {
    hide Accepts, Run, Allowed, Next;
    AcceptsAt(tr, limits, j);
    AcceptsAt(tr, limits, j + 1);
    AcceptsAt(tr, limits, j + 2);
    CutOffStep(Run(tr[..j]), tr[j], limits);
    CutOffStep(Run(tr[..j + 1]), tr[j + 1], limits);
    CutOffStep(Run(tr[..j + 2]), tr[j + 2], limits);
    if i > j + 2 {
      AcceptsAt(tr, limits, j + 3);
      CutOffStep(Run(tr[..j + 3]), tr[j + 3], limits);
    }
  }

  lemma CutOffStep(m: Monitor, e: Effect, limits: Limits)
    requires Allowed(m, e, limits)
    ensures m.life != Gone
    ensures e.Leaving? ==> Next(m, e).life == Finally
    ensures m.life == Finally && e.Interrupted? ==> Next(m, e).life == CutOff && !Next(m, e).justSpawned
    ensures m.life == CutOff && !m.justSpawned ==> e.Exited? && Next(m, e).life == Gone
  {
  }

  // The daemon leaves a producer running that did not have a SIGINT and twenty
  // seconds if and only if a signal hit between its start and the record of it,
  // or two signals hit: one before any SIGINT to it was twenty seconds old, and
  // another in the finally block before signals were masked.
  lemma ExitWithALiveProducer(tr: seq<Effect>, limits: Limits, i: nat, pid: nat)
    requires Accepts(tr, limits) && i < |tr| && tr[i].Exited?
    ensures pid in Run(tr[..i]).alive && !HadItsBudget(tr, i, pid)
            <==> HitUnrecorded(tr, i, pid) || (pid in Run(tr[..i]).alive && CutTooEarly(tr, i, pid))
  {
    hide Accepts, Run, Next, HadItsBudget, HitUnrecorded, CutTooEarly;
    if pid in Run(tr[..i]).alive {
      OneOfTheThree(tr, limits, i, pid);
    }
    if HitUnrecorded(tr, i, pid) {
      UnrecordedIsLeft(tr, limits, i, pid);
    }
    if CutTooEarly(tr, i, pid) {
      CutHadNone(tr, limits, i, pid);
    }
  }

  lemma OneOfTheThree(tr: seq<Effect>, limits: Limits, i: nat, pid: nat)
    requires Accepts(tr, limits) && i < |tr| && tr[i].Exited? && pid in Run(tr[..i]).alive
    ensures HadItsBudget(tr, i, pid) || HitUnrecorded(tr, i, pid) || CutTooEarly(tr, i, pid)
  {
    hide Accepts, Run, Next;
    AcceptsAt(tr, limits, i);
    if Run(tr[..i]).life == CutOff {
      CutOffIsSeen(tr[..i], limits);
      LeftEarlyOrLate(tr, limits, i, pid);
    } else if pid !in Run(tr[..i]).known {
      var j := UnknownWasHitInTheWindow(tr[..i], limits, pid);
      assert tr[j] == Spawned(pid) && tr[j + 1].Interrupted?;
    } else {
      var j := FirstSigintIsThere(tr[..i], limits, pid);
      assert WaitedFor(tr, pid, j, i);
    }
  }

  // The finally block is entered by a daemon that gave up, or was hit.
  lemma LeftEarlyOrLate(tr: seq<Effect>, limits: Limits, i: nat, pid: nat)
    requires Accepts(tr, limits) && 2 <= i < |tr| && tr[i - 2].Leaving? && tr[i - 1].Interrupted?
    requires pid in Run(tr[..i]).alive
    ensures HadItsBudget(tr, i, pid) || CutTooEarly(tr, i, pid)
  {
    hide Accepts, Run, Next, Allowed;
    var l := i - 2;
    AcceptsAt(tr, limits, l);
    AcceptsAt(tr, limits, l + 1);
    LeavingStep(Run(tr[..l]), tr[l], tr[l + 1], limits, pid);
    if Run(tr[..l]).life == Serving {
      var j := FirstSigintIsThere(tr[..l], limits, pid);
      forall k | j < k < l ensures !tr[k].Interrupted? {
        if tr[k].Interrupted? {
          ServingMeansUnhit(tr[..l], limits, k);
        }
      }
      assert WaitedFor(tr, pid, j, l);
    } else {
      var h := FirstHit(tr[..l], limits);
      assert FirstInterrupt(tr, h);
      if j: nat :| j < h && tr[j].Signalled? && tr[j].pid == pid && tr[h].at >= tr[j].at + 20.0 {
        SignalsAndReloads(tr, limits, j);
        assert WaitedFor(tr, pid, j, h);
      } else {
        assert CutAt(tr, i, pid, h, l);
      }
    }
  }

  lemma LeavingStep(m: Monitor, e: Effect, f: Effect, limits: Limits, pid: nat)
    requires Allowed(m, e, limits) && e.Leaving? && f.Interrupted? && pid in Next(Next(m, e), f).alive
    ensures m.life in {Serving, Hit, HitAgain} && (m.life == Serving ==> BudgetSpent(m, pid, e.at))
  {
  }

  lemma UnrecordedIsLeft(tr: seq<Effect>, limits: Limits, i: nat, pid: nat)
    requires Accepts(tr, limits) && i < |tr| && tr[i].Exited? && HitUnrecorded(tr, i, pid)
    ensures pid in Run(tr[..i]).alive && !HadItsBudget(tr, i, pid)
  {
    hide Accepts, Run;
    var j: nat :| j + 1 < i && tr[j] == Spawned(pid) && tr[j + 1].Interrupted?;
    NeverRecorded(tr, limits, j, i);
  }

  lemma CutHadNone(tr: seq<Effect>, limits: Limits, i: nat, pid: nat)
    requires Accepts(tr, limits) && i < |tr| && tr[i].Exited? && CutTooEarly(tr, i, pid)
    ensures !HadItsBudget(tr, i, pid)
  {
    hide Accepts, Run, WaitedFor;
    var h: nat, l: nat :| h < l && l + 1 < i && CutAt(tr, i, pid, h, l);
    forall j: nat, e: nat | j < e <= i
      ensures !WaitedFor(tr, pid, j, e)
    {
      NotWaitedFor(tr, limits, i, pid, h, l, j, e);
    }
  }

  lemma NotWaitedFor(tr: seq<Effect>, limits: Limits, i: nat, pid: nat, h: nat, l: nat, j: nat, e: nat)
    requires Accepts(tr, limits) && h < l && l + 1 < i < |tr| && CutAt(tr, i, pid, h, l) && j < e <= i
    ensures !WaitedFor(tr, pid, j, e)
  {
    hide Accepts, Run, Allowed, Next;
    CutOffEndsIt(tr, limits, l, i);
    AcceptsAt(tr, limits, l);
    RankStep(Run(tr[..l]), tr[l], limits);
    if WaitedFor(tr, pid, j, e) {
      if j > h {
        AcceptsAt(tr, limits, h);
        RankStep(Run(tr[..h]), tr[h], limits);
        AcceptsAt(tr, limits, j);
        RankStep(Run(tr[..j]), tr[j], limits);
        RankGrows(tr, limits, h + 1, j);
        RankGrows(tr, limits, j, l);
      } else if e < h {
        AcceptsAt(tr, limits, e);
        RankStep(Run(tr[..e]), tr[e], limits);
        RankGrows(tr, limits, e + 1, l);
      }
    }
  }

  // ------------------------------------------------------------------- restarts

  // The restarts of the latest episode, and the sessions it had.
  function Restarts(tr: seq<Effect>): seq<real> {
    if tr == [] then []
    else
      var n := |tr| - 1;
      match tr[n]
      case EpisodeStart => []
      case Restarted(at) => Restarts(tr[..n]) + [at]
      case _ => Restarts(tr[..n])
  }

  function Sessions(tr: seq<Effect>): nat {
    if tr == [] then 0
    else
      var n := |tr| - 1;
      match tr[n]
      case EpisodeStart => 0
      case SessionStart => Sessions(tr[..n]) + 1
      case _ => Sessions(tr[..n])
  }

  lemma {:induction false} RestartsCounted(tr: seq<Effect>, limits: Limits)
    requires Accepts(tr, limits)
    ensures Run(tr).restarts == Restarts(tr)
    ensures Sessions(tr) + (if Run(tr).stage in {Ready, Clear} then 1 else 0) <= |Restarts(tr)| + 1
  {
    hide Allowed, Next;
    if tr != [] {
      var n := |tr| - 1;
      RestartsCounted(tr[..n], limits);
      RestartStep(Run(tr[..n]), tr[n], limits);
    }
  }

  lemma RestartStep(m: Monitor, e: Effect, limits: Limits)
    requires Allowed(m, e, limits)
    ensures var after := Next(m, e);
            && after.restarts == (match e case EpisodeStart => [] case Restarted(at) => m.restarts + [at] case _ => m.restarts)
            && (after.stage in {Ready, Clear} ==> e.EpisodeStart? || e.Restarted? || m.stage in {Ready, Clear})
            && (e.SessionStart? ==> m.stage == Clear && after.stage !in {Ready, Clear})
  {
    RestartsStep(m, e);
    StageRule(m, e, limits);
    StageStep(m, e);
    hide Allowed, Next;
  }

  lemma RestartsStep(m: Monitor, e: Effect)
    ensures Next(m, e).restarts == match e case EpisodeStart => [] case Restarted(at) => m.restarts + [at] case _ => m.restarts
  {
  }

  // Within one episode of the rear bridge the k-th and the (k+5)-th restart are a
  // minute or more apart, every session but the first takes a restart, and the
  // daemon gives up exactly when the next one would be too early.
  lemma {:induction false} RestartsAreSpaced(tr: seq<Effect>, limits: Limits)
    requires Accepts(tr, limits) && limits.restarts
    ensures forall k: nat :: RestartLimiter.Spaced(Restarts(tr), k)
    ensures Sessions(tr) <= |Restarts(tr)| + 1
    ensures tr != [] && tr[|tr| - 1].GaveUp? ==> !Rested(Restarts(tr), tr[|tr| - 1].at)
  {
    RestartsCounted(tr, limits);
    if tr != [] {
      var n := |tr| - 1;
      RestartsCounted(tr[..n], limits);
      RestartsAreSpaced(tr[..n], limits);
      SpacedOneMore(Restarts(tr[..n]), tr[n], limits, Run(tr[..n]));
    }
  }

  lemma SpacedOneMore(times: seq<real>, e: Effect, limits: Limits, m: Monitor)
    requires Allowed(m, e, limits) && limits.restarts && m.restarts == times
    requires forall k: nat :: RestartLimiter.Spaced(times, k)
    ensures e.Restarted? ==> forall k: nat :: RestartLimiter.Spaced(times + [e.at], k)
  {
    if e.Restarted? {
      forall k: nat
        ensures RestartLimiter.Spaced(times + [e.at], k)
      {
        assert RestartLimiter.Spaced(times, k);
      }
    }
  }

  // ------------------------------------------------------------ session output

  ghost predicate OneSession(tr: seq<Effect>, i: int, j: int) {
    forall k :: 0 <= i < k < j && k < |tr| ==> !tr[k].SessionStart?
  }

  lemma {:induction false} FramesCounted(tr: seq<Effect>, limits: Limits, i: nat, j: nat)
    requires Accepts(tr, limits) && i < j <= |tr| && tr[i].Frame? && OneSession(tr, i, j)
    ensures Run(tr[..j]).frames > 0
  {
    hide Accepts, Run, Allowed;
    AcceptsAt(tr, limits, j - 1);
    if i < j - 1 {
      FramesCounted(tr, limits, i, j - 1);
    }
  }

  // Within one session, over all its attempts: black frames come before real
  // ones, the producer is only ever restarted, and the driver only ever
  // reloaded, before the first real frame.
  lemma BlackThenReal(tr: seq<Effect>, limits: Limits, i: nat, j: nat)
    requires Accepts(tr, limits) && i < j < |tr| && tr[i].Frame? && OneSession(tr, i, j)
    ensures !tr[j].Black? && !tr[j].Spawned? && !tr[j].Reloaded?
  {
    hide Accepts, Run, Next;
    FramesCounted(tr, limits, i, j);
    AcceptsAt(tr, limits, j);
  }

  // The producers started since the session began.
  function Spawns(tr: seq<Effect>): nat {
    if tr == [] then 0
    else
      var n := |tr| - 1;
      if tr[n].SessionStart? then 0 else Spawns(tr[..n]) + if tr[n].Spawned? then 1 else 0
  }

  lemma {:induction false} AtMostThreeAttempts(tr: seq<Effect>, limits: Limits)
    requires Accepts(tr, limits)
    ensures Spawns(tr) == Run(tr).attempts <= 3
  {
    hide Allowed, Next;
    if tr != [] {
      var n := |tr| - 1;
      AtMostThreeAttempts(tr[..n], limits);
      AttemptStep(Run(tr[..n]), tr[n], limits);
    }
  }

  lemma AttemptStep(m: Monitor, e: Effect, limits: Limits)
    requires Allowed(m, e, limits)
    ensures Next(m, e).attempts == if e.SessionStart? then 0 else m.attempts + if e.Spawned? then 1 else 0
    ensures e.Spawned? ==> m.attempts < MAX_ATTEMPTS
  {
  }

  // --------------------------------------------------------------- forwarding

  // The bytes read from the producer, and the frames forwarded, in the latest
  // attempt.
  function BytesRead(tr: seq<Effect>): seq<Byte> {
    if tr == [] then []
    else
      var n := |tr| - 1;
      match tr[n]
      case Spawned(_) => []
      case Chunk(b) => BytesRead(tr[..n]) + b
      case _ => BytesRead(tr[..n])
  }

  function Forwarded(tr: seq<Effect>): seq<seq<Byte>> {
    if tr == [] then []
    else
      var n := |tr| - 1;
      match tr[n]
      case Spawned(_) => []
      case Frame(f) => Forwarded(tr[..n]) + [f]
      case _ => Forwarded(tr[..n])
  }

  lemma {:induction false} ConcatSnoc(ss: seq<seq<Byte>>, s: seq<Byte>)
    ensures Concat(ss + [s]) == Concat(ss) + s
  {
    if ss == [] {
      assert [] + [s] == [s] && Concat([s]) == s + Concat([]) == s;
    } else {
      assert (ss + [s])[1..] == ss[1..] + [s];
      ConcatSnoc(ss[1..], s);
      assert ss[0] + (Concat(ss[1..]) + s) == (ss[0] + Concat(ss[1..])) + s;
    }
  }

  // One effect, seen on the leftover.
  lemma FrameFits(m: Monitor, e: Effect, limits: Limits)
    requires Allowed(m, e, limits) && e.Frame?
    ensures |e.frame| == FRAME_SIZE && e.frame <= m.left
  {
  }

  lemma LeftStep(m: Monitor, e: Effect)
    ensures Next(m, e).left ==
            match e
            case Spawned(_) => []
            case Chunk(b) => m.left + b
            case Frame(f) => if |f| <= |m.left| then m.left[|f|..] else []
            case _ => m.left
  {
  }

  lemma ForwardingStep(m: Monitor, e: Effect, limits: Limits, frames: seq<seq<Byte>>, read: seq<Byte>)
    requires Allowed(m, e, limits) && Concat(frames) + m.left == read
    ensures e.Spawned? ==> Concat([]) + Next(m, e).left == []
    ensures e.Chunk? ==> Concat(frames) + Next(m, e).left == read + e.bytes
    ensures e.Frame? ==> |e.frame| == FRAME_SIZE && Concat(frames + [e.frame]) + Next(m, e).left == read
    ensures !e.Spawned? && !e.Chunk? && !e.Frame? ==> Concat(frames) + Next(m, e).left == read
  {
    hide Allowed, Next;
    LeftStep(m, e);
    var sent := Concat(frames);
    if e.Chunk? {
      assert sent + (m.left + e.bytes) == (sent + m.left) + e.bytes;
    } else if e.Frame? {
      FrameFits(m, e, limits);
      ConcatSnoc(frames, e.frame);
      var after := m.left[|e.frame|..];
      assert m.left == e.frame + after;
      assert (sent + e.frame) + after == sent + (e.frame + after);
    }
  }

  // Frames forwarded and leftover are the bytes read: nothing lost, nothing
  // made up, in order, every write one frame long.
  lemma {:induction false} ForwardingKeepsTheStream(tr: seq<Effect>, limits: Limits)
    requires Accepts(tr, limits)
    ensures Concat(Forwarded(tr)) + Run(tr).left == BytesRead(tr)
    ensures forall f :: f in Forwarded(tr) ==> |f| == FRAME_SIZE
  {
    hide Allowed, Next;
    if tr != [] {
      var n := |tr| - 1;
      ForwardingKeepsTheStream(tr[..n], limits);
      ForwardingStep(Run(tr[..n]), tr[n], limits, Forwarded(tr[..n]), BytesRead(tr[..n]));
      assert Run(tr) == Next(Run(tr[..n]), tr[n]);
    }
  }

  // Whenever the daemon reads from the pipe, or takes note of its clients, the
  // frames forwarded are the cut of the byte stream: they do not depend on how
  // the pipe chunked it.
  lemma ForwardedIsTheCut(tr: seq<Effect>, limits: Limits, i: nat)
    requires Accepts(tr, limits) && i < |tr| && (tr[i].Chunk? || tr[i].Report? || tr[i].NoNews? || tr[i].Looked? || tr[i].ClientsGone?)
    ensures Forwarded(tr[..i]) == Frames(BytesRead(tr[..i]), FRAME_SIZE)
    ensures Run(tr[..i]).left == Left(BytesRead(tr[..i]), FRAME_SIZE)
  {
    hide Accepts, Run, Next, BytesRead, Forwarded, Frames, Left;
    AcceptsAt(tr, limits, i);
    ForwardingKeepsTheStream(tr[..i], limits);
    CutIsUnique(Forwarded(tr[..i]), Run(tr[..i]).left, FRAME_SIZE);
  }

  lemma {:induction false} CutIsUnique(frames: seq<seq<Byte>>, left: seq<Byte>, size: nat)
    requires size > 0 && |left| < size && forall f :: f in frames ==> |f| == size
    ensures Frames(Concat(frames) + left, size) == frames && Left(Concat(frames) + left, size) == left
  {
    if frames == [] {
      assert [] + left == left;
    } else {
      var s := Concat(frames) + left;
      assert frames == [frames[0]] + frames[1..];
      assert s == frames[0] + (Concat(frames[1..]) + left);
      assert s[..size] == frames[0] && s[size..] == Concat(frames[1..]) + left;
      CutIsUnique(frames[1..], left, size);
    }
  }

  // ------------------------------------------------------------------- grace

  lemma {:induction false} ReportIsThere(tr: seq<Effect>, limits: Limits) returns (i: nat)
    requires Accepts(tr, limits) && Run(tr).report.Some?
    ensures i < |tr| && tr[i] == Report(Run(tr).report.value.0, Run(tr).report.value.1)
    ensures forall k :: i < k < |tr| ==> !tr[k].Report? && !tr[k].Spawned?
  {
    hide Allowed, Next;
    var n := |tr| - 1;
    ReportStep(Run(tr[..n]), tr[n]);
    if tr[n].Report? {
      i := n;
    } else {
      i := ReportIsThere(tr[..n], limits);
    }
  }

  lemma ReportStep(m: Monitor, e: Effect)
    ensures Next(m, e).report ==
            match e case Report(count, at) => Some((count, at)) case Spawned(_) => None case _ => m.report
  {
  }

  // A session ends for want of clients only when the latest count taken note of
  // in this attempt was zero, more than the grace period ago.
  lemma ClientsGoneMeansGone(tr: seq<Effect>, limits: Limits, i: nat) returns (j: nat)
    requires Accepts(tr, limits) && i < |tr| && tr[i].ClientsGone?
    ensures j < i && tr[j].Report? && tr[j].count == 0 && tr[i].at - tr[j].at > limits.grace
    ensures forall k :: j < k < i ==> !tr[k].Report? && !tr[k].Spawned?
  {
    hide Accepts, Run, Next;
    AcceptsAt(tr, limits, i);
    j := ReportIsThere(tr[..i], limits);
  }

  // A splash frame is only written while the first frame may still come: within
  // the timeout from when the attempt began to wait.
  lemma {:induction false} WaitingSince(tr: seq<Effect>, limits: Limits, i: nat, j: nat)
    requires Accepts(tr, limits) && i < j <= |tr| && tr[i].Waiting?
    requires forall k :: i < k < j ==> !tr[k].Waiting?
    ensures Run(tr[..j]).waiting == tr[i].at
  {
    hide Accepts, Run, Allowed;
    AcceptsAt(tr, limits, j - 1);
    if i < j - 1 {
      WaitingSince(tr, limits, i, j - 1);
    }
  }

  lemma SplashIsTimely(tr: seq<Effect>, limits: Limits, i: nat, j: nat)
    requires Accepts(tr, limits) && i < j < |tr| && tr[i].Waiting? && tr[j].Black?
    requires (forall k :: i < k < j ==> !tr[k].Waiting?) && Spawns(tr[..j]) > 0
    ensures tr[j].at - tr[i].at <= limits.firstFrame
  {
    hide Accepts, Run, Next, Spawns;
    WaitingSince(tr, limits, i, j);
    AcceptsAt(tr, limits, j);
    AtMostThreeAttempts(tr[..j], limits);
  }

  // ------------------------------------------------------ what has to follow

  lemma {:induction false} ReportedSince(tr: seq<Effect>, limits: Limits, i: nat, j: nat)
    requires Accepts(tr, limits) && i < j <= |tr| && tr[i].Report?
    requires forall k :: i < k < j ==> !tr[k].Report? && !tr[k].Spawned?
    ensures Run(tr[..j]).report == Some((tr[i].count, tr[i].at))
  {
    hide Accepts, Run, Allowed, Next;
    AcceptsAt(tr, limits, j - 1);
    ReportStep(Run(tr[..j - 1]), tr[j - 1]);
    if i < j - 1 {
      ReportedSince(tr, limits, i, j - 1);
    }
  }

  // The converse of ClientsGoneMeansGone: whenever a round ends, the session ends
  // for want of clients exactly if the latest report is of none and more than the
  // grace period old.
  lemma ClientsGoneExactly(tr: seq<Effect>, limits: Limits, i: nat, j: nat)
    requires Accepts(tr, limits) && i < j < |tr| && tr[i].Report? && (tr[j].Looked? || tr[j].ClientsGone?)
    requires forall k :: i < k < j ==> !tr[k].Report? && !tr[k].Spawned?
    ensures tr[j].ClientsGone? <==> tr[i].count == 0 && tr[j].at - tr[i].at > limits.grace
  {
    hide Accepts, Run, Next;
    ReportedSince(tr, limits, i, j);
    AcceptsAt(tr, limits, j);
  }

  // And rounds do end: the pipe is read once a round.
  lemma LookedBetweenReads(tr: seq<Effect>, limits: Limits, i: nat, j: nat)
    requires Accepts(tr, limits) && i < j < |tr| && tr[i].Chunk? && tr[j].Chunk?
    ensures exists k :: i < k < j && (tr[k].Looked? || tr[k].Spawned?)
  {
    hide Accepts, Run, Next;
    if forall k :: i < k < j ==> !tr[k].Looked? && !tr[k].Spawned? {
      AcceptsAt(tr, limits, i);
      ReadStep(Run(tr[..i]), tr[i], limits);
      NoRound(tr, limits, i + 1, j);
      AcceptsAt(tr, limits, j);
    }
  }

  // Neither in a round nor about to begin one.
  ghost predicate Roundless(m: Monitor) {
    !m.justSpawned && m.stage !in {Launched, Fresh, InRound, Readable}
  }

  lemma ReadStep(m: Monitor, e: Effect, limits: Limits)
    requires Allowed(m, e, limits)
    ensures e.Chunk? || e.ClientsGone? ==> Roundless(Next(m, e))
    ensures Roundless(m) && !e.Looked? && !e.Spawned? ==> Roundless(Next(m, e))
    ensures e.Chunk? ==> !Roundless(m)
  {
    hide Allowed, Next;
    StageRule(m, e, limits);
    StageStep(m, e);
  }

  lemma {:induction false} NoRound(tr: seq<Effect>, limits: Limits, i: nat, j: nat)
    requires Accepts(tr, limits) && i <= j <= |tr| && Roundless(Run(tr[..i]))
    requires forall k :: i <= k < j ==> !tr[k].Looked? && !tr[k].Spawned?
    ensures Roundless(Run(tr[..j]))
  {
    hide Accepts, Run, Allowed, Next;
    if i < j {
      NoRound(tr, limits, i, j - 1);
      AcceptsAt(tr, limits, j - 1);
      ReadStep(Run(tr[..j - 1]), tr[j - 1], limits);
    }
  }

  // In a round, what is readable is read, or the producer is found dead; and the
  // clients are asked for before the round ends.
  lemma ReadableIsRead(tr: seq<Effect>, limits: Limits, i: nat)
    requires Accepts(tr, limits) && i + 1 < |tr| && tr[i] == Selected(true)
    ensures tr[i + 1].Chunk? || tr[i + 1].Died? || tr[i + 1].Interrupted?
  {
    hide Accepts, Run;
    AcceptsAt(tr, limits, i);
    AcceptsAt(tr, limits, i + 1);
  }

  lemma RoundsAreWhole(tr: seq<Effect>, limits: Limits, i: nat, j: nat)
    requires Accepts(tr, limits) && i < j < |tr| && tr[i].Round? && (tr[j].Looked? || tr[j].ClientsGone?)
    ensures exists k :: i < k < j && tr[k].Selected?
    ensures exists k :: i < k < j && (tr[k].Report? || tr[k].NoNews?)
  {
    hide Accepts, Run, Next;
    AcceptsAt(tr, limits, i);
    RoundStep(Run(tr[..i]), tr[i], limits);
    AcceptsAt(tr, limits, j);
    if forall k :: i < k < j ==> !tr[k].Selected? {
      RoundOpen(tr, limits, i + 1, j, true);
    }
    if forall k :: i < k < j ==> !tr[k].Report? && !tr[k].NoNews? {
      RoundOpen(tr, limits, i + 1, j, false);
    }
  }

  // Before the pipe was asked for, or before the clients were.
  ghost predicate Open(m: Monitor, early: bool) {
    m.stage != Told && (early ==> m.stage !in {Readable, HasRead})
  }

  lemma RoundStep(m: Monitor, e: Effect, limits: Limits)
    requires Allowed(m, e, limits)
    ensures e.Round? ==> Open(Next(m, e), true)
    ensures Open(m, true) && !e.Selected? ==> Open(Next(m, e), true)
  {
    hide Allowed, Next;
    StageRule(m, e, limits);
    StageStep(m, e);
  }

  lemma NewsStep(m: Monitor, e: Effect)
    requires Open(m, false) && !e.Report? && !e.NoNews?
    ensures Open(Next(m, e), false)
  {
  }

  lemma {:induction false} RoundOpen(tr: seq<Effect>, limits: Limits, i: nat, j: nat, early: bool)
    requires Accepts(tr, limits) && i <= j <= |tr| && Open(Run(tr[..i]), early)
    requires forall k :: i <= k < j ==> if early then !tr[k].Selected? else !tr[k].Report? && !tr[k].NoNews?
    ensures Open(Run(tr[..j]), early)
  {
    hide Accepts, Run, Allowed, Next;
    if i < j {
      RoundOpen(tr, limits, i, j - 1, early);
      AcceptsAt(tr, limits, j - 1);
      if early {
        RoundStep(Run(tr[..j - 1]), tr[j - 1], limits);
      } else {
        NewsStep(Run(tr[..j - 1]), tr[j - 1]);
      }
    }
  }

  // The real frames since the session began.
  function FramesSent(tr: seq<Effect>): nat {
    if tr == [] then 0
    else
      var n := |tr| - 1;
      if tr[n].SessionStart? then 0 else FramesSent(tr[..n]) + if tr[n].Frame? then 1 else 0
  }

  lemma {:induction false} FramesSentCounted(tr: seq<Effect>, limits: Limits)
    requires Accepts(tr, limits)
    ensures Run(tr).frames == FramesSent(tr)
  {
    hide Allowed, Next;
    if tr != [] {
      FramesSentCounted(tr[..|tr| - 1], limits);
      FrameStep(Run(tr[..|tr| - 1]), tr[|tr| - 1]);
    }
  }

  lemma FrameStep(m: Monitor, e: Effect)
    ensures Next(m, e).frames == if e.SessionStart? then 0 else m.frames + if e.Frame? then 1 else 0
  {
  }

  // A start is given up at the head of a round exactly if no frame came in time.
  lemma StuckExactly(tr: seq<Effect>, limits: Limits, i: nat, j: nat)
    requires Accepts(tr, limits) && i < j < |tr| && tr[i].Waiting? && (tr[j].Round? || tr[j].Stuck?)
    requires forall k :: i < k < j ==> !tr[k].Waiting?
    ensures tr[j].Stuck? <==> FramesSent(tr[..j]) == 0 && tr[j].at - tr[i].at > limits.firstFrame
  {
    hide Accepts, Run, Next, FramesSent;
    WaitingSince(tr, limits, i, j);
    AcceptsAt(tr, limits, j);
    FramesSentCounted(tr[..j], limits);
  }

  // A step of stopping the producer.
  ghost predicate Stops(e: Effect) {
    e.Signalled? || e.Died? || e.Armed? || e.Alive? || e.Napped?
  }

  // While a producer is being stopped it is looked after before every nap, and a
  // look at or after the date of the next SIGINT has sent one, and put that date
  // off by four seconds or more.
  lemma NapsFollowLooks(tr: seq<Effect>, limits: Limits, i: nat, j: nat)
    requires Accepts(tr, limits) && i < j < |tr|
    ensures (tr[i].Armed? || tr[i].Napped?) && tr[j].Napped? ==> exists k :: i < k < j && tr[k].Alive?
    ensures tr[i].Alive? && tr[j].Alive? ==> exists k :: i < k < j && (tr[k].Napped? || tr[k].Armed?)
  {
    hide Accepts, Run, Allowed, Next;
    AcceptsAt(tr, limits, i);
    PaceStep(Run(tr[..i]), tr[i]);
    AcceptsAt(tr, limits, j);
    AlivePaced(Run(tr[..j]), tr[j], limits);
    if forall k :: i < k < j ==> !tr[k].Alive? {
      if tr[i].Armed? || tr[i].Napped? {
        NotAsked(tr, limits, i + 1, j);
      }
    }
    if forall k :: i < k < j ==> !tr[k].Napped? && !tr[k].Armed? {
      if tr[i].Alive? {
        StillAsked(tr, limits, i + 1, j);
      }
    }
  }

  lemma {:induction false} StillAsked(tr: seq<Effect>, limits: Limits, i: nat, j: nat)
    requires Accepts(tr, limits) && i <= j <= |tr| && Run(tr[..i]).pace.asked
    requires forall k :: i <= k < j ==> !tr[k].Napped? && !tr[k].Armed?
    ensures Run(tr[..j]).pace.asked
  {
    hide Accepts, Run, Allowed, Next;
    if i < j {
      StillAsked(tr, limits, i, j - 1);
      AcceptsAt(tr, limits, j - 1);
      PaceStep(Run(tr[..j - 1]), tr[j - 1]);
    }
  }

  lemma PaceStep(m: Monitor, e: Effect)
    ensures Next(m, e).pace ==
            match e
            case Signalled(_, _, _) => m.pace.(sent := true)
            case Armed(next) => Pace(next, false, false)
            case Alive(_, next) => Pace(next, false, true)
            case Napped => m.pace.(asked := false)
            case _ => m.pace
  {
  }

  lemma {:induction false} NotAsked(tr: seq<Effect>, limits: Limits, i: nat, j: nat)
    requires Accepts(tr, limits) && i <= j <= |tr| && !Run(tr[..i]).pace.asked
    requires forall k :: i <= k < j ==> !tr[k].Alive?
    ensures !Run(tr[..j]).pace.asked
  {
    hide Accepts, Run, Allowed, Next;
    if i < j {
      NotAsked(tr, limits, i, j - 1);
      AcceptsAt(tr, limits, j - 1);
      PaceStep(Run(tr[..j - 1]), tr[j - 1]);
    }
  }

  lemma {:induction false} PaceStays(tr: seq<Effect>, limits: Limits, i: nat, j: nat)
    requires Accepts(tr, limits) && i < j <= |tr| && (tr[i].Armed? || tr[i].Alive?)
    requires forall k :: i < k < j ==> !tr[k].Armed? && !tr[k].Alive?
    ensures Run(tr[..j]).pace.next == tr[i].next
    ensures Run(tr[..j]).pace.sent <==> exists k :: i < k < j && tr[k].Signalled?
  {
    hide Accepts, Run, Allowed, Next;
    AcceptsAt(tr, limits, j - 1);
    PaceStep(Run(tr[..j - 1]), tr[j - 1]);
    if i < j - 1 {
      PaceStays(tr, limits, i, j - 1);
    }
  }

  lemma SigintsRepeat(tr: seq<Effect>, limits: Limits, i: nat, j: nat)
    requires Accepts(tr, limits) && i < j < |tr| && (tr[i].Armed? || tr[i].Alive?) && tr[j].Alive?
    requires forall k :: i < k < j ==> !tr[k].Armed? && !tr[k].Alive?
    ensures tr[j].at >= tr[i].next <==> exists k :: i < k < j && tr[k].Signalled?
    ensures if tr[j].at >= tr[i].next then tr[j].next >= tr[j].at + 4.0 else tr[j].next == tr[i].next
  {
    hide Accepts, Run, Next;
    PaceStays(tr, limits, i, j);
    AcceptsAt(tr, limits, j);
    AlivePaced(Run(tr[..j]), tr[j], limits);
  }

  lemma AlivePaced(m: Monitor, e: Effect, limits: Limits)
    requires Allowed(m, e, limits)
    ensures e.Alive? ==> Paced(m, e)
    ensures e.Napped? ==> m.pace.asked
  {
  }

  // Between i and j the daemon only stops its producer.
  ghost predicate OnlyStops(tr: seq<Effect>, i: nat, j: nat)
    requires j <= |tr|
  {
    forall k :: i < k < j ==> Stops(tr[k])
  }

  // It goes on by itself at j.
  ghost predicate GoesOn(e: Effect) {
    !Stops(e) && !e.Interrupted? && !e.Leaving?
  }

  lemma StopStep(m: Monitor, e: Effect, limits: Limits)
    requires Allowed(m, e, limits) && m.life == Serving && !m.justSpawned && (m.stage.Retry? || m.stage.SessionOver?)
    requires Stops(e)
    ensures var after := Next(m, e);
            after.stage == m.stage && after.life == Serving && !after.justSpawned && after.attempts == m.attempts
  {
  }

  lemma {:induction false} StageStays(tr: seq<Effect>, limits: Limits, i: nat, j: nat)
    requires Accepts(tr, limits) && i < j <= |tr| && OnlyStops(tr, i, j)
    requires var m := Run(tr[..i + 1]); m.life == Serving && !m.justSpawned && (m.stage.Retry? || m.stage.SessionOver?)
    ensures var m, after := Run(tr[..i + 1]), Run(tr[..j]);
            after.stage == m.stage && after.life == Serving && !after.justSpawned && after.attempts == m.attempts
  {
    hide Accepts, Run, Allowed, Next;
    if i + 1 < j {
      StageStays(tr, limits, i, j - 1);
      AcceptsAt(tr, limits, j - 1);
      StopStep(Run(tr[..j - 1]), tr[j - 1], limits);
    }
  }

  // The producer was found dead by the relay loop.
  ghost predicate DiedInRelay(tr: seq<Effect>, i: nat)
    requires i < |tr|
  {
    tr[i].Died? && Run(tr[..i]).life == Serving && Run(tr[..i]).stage == Readable
  }

  // After a start without a frame comes the next attempt, behind a reload of the
  // sensor driver where the bridge has one, until three were made.
  lemma AfterTheStart(tr: seq<Effect>, limits: Limits, i: nat, j: nat)
    requires Accepts(tr, limits) && i < j < |tr| && OnlyStops(tr, i, j) && GoesOn(tr[j])
    requires tr[i].Stuck? || (DiedInRelay(tr, i) && FramesSent(tr[..i]) == 0)
    ensures if Spawns(tr[..i]) == 3 then tr[j].EpisodeStart? else if limits.reloads then tr[j].Reloaded? else tr[j].Spawned?
  {
    hide Accepts, Run, Allowed, Next, Spawns, FramesSent;
    AcceptsAt(tr, limits, i);
    FramesSentCounted(tr[..i], limits);
    AtMostThreeAttempts(tr[..i], limits);
    GivenUpStep(Run(tr[..i]), tr[i], limits);
    StageStays(tr, limits, i, j);
    AcceptsAt(tr, limits, j);
    OnlyThen(Run(tr[..j]), tr[j], limits);
  }

  lemma GivenUpStep(m: Monitor, e: Effect, limits: Limits)
    requires Allowed(m, e, limits) && (e.Stuck? || (e.Died? && m.life == Serving && m.stage == Readable && m.frames == 0))
    ensures var after := Next(m, e);
            after.stage == Retry && after.life == Serving && !after.justSpawned && after.attempts == m.attempts
  {
  }

  lemma OnlyThen(m: Monitor, e: Effect, limits: Limits)
    requires Allowed(m, e, limits) && m.life == Serving && !m.justSpawned && GoesOn(e)
    ensures m.stage == Retry ==> if m.attempts == 3 then e.EpisodeStart?
                                 else m.attempts > 3 || if limits.reloads then e.Reloaded? else e.Spawned?
    ensures m.stage == SessionOver(true) ==> e.Restarted? || e.GaveUp?
    ensures m.stage == SessionOver(false) ==> e.EpisodeStart?
    ensures m.stage == Attempting ==> e.Spawned?
  {
  }

  // After a session comes another for the same client, or none for too many
  // restarts, exactly if somebody else's producer kept a client waiting, or the
  // producer died with a client still there.
  lemma AfterTheSession(tr: seq<Effect>, limits: Limits, i: nat, j: nat)
    requires Accepts(tr, limits) && i < j < |tr| && OnlyStops(tr, i, j) && GoesOn(tr[j])
    requires tr[i].Refused? || tr[i].WriteFailed? || tr[i].ClientsGone? || (DiedInRelay(tr, i) && FramesSent(tr[..i]) > 0)
    ensures tr[j].Restarted? || tr[j].GaveUp? <==>
              (tr[i].Refused? && tr[i].clients != Some(0)) || (tr[i].Died? && !Deserted(Run(tr[..i]).report))
    ensures !tr[j].Restarted? && !tr[j].GaveUp? ==> tr[j].EpisodeStart?
  {
    hide Accepts, Run, Allowed, Next, FramesSent;
    AcceptsAt(tr, limits, i);
    FramesSentCounted(tr[..i], limits);
    SessionStep(Run(tr[..i]), tr[i], limits);
    StageStays(tr, limits, i, j);
    AcceptsAt(tr, limits, j);
    OnlyThen(Run(tr[..j]), tr[j], limits);
  }

  lemma SessionStep(m: Monitor, e: Effect, limits: Limits)
    requires Allowed(m, e, limits)
    requires e.Refused? || e.WriteFailed? || e.ClientsGone?
             || (e.Died? && m.life == Serving && m.stage == Readable && m.frames > 0)
    ensures var after := Next(m, e);
            && after.stage == SessionOver((e.Refused? && e.clients != Some(0)) || (e.Died? && !Deserted(m.report)))
            && after.life == Serving && !after.justSpawned
  {
  }

  // A reload is followed by a spawn, and nothing in between.
  lemma AfterTheReload(tr: seq<Effect>, limits: Limits, i: nat)
    requires Accepts(tr, limits) && i + 1 < |tr| && tr[i].Reloaded?
    ensures tr[i + 1].Spawned? || tr[i + 1].Interrupted?
  {
    hide Accepts, Run;
    AcceptsAt(tr, limits, i);
    AcceptsAt(tr, limits, i + 1);
  }

  // While a client waits for the first frame, a round in which a black frame is
  // due reads nothing and does not end before one was tried.
  lemma SplashWhenDue(tr: seq<Effect>, limits: Limits, i: nat)
    requires Accepts(tr, limits) && i + 1 < |tr| && tr[i].Round? && FramesSent(tr[..i]) == 0
    requires tr[i].at >= Run(tr[..i]).splash
    ensures tr[i + 1].Black? || tr[i + 1].Interrupted?
  {
    hide Accepts, Run, FramesSent;
    AcceptsAt(tr, limits, i);
    AcceptsAt(tr, limits, i + 1);
    FramesSentCounted(tr[..i], limits);
  }

  // The next one is due a thirtieth of a second after the last, the first at once.
  lemma {:induction false} SplashDue(tr: seq<Effect>, limits: Limits, i: nat, j: nat)
    requires Accepts(tr, limits) && i < j <= |tr| && (tr[i].Waiting? || tr[i].Black?)
    requires forall k :: i < k < j ==> !tr[k].Waiting? && !tr[k].Black?
    ensures Run(tr[..j]).splash == if tr[i].Waiting? then 0.0 else tr[i].at + 1.0 / 30.0
  {
    hide Accepts, Run, Allowed;
    AcceptsAt(tr, limits, j - 1);
    if i < j - 1 {
      SplashDue(tr, limits, i, j - 1);
    }
  }
}
