/** Which builds serve, one after another: replacements go to newer builds, as long as no step
    ends a daemon that serves, or leaves a replacement half done. */
module DaemonReplace {
  import opened Text
  import opened DaemonStart

  predicate Increasing(served: seq<Identity>) {
    forall i, j :: 0 <= i < j < |served| ==> served[i].builtAt < served[j].builtAt
  }

  predicate Replacing(phase: Phase) {
    phase.Draining? || phase == Ready(true) || (phase.Polling? && phase.restarted)
  }

  /** The launcher drained the last daemon that served, and has not yet put a newer one there. */
  predicate Unreplaced(s: State, builds: Launcher -> Identity, l: Launcher) {
    && In(s, l) && Replacing(s.launchers[l]) && Answering(s).None?
    && s.served != [] && s.served[|s.served| - 1].builtAt < builds(l).builtAt
  }

  predicate ChildStarting(s: State, l: Launcher) {
    In(s, l) && s.launchers[l].Polling? && DaemonOf(s, s.launchers[l].child).Starting?
  }

  predicate GivesUpAfterExit(s: State, l: Launcher) {
    && In(s, l) && s.launchers[l].Polling? && DaemonOf(s, s.launchers[l].child).Exited?
    && !(DaemonOf(s, s.launchers[l].child).killed && s.launchers[l].attempt < START_ATTEMPTS)
  }

  /** A step that ends the daemon that serves, leaves its replacement undone, or leaves a child
      that has still to try its lock. A child that dies before it serves disturbs nothing. */
  predicate Disturbs(s: State, builds: Launcher -> Identity, step: Step) {
    match step
    case GoIdle(_) => true
    case Crash(p, _) => Serves(s, p)
    case GiveUp(l) => Unreplaced(s, builds, l)
    case SeeExit(l, _) => GivesUpAfterExit(s, l) && Unreplaced(s, builds, l)
    case Abandon(l) => Unreplaced(s, builds, l) || ChildStarting(s, l)
    case Answered(l) => ChildStarting(s, l)
    case _ => false
  }

  /** Nothing disturbs after the first steps. */
  ghost predicate OrderlySince(builds: Launcher -> Identity, steps: seq<Step>, more: seq<Step>)
    requires IsRun(builds, steps + more)
    decreases |more|
  {
    more == [] ||
    var before := more[..|more| - 1];
    && (steps + more)[..|steps + more| - 1] == steps + before
    && OrderlySince(builds, steps, before) && !Disturbs(After(builds, steps + before), builds, more[|more| - 1])
  }

  ghost predicate Orderly(builds: Launcher -> Identity, steps: seq<Step>)
    requires IsRun(builds, steps)
  {
    steps == [] ||
    (Orderly(builds, steps[..|steps| - 1]) && !Disturbs(After(builds, steps[..|steps| - 1]), builds, steps[|steps| - 1]))
  }

  // ---- Newer and newer ----------------------------------------------------------------------

  predicate WaitedFor(s: State, p: Pid) {
    s.startLock.Some? && WaitsFor(s, s.startLock.value, p)
  }

  /** The last build that served still does, or the launcher of a newer one is replacing it. */
  ghost predicate Inv(s: State, builds: Launcher -> Identity) {
    && Increasing(s.served)
    && (forall p :: p in s.processes && s.processes[p].daemon.Starting? ==> WaitedFor(s, p))
    && (forall p :: p in s.processes && s.processes[p].daemon.Locked? && s.served != [] ==> WaitedFor(s, p))
    && (Answering(s).Some? ==> s.served != [] && s.processes[Answering(s).value].build == s.served[|s.served| - 1])
    && (s.served != [] && Answering(s).None? ==> s.startLock.Some? && Unreplaced(s, builds, s.startLock.value))
    && (forall l :: In(s, l) && Replacing(s.launchers[l]) ==> s.served != [] && (Answering(s).Some? ==> WaitsFor(s, l, Answering(s).value)))
  }

  /** A daemon's step that leaves the service as it is. */
  ghost predicate SameService(s: State, t: State) {
    && OnlyDaemons(s, t) && t.served == s.served && Answering(t) == Answering(s)
    && (forall p :: p in s.processes && t.processes[p].daemon.Starting? ==> s.processes[p].daemon.Starting?)
    && (forall p :: p in s.processes && t.processes[p].daemon.Locked? ==> Fresh(s.processes[p].daemon))
  }

  lemma DaemonStepKeepsService(s: State, builds: Launcher -> Identity, step: Step)
    requires OneDaemonInv(s) && Enabled(s, builds, step) && OfDaemon(step) && !step.Publish? && !Disturbs(s, builds, step)
    ensures SameService(s, Apply(s, builds, step))
  {
    hide Compare, OnlyDaemons;
    DaemonStepEffect(s, builds, step);
    var t, p := Apply(s, builds, step), step.p;
    assert t.processes == s.processes[p := s.processes[p].(daemon := t.processes[p].daemon)];
  }

  lemma ServiceKeepsInv(s: State, t: State, builds: Launcher -> Identity)
    requires Inv(s, builds) && SameService(s, t)
    ensures Inv(t, builds)
  {
    forall l: Launcher, p: Pid ensures WaitsFor(t, l, p) <==> WaitsFor(s, l, p) {
    }
    forall p: Pid ensures WaitedFor(t, p) <==> WaitedFor(s, p) {
    }
  }

  lemma PublishKeepsInv(s: State, builds: Launcher -> Identity, p: Pid)
    requires OneDaemonInv(s) && LauncherInv(s, builds) && Inv(s, builds) && Enabled(s, builds, Publish(p))
    ensures Inv(Apply(s, builds, Publish(p)), builds)
  {
    var t := Apply(s, builds, Publish(p));
    assert Answering(s).None? && Answering(t) == Some(p);
    forall l: Launcher, q: Pid ensures WaitsFor(t, l, q) <==> WaitsFor(s, l, q) {
    }
    forall q: Pid ensures WaitedFor(t, q) <==> WaitedFor(s, q) {
    }
  }

  lemma FindKeepsInv(s: State, builds: Launcher -> Identity, step: Step)
    requires OneDaemonInv(s) && LauncherInv(s, builds) && Inv(s, builds)
    requires Enabled(s, builds, step) && (step.Find? || step.Miss?)
    ensures Inv(Apply(s, builds, step), builds)
  {
    assert s.startLock == Some(step.l);
  }

  lemma AcquireKeepsInv(s: State, builds: Launcher -> Identity, step: Step)
    requires OneDaemonInv(s) && LauncherInv(s, builds) && Inv(s, builds)
    requires Enabled(s, builds, step) && (step.Acquire? || step.SeeGone?)
    ensures Inv(Apply(s, builds, step), builds)
  {
    var t := Apply(s, builds, step);
    forall l: Launcher, q: Pid ensures WaitsFor(t, l, q) <==> WaitsFor(s, l, q) {
    }
  }

  lemma SpawnKeepsInv(s: State, builds: Launcher -> Identity, l: Launcher, p: Pid, attempt: nat)
    requires OneDaemonInv(s) && LauncherInv(s, builds) && Inv(s, builds) && p !in s.processes && In(s, l)
    requires s.launchers[l].Ready? || (s.launchers[l].Polling? && DaemonOf(s, s.launchers[l].child).Exited?)
    ensures Inv(Spawned(s, l, builds(l), p, attempt, s.launchers[l].restarted), builds)
  {
    assert s.startLock == Some(l);
  }

  lemma ReturnKeepsInv(s: State, builds: Launcher -> Identity, l: Launcher, phase: Phase)
    requires OneDaemonInv(s) && LauncherInv(s, builds) && Inv(s, builds)
    requires In(s, l) && Active(s.launchers[l]) && !Active(phase)
    requires !Unreplaced(s, builds, l) && !ChildStarting(s, l)
    ensures Inv(Returned(s, l, phase), builds)
  {
    var t := Returned(s, l, phase);
    assert s.startLock == Some(l);
    forall k: Launcher, p: Pid ensures WaitsFor(t, k, p) <==> k != l && WaitsFor(s, k, p) {
    }
  }

  lemma StepKeepsInv(s: State, builds: Launcher -> Identity, step: Step)
    requires OneDaemonInv(s) && LauncherInv(s, builds) && Inv(s, builds)
    requires Enabled(s, builds, step) && !Disturbs(s, builds, step)
    ensures Inv(Apply(s, builds, step), builds)
  {
    hide Inv, OneDaemonInv, SameService, Unreplaced, Compare;
    match step
    case Publish(p) => PublishKeepsInv(s, builds, p);
    case Find(_) => FindKeepsInv(s, builds, step);
    case Miss(_) => FindKeepsInv(s, builds, step);
    case Acquire(_) => AcquireKeepsInv(s, builds, step);
    case SeeGone(_) => AcquireKeepsInv(s, builds, step);
    case Spawn(l, p) => SpawnKeepsInv(s, builds, l, p, 1);
    case Answered(l) =>
      AnsweringIsNotReplacing(s, builds, l);
      ReturnKeepsInv(s, builds, l, Apply(s, builds, step).launchers[l]);
    case SeeExit(l, again) =>
      if GivesUpAfterExit(s, l) {
        ReturnKeepsInv(s, builds, l, Failed);
      } else {
        SpawnKeepsInv(s, builds, l, again, s.launchers[l].attempt + 1);
      }
    case GiveUp(l) => ReturnKeepsInv(s, builds, l, Failed);
    case Abandon(l) => ReturnKeepsInv(s, builds, l, Failed);
    case _ =>
      DaemonStepKeepsService(s, builds, step);
      ServiceKeepsInv(s, Apply(s, builds, step), builds);
  }

  lemma AnsweringIsNotReplacing(s: State, builds: Launcher -> Identity, l: Launcher)
    requires Answering(s).Some?
    ensures !Unreplaced(s, builds, l)
  {
  }

  lemma {:induction false} InvKept(builds: Launcher -> Identity, steps: seq<Step>)
    requires IsRun(builds, steps) && Orderly(builds, steps)
    ensures Inv(After(builds, steps), builds)
  {
    hide Inv, OneDaemonInv, LauncherInv;
    if steps == [] {
      StartInv(builds);
    } else {
      var before := steps[..|steps| - 1];
      InvKept(builds, before);
      OneDaemonKept(builds, before);
      LaunchersKept(builds, before);
      StepKeepsInv(After(builds, before), builds, steps[|steps| - 1]);
    }
  }

  lemma StartInv(builds: Launcher -> Identity)
    ensures Inv(START, builds)
  {
  }

  /** Of all runs: what is built and what served was some launcher's. */
  ghost predicate Known(s: State, builds: Launcher -> Identity, b: Identity) {
    exists l: Launcher :: In(s, l) && builds(l) == b
  }

  ghost predicate KnownInv(s: State, builds: Launcher -> Identity) {
    && (forall p :: p in s.processes ==> Known(s, builds, s.processes[p].build))
    && (forall b :: b in s.served ==> Known(s, builds, b))
  }

  lemma StepKeepsKnown(s: State, builds: Launcher -> Identity, step: Step)
    requires KnownInv(s, builds) && Enabled(s, builds, step)
    ensures KnownInv(Apply(s, builds, step), builds)
  {
    hide Compare, Answering;
    var t := Apply(s, builds, step);
    assert s.launchers.Keys <= t.launchers.Keys;
    forall b | Known(s, builds, b) ensures Known(t, builds, b) {
      var l: Launcher :| In(s, l) && builds(l) == b;
      assert In(t, l);
    }
    if OfDaemon(step) {
      DaemonStepEffect(s, builds, step);
      assert step.Publish? ==> t.served == s.served + [s.processes[step.p].build];
      assert !step.Publish? ==> t.served == s.served;
    } else {
      LauncherStepBuilds(s, builds, step);
      assert In(t, step.l) && Known(t, builds, builds(step.l));
    }
  }

  lemma LauncherStepBuilds(s: State, builds: Launcher -> Identity, step: Step)
    requires Enabled(s, builds, step) && !OfDaemon(step)
    ensures var t := Apply(s, builds, step);
            && t.served == s.served && In(t, step.l)
            && forall p :: p in t.processes ==>
                 t.processes[p].build == if p in s.processes then s.processes[p].build else builds(step.l)
  {
  }

  lemma {:induction false} KnownKept(builds: Launcher -> Identity, steps: seq<Step>)
    requires IsRun(builds, steps)
    ensures KnownInv(After(builds, steps), builds)
  {
    hide KnownInv;
    if steps == [] {
      assert KnownInv(START, builds) by { NothingKnown(builds); }
    } else {
      KnownKept(builds, steps[..|steps| - 1]);
      StepKeepsKnown(After(builds, steps[..|steps| - 1]), builds, steps[|steps| - 1]);
    }
  }

  lemma NothingKnown(builds: Launcher -> Identity)
    ensures KnownInv(START, builds)
  {
  }

  /** As long as nothing disturbs, each daemon that serves is of a newer build than the one before
      it, so builds never take turns, and there are at most as many daemons as there are build
      times among the launchers that ran. */
  lemma {:induction false} ReplacementsIncrease(builds: Launcher -> Identity, steps: seq<Step>)
    requires IsRun(builds, steps) && Orderly(builds, steps)
    ensures var s := After(builds, steps);
            && Increasing(s.served)
            && |s.served| <= |set l | l in s.launchers :: builds(l).builtAt|
  {
    InvKept(builds, steps);
    KnownKept(builds, steps);
    var s := After(builds, steps);
    var times := set l | l in s.launchers :: builds(l).builtAt;
    forall b | b in s.served ensures b.builtAt in times {
      var l: Launcher :| In(s, l) && builds(l) == b;
      assert l in s.launchers;
    }
    IncreasingFits(s.served, times);
  }

  lemma {:induction false} IncreasingFits(served: seq<Identity>, times: set<nat>)
    requires Increasing(served) && forall b :: b in served ==> b.builtAt in times
    ensures |served| <= |times|
  {
    if served != [] {
      var before, last := served[..|served| - 1], served[|served| - 1].builtAt;
      forall b | b in before ensures b.builtAt in times - {last} {
        var i :| 0 <= i < |before| && before[i] == b;
        assert served[i] == b;
      }
      IncreasingFits(before, times - {last});
    }
  }

  // ---- Each disturbance matters ---------------------------------------------------------------

  lemma {:induction false} NothingSince(builds: Launcher -> Identity, steps: seq<Step>)
    requires IsRun(builds, steps)
    ensures IsRun(builds, steps + []) && After(builds, steps + []) == After(builds, steps) && OrderlySince(builds, steps, [])
  {
    assert steps + [] == steps;
  }

  lemma {:induction false} GoOn(builds: Launcher -> Identity, steps: seq<Step>, more: seq<Step>, step: Step)
    requires IsRun(builds, steps + more) && OrderlySince(builds, steps, more)
    requires Enabled(After(builds, steps + more), builds, step) && !Disturbs(After(builds, steps + more), builds, step)
    ensures IsRun(builds, steps + (more + [step])) && OrderlySince(builds, steps, more + [step])
    ensures After(builds, steps + (more + [step])) == Apply(After(builds, steps + more), builds, step)
  {
    RunExtends(builds, steps + more, step);
    assert steps + (more + [step]) == steps + more + [step];
    assert (more + [step])[..|more|] == more;
    assert (steps + (more + [step]))[..|steps + more|] == steps + more;
  }

  lemma KillingKeepsService(s: State, builds: Launcher -> Identity, c: Pid)
    requires Enabled(s, builds, KilledAtStart(c)) && Answering(s).None?
    ensures var t := Apply(s, builds, KilledAtStart(c));
            && Answering(t).None? && t.served == s.served
            && forall l: Launcher :: Unreplaced(t, builds, l) <==> Unreplaced(s, builds, l)
  {
  }

  /** The launcher at work can return, when it leaves nothing unreplaced. */
  lemma LetReturn(builds: Launcher -> Identity, steps: seq<Step>) returns (more: seq<Step>)
    requires IsRun(builds, steps)
    requires Answering(After(builds, steps)).None? && forall l: Launcher :: !Unreplaced(After(builds, steps), builds, l)
    ensures IsRun(builds, steps + more) && OrderlySince(builds, steps, more)
    ensures var s, t := After(builds, steps), After(builds, steps + more);
            && t.startLock.None? && Answering(t).None? && t.served == s.served
            && t.launchers.Keys == s.launchers.Keys && t.processes.Keys == s.processes.Keys
  {
    hide IsRun, After, OrderlySince;
    NothingSince(builds, steps);
    LaunchersKept(builds, steps);
    more := [];
    var s := After(builds, steps);
    if s.startLock.Some? {
      var l := s.startLock.value;
      if !s.launchers[l].Polling? {
        GoOn(builds, steps, more, GiveUp(l)); more := more + [GiveUp(l)];
      } else {
        var c := s.launchers[l].child;
        if DaemonOf(s, c).Starting? {
          GoOn(builds, steps, more, KilledAtStart(c)); more := more + [KilledAtStart(c)];
          KillingKeepsService(s, builds, c);
        }
        GoOn(builds, steps, more, Abandon(l)); more := more + [Abandon(l)];
      }
    }
  }

  /** What holds the daemon lock and does not serve can let it go. */
  lemma LetLockGo(builds: Launcher -> Identity, steps: seq<Step>, before: seq<Step>) returns (more: seq<Step>)
    requires IsRun(builds, steps + before) && OrderlySince(builds, steps, before)
    requires Answering(After(builds, steps + before)).None?
    ensures IsRun(builds, steps + more) && OrderlySince(builds, steps, more)
    ensures var s, t := After(builds, steps + before), After(builds, steps + more);
            && t.daemonLock.None? && Answering(t).None? && t.served == s.served && t.startLock == s.startLock
            && t.launchers == s.launchers && t.processes.Keys == s.processes.Keys
            && (forall p :: p in s.processes && s.processes[p].daemon.Starting? ==> t.processes[p] == s.processes[p])
  {
    hide IsRun, After, OrderlySince;
    OneDaemonKept(builds, steps + before);
    more := before;
    var s := After(builds, steps + before);
    if s.daemonLock.Some? {
      var p := s.daemonLock.value;
      assert !Serves(s, p);
      var step := if DaemonOf(s, p).Locked? then FailToOpen(p) else FinishQuit(p);
      GoOn(builds, steps, more, step); more := more + [step];
    }
  }

  /** A launcher finds no daemon, and its child comes to serve. */
  lemma StartOne(builds: Launcher -> Identity, steps: seq<Step>, before: seq<Step>, l: Launcher, p: Pid) returns (more: seq<Step>)
    requires IsRun(builds, steps + before) && OrderlySince(builds, steps, before)
    requires var s := After(builds, steps + before);
             l !in s.launchers && s.startLock.None? && Answering(s).None? && s.daemonLock.None? && p !in s.processes
    ensures IsRun(builds, steps + more) && OrderlySince(builds, steps, more)
    ensures After(builds, steps + more) == var s := After(builds, steps + before);
              State(s.launchers[l := Ensured(p, true, false)], None, s.processes[p := Process(builds(l), Serving)],
                    Some(p), Some(p), s.served + [builds(l)])
  {
    hide IsRun, After, OrderlySince;
    more := before;
    GoOn(builds, steps, more, Acquire(l));  more := more + [Acquire(l)];
    GoOn(builds, steps, more, Find(l));     more := more + [Find(l)];
    GoOn(builds, steps, more, Spawn(l, p)); more := more + [Spawn(l, p)];
    more := ServeChild(builds, steps, more, l);
  }

  lemma ServeChild(builds: Launcher -> Identity, steps: seq<Step>, before: seq<Step>, l: Launcher) returns (more: seq<Step>)
    requires IsRun(builds, steps + before) && OrderlySince(builds, steps, before)
    requires var s := After(builds, steps + before);
             l in s.launchers && s.launchers[l].Polling? && DaemonOf(s, s.launchers[l].child).Starting? && s.daemonLock.None?
    ensures IsRun(builds, steps + more) && OrderlySince(builds, steps, more)
    ensures After(builds, steps + more) == var s := After(builds, steps + before);
              var p, restarted := s.launchers[l].child, s.launchers[l].restarted;
              State(s.launchers[l := Ensured(p, !restarted, restarted)], None, s.processes[p := s.processes[p].(daemon := Serving)],
                    Some(p), Some(p), s.served + [s.processes[p].build])
  {
    hide IsRun, After, OrderlySince;
    more := before;
    var p := After(builds, steps + before).launchers[l].child;
    GoOn(builds, steps, more, TryLock(p));  more := more + [TryLock(p)];
    GoOn(builds, steps, more, Publish(p));  more := more + [Publish(p)];
    GoOn(builds, steps, more, Answered(l)); more := more + [Answered(l)];
  }

  /** When nothing answers and nothing is being replaced, a build no newer than the last can serve. */
  lemma OlderServes(builds: Launcher -> Identity, steps: seq<Step>, k: Launcher, q: Pid) returns (more: seq<Step>)
    requires IsRun(builds, steps)
    requires Answering(After(builds, steps)).None? && forall l: Launcher :: !Unreplaced(After(builds, steps), builds, l)
    requires k !in After(builds, steps).launchers && q !in After(builds, steps).processes
    ensures IsRun(builds, steps + more) && OrderlySince(builds, steps, more)
    ensures After(builds, steps + more).served == After(builds, steps).served + [builds(k)]
  {
    hide IsRun, After, OrderlySince, Unreplaced;
    more := LetReturn(builds, steps);
    more := LetLockGo(builds, steps, more);
    more := StartOne(builds, steps, more, k, q);
  }

  /** An orderly run and a step that ends the daemon that serves, or leaves it unreplaced: orderly
      steps can follow in which any other launcher of a build no newer puts its own there. */
  lemma DeathLetsOlderServe(builds: Launcher -> Identity, steps: seq<Step>, step: Step, k: Launcher, q: Pid) returns (more: seq<Step>)
    requires IsRun(builds, steps) && Orderly(builds, steps)
    requires Enabled(After(builds, steps), builds, step) && Disturbs(After(builds, steps), builds, step)
    requires step.GoIdle? || step.Crash? || Unreplaced(After(builds, steps), builds, step.l)
    requires k !in After(builds, steps).launchers && q !in After(builds, steps).processes
    requires After(builds, steps).served != [] ==>
               builds(k).builtAt <= After(builds, steps).served[|After(builds, steps).served| - 1].builtAt
    ensures IsRun(builds, steps + [step] + more) && OrderlySince(builds, steps + [step], more)
    ensures !Increasing(After(builds, steps + [step] + more).served)
  {
    hide IsRun, After, OrderlySince;
    RunExtends(builds, steps, step);
    InvKept(builds, steps);
    OneDaemonKept(builds, steps);
    LaunchersKept(builds, steps);
    var s, t := After(builds, steps), After(builds, steps + [step]);
    DeathLeavesNothing(s, builds, step);
    more := OlderServes(builds, steps + [step], k, q);
    LastIsNotNewer(s.served, builds(k));
  }

  lemma LastIsNotNewer(served: seq<Identity>, b: Identity)
    requires served != [] && b.builtAt <= served[|served| - 1].builtAt
    ensures !Increasing(served + [b])
  {
    var longer := served + [b];
    assert longer[|served| - 1].builtAt >= longer[|served|].builtAt;
  }

  lemma DeathLeavesNothing(s: State, builds: Launcher -> Identity, step: Step)
    requires OneDaemonInv(s) && LauncherInv(s, builds) && Inv(s, builds)
    requires Enabled(s, builds, step) && Disturbs(s, builds, step)
    requires step.GoIdle? || step.Crash? || Unreplaced(s, builds, step.l)
    ensures s.served != [] && Apply(s, builds, step).served == s.served
    ensures Answering(Apply(s, builds, step)).None? && forall l: Launcher :: !Unreplaced(Apply(s, builds, step), builds, l)
    ensures Apply(s, builds, step).launchers.Keys == s.launchers.Keys && Apply(s, builds, step).processes.Keys == s.processes.Keys
  {
    var t := Apply(s, builds, step);
    forall l: Launcher ensures !Unreplaced(t, builds, l) {
      if In(t, l) && Active(t.launchers[l]) {
        assert s.startLock == Some(l);
      }
    }
  }

  /** A newer launcher replaces the daemon that serves, up to the point where its lock is free. */
  lemma Drain(builds: Launcher -> Identity, steps: seq<Step>, before: seq<Step>, l: Launcher) returns (more: seq<Step>)
    requires IsRun(builds, steps + before) && OrderlySince(builds, steps, before)
    requires var s := After(builds, steps + before);
             && l !in s.launchers && s.startLock.None? && Answering(s).Some? && s.daemonLock == Answering(s)
             && Compare(s.processes[Answering(s).value].build, builds(l)).Older?
    ensures IsRun(builds, steps + more) && OrderlySince(builds, steps, more)
    ensures After(builds, steps + more) == var s := After(builds, steps + before);
              var p := Answering(s).value;
              s.(launchers := s.launchers[l := Draining(p)], startLock := Some(l), daemonLock := None, info := None,
                 processes := s.processes[p := s.processes[p].(daemon := Exited(false))])
  {
    hide IsRun, After, OrderlySince, Compare;
    more := before;
    var p := Answering(After(builds, steps + before)).value;
    GoOn(builds, steps, more, Acquire(l));    more := more + [Acquire(l)];
    GoOn(builds, steps, more, Find(l));       more := more + [Find(l)];
    GoOn(builds, steps, more, FinishQuit(p)); more := more + [FinishQuit(p)];
  }

  /** The launcher puts its own daemon where the drained one was. */
  lemma Replace(builds: Launcher -> Identity, steps: seq<Step>, before: seq<Step>, l: Launcher, q: Pid) returns (more: seq<Step>)
    requires IsRun(builds, steps + before) && OrderlySince(builds, steps, before)
    requires var s := After(builds, steps + before);
             l in s.launchers && s.launchers[l].Draining? && s.daemonLock.None? && q !in s.processes
    ensures IsRun(builds, steps + more) && OrderlySince(builds, steps, more)
    ensures After(builds, steps + more) == var s := After(builds, steps + before);
              State(s.launchers[l := Ensured(q, false, true)], None, s.processes[q := Process(builds(l), Serving)],
                    Some(q), Some(q), s.served + [builds(l)])
  {
    hide IsRun, After, OrderlySince;
    more := before;
    GoOn(builds, steps, more, SeeGone(l));  more := more + [SeeGone(l)];
    GoOn(builds, steps, more, Spawn(l, q)); more := more + [Spawn(l, q)];
    more := ServeChild(builds, steps, more, l);
  }

  /** An older daemon can be replaced: from any run, a launcher that is next to start, of other
      source and built later than the daemon that answers, can come to its own build serving. */
  lemma OlderIsReplaced(builds: Launcher -> Identity, steps: seq<Step>, l: Launcher, q: Pid) returns (more: seq<Step>)
    requires IsRun(builds, steps) && Answering(After(builds, steps)).Some?
    requires l !in After(builds, steps).launchers && After(builds, steps).startLock.None? && q !in After(builds, steps).processes
    requires var daemon := After(builds, steps).processes[Answering(After(builds, steps)).value].build;
             daemon.stamp != builds(l).stamp && daemon.builtAt < builds(l).builtAt
    ensures IsRun(builds, steps + more) && OrderlySince(builds, steps, more)
    ensures var t := After(builds, steps + more);
            && l in t.launchers && t.launchers[l] == Ensured(q, false, true) && Answering(t) == Some(q)
            && t.processes[q].build == builds(l) && !Serves(t, Answering(After(builds, steps)).value)
  {
    hide IsRun, After, OrderlySince;
    OneDaemonKept(builds, steps);
    NothingSince(builds, steps);
    AnsweringHoldsLock(After(builds, steps));
    more := Drain(builds, steps, [], l);
    more := Replace(builds, steps, more, l, q);
  }

  /** A child left starting waits for its moment: when a newer daemon that came to serve after all
      is replaced in turn, the old child can take its place. */
  lemma OrphanSteals(builds: Launcher -> Identity, steps: seq<Step>, c: Pid, k: Launcher, k': Launcher, q: Pid) returns (more: seq<Step>)
    requires IsRun(builds, steps)
    requires var s := After(builds, steps);
             && s.startLock.None? && DaemonOf(s, c).Starting? && {k, k'} !! s.launchers.Keys && k != k' && q !in s.processes
             && (Answering(s).Some? ==> Compare(s.processes[Answering(s).value].build, builds(k)).Older?)
             && Compare(builds(k), builds(k')).Older?
             && s.processes[c].build.builtAt <= builds(k).builtAt
    ensures IsRun(builds, steps + more) && OrderlySince(builds, steps, more)
    ensures !Increasing(After(builds, steps + more).served)
  {
    hide IsRun, After, OrderlySince, Compare, Increasing;
    var s := After(builds, steps);
    OneDaemonKept(builds, steps);
    NothingSince(builds, steps);
    if Answering(s).Some? {
      AnsweringHoldsLock(s);
      more := Drain(builds, steps, [], k);
      more := Replace(builds, steps, more, k, q);
    } else {
      more := LetLockGo(builds, steps, []);
      more := StartOne(builds, steps, more, k, q);
    }
    var t := After(builds, steps + more);
    assert t.processes[c] == s.processes[c] && Answering(t) == Some(q);
    more := Drain(builds, steps, more, k');
    GoOn(builds, steps, more, TryLock(c)); more := more + [TryLock(c)];
    GoOn(builds, steps, more, Publish(c)); more := more + [Publish(c)];
    LastIsNotNewer(t.served, s.processes[c].build);
  }

  lemma AnsweringHoldsLock(s: State)
    requires OneDaemonInv(s) && Answering(s).Some?
    ensures s.daemonLock == Answering(s) && Answering(s).value in s.processes
  {
  }

  /** An orderly run and a step that leaves a child starting: orderly steps can follow in which that
      child serves after a daemon that is no older. Any two other launchers will do, the one at
      least as new as the child and newer than what serves, the other newer still. */
  lemma OrphanLetsOlderServe(builds: Launcher -> Identity, steps: seq<Step>, step: Step, k: Launcher, k': Launcher, q: Pid)
    returns (more: seq<Step>)
    requires IsRun(builds, steps) && Orderly(builds, steps)
    requires Enabled(After(builds, steps), builds, step)
    requires (step.Abandon? || step.Answered?) && ChildStarting(After(builds, steps), step.l)
    requires {k, k'} !! After(builds, steps).launchers.Keys && k != k' && q !in After(builds, steps).processes
    requires var s := After(builds, steps);
             && (s.served != [] ==> Compare(s.served[|s.served| - 1], builds(k)).Older?)
             && Compare(builds(k), builds(k')).Older? && builds(step.l).builtAt <= builds(k).builtAt
    ensures IsRun(builds, steps + [step] + more) && OrderlySince(builds, steps + [step], more)
    ensures !Increasing(After(builds, steps + [step] + more).served)
  {
    hide IsRun, After, OrderlySince, Compare, Increasing;
    RunExtends(builds, steps, step);
    InvKept(builds, steps);
    ChildIsOwn(builds, steps, step.l);
    more := OrphanSteals(builds, steps + [step], After(builds, steps).launchers[step.l].child, k, k', q);
  }
}
