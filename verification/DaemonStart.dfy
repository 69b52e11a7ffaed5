/** Starting, finding and replacing the daemon of a data root: launchers of different builds,
    a lock that lets one of them start at a time, and a lock that lets one daemon serve. */
module DaemonStart {
  import opened Text

  type Launcher = nat
  type Pid = nat

  /** Which build: the stamp names the source, `builtAt` orders builds. */
  datatype Identity = Identity(stamp: string, builtAt: nat)

  datatype Comparison = Same | Older | Newer

  /** What a launcher makes of the daemon it finds: keep it, replace it, or leave it be. */
  function Compare(daemon: Identity, caller: Identity): Comparison {
    if daemon.stamp == caller.stamp then Same
    else if daemon.builtAt < caller.builtAt then Older
    else Newer
  }

  /** Two builds never each find the other older: they cannot take turns. */
  lemma NeverBothOlder(a: Identity, b: Identity)
    ensures !(Compare(a, b).Older? && Compare(b, a).Older?)
    ensures Compare(a, b).Same? <==> Compare(b, a).Same?
  {
  }

  datatype Daemon = Starting | Locked | Serving | Quitting | Exited(killed: bool)

  datatype Process = Process(build: Identity, daemon: Daemon)

  /** Where a launcher is in `ensure_running_as`. */
  datatype Phase =
    | Holding
    | Draining(pid: Pid)
    | Ready(restarted: bool)
    | Polling(child: Pid, attempt: nat, restarted: bool)
    | Ensured(pid: Pid, started: bool, restarted: bool)
    | Refused
    | Failed

  /** `served` is the builds that have served, in order. */
  datatype State = State(
    launchers: map<Launcher, Phase>,
    startLock: Option<Launcher>,
    processes: map<Pid, Process>,
    daemonLock: Option<Pid>,
    info: Option<Pid>,
    served: seq<Identity>)

  const START := State(map[], None, map[], None, None, [])

  const START_ATTEMPTS: nat := 3

  datatype Step =
    | Acquire(l: Launcher)
    | Find(l: Launcher)
    /** Connecting fails, whether or not a daemon serves. */
    | Miss(l: Launcher)
    | SeeGone(l: Launcher)
    | Spawn(l: Launcher, pid: Pid)
    | Answered(l: Launcher)
    | SeeExit(l: Launcher, again: Pid)
    | GiveUp(l: Launcher)
    | TryLock(p: Pid)
    | Publish(p: Pid)
    | FinishQuit(p: Pid)
    | KilledAtStart(p: Pid)
    | FailToOpen(p: Pid)
    /** It goes idle, is asked to quit by a user, or crashes. */
    | GoIdle(p: Pid)
    | Crash(p: Pid, killed: bool)
    /** A launcher out of patience leaves its child starting. */
    | Abandon(l: Launcher)

  function DaemonOf(s: State, p: Pid): Daemon {
    if p in s.processes then s.processes[p].daemon else Exited(false)
  }

  /** The daemon that answers: the info file names it, and it serves. */
  function Answering(s: State): Option<Pid> {
    if s.info.Some? && DaemonOf(s, s.info.value).Serving? then s.info else None
  }

  predicate In(s: State, l: Launcher) {
    l in s.launchers
  }

  predicate Enabled(s: State, builds: Launcher -> Identity, step: Step) {
    match step
    case Acquire(l) => !In(s, l) && s.startLock.None?
    case Find(l) => In(s, l) && s.launchers[l].Holding?
    case Miss(l) => In(s, l) && s.launchers[l].Holding?
    case SeeGone(l) => In(s, l) && s.launchers[l].Draining? && s.daemonLock.None?
    case Spawn(l, p) => In(s, l) && s.launchers[l].Ready? && p !in s.processes
    case Answered(l) => In(s, l) && s.launchers[l].Polling? && Answering(s).Some?
    case SeeExit(l, again) =>
      && In(s, l) && s.launchers[l].Polling? && again !in s.processes
      && DaemonOf(s, s.launchers[l].child).Exited?
    case GiveUp(l) => In(s, l) && (s.launchers[l].Holding? || s.launchers[l].Draining? || s.launchers[l].Ready?)
    case TryLock(p) => DaemonOf(s, p).Starting?
    case Publish(p) => DaemonOf(s, p).Locked?
    case FinishQuit(p) => DaemonOf(s, p).Quitting?
    case KilledAtStart(p) => DaemonOf(s, p).Starting?
    case FailToOpen(p) => DaemonOf(s, p).Locked?
    case GoIdle(p) => DaemonOf(s, p).Serving?
    case Crash(p, _) => !DaemonOf(s, p).Exited?
    case Abandon(l) => In(s, l) && s.launchers[l].Polling?
  }

  function Became(s: State, p: Pid, daemon: Daemon): State
    requires p in s.processes
  {
    s.(processes := s.processes[p := s.processes[p].(daemon := daemon)])
  }

  function Released(s: State, p: Pid): State {
    if s.daemonLock == Some(p) then s.(daemonLock := None) else s
  }

  function Moved(s: State, l: Launcher, phase: Phase): State {
    s.(launchers := s.launchers[l := phase])
  }

  /** A launcher that returns lets the next one start. */
  function Returned(s: State, l: Launcher, phase: Phase): State {
    Moved(s, l, phase).(startLock := None)
  }

  function Spawned(s: State, l: Launcher, build: Identity, p: Pid, attempt: nat, restarted: bool): State {
    Moved(s, l, Polling(p, attempt, restarted)).(processes := s.processes[p := Process(build, Starting)])
  }

  function Apply(s: State, builds: Launcher -> Identity, step: Step): State
    requires Enabled(s, builds, step)
  {
    match step
    case Acquire(l) => Moved(s, l, Holding).(startLock := Some(l))
    case Find(l) =>
      var running := Answering(s);
      if running.None? then Moved(s, l, Ready(false))
      else
        var p := running.value;
        (match Compare(s.processes[p].build, builds(l))
         case Same => Returned(s, l, Ensured(p, false, false))
         case Newer => Returned(s, l, Refused)
         case Older => Moved(Became(s, p, Quitting), l, Draining(p)))
    case Miss(l) => Moved(s, l, Ready(false))
    case SeeGone(l) => Moved(s, l, Ready(true))
    case Spawn(l, p) => Spawned(s, l, builds(l), p, 1, s.launchers[l].restarted)
    case Answered(l) => Returned(s, l, Ensured(Answering(s).value, !s.launchers[l].restarted, s.launchers[l].restarted))
    case SeeExit(l, again) =>
      var phase := s.launchers[l];
      if DaemonOf(s, phase.child).killed && phase.attempt < START_ATTEMPTS then
        Spawned(s, l, builds(l), again, phase.attempt + 1, phase.restarted)
      else Returned(s, l, Failed)
    case GiveUp(l) => Returned(s, l, Failed)
    case TryLock(p) =>
      if s.daemonLock.None? then Became(s, p, Locked).(daemonLock := Some(p)) else Became(s, p, Exited(false))
    case Publish(p) => Became(s, p, Serving).(info := Some(p), served := s.served + [s.processes[p].build])
    case FinishQuit(p) => Released(Became(s, p, Exited(false)), p).(info := None)
    case KilledAtStart(p) => Became(s, p, Exited(true))
    case FailToOpen(p) => Released(Became(s, p, Exited(false)), p)
    case GoIdle(p) => Became(s, p, Quitting)
    case Crash(p, killed) => Released(Became(s, p, Exited(killed)), p)
    case Abandon(l) => Returned(s, l, Failed)
  }

  predicate IsRun(builds: Launcher -> Identity, steps: seq<Step>)
    decreases |steps|, 0
  {
    steps == [] ||
    (IsRun(builds, steps[..|steps| - 1]) && Enabled(After(builds, steps[..|steps| - 1]), builds, steps[|steps| - 1]))
  }

  function After(builds: Launcher -> Identity, steps: seq<Step>): State
    requires IsRun(builds, steps)
    decreases |steps|, 1
  {
    if steps == [] then START else Apply(After(builds, steps[..|steps| - 1]), builds, steps[|steps| - 1])
  }

  // ---- One daemon -------------------------------------------------------------------------

  predicate HoldsLock(d: Daemon) {
    d.Locked? || d.Serving? || d.Quitting?
  }

  ghost predicate OneDaemonInv(s: State) {
    && (forall p :: p in s.processes ==> (HoldsLock(s.processes[p].daemon) <==> s.daemonLock == Some(p)))
    && (s.daemonLock.Some? ==> s.daemonLock.value in s.processes)
    && (forall p :: p in s.processes && s.processes[p].daemon.Serving? ==> s.info == Some(p))
  }

  lemma StepKeepsOneDaemon(s: State, builds: Launcher -> Identity, step: Step)
    requires OneDaemonInv(s) && Enabled(s, builds, step)
    ensures OneDaemonInv(Apply(s, builds, step))
  {
  }

  lemma {:induction false} OneDaemonKept(builds: Launcher -> Identity, steps: seq<Step>)
    requires IsRun(builds, steps)
    ensures OneDaemonInv(After(builds, steps))
  {
    hide OneDaemonInv;
    if steps == [] {
      StartHasOneDaemon();
    } else {
      OneDaemonKept(builds, steps[..|steps| - 1]);
      StepKeepsOneDaemon(After(builds, steps[..|steps| - 1]), builds, steps[|steps| - 1]);
    }
  }

  lemma StartHasOneDaemon()
    ensures OneDaemonInv(START)
  {
  }

  predicate Serves(s: State, p: Pid) {
    DaemonOf(s, p).Serving?
  }

  /** Over any interleaving of launchers, deaths and abandoned children: at most one daemon is
      past its lock, and the one that serves is the one the info file names. */
  lemma {:induction false} AtMostOneServes(builds: Launcher -> Identity, steps: seq<Step>)
    requires IsRun(builds, steps)
    ensures var s := After(builds, steps);
            && (forall p, q :: HoldsLock(DaemonOf(s, p)) && HoldsLock(DaemonOf(s, q)) ==> p == q)
            && (forall p: Pid :: Serves(s, p) <==> Answering(s) == Some(p))
  {
    OneDaemonKept(builds, steps);
  }

  // ---- The caller's own build -------------------------------------------------------------

  predicate Active(phase: Phase) {
    phase.Holding? || phase.Draining? || phase.Ready? || phase.Polling?
  }

  predicate Fresh(d: Daemon) {
    d.Starting? || d.Locked?
  }

  /** The launcher that holds the start lock, waiting for `p` to serve. */
  predicate WaitsFor(s: State, l: Launcher, p: Pid) {
    In(s, l) && s.launchers[l].Polling? && s.launchers[l].child == p
  }

  /** No launcher gives up on a child that may still come to serve, nor misses a daemon that does. */
  predicate Careful(s: State, step: Step) {
    match step
    case Abandon(l) => In(s, l) && s.launchers[l].Polling? ==> !Fresh(DaemonOf(s, s.launchers[l].child))
    case Miss(_) => Answering(s).None?
    case _ => true
  }

  ghost predicate AlwaysCareful(builds: Launcher -> Identity, steps: seq<Step>)
    requires IsRun(builds, steps)
  {
    steps == [] ||
    (AlwaysCareful(builds, steps[..|steps| - 1]) && Careful(After(builds, steps[..|steps| - 1]), steps[|steps| - 1]))
  }

  /** Of all runs: the launcher at work is the one with the start lock, and a child is of its
      launcher's build. */
  ghost predicate LauncherInv(s: State, builds: Launcher -> Identity) {
    && (forall l :: In(s, l) && Active(s.launchers[l]) <==> s.startLock == Some(l))
    && (forall l, p :: WaitsFor(s, l, p) ==> p in s.processes && s.processes[p].build == builds(l))
  }

  ghost predicate OwnBuildInv(s: State, builds: Launcher -> Identity) {
    && (forall p :: p in s.processes && Fresh(s.processes[p].daemon) ==> s.startLock.Some? && WaitsFor(s, s.startLock.value, p))
    && (forall p :: Serves(s, p) && s.startLock.Some? ==>
          s.startLock.value in s.launchers && (s.launchers[s.startLock.value].Holding? || WaitsFor(s, s.startLock.value, p)))
    && (forall l :: In(s, l) && s.launchers[l].Ensured? ==>
          s.launchers[l].pid in s.processes && s.processes[s.launchers[l].pid].build.stamp == builds(l).stamp)
  }

  predicate OfDaemon(step: Step) {
    step.TryLock? || step.Publish? || step.FinishQuit? || step.KilledAtStart? || step.FailToOpen? || step.GoIdle? || step.Crash?
  }

  /** A daemon's step leaves the launchers alone; none becomes fresh, and one that comes to serve
      was fresh. */
  ghost predicate OnlyDaemons(s: State, t: State) {
    && t.launchers == s.launchers && t.startLock == s.startLock && t.processes.Keys == s.processes.Keys
    && (forall p :: p in s.processes ==> t.processes[p].build == s.processes[p].build)
    && (forall p :: p in s.processes && Fresh(t.processes[p].daemon) ==> Fresh(s.processes[p].daemon))
    && (forall p :: p in s.processes && t.processes[p].daemon.Serving? ==>
          s.processes[p].daemon.Serving? || Fresh(s.processes[p].daemon))
  }

  lemma DaemonStepEffect(s: State, builds: Launcher -> Identity, step: Step)
    requires Enabled(s, builds, step) && OfDaemon(step)
    ensures OnlyDaemons(s, Apply(s, builds, step))
  {
    hide Compare, Answering;
    var t, p := Apply(s, builds, step), step.p;
    assert t.processes == s.processes[p := s.processes[p].(daemon := t.processes[p].daemon)];
  }

  lemma OnlyDaemonsKeepsInvs(s: State, t: State, builds: Launcher -> Identity)
    requires LauncherInv(s, builds) && OnlyDaemons(s, t)
    ensures LauncherInv(t, builds)
    ensures OwnBuildInv(s, builds) ==> OwnBuildInv(t, builds)
  {
    forall l: Launcher, p: Pid ensures WaitsFor(t, l, p) <==> WaitsFor(s, l, p) {
    }
  }

  lemma LauncherStepKeepsLaunchers(s: State, builds: Launcher -> Identity, step: Step)
    requires LauncherInv(s, builds) && Enabled(s, builds, step) && !OfDaemon(step)
    ensures LauncherInv(Apply(s, builds, step), builds)
  {
    hide Compare, Answering;
    var t := Apply(s, builds, step);
    forall k: Launcher, p: Pid | k != step.l ensures WaitsFor(t, k, p) <==> WaitsFor(s, k, p) {
    }
  }

  lemma {:induction false} LaunchersKept(builds: Launcher -> Identity, steps: seq<Step>)
    requires IsRun(builds, steps)
    ensures LauncherInv(After(builds, steps), builds)
  {
    hide LauncherInv, OwnBuildInv;
    if steps == [] {
      StartHasInvs(builds);
    } else {
      var s, step := After(builds, steps[..|steps| - 1]), steps[|steps| - 1];
      LaunchersKept(builds, steps[..|steps| - 1]);
      if OfDaemon(step) {
        DaemonStepEffect(s, builds, step);
        OnlyDaemonsKeepsInvs(s, Apply(s, builds, step), builds);
      } else {
        LauncherStepKeepsLaunchers(s, builds, step);
      }
    }
  }

  /** What a launcher does about the daemon it finds, by stamps and build times: it returns one of
      its own source, starts to drain one that was built before it was, and leaves any other. */
  lemma {:induction false} FindGoesByBuildTime(builds: Launcher -> Identity, steps: seq<Step>, l: Launcher)
    requires IsRun(builds, steps) && Enabled(After(builds, steps), builds, Find(l)) && Answering(After(builds, steps)).Some?
    ensures var s := After(builds, steps);
            var t, p, me := Apply(s, builds, Find(l)), Answering(s).value, builds(l);
            var daemon := s.processes[p].build;
            && (t.launchers[l] == Ensured(p, false, false) <==> daemon.stamp == me.stamp)
            && (t.launchers[l] == Draining(p) <==> daemon.stamp != me.stamp && daemon.builtAt < me.builtAt)
            && (t.launchers[l] == Refused <==> daemon.stamp != me.stamp && daemon.builtAt >= me.builtAt)
            && (t.processes[p].daemon.Quitting? <==> t.launchers[l] == Draining(p))
            && (t.startLock == Some(l) <==> t.launchers[l] == Draining(p))
  {
    LaunchersKept(builds, steps);
    var s, t := After(builds, steps), Apply(After(builds, steps), builds, Find(l));
    assert s.startLock == Some(l) && Serves(s, Answering(s).value);
  }

  lemma StartHasInvs(builds: Launcher -> Identity)
    ensures LauncherInv(START, builds) && OwnBuildInv(START, builds)
  {
  }

  lemma FindKeepsOwnBuild(s: State, builds: Launcher -> Identity, step: Step)
    requires OneDaemonInv(s) && LauncherInv(s, builds) && OwnBuildInv(s, builds)
    requires Enabled(s, builds, step) && Careful(s, step) && (step.Find? || step.Miss?)
    ensures OwnBuildInv(Apply(s, builds, step), builds)
  {
    assert s.startLock == Some(step.l);
  }

  lemma SpawnKeepsOwnBuild(s: State, builds: Launcher -> Identity, l: Launcher, p: Pid, attempt: nat, restarted: bool)
    requires LauncherInv(s, builds) && OwnBuildInv(s, builds) && p !in s.processes && In(s, l)
    requires s.launchers[l].Ready? || (s.launchers[l].Polling? && DaemonOf(s, s.launchers[l].child).Exited?)
    ensures OwnBuildInv(Spawned(s, l, builds(l), p, attempt, restarted), builds)
  {
    var t := Spawned(s, l, builds(l), p, attempt, restarted);
    assert s.startLock == Some(l);
    forall q: Pid ensures !Serves(t, q) {
      assert Serves(s, q) ==> WaitsFor(s, l, q);
    }
  }

  lemma ReturnKeepsOwnBuild(s: State, builds: Launcher -> Identity, l: Launcher, phase: Phase)
    requires LauncherInv(s, builds) && OwnBuildInv(s, builds) && In(s, l) && Active(s.launchers[l]) && !Active(phase)
    requires forall p: Pid :: WaitsFor(s, l, p) ==> !Fresh(DaemonOf(s, p))
    requires phase.Ensured? ==> WaitsFor(s, l, phase.pid)
    ensures OwnBuildInv(Returned(s, l, phase), builds)
  {
    var t := Returned(s, l, phase);
    assert s.startLock == Some(l);
    forall k: Launcher, p: Pid ensures WaitsFor(t, k, p) <==> k != l && WaitsFor(s, k, p) {
    }
  }

  lemma AcquireKeepsOwnBuild(s: State, builds: Launcher -> Identity, step: Step)
    requires LauncherInv(s, builds) && OwnBuildInv(s, builds) && OneDaemonInv(s)
    requires Enabled(s, builds, step) && (step.Acquire? || step.SeeGone?)
    ensures OwnBuildInv(Apply(s, builds, step), builds)
  {
    var t := Apply(s, builds, step);
    forall k: Launcher, p: Pid ensures WaitsFor(t, k, p) <==> WaitsFor(s, k, p) {
    }
  }

  lemma StepKeepsOwnBuild(s: State, builds: Launcher -> Identity, step: Step)
    requires OneDaemonInv(s) && LauncherInv(s, builds) && OwnBuildInv(s, builds)
    requires Enabled(s, builds, step) && Careful(s, step)
    ensures OwnBuildInv(Apply(s, builds, step), builds)
  {
    hide OwnBuildInv, OneDaemonInv;
    if OfDaemon(step) {
      DaemonStepEffect(s, builds, step);
      OnlyDaemonsKeepsInvs(s, Apply(s, builds, step), builds);
    } else {
      match step
      case Find(l) => FindKeepsOwnBuild(s, builds, step);
      case Miss(l) => FindKeepsOwnBuild(s, builds, step);
      case Acquire(_) => AcquireKeepsOwnBuild(s, builds, step);
      case SeeGone(_) => AcquireKeepsOwnBuild(s, builds, step);
      case Spawn(l, p) => SpawnKeepsOwnBuild(s, builds, l, p, 1, s.launchers[l].restarted);
      case Answered(l) =>
        AnsweredByChild(s, builds, l);
        ReturnKeepsOwnBuild(s, builds, l, Apply(s, builds, step).launchers[l]);
      case SeeExit(l, again) =>
        var phase := s.launchers[l];
        if DaemonOf(s, phase.child).killed && phase.attempt < START_ATTEMPTS {
          SpawnKeepsOwnBuild(s, builds, l, again, phase.attempt + 1, phase.restarted);
        } else {
          ReturnKeepsOwnBuild(s, builds, l, Failed);
        }
      case GiveUp(l) => ReturnKeepsOwnBuild(s, builds, l, Failed);
      case Abandon(l) => ReturnKeepsOwnBuild(s, builds, l, Failed);
    }
  }

  lemma AnsweredByChild(s: State, builds: Launcher -> Identity, l: Launcher)
    requires LauncherInv(s, builds) && OwnBuildInv(s, builds) && Enabled(s, builds, Answered(l))
    ensures WaitsFor(s, l, Answering(s).value) && !Fresh(DaemonOf(s, Answering(s).value))
  {
    assert Serves(s, Answering(s).value) && s.startLock == Some(l);
  }

  lemma {:induction false} OwnBuildKept(builds: Launcher -> Identity, steps: seq<Step>)
    requires IsRun(builds, steps) && AlwaysCareful(builds, steps)
    ensures OwnBuildInv(After(builds, steps), builds)
  {
    hide OwnBuildInv, OneDaemonInv, LauncherInv;
    if steps == [] {
      StartHasInvs(builds);
    } else {
      var before := steps[..|steps| - 1];
      OwnBuildKept(builds, before);
      OneDaemonKept(builds, before);
      LaunchersKept(builds, before);
      StepKeepsOwnBuild(After(builds, before), builds, steps[|steps| - 1]);
    }
  }

  /** The launcher was given a daemon of a stamp that is not its own. */
  predicate GivenForeign(s: State, builds: Launcher -> Identity, l: Launcher) {
    && In(s, l) && s.launchers[l].Ensured? && s.launchers[l].pid in s.processes
    && s.processes[s.launchers[l].pid].build.stamp != builds(l).stamp
  }

  /** In a careful run each launcher that returned a daemon was given one of its own build, and as
      it returned, that daemon served. */
  lemma {:induction false} OkMeansOwnBuild(builds: Launcher -> Identity, steps: seq<Step>, l: Launcher)
    requires IsRun(builds, steps) && AlwaysCareful(builds, steps)
    ensures var s := After(builds, steps);
            In(s, l) && s.launchers[l].Ensured? ==>
              s.launchers[l].pid in s.processes && s.processes[s.launchers[l].pid].build.stamp == builds(l).stamp
    ensures steps != [] && steps[|steps| - 1] in {Answered(l), Find(l)} && After(builds, steps).launchers[l].Ensured? ==>
              Answering(After(builds, steps)) == Some(After(builds, steps).launchers[l].pid)
  {
    OwnBuildKept(builds, steps);
  }

  lemma {:induction false} RunExtends(builds: Launcher -> Identity, steps: seq<Step>, step: Step)
    requires IsRun(builds, steps) && Enabled(After(builds, steps), builds, step)
    ensures IsRun(builds, steps + [step]) && After(builds, steps + [step]) == Apply(After(builds, steps), builds, step)
  {
    assert (steps + [step])[..|steps|] == steps;
  }

  lemma NothingRan(builds: Launcher -> Identity)
    ensures IsRun(builds, []) && After(builds, []) == START
  {
  }

  // ---- What is started again ----------------------------------------------------------------

  predicate WasKilled(steps: seq<Step>, p: Pid) {
    KilledAtStart(p) in steps || Crash(p, true) in steps
  }

  /** A daemon that is over was killed exactly when a step of the run killed it: one turned away by
      the lock, one that could not open, and one that quit, were not. */
  lemma {:induction false} KilledAreKnown(builds: Launcher -> Identity, steps: seq<Step>, p: Pid)
    requires IsRun(builds, steps)
    ensures var d := DaemonOf(After(builds, steps), p); if d.Exited? then d.killed <==> WasKilled(steps, p) else !WasKilled(steps, p)
  {
    hide Enabled, Apply;
    if steps == [] {
      assert DaemonOf(START, p) == Exited(false);
    } else {
      var before, step := steps[..|steps| - 1], steps[|steps| - 1];
      KilledAreKnown(builds, before, p);
      assert steps == before + [step];
      KilledStep(After(builds, before), builds, step, p);
    }
  }

  lemma KilledStep(s: State, builds: Launcher -> Identity, step: Step, p: Pid)
    requires Enabled(s, builds, step)
    ensures var was, now := DaemonOf(s, p), DaemonOf(Apply(s, builds, step), p);
            && (step == KilledAtStart(p) || step == Crash(p, true) ==> !was.Exited? && now == Exited(true))
            && (step != KilledAtStart(p) && step != Crash(p, true) ==>
                  now == was || now == Exited(false) || (!now.Exited? && (!was.Exited? || p !in s.processes)))
            && (was.Exited? && p in s.processes ==> now == was)
  {
    hide Compare;
  }

  /** A launcher whose child is over starts another exactly when the child was killed and it has
      started fewer than three; else it fails. */
  lemma {:induction false} OnlyKilledIsRetried(builds: Launcher -> Identity, steps: seq<Step>, l: Launcher, again: Pid)
    requires IsRun(builds, steps) && Enabled(After(builds, steps), builds, SeeExit(l, again))
    ensures var s := After(builds, steps);
            var was, now := s.launchers[l], Apply(s, builds, SeeExit(l, again)).launchers[l];
            if WasKilled(steps, was.child) && was.attempt < 3 then now == Polling(again, was.attempt + 1, was.restarted) else now == Failed
  {
    KilledAreKnown(builds, steps, After(builds, steps).launchers[l].child);
  }

  // ---- Care is needed ----------------------------------------------------------------------

  /** Neither an `Abandon` nor a `Miss`: careful wherever it is taken. */
  predicate Harmless(steps: seq<Step>) {
    forall step :: step in steps ==> !step.Abandon? && !step.Miss?
  }

  lemma {:induction false} Extends(builds: Launcher -> Identity, steps: seq<Step>, more: seq<Step>, step: Step)
    requires IsRun(builds, steps + more) && Harmless(more)
    requires Enabled(After(builds, steps + more), builds, step) && !step.Abandon? && !step.Miss?
    ensures IsRun(builds, steps + (more + [step])) && Harmless(more + [step])
    ensures After(builds, steps + (more + [step])) == Apply(After(builds, steps + more), builds, step)
  {
    RunExtends(builds, steps + more, step);
    assert steps + (more + [step]) == steps + more + [step];
  }

  /** Whoever holds the daemon lock, it can become free, with nothing answering, while a child
      that has still to try it waits. */
  lemma FreeLock(builds: Launcher -> Identity, steps: seq<Step>) returns (more: seq<Step>)
    requires IsRun(builds, steps)
    ensures IsRun(builds, steps + more) && Harmless(more)
    ensures var s, t := After(builds, steps), After(builds, steps + more);
            && t.launchers == s.launchers && t.startLock == s.startLock && t.served == s.served
            && t.processes.Keys == s.processes.Keys && t.daemonLock.None? && Answering(t).None?
            && (forall p :: p in s.processes && s.daemonLock != Some(p) ==> t.processes[p] == s.processes[p])
  {
    hide IsRun, After;
    OneDaemonKept(builds, steps);
    var s := After(builds, steps);
    assert steps + [] == steps;
    more := [];
    if s.daemonLock.Some? {
      Extends(builds, steps, more, Crash(s.daemonLock.value, false));
      more := more + [Crash(s.daemonLock.value, false)];
    }
  }

  /** A launcher finds nothing and spawns a child. */
  lemma SpawnAlone(builds: Launcher -> Identity, steps: seq<Step>, before: seq<Step>, l: Launcher, p: Pid) returns (more: seq<Step>)
    requires IsRun(builds, steps + before) && Harmless(before)
    requires var s := After(builds, steps + before);
             l !in s.launchers && s.startLock.None? && Answering(s).None? && p !in s.processes
    ensures IsRun(builds, steps + more) && Harmless(more)
    ensures After(builds, steps + more) == var s := After(builds, steps + before);
              s.(launchers := s.launchers[l := Polling(p, 1, false)], startLock := Some(l),
                 processes := s.processes[p := Process(builds(l), Starting)])
  {
    hide IsRun, After;
    more := before;
    Extends(builds, steps, more, Acquire(l));  more := more + [Acquire(l)];
    Extends(builds, steps, more, Find(l));     more := more + [Find(l)];
    Extends(builds, steps, more, Spawn(l, p)); more := more + [Spawn(l, p)];
  }

  /** A child nobody keeps from its lock comes to serve, and answers the launcher that polls. */
  lemma ServeAlone(builds: Launcher -> Identity, steps: seq<Step>, before: seq<Step>, l: Launcher, p: Pid) returns (more: seq<Step>)
    requires IsRun(builds, steps + before) && Harmless(before)
    requires var s := After(builds, steps + before);
             && l in s.launchers && s.launchers[l].Polling? && p in s.processes
             && (s.processes[p].daemon.Locked? || (s.processes[p].daemon.Starting? && s.daemonLock.None?))
    ensures IsRun(builds, steps + more) && Harmless(more)
    ensures var s, t := After(builds, steps + before), After(builds, steps + more);
            && t.launchers == s.launchers[l := Ensured(p, !s.launchers[l].restarted, s.launchers[l].restarted)]
            && t.processes == s.processes[p := Process(s.processes[p].build, Serving)]
            && t.startLock.None? && t.info == Some(p) && t.served == s.served + [s.processes[p].build]
  {
    hide IsRun, After;
    more := before;
    var s := After(builds, steps + before);
    if s.processes[p].daemon.Starting? {
      Extends(builds, steps, more, TryLock(p));  more := more + [TryLock(p)];
    }
    Extends(builds, steps, more, Publish(p));  more := more + [Publish(p)];
    Extends(builds, steps, more, Answered(l)); more := more + [Answered(l)];
  }

  /** A child its launcher left fresh can answer any other launcher. */
  lemma OrphanAnswers(builds: Launcher -> Identity, steps: seq<Step>, c: Pid, k: Launcher, q: Pid) returns (more: seq<Step>)
    requires IsRun(builds, steps)
    requires var s := After(builds, steps);
             && s.startLock.None? && c in s.processes && Fresh(s.processes[c].daemon)
             && k !in s.launchers && q !in s.processes
    ensures IsRun(builds, steps + more) && Harmless(more)
    ensures var s, t := After(builds, steps), After(builds, steps + more);
            && t.launchers == s.launchers[k := Ensured(c, true, false)]
            && c in t.processes && t.processes[c].build == s.processes[c].build
  {
    hide IsRun, After;
    OneDaemonKept(builds, steps);
    var s := After(builds, steps);
    more := [];
    assert steps + [] == steps;
    if s.daemonLock != Some(c) {
      more := FreeLock(builds, steps);
    }
    more := SpawnAlone(builds, steps, more, k, q);
    more := ServeAlone(builds, steps, more, k, c);
  }

  /** What a launcher that missed a daemon can be given is that daemon, whatever its build. */
  lemma {:induction false} MissedDaemonAnswers(builds: Launcher -> Identity, steps: seq<Step>, l: Launcher, q: Pid)
    requires IsRun(builds, steps) && Enabled(After(builds, steps), builds, Miss(l))
    requires Answering(After(builds, steps)).Some? && q !in After(builds, steps).processes
    ensures var s, more := After(builds, steps), [Miss(l), Spawn(l, q), Answered(l)];
            && IsRun(builds, steps + more)
            && var t := After(builds, steps + more);
               && t == s.(launchers := s.launchers[l := Ensured(Answering(s).value, true, false)], startLock := None,
                          processes := s.processes[q := Process(builds(l), Starting)])
  {
    hide IsRun, After;
    RunExtends(builds, steps, Miss(l));
    RunExtends(builds, steps + [Miss(l)], Spawn(l, q));
    RunExtends(builds, steps + [Miss(l)] + [Spawn(l, q)], Answered(l));
    assert steps + [Miss(l)] + [Spawn(l, q)] + [Answered(l)] == steps + [Miss(l), Spawn(l, q), Answered(l)];
  }

  /** Care is exactly what is needed: from any run, the first step without it can be followed by
      steps with it so that a launcher of another build is given a foreign daemon. */
  lemma CarelessnessGivesForeign(builds: Launcher -> Identity, steps: seq<Step>, step: Step, k: Launcher, q: Pid, q': Pid)
    returns (more: seq<Step>)
    requires IsRun(builds, steps) && Enabled(After(builds, steps), builds, step) && !Careful(After(builds, steps), step)
    requires k !in After(builds, steps).launchers && builds(k).stamp != builds(step.l).stamp
    requires q !in After(builds, steps).processes && q' !in After(builds, steps).processes && q != q'
    ensures IsRun(builds, steps + [step] + more) && Harmless(more)
    ensures GivenForeign(After(builds, steps + [step] + more), builds, k)
  {
    hide IsRun, After, LauncherInv;
    var s, l := After(builds, steps), step.l;
    RunExtends(builds, steps, step);
    if step.Abandon? {
      var c := s.launchers[l].child;
      ChildIsOwn(builds, steps, l);
      more := OrphanAnswers(builds, steps + [step], c, k, q);
    } else {
      MissedDaemonAnswers(builds, steps, l, q);
      var head := [Miss(l), Spawn(l, q), Answered(l)];
      more := OrphanAnswers(builds, steps + head, q, k, q');
      assert steps + [step] + ([Spawn(l, q), Answered(l)] + more) == steps + head + more;
      more := [Spawn(l, q), Answered(l)] + more;
    }
  }

  lemma {:induction false} ChildIsOwn(builds: Launcher -> Identity, steps: seq<Step>, l: Launcher)
    requires IsRun(builds, steps)
    requires In(After(builds, steps), l) && After(builds, steps).launchers[l].Polling?
    ensures After(builds, steps).launchers[l].child in After(builds, steps).processes
    ensures After(builds, steps).processes[After(builds, steps).launchers[l].child].build == builds(l)
  {
    LaunchersKept(builds, steps);
    var s := After(builds, steps);
    assert WaitsFor(s, l, s.launchers[l].child);
  }

  // ---- What a launcher is told ------------------------------------------------------------

  predicate HasSpawned(steps: seq<Step>, l: Launcher) {
    exists step :: step in steps && step.Spawn? && step.l == l
  }

  predicate TellsWhatItDid(steps: seq<Step>, s: State, l: Launcher) {
    if !In(s, l) then !HasSpawned(steps, l) && SeeGone(l) !in steps
    else
      match s.launchers[l]
      case Ready(restarted) => !HasSpawned(steps, l) && (restarted <==> SeeGone(l) in steps)
      case Polling(_, _, restarted) => HasSpawned(steps, l) && (restarted <==> SeeGone(l) in steps)
      case Ensured(_, started, restarted) =>
        (restarted <==> SeeGone(l) in steps) && (started <==> HasSpawned(steps, l) && SeeGone(l) !in steps)
      case Failed => true
      case _ => !HasSpawned(steps, l) && SeeGone(l) !in steps
  }

  /** A launcher that returned with a daemon says `restarted` exactly when it saw an older one go,
      and `started` exactly when it started one where none was. */
  lemma {:induction false} ToldWhatItDid(builds: Launcher -> Identity, steps: seq<Step>, l: Launcher)
    requires IsRun(builds, steps)
    ensures TellsWhatItDid(steps, After(builds, steps), l)
  {
    hide Enabled, Apply;
    if steps != [] {
      var before, step := steps[..|steps| - 1], steps[|steps| - 1];
      ToldWhatItDid(builds, before, l);
      assert steps == before + [step];
      assert HasSpawned(steps, l) <==> HasSpawned(before, l) || (step.Spawn? && step.l == l);
      ToldStep(After(builds, before), builds, before, step, l);
    }
  }

  lemma ToldStep(s: State, builds: Launcher -> Identity, before: seq<Step>, step: Step, l: Launcher)
    requires Enabled(s, builds, step) && TellsWhatItDid(before, s, l)
    requires HasSpawned(before + [step], l) <==> HasSpawned(before, l) || (step.Spawn? && step.l == l)
    ensures TellsWhatItDid(before + [step], Apply(s, builds, step), l)
  {
    hide Compare, HasSpawned;
    assert SeeGone(l) in before + [step] <==> SeeGone(l) in before || step == SeeGone(l);
  }
}
