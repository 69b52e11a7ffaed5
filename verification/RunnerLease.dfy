/** One node's slot in every interleaving of starts, ticks, reconciling and a run's events. */
module RunnerLease {
  import opened Text
  import opened Runners

  type CallId = nat

  /** A call of `start`, between its sections. */
  datatype Call =
    | Asked
    | Checked
    | Refused
    | AlreadyBusy
    | Spawning
    | Spawned(run: RunId)
    | StoredIt(run: RunId)
    | FailedIt

  /** A run's thread: at work, its last event delivered, or over. `early`: the last event came
      before the start that spawned the run had stored it. */
  datatype Thread = Alive | Told(early: bool) | Over(early: bool) | Died

  datatype State = State(slot: Slot, calls: map<CallId, Call>, threads: map<RunId, Thread>, looking: bool)

  const START := State(EMPTY, map[], map[], false)

  datatype Step =
    | ClientAsks(call: CallId)
    | DueAsks(call: CallId, now: int)
    | ReconcilerAsks(call: CallId, standing: Option<Actor>, leases: seq<Lease>)
    | FindPlace(call: CallId, place: Result<Place, string>)
    | Begin(call: CallId)
    | SpawnOk(call: CallId, run: RunId)
    | SpawnFailed(call: CallId, error: string)
    | Store(call: CallId, now: int)
    | TellLive(run: RunId, live: string)
    | TellFinished(run: RunId, result: Result<Outcome, string>)
    | ThreadEnds(run: RunId)
    | ThreadPanics(run: RunId)
    | AskPause
    | AskStop
    | SelectRequest
    | Look(call: CallId, waiting: bool)
    /** The reconciler's plan and act as one step. */
    | ReportMoved(standing: Option<Actor>, leases: seq<Lease>)
    | ReportUncleared(standing: Option<Actor>, leases: seq<Lease>)
    | TakeDead
    /** Its plan acted on late: the slot is not what it was planned for. */
    | ReportLate(error: string)

  function IsOver(s: State): set<RunId> {
    set r | r in s.threads && (s.threads[r].Over? || s.threads[r].Died?)
  }

  function Decided(s: State, place: Place, standing: Option<Actor>, leases: seq<Lease>): Option<Action> {
    Decide(ViewOf(s.slot, place, IsOver(s)), standing, leases)
  }

  predicate Enabled(s: State, step: Step) {
    match step
    case ClientAsks(c) => c !in s.calls
    case DueAsks(c, now) => c !in s.calls && Due(s.slot, now)
    case ReconcilerAsks(c, standing, leases) =>
      var action := Decided(s, Local, standing, leases);
      c !in s.calls && action.Some? && action.value.Start?
    case FindPlace(c, _) => c in s.calls && s.calls[c].Asked?
    case Begin(c) => c in s.calls && s.calls[c].Checked?
    case SpawnOk(c, r) => c in s.calls && s.calls[c].Spawning? && r !in s.threads
    case SpawnFailed(c, _) => c in s.calls && s.calls[c].Spawning?
    case Store(c, _) => c in s.calls && s.calls[c].Spawned?
    case TellLive(r, _) => r in s.threads && s.threads[r].Alive?
    case TellFinished(r, _) => r in s.threads && s.threads[r].Alive?
    case ThreadEnds(r) => r in s.threads && s.threads[r].Told?
    case ThreadPanics(r) => r in s.threads && s.threads[r].Alive?
    case AskPause => true
    case AskStop => true
    case SelectRequest => OnRequest(s.slot)
    case Look(c, _) => s.looking && c !in s.calls
    case ReportMoved(standing, leases) => Decided(s, Supervisor, standing, leases) == Some(MovedToSandbox)
    case ReportUncleared(standing, leases) =>
      var action := Decided(s, Local, standing, leases);
      action.Some? && action.value.Start? && action.value.lost.Some?
    case TakeDead => true
    case ReportLate(_) => true
  }

  function Apply(s: State, step: Step): State
    requires Enabled(s, step)
  {
    match step
    case ClientAsks(c) => s.(calls := s.calls[c := Asked])
    case DueAsks(c, _) => s.(calls := s.calls[c := Asked])
    case ReconcilerAsks(c, _, _) => s.(calls := s.calls[c := Asked])
    case FindPlace(c, place) => s.(calls := s.calls[c := if place == Ok(Local) then Checked else Refused])
    case Begin(c) =>
      if Busy(s.slot) then s.(slot := s.slot.(desired := Run), calls := s.calls[c := AlreadyBusy])
      else s.(slot := Begun(s.slot), calls := s.calls[c := Spawning])
    case SpawnOk(c, r) => s.(calls := s.calls[c := Spawned(r)], threads := s.threads[r := Alive])
    case SpawnFailed(c, error) => s.(slot := StartFailed(s.slot, error), calls := s.calls[c := FailedIt])
    case Store(c, now) =>
      var r := s.calls[c].run;
      s.(slot := Stored(s.slot, r, now), calls := s.calls[c := StoredIt(r)])
    case TellLive(_, live) => s.(slot := s.slot.(live := live))
    case TellFinished(r, result) =>
      s.(slot := Finished(s.slot, result), threads := s.threads[r := Told(s.slot.starting)])
    case ThreadEnds(r) => s.(threads := s.threads[r := Over(s.threads[r].early)])
    case ThreadPanics(r) => s.(threads := s.threads[r := Died])
    case AskPause => s.(slot := s.slot.(desired := Desired.Pause))
    case AskStop => s.(slot := s.slot.(desired := Desired.Stop))
    case SelectRequest => s.(looking := true)
    case Look(c, waiting) =>
      var looked := s.(slot := Looked(s.slot, waiting), looking := false);
      if !waiting && s.slot.seenWaiting then looked.(calls := s.calls[c := Asked]) else looked
    case ReportMoved(_, _) => s.(slot := StartFailed(s.slot, "supervised"))
    case ReportUncleared(_, _) => s.(slot := StartFailed(s.slot, "clear the lost lease"))
    case TakeDead => s.(slot := Taken(s.slot, IsOver(s)))
    case ReportLate(error) => s.(slot := StartFailed(s.slot, error))
  }

  predicate IsRun(steps: seq<Step>)
    decreases |steps|, 0
  {
    steps == [] || (IsRun(steps[..|steps| - 1]) && Enabled(After(steps[..|steps| - 1]), steps[|steps| - 1]))
  }

  function After(steps: seq<Step>): State
    requires IsRun(steps)
    decreases |steps|, 1
  {
    if steps == [] then START else Apply(After(steps[..|steps| - 1]), steps[|steps| - 1])
  }

  predicate Working(s: State, r: RunId) {
    r in s.threads && s.threads[r].Alive?
  }

  /** A start is in progress, or the run in the slot is at work. */
  predicate InUse(s: State) {
    s.slot.starting || (s.slot.run.Some? && Working(s, s.slot.run.value))
  }

  /** Whenever the reconciler acts on an old plan, the slot is not in use. */
  ghost predicate NeverTooLate(steps: seq<Step>)
    requires IsRun(steps)
  {
    steps == [] ||
    (NeverTooLate(steps[..|steps| - 1]) && (steps[|steps| - 1].ReportLate? ==> !InUse(After(steps[..|steps| - 1]))))
  }

  // ---- The lease --------------------------------------------------------------------------

  predicate InStart(s: State, c: CallId) {
    c in s.calls && (s.calls[c].Spawning? || s.calls[c].Spawned?)
  }

  /** The start in progress has spawned `r`, and not stored it yet. */
  predicate Covered(s: State, c: CallId, r: RunId) {
    c in s.calls && s.calls[c] == Spawned(r)
  }

  /** A run in the slot or covered by a start has sent its last event only if it did so before
      it was stored. */
  predicate OnlyEarly(t: Thread) {
    (t.Told? || t.Over?) ==> t.early
  }

  ghost predicate Inv(s: State) {
    && (forall c :: InStart(s, c) ==> s.slot.starting)
    && (s.slot.starting ==> s.slot.run.None? && exists c :: InStart(s, c))
    && (forall c, d :: InStart(s, c) && InStart(s, d) ==> c == d)
    && (forall c, r :: Covered(s, c, r) ==> r in s.threads && OnlyEarly(s.threads[r]))
    && (forall r :: r in s.threads && s.threads[r].Alive? ==> s.slot.run == Some(r) || exists c :: Covered(s, c, r))
    && (s.slot.run.Some? ==> s.slot.run.value in s.threads && OnlyEarly(s.threads[s.slot.run.value]))
  }

  lemma StartStepKeepsInv(s: State, step: Step)
    requires Inv(s) && Enabled(s, step)
    requires step.Begin? || step.SpawnOk? || step.SpawnFailed? || step.Store?
    ensures Inv(Apply(s, step))
  {
    var t, c := Apply(s, step), step.call;
    forall d | d != c ensures InStart(t, d) <==> InStart(s, d) {
    }
    forall d, r | d != c ensures Covered(t, d, r) <==> Covered(s, d, r) {
    }
    assert step.Begin? || InStart(s, c);
    assert step.Store? ==> Covered(s, c, s.calls[c].run);
    if t.slot.starting {
      if InStart(t, c) {
      } else {
        var d :| InStart(s, d);
        assert InStart(t, d);
      }
    }
    forall r | r in t.threads && t.threads[r].Alive?
      ensures t.slot.run == Some(r) || exists d :: Covered(t, d, r)
    {
      if step.SpawnOk? && r == step.run {
        assert Covered(t, c, r);
      } else if s.slot.run != Some(r) {
        var d :| Covered(s, d, r);
        assert InStart(s, d) && (d != c ==> Covered(t, d, r));
      }
    }
  }

  lemma ThreadStepKeepsInv(s: State, step: Step)
    requires Inv(s) && Enabled(s, step)
    requires step.TellLive? || step.TellFinished? || step.ThreadEnds? || step.ThreadPanics?
    ensures Inv(Apply(s, step))
  {
    var t := Apply(s, step);
    forall d ensures InStart(t, d) <==> InStart(s, d) {
    }
    forall d, r ensures Covered(t, d, r) <==> Covered(s, d, r) {
    }
    forall r | r in t.threads && t.threads[r].Alive?
      ensures t.slot.run == Some(r) || exists d :: Covered(t, d, r)
    {
      assert s.threads[r].Alive?;
      if s.slot.run == Some(r) {
        if step.TellFinished? {
          var d :| Covered(s, d, step.run);
          assert InStart(s, d);
        }
      } else {
        var d :| Covered(s, d, r);
        assert Covered(t, d, r);
      }
    }
    forall d, r | Covered(t, d, r) ensures r in t.threads && OnlyEarly(t.threads[r]) {
      assert Covered(s, d, r) && InStart(s, d);
    }
  }

  lemma OtherStepKeepsInv(s: State, step: Step)
    requires Inv(s) && Enabled(s, step) && (step.ReportLate? ==> !InUse(s))
    requires !step.Begin? && !step.SpawnOk? && !step.SpawnFailed? && !step.Store?
    requires !step.TellLive? && !step.TellFinished? && !step.ThreadEnds? && !step.ThreadPanics?
    ensures Inv(Apply(s, step))
  {
    var t := Apply(s, step);
    forall d ensures InStart(t, d) <==> InStart(s, d) {
    }
    forall d, r ensures Covered(t, d, r) <==> Covered(s, d, r) {
    }
    forall r | r in t.threads && t.threads[r].Alive?
      ensures t.slot.run == Some(r) || exists d :: Covered(t, d, r)
    {
      if s.slot.run == Some(r) {
        assert r !in IsOver(s);
      } else {
        var d :| Covered(s, d, r);
        assert Covered(t, d, r) && InStart(s, d);
      }
    }
  }

  lemma {:induction false} RunKeepsInv(steps: seq<Step>)
    requires IsRun(steps) && NeverTooLate(steps)
    ensures Inv(After(steps))
  {
    hide Inv;
    if steps == [] {
      StartInv();
    } else {
      var before, step := steps[..|steps| - 1], steps[|steps| - 1];
      RunKeepsInv(before);
      var s := After(before);
      if step.Begin? || step.SpawnOk? || step.SpawnFailed? || step.Store? {
        StartStepKeepsInv(s, step);
      } else if step.TellLive? || step.TellFinished? || step.ThreadEnds? || step.ThreadPanics? {
        ThreadStepKeepsInv(s, step);
      } else {
        OtherStepKeepsInv(s, step);
      }
    }
  }

  lemma StartInv()
    ensures Inv(START)
  {
  }

  /** The lease: in every reachable state the node has at most one live run, and it is the one
      in the slot, or the one the start in progress has spawned and will store. */
  lemma {:induction false} OneLiveRun(steps: seq<Step>)
    requires IsRun(steps) && NeverTooLate(steps)
    ensures var s := After(steps);
            && (forall q: RunId, r: RunId :: Working(s, q) && Working(s, r) ==> q == r)
            && (forall r: RunId :: Working(s, r) ==>
                  if s.slot.starting then exists c :: Covered(s, c, r) else s.slot.run == Some(r))
  {
    RunKeepsInv(steps);
    var s := After(steps);
    forall r: RunId | Working(s, r)
      ensures if s.slot.starting then exists c :: Covered(s, c, r) else s.slot.run == Some(r)
    {
      if s.slot.run != Some(r) {
        var c :| Covered(s, c, r);
        assert InStart(s, c);
      }
    }
    forall q: RunId, r: RunId | Working(s, q) && Working(s, r) ensures q == r {
      if s.slot.starting {
        var c, d :| Covered(s, c, q) && Covered(s, d, r);
        assert InStart(s, c) && InStart(s, d);
      }
    }
  }

  /** The last event of a run never clears another run's slot. */
  lemma {:induction false} FinishedClearsOnlyItsOwn(steps: seq<Step>, r: RunId, result: Result<Outcome, string>)
    requires IsRun(steps) && NeverTooLate(steps) && Enabled(After(steps), TellFinished(r, result))
    ensures After(steps).slot.run in {None, Some(r)}
    ensures !Apply(After(steps), TellFinished(r, result)).slot.run.Some?
  {
    RunKeepsInv(steps);
    OneLiveRun(steps);
  }

  predicate SaidItWasOver(step: Step, r: RunId) {
    step.TellFinished? && step.run == r
  }

  /** The run sent its last event while a start had yet to store what it spawned. */
  ghost predicate ToldEarly(steps: seq<Step>, r: RunId) {
    exists i :: 0 <= i < |steps| && SaidItWasOver(steps[i], r) && IsRun(steps[..i]) && After(steps[..i]).slot.starting
  }

  lemma {:induction false} ToldEarlyStays(before: seq<Step>, step: Step, r: RunId)
    requires IsRun(before) && (ToldEarly(before, r) || (SaidItWasOver(step, r) && After(before).slot.starting))
    ensures ToldEarly(before + [step], r)
  {
    var steps := before + [step];
    assert steps[..|before|] == before;
    if ToldEarly(before, r) {
      var i :| 0 <= i < |before| && SaidItWasOver(before[i], r) && IsRun(before[..i]) && After(before[..i]).slot.starting;
      assert steps[..i] == before[..i] && steps[i] == before[i];
    } else {
      assert SaidItWasOver(steps[|before|], r);
    }
  }

  /** A run died exactly when a step of the run killed it; and one marked early told so early. */
  lemma {:induction false} ThreadShowsSteps(steps: seq<Step>, r: RunId)
    requires IsRun(steps)
    ensures var s := After(steps);
            && (r in s.threads && s.threads[r].Died? <==> ThreadPanics(r) in steps)
            && (r in s.threads && (s.threads[r].Told? || s.threads[r].Over?) && s.threads[r].early ==> ToldEarly(steps, r))
  {
    hide ToldEarly, Enabled, Apply;
    if steps != [] {
      var before, step := steps[..|steps| - 1], steps[|steps| - 1];
      ThreadShowsSteps(before, r);
      ThreadStep(After(before), step, r);
      assert steps == before + [step];
      if ToldEarly(before, r) || (SaidItWasOver(step, r) && After(before).slot.starting) {
        ToldEarlyStays(before, step, r);
      }
    }
  }

  predicate MarkedEarly(s: State, r: RunId) {
    r in s.threads && (s.threads[r].Told? || s.threads[r].Over?) && s.threads[r].early
  }

  lemma ThreadStep(s: State, step: Step, r: RunId)
    requires Enabled(s, step)
    ensures var t := Apply(s, step);
            && (r in t.threads && t.threads[r].Died? <==> (r in s.threads && s.threads[r].Died?) || step == ThreadPanics(r))
            && (MarkedEarly(t, r) ==> MarkedEarly(s, r) || (SaidItWasOver(step, r) && s.slot.starting))
  {
    hide Decided, Looked, Taken, StartFailed, Stored, Begun, Finished, Busy, IsOver;
  }

  /** A run in the slot that is no longer at work died without a last event, or sent it before
      the start had stored it. */
  lemma {:induction false} DeadInSlotDiedOrWasEarly(steps: seq<Step>)
    requires IsRun(steps) && NeverTooLate(steps) && After(steps).slot.run.Some?
    ensures var s := After(steps); var r := s.slot.run.value;
            r in s.threads && !s.threads[r].Alive? ==> ThreadPanics(r) in steps || ToldEarly(steps, r)
  {
    RunKeepsInv(steps);
    ThreadShowsSteps(steps, After(steps).slot.run.value);
  }

  lemma {:induction false} CoveredMeansStarting(steps: seq<Step>, c: CallId, r: RunId)
    requires IsRun(steps) && NeverTooLate(steps) && Covered(After(steps), c, r)
    ensures After(steps).slot.starting && After(steps).slot.run.None?
  {
    RunKeepsInv(steps);
    assert InStart(After(steps), c);
  }

  /** And whenever it does send it that early, it stays in the slot without an outcome, where
      each start takes it for a run: only the reconciler frees the node. */
  lemma {:induction false} EarlyFinishStaysInSlot(steps: seq<Step>, c: CallId, r: RunId, result: Result<Outcome, string>, now: int, d: CallId)
    requires IsRun(steps) && NeverTooLate(steps) && Covered(After(steps), c, r) && Working(After(steps), r)
    requires d != c && d in After(steps).calls && After(steps).calls[d].Checked?
    ensures var more := [TellFinished(r, result), Store(c, now), Begin(d)];
            && IsRun(steps + more)
            && var s := After(steps + more);
               s.slot.run == Some(r) && s.slot.outcome.None? && !Working(s, r) && s.calls[d].AlreadyBusy?
  {
    hide Inv, IsRun, After;
    CoveredMeansStarting(steps, c, r);
    RunExtends(steps, TellFinished(r, result));
    var one := steps + [TellFinished(r, result)];
    RunExtends(one, Store(c, now));
    var two := one + [Store(c, now)];
    RunExtends(two, Begin(d));
    assert two + [Begin(d)] == steps + [TellFinished(r, result), Store(c, now), Begin(d)];
  }

  lemma {:induction false} RunExtends(steps: seq<Step>, step: Step)
    requires IsRun(steps) && Enabled(After(steps), step)
    ensures IsRun(steps + [step]) && After(steps + [step]) == Apply(After(steps), step)
  {
    assert (steps + [step])[..|steps|] == steps;
  }

  lemma NothingRan()
    ensures IsRun([]) && After([]) == START
  {
  }

  /** No report comes late. */
  predicate OnTime(steps: seq<Step>) {
    forall step :: step in steps ==> !step.ReportLate?
  }

  lemma {:induction false} Extends(steps: seq<Step>, more: seq<Step>, step: Step)
    requires IsRun(steps + more) && OnTime(more) && Enabled(After(steps + more), step) && !step.ReportLate?
    ensures IsRun(steps + (more + [step])) && OnTime(more + [step])
    ensures After(steps + (more + [step])) == Apply(After(steps + more), step)
  {
    RunExtends(steps + more, step);
    assert steps + (more + [step]) == steps + more + [step];
  }

  /** A client's start with nothing in between, up to its run being spawned. */
  lemma SpawnAlone(steps: seq<Step>, before: seq<Step>, c: CallId, r: RunId) returns (more: seq<Step>)
    requires IsRun(steps + before) && OnTime(before) && !Busy(After(steps + before).slot)
    requires c !in After(steps + before).calls && r !in After(steps + before).threads
    ensures IsRun(steps + more) && OnTime(more)
    ensures After(steps + more) == var s := After(steps + before);
              s.(slot := Begun(s.slot), calls := s.calls[c := Spawned(r)], threads := s.threads[r := Alive])
  {
    hide IsRun, After;
    more := before;
    Extends(steps, more, ClientAsks(c));           more := more + [ClientAsks(c)];
    Extends(steps, more, FindPlace(c, Ok(Local))); more := more + [FindPlace(c, Ok(Local))];
    Extends(steps, more, Begin(c));                more := more + [Begin(c)];
    Extends(steps, more, SpawnOk(c, r));           more := more + [SpawnOk(c, r)];
  }

  /** A start in progress whose run is no longer at work: stored late over another's run, it hides
      that one, and is itself taken out as dead. */
  lemma HideBehindDead(steps: seq<Step>, before: seq<Step>, c: CallId, x: RunId, d: CallId) returns (more: seq<Step>)
    requires IsRun(steps + before) && OnTime(before) && c != d
    requires var s := After(steps + before);
             && Covered(s, c, x) && x in s.threads && !s.threads[x].Alive?
             && d in s.calls && s.calls[d].Spawned?
    ensures IsRun(steps + more) && OnTime(more)
    ensures var s, t := After(steps + before), After(steps + more);
            && !Busy(t.slot) && t.calls.Keys == s.calls.Keys && t.threads.Keys == s.threads.Keys
            && (forall r: RunId :: Working(t, r) <==> Working(s, r))
  {
    hide IsRun, After;
    more := before;
    var s := After(steps + before);
    Extends(steps, more, Store(d, 0));   more := more + [Store(d, 0)];
    Extends(steps, more, Store(c, 0));   more := more + [Store(c, 0)];
    if s.threads[x].Told? {
      Extends(steps, more, ThreadEnds(x)); more := more + [ThreadEnds(x)];
    }
    Extends(steps, more, TakeDead);      more := more + [TakeDead];
  }

  /** The guard is exact: in any run, a report that comes late on a slot in use can be followed,
      with no other late report, by two runs at work on the node. */
  lemma LateReportLetsTwoRun(steps: seq<Step>, error: string, d: CallId, e: CallId, r: RunId, r': RunId)
    returns (more: seq<Step>, one: RunId, other: RunId)
    requires IsRun(steps) && NeverTooLate(steps) && InUse(After(steps))
    requires {d, e} !! After(steps).calls.Keys && d != e && {r, r'} !! After(steps).threads.Keys && r != r'
    ensures IsRun(steps + [ReportLate(error)] + more) && OnTime(more)
    ensures one != other && Working(After(steps + [ReportLate(error)] + more), one)
    ensures Working(After(steps + [ReportLate(error)] + more), other)
  {
    hide IsRun, After, NeverTooLate;
    RunKeepsInv(steps);
    RunExtends(steps, ReportLate(error));
    var s, late := After(steps), steps + [ReportLate(error)];
    assert late + [] == late;
    more := SpawnAlone(late, [], d, r);
    one, other := r, r';
    if !s.slot.starting {
      other := s.slot.run.value;
    } else {
      var c :| InStart(s, c);
      if s.calls[c].Spawning? {
        Extends(late, more, SpawnOk(c, r')); more := more + [SpawnOk(c, r')];
      } else if Working(s, s.calls[c].run) {
        other := s.calls[c].run;
      } else {
        assert Covered(s, c, s.calls[c].run);
        more := HideBehindDead(late, more, c, s.calls[c].run, d);
        assert Working(After(late + more), one);
        more := SpawnAlone(late, more, e, r');
        assert Working(After(late + more), one);
      }
    }
  }

  // ---- Where a run is spawned -------------------------------------------------------------

  predicate Passed(call: Call) {
    call.Checked? || call.AlreadyBusy? || call.Spawning? || call.Spawned? || call.StoredIt? || call.FailedIt?
  }

  /** What the steps say of the place call `c` found is what its state says. */
  ghost predicate PlaceRemembered(steps: seq<Step>, s: State, c: CallId) {
    && (c in s.calls && Passed(s.calls[c]) ==> FindPlace(c, Ok(Local)) in steps)
    && (forall place :: FindPlace(c, place) in steps ==>
          c in s.calls && !s.calls[c].Asked? && (place != Ok(Local) ==> s.calls[c].Refused?))
  }

  lemma {:induction false} RunRemembersPlace(steps: seq<Step>, c: CallId)
    requires IsRun(steps)
    ensures PlaceRemembered(steps, After(steps), c)
  {
    hide PlaceRemembered, Enabled, Apply;
    if steps == [] {
      NoPlaceYet(c);
    } else {
      var before, step := steps[..|steps| - 1], steps[|steps| - 1];
      RunRemembersPlace(before, c);
      assert steps == before + [step];
      PlaceStep(before, After(before), step, c);
    }
  }

  lemma NoPlaceYet(c: CallId)
    ensures PlaceRemembered([], START, c)
  {
  }

  lemma PlaceStep(before: seq<Step>, s: State, step: Step, c: CallId)
    requires PlaceRemembered(before, s, c) && Enabled(s, step)
    ensures PlaceRemembered(before + [step], Apply(s, step), c)
  {
  }

  /** A run is spawned only by a call that found the node local; one that found it under the
      supervisor, or could not tell, spawns nothing, whoever asked. */
  lemma {:induction false} SpawnsOnlyWhereLocal(steps: seq<Step>, c: CallId, r: RunId)
    requires IsRun(steps) && SpawnOk(c, r) in steps
    ensures forall place :: FindPlace(c, place) in steps ==> place == Ok(Local)
    ensures FindPlace(c, Ok(Local)) in steps
  {
    SpawnIsKept(steps, c, r);
    RunRemembersPlace(steps, c);
  }

  lemma {:induction false} SpawnIsKept(steps: seq<Step>, c: CallId, r: RunId)
    requires IsRun(steps) && SpawnOk(c, r) in steps
    ensures c in After(steps).calls && After(steps).calls[c] in {Spawned(r), StoredIt(r)}
  {
    var before, step := steps[..|steps| - 1], steps[|steps| - 1];
    if step != SpawnOk(c, r) {
      assert SpawnOk(c, r) in before;
      SpawnIsKept(before, c, r);
    }
  }

  // ---- What the reconciler acts on ----------------------------------------------------------

  lemma {:induction false} PrefixIsRun(steps: seq<Step>, i: nat)
    requires IsRun(steps) && i < |steps|
    ensures IsRun(steps[..i]) && Enabled(After(steps[..i]), steps[i])
  {
    if i < |steps| - 1 {
      PrefixIsRun(steps[..|steps| - 1], i);
      assert steps[..|steps| - 1][..i] == steps[..i];
    }
  }

  /** In every run each call of the reconciler comes with evidence: the node is to run, no start,
      run at work or outcome explains why it does not, and its actor is that nothing started it, or
      a failed run whose lease stopped beating. It adds no call to a node explained otherwise. */
  lemma {:induction false} ReconcilerAsksOnEvidence(steps: seq<Step>, i: nat)
    requires IsRun(steps) && i < |steps| && steps[i].ReconcilerAsks?
    ensures IsRun(steps[..i])
    ensures var s := After(steps[..i]);
            && ShouldRun(s.slot, IsOver(s)) && !InUse(s)
            && (steps[i].standing == Some(NotStarted) ||
                (steps[i].standing == Some(FailedRun) && exists lease :: lease in steps[i].leases && lease.lifecycle && !lease.alive))
  {
    PrefixIsRun(steps, i);
    CalledFor(After(steps[..i]), Local, steps[i].standing, steps[i].leases);
  }

  /** And each failure it records for a node that moved: of a node that should run, and is not here. */
  lemma {:induction false} ReconcilerReportsOnEvidence(steps: seq<Step>, i: nat)
    requires IsRun(steps) && i < |steps| && (steps[i].ReportMoved? || steps[i].ReportUncleared?)
    ensures IsRun(steps[..i])
    ensures var s := After(steps[..i]);
            && ShouldRun(s.slot, IsOver(s)) && !InUse(s)
            && (steps[i].ReportUncleared? ==> exists lease :: lease in steps[i].leases && lease.lifecycle && !lease.alive)
  {
    PrefixIsRun(steps, i);
    CalledFor(After(steps[..i]), if steps[i].ReportMoved? then Supervisor else Local, steps[i].standing, steps[i].leases);
  }

  lemma CalledFor(s: State, place: Place, standing: Option<Actor>, leases: seq<Lease>)
    ensures Decided(s, place, standing, leases) == Some(MovedToSandbox) ==> ShouldRun(s.slot, IsOver(s))
    ensures forall lost :: Decided(s, place, standing, leases) == Some(Action.Start(lost)) ==>
              ShouldRun(s.slot, IsOver(s)) && LetsStart(standing, leases, lost)
    ensures ShouldRun(s.slot, IsOver(s)) ==> !InUse(s)
  {
    FirstLeaseIsFirst(leases, false);
  }

  // ---- Ticks ------------------------------------------------------------------------------

  /** A tick picking the node for an attempt. */
  predicate Selects(step: Step) {
    step.DueAsks? || step.SelectRequest? || step.ReconcilerAsks? || step.ReportMoved? || step.ReportUncleared?
  }

  predicate RecordsFailure(step: Step) {
    step.SpawnFailed? || step.ReportMoved? || step.ReportUncleared?
  }

  ghost predicate FailedAndQuiet(s: State) {
    Inv(s) && s.slot.run.None? && !s.slot.starting && s.slot.outcome.Some? && s.slot.outcome.value.Stopped?
  }

  lemma QuietStaysQuiet(s: State, step: Step)
    requires FailedAndQuiet(s) && Enabled(s, step) && !step.Begin?
    ensures !Selects(step) && FailedAndQuiet(Apply(s, step))
  {
    if step.SpawnOk? || step.SpawnFailed? || step.Store? {
      assert InStart(s, step.call);
      assert false;
    } else if step.TellLive? || step.TellFinished? || step.ThreadEnds? || step.ThreadPanics? {
      if step.TellFinished? {
        var c :| Covered(s, c, step.run);
        assert InStart(s, c);
        assert false;
      }
      ThreadStepKeepsInv(s, step);
    } else {
      OtherStepKeepsInv(s, step);
    }
  }

  /** A call that is new since the failure was recorded: a client's, or one that the second
      section of a tick asks for, whose first section came before. */
  predicate AskedSince(steps: seq<Step>, more: seq<Step>, c: CallId)
    requires IsRun(steps)
  {
    ClientAsks(c) in more || (Look(c, false) in more && After(steps).looking)
  }

  /** No retry storm: once the failure of a start is recorded, and until some call of a start gets
      to its first section, the node stays failed with nothing running, no tick picks it, and
      each new call is a client's, or was picked by a tick before the failure. */
  lemma {:induction false} NoRetryStorm(steps: seq<Step>, more: seq<Step>)
    requires IsRun(steps + more) && NeverTooLate(steps + more) && steps != [] && RecordsFailure(steps[|steps| - 1])
    requires IsRun(steps) && NeverTooLate(steps) && forall m :: m in more ==> !m.Begin?
    ensures FailedAndQuiet(After(steps + more))
    ensures forall m :: m in more ==> !Selects(m)
    ensures After(steps + more).looking ==> After(steps).looking
    ensures forall c :: c in After(steps + more).calls ==> c in After(steps).calls || AskedSince(steps, more, c)
  {
    hide FailedAndQuiet;
    if more == [] {
      assert steps + more == steps;
      RunKeepsInv(steps);
      FailureIsQuiet(steps);
    } else {
      var before, step := more[..|more| - 1], more[|more| - 1];
      assert (steps + more)[..|steps + more| - 1] == steps + before;
      NoRetryStorm(steps, before);
      assert more == before + [step];
      QuietStaysQuiet(After(steps + before), step);
      NewCalls(After(steps + before), step);
    }
  }

  lemma NewCalls(s: State, step: Step)
    requires Enabled(s, step) && !Selects(step)
    ensures Apply(s, step).looking ==> s.looking
    ensures forall c :: c in Apply(s, step).calls && c !in s.calls ==> step == ClientAsks(c) || (step == Look(c, false) && s.looking)
  {
  }

  /** So the first attempt after a failure is a client's, or one picked before it. */
  lemma {:induction false} WhoTriesAgain(steps: seq<Step>, more: seq<Step>, c: CallId)
    requires IsRun(steps + more) && NeverTooLate(steps + more) && steps != [] && RecordsFailure(steps[|steps| - 1])
    requires IsRun(steps) && NeverTooLate(steps) && (forall m :: m in more ==> !m.Begin?)
    requires Enabled(After(steps + more), Begin(c))
    ensures c in After(steps).calls || AskedSince(steps, more, c)
  {
    NoRetryStorm(steps, more);
  }

  lemma {:induction false} FailureIsQuiet(steps: seq<Step>)
    requires IsRun(steps) && Inv(After(steps)) && steps != [] && RecordsFailure(steps[|steps| - 1])
    ensures FailedAndQuiet(After(steps))
  {
    hide Inv;
  }

  /** It holds of recorded failures only. A start refused where it looks up the node's place
      records nothing, so a wait that is due is picked again at every tick, any number of times. */
  lemma {:induction false} RefusedWaitIsPickedAgain(steps: seq<Step>, n: nat, place: Result<Place, string>, now: int, c: CallId)
    returns (more: seq<Step>)
    requires IsRun(steps) && Due(After(steps).slot, now) && place != Ok(Local)
    requires forall d :: d in After(steps).calls ==> d < c
    ensures IsRun(steps + more) && After(steps + more).slot == After(steps).slot
    ensures more == seq(2 * n, i requires 0 <= i < 2 * n => if i % 2 == 0 then DueAsks(c + i / 2, now) else FindPlace(c + i / 2, place))
    ensures forall d :: d in After(steps + more).calls ==> d < c + n
  {
    hide IsRun, After;
    if n == 0 {
      more := [];
      assert steps + more == steps;
    } else {
      more := RefusedWaitIsPickedAgain(steps, n - 1, place, now, c);
      var so, d := steps + more, c + n - 1;
      RunExtends(so, DueAsks(d, now));
      RunExtends(so + [DueAsks(d, now)], FindPlace(d, place));
      more := more + [DueAsks(d, now), FindPlace(d, place)];
      assert steps + more == so + [DueAsks(d, now)] + [FindPlace(d, place)];
    }
  }

  /** Nor does it hold of an answered request that is refused there: the same three steps come
      again at every tick. */
  lemma {:induction false} RefusedAnswerIsPickedAgain(steps: seq<Step>, n: nat, place: Result<Place, string>, c: CallId)
    returns (more: seq<Step>)
    requires IsRun(steps) && OnRequest(After(steps).slot) && After(steps).slot.seenWaiting && place != Ok(Local)
    requires forall d :: d in After(steps).calls ==> d < c
    ensures IsRun(steps + more) && After(steps + more).slot == After(steps).slot
    ensures |more| == 3 * n
    ensures forall k: nat :: k < n ==> more[3 * k] == SelectRequest && more[3 * k + 1] == Look(c + k, false) && more[3 * k + 2] == FindPlace(c + k, place)
    ensures forall d :: d in After(steps + more).calls ==> d < c + n
  {
    hide IsRun, After;
    if n == 0 {
      more := [];
      assert steps + more == steps;
    } else {
      more := RefusedAnswerIsPickedAgain(steps, n - 1, place, c);
      var so, d := steps + more, c + n - 1;
      RunExtends(so, SelectRequest);
      RunExtends(so + [SelectRequest], Look(d, false));
      RunExtends(so + [SelectRequest] + [Look(d, false)], FindPlace(d, place));
      more := more + [SelectRequest, Look(d, false), FindPlace(d, place)];
      assert steps + more == so + [SelectRequest] + [Look(d, false)] + [FindPlace(d, place)];
    }
  }

  /** A tick saw the node wait, and no start has stored a run since. */
  predicate SawWaitingSinceStart(steps: seq<Step>) {
    exists j :: 0 <= j < |steps| && steps[j].Look? && steps[j].waiting && forall k :: j < k < |steps| ==> !steps[k].Store?
  }

  lemma SeenStep(s: State, step: Step)
    requires Enabled(s, step) && Apply(s, step).slot.seenWaiting && !(step.Look? && step.waiting)
    ensures s.slot.seenWaiting && !step.Store?
  {
  }

  lemma SinceStartExtends(steps: seq<Step>, step: Step)
    requires SawWaitingSinceStart(steps) && !step.Store?
    ensures SawWaitingSinceStart(steps + [step])
  {
    var j :| 0 <= j < |steps| && steps[j].Look? && steps[j].waiting && forall k :: j < k < |steps| ==> !steps[k].Store?;
    assert (steps + [step])[j] == steps[j];
  }

  lemma SinceStartNow(steps: seq<Step>, step: Step)
    requires step.Look? && step.waiting
    ensures SawWaitingSinceStart(steps + [step])
  {
    assert (steps + [step])[|steps|] == step;
  }

  lemma {:induction false} SeenMeansSaw(steps: seq<Step>)
    requires IsRun(steps) && After(steps).slot.seenWaiting
    ensures SawWaitingSinceStart(steps)
  {
    var before, step := steps[..|steps| - 1], steps[|steps| - 1];
    hide Enabled, Apply, SawWaitingSinceStart;
    assert steps == before + [step];
    if step.Look? && step.waiting {
      SinceStartNow(before, step);
    } else {
      SeenStep(After(before), step);
      SeenMeansSaw(before);
      SinceStartExtends(before, step);
    }
  }

  /** No early resume: a tick that continues a run after a request sees the node no longer
      waiting, and an earlier one saw it waiting since the last run was stored. */
  lemma {:induction false} NoEarlyResume(steps: seq<Step>, c: CallId, waiting: bool)
    requires IsRun(steps) && Enabled(After(steps), Look(c, waiting))
    requires c in Apply(After(steps), Look(c, waiting)).calls
    ensures !waiting && SawWaitingSinceStart(steps)
  {
    SeenMeansSaw(steps);
  }

  // ---- Seen since the stop ----------------------------------------------------------------

  /** A tick saw the node wait, and no run has been stored, or sent its last event, since. */
  predicate SawWaitingSinceStop(steps: seq<Step>) {
    exists j :: 0 <= j < |steps| && steps[j].Look? && steps[j].waiting
      && forall k :: j < k < |steps| ==> !steps[k].Store? && !steps[k].TellFinished?
  }

  const REQUEST: Result<Outcome, string> := Ok(NeedsHuman(true))

  /** A step after which a mark of before the stop can be taken for one of after it: a look that
      marks the node while its run works, or the last event of a run not stored yet on a node that
      is marked, when a tick has picked the node or that event lets one pick it. */
  predicate Blurs(s: State, step: Step) {
    match step
    case Look(_, waiting) => waiting && s.slot.run.Some? && Working(s, s.slot.run.value)
    case TellFinished(_, result) => s.slot.starting && s.slot.seenWaiting && (s.looking || result == REQUEST)
    case _ => false
  }

  ghost predicate NeverBlurs(steps: seq<Step>)
    requires IsRun(steps)
  {
    steps == [] ||
    (NeverBlurs(steps[..|steps| - 1]) && !Blurs(After(steps[..|steps| - 1]), steps[|steps| - 1]))
  }

  /** The run of the start in progress is over already, for no request, and no tick has picked
      the node: its mark is of no use until the start stores that run, and clears it. */
  ghost predicate Unusable(s: State) {
    s.slot.starting && !s.looking && !OnRequest(s.slot) && exists c, r :: Covered(s, c, r) && !Working(s, r)
  }

  /** A mark is of after the stop, or of no use, and the run in the slot does not work. */
  ghost predicate MarkInv(steps: seq<Step>, s: State) {
    s.slot.seenWaiting ==>
      && (SawWaitingSinceStop(steps) || Unusable(s))
      && (s.slot.run.Some? ==> !Working(s, s.slot.run.value))
  }

  lemma SawExtends(steps: seq<Step>, step: Step)
    requires SawWaitingSinceStop(steps) && !step.Store? && !step.TellFinished?
    ensures SawWaitingSinceStop(steps + [step])
  {
    var j :| 0 <= j < |steps| && steps[j].Look? && steps[j].waiting
      && forall k :: j < k < |steps| ==> !steps[k].Store? && !steps[k].TellFinished?;
    assert (steps + [step])[j] == steps[j];
  }

  lemma SawNow(steps: seq<Step>, step: Step)
    requires step.Look? && step.waiting
    ensures SawWaitingSinceStop(steps + [step])
  {
    assert (steps + [step])[|steps|] == step;
  }

  /** While a mark is of no use, it stays so until it is cleared. */
  lemma UnusableStays(s: State, step: Step)
    requires Inv(s) && Unusable(s) && Enabled(s, step) && (step.ReportLate? ==> !InUse(s))
    ensures step.Store? || Unusable(Apply(s, step))
  {
    var c, r :| Covered(s, c, r) && !Working(s, r);
    assert InStart(s, c);
    if step.TellFinished? {
      var d :| Covered(s, d, step.run);
      assert InStart(s, d);
      assert false;
    } else if !step.Store? {
      assert (step.SpawnOk? || step.SpawnFailed?) ==> InStart(s, step.call);
      assert Covered(Apply(s, step), c, r) && !Working(Apply(s, step), r);
    }
  }

  lemma LastEventKeepsMark(steps: seq<Step>, s: State, r: RunId, result: Result<Outcome, string>)
    requires Inv(s) && MarkInv(steps, s) && Enabled(s, TellFinished(r, result)) && !Blurs(s, TellFinished(r, result))
    ensures Apply(s, TellFinished(r, result)).slot.seenWaiting ==> Unusable(Apply(s, TellFinished(r, result)))
  {
    var t := Apply(s, TellFinished(r, result));
    if s.slot.seenWaiting {
      var c :| Covered(s, c, r);
      assert InStart(s, c) && Covered(t, c, r) && !Working(t, r);
    }
  }

  lemma StepKeepsMark(steps: seq<Step>, s: State, step: Step)
    requires Inv(s) && MarkInv(steps, s) && Enabled(s, step) && !Blurs(s, step) && (step.ReportLate? ==> !InUse(s))
    ensures MarkInv(steps + [step], Apply(s, step))
  {
    hide SawWaitingSinceStop, Unusable, Inv;
    var t := Apply(s, step);
    if !step.Store? {
      RunStaysOver(s, step);
    }
    if step.TellFinished? {
      LastEventKeepsMark(steps, s, step.run, step.result);
    } else if step.Look? && step.waiting {
      SawNow(steps, step);
    } else if t.slot.seenWaiting {
      SeenStep(s, step);
      if Unusable(s) {
        UnusableStays(s, step);
      } else {
        SawExtends(steps, step);
      }
    }
  }

  lemma RunStaysOver(s: State, step: Step)
    requires Inv(s) && Enabled(s, step) && !step.Store?
    ensures var t := Apply(s, step);
            t.slot.run.Some? ==> t.slot.run == s.slot.run && (Working(t, t.slot.run.value) ==> Working(s, t.slot.run.value))
  {
  }

  lemma {:induction false} RunKeepsMark(steps: seq<Step>)
    requires IsRun(steps) && NeverTooLate(steps) && NeverBlurs(steps)
    ensures MarkInv(steps, After(steps))
  {
    hide MarkInv, Inv;
    if steps == [] {
      NoMarkYet();
    } else {
      var before, step := steps[..|steps| - 1], steps[|steps| - 1];
      RunKeepsMark(before);
      RunKeepsInv(before);
      assert steps == before + [step];
      StepKeepsMark(before, After(before), step);
    }
  }

  lemma NoMarkYet()
    ensures MarkInv([], START)
  {
  }

  /** Without such a step, a tick that continues a run saw the node wait since that run stopped. */
  lemma {:induction false} ResumesAfterTheStop(steps: seq<Step>, c: CallId, waiting: bool)
    requires IsRun(steps) && NeverTooLate(steps) && NeverBlurs(steps) && Enabled(After(steps), Look(c, waiting))
    requires c in Apply(After(steps), Look(c, waiting)).calls
    ensures !waiting && SawWaitingSinceStop(steps)
  {
    RunKeepsMark(steps);
  }

  function StopAndLook(s: State, step: Step, d: CallId): seq<Step>
    requires Blurs(s, step)
  {
    (if step.Look? then [TellFinished(s.slot.run.value, REQUEST)] else [])
    + (if step.TellFinished? && s.looking then [] else [SelectRequest])
    + [Look(d, false)]
  }

  /** And each such step matters: from any run, these steps can follow it, in which a tick continues
      the run and none has seen the node wait since it stopped. */
  lemma {:induction false} BlurResumesTooSoon(steps: seq<Step>, step: Step, d: CallId)
    requires IsRun(steps) && NeverTooLate(steps) && Enabled(After(steps), step) && Blurs(After(steps), step)
    requires d !in After(steps).calls
    ensures var more := StopAndLook(After(steps), step, d);
            IsRun(steps + [step] + more) && d in After(steps + [step] + more).calls
            && !SawWaitingSinceStop(steps + [step] + more)
  {
    hide IsRun, After, NeverTooLate;
    RunKeepsInv(steps);
    var s, so := After(steps), steps + [step];
    RunExtends(steps, step);
    if step.Look? {
      var stop := TellFinished(s.slot.run.value, REQUEST);
      RunExtends(so, stop);
      RunExtends(so + [stop], SelectRequest);
      RunExtends(so + [stop] + [SelectRequest], Look(d, false));
      assert so + [stop] + [SelectRequest] + [Look(d, false)] == so + StopAndLook(s, step, d);
      NotSeenSince(so, stop, [SelectRequest, Look(d, false)]);
      assert so + [stop] + [SelectRequest, Look(d, false)] == so + StopAndLook(s, step, d);
    } else if s.looking {
      RunExtends(so, Look(d, false));
      NotSeenSince(steps, step, [Look(d, false)]);
      assert StopAndLook(s, step, d) == [Look(d, false)];
    } else {
      RunExtends(so, SelectRequest);
      RunExtends(so + [SelectRequest], Look(d, false));
      NotSeenSince(steps, step, [SelectRequest, Look(d, false)]);
      assert so + [SelectRequest] + [Look(d, false)] == so + StopAndLook(s, step, d);
      assert StopAndLook(s, step, d) == [SelectRequest, Look(d, false)];
    }
  }

  lemma NotSeenSince(steps: seq<Step>, stop: Step, more: seq<Step>)
    requires stop.TellFinished? && forall m :: m in more ==> m.Look? ==> !m.waiting
    ensures !SawWaitingSinceStop(steps + [stop] + more)
  {
    var all := steps + [stop] + more;
    assert all[|steps|] == stop;
    forall j | |steps| < j < |all| ensures !(all[j].Look? && all[j].waiting) {
      assert all[j] == more[j - |steps| - 1];
    }
  }

  /** A client's start with nothing in between. */
  lemma StartAlone(steps: seq<Step>, before: seq<Step>, c: CallId, r: RunId) returns (more: seq<Step>)
    requires IsRun(steps + before) && OnTime(before) && !Busy(After(steps + before).slot)
    requires c !in After(steps + before).calls && r !in After(steps + before).threads
    ensures IsRun(steps + more) && OnTime(more)
    ensures After(steps + more) == var s := After(steps + before);
              s.(slot := Stored(Begun(s.slot), r, 0), calls := s.calls[c := StoredIt(r)], threads := s.threads[r := Alive])
  {
    hide IsRun, After;
    more := SpawnAlone(steps, before, c, r);
    Extends(steps, more, Store(c, 0)); more := more + [Store(c, 0)];
  }

  /** From `s`, a run was started, and stopped for a request. */
  predicate StoppedForRequest(s: State, t: State, c: CallId, r: RunId) {
    && t.slot.run.None? && !t.slot.starting && OnRequest(t.slot) && !t.slot.seenWaiting && t.looking == s.looking
    && t.calls == s.calls[c := StoredIt(r)] && t.threads.Keys == s.threads.Keys + {r}
  }

  /** A run starts, and stops for a request. */
  lemma StopForRequest(before: seq<Step>, c: CallId, r: RunId) returns (more: seq<Step>)
    requires IsRun([] + before) && OnTime(before) && !Busy(After([] + before).slot)
    requires c !in After([] + before).calls && r !in After([] + before).threads
    ensures IsRun([] + more) && OnTime(more)
    ensures StoppedForRequest(After([] + before), After([] + more), c, r)
  {
    hide IsRun, After;
    more := StartAlone([], before, c, r);
    var request: Result<Outcome, string> := Ok(NeedsHuman(true));
    Extends([], more, TellFinished(r, request)); more := more + [TellFinished(r, request)];
  }

  /** A run stored between the two sections of a tick: it can be marked while it works. */
  lemma MarkedAtWork() returns (steps: seq<Step>)
    ensures IsRun(steps) && OnTime(steps) && NeverTooLate(steps)
    ensures Enabled(After(steps), Look(2, true)) && Blurs(After(steps), Look(2, true))
  {
    hide IsRun, After, NeverTooLate;
    NothingRan();
    steps := [];
    assert [] + steps == steps;
    steps := StopForRequest([], 0, 0);
    Extends([], steps, SelectRequest);            steps := steps + [SelectRequest];
    steps := StartAlone([], steps, 1, 1);
    assert [] + steps == steps;
    OnTimeIsNotTooLate(steps);
  }

  lemma {:induction false} OnTimeIsNotTooLate(steps: seq<Step>)
    requires IsRun(steps) && OnTime(steps)
    ensures NeverTooLate(steps)
  {
    if steps != [] {
      assert forall step :: step in steps[..|steps| - 1] ==> step in steps;
      assert steps[|steps| - 1] in steps;
      OnTimeIsNotTooLate(steps[..|steps| - 1]);
    }
  }

  /** So it may have seen it before that run even stopped: marked at work, and continued at once
      after it stops for a new request. */
  lemma SeenBeforeItStopped() returns (steps: seq<Step>)
    ensures IsRun(steps) && OnTime(steps) && |steps| > 2
    ensures steps[|steps| - 3].TellFinished? && steps[|steps| - 2].SelectRequest? && steps[|steps| - 1] == Look(2, false)
    ensures 2 in After(steps).calls && !SawWaitingSinceStop(steps)
  {
    hide IsRun, After, NeverTooLate, SawWaitingSinceStop;
    var before := MarkedAtWork();
    BlurResumesTooSoon(before, Look(2, true), 2);
    steps := before + [Look(2, true)] + StopAndLook(After(before), Look(2, true), 2);
  }
}
