/** When the daemon ends on its own: connections come and go while a watcher counts them, reads
    when one last was, and decides. */
module IdleExit {
  import opened Text

  type Connection = nat
  type Time = nat

  datatype Reason = RootGone | Quiet(idle: Time)

  function ShouldExit(now: Time, lastClient: Time, runs: nat, polls: bool, rootExists: bool, idle: Time): (r: Option<Reason>)
    ensures r == Some(RootGone) <==> !rootExists
    ensures r.Some? && r.value.Quiet? <==> rootExists && runs == 0 && !polls && (lastClient + idle <= now || idle == 0)
  {
    if !rootExists then Some(RootGone)
    else if runs > 0 || polls then None
    else
      var quiet := if now > lastClient then now - lastClient else 0;
      if quiet >= idle then Some(Quiet(quiet)) else None
  }

  /** A connection's thread, once the accept loop has counted it: `end` is when it stopped being
      served, `clock` what it then read to store as the last time there was a client. */
  datatype Phase =
    | Open
    | Ended(end: Time)
    | Clocked(end: Time, clock: Time)
    | Stored(end: Time)
    | Released(end: Time)

  /** A pass of the watcher. `seen` is the connections accepted by the time it counted. */
  datatype Watcher =
    | Sleeping
    | Snapshotted(runs: nat)
    | Counted(runs: nat, seen: set<Connection>)
    | HasLast(runs: nat, seen: set<Connection>, last: Time, open: bool)

  datatype State = State(
    now: Time,
    phases: map<Connection, Phase>,
    clients: nat,
    lastClient: Time,
    runs: nat,
    watcher: Watcher,
    quit: bool)

  const START := State(0, map[], 0, 0, 0, Sleeping, false)

  datatype Step =
    | Pass(d: Time)
    | Accept(c: Connection)
    | EndServe(c: Connection)
    | ReadClock(c: Connection)
    | StoreClock(c: Connection)
    | Release(c: Connection)
    | SetRuns(n: nat)
    | Snapshot
    | Count
    | ReadLast
    | Decide(polls: bool, rootExists: bool)

  predicate Enabled(s: State, step: Step) {
    match step
    case Pass(_) => true
    case Accept(c) => c !in s.phases && !s.quit
    case EndServe(c) => c in s.phases && s.phases[c].Open?
    case ReadClock(c) => c in s.phases && s.phases[c].Ended?
    case StoreClock(c) => c in s.phases && s.phases[c].Clocked?
    case Release(c) => c in s.phases && s.phases[c].Stored?
    case SetRuns(_) => true
    case Snapshot => s.watcher.Sleeping? && !s.quit
    case Count => s.watcher.Snapshotted?
    case ReadLast => s.watcher.Counted?
    case Decide(_, _) => s.watcher.HasLast?
  }

  function Apply(s: State, idle: Time, step: Step): State
    requires Enabled(s, step)
  {
    match step
    case Pass(d) => s.(now := s.now + d)
    case Accept(c) => s.(phases := s.phases[c := Open], clients := s.clients + 1)
    case EndServe(c) => s.(phases := s.phases[c := Ended(s.now)])
    case ReadClock(c) => s.(phases := s.phases[c := Clocked(s.phases[c].end, s.now)])
    case StoreClock(c) => s.(phases := s.phases[c := Stored(s.phases[c].end)], lastClient := s.phases[c].clock)
    case Release(c) =>
      s.(phases := s.phases[c := Released(s.phases[c].end)], clients := if s.clients > 0 then s.clients - 1 else 0)
    case SetRuns(n) => s.(runs := n)
    case Snapshot => s.(watcher := Snapshotted(s.runs))
    case Count =>
      if s.clients > 0 then s.(watcher := HasLast(s.watcher.runs, s.phases.Keys, s.now, true))
      else s.(watcher := Counted(s.watcher.runs, s.phases.Keys))
    case ReadLast => s.(watcher := HasLast(s.watcher.runs, s.watcher.seen, s.lastClient, false))
    case Decide(polls, rootExists) =>
      var reason := ShouldExit(s.now, s.watcher.last, s.watcher.runs, polls, rootExists, idle);
      s.(watcher := Sleeping, quit := s.quit || reason.Some?)
  }

  predicate IsRun(idle: Time, steps: seq<Step>)
    decreases |steps|, 0
  {
    steps == [] || (IsRun(idle, steps[..|steps| - 1]) && Enabled(After(idle, steps[..|steps| - 1]), steps[|steps| - 1]))
  }

  function After(idle: Time, steps: seq<Step>): State
    requires IsRun(idle, steps)
    decreases |steps|, 1
  {
    if steps == [] then START else Apply(After(idle, steps[..|steps| - 1]), idle, steps[|steps| - 1])
  }

  // ---- The count --------------------------------------------------------------------------

  function Unreleased(phases: map<Connection, Phase>): set<Connection> {
    set c | c in phases && !phases[c].Released?
  }

  lemma UnreleasedChanges(phases: map<Connection, Phase>, c: Connection, p: Phase)
    ensures Unreleased(phases[c := p]) == if p.Released? then Unreleased(phases) - {c} else Unreleased(phases) + {c}
    ensures c in Unreleased(phases) <==> c in phases && !phases[c].Released?
  {
  }

  /** The client count is the connections accepted and not yet released. */
  lemma {:induction false} ClientsAreUnreleased(idle: Time, steps: seq<Step>)
    requires IsRun(idle, steps)
    ensures After(idle, steps).clients == |Unreleased(After(idle, steps).phases)|
  {
    if steps == [] {
      assert Unreleased(START.phases) == {};
    } else {
      ClientsAreUnreleased(idle, steps[..|steps| - 1]);
      CountStep(After(idle, steps[..|steps| - 1]), idle, steps[|steps| - 1]);
    }
  }

  lemma CountStep(s: State, idle: Time, step: Step)
    requires Enabled(s, step) && s.clients == |Unreleased(s.phases)|
    ensures Apply(s, idle, step).clients == |Unreleased(Apply(s, idle, step).phases)|
  {
    hide Unreleased;
    if step.Accept? || step.EndServe? || step.ReadClock? || step.StoreClock? || step.Release? {
      var was, c := Unreleased(s.phases), step.c;
      UnreleasedChanges(s.phases, c, Apply(s, idle, step).phases[c]);
      assert c in was ==> was + {c} == was && |was - {c}| == |was| - 1;
    }
  }

  // ---- The decision -----------------------------------------------------------------------

  predicate Stamped(p: Phase) {
    p.Stored? || p.Released?
  }

  /** The last connection to store its clock stores one from before another's end of less than
      `idle` ago. While a third has still to store its own, that one can repair it. */
  predicate Hides(s: State, idle: Time, step: Step) {
    && step.StoreClock? && step.c in s.phases && s.phases[step.c].Clocked? && !s.quit
    && (forall y :: y in s.phases && y != step.c ==> Stamped(s.phases[y]))
    && exists x :: x in s.phases && Hidden(s, idle, s.phases[step.c].clock, x)
  }

  predicate Hidden(s: State, idle: Time, clock: Time, x: Connection)
    requires x in s.phases
  {
    Stamped(s.phases[x]) && s.phases[x].end > clock && s.now < s.phases[x].end + idle
  }

  ghost predicate NeverHides(idle: Time, steps: seq<Step>)
    requires IsRun(idle, steps)
  {
    steps == [] ||
    (NeverHides(idle, steps[..|steps| - 1]) && !Hides(After(idle, steps[..|steps| - 1]), idle, steps[|steps| - 1]))
  }

  /** The end is not after `t`, or `idle` ago. */
  predicate Past(s: State, idle: Time, end: Time, t: Time) {
    end <= t || end + idle <= s.now
  }

  /** Of all runs: every clock and every end read is past. */
  predicate ClockInv(s: State) {
    && s.lastClient <= s.now
    && (forall c :: c in s.phases && !s.phases[c].Open? ==> s.phases[c].end <= s.now)
    && (forall c :: c in s.phases && s.phases[c].Clocked? ==> s.phases[c].end <= s.phases[c].clock <= s.now)
    && (s.watcher.HasLast? ==> s.watcher.last <= s.now)
  }

  /** Every end stored shows in the last stamp, unless a connection has still to store its own. */
  ghost predicate StampInv(s: State, idle: Time) {
    || (exists c :: c in s.phases && !Stamped(s.phases[c]))
    || (forall c :: c in s.phases ==> Past(s, idle, s.phases[c].end, s.lastClient))
  }

  /** The connections a pass counted, when it found none open, show in the stamp that it reads:
      whoever stamps after the count reads its clock after they ended. */
  ghost predicate SeenInv(s: State, idle: Time) {
    && (s.watcher.Counted? ==>
          && (forall x :: x in s.watcher.seen ==>
                x in s.phases && s.phases[x].Released? && Past(s, idle, s.phases[x].end, s.lastClient))
          && (forall x, c :: x in s.watcher.seen && c in s.phases && s.phases[c].Clocked? ==> s.phases[x].end <= s.phases[c].clock))
    && (s.watcher.HasLast? && !s.watcher.open ==> forall x :: x in s.watcher.seen ==>
          x in s.phases && s.phases[x].Released? && Past(s, idle, s.phases[x].end, s.watcher.last))
  }

  lemma StepKeepsClocks(s: State, idle: Time, step: Step)
    requires ClockInv(s) && Enabled(s, step)
    ensures ClockInv(Apply(s, idle, step))
  {
  }

  lemma {:induction false} ClocksArePast(idle: Time, steps: seq<Step>)
    requires IsRun(idle, steps)
    ensures ClockInv(After(idle, steps))
  {
    hide ClockInv;
    if steps == [] {
      StartInvs(idle);
    } else {
      ClocksArePast(idle, steps[..|steps| - 1]);
      StepKeepsClocks(After(idle, steps[..|steps| - 1]), idle, steps[|steps| - 1]);
    }
  }

  lemma StartInvs(idle: Time)
    ensures ClockInv(START) && StampInv(START, idle) && SeenInv(START, idle)
  {
  }

  /** No connection stores a clock that is before the one stored. */
  ghost predicate AlwaysNewer(idle: Time, steps: seq<Step>)
    requires IsRun(idle, steps)
  {
    steps == [] ||
    var before, step := steps[..|steps| - 1], steps[|steps| - 1];
    && AlwaysNewer(idle, before)
    && (step.StoreClock? ==> After(idle, before).phases[step.c].clock >= After(idle, before).lastClient)
  }

  predicate LastShowsAll(s: State, idle: Time) {
    forall x :: x in s.phases && Stamped(s.phases[x]) ==> Past(s, idle, s.phases[x].end, s.lastClient)
  }

  lemma NewerHidesNothing(s: State, idle: Time, step: Step)
    requires ClockInv(s) && LastShowsAll(s, idle) && Enabled(s, step)
    requires step.StoreClock? ==> s.phases[step.c].clock >= s.lastClient
    ensures LastShowsAll(Apply(s, idle, step), idle) && !Hides(s, idle, step)
  {
  }

  /** What the code could see to: when no stamp takes the last one back, none hides an end. So
      reading the clock and storing it in one step would do. */
  lemma {:induction false} NewerNeverHides(idle: Time, steps: seq<Step>)
    requires IsRun(idle, steps) && AlwaysNewer(idle, steps)
    ensures NeverHides(idle, steps) && LastShowsAll(After(idle, steps), idle)
  {
    hide ClockInv, LastShowsAll, Hides;
    if steps == [] {
      assert LastShowsAll(START, idle) by { NothingStamped(idle); }
    } else {
      var before := steps[..|steps| - 1];
      NewerNeverHides(idle, before);
      ClocksArePast(idle, before);
      NewerHidesNothing(After(idle, before), idle, steps[|steps| - 1]);
    }
  }

  lemma NothingStamped(idle: Time)
    ensures LastShowsAll(START, idle)
  {
  }

  lemma StoreKeepsStamps(s: State, idle: Time, c: Connection)
    requires ClockInv(s) && Enabled(s, StoreClock(c)) && !s.quit && !Hides(s, idle, StoreClock(c))
    ensures StampInv(Apply(s, idle, StoreClock(c)), idle)
  {
    var t, clock := Apply(s, idle, StoreClock(c)), s.phases[c].clock;
    if forall y :: y in s.phases && y != c ==> Stamped(s.phases[y]) {
      forall x | x in t.phases ensures Past(t, idle, t.phases[x].end, t.lastClient) {
        assert x in s.phases && !Hidden(s, idle, clock, x);
      }
    } else {
      var y :| y in s.phases && y != c && !Stamped(s.phases[y]);
      assert y in t.phases && !Stamped(t.phases[y]);
    }
  }

  lemma StepKeepsStamps(s: State, idle: Time, step: Step)
    requires ClockInv(s) && StampInv(s, idle) && Enabled(s, step) && !s.quit && !Hides(s, idle, step)
    ensures StampInv(Apply(s, idle, step), idle)
  {
    var t := Apply(s, idle, step);
    if step.StoreClock? {
      StoreKeepsStamps(s, idle, step.c);
    } else if step.Accept? || step.EndServe? || step.ReadClock? {
      assert step.c in t.phases && !Stamped(t.phases[step.c]);
    } else if c :| c in s.phases && !Stamped(s.phases[c]) {
      assert c in t.phases && !Stamped(t.phases[c]);
    }
  }

  lemma CountSeesStamps(s: State, idle: Time)
    requires ClockInv(s) && StampInv(s, idle) && Enabled(s, Count) && s.clients == |Unreleased(s.phases)|
    ensures SeenInv(Apply(s, idle, Count), idle)
  {
    if s.clients == 0 {
      assert Unreleased(s.phases) == {};
      assert forall c :: c in s.phases && !s.phases[c].Released? ==> c in Unreleased(s.phases);
    }
  }

  lemma StepKeepsSeen(s: State, idle: Time, step: Step)
    requires ClockInv(s) && SeenInv(s, idle) && Enabled(s, step) && !step.Count?
    ensures SeenInv(Apply(s, idle, step), idle)
  {
  }

  lemma {:induction false} RunKeepsInvs(idle: Time, steps: seq<Step>)
    requires IsRun(idle, steps) && NeverHides(idle, steps) && !After(idle, steps).quit
    ensures StampInv(After(idle, steps), idle) && SeenInv(After(idle, steps), idle)
  {
    hide ClockInv, StampInv, SeenInv, Hides;
    if steps == [] {
      StartInvs(idle);
    } else {
      var before, step := steps[..|steps| - 1], steps[|steps| - 1];
      RunKeepsInvs(idle, before);
      ClocksArePast(idle, before);
      StepKeepsStamps(After(idle, before), idle, step);
      if step.Count? {
        ClientsAreUnreleased(idle, before);
        CountSeesStamps(After(idle, before), idle);
      } else {
        StepKeepsSeen(After(idle, before), idle, step);
      }
    }
  }

  /** The idle exit is sound. When a pass of the watcher ends the daemon although its root exists:
      no run was in progress in its snapshot, and each connection accepted before it counted had
      ended `idle` ago; unless it had counted an open one, and took `idle` to decide. */
  lemma {:induction false} IdleExitIsSound(idle: Time, steps: seq<Step>, polls: bool)
    requires IsRun(idle, steps) && NeverHides(idle, steps) && Enabled(After(idle, steps), Decide(polls, true))
    requires !After(idle, steps).quit && Apply(After(idle, steps), idle, Decide(polls, true)).quit
    ensures var s := After(idle, steps);
            && s.watcher.runs == 0 && !polls
            && if s.watcher.open then s.watcher.last + idle <= s.now
               else forall c :: c in s.watcher.seen ==> c in s.phases && s.phases[c].Released? && s.phases[c].end + idle <= s.now
  {
    RunKeepsInvs(idle, steps);
    ClocksArePast(idle, steps);
  }

  lemma {:induction false} RunExtends(idle: Time, steps: seq<Step>, step: Step)
    requires IsRun(idle, steps) && Enabled(After(idle, steps), step)
    ensures IsRun(idle, steps + [step]) && After(idle, steps + [step]) == Apply(After(idle, steps), idle, step)
  {
    assert (steps + [step])[..|steps|] == steps;
  }

  // ---- A stamp that hides a later end ---------------------------------------------------------

  predicate StampsNothing(steps: seq<Step>) {
    forall step :: step in steps ==> !step.StoreClock?
  }

  lemma {:induction false} Extends(idle: Time, steps: seq<Step>, more: seq<Step>, step: Step)
    requires IsRun(idle, steps + more) && StampsNothing(more) && Enabled(After(idle, steps + more), step) && !step.StoreClock?
    ensures IsRun(idle, steps + (more + [step])) && StampsNothing(more + [step])
    ensures After(idle, steps + (more + [step])) == Apply(After(idle, steps + more), idle, step)
  {
    RunExtends(idle, steps + more, step);
    assert steps + (more + [step]) == steps + more + [step];
  }

  predicate AllStamped(s: State) {
    forall y :: y in s.phases ==> Stamped(s.phases[y])
  }

  /** Connections that have all stored their end can all be released, with no time passing. */
  lemma {:induction false} ReleaseAll(idle: Time, steps: seq<Step>, before: seq<Step>) returns (more: seq<Step>)
    requires IsRun(idle, steps + before) && StampsNothing(before) && AllStamped(After(idle, steps + before))
    ensures IsRun(idle, steps + more) && StampsNothing(more)
    ensures var s, t := After(idle, steps + before), After(idle, steps + more);
            && t.phases.Keys == s.phases.Keys && t.clients == 0
            && (forall y :: y in s.phases ==> t.phases[y] == Released(s.phases[y].end))
            && t.now == s.now && t.lastClient == s.lastClient && t.runs == s.runs && t.watcher == s.watcher && t.quit == s.quit
    decreases |Unreleased(After(idle, steps + before).phases)|
  {
    hide IsRun, After;
    ClientsAreUnreleased(idle, steps + before);
    more := before;
    var s := After(idle, steps + before);
    if Unreleased(s.phases) != {} {
      var c :| c in Unreleased(s.phases);
      Extends(idle, steps, more, Release(c));
      UnreleasedChanges(s.phases, c, Released(s.phases[c].end));
      more := ReleaseAll(idle, steps, more + [Release(c)]);
    } else {
      assert forall y :: y in s.phases && !s.phases[y].Released? ==> y in Unreleased(s.phases);
    }
  }

  /** A pass in progress can end without a decision to quit, with no time passing. */
  lemma EndPass(idle: Time, steps: seq<Step>, before: seq<Step>) returns (more: seq<Step>)
    requires IsRun(idle, steps + before) && StampsNothing(before) && !After(idle, steps + before).quit
    ensures IsRun(idle, steps + more) && StampsNothing(more)
    ensures After(idle, steps + more) == After(idle, steps + before).(watcher := Sleeping)
  {
    hide IsRun, After;
    more := before;
    if After(idle, steps + more).watcher.Snapshotted? {
      Extends(idle, steps, more, Count);              more := more + [Count];
    }
    if After(idle, steps + more).watcher.Counted? {
      Extends(idle, steps, more, ReadLast);           more := more + [ReadLast];
    }
    if After(idle, steps + more).watcher.HasLast? {
      Extends(idle, steps, more, Decide(true, true)); more := more + [Decide(true, true)];
    }
  }

  /** A pass of the watcher that finds no client and no run, `idle` after the last stamp. */
  lemma PassAndQuit(idle: Time, steps: seq<Step>, before: seq<Step>) returns (more: seq<Step>)
    requires IsRun(idle, steps + before) && StampsNothing(before)
    requires var s := After(idle, steps + before); s.clients == 0 && s.watcher.Sleeping? && !s.quit
    ensures IsRun(idle, steps + more) && StampsNothing(more)
    ensures var s, t := After(idle, steps + before), After(idle, steps + more);
            && t.quit && t.phases == s.phases
            && t.now == if s.now < s.lastClient + idle then s.lastClient + idle else s.now
  {
    hide IsRun, After;
    more := before;
    var s := After(idle, steps + before);
    var wait := if s.now < s.lastClient + idle then s.lastClient + idle - s.now else 0;
    Extends(idle, steps, more, SetRuns(0));           more := more + [SetRuns(0)];
    Extends(idle, steps, more, Pass(wait));           more := more + [Pass(wait)];
    Extends(idle, steps, more, Snapshot);             more := more + [Snapshot];
    Extends(idle, steps, more, Count);                more := more + [Count];
    Extends(idle, steps, more, ReadLast);             more := more + [ReadLast];
    Extends(idle, steps, more, Decide(false, true));  more := more + [Decide(false, true)];
  }

  /** Hiding is exactly what goes wrong: any run, whatever its watcher is at, can go on from a
      stamp that hides an end to the daemon quitting, with nothing else stored, while the
      connection hidden still ended less than `idle` ago. */
  lemma LateStampEndsEarly(idle: Time, steps: seq<Step>, c: Connection) returns (more: seq<Step>, x: Connection)
    requires IsRun(idle, steps) && Enabled(After(idle, steps), StoreClock(c)) && Hides(After(idle, steps), idle, StoreClock(c))
    ensures IsRun(idle, steps + [StoreClock(c)] + more) && StampsNothing(more)
    ensures var s, t := After(idle, steps), After(idle, steps + [StoreClock(c)] + more);
            && x in s.phases && Hidden(s, idle, s.phases[c].clock, x)
            && t.quit && x in t.phases && t.phases[x] == Released(s.phases[x].end) && t.now < s.phases[x].end + idle
  {
    hide IsRun, After;
    var s := After(idle, steps);
    x :| x in s.phases && Hidden(s, idle, s.phases[c].clock, x);
    RunExtends(idle, steps, StoreClock(c));
    var stored := steps + [StoreClock(c)];
    assert stored + [] == stored;
    more := ReleaseAll(idle, stored, []);
    more := EndPass(idle, stored, more);
    more := PassAndQuit(idle, stored, more);
  }

  // ---- Open connections that are cut ----------------------------------------------------------

  /** The watcher is past its count, and saw no run. */
  predicate PastCount(s: State) {
    (s.watcher.Counted? || s.watcher.HasLast?) && s.watcher.runs == 0 && !s.quit
  }

  /** Once the watcher is past its count, it can quit within `idle` whoever connects after it. */
  lemma {:induction false} ConnectionAfterCountIsCut(idle: Time, steps: seq<Step>, c: Connection) returns (more: seq<Step>, d: Time)
    requires IsRun(idle, steps) && PastCount(After(idle, steps)) && c !in After(idle, steps).phases
    ensures d <= idle
    ensures more == [Accept(c)] + (if After(idle, steps).watcher.Counted? then [ReadLast] else []) + [Pass(d), Decide(false, true)]
    ensures IsRun(idle, steps + more)
    ensures After(idle, steps + more).quit && After(idle, steps + more).phases == After(idle, steps).phases[c := Open]
  {
    hide IsRun, After;
    ClocksArePast(idle, steps);
    var s := After(idle, steps);
    assert steps + [] == steps;
    more := [];
    Extends(idle, steps, more, Accept(c));            more := more + [Accept(c)];
    if s.watcher.Counted? {
      Extends(idle, steps, more, ReadLast);           more := more + [ReadLast];
    }
    var last := After(idle, steps + more).watcher.last;
    d := if s.now < last + idle then last + idle - s.now else 0;
    Extends(idle, steps, more, Pass(d));              more := more + [Pass(d)];
    Extends(idle, steps, more, Decide(false, true));  more := more + [Decide(false, true)];
  }

  /** With an idle limit of zero a pass that counted an open connection can quit at once. */
  lemma {:induction false} ZeroIdleEndsOpenConnection(steps: seq<Step>, c: Connection)
    requires IsRun(0, steps) && PastCount(After(0, steps)) && After(0, steps).watcher.HasLast? && After(0, steps).watcher.open
    requires c in After(0, steps).watcher.seen && c in After(0, steps).phases && After(0, steps).phases[c].Open?
    ensures IsRun(0, steps + [Decide(false, true)])
    ensures After(0, steps + [Decide(false, true)]) == After(0, steps).(watcher := Sleeping, quit := true)
  {
    RunExtends(0, steps, Decide(false, true));
  }

  /** And every run of a daemon that has not quit can come there, with a new connection counted. */
  lemma {:induction false} CanCountOpen(idle: Time, steps: seq<Step>, c: Connection) returns (more: seq<Step>)
    requires IsRun(idle, steps) && !After(idle, steps).quit && c !in After(idle, steps).phases
    ensures IsRun(idle, steps + more)
    ensures var t := After(idle, steps + more);
            && PastCount(t) && t.watcher.HasLast? && t.watcher.open && c in t.watcher.seen
            && t.phases == After(idle, steps).phases[c := Open]
  {
    hide IsRun, After;
    ClientsAreUnreleased(idle, steps);
    assert steps + [] == steps;
    more := EndPass(idle, steps, []);
    Extends(idle, steps, more, Accept(c));   more := more + [Accept(c)];
    Extends(idle, steps, more, SetRuns(0));  more := more + [SetRuns(0)];
    Extends(idle, steps, more, Snapshot);    more := more + [Snapshot];
    Extends(idle, steps, more, Count);       more := more + [Count];
  }

  // ---- The counters, as the code keeps them -------------------------------------------------

  /** A connection that ends: it reads the clock, stores it, and only then is no longer counted. */
  function Went(s: State, idle: Time, c: Connection): State
    requires Enabled(s, ReadClock(c))
  {
    Apply(Apply(Apply(s, idle, ReadClock(c)), idle, StoreClock(c)), idle, Release(c))
  }

  /** A pass of the watcher that takes `d` to decide, with nothing else in between. */
  function WatcherPass(s: State, idle: Time, d: Time, polls: bool, rootExists: bool): State
    requires s.watcher.Sleeping? && !s.quit
  {
    var counted := Apply(Apply(s, idle, Snapshot), idle, Count);
    var read := if counted.watcher.Counted? then Apply(counted, idle, ReadLast) else counted;
    Apply(Apply(read, idle, Pass(d)), idle, Decide(polls, rootExists))
  }

  /** The daemon's counters, tied to the state machine's: each method does what its steps do. */
  class Presence {
    var clients: nat
    var lastClient: Time
    var quit: bool

    ghost predicate Shows(s: State)
      reads this
    {
      clients == s.clients && lastClient == s.lastClient && quit == s.quit
    }

    constructor ()
      ensures Shows(START)
    {
      clients, lastClient, quit := 0, 0, false;
    }

    method Come(ghost s: State, ghost idle: Time, ghost c: Connection)
      requires Shows(s) && Enabled(s, Accept(c))
      modifies this
      ensures Shows(Apply(s, idle, Accept(c)))
    {
      clients := clients + 1;
    }

    method Stamp(clock: Time, ghost s: State, ghost idle: Time, ghost c: Connection)
      requires Shows(s) && Enabled(s, StoreClock(c)) && clock == s.phases[c].clock
      modifies this
      ensures Shows(Apply(s, idle, StoreClock(c)))
    {
      lastClient := clock;
    }

    /** Enabled only once the connection's stamp is stored. */
    method Leave(ghost s: State, ghost idle: Time, ghost c: Connection)
      requires Shows(s) && Enabled(s, Release(c)) && s.clients > 0
      modifies this
      ensures Shows(Apply(s, idle, Release(c)))
    {
      clients := clients - 1;
    }

    method Go(now: Time, ghost s: State, ghost idle: Time, ghost c: Connection)
      requires Shows(s) && Enabled(s, ReadClock(c)) && now == s.now && s.clients > 0
      modifies this
      ensures Shows(Went(s, idle, c))
    {
      ghost var clocked := Apply(s, idle, ReadClock(c));
      Stamp(now, clocked, idle, c);
      Leave(Apply(clocked, idle, StoreClock(c)), idle, c);
    }

    method Check(now: Time, later: Time, runs: nat, polls: bool, rootExists: bool, idle: Time, ghost s: State)
      returns (reason: Option<Reason>)
      requires Shows(s) && s.watcher.Sleeping? && now == s.now <= later && runs == s.runs
      modifies this
      ensures if s.quit then reason.None? && Shows(s) else Shows(WatcherPass(s, idle, later - now, polls, rootExists))
      ensures !s.quit ==> (reason.Some? <==> WatcherPass(s, idle, later - now, polls, rootExists).quit)
      ensures !s.quit ==>
                (reason.Some? <==>
                   || !rootExists
                   || (runs == 0 && !polls && (idle == 0 || (if s.clients > 0 then now else s.lastClient) + idle <= later)))
    {
      if quit {
        return None;
      }
      var last := if clients > 0 then now else lastClient;
      reason := ShouldExit(later, last, runs, polls, rootExists, idle);
      if reason.Some? {
        quit := true;
      }
    }
  }
}
