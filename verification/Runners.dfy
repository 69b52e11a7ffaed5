/** The daemon's runs: a slot for each node, changed one mutex section at a time. */
module Runners {
  import opened Text

  type Node = nat
  type RunId = nat

  const FAILED_PREFIX := "failed: "

  datatype Desired = Unset | Run | Pause | Stop

  datatype Outcome =
    | Done
    | NeedsHuman(request: bool)
    | BudgetExhausted
    | Stopped(reason: string)
    | Waiting(dueAt: int)

  datatype Slot = Slot(
    desired: Desired,
    starting: bool,
    run: Option<RunId>,
    live: string,
    since: int,
    outcome: Option<Outcome>,
    seenWaiting: bool)

  const EMPTY := Slot(Unset, false, None, "", 0, None, false)

  // ---- The sections of `start` and of a run's events --------------------------------------

  predicate Busy(slot: Slot) {
    slot.run.Some? || slot.starting
  }

  function Begun(slot: Slot): Slot {
    slot.(desired := Run, starting := true)
  }

  function Stored(slot: Slot, run: RunId, now: int): Slot {
    slot.(starting := false, run := Some(run), live := "", since := now, outcome := None, seenWaiting := false)
  }

  function StartFailed(slot: Slot, error: string): Slot {
    slot.(starting := false, run := None, live := "", outcome := Some(Stopped(FAILED_PREFIX + error)))
  }

  function Finished(slot: Slot, result: Result<Outcome, string>): Slot {
    slot.(run := None, live := "",
          outcome := Some(if result.Ok? then result.value else Stopped(FAILED_PREFIX + result.error)))
  }

  // ---- A tick -----------------------------------------------------------------------------

  predicate Due(slot: Slot, now: int) {
    slot.run.None? && slot.outcome.Some? && slot.outcome.value.Waiting? && slot.outcome.value.dueAt <= now
  }

  predicate OnRequest(slot: Slot) {
    slot.run.None? && slot.outcome.Some? && slot.outcome.value.NeedsHuman? && slot.outcome.value.request
  }

  function Looked(slot: Slot, waiting: bool): Slot {
    if waiting then slot.(seenWaiting := true) else slot
  }

  // ---- The reconciler ---------------------------------------------------------------------

  datatype Place = Local | Supervisor

  /** What explains the node, as far as the reconciler tells it apart. */
  datatype Actor = NotStarted | FailedRun | SomethingElse

  datatype Lease = Lease(lifecycle: bool, alive: bool, owner: string)

  datatype View = View(desired: Desired, starting: bool, activeRun: bool, outcomeNone: bool, place: Place)

  datatype Action =
    | Start(lost: Option<Lease>)
    | StopOwn
    | StopForeign(lease: Lease)
    | MovedToSandbox

  function FirstLease(leases: seq<Lease>, alive: bool): (r: Option<Lease>)
    ensures r.Some? ==> r.value in leases && r.value.lifecycle && r.value.alive == alive
    ensures r.None? ==> forall l :: l in leases && l.lifecycle ==> l.alive != alive
  {
    if leases == [] then None
    else if leases[0].lifecycle && leases[0].alive == alive then Some(leases[0])
    else FirstLease(leases[1..], alive)
  }

  function Decide(view: View, standing: Option<Actor>, leases: seq<Lease>): Option<Action> {
    match view.desired
    case Unset => None
    case Run =>
      if view.starting || view.activeRun || !view.outcomeNone then None
      else if view.place.Supervisor? then Some(MovedToSandbox)
      else if standing.None? then None
      else (match standing.value
            case NotStarted => Some(Start(None))
            case FailedRun =>
              var stale := FirstLease(leases, false);
              if stale.Some? then Some(Start(stale)) else None
            case SomethingElse => None)
    case _ =>
      if view.activeRun then Some(StopOwn)
      else
        var foreign := FirstLease(leases, true);
        if foreign.Some? then Some(StopForeign(foreign.value)) else None
  }

  function ViewOf(slot: Slot, place: Place, over: set<RunId>): View {
    View(slot.desired, slot.starting, slot.run.Some? && slot.run.value !in over, slot.outcome.None?, place)
  }

  function Taken(slot: Slot, over: set<RunId>): Slot {
    if slot.run.Some? && slot.run.value in over then slot.(run := None) else slot
  }

  /** What the reconciler reads beside the slots: where each node runs, what explains it, its
      leases, and the runs whose thread is over. */
  datatype Evidence = Evidence(
    places: map<Node, Place>,
    standings: map<Node, Actor>,
    leases: map<Node, seq<Lease>>,
    over: set<RunId>)

  function Get<K, V>(m: map<K, V>, k: K): Option<V> {
    if k in m then Some(m[k]) else None
  }

  // ---- The one rule, by evidence ------------------------------------------------------------

  function LeasesOf(e: Evidence, node: Node): seq<Lease> {
    if node in e.leases then e.leases[node] else []
  }

  predicate FirstAt(leases: seq<Lease>, alive: bool, k: nat) {
    && k < |leases| && leases[k].lifecycle && leases[k].alive == alive
    && forall j :: 0 <= j < k ==> !(leases[j].lifecycle && leases[j].alive == alive)
  }

  /** The first lifecycle lease that is alive, or that is not. */
  ghost predicate IsFirst(leases: seq<Lease>, alive: bool, lease: Lease) {
    exists k: nat :: FirstAt(leases, alive, k) && leases[k] == lease
  }

  predicate AtWork(slot: Slot, over: set<RunId>) {
    slot.run.Some? && slot.run.value !in over
  }

  /** The node is to run, and neither a start, a run at work nor an outcome says why it does not. */
  predicate ShouldRun(slot: Slot, over: set<RunId>) {
    slot.desired == Run && !slot.starting && !AtWork(slot, over) && slot.outcome.None?
  }

  predicate ShouldNotRun(slot: Slot) {
    slot.desired == Pause || slot.desired == Stop
  }

  /** What explains a node that does not run lets it be started: nothing does, or a run whose
      lease stopped beating. */
  ghost predicate LetsStart(standing: Option<Actor>, leases: seq<Lease>, lost: Option<Lease>) {
    || (standing == Some(NotStarted) && lost.None?)
    || (standing == Some(FailedRun) && lost.Some? && IsFirst(leases, false, lost.value))
  }

  ghost predicate Calls(slot: Slot, place: Place, e: Evidence, node: Node, action: Action) {
    match action
    case Start(lost) =>
      ShouldRun(slot, e.over) && place == Local && LetsStart(Get(e.standings, node), LeasesOf(e, node), lost)
    case MovedToSandbox => ShouldRun(slot, e.over) && place == Supervisor
    case StopOwn => ShouldNotRun(slot) && AtWork(slot, e.over)
    case StopForeign(lease) => ShouldNotRun(slot) && !AtWork(slot, e.over) && IsFirst(LeasesOf(e, node), true, lease)
  }

  lemma {:induction false} FirstLeaseIsFirst(leases: seq<Lease>, alive: bool)
    ensures forall lease :: FirstLease(leases, alive) == Some(lease) <==> IsFirst(leases, alive, lease)
  {
    if leases != [] {
      var rest := leases[1..];
      FirstLeaseIsFirst(rest, alive);
      if FirstAt(leases, alive, 0) {
        assert forall k: nat :: FirstAt(leases, alive, k) ==> k == 0;
      } else {
        forall k: nat ensures FirstAt(leases, alive, k + 1) <==> FirstAt(rest, alive, k) {
          assert FirstAt(rest, alive, k) ==> forall j :: 0 < j < k + 1 ==> leases[j] == rest[j - 1];
        }
        forall lease ensures IsFirst(leases, alive, lease) <==> IsFirst(rest, alive, lease) {
          if k: nat :| FirstAt(leases, alive, k) && leases[k] == lease {
            assert FirstAt(rest, alive, k - 1) && rest[k - 1] == lease;
          }
          if k: nat :| FirstAt(rest, alive, k) && rest[k] == lease {
            assert FirstAt(leases, alive, k + 1) && leases[k + 1] == lease;
          }
        }
      }
    }
  }

  lemma NoLeases()
    ensures forall alive, lease :: !IsFirst([], alive, lease)
  {
  }

  /** The decision is what the slot and the evidence call for, and at most one action is. */
  lemma DecisionIsCalledFor(slot: Slot, place: Place, e: Evidence, node: Node)
    ensures forall action ::
              Decide(ViewOf(slot, place, e.over), Get(e.standings, node), LeasesOf(e, node)) == Some(action)
              <==> Calls(slot, place, e, node, action)
  {
    hide IsFirst;
    FirstLeaseIsFirst(LeasesOf(e, node), true);
    FirstLeaseIsFirst(LeasesOf(e, node), false);
  }

  /** The slots, and the sections that change them. */
  class Table {
    var slots: map<Node, Slot>

    constructor ()
      ensures slots == map[]
    {
      slots := map[];
    }

    function At(node: Node): Slot
      reads this
    {
      if node in slots then slots[node] else EMPTY
    }

    method Begin(node: Node) returns (mine: bool)
      modifies this
      ensures mine <==> old(At(node)).run.None? && !old(At(node)).starting
      ensures slots == old(slots)[node := if mine then Begun(old(At(node))) else old(At(node)).(desired := Run)]
      ensures slots[node] == old(At(node)).(desired := Run, starting := mine || old(At(node)).starting)
    {
      var slot := At(node).(desired := Run);
      mine := slot.run.None? && !slot.starting;
      if mine {
        slot := slot.(starting := true);
      }
      slots := slots[node := slot];
    }

    method StoreRun(node: Node, run: RunId, now: int)
      modifies this
      ensures slots == old(slots)[node := Stored(old(At(node)), run, now)]
      ensures slots[node] == Slot(old(At(node)).desired, false, Some(run), "", now, None, false)
    {
      var slot := At(node);
      slot := slot.(starting := false);
      slot := slot.(run := Some(run));
      slot := slot.(live := "", since := now, outcome := None, seenWaiting := false);
      slots := slots[node := slot];
    }

    method RecordStartFailure(node: Node, error: string)
      modifies this
      ensures slots == old(slots)[node := StartFailed(old(At(node)), error)]
      ensures var was := old(At(node));
              slots[node] == Slot(was.desired, false, None, "", was.since, Some(Stopped("failed: " + error)), was.seenWaiting)
    {
      var slot := At(node);
      slot := slot.(starting := false, run := None, live := "");
      slot := slot.(outcome := Some(Stopped(FAILED_PREFIX + error)));
      slots := slots[node := slot];
    }

    /** `start` when nothing else comes between its sections. `place` is what the store says of
        the node, `spawned` what starting a run gives. */
    method Start(node: Node, place: Result<Place, string>, spawned: Result<RunId, string>, now: int)
      returns (r: Result<(), string>)
      modifies this
      ensures place != Ok(Local) ==> r.Err? && slots == old(slots)
      ensures place == Ok(Local) && Busy(old(At(node))) ==> r.Ok? && slots == old(slots)[node := old(At(node)).(desired := Run)]
      ensures place == Ok(Local) && !Busy(old(At(node))) ==>
                && (r.Ok? <==> spawned.Ok?)
                && slots == old(slots)[node := if spawned.Ok? then Stored(Begun(old(At(node))), spawned.value, now)
                                              else StartFailed(Begun(old(At(node))), spawned.error)]
    {
      if place.Err? {
        return Err(place.error);
      }
      if place.value.Supervisor? {
        return Err("supervised");
      }
      var mine := Begin(node);
      if !mine {
        return Ok(());
      }
      if spawned.Ok? {
        StoreRun(node, spawned.value, now);
        return Ok(());
      }
      RecordStartFailure(node, spawned.error);
      return Err(spawned.error);
    }

    method OnLive(node: Node, live: string)
      modifies this
      ensures slots == if node in old(slots) then old(slots)[node := old(slots[node]).(live := live)] else old(slots)
    {
      if node in slots {
        slots := slots[node := slots[node].(live := live)];
      }
    }

    method OnFinished(node: Node, result: Result<Outcome, string>)
      modifies this
      ensures slots == if node in old(slots) then old(slots)[node := Finished(old(slots[node]), result)] else old(slots)
      ensures node in slots ==>
                && slots[node].run.None? && slots[node].live == ""
                && (result.Ok? ==> slots[node].outcome == Some(result.value))
                && (result.Err? ==> slots[node].outcome == Some(Stopped("failed: " + result.error)))
      ensures node in slots ==> slots[node].(run := None, live := "", outcome := None)
                                == old(slots[node]).(run := None, live := "", outcome := None)
    {
      if node in slots {
        var slot := slots[node].(run := None, live := "");
        var outcome := match result case Ok(o) => o case Err(error) => Stopped(FAILED_PREFIX + error);
        slots := slots[node := slot.(outcome := Some(outcome))];
      }
    }

    method Pause(node: Node) returns (asked: Option<RunId>)
      modifies this
      ensures slots == old(slots)[node := old(At(node)).(desired := Desired.Pause)] && asked == old(At(node)).run
    {
      slots := slots[node := At(node).(desired := Desired.Pause)];
      asked := slots[node].run;
    }

    method StopNow(node: Node) returns (asked: Option<RunId>)
      modifies this
      ensures slots == old(slots)[node := old(At(node)).(desired := Desired.Stop)] && asked == old(At(node)).run
    {
      slots := slots[node := At(node).(desired := Desired.Stop)];
      asked := slots[node].run;
    }

    /** The first section of a tick: the nodes whose wait is due, and those on a request. */
    method SelectDue(now: int) returns (due: seq<Node>, requests: seq<Node>)
      ensures forall n :: n in due <==> n in slots && Due(slots[n], now)
      ensures forall n :: n in requests <==> n in slots && OnRequest(slots[n])
      ensures forall n :: n in due <==>
                n in slots && slots[n].run.None? && exists at: int :: at <= now && slots[n].outcome == Some(Outcome.Waiting(at))
      ensures forall n :: n in requests <==> n in slots && slots[n].run.None? && slots[n].outcome == Some(NeedsHuman(true))
    {
      due, requests := [], [];
      var left := slots.Keys;
      while left != {}
        invariant left <= slots.Keys
        invariant forall n :: n in due <==> n in slots && n !in left && Due(slots[n], now)
        invariant forall n :: n in requests <==> n in slots && n !in left && OnRequest(slots[n])
        decreases left
      {
        var node :| node in left;
        left := left - {node};
        var slot := slots[node];
        if slot.run.None? && slot.outcome.Some? {
          match slot.outcome.value {
            case Waiting(at) => if at <= now { due := due + [node]; }
            case NeedsHuman(request) => if request { requests := requests + [node]; }
            case _ =>
          }
        }
      }
    }

    /** The second section of a tick: which requests were answered since a tick saw them wait. */
    method LookAtRequests(requests: seq<Node>, waiting: set<Node>) returns (resume: seq<Node>)
      modifies this
      ensures slots == map n | n in old(slots) :: if n in requests then Looked(old(slots)[n], n in waiting) else old(slots)[n]
      ensures forall n :: n in slots ==>
                slots[n] == old(slots)[n].(seenWaiting := old(slots)[n].seenWaiting || (n in requests && n in waiting))
      ensures forall n :: n in resume <==> n in requests && n in old(slots) && n !in waiting && old(slots)[n].seenWaiting
    {
      resume := [];
      for i := 0 to |requests|
        invariant slots == map n | n in old(slots) :: if n in requests[..i] then Looked(old(slots)[n], n in waiting) else old(slots)[n]
        invariant forall n :: n in resume <==> n in requests[..i] && n in old(slots) && n !in waiting && old(slots)[n].seenWaiting
      {
        var node := requests[i];
        assert requests[..i + 1] == requests[..i] + [node];
        if node in slots {
          if node in waiting {
            slots := slots[node := slots[node].(seenWaiting := true)];
          } else if slots[node].seenWaiting {
            resume := resume + [node];
          }
        }
      }
      assert requests[..|requests|] == requests;
    }

    /** The reconciler's plan: an action for each node whose slot and evidence call for it. */
    method Plan(e: Evidence) returns (plan: seq<(Node, Action)>)
      ensures forall n: Node, lost :: (n, Action.Start(lost)) in plan <==>
                && n in slots && n in e.places && ShouldRun(slots[n], e.over) && e.places[n] == Local && n in e.standings
                && ((e.standings[n] == NotStarted && lost.None?) ||
                    (e.standings[n] == FailedRun && lost.Some? && n in e.leases && IsFirst(e.leases[n], false, lost.value)))
      ensures forall n: Node :: (n, MovedToSandbox) in plan <==>
                n in slots && n in e.places && ShouldRun(slots[n], e.over) && e.places[n] == Supervisor
      ensures forall n: Node :: (n, StopOwn) in plan <==>
                n in slots && n in e.places && ShouldNotRun(slots[n]) && AtWork(slots[n], e.over)
      ensures forall n: Node, lease :: (n, StopForeign(lease)) in plan <==>
                && n in slots && n in e.places && ShouldNotRun(slots[n]) && !AtWork(slots[n], e.over)
                && n in e.leases && IsFirst(e.leases[n], true, lease)
    {
      hide Decide, ShouldRun, ShouldNotRun, AtWork, IsFirst;
      NoLeases();
      plan := [];
      var left := slots.Keys;
      while left != {}
        invariant left <= slots.Keys
        invariant forall n: Node, a :: (n, a) in plan <==>
                    n in slots && n in e.places && n !in left && Calls(slots[n], e.places[n], e, n, a)
        decreases left
      {
        var node :| node in left;
        left := left - {node};
        if node in e.places {
          DecisionIsCalledFor(slots[node], e.places[node], e, node);
          var action := Decide(ViewOf(slots[node], e.places[node], e.over), Get(e.standings, node), LeasesOf(e, node));
          if action.Some? {
            plan := plan + [(node, action.value)];
          }
        }
      }
    }

    /** Before the reconciler starts a node: a run whose thread is over leaves the slot. */
    method TakeDead(node: Node, over: set<RunId>) returns (dead: Option<RunId>)
      modifies this
      ensures slots == if node in old(slots) then old(slots)[node := Taken(old(slots[node]), over)] else old(slots)
      ensures dead.Some? <==> node in old(slots) && old(slots[node]).run.Some? && old(slots[node]).run.value in over
      ensures dead.Some? ==> dead == old(slots[node]).run && slots == old(slots)[node := old(slots[node]).(run := None)]
      ensures dead.None? ==> slots == old(slots)
    {
      dead := None;
      if node in slots && slots[node].run.Some? && slots[node].run.value in over {
        dead := slots[node].run;
        slots := slots[node := slots[node].(run := None)];
      }
    }
  }
}
