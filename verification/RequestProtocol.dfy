/** The daemon's exactly-once requests: a client sends a command again under one id after a
    lost connection, and the daemon answers from what it remembers. */
module RequestProtocol {
  import opened Text
  import Seqs

  type Id = nat

  datatype Response = Response(ok: bool, body: string)

  datatype Entry = Entry(id: Id, response: Response)

  /** How many answered requests are remembered. */
  const REMEMBERED: nat := 512

  // ---- What the daemon remembers ---------------------------------------------------------

  function Find(queue: seq<Entry>, id: Id): (r: Option<Response>)
    ensures r.Some? ==> Entry(id, r.value) in queue
    ensures r.None? <==> forall e :: e in queue ==> e.id != id
  {
    if queue == [] then None
    else if queue[0].id == id then Some(queue[0].response)
    else Find(queue[1..], id)
  }

  function Remembering(queue: seq<Entry>, e: Entry): seq<Entry> {
    var longer := queue + [e];
    if |longer| > REMEMBERED then longer[1..] else longer
  }

  /** The last `n` entries. */
  function LastOf(entries: seq<Entry>, n: nat): seq<Entry> {
    if |entries| <= n then entries else entries[|entries| - n..]
  }

  lemma RememberingKeepsLast(entries: seq<Entry>, e: Entry)
    ensures Remembering(LastOf(entries, REMEMBERED), e) == LastOf(entries + [e], REMEMBERED)
  {
  }

  /** The daemon's memory of answers, and the sections of `answer`. */
  class AnswerMemory {
    var answered: seq<Entry>

    constructor ()
      ensures answered == []
    {
      answered := [];
    }

    method Lookup(id: Id) returns (r: Option<Response>)
      ensures r == Find(answered, id)
    {
      for k := 0 to |answered|
        invariant Find(answered, id) == Find(answered[k..], id)
      {
        if answered[k].id == id {
          return Some(answered[k].response);
        }
        assert answered[k..][1..] == answered[k + 1..];
      }
      return None;
    }

    method Remember(id: Id, response: Response)
      modifies this
      ensures answered == Remembering(old(answered), Entry(id, response))
    {
      answered := answered + [Entry(id, response)];
      if |answered| > REMEMBERED {
        answered := answered[1..];
      }
    }

    /** `answer` on its own: `outcome` is what executing the command gives, if it comes to that. */
    method Answer(id: Option<Id>, outcome: Response) returns (response: Response, executed: bool)
      modifies this
      ensures executed <==> id.None? || old(Find(answered, id.value)).None?
      ensures response == if executed then outcome else old(Find(answered, id.value)).value
      ensures answered ==
              if executed && id.Some? then Remembering(old(answered), Entry(id.value, outcome)) else old(answered)
    {
      if id.Some? {
        var seen := Lookup(id.value);
        if seen.Some? {
          return seen.value, false;
        }
      }
      response, executed := outcome, true;
      if id.Some? {
        Remember(id.value, response);
      }
    }
  }

  // ---- The protocol, as a state machine ---------------------------------------------------

  /** Where the daemon is with one arrival of a request. The three sections of `answer` (look
      up, execute, remember) are separate steps. */
  datatype Stage =
    | Arrived
    | Missed
    | Executed(response: Response)
    | Answered(response: Response)

  /** One attempt of a call that reached the daemon. */
  datatype Arrival = Arrival(id: Id, attempt: nat)

  /** Where a client is with one call: about to send its next attempt, waiting for the reply to
      one, or done. */
  datatype Call =
    | Sending(attempt: nat)
    | Waiting(attempt: nat)
    | Returned(response: Response)
    | GaveUp

  const ATTEMPTS: nat := 3

  /** `executed` is what any daemon executed, `earlier` the ids that were by the time this daemon
      started, and `remembered` what it has remembered since. */
  datatype State = State(
    queue: seq<Entry>,
    arrivals: map<Arrival, Stage>,
    calls: map<Id, Call>,
    executed: seq<Entry>,
    remembered: seq<Entry>,
    earlier: set<Id>)

  const START := State([], map[], map[], [], [], {})

  datatype Step =
    | Begin(id: Id)
    | NotSent(id: Id)
    | Send(id: Id)
    | Lose(id: Id)
    | LookUp(arrival: Arrival)
    | Execute(arrival: Arrival, response: Response)
    | Remember(arrival: Arrival)
    | Deliver(id: Id)
    /** The daemon ends, with whatever it is at, and another starts, remembering nothing. */
    | Restart

  function NextAttempt(attempt: nat): Call {
    if attempt + 1 < ATTEMPTS then Sending(attempt + 1) else GaveUp
  }

  predicate Enabled(s: State, step: Step) {
    match step
    case Begin(id) => id !in s.calls
    case NotSent(id) => id in s.calls && s.calls[id].Sending?
    case Send(id) => id in s.calls && s.calls[id].Sending? && Arrival(id, s.calls[id].attempt) !in s.arrivals
    case Lose(id) => id in s.calls && s.calls[id].Waiting?
    case LookUp(a) => a in s.arrivals && s.arrivals[a] == Arrived
    case Execute(a, _) => a in s.arrivals && s.arrivals[a] == Missed
    case Remember(a) => a in s.arrivals && s.arrivals[a].Executed?
    case Deliver(id) =>
      && id in s.calls && s.calls[id].Waiting?
      && var a := Arrival(id, s.calls[id].attempt); a in s.arrivals && s.arrivals[a].Answered?
    case Restart => true
  }

  function IdsOf(entries: seq<Entry>): set<Id> {
    set e | e in entries :: e.id
  }

  function OnlyAnswered(arrivals: map<Arrival, Stage>): map<Arrival, Stage> {
    map a | a in arrivals && arrivals[a].Answered? :: arrivals[a]
  }

  function Apply(s: State, step: Step): State
    requires Enabled(s, step)
  {
    match step
    case Begin(id) => s.(calls := s.calls[id := Sending(0)])
    case NotSent(id) => s.(calls := s.calls[id := NextAttempt(s.calls[id].attempt)])
    case Send(id) =>
      var attempt := s.calls[id].attempt;
      s.(calls := s.calls[id := Waiting(attempt)], arrivals := s.arrivals[Arrival(id, attempt) := Arrived])
    case Lose(id) => s.(calls := s.calls[id := NextAttempt(s.calls[id].attempt)])
    case LookUp(a) =>
      var seen := Find(s.queue, a.id);
      s.(arrivals := s.arrivals[a := if seen.Some? then Answered(seen.value) else Missed])
    case Execute(a, response) =>
      s.(arrivals := s.arrivals[a := Executed(response)], executed := s.executed + [Entry(a.id, response)])
    case Remember(a) =>
      var e := Entry(a.id, s.arrivals[a].response);
      s.(arrivals := s.arrivals[a := Answered(e.response)],
         queue := Remembering(s.queue, e),
         remembered := s.remembered + [e])
    case Deliver(id) =>
      var a := Arrival(id, s.calls[id].attempt);
      s.(calls := s.calls[id := Returned(s.arrivals[a].response)])
    case Restart => s.(queue := [], remembered := [], arrivals := OnlyAnswered(s.arrivals), earlier := IdsOf(s.executed))
  }

  /** Every interleaving of clients, losses, daemon threads and restarts. */
  predicate IsRun(steps: seq<Step>)
    decreases |steps|, 0
  {
    steps == [] || (IsRun(steps[..|steps| - 1]) && Enabled(After(steps[..|steps| - 1]), steps[|steps| - 1]))
  }

  function After(steps: seq<Step>): State
    requires IsRun(steps)
    decreases |steps|, 1
  {
    if steps == [] then START else Apply(After(steps[..|steps| - 1]), steps[|steps| - 1])
  }

  // ---- The three limits ------------------------------------------------------------------

  predicate Pending(s: State, a: Arrival) {
    a in s.arrivals && (s.arrivals[a].Missed? || s.arrivals[a].Executed?)
  }

  /** No other arrival of the id is between its look-up and its remembering. */
  ghost predicate NoOverlap(s: State, a: Arrival) {
    forall b :: b in s.arrivals && b.id == a.id ==> !Pending(s, b)
  }

  /** Fewer than `REMEMBERED` ids were remembered after this one. */
  ghost predicate StillRemembered(s: State, id: Id) {
    forall i :: 0 <= i < |s.remembered| && s.remembered[i].id == id ==> |s.remembered| - i - 1 < REMEMBERED
  }

  /** At each look-up of the run no other arrival of the id was pending. */
  ghost predicate NeverOverlaps(steps: seq<Step>)
    requires IsRun(steps)
  {
    steps != [] ==>
      var before, step := steps[..|steps| - 1], steps[|steps| - 1];
      NeverOverlaps(before) && (step.LookUp? ==> NoOverlap(After(before), step.arrival))
  }

  /** At each look-up of the run fewer than `REMEMBERED` ids were remembered after that id. */
  ghost predicate NeverForgets(steps: seq<Step>)
    requires IsRun(steps)
  {
    steps != [] ==>
      var before, step := steps[..|steps| - 1], steps[|steps| - 1];
      NeverForgets(before) && (step.LookUp? ==> StillRemembered(After(before), step.arrival.id))
  }

  /** At each look-up of the run no earlier daemon had executed that id. */
  ghost predicate NeverOutlives(steps: seq<Step>)
    requires IsRun(steps)
  {
    steps != [] ==>
      var before, step := steps[..|steps| - 1], steps[|steps| - 1];
      NeverOutlives(before) && (step.LookUp? ==> step.arrival.id !in After(before).earlier)
  }

  ghost predicate WithinLimits(steps: seq<Step>)
    requires IsRun(steps)
  {
    NeverOverlaps(steps) && NeverForgets(steps) && NeverOutlives(steps)
  }

  /** The look-up is within each limit. */
  ghost predicate Safe(s: State, a: Arrival) {
    NoOverlap(s, a) && StillRemembered(s, a.id) && a.id !in s.earlier
  }

  // ---- At most once ----------------------------------------------------------------------

  ghost predicate DistinctIds(entries: seq<Entry>) {
    forall i, j :: 0 <= i < j < |entries| ==> entries[i].id != entries[j].id
  }

  ghost predicate HasId(entries: seq<Entry>, id: Id) {
    exists i :: 0 <= i < |entries| && entries[i].id == id
  }

  /** Every execution is an earlier daemon's, is remembered, or is of an arrival still to be. */
  ghost predicate Accounted(s: State, e: Entry) {
    e.id in s.earlier || e in s.remembered || exists a :: a in s.arrivals && a.id == e.id && s.arrivals[a] == Executed(e.response)
  }

  ghost predicate ArrivalInv(s: State, a: Arrival)
    requires a in s.arrivals
  {
    match s.arrivals[a]
    case Arrived => true
    case Missed => !HasId(s.executed, a.id)
    case Executed(r) => Entry(a.id, r) in s.executed && !HasId(s.remembered, a.id) && a.id !in s.earlier
    case Answered(r) => Entry(a.id, r) in s.executed
  }

  ghost predicate Inv(s: State) {
    && DistinctIds(s.executed)
    && DistinctIds(s.remembered)
    && s.queue == LastOf(s.remembered, REMEMBERED)
    && (forall e :: e in s.remembered ==> e in s.executed && e.id !in s.earlier)
    && (forall id :: id in s.earlier ==> HasId(s.executed, id))
    && (forall e :: e in s.executed ==> Accounted(s, e))
    && (forall a :: a in s.arrivals ==> ArrivalInv(s, a))
    && (forall a, b :: Pending(s, a) && Pending(s, b) && a.id == b.id ==> a == b)
    && (forall id :: id in s.calls && s.calls[id].Returned? ==> Entry(id, s.calls[id].response) in s.executed)
  }

  /** Within the second limit, an id that was remembered is still in the queue. */
  lemma {:induction false} RememberedIsFound(s: State, id: Id)
    requires Inv(s) && StillRemembered(s, id) && HasId(s.remembered, id)
    ensures Find(s.queue, id).Some?
  {
    var i :| 0 <= i < |s.remembered| && s.remembered[i].id == id;
    var dropped := |s.remembered| - |s.queue|;
    assert s.queue == s.remembered[dropped..];
    assert s.queue[i - dropped] == s.remembered[i];
    assert s.queue[i - dropped] in s.queue;
  }

  lemma AccountedByPending(s: State, e: Entry)
    requires Accounted(s, e) && e !in s.remembered && e.id !in s.earlier
    ensures exists b: Arrival :: b.id == e.id && Pending(s, b)
  {
    var b :| b in s.arrivals && b.id == e.id && s.arrivals[b] == Executed(e.response);
    assert Pending(s, b);
  }

  lemma RememberedWasExecuted(s: State, id: Id)
    requires Inv(s)
    ensures HasId(s.remembered, id) ==> HasId(s.executed, id)
  {
    if HasId(s.remembered, id) {
      var i :| 0 <= i < |s.remembered| && s.remembered[i].id == id;
      assert s.remembered[i] in s.remembered;
      var j :| 0 <= j < |s.executed| && s.executed[j] == s.remembered[i];
    }
  }

  lemma LookUpKeepsInv(s: State, a: Arrival)
    requires Inv(s) && Enabled(s, LookUp(a)) && Safe(s, a)
    ensures Inv(Apply(s, LookUp(a)))
  {
    var t := Apply(s, LookUp(a));
    var seen := Find(s.queue, a.id);
    if seen.Some? {
      assert Entry(a.id, seen.value) in s.remembered;
    } else if HasId(s.executed, a.id) {
      var i :| 0 <= i < |s.executed| && s.executed[i].id == a.id;
      var e := s.executed[i];
      assert e in s.executed && Accounted(s, e);
      if e in s.remembered {
        assert HasId(s.remembered, a.id);
        RememberedIsFound(s, a.id);
      } else {
        AccountedByPending(s, e);
      }
      assert false;
    }
    forall e | e in t.executed ensures Accounted(t, e) {
      assert Accounted(s, e);
      if e !in s.remembered && e.id !in s.earlier {
        var b :| b in s.arrivals && b.id == e.id && s.arrivals[b] == Executed(e.response);
        assert b in t.arrivals && t.arrivals[b] == Executed(e.response);
      }
    }
    forall b | b in t.arrivals ensures ArrivalInv(t, b) {
      assert b in s.arrivals && ArrivalInv(s, b);
    }
    forall b, c | Pending(t, b) && Pending(t, c) && b.id == c.id ensures b == c {
      assert b != a ==> Pending(s, b);
      assert c != a ==> Pending(s, c);
    }
  }

  lemma HasIdAppend(entries: seq<Entry>, e: Entry, id: Id)
    ensures HasId(entries + [e], id) <==> HasId(entries, id) || e.id == id
  {
    if HasId(entries, id) {
      var i :| 0 <= i < |entries| && entries[i].id == id;
      assert (entries + [e])[i].id == id;
    }
    if e.id == id {
      assert (entries + [e])[|entries|].id == id;
    }
  }

  lemma ExecuteKeepsInv(s: State, a: Arrival, response: Response)
    requires Inv(s) && Enabled(s, Execute(a, response))
    ensures Inv(Apply(s, Execute(a, response)))
  {
    var t, e := Apply(s, Execute(a, response)), Entry(a.id, response);
    assert ArrivalInv(s, a) && Pending(s, a);
    assert e in t.executed && t.executed == s.executed + [e];
    forall x | x in t.executed ensures Accounted(t, x) {
      if x == e {
        assert t.arrivals[a] == Executed(e.response);
      } else {
        assert x in s.executed && Accounted(s, x);
        if x !in s.remembered && x.id !in s.earlier {
          var b :| b in s.arrivals && b.id == x.id && s.arrivals[b] == Executed(x.response);
          assert t.arrivals[b] == Executed(x.response);
        }
      }
    }
    RememberedWasExecuted(s, a.id);
    forall id | id in t.earlier ensures HasId(t.executed, id) {
      HasIdAppend(s.executed, e, id);
    }
    forall b | b in t.arrivals ensures ArrivalInv(t, b) {
      assert b in s.arrivals && ArrivalInv(s, b);
      HasIdAppend(s.executed, e, b.id);
      if b != a && s.arrivals[b].Missed? {
        assert Pending(s, b);
      }
    }
    forall b, c | Pending(t, b) && Pending(t, c) && b.id == c.id ensures b == c {
      assert Pending(s, b) && Pending(s, c);
    }
  }

  lemma RememberKeepsInv(s: State, a: Arrival)
    requires Inv(s) && Enabled(s, Remember(a))
    ensures Inv(Apply(s, Remember(a)))
  {
    var t, e := Apply(s, Remember(a)), Entry(a.id, s.arrivals[a].response);
    assert ArrivalInv(s, a) && Pending(s, a);
    RememberingKeepsLast(s.remembered, e);
    assert e in t.remembered;
    forall x | x in t.executed ensures Accounted(t, x) {
      assert Accounted(s, x);
      if x in s.remembered {
        assert x in t.remembered;
      } else if x.id !in s.earlier {
        var b :| b in s.arrivals && b.id == x.id && s.arrivals[b] == Executed(x.response);
        if b != a {
          assert t.arrivals[b] == Executed(x.response);
        }
      }
    }
    forall b | b in t.arrivals ensures ArrivalInv(t, b) {
      assert b in s.arrivals && ArrivalInv(s, b);
      HasIdAppend(s.remembered, e, b.id);
      if b != a && s.arrivals[b].Executed? {
        assert Pending(s, b);
      }
    }
    forall b, c | Pending(t, b) && Pending(t, c) && b.id == c.id ensures b == c {
      assert Pending(s, b) && Pending(s, c);
    }
  }

  /** The client's steps touch neither what was executed nor what is remembered. */
  lemma ClientStepKeepsInv(s: State, step: Step)
    requires Inv(s) && Enabled(s, step) && !step.LookUp? && !step.Execute? && !step.Remember? && !step.Restart?
    ensures Inv(Apply(s, step))
  {
    var t := Apply(s, step);
    assert t.executed == s.executed && t.remembered == s.remembered && t.queue == s.queue;
    forall x | x in t.executed ensures Accounted(t, x) {
      assert Accounted(s, x);
      if x !in s.remembered && x.id !in s.earlier {
        var b :| b in s.arrivals && b.id == x.id && s.arrivals[b] == Executed(x.response);
        assert t.arrivals[b] == Executed(x.response);
      }
    }
    forall b | b in t.arrivals ensures ArrivalInv(t, b) {
      assert b in s.arrivals ==> ArrivalInv(s, b);
    }
    forall b, c | Pending(t, b) && Pending(t, c) && b.id == c.id ensures b == c {
      assert Pending(s, b) && Pending(s, c);
    }
    if step.Deliver? {
      assert ArrivalInv(s, Arrival(step.id, s.calls[step.id].attempt));
    }
  }

  lemma RestartKeepsInv(s: State)
    requires Inv(s)
    ensures Inv(Apply(s, Restart))
  {
    var t := Apply(s, Restart);
    forall e | e in t.executed ensures Accounted(t, e) {
    }
    forall id | id in t.earlier ensures HasId(t.executed, id) {
      var e :| e in s.executed && e.id == id;
      var i :| 0 <= i < |s.executed| && s.executed[i] == e;
    }
    forall a | a in t.arrivals ensures ArrivalInv(t, a) {
      assert ArrivalInv(s, a);
    }
  }

  lemma {:induction false} RunKeepsInv(steps: seq<Step>)
    requires IsRun(steps) && WithinLimits(steps)
    ensures Inv(After(steps))
  {
    hide Inv;
    if steps == [] {
      StartInv();
    } else {
      var before, step := steps[..|steps| - 1], steps[|steps| - 1];
      RunKeepsInv(before);
      var s := After(before);
      match step
      case LookUp(a) => LookUpKeepsInv(s, a);
      case Execute(a, response) => ExecuteKeepsInv(s, a, response);
      case Remember(a) => RememberKeepsInv(s, a);
      case Restart => RestartKeepsInv(s);
      case _ => ClientStepKeepsInv(s, step);
    }
  }

  lemma StartInv()
    ensures Inv(START)
  {
  }

  /** How often a command was executed. */
  function Executions(executed: seq<Entry>, id: Id): nat {
    if executed == [] then 0
    else Executions(executed[..|executed| - 1], id) + if executed[|executed| - 1].id == id then 1 else 0
  }

  lemma {:induction false} ExecutionsCounted(executed: seq<Entry>, id: Id)
    ensures Executions(executed, id) > 0 <==> HasId(executed, id)
    ensures DistinctIds(executed) ==> Executions(executed, id) <= 1
  {
    if executed != [] {
      var before, last := executed[..|executed| - 1], executed[|executed| - 1];
      ExecutionsCounted(before, id);
      HasIdAppend(before, last, id);
      assert executed == before + [last];
      if DistinctIds(executed) && HasId(before, id) {
        var i :| 0 <= i < |before| && before[i].id == id;
        assert executed[i].id == id && last == executed[|executed| - 1];
      }
    }
  }

  /** Within the limits, over every interleaving and any restarts: a command sent by a call is executed at
      most once, also after the call gave up; and a call that returned was executed exactly
      once, and has that execution's response. */
  lemma {:induction false} AtMostOnce(steps: seq<Step>, id: Id)
    requires IsRun(steps) && WithinLimits(steps)
    ensures var s := After(steps);
            && Executions(s.executed, id) <= 1
            && (id in s.calls && s.calls[id].Returned? ==>
                  Executions(s.executed, id) == 1 && Entry(id, s.calls[id].response) in s.executed)
  {
    RunKeepsInv(steps);
    var s := After(steps);
    ExecutionsCounted(s.executed, id);
    if id in s.calls && s.calls[id].Returned? {
      var e := Entry(id, s.calls[id].response);
      var i :| 0 <= i < |s.executed| && s.executed[i] == e;
      assert HasId(s.executed, id);
    }
  }

  /** Within the limits the queue is the daemon's last answers, under distinct ids. */
  lemma {:induction false} QueueIsLastAnswers(steps: seq<Step>)
    requires IsRun(steps) && WithinLimits(steps)
    ensures var s := After(steps);
            s.queue == LastOf(s.remembered, 512) && DistinctIds(s.queue) && |s.queue| <= 512
  {
    RunKeepsInv(steps);
    var s := After(steps);
    var dropped := |s.remembered| - |s.queue|;
    assert forall i :: 0 <= i < |s.queue| ==> s.queue[i] == s.remembered[dropped + i];
  }

  // ---- The limits are needed --------------------------------------------------------------

  lemma {:induction false} RunExtends(steps: seq<Step>, step: Step)
    requires IsRun(steps) && Enabled(After(steps), step)
    ensures IsRun(steps + [step]) && After(steps + [step]) == Apply(After(steps), step)
  {
    assert (steps + [step])[..|steps|] == steps;
  }

  /** Outside the limits, exactly: in any run, when a look-up misses although another arrival
      of the id is still pending or the id was executed before, two more steps can execute the
      command again. */
  lemma MissCanExecuteTwice(steps: seq<Step>, a: Arrival, b: Arrival, response: Response) returns (more: seq<Step>)
    requires IsRun(steps) && Enabled(After(steps), LookUp(a)) && Find(After(steps).queue, a.id).None?
    requires (b.id == a.id && b != a && Pending(After(steps), b)) || Executions(After(steps).executed, a.id) > 0
    ensures IsRun(steps + more) && more != [] && more[0] == LookUp(a) && forall k :: 1 <= k < |more| ==> more[k].Execute?
    ensures Executions(After(steps + more).executed, a.id) >= 2
  {
    var s := After(steps);
    RunExtends(steps, LookUp(a));
    var s1 := Apply(s, LookUp(a));
    var steps1 := steps + [LookUp(a)];
    RunExtends(steps1, Execute(a, response));
    var s2 := Apply(s1, Execute(a, response));
    var steps2 := steps1 + [Execute(a, response)];
    ExecutedAgain(s1.executed, Entry(a.id, response));
    if Executions(s.executed, a.id) > 0 {
      more := [LookUp(a), Execute(a, response)];
      assert steps + more == steps2;
    } else {
      if s.arrivals[b].Executed? {
        PendingWasExecuted(steps, b);
        assert false;
      }
      RunExtends(steps2, Execute(b, response));
      ExecutedAgain(s2.executed, Entry(b.id, response));
      more := [LookUp(a), Execute(a, response), Execute(b, response)];
      assert steps + more == steps2 + [Execute(b, response)];
    }
  }

  lemma {:induction false} ExecutedAgain(executed: seq<Entry>, e: Entry)
    ensures Executions(executed + [e], e.id) == Executions(executed, e.id) + 1
  {
    assert (executed + [e])[..|executed|] == executed;
  }

  lemma StepExecutes(s: State, step: Step)
    requires Enabled(s, step)
    ensures var t := Apply(s, step);
            && (if step.Execute? then t.executed == s.executed + [Entry(step.arrival.id, step.response)] else t.executed == s.executed)
            && forall b :: b in t.arrivals && t.arrivals[b].Executed? ==>
                 (step.Execute? && step.arrival == b) || (b in s.arrivals && s.arrivals[b].Executed?)
  {
  }

  lemma {:induction false} PendingWasExecuted(steps: seq<Step>, b: Arrival)
    requires IsRun(steps) && b in After(steps).arrivals && After(steps).arrivals[b].Executed?
    ensures Executions(After(steps).executed, b.id) > 0
  {
    if steps != [] {
      hide Enabled, Apply;
      var before, step := steps[..|steps| - 1], steps[|steps| - 1];
      var s := After(before);
      StepExecutes(s, step);
      if step.Execute? {
        assert After(steps).executed[..|s.executed|] == s.executed;
      }
      if b in s.arrivals && s.arrivals[b].Executed? {
        PendingWasExecuted(before, b);
      }
    }
  }

  const OK: Response := Response(true, "")

  /** So the limits are exact: after any run within them, the first look-up outside them can be
      followed by executions alone that execute its command a second time. */
  lemma LimitsAreExact(steps: seq<Step>, a: Arrival, response: Response) returns (more: seq<Step>)
    requires IsRun(steps) && WithinLimits(steps) && Enabled(After(steps), LookUp(a))
    requires !Safe(After(steps), a)
    ensures IsRun(steps + more) && more != [] && more[0] == LookUp(a) && forall k :: 1 <= k < |more| ==> more[k].Execute?
    ensures Executions(After(steps + more).executed, a.id) >= 2
  {
    hide IsRun, After, NeverOverlaps, NeverForgets, NeverOutlives;
    RunKeepsInv(steps);
    var s := After(steps);
    ExecutionsCounted(s.executed, a.id);
    if !NoOverlap(s, a) {
      var b :| b in s.arrivals && b.id == a.id && Pending(s, b);
      PendingIsNotFound(s, b);
      more := MissCanExecuteTwice(steps, a, b, response);
    } else if !StillRemembered(s, a.id) {
      ForgottenIsNotFound(s, a.id);
      more := MissCanExecuteTwice(steps, a, a, response);
    } else {
      FoundIsRemembered(s, a.id);
      more := MissCanExecuteTwice(steps, a, a, response);
    }
  }

  lemma {:induction false} PendingIsNotFound(s: State, b: Arrival)
    requires Inv(s) && Pending(s, b)
    ensures Find(s.queue, b.id).None?
  {
    assert ArrivalInv(s, b);
    RememberedWasExecuted(s, b.id);
    FoundIsRemembered(s, b.id);
  }

  lemma {:induction false} FoundIsRemembered(s: State, id: Id)
    requires Inv(s)
    ensures Find(s.queue, id).Some? ==> HasId(s.remembered, id) && id !in s.earlier
  {
    if Find(s.queue, id).Some? {
      var e := Entry(id, Find(s.queue, id).value);
      var k :| 0 <= k < |s.queue| && s.queue[k] == e;
      assert s.remembered[|s.remembered| - |s.queue| + k] == e;
    }
  }

  lemma {:induction false} ForgottenIsNotFound(s: State, id: Id)
    requires Inv(s) && !StillRemembered(s, id)
    ensures Find(s.queue, id).None? && HasId(s.executed, id)
  {
    var i :| 0 <= i < |s.remembered| && s.remembered[i].id == id && |s.remembered| - i - 1 >= REMEMBERED;
    var dropped := |s.remembered| - |s.queue|;
    forall e | e in s.queue ensures e.id != id {
      var k :| 0 <= k < |s.queue| && s.queue[k] == e;
      assert e == s.remembered[dropped + k] && dropped + k > i;
    }
    assert HasId(s.remembered, id);
    RememberedWasExecuted(s, id);
  }

  /** A step that is not a look-up, or one within a limit, keeps a run within it. */
  lemma {:induction false} LimitsExtend(steps: seq<Step>, step: Step)
    requires IsRun(steps) && Enabled(After(steps), step)
    ensures IsRun(steps + [step]) && After(steps + [step]) == Apply(After(steps), step)
    ensures NeverOverlaps(steps) && (step.LookUp? ==> NoOverlap(After(steps), step.arrival))
            ==> NeverOverlaps(steps + [step])
    ensures NeverForgets(steps) && (step.LookUp? ==> StillRemembered(After(steps), step.arrival.id))
            ==> NeverForgets(steps + [step])
    ensures NeverOutlives(steps) && (step.LookUp? ==> step.arrival.id !in After(steps).earlier)
            ==> NeverOutlives(steps + [step])
  {
    RunExtends(steps, step);
    assert (steps + [step])[..|steps|] == steps;
  }

  /** A call sent, looked up, lost and sent again, with nothing executed. */
  lemma Resent() returns (steps: seq<Step>)
    ensures IsRun(steps) && NeverForgets(steps) && NeverOverlaps(steps) && NeverOutlives(steps)
    ensures var s := After(steps);
            && 0 in s.calls && s.calls[0] == Waiting(1) && s.earlier == {} && s.executed == [] && s.queue == [] && s.remembered == []
            && s.arrivals == map[Arrival(0, 0) := Missed, Arrival(0, 1) := Arrived]
  {
    hide IsRun, After, NeverOverlaps, NeverForgets, NeverOutlives;
    NothingRan();
    steps := [];
    LimitsExtend(steps, Begin(0));                steps := steps + [Begin(0)];
    LimitsExtend(steps, Send(0));                 steps := steps + [Send(0)];
    LimitsExtend(steps, LookUp(Arrival(0, 0)));   steps := steps + [LookUp(Arrival(0, 0))];
    LimitsExtend(steps, Lose(0));                 steps := steps + [Lose(0)];
    LimitsExtend(steps, Send(0));                 steps := steps + [Send(0)];
  }

  /** The first limit is needed: a resend that overlaps the answer still executing it, and is the
      only look-up that overlaps. */
  lemma OverlapExecutesTwice() returns (steps: seq<Step>, before: nat)
    ensures IsRun(steps) && NeverForgets(steps) && NeverOutlives(steps) && Executions(After(steps).executed, 0) == 2
    ensures before < |steps| && steps[before] == LookUp(Arrival(0, 1)) && IsRun(steps[..before]) && NeverOverlaps(steps[..before])
    ensures forall k :: before < k < |steps| ==> !steps[k].LookUp?
  {
    var first, second := Arrival(0, 0), Arrival(0, 1);
    hide IsRun, After, NeverOverlaps, NeverForgets, NeverOutlives;
    steps := Resent();
    before := |steps|;
    ghost var within := steps;
    LimitsExtend(steps, LookUp(second));      steps := steps + [LookUp(second)];
    LimitsExtend(steps, Execute(first, OK));  steps := steps + [Execute(first, OK)];
    LimitsExtend(steps, Execute(second, OK)); steps := steps + [Execute(second, OK)];
    assert steps[..before] == within;
    ExecutedAgain([], Entry(0, OK));
    ExecutedAgain([Entry(0, OK)], Entry(0, OK));
  }

  /** A command executed by a daemon that ends before it answers, and sent to the next. */
  lemma SentToNextDaemon() returns (steps: seq<Step>)
    ensures IsRun(steps) && NeverForgets(steps) && NeverOverlaps(steps)
    ensures var s := After(steps);
            && s.executed == [Entry(0, OK)] && s.queue == [] && s.remembered == []
            && s.arrivals == map[Arrival(0, 2) := Arrived]
  {
    var first := Arrival(0, 0);
    hide IsRun, After, NeverOverlaps, NeverForgets, NeverOutlives;
    steps := Resent();
    LimitsExtend(steps, Execute(first, OK)); steps := steps + [Execute(first, OK)];
    LimitsExtend(steps, Restart);            steps := steps + [Restart];
    assert After(steps).arrivals == map[];
    LimitsExtend(steps, Lose(0));            steps := steps + [Lose(0)];
    LimitsExtend(steps, Send(0));            steps := steps + [Send(0)];
  }

  /** The third limit is needed: the next daemon executes it again. */
  lemma RestartExecutesTwice() returns (steps: seq<Step>)
    ensures IsRun(steps) && NeverOverlaps(steps) && NeverForgets(steps) && Executions(After(steps).executed, 0) == 2
  {
    var again := Arrival(0, 2);
    hide IsRun, After, NeverOverlaps, NeverForgets, NeverOutlives;
    steps := SentToNextDaemon();
    LimitsExtend(steps, LookUp(again));      steps := steps + [LookUp(again)];
    LimitsExtend(steps, Execute(again, OK)); steps := steps + [Execute(again, OK)];
    ExecutedAgain([], Entry(0, OK));
    ExecutedAgain([Entry(0, OK)], Entry(0, OK));
  }

  ghost predicate Quiet(s: State) {
    forall a :: a in s.arrivals ==> s.arrivals[a].Answered?
  }

  /** From `s`, a call of another client was answered and remembered. */
  predicate OneServed(s: State, t: State, id: Id) {
    var e := Entry(id, OK);
    && t.calls == s.calls[id := Waiting(0)]
    && t.arrivals.Keys == s.arrivals.Keys + {Arrival(id, 0)}
    && t.executed == s.executed + [e]
    && t.remembered == s.remembered + [e]
    && t.queue == Remembering(s.queue, e)
    && t.earlier == s.earlier
  }

  /** One call of another client, with nothing else going on. */
  lemma ServeOne(steps: seq<Step>, id: Id) returns (longer: seq<Step>)
    requires IsRun(steps) && NeverOverlaps(steps) && NeverOutlives(steps) && Quiet(After(steps)) && After(steps).earlier == {}
    requires id !in After(steps).calls && Arrival(id, 0) !in After(steps).arrivals
    requires Find(After(steps).queue, id).None?
    ensures IsRun(longer) && NeverOverlaps(longer) && NeverOutlives(longer) && Quiet(After(longer))
    ensures OneServed(After(steps), After(longer), id)
  {
    hide IsRun, After, NeverOverlaps, NeverForgets, NeverOutlives;
    var a := Arrival(id, 0);
    LimitsExtend(steps, Begin(id));         longer := steps + [Begin(id)];
    LimitsExtend(longer, Send(id));         longer := longer + [Send(id)];
    LimitsExtend(longer, LookUp(a));        longer := longer + [LookUp(a)];
    LimitsExtend(longer, Execute(a, OK));   longer := longer + [Execute(a, OK)];
    LimitsExtend(longer, Remember(a));      longer := longer + [Remember(a)];
  }

  /** The call 0 was executed, its reply was lost, and `n` other calls were served since. */
  ghost predicate ServedSince(s: State, n: nat) {
    && Quiet(s) && s.earlier == {}
    && (forall i: Id :: i in s.calls <==> i <= n) && s.calls[0] == Sending(1)
    && (forall a :: a in s.arrivals <==> a.id <= n && a.attempt == 0)
    && |s.remembered| == n + 1 && (forall i :: 0 <= i <= n ==> s.remembered[i] == Entry(i, OK))
    && s.executed == s.remembered
    && s.queue == LastOf(s.remembered, REMEMBERED)
  }

  lemma {:induction false} FindInServed(s: State, n: nat, id: Id)
    requires ServedSince(s, n) && (id > n || (id == 0 && n >= REMEMBERED))
    ensures Find(s.queue, id).None?
  {
    forall e | e in s.queue ensures e.id != id {
      var k :| 0 <= k < |s.queue| && s.queue[k] == e;
      assert e == s.remembered[|s.remembered| - |s.queue| + k];
    }
  }

  lemma NothingRan()
    ensures IsRun([]) && After([]) == START && NeverOverlaps([]) && NeverForgets([]) && NeverOutlives([])
  {
  }

  lemma LostOnce(s: State)
    requires Enabled(s, Lose(0)) && s.calls == map[0 := Waiting(0)]
    ensures Apply(s, Lose(0)) == s.(calls := map[0 := Sending(1)])
  {
  }

  lemma ServedNext(s: State, t: State, n: nat)
    requires n > 0 && ServedSince(s, n - 1) && Quiet(t) && OneServed(s, t, n)
    ensures ServedSince(t, n)
  {
    RememberingKeepsLast(s.remembered, Entry(n, OK));
    forall a ensures a in t.arrivals <==> a.id <= n && a.attempt == 0 {
      assert a in t.arrivals <==> a in s.arrivals || a == Arrival(n, 0);
    }
  }

  lemma ServedFirst(s: State)
    requires Quiet(s) && s.earlier == {} && s.calls == map[0 := Sending(1)] && s.arrivals.Keys == {Arrival(0, 0)}
    requires s.executed == s.remembered == s.queue == [Entry(0, OK)]
    ensures ServedSince(s, 0)
  {
    forall a ensures a in s.arrivals <==> a.id <= 0 && a.attempt == 0 {
      assert a in s.arrivals <==> a == Arrival(0, 0);
    }
  }

  lemma {:induction false} ServeMany(n: nat) returns (steps: seq<Step>)
    ensures IsRun(steps) && NeverOverlaps(steps) && NeverOutlives(steps) && ServedSince(After(steps), n)
  {
    hide IsRun, After, NeverOverlaps, NeverForgets, NeverOutlives, Apply;
    if n == 0 {
      NothingRan();
      steps := ServeOne([], 0);
      LimitsExtend(steps, Lose(0));
      LostOnce(After(steps));
      steps := steps + [Lose(0)];
      ServedFirst(After(steps));
    } else {
      var before := ServeMany(n - 1);
      var s := After(before);
      FindInServed(s, n - 1, n);
      steps := ServeOne(before, n);
      ServedNext(s, After(steps), n);
    }
  }

  /** The second limit is needed, at its very bound: a resend after `REMEMBERED` other calls. */
  lemma EvictionExecutesTwice() returns (steps: seq<Step>)
    ensures IsRun(steps) && NeverOverlaps(steps) && NeverOutlives(steps) && Executions(After(steps).executed, 0) == 2
    ensures After(steps).remembered == seq(1 + REMEMBERED, i requires 0 <= i < 1 + REMEMBERED => Entry(i, OK))
  {
    hide IsRun, After, NeverOverlaps, NeverForgets, NeverOutlives;
    steps := ServeMany(REMEMBERED);
    var s, again := After(steps), Arrival(0, 1);
    ExecutedOnce(s, REMEMBERED, REMEMBERED + 1);
    Seqs.CutAt(s.executed, 0);
    LimitsExtend(steps, Send(0));            steps := steps + [Send(0)];
    FindInServed(s, REMEMBERED, 0);
    LimitsExtend(steps, LookUp(again));      steps := steps + [LookUp(again)];
    LimitsExtend(steps, Execute(again, OK)); steps := steps + [Execute(again, OK)];
    ExecutedAgain(s.executed, Entry(0, OK));
  }

  lemma {:induction false} ExecutedOnce(s: State, n: nat, k: nat)
    requires ServedSince(s, n) && 1 <= k <= n + 1
    ensures Executions(s.executed[..k], 0) == 1
  {
    assert s.executed[..k][..k - 1] == s.executed[..k - 1];
    if k > 1 {
      ExecutedOnce(s, n, k - 1);
    } else {
      assert Executions(s.executed[..0], 0) == 0;
    }
  }
}
