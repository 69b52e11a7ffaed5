/** `DaemonWriter::call`: one request at a time, sent again under its id when the connection
    that carried it is lost. */
module RemoteCall {
  import opened Text
  import opened RequestProtocol

  /** What comes of sending the request once: the connection is lost, a reply arrives, or a
      reply arrives that cannot be read. */
  datatype Sent = Lost | Replied(response: Response) | Unreadable

  datatype Ending = Done(response: Response) | RefusedBy(response: Response) | BadReply | Unanswered

  /** The network, attempt by attempt: whether a new connection is made, and what comes of the
      request on it. */
  datatype Network = Network(connects: nat -> bool, sends: nat -> Sent)

  /** The attempt never reached an end: no connection, or the connection was lost. */
  predicate Inconclusive(net: Network, connected: bool, k: nat) {
    (!connected && !net.connects(k)) || net.sends(k).Lost?
  }

  predicate NoneConclusive(net: Network, connected: bool, n: nat) {
    (n > 0 ==> Inconclusive(net, connected, 0)) && forall k :: 1 <= k < n ==> Inconclusive(net, false, k)
  }

  /** The first attempt that reached an end. */
  predicate FirstConclusive(net: Network, connected: bool, k: nat) {
    NoneConclusive(net, connected, k) && !Inconclusive(net, k == 0 && connected, k)
  }

  lemma OneIsFirst(net: Network, connected: bool, k: nat)
    requires FirstConclusive(net, connected, k)
    ensures forall j: nat :: FirstConclusive(net, connected, j) ==> j == k
    ensures forall n: nat :: NoneConclusive(net, connected, n) ==> n <= k
  {
  }

  function Ended(sent: Sent): Ending
    requires !sent.Lost?
  {
    match sent
    case Replied(response) => if response.ok then Done(response) else RefusedBy(response)
    case Unreadable => BadReply
  }

  // ---- A call, as its client sees it --------------------------------------------------------

  /** What happens to one call at its client: no connection for an attempt, the request written,
      its connection lost, or its reply. */
  datatype Event = Began | NotConnected | WentOut | WasLost | Got(response: Response)

  predicate Possible(call: Option<Call>, event: Event) {
    match event
    case Began => call.None?
    case NotConnected => call.Some? && call.value.Sending?
    case WentOut => call.Some? && call.value.Sending?
    case WasLost => call.Some? && call.value.Waiting?
    case Got(_) => call.Some? && call.value.Waiting?
  }

  function Moved(call: Option<Call>, event: Event): Call
    requires Possible(call, event)
  {
    match event
    case Began => Sending(0)
    case NotConnected => NextAttempt(call.value.attempt)
    case WentOut => Waiting(call.value.attempt)
    case WasLost => NextAttempt(call.value.attempt)
    case Got(response) => Returned(response)
  }

  predicate IsCall(events: seq<Event>)
    decreases |events|, 0
  {
    events == [] || (IsCall(events[..|events| - 1]) && Possible(CallOf(events[..|events| - 1]), events[|events| - 1]))
  }

  function CallOf(events: seq<Event>): Option<Call>
    requires IsCall(events)
    decreases |events|, 1
  {
    if events == [] then None else Some(Moved(CallOf(events[..|events| - 1]), events[|events| - 1]))
  }

  lemma {:induction false} CallExtends(events: seq<Event>, event: Event)
    requires IsCall(events) && Possible(CallOf(events), event)
    ensures IsCall(events + [event]) && CallOf(events + [event]) == Some(Moved(CallOf(events), event))
  {
    assert (events + [event])[..|events|] == events;
  }

  /** What a step of the protocol is to the call `id`. */
  function EventOf(s: RequestProtocol.State, step: Step, id: Id): seq<Event>
    requires Enabled(s, step)
  {
    match step
    case Begin(i) => if i == id then [Began] else []
    case NotSent(i) => if i == id then [NotConnected] else []
    case Send(i) => if i == id then [WentOut] else []
    case Lose(i) => if i == id then [WasLost] else []
    case Deliver(i) => if i == id then [Got(s.arrivals[Arrival(i, s.calls[i].attempt)].response)] else []
    case _ => []
  }

  function EventsOf(steps: seq<Step>, id: Id): seq<Event>
    requires IsRun(steps)
  {
    if steps == [] then []
    else EventsOf(steps[..|steps| - 1], id) + EventOf(After(steps[..|steps| - 1]), steps[|steps| - 1], id)
  }

  function CallIn(s: RequestProtocol.State, id: Id): Option<Call> {
    if id in s.calls then Some(s.calls[id]) else None
  }

  lemma StepShowsCall(s: RequestProtocol.State, step: Step, id: Id)
    requires Enabled(s, step)
    ensures var event := EventOf(s, step, id);
            if event == [] then CallIn(Apply(s, step), id) == CallIn(s, id)
            else |event| == 1 && Possible(CallIn(s, id), event[0]) && CallIn(Apply(s, step), id) == Some(Moved(CallIn(s, id), event[0]))
  {
  }

  /** In every run the steps of a call are what its client sees, and leave it where they say. */
  lemma {:induction false} RunShowsCall(steps: seq<Step>, id: Id)
    requires IsRun(steps)
    ensures IsCall(EventsOf(steps, id)) && CallOf(EventsOf(steps, id)) == CallIn(After(steps), id)
  {
    if steps != [] {
      hide Enabled, Apply, EventOf, Possible, Moved, CallIn;
      var before, step := steps[..|steps| - 1], steps[|steps| - 1];
      RunShowsCall(before, id);
      StepShowsCall(After(before), step, id);
      var events, event := EventsOf(before, id), EventOf(After(before), step, id);
      if event == [] {
        assert events + event == events;
      } else {
        CallExtends(events, event[0]);
        assert event == [event[0]];
      }
    }
  }

  /** Only this call has reached the daemon, and no attempt of it was looked up before it returned. */
  ghost predicate Alone(s: RequestProtocol.State, id: Id, call: Option<Call>) {
    && (id in s.calls <==> call.Some?) && (call.Some? ==> s.calls[id] == call.value)
    && (call.None? || !call.value.Returned? ==>
          && s.queue == [] && s.remembered == [] && s.earlier == {}
          && (forall a :: a in s.arrivals ==> s.arrivals[a] == Arrived && a.id == id && call.Some?))
    && (call.Some? && call.value.Sending? ==> forall a :: a in s.arrivals ==> a.attempt < call.value.attempt)
    && (call.Some? && call.value.Waiting? ==>
          Arrival(id, call.value.attempt) in s.arrivals && forall a :: a in s.arrivals ==> a.attempt <= call.value.attempt)
  }

  lemma {:induction false} StepOn(steps: seq<Step>, step: Step, id: Id)
    requires IsRun(steps) && WithinLimits(steps) && Enabled(After(steps), step)
    requires step.LookUp? ==> Safe(After(steps), step.arrival)
    ensures IsRun(steps + [step]) && WithinLimits(steps + [step]) && After(steps + [step]) == Apply(After(steps), step)
    ensures EventsOf(steps + [step], id) == EventsOf(steps, id) + EventOf(After(steps), step, id)
  {
    LimitsExtend(steps, step);
    assert (steps + [step])[..|steps|] == steps;
  }

  lemma AnswerArrives(steps: seq<Step>, id: Id, response: Response) returns (longer: seq<Step>)
    requires IsRun(steps) && WithinLimits(steps)
    requires id in After(steps).calls && After(steps).calls[id].Waiting? && Alone(After(steps), id, Some(After(steps).calls[id]))
    ensures IsRun(longer) && WithinLimits(longer) && EventsOf(longer, id) == EventsOf(steps, id) + [Got(response)]
    ensures After(longer).calls == After(steps).calls[id := Returned(response)]
  {
    hide IsRun, After, EventsOf, WithinLimits;
    var a := Arrival(id, After(steps).calls[id].attempt);
    var events := EventsOf(steps, id);
    assert events + [] == events;
    StepOn(steps, LookUp(a), id);             longer := steps + [LookUp(a)];
    StepOn(longer, Execute(a, response), id); longer := longer + [Execute(a, response)];
    StepOn(longer, Remember(a), id);          longer := longer + [Remember(a)];
    StepOn(longer, Deliver(id), id);          longer := longer + [Deliver(id)];
  }

  function StepOf(id: Id, event: Event): Step
    requires !event.Got?
  {
    match event
    case Began => Begin(id)
    case NotConnected => NotSent(id)
    case WentOut => Send(id)
    case WasLost => Lose(id)
  }

  lemma EventMoves(s: RequestProtocol.State, id: Id, call: Option<Call>, event: Event)
    requires Alone(s, id, call) && Possible(call, event) && !event.Got?
    ensures Enabled(s, StepOf(id, event)) && EventOf(s, StepOf(id, event), id) == [event]
    ensures Alone(Apply(s, StepOf(id, event)), id, Some(Moved(call, event)))
  {
  }

  lemma CallStands(s: RequestProtocol.State, id: Id, call: Option<Call>)
    requires Alone(s, id, call) && call.Some?
    ensures id in s.calls && s.calls[id] == call.value
  {
  }

  lemma ReturnedIsAlone(s: RequestProtocol.State, id: Id, response: Response)
    requires id in s.calls && s.calls[id] == Returned(response)
    ensures Alone(s, id, Some(Returned(response)))
  {
  }

  lemma CallGoesOn(steps: seq<Step>, id: Id, before: seq<Event>, event: Event) returns (longer: seq<Step>)
    requires IsRun(steps) && WithinLimits(steps) && EventsOf(steps, id) == before
    requires IsCall(before) && Alone(After(steps), id, CallOf(before)) && Possible(CallOf(before), event)
    ensures IsRun(longer) && WithinLimits(longer) && EventsOf(longer, id) == before + [event]
    ensures Alone(After(longer), id, Some(Moved(CallOf(before), event)))
  {
    hide IsRun, After, EventsOf, WithinLimits, Alone, IsCall, CallOf;
    if event.Got? {
      CallStands(After(steps), id, CallOf(before));
      longer := AnswerArrives(steps, id, event.response);
      ReturnedIsAlone(After(longer), id, event.response);
    } else {
      EventMoves(After(steps), id, CallOf(before), event);
      StepOn(steps, StepOf(id, event), id);
      longer := steps + [StepOf(id, event)];
    }
  }

  lemma {:induction false} NoCallYet(id: Id)
    ensures IsRun([]) && WithinLimits([]) && EventsOf([], id) == [] && Alone(After([]), id, None) && CallOf([]) == None
  {
  }

  /** And the other way around: whatever a client can see comes of a run within the limits. */
  lemma {:induction false} CallIsARun(id: Id, events: seq<Event>) returns (steps: seq<Step>)
    requires IsCall(events)
    ensures IsRun(steps) && WithinLimits(steps) && EventsOf(steps, id) == events && Alone(After(steps), id, CallOf(events))
  {
    hide IsRun, After, EventsOf, WithinLimits, Alone, Possible, Moved;
    if events == [] {
      NoCallYet(id);
      steps := [];
    } else {
      var before, event := events[..|events| - 1], events[|events| - 1];
      steps := CallIsARun(id, before);
      assert events == before + [event];
      steps := CallGoesOn(steps, id, before, event);
    }
  }

  /** So at most once speaks of a call by what its client sees: in every run within the limits its
      command is executed at most once, and once, with the response it got, if it got one. */
  lemma {:induction false} CallExecutesAtMostOnce(steps: seq<Step>, id: Id, events: seq<Event>)
    requires IsRun(steps) && WithinLimits(steps) && EventsOf(steps, id) == events
    ensures IsCall(events) && Executions(After(steps).executed, id) <= 1
    ensures CallOf(events).Some? && CallOf(events).value.Returned? ==>
              Executions(After(steps).executed, id) == 1 && Entry(id, CallOf(events).value.response) in After(steps).executed
  {
    RunShowsCall(steps, id);
    AtMostOnce(steps, id);
  }

  // ---- The loop -----------------------------------------------------------------------------

  /** What the client sees of the first `n` attempts, when none reaches an end. */
  function Tried(net: Network, connected: bool, n: nat): seq<Event> {
    if n == 0 then [Began]
    else
      Tried(net, connected, n - 1) +
      if (n == 1 && connected) || net.connects(n - 1) then [WentOut, WasLost] else [NotConnected]
  }

  lemma {:induction false} CallBegins(net: Network, connected: bool)
    ensures IsCall([Began]) && CallOf([Began]) == Some(Sending(0)) && Tried(net, connected, 0) == [Began]
  {
    CallExtends([], Began);
  }

  lemma TriedNext(net: Network, connected: bool, n: nat)
    ensures Tried(net, connected, n + 1) ==
            Tried(net, connected, n) + if (n == 0 && connected) || net.connects(n) then [WentOut, WasLost] else [NotConnected]
  {
  }

  /** An attempt that went out: it can be lost, be answered, or stay without an end. */
  lemma {:induction false} WentOutAnd(events: seq<Event>, k: nat)
    requires IsCall(events) && CallOf(events) == Some(Sending(k))
    ensures IsCall(events + [WentOut]) && CallOf(events + [WentOut]) == Some(Waiting(k))
    ensures IsCall(events + [WentOut, WasLost]) && CallOf(events + [WentOut, WasLost]) == Some(NextAttempt(k))
    ensures forall r :: IsCall(events + [WentOut, Got(r)]) && CallOf(events + [WentOut, Got(r)]) == Some(Returned(r))
  {
    CallExtends(events, WentOut);
    CallExtends(events + [WentOut], WasLost);
    assert events + [WentOut, WasLost] == events + [WentOut] + [WasLost];
    forall r ensures IsCall(events + [WentOut, Got(r)]) && CallOf(events + [WentOut, Got(r)]) == Some(Returned(r)) {
      CallExtends(events + [WentOut], Got(r));
      assert events + [WentOut, Got(r)] == events + [WentOut] + [Got(r)];
    }
  }

  function LastSeen(sent: Sent): seq<Event> {
    if sent.Replied? then [WentOut, Got(sent.response)] else [WentOut]
  }

  /** What the caller is told of the call: `Done` and `RefusedBy` pass the reply on, by whether it
      is ok; an unreadable reply leaves the call waiting for one. */
  predicate Reports(result: Ending, call: Option<Call>) {
    call.Some? &&
    match call.value
    case Returned(r) => (r.ok ==> result == Done(r)) && (!r.ok ==> result == RefusedBy(r))
    case GaveUp => result == Unanswered
    case Waiting(_) => result == BadReply
    case Sending(_) => false
  }

  /** What the caller is told is true of every run within the limits: told `Done` or `RefusedBy`,
      its command was executed once and gave that very response, which is ok, or is not; told
      anything else, it was executed at most once. */
  lemma {:induction false} ToldIsTrue(steps: seq<Step>, id: Id, result: Ending, r: Response)
    requires IsRun(steps) && WithinLimits(steps) && IsCall(EventsOf(steps, id)) && Reports(result, CallOf(EventsOf(steps, id)))
    ensures Executions(After(steps).executed, id) <= 1
    ensures result == Done(r) ==> r.ok && Executions(After(steps).executed, id) == 1 && Entry(id, r) in After(steps).executed
    ensures result == RefusedBy(r) ==> !r.ok && Executions(After(steps).executed, id) == 1 && Entry(id, r) in After(steps).executed
  {
    CallExecutesAtMostOnce(steps, id, EventsOf(steps, id));
  }

  /** The first attempt that reached an end says what the caller is told. */
  lemma FirstIsTold(net: Network, connected: bool, k: nat)
    requires FirstConclusive(net, connected, k) && !net.sends(k).Lost?
    ensures var result := Ended(net.sends(k));
            && result != Unanswered
            && (result == BadReply <==> net.sends(k) == Unreadable)
            && forall r :: (result == Done(r) <==> r.ok && net.sends(k) == Replied(r))
                        && (result == RefusedBy(r) <==> !r.ok && net.sends(k) == Replied(r))
    ensures forall j: nat :: FirstConclusive(net, connected, j) ==> j == k
    ensures !NoneConclusive(net, connected, k + 1) && forall n: nat :: NoneConclusive(net, connected, n) ==> n <= k
  {
    OneIsFirst(net, connected, k);
  }

  class DaemonWriter {
    /** A connection is kept from one call to the next. */
    var connected: bool

    constructor ()
      ensures !connected
    {
      connected := false;
    }

    /** At most three attempts, all under one id. The call ends with the first attempt that is
        neither without a connection nor lost, whatever that attempt says; when there is none
        it gives up. `events` is what its client sees: a call of the protocol. */
    method Call(id: Id, net: Network) returns (result: Ending, sent: seq<Id>, ghost events: seq<Event>)
      modifies this
      ensures |sent| <= 3 && forall k :: 0 <= k < |sent| ==> sent[k] == id
      ensures result == Unanswered <==> NoneConclusive(net, old(connected), 3)
      ensures result == Unanswered ==> events == Tried(net, old(connected), 3)
      ensures forall k: nat :: k < 3 && FirstConclusive(net, old(connected), k) ==>
                && events == Tried(net, old(connected), k) + LastSeen(net.sends(k))
                && (result == BadReply <==> net.sends(k) == Unreadable)
                && forall r :: (result == Done(r) <==> r.ok && net.sends(k) == Replied(r))
                            && (result == RefusedBy(r) <==> !r.ok && net.sends(k) == Replied(r))
      ensures result != Unanswered <==> exists k: nat :: k < 3 && FirstConclusive(net, old(connected), k)
      ensures connected <==> result != Unanswered
      ensures IsCall(events) && Reports(result, CallOf(events))
    {
      hide IsCall, CallOf, Tried, Ended;
      sent, events := [], [Began];
      ghost var kept := connected;
      CallBegins(net, kept);
      for k := 0 to ATTEMPTS
        invariant |sent| <= k && forall j :: 0 <= j < |sent| ==> sent[j] == id
        invariant NoneConclusive(net, kept, k)
        invariant forall j: nat :: j < k ==> !FirstConclusive(net, kept, j)
        invariant IsCall(events) && CallOf(events) == Some(if k < ATTEMPTS then Sending(k) else GaveUp)
        invariant events == Tried(net, kept, k)
        invariant connected == (k == 0 && kept)
      {
        TriedNext(net, kept, k);
        if !connected {
          if !net.connects(k) {
            CallExtends(events, NotConnected);
            events := events + [NotConnected];
            continue;
          }
          connected := true;
        }
        sent := sent + [id];
        assert Inconclusive(net, k == 0 && kept, k) <==> net.sends(k).Lost?;
        if !net.sends(k).Lost? {
          FirstIsTold(net, kept, k);
        }
        WentOutAnd(events, k);
        match net.sends(k)
        case Lost =>
          connected := false;
          events := events + [WentOut, WasLost];
        case Replied(response) =>
          return Ended(net.sends(k)), sent, events + [WentOut, Got(response)];
        case Unreadable =>
          return BadReply, sent, events + [WentOut];
      }
      result := Unanswered;
    }
  }
}
