/** Requests and responses of an agent connection. The client ignores the id of a response and
    takes whatever response comes next, so pairing rests on when it sends and when it gives a
    connection up. */
module AcpPairing {
  import opened Text

  /** Ids start again at 1 on each connection. */
  datatype RequestId = Request(connection: nat, id: nat)

  /** What the reader thread queues for the client. After each error it queues an empty
      response as well. */
  datatype Message =
    | Reply(request: RequestId)
    | Failure(request: RequestId)
    | EmptyReply(request: RequestId)
    | Notice

  datatype Mode = Disconnected | Ready | Awaiting(request: RequestId)

  /** A response `await_response` returned: the request it was awaiting, and what it took. */
  datatype Taken = Taken(awaited: RequestId, message: Message)

  /** `queue` is the channel of the live connection; `open` the requests its agent has still
      to answer; `owed` an error whose empty response the reader has still to queue. */
  datatype State = State(
    mode: Mode,
    connection: nat,
    nextId: nat,
    queue: seq<Message>,
    open: set<RequestId>,
    owed: Option<RequestId>,
    returned: seq<Taken>)

  const START := State(Disconnected, 0, 1, [], {}, None, [])

  datatype Step =
    | Connect
    | Send
    | AgentAnswers(request: RequestId, ok: bool)
    | ReaderQueuesEmpty
    | AgentNotifies
    | Receive
    | GiveUp
    /** What the worker never does: carry on with a connection after an error. */
    | CarryOn

  predicate Enabled(s: State, step: Step) {
    match step
    case Connect => s.mode.Disconnected?
    case Send => s.mode.Ready?
    case AgentAnswers(r, _) => !s.mode.Disconnected? && r in s.open && s.owed.None?
    case ReaderQueuesEmpty => !s.mode.Disconnected? && s.owed.Some?
    case AgentNotifies => !s.mode.Disconnected? && s.owed.None?
    case Receive => s.mode.Awaiting? && s.queue != []
    case GiveUp => !s.mode.Disconnected?
    case CarryOn => s.mode.Awaiting?
  }

  /** A connection that ends takes its queue with it; the next one starts with an agent that
      has been asked nothing. */
  function Torn(s: State): State {
    s.(mode := Disconnected, queue := [], open := {}, owed := None)
  }

  function Apply(s: State, step: Step): State
    requires Enabled(s, step)
  {
    match step
    case Connect => s.(mode := Ready, connection := s.connection + 1, nextId := 1)
    case Send =>
      var r := Request(s.connection, s.nextId);
      s.(mode := Awaiting(r), nextId := s.nextId + 1, open := s.open + {r})
    case AgentAnswers(r, ok) =>
      if ok then s.(open := s.open - {r}, queue := s.queue + [Reply(r)])
      else s.(open := s.open - {r}, queue := s.queue + [Failure(r)], owed := Some(r))
    case ReaderQueuesEmpty => s.(queue := s.queue + [EmptyReply(s.owed.value)], owed := None)
    case AgentNotifies => s.(queue := s.queue + [Notice])
    case Receive =>
      var message, rest := s.queue[0], s.queue[1..];
      if message.Notice? then s.(queue := rest)
      else if message.Failure? then Torn(s)
      else s.(mode := Ready, queue := rest, returned := s.returned + [Taken(s.mode.request, message)])
    case GiveUp => Torn(s)
    case CarryOn => s.(mode := Ready)
  }

  predicate IsRun(steps: seq<Step>)
    decreases |steps|, 0
  {
    steps == [] || (IsRun(steps[..|steps| - 1]) && Enabled(After(steps[..|steps| - 1]), steps[|steps| - 1]))
  }

  function After(steps: seq<Step>): State
    requires IsRun(steps)
    decreases |steps|, 1
  {
    if steps == [] then START else Apply(After(steps[..|steps| - 1]), steps[|steps| - 1])
  }

  predicate Disciplined(steps: seq<Step>) {
    CarryOn !in steps
  }

  // ---- Pairing ---------------------------------------------------------------------------

  predicate OnlyNotices(queue: seq<Message>) {
    forall m :: m in queue ==> m.Notice?
  }

  /** Notices, the answer, notices. */
  predicate AnswerAt(queue: seq<Message>, answer: Message, k: nat) {
    k < |queue| && queue[k] == answer && OnlyNotices(queue[..k]) && OnlyNotices(queue[k + 1..])
  }

  ghost predicate HoldsOne(queue: seq<Message>, answer: Message) {
    exists k: nat :: AnswerAt(queue, answer, k)
  }

  /** Notices, then an error, then its empty response and notices once the reader queued it. */
  predicate FailureAt(queue: seq<Message>, owed: Option<RequestId>, r: RequestId, k: nat) {
    && k < |queue| && queue[k] == Failure(r) && OnlyNotices(queue[..k])
    && if owed.Some? then owed == Some(r) && k + 1 == |queue|
       else k + 1 < |queue| && queue[k + 1] == EmptyReply(r) && OnlyNotices(queue[k + 2..])
  }

  ghost predicate HoldsFailure(queue: seq<Message>, owed: Option<RequestId>, r: RequestId) {
    exists k: nat :: FailureAt(queue, owed, r, k)
  }

  ghost predicate Inv(s: State) {
    && (match s.mode
        case Disconnected => s.queue == [] && s.open == {} && s.owed.None?
        case Ready => s.open == {} && s.owed.None? && OnlyNotices(s.queue)
        case Awaiting(r) =>
          || (s.open == {r} && s.owed.None? && OnlyNotices(s.queue))
          || (s.open == {} && s.owed.None? && HoldsOne(s.queue, Reply(r)))
          || (s.open == {} && HoldsFailure(s.queue, s.owed, r)))
    && (s.mode.Awaiting? ==> s.nextId > 0 && s.mode.request == Request(s.connection, s.nextId - 1))
    && (forall t :: t in s.returned ==> t.message == Reply(t.awaited) && Answered(s, t.awaited))
    && Once(s.returned)
  }

  /** A request sent before the one outstanding, if any is. */
  predicate Answered(s: State, r: RequestId) {
    r.connection < s.connection || (r.connection == s.connection && r.id < s.nextId - if s.mode.Awaiting? then 1 else 0)
  }

  predicate Once(returned: seq<Taken>) {
    forall i, j :: 0 <= i < j < |returned| ==> returned[i].awaited != returned[j].awaited
  }

  lemma HoldsMore(queue: seq<Message>, answer: Message)
    requires HoldsOne(queue, answer)
    ensures HoldsOne(queue + [Notice], answer)
  {
    var k: nat :| AnswerAt(queue, answer, k);
    var longer := queue + [Notice];
    assert longer[..k] == queue[..k] && longer[k + 1..] == queue[k + 1..] + [Notice];
    assert AnswerAt(longer, answer, k);
  }

  lemma HoldsNow(queue: seq<Message>, r: RequestId)
    requires OnlyNotices(queue)
    ensures HoldsOne(queue + [Reply(r)], Reply(r))
    ensures HoldsFailure(queue + [Failure(r)], Some(r), r)
  {
    var good, bad := queue + [Reply(r)], queue + [Failure(r)];
    assert good[..|queue|] == queue == bad[..|queue|];
    assert AnswerAt(good, Reply(r), |queue|);
    assert FailureAt(bad, Some(r), r, |queue|);
  }

  lemma FailureGrows(queue: seq<Message>, owed: Option<RequestId>, r: RequestId)
    requires HoldsFailure(queue, owed, r)
    ensures HoldsFailure(queue + [if owed.Some? then EmptyReply(r) else Notice], None, r)
  {
    var k: nat :| FailureAt(queue, owed, r, k);
    var longer := queue + [if owed.Some? then EmptyReply(r) else Notice];
    assert longer[..k] == queue[..k];
    if owed.Some? {
      assert longer[k + 2..] == [];
    } else {
      assert longer[k + 2..] == queue[k + 2..] + [Notice];
    }
    assert FailureAt(longer, None, r, k);
  }

  /** Taking the front of a queue that holds an answer: a notice, or the answer itself. */
  lemma HoldsTail(queue: seq<Message>, answer: Message)
    requires HoldsOne(queue, answer) && !answer.Notice?
    ensures queue[0].Notice? ==> HoldsOne(queue[1..], answer)
    ensures !queue[0].Notice? ==> queue[0] == answer && OnlyNotices(queue[1..])
  {
    var k: nat :| AnswerAt(queue, answer, k);
    if k > 0 {
      var rest := queue[1..];
      assert queue[0] == queue[..k][0];
      assert rest[..k - 1] == queue[..k][1..] && rest[k..] == queue[k + 1..];
      assert AnswerAt(rest, answer, k - 1);
    }
  }

  lemma FailureTail(queue: seq<Message>, owed: Option<RequestId>, r: RequestId)
    requires HoldsFailure(queue, owed, r)
    ensures queue[0].Notice? ==> HoldsFailure(queue[1..], owed, r)
    ensures !queue[0].Notice? ==> queue[0] == Failure(r)
  {
    var k: nat :| FailureAt(queue, owed, r, k);
    if k > 0 {
      var rest := queue[1..];
      assert queue[0] == queue[..k][0];
      assert rest[..k - 1] == queue[..k][1..];
      if owed.None? {
        assert rest[k + 1..] == queue[k + 2..];
      }
      assert FailureAt(rest, owed, r, k - 1);
    }
  }

  lemma ReceiveKeepsInv(s: State)
    requires Inv(s) && Enabled(s, Receive)
    ensures Inv(Apply(s, Receive))
  {
    var r := s.mode.request;
    if s.open == {r} {
      assert s.queue[0] in s.queue && forall m :: m in s.queue[1..] ==> m in s.queue;
    } else if HoldsOne(s.queue, Reply(r)) && s.owed.None? {
      HoldsTail(s.queue, Reply(r));
    } else {
      FailureTail(s.queue, s.owed, r);
    }
  }

  lemma QueueingKeepsInv(s: State, step: Step)
    requires Inv(s) && Enabled(s, step)
    requires step.AgentAnswers? || step.AgentNotifies? || step.ReaderQueuesEmpty?
    ensures Inv(Apply(s, step))
  {
    match step
    case AgentAnswers(r, ok) =>
      HoldsNow(s.queue, r);
    case AgentNotifies =>
      if s.mode.Awaiting? && s.open == {} {
        if HoldsOne(s.queue, Reply(s.mode.request)) {
          HoldsMore(s.queue, Reply(s.mode.request));
        } else {
          FailureGrows(s.queue, None, s.mode.request);
        }
      }
    case ReaderQueuesEmpty =>
      FailureGrows(s.queue, s.owed, s.mode.request);
  }

  lemma {:induction false} RunKeepsInv(steps: seq<Step>)
    requires IsRun(steps) && Disciplined(steps)
    ensures Inv(After(steps))
  {
    if steps != [] {
      var before, step := steps[..|steps| - 1], steps[|steps| - 1];
      assert forall t :: t in before ==> t in steps;
      RunKeepsInv(before);
      assert step != CarryOn by { assert step in steps; }
      var s := After(before);
      match step
      case Receive => ReceiveKeepsInv(s);
      case AgentAnswers(_, _) => QueueingKeepsInv(s, step);
      case AgentNotifies => QueueingKeepsInv(s, step);
      case ReaderQueuesEmpty => QueueingKeepsInv(s, step);
      case _ =>
    }
  }

  /** In every run in which the agent answers each request once, with notifications anywhere:
      each response returned is the answer to the request last sent, never an empty response
      queued after an error nor an answer to an earlier request; none is answered twice; and at
      most one request is outstanding. */
  lemma {:induction false} ResponsesArePaired(steps: seq<Step>)
    requires IsRun(steps) && Disciplined(steps)
    ensures forall t :: t in After(steps).returned ==> t.message == Reply(t.awaited)
    ensures Once(After(steps).returned)
    ensures forall a, b :: a in After(steps).open && b in After(steps).open ==> a == b
    ensures After(steps).open != {} ==> After(steps).mode.Awaiting? && After(steps).open == {After(steps).mode.request}
  {
    RunKeepsInv(steps);
  }

  lemma {:induction false} RunExtends(steps: seq<Step>, step: Step)
    requires IsRun(steps) && Enabled(After(steps), step)
    ensures IsRun(steps + [step]) && After(steps + [step]) == Apply(After(steps), step)
  {
    assert (steps + [step])[..|steps|] == steps;
  }

  lemma NothingRan()
    ensures IsRun([]) && After([]) == START
  {
  }

  lemma {:induction false} Extends(steps: seq<Step>, more: seq<Step>, step: Step)
    requires IsRun(steps + more) && Disciplined(more) && Enabled(After(steps + more), step) && step != CarryOn
    ensures IsRun(steps + (more + [step])) && Disciplined(more + [step])
    ensures After(steps + (more + [step])) == Apply(After(steps + more), step)
  {
    RunExtends(steps + more, step);
    assert steps + (more + [step]) == steps + more + [step];
  }

  /** The notices at the front of the queue are taken and passed over. */
  lemma {:induction false} TakeNotices(steps: seq<Step>, before: seq<Step>, k: nat) returns (more: seq<Step>)
    requires IsRun(steps + before) && Disciplined(before) && After(steps + before).mode.Awaiting?
    requires k <= |After(steps + before).queue| && OnlyNotices(After(steps + before).queue[..k])
    ensures IsRun(steps + more) && Disciplined(more)
    ensures var s := After(steps + before); After(steps + more) == s.(queue := s.queue[k..])
    decreases k
  {
    hide IsRun, After, Disciplined;
    more := before;
    var s := After(steps + before);
    if k > 0 {
      assert s.queue[0] in s.queue[..k];
      assert forall m :: m in s.queue[1..][..k - 1] ==> m in s.queue[..k];
      Extends(steps, more, Receive);
      more := TakeNotices(steps, more + [Receive], k - 1);
      assert s.queue[1..][k - 1..] == s.queue[k..];
    }
  }

  /** The discipline is needed: from any disciplined run in which a request is outstanding, and no
      error to it has come, a client that carries on can take the answer to that request for the
      answer to its next. */
  lemma {:induction false} CarryingOnMispairs(steps: seq<Step>) returns (more: seq<Step>)
    requires IsRun(steps) && Disciplined(steps) && After(steps).mode.Awaiting?
    requires !HoldsFailure(After(steps).queue, After(steps).owed, After(steps).mode.request)
    ensures IsRun(steps + [CarryOn] + more) && Disciplined(more)
    ensures var s, t := After(steps), After(steps + [CarryOn] + more);
            var next := Request(s.connection, s.nextId);
            next != s.mode.request && Taken(next, Reply(s.mode.request)) in t.returned
  {
    hide IsRun, After, HoldsFailure;
    RunKeepsInv(steps);
    RunExtends(steps, CarryOn);
    var s, r, so := After(steps), After(steps).mode.request, steps + [CarryOn];
    assert so + [] == so;
    more := [];
    Extends(so, more, Send);                      more := more + [Send];
    if s.open == {r} {
      Extends(so, more, AgentAnswers(r, true));   more := more + [AgentAnswers(r, true)];
      assert (s.queue + [Reply(r)])[..|s.queue|] == s.queue;
      more := TakeNotices(so, more, |s.queue|);
    } else {
      var k: nat :| AnswerAt(s.queue, Reply(r), k);
      more := TakeNotices(so, more, k);
    }
    Extends(so, more, Receive);                   more := more + [Receive];
  }
}
