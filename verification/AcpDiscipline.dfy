/** What a worker's turns ask of its connection, and why no error is carried past on one. */
module AcpDiscipline {
  import opened Text
  import P = AcpPairing
  import W = AcpWorker

  /** What a client does with its connection: it makes one, sends a request, takes a response,
      gives up on a request and on the connection, closes it with nothing outstanding, or gives
      up on the request alone. */
  datatype Move = Connects | Asks | Hears | Errs | Closes | CarriesOn

  datatype Phase = Down | Idle | Asked

  predicate Possible(phase: Phase, move: Move) {
    match move
    case Connects => phase.Down?
    case Asks => phase.Idle?
    case Closes => phase.Idle?
    case _ => phase.Asked?
  }

  function Next(move: Move): Phase {
    match move
    case Asks => Asked
    case Errs => Down
    case Closes => Down
    case _ => Idle
  }

  /** Where the moves lead from `phase`; None when they cannot be made. */
  function Moved(phase: Phase, moves: seq<Move>): Option<Phase>
    decreases |moves|
  {
    if moves == [] then Some(phase)
    else if Possible(phase, moves[0]) then Moved(Next(moves[0]), moves[1..])
    else None
  }

  lemma {:induction false} MovedOn(phase: Phase, moves: seq<Move>, more: seq<Move>)
    requires Moved(phase, moves).Some?
    ensures Moved(phase, moves + more) == Moved(Moved(phase, moves).value, more)
    decreases |moves|
  {
    if moves == [] {
      assert moves + more == more;
    } else {
      assert (moves + more)[1..] == moves[1..] + more;
      MovedOn(Next(moves[0]), moves[1..], more);
    }
  }

  // ---- The moves of a worker's turns ----------------------------------------------------------

  /** How far an event got: how many requests of the handshake were answered, and whether an
      error came while a request was outstanding or between two. */
  datatype Extent = Extent(answered: nat, outstanding: bool)

  function Requests(n: nat): seq<Move> {
    if n == 0 then [] else [Asks, Hears] + Requests(n - 1)
  }

  /** An error returned to the worker: the connection goes on when the worker still holds it. */
  function Error(outstanding: bool, kept: bool): seq<Move> {
    (if outstanding then [Asks] else [])
    + (if kept then (if outstanding then [CarriesOn] else []) else if outstanding then [Errs] else [Closes])
  }

  function Connecting(s: W.State, connect: W.ConnectResult, extent: Extent): seq<Move> {
    if s.live.Some? || connect.SpawnFailed? then []
    else [Connects] + Requests(extent.answered)
         + if connect.ConnectFailed? then Error(extent.outstanding, W.Connect(s, connect).live.Some?) else []
  }

  /** What an event makes of the connection; whether it stays after an error is the worker's state
      after that event. */
  function MovesOf(s: W.State, event: W.Event, extent: Extent): seq<Move> {
    var kept := W.Apply(s, event).live.Some?;
    match event
    case Turn(connect, ok) =>
      Connecting(s, connect, extent)
      + if s.live.None? && !connect.Connected? then []
        else if ok then [Asks, Hears]
        else Error(extent.outstanding, kept)
    case _ => if s.live.Some? && !kept then [Closes] else []
  }

  function AllMoves(resume: Option<W.SessionId>, events: seq<W.Event>, extents: nat -> Extent): seq<Move> {
    if events == [] then []
    else
      var before := events[..|events| - 1];
      AllMoves(resume, before, extents)
      + MovesOf(W.After(W.Starting(resume), before), events[|events| - 1], extents(|before|))
  }

  function PhaseOf(s: W.State): Phase {
    if s.live.Some? then Idle else Down
  }

  lemma {:induction false} RequestsReturn(n: nat)
    ensures Moved(Idle, Requests(n)) == Some(Idle) && CarriesOn !in Requests(n)
  {
    if n > 0 {
      RequestsReturn(n - 1);
      assert ([Asks, Hears] + Requests(n - 1))[1..] == [Hears] + Requests(n - 1);
      assert ([Hears] + Requests(n - 1))[1..] == Requests(n - 1);
    }
  }

  lemma {:induction false} One(a: Move, phase: Phase)
    ensures Moved(phase, [a]) == if Possible(phase, a) then Some(Next(a)) else None
  {
    assert [a][1..] == [];
  }

  lemma {:induction false} Two(a: Move, b: Move, phase: Phase)
    ensures Moved(phase, [a, b]) == if Possible(phase, a) && Possible(Next(a), b) then Some(Next(b)) else None
  {
    One(b, Next(a));
    assert [a, b][1..] == [b];
  }

  lemma ErrorEnds(outstanding: bool)
    ensures Moved(Idle, Error(outstanding, false)) == Some(Down) && CarriesOn !in Error(outstanding, false)
  {
    Two(Asks, Errs, Idle);
    One(Closes, Idle);
    assert Error(true, false) == [Asks, Errs] && Error(false, false) == [Closes];
  }

  lemma ConnectingMoves(s: W.State, connect: W.ConnectResult, extent: Extent)
    requires s.live.None?
    ensures var moves := Connecting(s, connect, extent);
            CarriesOn !in moves && Moved(Down, moves) == Some(if connect.Connected? then Idle else Down)
  {
    hide Moved, Requests, Error;
    if !connect.SpawnFailed? {
      var n, error := Requests(extent.answered), if connect.ConnectFailed? then Error(extent.outstanding, false) else [];
      RequestsReturn(extent.answered);
      ErrorEnds(extent.outstanding);
      One(Connects, Down);
      MovedOn(Down, [Connects], n);
      MovedOn(Down, [Connects] + n, error);
      NoMoves(Idle);
    } else {
      NoMoves(Down);
    }
  }

  lemma {:induction false} NoMoves(phase: Phase)
    ensures Moved(phase, []) == Some(phase)
  {
  }

  /** One event: no error is carried past, because a turn that fails leaves the worker without
      the connection. */
  lemma {:induction false} EventMoves(resume: Option<W.SessionId>, events: seq<W.Event>, event: W.Event, extent: Extent)
    ensures var s := W.After(W.Starting(resume), events);
            var moves := MovesOf(s, event, extent);
            CarriesOn !in moves && Moved(PhaseOf(s), moves) == Some(PhaseOf(W.Apply(s, event)))
  {
    hide Moved, Error, Connecting;
    var s := W.After(W.Starting(resume), events);
    NoMoves(PhaseOf(s));
    One(Closes, Idle);
    if event.Turn? {
      W.FailureEndsConnection(resume, events, event.connect, event.promptOk);
      assert (events + [event])[..|events|] == events;
      Two(Asks, Hears, Idle);
      ErrorEnds(extent.outstanding);
      var head, tail := Connecting(s, event.connect, extent), if event.promptOk then [Asks, Hears] else Error(extent.outstanding, false);
      if s.live.None? {
        ConnectingMoves(s, event.connect, extent);
        MovedOn(Down, head, tail);
        assert head + [] == head;
      } else {
        assert head == [] by { LiveConnectsNot(s, event.connect, extent); }
        assert head + tail == tail;
      }
    }
  }

  lemma LiveConnectsNot(s: W.State, connect: W.ConnectResult, extent: Extent)
    requires s.live.Some?
    ensures Connecting(s, connect, extent) == []
  {
  }

  lemma {:induction false} EventsMove(resume: Option<W.SessionId>, events: seq<W.Event>, extents: nat -> Extent)
    ensures var moves := AllMoves(resume, events, extents);
            CarriesOn !in moves && Moved(Down, moves) == Some(PhaseOf(W.After(W.Starting(resume), events)))
  {
    hide Moved, MovesOf;
    if events == [] {
      NoMoves(Down);
    } else {
      var before, event := events[..|events| - 1], events[|events| - 1];
      EventsMove(resume, before, extents);
      EventMoves(resume, before, event, extents(|before|));
      var s := W.After(W.Starting(resume), before);
      MovedOn(Down, AllMoves(resume, before, extents), MovesOf(s, event, extents(|before|)));
    }
  }

  // ---- The moves of a connection's run --------------------------------------------------------

  function MoveOf(s: P.State, step: P.Step): seq<Move>
    requires P.Enabled(s, step)
  {
    match step
    case Connect => [Connects]
    case Send => [Asks]
    case Receive => if s.queue[0].Notice? then [] else if s.queue[0].Failure? then [Errs] else [Hears]
    case GiveUp => if s.mode.Awaiting? then [Errs] else [Closes]
    case CarryOn => [CarriesOn]
    case _ => []
  }

  function RunMoves(steps: seq<P.Step>): seq<Move>
    requires P.IsRun(steps)
  {
    if steps == [] then []
    else RunMoves(steps[..|steps| - 1]) + MoveOf(P.After(steps[..|steps| - 1]), steps[|steps| - 1])
  }

  function ModePhase(mode: P.Mode): Phase {
    match mode
    case Disconnected => Down
    case Ready => Idle
    case Awaiting(_) => Asked
  }

  lemma StepMoves(s: P.State, step: P.Step)
    requires P.Enabled(s, step)
    ensures Moved(ModePhase(s.mode), MoveOf(s, step)) == Some(ModePhase(P.Apply(s, step).mode))
  {
  }

  lemma {:induction false} RunMovesOn(steps: seq<P.Step>)
    requires P.IsRun(steps)
    ensures Moved(Down, RunMoves(steps)) == Some(ModePhase(P.After(steps).mode))
    ensures P.CarryOn in steps ==> CarriesOn in RunMoves(steps)
  {
    if steps != [] {
      hide Moved, MoveOf, ModePhase;
      var before, step := steps[..|steps| - 1], steps[|steps| - 1];
      RunMovesOn(before);
      StepMoves(P.After(before), step);
      MovedOn(Down, RunMoves(before), MoveOf(P.After(before), step));
      assert steps == before + [step];
      CarryOnShows(P.After(before), step);
    } else {
      NoMoves(Down);
    }
  }

  lemma CarryOnShows(s: P.State, step: P.Step)
    requires P.Enabled(s, step)
    ensures step == P.CarryOn ==> CarriesOn in MoveOf(s, step)
  {
  }

  /** Whatever a worker does, the run of its connections is disciplined: so each response it takes
      is the answer to the request it last sent, none is taken twice, and between events nothing
      is outstanding and there is a connection exactly when the worker holds a live session. */
  lemma {:induction false} WorkerIsPaired(resume: Option<W.SessionId>, events: seq<W.Event>, extents: nat -> Extent, steps: seq<P.Step>)
    requires P.IsRun(steps) && RunMoves(steps) == AllMoves(resume, events, extents)
    ensures P.Disciplined(steps)
    ensures forall t :: t in P.After(steps).returned ==> t.message == P.Reply(t.awaited)
    ensures P.Once(P.After(steps).returned)
    ensures P.After(steps).mode == if W.After(W.Starting(resume), events).live.Some? then P.Ready else P.Disconnected
  {
    EventsMove(resume, events, extents);
    RunMovesOn(steps);
    P.ResponsesArePaired(steps);
  }

  // ---- And there is such a run -----------------------------------------------------------------

  /** Nothing queued, and only what is awaited to be answered. */
  predicate Quiet(s: P.State) {
    s.queue == [] && s.owed.None? && s.open == if s.mode.Awaiting? then {s.mode.request} else {}
  }

  lemma {:induction false} StepOn(steps: seq<P.Step>, step: P.Step)
    requires P.IsRun(steps) && P.Enabled(P.After(steps), step)
    ensures P.IsRun(steps + [step]) && P.After(steps + [step]) == P.Apply(P.After(steps), step)
    ensures RunMoves(steps + [step]) == RunMoves(steps) + MoveOf(P.After(steps), step)
  {
    P.RunExtends(steps, step);
    assert (steps + [step])[..|steps|] == steps;
  }

  lemma MakeMove(steps: seq<P.Step>, move: Move) returns (longer: seq<P.Step>)
    requires P.IsRun(steps) && Quiet(P.After(steps)) && !move.CarriesOn?
    requires Possible(ModePhase(P.After(steps).mode), move)
    ensures P.IsRun(longer) && Quiet(P.After(longer)) && RunMoves(longer) == RunMoves(steps) + [move]
    ensures ModePhase(P.After(longer).mode) == Next(move)
  {
    hide P.IsRun, P.After, RunMoves;
    var moves := RunMoves(steps);
    match move
    case Connects => StepOn(steps, P.Connect); longer := steps + [P.Connect];
    case Asks => StepOn(steps, P.Send); longer := steps + [P.Send];
    case Hears =>
      var answer := P.AgentAnswers(P.After(steps).mode.request, true);
      StepOn(steps, answer);
      assert moves + [] == moves;
      StepOn(steps + [answer], P.Receive);
      longer := steps + [answer] + [P.Receive];
    case _ => StepOn(steps, P.GiveUp); longer := steps + [P.GiveUp];
  }

  lemma {:induction false} MovesAreARun(steps: seq<P.Step>, moves: seq<Move>) returns (longer: seq<P.Step>)
    requires P.IsRun(steps) && Quiet(P.After(steps)) && CarriesOn !in moves
    requires Moved(ModePhase(P.After(steps).mode), moves).Some?
    ensures P.IsRun(longer) && RunMoves(longer) == RunMoves(steps) + moves
    decreases |moves|
  {
    hide P.IsRun, P.After, RunMoves, Quiet, ModePhase;
    if moves == [] {
      longer := steps;
      assert RunMoves(steps) + moves == RunMoves(steps);
    } else {
      var one := MakeMove(steps, moves[0]);
      longer := MovesAreARun(one, moves[1..]);
      assert RunMoves(steps) + [moves[0]] + moves[1..] == RunMoves(steps) + moves;
    }
  }

  /** Every worker has such runs, however far each of its events got. */
  lemma WorkerIsARun(resume: Option<W.SessionId>, events: seq<W.Event>, extents: nat -> Extent) returns (steps: seq<P.Step>)
    ensures P.IsRun(steps) && RunMoves(steps) == AllMoves(resume, events, extents)
  {
    EventsMove(resume, events, extents);
    P.NothingRan();
    steps := MovesAreARun([], AllMoves(resume, events, extents));
    assert [] + AllMoves(resume, events, extents) == AllMoves(resume, events, extents);
  }
}
