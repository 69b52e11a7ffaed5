/** A conversation's worker: it owns the agent process, and the session that outlives it. */
module AcpWorker {
  import opened Text

  type SessionId = string
  type Process = nat

  datatype SessionStart = New | Resume(id: SessionId)

  /** How connecting ends. An agent can have made a session although the connect fails later. */
  datatype ConnectResult =
    | SpawnFailed
    | ConnectFailed(orphan: Option<SessionId>)
    | Connected(made: SessionId)

  /** `alongside`: the processes running when the new one was spawned. */
  datatype Entry =
    | Attempt(start: SessionStart, result: ConnectResult, alongside: set<Process>)
    | Cancel

  /** `live` is the connected session; `slot` the process the conversation can kill. */
  datatype State = State(
    live: Option<SessionId>,
    sessionId: Option<SessionId>,
    slot: Option<Process>,
    running: set<Process>,
    spawned: nat,
    log: seq<Entry>,
    prompts: seq<SessionId>)

  datatype Event =
    | Turn(connect: ConnectResult, promptOk: bool)
    | Idle
    | CancelRun
    | Stop
    /** The worker is gone: another takes over, given `resume` by the next turn. */
    | Replace(resume: Option<SessionId>)

  function Starting(resume: Option<SessionId>): State {
    State(None, resume, None, {}, 0, [], [])
  }

  function InSlot(slot: Option<Process>): set<Process> {
    if slot.Some? then {slot.value} else {}
  }

  /** The session a connect that succeeds is on: a resume keeps the id it asked for. */
  function SessionOf(start: SessionStart, made: SessionId): SessionId {
    if start.Resume? then start.id else made
  }

  function Killed(s: State): State {
    s.(slot := None, running := s.running - InSlot(s.slot))
  }

  function Released(s: State): State {
    if s.live.Some? then Killed(s).(live := None) else s
  }

  function Connect(s: State, result: ConnectResult): State {
    var start := if s.sessionId.Some? then Resume(s.sessionId.value) else New;
    var tried := s.(log := s.log + [Attempt(start, result, s.running)]);
    if result.SpawnFailed? then tried
    else
      var spawned := tried.(running := s.running - InSlot(s.slot) + {s.spawned}, slot := Some(s.spawned), spawned := s.spawned + 1);
      if result.ConnectFailed? then spawned
      else
        var session := SessionOf(start, result.made);
        spawned.(sessionId := Some(session), live := Some(session))
  }

  function Prompt(s: State, ok: bool): State
    requires s.live.Some?
  {
    var asked := s.(prompts := s.prompts + [s.live.value]);
    if ok then asked else Released(asked)
  }

  function Apply(s: State, event: Event): State {
    match event
    case Turn(connect, ok) =>
      var connected := if s.live.None? then Connect(s, connect) else s;
      if connected.live.None? then connected else Prompt(connected, ok)
    case Idle => Released(s)
    case CancelRun => Killed(s).(log := s.log + [Cancel])
    case Stop => Released(s)
    case Replace(resume) =>
      Killed(s).(live := None, sessionId := if s.sessionId.Some? then s.sessionId else resume, log := s.log + [Cancel])
  }

  function After(s: State, events: seq<Event>): State {
    if events == [] then s else Apply(After(s, events[..|events| - 1]), events[|events| - 1])
  }

  /** The worker itself. Its `run` loop is these methods, one per command or timeout. */
  class ConversationWorker {
    var live: Option<SessionId>
    var sessionId: Option<SessionId>
    var slot: Option<Process>
    var spawned: nat
    ghost var running: set<Process>
    ghost var log: seq<Entry>
    ghost var prompts: seq<SessionId>

    ghost function View(): State
      reads this
    {
      State(live, sessionId, slot, running, spawned, log, prompts)
    }

    constructor (resume: Option<SessionId>)
      ensures View() == Starting(resume)
    {
      live, sessionId, slot, spawned := None, resume, None, 0;
      running, log, prompts := {}, [], [];
    }

    method KillSlot()
      modifies this
      ensures View() == Killed(old(View()))
    {
      running := running - InSlot(slot);
      slot := None;
    }

    method Release()
      modifies this
      ensures View() == Released(old(View()))
    {
      if live.Some? {
        live := None;
        KillSlot();
      }
    }

    method DoConnect(start: SessionStart, result: ConnectResult) returns (session: Option<SessionId>)
      requires start == if sessionId.Some? then Resume(sessionId.value) else New
      modifies this
      ensures session.Some? <==> result.Connected?
      ensures result.Connected? ==> session == Some(SessionOf(start, result.made))
      ensures var s := Connect(old(View()), result);
              View() == s.(live := old(live), sessionId := old(sessionId))
    {
      log := log + [Attempt(start, result, running)];
      if result.SpawnFailed? {
        return None;
      }
      running := running + {spawned} - (InSlot(slot) - {spawned});
      slot, spawned := Some(spawned), spawned + 1;
      if result.ConnectFailed? {
        return None;
      }
      return Some(match start case Resume(id) => id case New => result.made);
    }

    method RunTurn(connect: ConnectResult, promptOk: bool) returns (ok: bool)
      modifies this
      ensures View() == Apply(old(View()), Turn(connect, promptOk))
      ensures ok <==> promptOk && (old(live).Some? || connect.Connected?)
    {
      if live.None? {
        var start := match sessionId case Some(id) => Resume(id) case None => New;
        var session := DoConnect(start, connect);
        if session.None? {
          return false;
        }
        sessionId := session;
        live := session;
      }
      prompts := prompts + [live.value];
      if !promptOk {
        Release();
      }
      return promptOk;
    }

    /** The provider finds the worker gone, and starts another on the session it reached. */
    method Successor(resume: Option<SessionId>) returns (fresh': ConversationWorker)
      ensures fresh(fresh')
      ensures fresh'.View() == Starting(Apply(View(), Replace(resume)).sessionId)
    {
      fresh' := new ConversationWorker(if sessionId.Some? then sessionId else resume);
    }
  }

  // ---- One session ------------------------------------------------------------------------

  predicate Knows(e: Entry) {
    e.Attempt? && (e.start.Resume? || e.result.Connected?)
  }

  /** The session an attempt asked for or was given. */
  function Known(e: Entry): SessionId
    requires Knows(e)
  {
    if e.start.Resume? then e.start.id else e.result.made
  }

  ghost predicate SameSession(s: State) {
    && (forall i :: 0 <= i < |s.log| && Knows(s.log[i]) ==> s.sessionId == Some(Known(s.log[i])))
    && (forall i, j :: 0 <= i < j < |s.log| && Knows(s.log[i]) && s.log[j].Attempt? ==> s.log[j].start == Resume(Known(s.log[i])))
    && (forall p :: p in s.prompts ==> s.sessionId == Some(p))
    && (s.live.Some? ==> s.live == s.sessionId)
  }

  lemma ConnectKeepsSession(s: State, result: ConnectResult)
    requires SameSession(s)
    ensures SameSession(Connect(s, result))
  {
  }

  lemma {:induction false} EventsKeepSession(resume: Option<SessionId>, events: seq<Event>)
    ensures SameSession(After(Starting(resume), events))
  {
    if events != [] {
      EventsKeepSession(resume, events[..|events| - 1]);
      var s, event := After(Starting(resume), events[..|events| - 1]), events[|events| - 1];
      if event.Turn? {
        ConnectKeepsSession(s, event.connect);
      }
    }
  }

  /** A turn succeeds when there is a connection, or one is made, and the prompt goes through. */
  predicate Succeeds(s: State, connect: ConnectResult, promptOk: bool) {
    promptOk && (s.live.Some? || connect.Connected?)
  }

  /** A connection outlives a turn exactly when the turn succeeds: no error is carried past. */
  lemma {:induction false} FailureEndsConnection(resume: Option<SessionId>, events: seq<Event>, connect: ConnectResult, promptOk: bool)
    ensures After(Starting(resume), events + [Turn(connect, promptOk)]).live.Some?
        <==> Succeeds(After(Starting(resume), events), connect, promptOk)
  {
    assert (events + [Turn(connect, promptOk)])[..|events|] == events;
  }

  predicate Creates(e: Entry) {
    e.Attempt? && e.start.New? && e.result.Connected?
  }

  /** In every run, whatever connects, prompts, cancels, idle releases and replacements it has:
      `session/new` succeeds at most once; once an attempt resumed or made a session, each later
      attempt resumes exactly that one; and every prompt goes to it. */
  lemma {:induction false} OneSession(resume: Option<SessionId>, events: seq<Event>)
    ensures var s := After(Starting(resume), events);
            && (forall i, j :: 0 <= i < j < |s.log| && Creates(s.log[i]) ==> !Creates(s.log[j]))
            && (forall i, j :: 0 <= i < j < |s.log| && Knows(s.log[i]) && s.log[j].Attempt? ==>
                  s.log[j].start == Resume(Known(s.log[i])) && s.sessionId == Some(Known(s.log[i])))
            && (forall p :: p in s.prompts ==> s.sessionId == Some(p))
  {
    EventsKeepSession(resume, events);
  }

  /** The session id, once there is one, never changes. */
  lemma {:induction false} SessionNeverChanges(resume: Option<SessionId>, events: seq<Event>, more: seq<Event>)
    requires After(Starting(resume), events).sessionId.Some?
    ensures After(Starting(resume), events + more).sessionId == After(Starting(resume), events).sessionId
  {
    hide SameSession, Apply;
    if more == [] {
      assert events + more == events;
    } else {
      var before := more[..|more| - 1];
      SessionNeverChanges(resume, events, before);
      assert (events + more)[..|events + more| - 1] == events + before;
      EventKeepsSessionId(After(Starting(resume), events + before), more[|more| - 1]);
    }
  }

  lemma EventKeepsSessionId(s: State, event: Event)
    requires s.sessionId.Some?
    ensures Apply(s, event).sessionId == s.sessionId
  {
  }

  /** A worker that began with a session to resume never makes one, and resumes no other. */
  lemma {:induction false} ResumedStaysResumed(id: SessionId, events: seq<Event>)
    ensures var s := After(Starting(Some(id)), events);
            && s.sessionId == Some(id)
            && (forall e :: e in s.log && e.Attempt? ==> e.start == Resume(id))
  {
    if events != [] {
      ResumedStaysResumed(id, events[..|events| - 1]);
    }
  }

  // ---- One process ------------------------------------------------------------------------

  /** The last process spawned was left behind by a connect that failed, and not killed since. */
  predicate LeftBehind(log: seq<Entry>) {
    log != [] &&
    var last := log[|log| - 1];
    last.Attempt? && (last.result.ConnectFailed? || (last.result.SpawnFailed? && LeftBehind(log[..|log| - 1])))
  }

  ghost predicate OneProcessInv(s: State) {
    && s.running == InSlot(s.slot)
    && (s.live.None? ==> (s.slot.Some? <==> LeftBehind(s.log)))
    && (s.live.Some? ==> !LeftBehind(s.log))
    && (forall i :: 0 <= i < |s.log| && s.log[i].Attempt? ==>
          |s.log[i].alongside| <= 1 && (s.log[i].alongside != {} <==> LeftBehind(s.log[..i])))
  }

  lemma {:induction false} LogAppends(log: seq<Entry>, e: Entry)
    ensures (log + [e])[..|log|] == log
    ensures forall i :: 0 <= i < |log| ==> (log + [e])[..i] == log[..i]
    ensures LeftBehind(log + [e]) <==>
            e.Attempt? && (e.result.ConnectFailed? || (e.result.SpawnFailed? && LeftBehind(log)))
  {
    assert (log + [e])[..|log|] == log;
  }

  lemma ConnectKeepsOneProcess(s: State, result: ConnectResult)
    requires OneProcessInv(s) && s.live.None?
    ensures OneProcessInv(Connect(s, result))
  {
    hide LeftBehind;
    var start := if s.sessionId.Some? then Resume(s.sessionId.value) else New;
    LogAppends(s.log, Attempt(start, result, s.running));
    assert s.running - InSlot(s.slot) + {s.spawned} == {s.spawned};
  }

  lemma {:induction false} EventsKeepOneProcess(resume: Option<SessionId>, events: seq<Event>)
    ensures OneProcessInv(After(Starting(resume), events))
  {
    hide LeftBehind;
    if events == [] {
      assert !LeftBehind([]) by { NothingLeft(); }
    } else {
      EventsKeepOneProcess(resume, events[..|events| - 1]);
      var s, event := After(Starting(resume), events[..|events| - 1]), events[|events| - 1];
      LogAppends(s.log, Cancel);
      if event.Turn? && s.live.None? {
        ConnectKeepsOneProcess(s, event.connect);
      }
    }
  }

  lemma NothingLeft()
    ensures !LeftBehind([])
  {
  }

  /** At the end of each event at most one process runs, the one in the slot. A new one is
      spawned beside another exactly when the connect before it left its process behind:
      failed after its spawn, with nothing cancelled since. */
  lemma {:induction false} OneProcess(resume: Option<SessionId>, events: seq<Event>)
    ensures var s := After(Starting(resume), events);
            && s.running == InSlot(s.slot)
            && (forall i :: 0 <= i < |s.log| && s.log[i].Attempt? ==>
                  |s.log[i].alongside| <= 1 && (s.log[i].alongside != {} <==> LeftBehind(s.log[..i])))
  {
    EventsKeepOneProcess(resume, events);
  }

  /** An idle timeout frees the process exactly when no failed connect left one behind. */
  lemma {:induction false} IdleFreesUnlessLeft(resume: Option<SessionId>, events: seq<Event>)
    ensures After(Starting(resume), events + [Idle]).running == {} <==> !LeftBehind(After(Starting(resume), events).log)
  {
    assert (events + [Idle])[..|events|] == events;
    EventsKeepOneProcess(resume, events);
  }

  /** The end of a worker lets go of what an idle timeout does. A cancel, and a replacement, leave no
      process even so, and the session is kept to be resumed: after a cancel by the worker, which
      takes its next prompt to the process that is gone, and after a replacement by the next one. */
  lemma {:induction false} CancelAlwaysFrees(resume: Option<SessionId>, events: seq<Event>, given: Option<SessionId>)
    ensures var s := After(Starting(resume), events);
            var idle, cancelled := After(Starting(resume), events + [Idle]), After(Starting(resume), events + [CancelRun]);
            var replaced := After(Starting(resume), events + [Replace(given)]);
            && After(Starting(resume), events + [Stop]) == idle && idle.live.None? && idle.sessionId == s.sessionId && idle.log == s.log
            && cancelled == s.(slot := None, running := {}, log := s.log + [Cancel])
            && replaced == cancelled.(live := None, sessionId := replaced.sessionId)
            && (if s.sessionId.Some? then replaced.sessionId == s.sessionId else replaced.sessionId == given)
  {
    assert (events + [Idle])[..|events|] == events;
    assert (events + [Stop])[..|events|] == events;
    assert (events + [CancelRun])[..|events|] == events;
    assert (events + [Replace(given)])[..|events|] == events;
    EventsKeepOneProcess(resume, events);
  }

  /** A connect can fail after the agent made a session: in any run that knows no session yet, the
      next connect asks for another, and that one is kept. */
  lemma {:induction false} FailedConnectOrphansSession(resume: Option<SessionId>, events: seq<Event>,
                                                       orphan: SessionId, made: SessionId, ok: bool, ok': bool)
    requires var s := After(Starting(resume), events); s.sessionId.None? && s.live.None?
    ensures var s, t := After(Starting(resume), events),
                        After(Starting(resume), events + [Turn(ConnectFailed(Some(orphan)), ok), Turn(Connected(made), ok')]);
            && |t.log| == |s.log| + 2 && t.log[..|s.log|] == s.log && t.sessionId == Some(made)
            && t.log[|s.log|].Attempt? && t.log[|s.log|].start == New && t.log[|s.log|].result == ConnectFailed(Some(orphan))
            && t.log[|s.log| + 1].Attempt? && t.log[|s.log| + 1].start == New && t.log[|s.log| + 1].result == Connected(made)
  {
    var first, second := Turn(ConnectFailed(Some(orphan)), ok), Turn(Connected(made), ok');
    var one, both := events + [first], events + [first, second];
    assert one[..|events|] == events && both[..|one|] == one;
    var s := After(Starting(resume), events);
    assert After(Starting(resume), one) == Connect(s, ConnectFailed(Some(orphan)));
  }

  /** In every run: a session made by a connect that failed is resumed, or prompted, only if it is
      the one session kept. */
  lemma {:induction false} OrphanIsNeverResumed(resume: Option<SessionId>, events: seq<Event>, i: nat, orphan: SessionId)
    requires i < |After(Starting(resume), events).log| && After(Starting(resume), events).log[i].Attempt?
    requires After(Starting(resume), events).log[i].result == ConnectFailed(Some(orphan))
    ensures var s := After(Starting(resume), events);
            s.sessionId != Some(orphan) ==>
              (forall e :: e in s.log && e.Attempt? ==> e.start != Resume(orphan)) && orphan !in s.prompts
  {
    hide After;
    EventsKeepSession(resume, events);
    var s := After(Starting(resume), events);
    forall e | e in s.log && e.Attempt? && e.start == Resume(orphan) ensures s.sessionId == Some(orphan) {
      var j :| 0 <= j < |s.log| && s.log[j] == e;
      assert Knows(s.log[j]);
    }
  }
}
