/** One launcher's loops: waiting for a daemon to be gone, and starting one. */
module DaemonLaunch {
  import opened Text
  import opened DaemonStart

  type Millis = nat

  const PAUSE: Millis := 50
  const START_PATIENCE: Millis := 60000
  const GONE_PATIENCE: Millis := 30000

  /** What asking after the child says: it can fail. */
  datatype Child = Running | Exit(killed: bool) | Unknown

  /** What one look of the start loop sees, and how long it took: whether a daemon answered,
      whether the child was over, and whether one answered then; and whether a killed child could
      be copied and spawned again, if it came to that. */
  datatype Look = Look(answer: Option<Identity>, child: Child, again: Option<Identity>, respawns: bool, took: Millis)

  datatype Started = Answer(build: Identity) | ExitedAtStart | NoAnswer | CannotTell | CannotSpawn

  /** The system killed the child at its start, and nothing else serves. */
  predicate Killed(look: Look) {
    look.answer.None? && look.child == Exit(true) && look.again.None?
  }

  predicate Waits(look: Look) {
    look.answer.None? && look.child.Running?
  }

  function Kills(looks: nat -> Look, n: nat): (r: nat)
    ensures r <= n
  {
    if n == 0 then 0 else Kills(looks, n - 1) + if Killed(looks(n - 1)) then 1 else 0
  }

  /** How long the child looked at in look `n` had been starting by then: its predecessor, if
      any, was killed in an earlier look. */
  function Waited(looks: nat -> Look, n: nat): Millis {
    if n == 0 || Killed(looks(n - 1)) then 0 else Waited(looks, n - 1) + looks(n - 1).took + PAUSE
  }

  /** A start goes past look `i`: the child still starts, or was killed and may be started again. */
  predicate Passes(looks: nat -> Look, i: nat) {
    && Waited(looks, i) < START_PATIENCE
    && (Waits(looks(i)) || (Killed(looks(i)) && Kills(looks, i) + 1 < START_ATTEMPTS && looks(i).respawns))
  }

  ghost predicate Ends(looks: nat -> Look, k: nat, started: Started) {
    && (forall i: nat :: i < k ==> Passes(looks, i))
    && match started
       case Answer(build) =>
         && Waited(looks, k) < START_PATIENCE
         && (looks(k).answer == Some(build) || (looks(k).answer.None? && looks(k).child.Exit? && looks(k).again == Some(build)))
       case ExitedAtStart =>
         && Waited(looks, k) < START_PATIENCE
         && looks(k).answer.None? && looks(k).child.Exit? && looks(k).again.None?
         && (looks(k).child.killed ==> Kills(looks, k) + 1 == START_ATTEMPTS)
       case NoAnswer => Waited(looks, k) >= START_PATIENCE
       case CannotTell => Waited(looks, k) < START_PATIENCE && looks(k).answer.None? && looks(k).child.Unknown?
       case CannotSpawn =>
         && Waited(looks, k) < START_PATIENCE && Killed(looks(k))
         && Kills(looks, k) + 1 < START_ATTEMPTS && !looks(k).respawns
  }

  /** A start has one end, and starts the child at most `START_ATTEMPTS` times. */
  lemma {:induction false} EndIsDetermined(looks: nat -> Look, k: nat, started: Started, k': nat, started': Started)
    requires Ends(looks, k, started) && Ends(looks, k', started')
    ensures k == k' && started == started'
    ensures Kills(looks, k) < START_ATTEMPTS
  {
    hide Kills, Waited;
    assert k < k' ==> Passes(looks, k);
    assert k' < k ==> Passes(looks, k');
    FewKills(looks, k);
  }

  lemma AnswerIsTheEnd(looks: nat -> Look, started: Started)
    requires exists k: nat :: Ends(looks, k, started)
    ensures forall k: nat, build :: Ends(looks, k, Answer(build)) ==> started == Answer(build)
  {
    var k: nat :| Ends(looks, k, started);
    forall j: nat, build | Ends(looks, j, Answer(build)) ensures started == Answer(build) {
      EndIsDetermined(looks, k, started, j, Answer(build));
    }
  }

  lemma {:induction false} FewKills(looks: nat -> Look, k: nat)
    requires forall i: nat :: i < k ==> Passes(looks, i)
    ensures Kills(looks, k) < START_ATTEMPTS
  {
    if k > 0 {
      FewKills(looks, k - 1);
      assert Passes(looks, k - 1);
    }
  }

  method Start(looks: nat -> Look) returns (started: Started, attempts: nat)
    ensures exists k: nat :: Ends(looks, k, started) && attempts == Kills(looks, k) + 1
    ensures 1 <= attempts <= 3
  {
    var now: Millis, deadline: Millis, k: nat := 0, START_PATIENCE, 0;
    attempts := 1;
    while now < deadline
      invariant attempts == Kills(looks, k) + 1 <= START_ATTEMPTS
      invariant deadline + Waited(looks, k) == now + START_PATIENCE
      invariant forall j: nat :: j < k ==> Passes(looks, j)
      decreases START_ATTEMPTS - attempts, deadline - now
    {
      var look := looks(k);
      if look.answer.Some? {
        return Answer(look.answer.value), attempts;
      }
      now := now + look.took;
      if look.child.Unknown? {
        return CannotTell, attempts;
      }
      if look.child.Exit? {
        if look.again.Some? {
          return Answer(look.again.value), attempts;
        }
        if look.child.killed && attempts < START_ATTEMPTS {
          if !look.respawns {
            return CannotSpawn, attempts;
          }
          attempts := attempts + 1;
          deadline := now + START_PATIENCE;
          k := k + 1;
          continue;
        }
        return ExitedAtStart, attempts;
      }
      now := now + PAUSE;
      k := k + 1;
    }
    return NoAnswer, attempts;
  }

  /** One try of the wait for the daemon lock: whether it was free, and how long the try took. */
  datatype Try = Try(free: bool, took: Millis)

  function Elapsed(tries: nat -> Try, n: nat): Millis {
    if n == 0 then 0 else Elapsed(tries, n - 1) + tries(n - 1).took + PAUSE
  }

  ghost predicate BecomesFree(tries: nat -> Try) {
    exists i: nat :: Elapsed(tries, i) < GONE_PATIENCE && tries(i).free
  }

  lemma {:induction false} ElapsedGrows(tries: nat -> Try, i: nat, j: nat)
    requires i <= j
    ensures Elapsed(tries, i) <= Elapsed(tries, j)
  {
    if i < j {
      ElapsedGrows(tries, i, j - 1);
    }
  }

  method WaitGone(tries: nat -> Try) returns (gone: bool)
    ensures gone <==> BecomesFree(tries)
  {
    var now: Millis, i: nat := 0, 0;
    while now < GONE_PATIENCE
      invariant now == Elapsed(tries, i)
      invariant forall j: nat :: j < i ==> !tries(j).free
      decreases GONE_PATIENCE - now
    {
      if tries(i).free {
        return true;
      }
      now := now + tries(i).took + PAUSE;
      i := i + 1;
    }
    forall j: nat | j >= i ensures Elapsed(tries, j) >= GONE_PATIENCE {
      ElapsedGrows(tries, i, j);
    }
    return false;
  }

  // ---- The bounds, in milliseconds -----------------------------------------------------------

  /** When each look takes `took` and the child neither answers nor ends, the loop looks at it every
      `took + 50` ms for a minute, and no longer. */
  lemma {:induction false} SteadyStart(looks: nat -> Look, took: Millis, k: nat)
    requires forall i: nat :: Waits(looks(i)) && looks(i).took == took
    ensures Ends(looks, k, NoAnswer) <==> k * (took + 50) >= 60000 && (k > 0 ==> (k - 1) * (took + 50) < 60000)
  {
    hide Waited;
    SteadyWait(looks, took, k);
    if k > 0 {
      SteadyWait(looks, took, k - 1);
      if (k - 1) * (took + 50) < 60000 {
        forall i: nat | i < k ensures Passes(looks, i) {
          SteadyWait(looks, took, i);
          TimesGrow(i, k - 1, took + 50);
        }
      }
      assert Ends(looks, k, NoAnswer) ==> Passes(looks, k - 1);
    }
  }

  lemma TimesGrow(i: nat, j: nat, each: nat)
    requires i <= j
    ensures i * each <= j * each
  {
  }

  lemma {:induction false} SteadyWait(looks: nat -> Look, took: Millis, i: nat)
    requires forall j: nat :: Waits(looks(j)) && looks(j).took == took
    ensures Waited(looks, i) == i * (took + 50)
  {
    if i > 0 {
      SteadyWait(looks, took, i - 1);
      assert Waits(looks(i - 1)) && !Killed(looks(i - 1));
    }
  }

  /** When each try takes `took`, the lock is tried every `took + 50` ms for half a minute. */
  lemma {:induction false} SteadyTries(tries: nat -> Try, took: Millis)
    requires forall i: nat :: tries(i).took == took
    ensures BecomesFree(tries) <==> exists i: nat :: tries(i).free && i * (took + 50) < 30000
  {
    forall i: nat ensures Elapsed(tries, i) == i * (took + 50) {
      SteadyElapsed(tries, took, i);
    }
  }

  lemma {:induction false} SteadyElapsed(tries: nat -> Try, took: Millis, i: nat)
    requires forall j: nat :: tries(j).took == took
    ensures Elapsed(tries, i) == i * (took + 50)
  {
    if i > 0 {
      SteadyElapsed(tries, took, i - 1);
      assert tries(i - 1).took == took;
    }
  }

  /** A child that is killed is started again, twice; killed a third time, it ends the start. */
  lemma {:induction false} ThirdKillEnds(looks: nat -> Look, k: nat)
    requires k >= 2 && (forall i: nat :: i < k - 2 ==> Waits(looks(i)))
    requires Killed(looks(k - 2)) && looks(k - 2).respawns && Killed(looks(k - 1)) && looks(k - 1).respawns && Killed(looks(k))
    requires forall i: nat :: i <= k - 2 ==> Waited(looks, i) < 60000
    ensures Ends(looks, k, ExitedAtStart)
  {
    NoKills(looks, k - 2);
    assert Kills(looks, k - 2) == 0;
    assert Kills(looks, k - 1) == 1 && Waited(looks, k - 1) == 0;
    assert Kills(looks, k) == 2 && Waited(looks, k) == 0;
    forall i: nat | i < k ensures Passes(looks, i) {
      assert i < k - 2 ==> Waits(looks(i));
    }
  }

  lemma {:induction false} NoKills(looks: nat -> Look, n: nat)
    requires forall i: nat :: i < n ==> Waits(looks(i))
    ensures forall i: nat :: i <= n ==> Kills(looks, i) == 0
  {
    if n > 0 {
      NoKills(looks, n - 1);
      assert Waits(looks(n - 1));
    }
  }

  datatype Ensure = Use(build: Identity, started: bool, restarted: bool) | DaemonNewer(build: Identity) | Gave

  /** A daemon of other source, built earlier, is running. */
  predicate Replaces(running: Option<Identity>, me: Identity) {
    running.Some? && running.value.stamp != me.stamp && running.value.builtAt < me.builtAt
  }

  /** `ensure_running_as`, once it holds the start lock. The daemon found first is `running`;
      `quits` is whether asking it to quit went through, `launches` whether a child could be
      copied and spawned at all. */
  method EnsureRunningAs(running: Option<Identity>, quits: bool, tries: nat -> Try, launches: bool, looks: nat -> Look, me: Identity)
    returns (r: Ensure)
    ensures running.Some? && running.value.stamp == me.stamp ==> r == Use(running.value, false, false)
    ensures r.DaemonNewer? <==> running.Some? && running.value.stamp != me.stamp && running.value.builtAt >= me.builtAt
    ensures r.DaemonNewer? ==> r.build == running.value
    ensures Replaces(running, me) && !(quits && BecomesFree(tries) && launches) ==> r == Gave
    ensures running.None? && !launches ==> r == Gave
    ensures (running.None? || (Replaces(running, me) && quits && BecomesFree(tries))) && launches ==>
              && (forall k: nat, build :: Ends(looks, k, Answer(build)) ==> r == Use(build, running.None?, running.Some?))
              && (r.Use? ==> exists k: nat :: Ends(looks, k, Answer(r.build)))
              && (r == Gave || r.Use?)
  {
    var restarted := false;
    if running.Some? {
      match Compare(running.value, me) {
        case Same => return Use(running.value, false, false);
        case Newer => return DaemonNewer(running.value);
        case Older =>
          if !quits {
            return Gave;
          }
          var gone := WaitGone(tries);
          if !gone {
            return Gave;
          }
          restarted := true;
      }
    }
    if !launches {
      return Gave;
    }
    var started, _ := Start(looks);
    AnswerIsTheEnd(looks, started);
    match started
    case Answer(build) => return Use(build, !restarted, restarted);
    case _ => return Gave;
  }
}
