/** Waiting for the response to the last request. The timeout bounds silence, not the whole
    call: each notification handled pushes the deadline back out. */
module AcpAwait {
  import opened Text

  type Time = nat

  /** How long one receive waits before the cancel flag is looked at again. */
  const POLL: Time := 100

  /** What the reader queued. Handling a notification takes a while and can fail. */
  datatype Message =
    | Response(result: string)
    | ResponseError(message: string)
    | Notification(cost: Time, handled: bool)

  datatype Arrival = Arrival(at: Time, message: Message)

  datatype Outcome =
    | Answer(result: string)
    | AcpError(message: string)
    | HandlerFailed
    | Cancelled
    | TimedOut
    | Disconnected

  /** The rest of a call's world: what the reader queues and when, when it hangs up after
      that, and when the user cancels. */
  datatype World = World(arrivals: seq<Arrival>, hangUp: Option<Time>, cancel: Option<Time>)

  predicate Noticed(m: Message) {
    m.Notification? && m.handled
  }

  function Cost(m: Message): Time {
    if m.Notification? then m.cost else 0
  }

  /** When the agent last did visible work, after the first `k` arrivals: each notification is
      taken when it comes, or when the one before it is done with. */
  function LastActivity(w: World, start: Time, k: nat): Time
    requires k <= |w.arrivals|
  {
    if k == 0 then start
    else Max(LastActivity(w, start, k - 1), w.arrivals[k - 1].at) + Cost(w.arrivals[k - 1].message)
  }

  /** Arrival `k` comes before more than `idle` of silence has passed; no time to wait, and
      nothing is even looked at. */
  predicate InTime(w: World, start: Time, idle: Time, k: nat) {
    idle > 0 && k < |w.arrivals| && w.arrivals[k].at <= LastActivity(w, start, k) + idle
  }

  /** The first `k` arrivals are notifications, each in time. */
  predicate Heard(w: World, start: Time, idle: Time, k: nat)
    ensures Heard(w, start, idle, k) ==> k <= |w.arrivals|
  {
    k == 0 || (Heard(w, start, idle, k - 1) && InTime(w, start, idle, k - 1) && Noticed(w.arrivals[k - 1].message))
  }

  predicate HungUpInTime(w: World, start: Time, idle: Time) {
    idle > 0 && w.hangUp.Some? && w.hangUp.value <= LastActivity(w, start, |w.arrivals|) + idle
  }

  predicate CancelledBy(w: World, t: Time) {
    w.cancel.Some? && w.cancel.value <= t
  }

  /** Arrival `k` is the first that is not a notification handled, and it is taken at time `t`. */
  predicate Takes(w: World, start: Time, idle: Time, k: nat, t: Time, m: Message) {
    InTime(w, start, idle, k) && w.arrivals[k].message == m && t == Max(LastActivity(w, start, k), w.arrivals[k].at)
  }

  /** What a call that hears `k` notifications and stops at time `t` may report. */
  predicate Reports(w: World, start: Time, idle: Time, k: nat, t: Time, outcome: Outcome) {
    && Heard(w, start, idle, k)
    && match outcome
       case Answer(result) => Takes(w, start, idle, k, t, Response(result))
       case AcpError(message) => Takes(w, start, idle, k, t, ResponseError(message))
       case HandlerFailed =>
         exists cost: Time :: cost <= t && Takes(w, start, idle, k, t - cost, Notification(cost, false))
       case Disconnected =>
         k == |w.arrivals| && HungUpInTime(w, start, idle) && t == Max(LastActivity(w, start, k), w.hangUp.value)
       case TimedOut =>
         && !InTime(w, start, idle, k) && (k == |w.arrivals| ==> !HungUpInTime(w, start, idle))
         && t == LastActivity(w, start, k) + idle
       case Cancelled =>
         // noticed within one poll, or as soon as the notification being handled was done with
         && CancelledBy(w, t)
         && (t <= w.cancel.value + 100 || t == LastActivity(w, start, k))
  }

  /** Nothing more came by the time `t`. */
  predicate Silent(w: World, taken: nat, t: Time)
    requires taken <= |w.arrivals|
  {
    && (taken < |w.arrivals| ==> w.arrivals[taken].at > t)
    && (taken == |w.arrivals| && w.hangUp.Some? ==> w.hangUp.value > t)
  }

  predicate Took(w: World, taken: nat, t: Time, wait: Time, m: Message, taken': nat, t': Time) {
    && taken < |w.arrivals| && w.arrivals[taken].at <= t + wait && m == w.arrivals[taken].message
    && taken' == taken + 1 && t' == Max(t, w.arrivals[taken].at)
  }

  function Max(a: Time, b: Time): (later: Time)
    ensures later >= a && later >= b && (later == a || later == b)
  {
    if a > b then a else b
  }

  lemma HearNext(w: World, start: Time, idle: Time, k: nat)
    requires Heard(w, start, idle, k) && InTime(w, start, idle, k) && Noticed(w.arrivals[k].message)
    ensures Heard(w, start, idle, k + 1)
    ensures LastActivity(w, start, k + 1)
         == Max(LastActivity(w, start, k), w.arrivals[k].at) + Cost(w.arrivals[k].message)
  {
  }

  lemma {:induction false} NothingHeard(w: World, start: Time, idle: Time)
    ensures Heard(w, start, idle, 0) && LastActivity(w, start, 0) == start
  {
  }

  lemma {:induction false} HeardEarlier(w: World, start: Time, idle: Time, j: nat, k: nat)
    requires Heard(w, start, idle, k) && j < k
    ensures Heard(w, start, idle, j) && InTime(w, start, idle, j) && Noticed(w.arrivals[j].message)
  {
    if j < k - 1 {
      HeardEarlier(w, start, idle, j, k - 1);
    }
  }

  /** A call nobody cancels has one outcome, however its polls fall. */
  lemma OutcomeIsDetermined(w: World, start: Time, idle: Time, k: nat, t: Time, o: Outcome, k': nat, t': Time, o': Outcome)
    requires w.cancel.None?
    requires Reports(w, start, idle, k, t, o) && Reports(w, start, idle, k', t', o')
    ensures k == k' && t == t' && o == o'
  {
    hide LastActivity;
    if k < k' {
      HeardEarlier(w, start, idle, k, k');
    } else if k' < k {
      HeardEarlier(w, start, idle, k', k);
    }
  }

  /** An agent that keeps reporting is waited for, however long it takes in all: when each
      notification and the answer come within `idle` of the last activity, the answer is
      what a call reports. */
  lemma BusyAgentIsWaitedFor(w: World, start: Time, idle: Time, n: nat, result: string, k: nat, t: Time, o: Outcome)
    requires w.cancel.None? && n < |w.arrivals| && w.arrivals[n].message == Response(result)
    requires forall i :: 0 <= i < n ==> Noticed(w.arrivals[i].message)
    requires forall i: nat :: i <= n ==> InTime(w, start, idle, i)
    requires Reports(w, start, idle, k, t, o)
    ensures o == Answer(result) && k == n
  {
    AllHeard(w, start, idle, n);
    OutcomeIsDetermined(w, start, idle, k, t, o, n, Max(LastActivity(w, start, n), w.arrivals[n].at), Answer(result));
  }

  lemma {:induction false} AllHeard(w: World, start: Time, idle: Time, n: nat)
    requires n <= |w.arrivals|
    requires forall i :: 0 <= i < n ==> Noticed(w.arrivals[i].message)
    requires forall i: nat :: i < n ==> InTime(w, start, idle, i)
    ensures Heard(w, start, idle, n)
  {
    if n > 0 {
      AllHeard(w, start, idle, n - 1);
    }
  }

  /** The client of one agent process, as far as it waits: what it has taken from the channel,
      and the time it is. */
  class Client {
    var taken: nat
    var now: Time

    constructor (start: Time)
      ensures taken == 0 && now == start
    {
      taken := 0;
      now := start;
    }

    /** One `recv_timeout`. */
    method Receive(w: World, wait: Time) returns (r: Option<Message>, hungUp: bool)
      requires taken <= |w.arrivals|
      modifies this
      ensures r.Some? ==> Took(w, old(taken), old(now), wait, r.value, taken, now) && !hungUp
      ensures hungUp ==> old(taken) == |w.arrivals| && w.hangUp.Some? && w.hangUp.value <= old(now) + wait
      ensures hungUp ==> now == Max(old(now), w.hangUp.value)
      ensures r.None? && !hungUp ==> now == old(now) + wait && Silent(w, old(taken), now)
      ensures r.None? ==> taken == old(taken)
    {
      hungUp := false;
      if taken < |w.arrivals| && w.arrivals[taken].at <= now + wait {
        r := Some(w.arrivals[taken].message);
        now := Max(now, w.arrivals[taken].at);
        taken := taken + 1;
      } else if taken == |w.arrivals| && w.hangUp.Some? && w.hangUp.value <= now + wait {
        r, hungUp := None, true;
        now := Max(now, w.hangUp.value);
      } else {
        r := None;
        now := now + wait;
      }
    }

    method AwaitResponse(w: World, idle: Time) returns (outcome: Outcome, ghost heard: nat)
      requires taken == 0
      modifies this
      ensures Reports(w, old(now), idle, heard, now, outcome)
    {
      hide Heard, LastActivity;
      ghost var start := now;
      heard := 0;
      NothingHeard(w, start, idle);
      var deadline := now + idle;
      while true
        invariant taken == heard && Heard(w, start, idle, heard)
        invariant deadline == LastActivity(w, start, heard) + idle
        invariant LastActivity(w, start, heard) <= now <= deadline
        invariant now > LastActivity(w, start, heard) ==>
                    Silent(w, heard, now) && (w.cancel.Some? ==> now <= w.cancel.value + POLL)
        decreases |w.arrivals| - taken, deadline - now
      {
        if CancelledBy(w, now) {
          return Cancelled, heard;
        }
        var remaining := deadline - now;
        if remaining == 0 {
          return TimedOut, heard;
        }
        var r, hungUp := Receive(w, if remaining < POLL then remaining else POLL);
        if hungUp {
          return Disconnected, heard;
        }
        if r.Some? {
          match r.value {
            case Response(result) => return Answer(result), heard;
            case ResponseError(message) => return AcpError(message), heard;
            case Notification(cost, handled) =>
              assert Takes(w, start, idle, heard, now, Notification(cost, handled));
              now := now + cost;
              if !handled {
                return HandlerFailed, heard;
              }
              HearNext(w, start, idle, heard);
              heard := heard + 1;
              deadline := now + idle;
          }
        }
      }
    }
  }
}
