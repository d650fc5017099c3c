/**
  In-flight accounting in Redis, which gateways and reaper share: one counter per pod name,
  with a time to live, that every process changes command by command. The state is that of
  one name; counters of different names are different keys.
 */
module RedisTraffic {
  import opened Common

  type RequestId = nat

  /** The two counter calls of a request. */
  datatype CounterCall = Opening(request: RequestId) | Closing(request: RequestId)

  const HOUR := 3600000

  /** The stored number, with the time it expires if one is set. */
  datatype Counter = Missing | Stored(value: int, expires: Option<Time>)
  {
    function Value(): int {
      if Stored? then value else 0
    }

    /** INCRBY, which keeps the time to live. */
    function Plus(delta: int): Counter {
      Stored(Value() + delta, if Stored? then expires else None)
    }
  }

  /**
    `open` has the outstanding requests, `owed` the calls whose negative result they are
    still to set to zero, and `crashed` counts requests that ended without closing their
    bracket since the counter was last zeroed. `lost` says that it was zeroed under an
    outstanding request, `refreshed` when its time to live was last renewed.
   */
  datatype State = State(counter: Counter, clock: Time, refreshed: Time, open: set<RequestId>, owed: set<CounterCall>,
                         crashed: nat, lost: bool)

  datatype Event =
    | Begin(request: RequestId)                 // INCRBY 1
    | Finish(request: RequestId)                // INCRBY -1
    | Clamp(call: CounterCall)                  // SET 0 after a negative result
    | Refresh                                   // EXPIRE, after any change and after every read
    | Delete                                    // a pod of this name is deleted, known or not
    | Crash(request: RequestId)                 // a gateway dies
    | Tick(elapsed: nat)

  function Start(now: Time): State {
    State(Missing, now, now, {}, {}, 0, false)
  }

  function Zeroed(s: State, counter: Counter): State {
    s.(counter := counter, crashed := 0, lost := s.open != {})
  }

  /** INCRBY; who sees a negative result is to set it to zero. */
  function Counted(s: State, delta: int, call: CounterCall): State {
    s.(counter := s.counter.Plus(delta), owed := if s.counter.Value() + delta < 0 then s.owed + {call} else s.owed)
  }

  predicate Expires(s: State, now: Time) {
    s.counter.Stored? && s.counter.expires.Some? && s.counter.expires.value <= now
  }

  function Step(s: State, e: Event): State {
    match e
    case Begin(r) => if r in s.open then s else Counted(s, 1, Opening(r)).(open := s.open + {r})
    case Finish(r) => if r !in s.open then s else Counted(s, -1, Closing(r)).(open := s.open - {r})
    case Clamp(call) =>
      if call !in s.owed then s else Zeroed(s, Stored(0, Some(s.clock + HOUR))).(owed := s.owed - {call})
    case Refresh =>
      if s.counter.Missing? then s
      else s.(counter := s.counter.(expires := Some(s.clock + HOUR)), refreshed := s.clock)
    case Delete => Zeroed(s, Missing)
    case Crash(r) => if r !in s.open then s else s.(open := s.open - {r}, crashed := s.crashed + 1)
    case Tick(elapsed) =>
      var later := s.(clock := s.clock + elapsed);
      if Expires(s, later.clock) then Zeroed(later, Missing) else later
  }

  function Run(s: State, events: seq<Event>): State {
    if events == [] then s else Step(Run(s, events[..|events| - 1]), events[|events| - 1])
  }

  /** Never above the requests, exact iff not lost, and a negative value is to be set to zero by somebody. */
  ghost predicate CountInv(value: int, requests: nat, owed: bool, lost: bool) {
    value <= requests && (value == requests <==> !lost) && (value < 0 ==> owed)
  }

  ghost predicate Inv(s: State) {
    && CountInv(s.counter.Value(), |s.open| + s.crashed, s.owed != {}, s.lost)
    && s.refreshed <= s.clock
    && (s.counter.Stored? && s.counter.expires.Some? ==> s.counter.expires.value >= s.refreshed + HOUR)
  }

  lemma StepKeepsTimes(s: State, e: Event)
    requires Inv(s)
    ensures var t := Step(s, e);
            && t.refreshed <= t.clock
            && (t.counter.Stored? && t.counter.expires.Some? ==> t.counter.expires.value >= t.refreshed + HOUR)
  {
  }

  /** A counting call moves value and requests together. */
  lemma CountingKeeps(s: State, e: Event)
    requires Inv(s) && (e.Begin? || e.Finish? || e.Crash?)
    ensures var t := Step(s, e); CountInv(t.counter.Value(), |t.open| + t.crashed, t.owed != {}, t.lost)
  {
    match e
    case Begin(r) => if r !in s.open { assert |s.open + {r}| == |s.open| + 1; }
    case Finish(r) => if r in s.open { assert |s.open - {r}| == |s.open| - 1; }
    case Crash(r) => if r in s.open { assert |s.open - {r}| == |s.open| - 1; }
  }

  /** Zeroing makes the counter exact just if nothing is outstanding. */
  lemma ZeroingKeeps(s: State, e: Event)
    requires Inv(s) && (e.Clamp? || e.Refresh? || e.Delete? || e.Tick?)
    ensures var t := Step(s, e); CountInv(t.counter.Value(), |t.open| + t.crashed, t.owed != {}, t.lost)
  {
    assert s.open == {} <==> |s.open| == 0;
  }

  lemma StepKeeps(s: State, e: Event)
    requires Inv(s)
    ensures Inv(Step(s, e))
  {
    StepKeepsTimes(s, e);
    if e.Begin? || e.Finish? || e.Crash? {
      CountingKeeps(s, e);
    } else {
      ZeroingKeeps(s, e);
    }
  }

  lemma {:induction false} RunKeeps(s: State, events: seq<Event>)
    requires Inv(s)
    ensures Inv(Run(s, events))
  {
    if events != [] {
      RunKeeps(s, events[..|events| - 1]);
      StepKeeps(Run(s, events[..|events| - 1]), events[|events| - 1]);
    }
  }

  /**
    In every run the counter is at most the number of outstanding and crashed requests. It is
    exactly that unless it was zeroed, by a delete, by expiry or by a late clamp, under a request that
    was outstanding. And it is exactly that again once none remain and no clamp is owed.
   */
  lemma CounterTracksRequests(start: Time, events: seq<Event>)
    ensures var s := Run(Start(start), events);
            && s.counter.Value() <= |s.open| + s.crashed
            && (s.counter.Value() == |s.open| + s.crashed <==> !s.lost)
            && (s.open == {} && s.crashed == 0 && s.owed == {} ==> s.counter.Value() == 0 && !s.lost)
  {
    RunKeeps(Start(start), events);
  }

  /** The counter is renewed within an hour of its last renewal. */
  predicate Renewed(s: State, e: Event) {
    e.Tick? && s.counter.Stored? && s.counter.expires.Some? ==> s.clock + e.elapsed < s.refreshed + HOUR
  }

  /** That leaves just under an hour after a renewal. */
  lemma RenewedMeans(s: State, elapsed: nat)
    requires s.counter.Stored?
    ensures Renewed(Step(s, Refresh), Tick(elapsed)) <==> elapsed < 3600000
  {
  }

  /** Under an outstanding request the name is not deleted and its counter is renewed within every hour. */
  predicate Tended(s: State, e: Event) {
    s.open != {} ==> !e.Delete? && Renewed(s, e)
  }

  ghost predicate AllTended(s: State, events: seq<Event>) {
    events == [] ||
    (AllTended(s, events[..|events| - 1]) && Tended(Run(s, events[..|events| - 1]), events[|events| - 1]))
  }

  lemma RunNext(s: State, events: seq<Event>, e: Event)
    ensures Run(s, events + [e]) == Step(Run(s, events), e)
    ensures AllTended(s, events) && Tended(Run(s, events), e) ==> AllTended(s, events + [e])
  {
    assert (events + [e])[..|events|] == events;
  }

  lemma TendedStep(s: State, e: Event)
    requires Inv(s) && !s.lost && s.owed == {} && Tended(s, e)
    ensures !Step(s, e).lost && Step(s, e).owed == {}
  {
  }

  lemma {:induction false} TendedKeeps(s: State, events: seq<Event>)
    requires Inv(s) && !s.lost && s.owed == {} && AllTended(s, events)
    ensures !Run(s, events).lost && Run(s, events).owed == {}
  {
    if events != [] {
      var front := events[..|events| - 1];
      TendedKeeps(s, front);
      RunKeeps(s, front);
      TendedStep(Run(s, front), events[|events| - 1]);
    }
  }

  /** In every tended run the counter is exact throughout, and no result is ever clamped. */
  lemma TendedIsExact(start: Time, events: seq<Event>)
    requires AllTended(Start(start), events)
    ensures var s := Run(Start(start), events);
            s.counter.Value() == |s.open| + s.crashed && s.owed == {} && !s.lost
  {
    TendedKeeps(Start(start), events);
    RunKeeps(Start(start), events);
  }

  /** An owed clamp can still strike a request: one that is open, or one that begins before it. */
  lemma OwedClampStrikes(s: State, call: CounterCall) returns (events: seq<Event>)
    requires call in s.owed
    ensures AllTended(s, events) && Run(s, events).lost
  {
    events := [];
    if s.open == {} {
      RunNext(s, events, Begin(0));
      events := events + [Begin(0)];
    }
    assert call in Run(s, events).owed && Run(s, events).open != {};
    RunNext(s, events, Clamp(call));
    events := events + [Clamp(call)];
  }

  /** Some tended continuation makes the counter inexact. */
  ghost predicate MayBeLost(s: State) {
    exists events :: AllTended(s, events) && Run(s, events).lost
  }

  /** The counter stays exact in every tended continuation exactly if it is exact now and no clamp is owed. */
  lemma StaysExactExactlyIf(s: State)
    requires Inv(s)
    ensures MayBeLost(s) <==> s.lost || s.owed != {}
  {
    if !s.lost && s.owed == {} {
      forall events | AllTended(s, events) ensures !Run(s, events).lost {
        TendedKeeps(s, events);
      }
    } else if s.lost {
      assert AllTended(s, []) && Run(s, []).lost;
    } else {
      var call :| call in s.owed;
      var events := OwedClampStrikes(s, call);
    }
  }

  /** Only the time passes, and reads renew the counter within every hour. */
  ghost predicate OnlyRead(s: State, events: seq<Event>) {
    events == [] ||
    var front, e := events[..|events| - 1], events[|events| - 1];
    OnlyRead(s, front) && (e.Tick? || e.Refresh?) && Renewed(Run(s, front), e)
  }

  /**
    A counter that is read within every hour never expires. So what a crashed gateway left in it
    stays, and the sweeps of the reaper, which read it, keep it there.
   */
  lemma {:induction false} ReadCounterStays(s: State, events: seq<Event>)
    requires Inv(s) && OnlyRead(s, events)
    ensures Run(s, events).counter.Value() == s.counter.Value() && Run(s, events).open == s.open
  {
    if events != [] {
      var front := events[..|events| - 1];
      ReadCounterStays(s, front);
      RunKeeps(s, front);
    }
  }

  /** A counter that nobody touches is gone an hour after its last renewal, and not before. */
  lemma UntouchedExpires(s: State, elapsed: nat)
    requires Inv(s) && s.counter.Stored?
    ensures var t := Step(Step(s, Refresh), Tick(elapsed));
            && (elapsed >= 3600000 ==> t.counter == Missing)
            && (elapsed < 3600000 ==> t.counter.Stored? && t.counter.Value() == s.counter.Value())
  {
  }

  /** A clamp leaves zero for an hour, and a delete leaves nothing. */
  lemma ZeroedMeans(s: State, call: CounterCall)
    ensures call in s.owed ==>
              var t := Step(s, Clamp(call)); t.counter == Stored(0, Some(s.clock + 3600000)) && call !in t.owed
    ensures Step(s, Delete).counter == Missing
  {
  }

  /** After a crash nothing is outstanding and the counter stays at one, however long it is swept. */
  lemma CrashedRequestPins(start: Time, events: seq<Event>)
    requires OnlyRead(Run(Start(start), [Begin(0)] + [Crash(0)]), events)
    ensures var s := Run(Run(Start(start), [Begin(0)] + [Crash(0)]), events); s.open == {} && s.counter.Value() == 1
  {
    var begun := Run(Start(start), [Begin(0)] + [Crash(0)]);
    RunNext(Start(start), [], Begin(0));
    assert [] + [Begin(0)] == [Begin(0)];
    RunNext(Start(start), [Begin(0)], Crash(0));
    RunKeeps(Start(start), [Begin(0)] + [Crash(0)]);
    ReadCounterStays(begun, events);
  }

  /**
    A clamp that comes late takes a request with it that began when none was left: after a delete
    under request 0, its end makes the counter negative, request 1 begins, and the clamp sets it to zero.
   */
  lemma LateClampLosesARequest(start: Time) returns (events: seq<Event>)
    ensures var s := Run(Start(start), events); s.open == {1} && s.owed == {} && s.counter.Value() == 0 && s.lost
    ensures |events| == 5 && Run(Start(start), events[..3]).open == {}
  {
    events := [];
    var s := Start(start);
    RunNext(s, events, Begin(0));
    events := events + [Begin(0)];
    RunNext(s, events, Delete);
    events := events + [Delete];
    RunNext(s, events, Finish(0));
    events := events + [Finish(0)];
    ghost var three := events;
    assert Run(s, three).open == {} && Run(s, three).owed == {Closing(0)};
    RunNext(s, events, Begin(1));
    events := events + [Begin(1)];
    RunNext(s, events, Clamp(Closing(0)));
    events := events + [Clamp(Closing(0))];
    assert events[..3] == three;
  }

  /** The counter of one name, changed by the calls of all processes. */
  class Meter {
    var state: State

    ghost predicate Valid()
      reads this
    {
      Inv(state)
    }

    constructor (now: Time)
      ensures Valid() && state == Start(now)
    {
      state := Start(now);
    }

    method Command(e: Event)
      requires Valid()
      modifies this
      ensures Valid() && state == Step(old(state), e)
    {
      StepKeeps(state, e);
      state := Step(state, e);
    }

    method Others(events: seq<Event>)
      requires Valid()
      modifies this
      ensures Valid() && state == Run(old(state), events)
    {
      for i := 0 to |events|
        invariant Valid() && state == Run(old(state), events[..i])
      {
        assert events[..i + 1][..i] == events[..i];
        Command(events[i]);
      }
      assert events[..|events|] == events;
    }

    /** A counter call that changes the counter: the commands of others come between its own. */
    method Adjust(command: Event, call: CounterCall, between: seq<Event>, after: seq<Event>) returns (n: nat)
      requires Valid()
      requires || (exists r :: command == Begin(r) && call == Opening(r) && r !in state.open)
               || (exists r :: command == Finish(r) && call == Closing(r) && r in state.open)
      modifies this
      ensures Valid()
      ensures var changed := Step(old(state), command);
              var v := changed.counter.Value();
              && n == (if v < 0 then 0 else v)
              && state == Step(if v < 0 then Run(Step(Run(changed, between), Clamp(call)), after)
                               else Run(changed, between),
                               Refresh)
    {
      Command(command);
      var v := state.counter.Value();
      Others(between);
      if v < 0 {
        Command(Clamp(call));
        Others(after);
        v := 0;
      }
      Command(Refresh);
      n := v;
    }

    /** The reaper reads the counter, which renews it. */
    method Read(between: seq<Event>) returns (n: int)
      requires Valid()
      modifies this
      ensures Valid() && n == old(state).counter.Value()
      ensures state == if old(state).counter.Missing? then old(state) else Step(Run(old(state), between), Refresh)
    {
      n := state.counter.Value();
      if state.counter.Missing? {
        return;
      }
      Others(between);
      Command(Refresh);
    }
  }
}
