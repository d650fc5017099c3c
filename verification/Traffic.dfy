/**
  In-flight accounting: the clamped counter of the in-process table against the
  requests that are really outstanding, when pods come and go under one name.
 */
module Traffic {
  import opened Common
  import opened Routing
  import opened MemoryTable

  type RequestId = nat

  datatype Event =
    | Begin(request: RequestId, name: string)   // the bracket opens
    | Finish(request: RequestId)                // the bracket closes
    | Peek(name: string)                        // the reaper reads the counter
    | Touch(name: string, at: Time)
    | Put(pod: Pod)
    | Drop(key: PodKey)

  /**
    `open` maps each outstanding request to the pod name it was sent to. `lost` holds
    the names that were dropped from the table under an outstanding request and have
    not been free of requests since.
   */
  datatype State = State(pods: Pods, active: map<string, Time>, inflight: map<string, nat>,
                         open: map<RequestId, string>, lost: set<string>)

  const EMPTY := State(map[], map[], map[], map[], {})

  ghost function Sent(open: map<RequestId, string>, name: string): set<RequestId> {
    set r | r in open && open[r] == name
  }

  ghost function Outstanding(open: map<RequestId, string>, name: string): nat {
    |Sent(open, name)|
  }

  ghost function Step(s: State, e: Event): State {
    match e
    case Begin(r, name) =>
      if r in s.open then s
      else s.(inflight := s.inflight[name := Count(s.inflight, name) + 1], open := s.open[r := name])
    case Finish(r) =>
      if r !in s.open then s
      else
        var name, open := s.open[r], s.open - {r};
        s.(inflight := s.inflight[name := Adjusted(Count(s.inflight, name), -1)], open := open,
           lost := if Outstanding(open, name) == 0 then s.lost - {name} else s.lost)
    case Peek(name) => s.(inflight := s.inflight[name := Count(s.inflight, name)])
    case Touch(name, at) => s.(active := s.active[name := at])
    case Put(p) => s.(pods := s.pods[p.key := p])
    case Drop(key) =>
      if key !in s.pods then s
      else
        var name := s.pods[key].name;
        s.(pods := s.pods - {key}, active := s.active - {name}, inflight := s.inflight - {name},
           lost := if Outstanding(s.open, name) == 0 then s.lost else s.lost + {name})
  }

  ghost function Run(s: State, events: seq<Event>): State {
    if events == [] then s else Step(Run(s, events[..|events| - 1]), events[|events| - 1])
  }

  /** The event concerns requests only, not which pods there are. */
  predicate OfRequests(e: Event) {
    !e.Put? && !e.Drop?
  }

  lemma {:induction false} RequestsLeavePods(s: State, events: seq<Event>)
    requires forall i :: 0 <= i < |events| ==> OfRequests(events[i])
    ensures Run(s, events).pods == s.pods
  {
    if events != [] {
      RequestsLeavePods(s, events[..|events| - 1]);
      assert OfRequests(events[|events| - 1]);
    }
  }

  /** The counter never overcounts, and it is exact for just the names that are not lost. */
  ghost predicate Exact(s: State, name: string) {
    && Count(s.inflight, name) <= Outstanding(s.open, name)
    && (Count(s.inflight, name) == Outstanding(s.open, name) <==> name !in s.lost)
  }

  ghost predicate Inv(s: State) {
    Keyed(s.pods) && forall name :: Exact(s, name)
  }

  lemma OneMoreSent(open: map<RequestId, string>, r: RequestId, name: string, other: string)
    requires r !in open
    ensures Outstanding(open[r := name], other) == Outstanding(open, other) + if other == name then 1 else 0
  {
    assert Sent(open[r := name], other) == if other == name then Sent(open, other) + {r} else Sent(open, other);
  }

  lemma OneLessSent(open: map<RequestId, string>, r: RequestId, other: string)
    requires r in open
    ensures Outstanding(open - {r}, other) == Outstanding(open, other) - if other == open[r] then 1 else 0
  {
    OneMoreSent(open - {r}, r, open[r], other);
    assert (open - {r})[r := open[r]] == open;
  }

  lemma StepKeeps(s: State, e: Event)
    requires Inv(s)
    ensures Inv(Step(s, e))
  {
    forall name ensures Exact(Step(s, e), name) {
      assert Exact(s, name);
      match e
      case Begin(r, n) => if r !in s.open { OneMoreSent(s.open, r, n, name); }
      case Finish(r) => if r in s.open { OneLessSent(s.open, r, name); }
      case Peek(_) =>
      case Touch(_, _) =>
      case Put(_) =>
      case Drop(_) =>
    }
  }

  /**
    Over every run from an empty table the counter of a name never exceeds its outstanding
    requests. It equals them unless the pod was dropped under one of them and the
    name has had requests ever since, and it is exact again once none remain.
   */
  lemma {:induction false} CounterTracksRequests(events: seq<Event>, name: string)
    ensures Inv(Run(EMPTY, events))
    ensures var s := Run(EMPTY, events);
            && Count(s.inflight, name) <= Outstanding(s.open, name)
            && (Count(s.inflight, name) == Outstanding(s.open, name) <==> name !in s.lost)
            && (Outstanding(s.open, name) == 0 ==> Count(s.inflight, name) == 0 && name !in s.lost)
  {
    if events == [] {
      forall n ensures Sent(EMPTY.open, n) == {} {}
    } else {
      CounterTracksRequests(events[..|events| - 1], name);
      StepKeeps(Run(EMPTY, events[..|events| - 1]), events[|events| - 1]);
    }
    assert Exact(Run(EMPTY, events), name);
  }

  /** No pod is dropped under an outstanding request. */
  ghost predicate Undisturbed(events: seq<Event>) {
    events == [] ||
    var front, e := events[..|events| - 1], events[|events| - 1];
    var s := Run(EMPTY, front);
    Undisturbed(front) && (e.Drop? && e.key in s.pods ==> Outstanding(s.open, s.pods[e.key].name) == 0)
  }

  lemma {:induction false} NothingIsLost(events: seq<Event>)
    requires Undisturbed(events)
    ensures Run(EMPTY, events).lost == {}
  {
    if events != [] {
      NothingIsLost(events[..|events| - 1]);
    }
  }

  /** Then the counter is exact throughout. */
  lemma UndisturbedIsExact(events: seq<Event>, name: string)
    requires Undisturbed(events)
    ensures Count(Run(EMPTY, events).inflight, name) == Outstanding(Run(EMPTY, events).open, name)
  {
    NothingIsLost(events);
    CounterTracksRequests(events, name);
  }

  /** The table in use, together with the request handlers that are running. */
  class Traffic {
    const table: Memory
    var open: map<RequestId, string>
    ghost var lost: set<string>

    ghost function Now(): State
      reads this, table
    {
      State(table.pods, table.active, table.inflight, open, lost)
    }

    ghost predicate Valid()
      reads this, table
    {
      Inv(Now())
    }

    constructor ()
      ensures Valid() && fresh(table) && Now() == EMPTY
    {
      table := new Memory();
      open, lost := map[], {};
      new;
      CounterTracksRequests([], "");
    }

    method BeginRequest(r: RequestId, name: string)
      requires Valid() && r !in open
      modifies this`open, table`inflight
      ensures Valid() && Now() == Step(old(Now()), Begin(r, name))
    {
      StepKeeps(Now(), Begin(r, name));
      var _ := table.InFlight(name, 1);
      open := open[r := name];
    }

    method FinishRequest(r: RequestId)
      requires Valid() && r in open
      modifies this, table`inflight
      ensures Valid() && Now() == Step(old(Now()), Finish(r))
    {
      StepKeeps(Now(), Finish(r));
      lost := Step(Now(), Finish(r)).lost;
      var _ := table.InFlight(open[r], -1);
      open := open - {r};
    }

    method PeekCount(name: string) returns (n: nat)
      requires Valid()
      modifies table`inflight
      ensures Valid() && Now() == Step(old(Now()), Peek(name)) && n == Count(old(table.inflight), name)
    {
      StepKeeps(Now(), Peek(name));
      n := table.InFlight(name, 0);
    }

    method DropPod(key: PodKey)
      requires Valid()
      modifies this`lost, table`pods, table`active, table`inflight
      ensures Valid() && Now() == Step(old(Now()), Drop(key))
    {
      StepKeeps(Now(), Drop(key));
      lost := Step(Now(), Drop(key)).lost;
      assert key !in table.pods ==> table.pods - {key} == table.pods;
      table.DeletePod(key);
    }

    /** One event of the surrounding traffic; events about requests that do not exist are ignored. */
    method Apply(e: Event)
      requires Valid()
      modifies this, table`pods, table`active, table`inflight
      ensures Valid() && Now() == Step(old(Now()), e)
    {
      match e
      case Begin(r, name) => if r !in open { BeginRequest(r, name); }
      case Finish(r) => if r in open { FinishRequest(r); }
      case Peek(name) => var _ := PeekCount(name);
      case Touch(name, at) =>
        StepKeeps(Now(), e);
        table.Touch(name, at);
      case Put(p) =>
        StepKeeps(Now(), e);
        table.PutPod(p);
      case Drop(key) => DropPod(key);
    }

    method ApplyAll(events: seq<Event>)
      requires Valid()
      modifies this, table`pods, table`active, table`inflight
      ensures Valid() && Now() == Run(old(Now()), events)
    {
      for i := 0 to |events|
        invariant Valid() && Now() == Run(old(Now()), events[..i])
      {
        assert events[..i + 1][..i] == events[..i];
        Apply(events[i]);
      }
      assert events[..|events|] == events;
    }
  }
}
