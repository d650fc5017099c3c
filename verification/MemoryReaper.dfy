/**
  The reaper on an in-process table that it shares with the request handlers. The controller
  never shares such a table with a gateway; `RedisReaper` has the table it does share.
 */
module MemoryReaper {
  import opened Common
  import opened Routing
  import opened MemoryTable
  import opened Traffic
  import opened Manager
  import opened Handlers
  import opened Reaper

  /**
    What the world does around the visit of one session: before it, between its two reads
    of the table, between its verdict and its termination, between the two steps of that, and
    to the update.
   */
  datatype Around = Around(before: seq<Event>, between: seq<Event>, amid: seq<Event>, during: seq<Event>, updated: bool)
  {
    /** No pod comes or goes meanwhile. */
    ghost predicate OnlyRequests() {
      forall e :: e in before + between + amid + during ==> OfRequests(e)
    }
  }

  function LastIn(s: Session, at: State): Option<Time> {
    if s.name in at.active then Some(at.active[s.name]) else None
  }

  /** A visit: the state at its reading of the counter, the one at its reading of the last use, and its verdict. */
  datatype Judged = Judged(at: State, later: State, verdict: Verdict)

  ghost predicate Rightly(s: Session, types: map<string, ServerType>, now: Time, j: Judged) {
    && Inv(j.at) && Inv(j.later)
    && (j.verdict.Terminate? <==> Condemned(s, types, Count(j.at.inflight, s.name), LastIn(s, j.later), now))
  }

  /**
    A running session of an existing type with an outstanding request is not
    terminated up to `maxAge + HARD_GRACE`, unless the counter of its name is lost.
   */
  lemma InUseIsNotReaped(s: Session, types: map<string, ServerType>, now: Time, j: Judged)
    requires Rightly(s, types, now, j)
    requires Running(s) && s.key.serverType in types
    requires now - s.created <= types[s.key.serverType].maxAge + HARD_GRACE
    requires Outstanding(j.at.open, s.name) > 0 && s.name !in j.at.lost
    ensures !j.verdict.Terminate?
  {
    assert Exact(j.at, s.name);
  }

  /** What asking the table for a session leaves of it, with traffic between the two reads. */
  ghost function Asked(at: State, s: Session, types: map<string, ServerType>, between: seq<Event>): State {
    if Asks(s, types) then Run(Step(at, Peek(s.name)), between) else at
  }

  /** Reads the counter and then, with traffic in between, the last use, and decides. */
  method Judge(s: Session, types: map<string, ServerType>, now: Time, between: seq<Event>, traffic: Traffic)
    returns (v: Verdict, ghost later: State)
    requires traffic.Valid()
    modifies traffic, traffic.table`pods, traffic.table`active, traffic.table`inflight
    ensures traffic.Valid()
    ensures Rightly(s, types, now, Judged(old(traffic.Now()), later, v))
    ensures traffic.Now() == Asked(old(traffic.Now()), s, types, between)
  {
    later := traffic.Now();
    if !Asks(s, types) {
      v := Decide(s, types, now, 0, None);
      assert Condemned(s, types, 0, None, now) <==>
             Condemned(s, types, Count(later.inflight, s.name), LastIn(s, later), now);
      return;
    }
    var inflight := traffic.PeekCount(s.name);
    traffic.ApplyAll(between);
    later := traffic.Now();
    var last := traffic.table.LastActive(s.name);
    v := Decide(s, types, now, inflight, last);
  }

  /** The table's client sessions are bound to their pods, in the terms of `Handlers`. */
  datatype Binding = Binding(hash: Hash, incarnation: map<PodKey, nat>, born: map<string, nat>)
  {
    ghost predicate Holds(pods: Pods, sessions: Sessions) {
      Bound(hash, pods, sessions, incarnation, born)
    }

    ghost predicate Fits(sessions: seq<Session>) {
      forall i :: 0 <= i < |sessions| ==> sessions[i].name == PodName(hash, sessions[i].key)
    }
  }

  /** What termination leaves in the table keeps every remaining client session bound to its pod. */
  lemma ReapKeepsBound(b: Binding, s: Session, pods: Pods, sessions: Sessions)
    requires s.name == PodName(b.hash, s.key) && b.Holds(pods, sessions)
    ensures b.Holds(pods - {s.key}, Apart(sessions, {s.name}))
  {
    PurgeKeepsBound(b.hash, pods, {s.key}, sessions, b.incarnation, b.born);
    assert Names(b.hash, {s.key}) == {s.name};
  }

  /**
    Asks for termination and, if that was recorded, forgets the client sessions and then, with
    traffic going on, the pod.
   */
  method Reap(s: Session, updated: bool, during: seq<Event>, traffic: Traffic)
    requires traffic.Valid()
    modifies traffic, traffic.table
    ensures traffic.Valid()
    ensures updated ==>
              && traffic.Now() == Step(Run(old(traffic.Now()), during), Drop(s.key))
              && traffic.table.pods == Run(old(traffic.Now()), during).pods - {s.key}
              && traffic.table.sessions == Apart(old(traffic.table.sessions), {s.name})
    ensures !updated ==>
              traffic.Now() == old(traffic.Now()) && traffic.table.sessions == old(traffic.table.sessions)
  {
    if !updated {
      return;
    }
    traffic.table.DeleteSessionsForPod(s.name);
    traffic.ApplyAll(during);
    assert s.key !in traffic.table.pods ==> traffic.table.pods - {s.key} == traffic.table.pods;
    traffic.DropPod(s.key);
  }

  /** The visit of one session: its verdict and, if need be, its termination. */
  method Visit(s: Session, types: map<string, ServerType>, now: Time, around: Around, traffic: Traffic, ghost b: Binding)
    returns (v: Verdict, ghost j: Judged)
    requires traffic.Valid()
    modifies traffic, traffic.table
    ensures traffic.Valid() && Rightly(s, types, now, j) && v == j.verdict
    ensures j.at == Run(old(traffic.Now()), around.before)
    ensures var asked := Asked(j.at, s, types, around.between);
            traffic.Now() == if !v.Terminate? then asked
                             else if !around.updated then Run(asked, around.amid)
                             else Step(Run(Run(asked, around.amid), around.during), Drop(s.key))
    ensures traffic.table.sessions ==
            if v.Terminate? && around.updated then Apart(old(traffic.table.sessions), {s.name})
            else old(traffic.table.sessions)
    ensures (&& around.OnlyRequests() && s.name == PodName(b.hash, s.key)
             && old(b.Holds(traffic.table.pods, traffic.table.sessions)))
            ==> b.Holds(traffic.table.pods, traffic.table.sessions)
  {
    ghost var pods, sessions := traffic.table.pods, traffic.table.sessions;
    PodsStay(traffic.Now(), around.before, around);
    traffic.ApplyAll(around.before);
    ghost var at, later := traffic.Now(), traffic.Now();
    PodsStay(Step(at, Peek(s.name)), around.between, around);
    v, later := Judge(s, types, now, around.between, traffic);
    j := Judged(at, later, v);
    if v.Terminate? {
      PodsStay(traffic.Now(), around.amid, around);
      traffic.ApplyAll(around.amid);
      PodsStay(traffic.Now(), around.during, around);
      Reap(s, around.updated, around.during, traffic);
      if s.name == PodName(b.hash, s.key) && b.Holds(pods, sessions) {
        ReapKeepsBound(b, s, pods, sessions);
      }
    }
  }

  lemma PodsStay(s: State, events: seq<Event>, around: Around)
    requires events in [around.before, around.between, around.amid, around.during]
    ensures around.OnlyRequests() ==> Run(s, events).pods == s.pods
  {
    if around.OnlyRequests() {
      forall i | 0 <= i < |events| ensures OfRequests(events[i]) {
        assert events[i] in around.before + around.between + around.amid + around.during;
      }
      RequestsLeavePods(s, events);
    }
  }

  /** Names of the sessions that have been terminated by a sweep. */
  ghost function Reaped(sessions: seq<Session>, judged: seq<Judged>, around: seq<Around>): set<string>
    requires |judged| <= |sessions| && |sessions| == |around|
  {
    set i | 0 <= i < |judged| && judged[i].verdict.Terminate? && around[i].updated :: sessions[i].name
  }

  lemma ReapedNext(sessions: seq<Session>, judged: seq<Judged>, around: seq<Around>, j: Judged)
    requires |judged| < |sessions| && |sessions| == |around|
    ensures var i := |judged|;
            Reaped(sessions, judged + [j], around) ==
            if j.verdict.Terminate? && around[i].updated then Reaped(sessions, judged, around) + {sessions[i].name}
            else Reaped(sessions, judged, around)
  {
  }

  /** The first sessions have been judged rightly and treated accordingly. */
  ghost predicate Swept(sessions: seq<Session>, types: map<string, ServerType>, now: Time, around: seq<Around>,
                        judged: seq<Judged>, after: seq<Session>)
  {
    && |after| == |judged| <= |sessions| == |around|
    && forall i :: 0 <= i < |judged| ==>
         && Rightly(sessions[i], types, now, judged[i])
         && Treated(sessions[i], judged[i].verdict, around[i].updated, after[i])
  }

  lemma SweptNext(sessions: seq<Session>, types: map<string, ServerType>, now: Time, around: seq<Around>,
                  judged: seq<Judged>, after: seq<Session>, j: Judged, next: Session)
    requires Swept(sessions, types, now, around, judged, after) && |judged| < |sessions|
    requires Rightly(sessions[|judged|], types, now, j)
    requires Treated(sessions[|judged|], j.verdict, around[|judged|].updated, next)
    ensures Swept(sessions, types, now, around, judged + [j], after + [next])
  {
  }

  /** A session in use is spared by a second sweep too, whatever the first one made of it short of terminating it. */
  lemma SparedAgain(s: Session, v: Verdict, updated: bool, after: Session, types: map<string, ServerType>, now: Time,
                    j: Judged)
    requires Treated(s, v, updated, after) && !v.Terminate? && Rightly(after, types, now, j)
    requires Running(s) && s.key.serverType in types
    requires now - s.created <= types[s.key.serverType].maxAge + HARD_GRACE
    requires Outstanding(j.at.open, s.name) > 0 && s.name !in j.at.lost
    ensures !j.verdict.Terminate? && Running(after)
  {
    InUseIsNotReaped(after, types, now, j);
  }

  /**
    One sweep, with traffic running between and during the visits. If no pod comes or goes
    otherwise, the client sessions that remain stay bound to their pods.
   */
  method Sweep(sessions: seq<Session>, types: map<string, ServerType>, now: Time, around: seq<Around>,
               traffic: Traffic, ghost b: Binding) returns (after: seq<Session>, ghost judged: seq<Judged>)
    requires traffic.Valid() && |sessions| == |around|
    modifies traffic, traffic.table
    ensures traffic.Valid()
    ensures |judged| == |sessions| && Swept(sessions, types, now, around, judged, after)
    ensures traffic.table.sessions == Apart(old(traffic.table.sessions), Reaped(sessions, judged, around))
    ensures (&& (forall i :: 0 <= i < |around| ==> around[i].OnlyRequests())
             && b.Fits(sessions) && old(b.Holds(traffic.table.pods, traffic.table.sessions)))
            ==> b.Holds(traffic.table.pods, traffic.table.sessions)
  {
    ghost var calm := && (forall i :: 0 <= i < |around| ==> around[i].OnlyRequests()) && b.Fits(sessions)
                      && b.Holds(traffic.table.pods, traffic.table.sessions);
    after, judged := [], [];
    ApartTwice(traffic.table.sessions, {}, {});
    for i := 0 to |sessions|
      invariant traffic.Valid()
      invariant |judged| == i && Swept(sessions, types, now, around, judged, after)
      invariant traffic.table.sessions == Apart(old(traffic.table.sessions), Reaped(sessions, judged, around))
      invariant calm ==> b.Holds(traffic.table.pods, traffic.table.sessions)
    {
      ghost var reaped := Reaped(sessions, judged, around);
      ApartTwice(old(traffic.table.sessions), reaped, {sessions[i].name});
      ghost var j;
      var v;
      v, j := Visit(sessions[i], types, now, around[i], traffic, b);
      ReapedNext(sessions, judged, around, j);
      var next := Write(sessions[i], v, around[i].updated);
      SweptNext(sessions, types, now, around, judged, after, j, next);
      judged := judged + [j];
      after := after + [next];
    }
  }

  /**
    A request that outlives its pod is not protected under the next incarnation: its
    pod was released under it, so the counter restarts from zero.
   */
  lemma LostRequestIsNotProtected()
    ensures exists events: seq<Event>, s: Session, types: map<string, ServerType>, now: Time ::
              var at := Run(EMPTY, events);
              && Running(s) && s.key.serverType in types
              && now - s.created <= types[s.key.serverType].maxAge + HARD_GRACE
              && Outstanding(at.open, s.name) > 0
              && Condemned(s, types, Count(at.inflight, s.name), LastIn(s, at), now)
  {
    var key := PodKey("alice", "github");
    var pod := Pod(key, "github-0a1b2c3d", "", Ready, 0, "", "token");
    var events := [Put(pod), Begin(0, pod.name), Drop(key), Put(pod)];
    var s := Session(pod.name, key, Ready, false, Ready, 0, Some(0));
    var types := map["github" := ServerType(1000, 10)];
    assert events[..3][..2] == events[..2] && events[..2][..1] == events[..1] && events[..1][..0] == [];
    var first := Step(EMPTY, events[0]);
    assert Run(EMPTY, events[..1]) == first;
    var second := Step(first, events[1]);
    assert Run(EMPTY, events[..2]) == second;
    var third := Step(second, events[2]);
    assert Run(EMPTY, events[..3]) == third;
    var at := Step(third, events[3]);
    assert Run(EMPTY, events) == at;
    assert 0 in Sent(at.open, s.name);
    assert Condemned(s, types, Count(at.inflight, s.name), LastIn(s, at), 100);
  }
}
