/** The reaper on the table it shares with the gateways: the in-flight counters in Redis. */
module RedisReaper {
  import opened Common
  import opened Routing
  import opened Reaper
  import opened RedisTraffic

  /** The counters by pod name. */
  type Meters = map<string, State>

  /**
    What the gateways do to a session's counter around its visit: before it, between the read and
    its renewal, until the termination, and what the table says of its last use.
   */
  datatype Around = Around(before: seq<Event>, between: seq<Event>, amid: seq<Event>, last: Option<Time>, updated: bool)

  /** A visit: the state of the counter when it was read, and the verdict. */
  datatype Judged = Judged(at: State, verdict: Verdict)

  ghost predicate Rightly(s: Session, types: map<string, ServerType>, now: Time, last: Option<Time>, j: Judged) {
    Inv(j.at) && (j.verdict.Terminate? <==> Condemned(s, types, j.at.counter.Value(), last, now))
  }

  /**
    A running session of an existing type with an outstanding request is not terminated up to
    `maxAge + HARD_GRACE`, unless its counter was zeroed under an outstanding request.
   */
  lemma InUseIsNotReaped(s: Session, types: map<string, ServerType>, now: Time, last: Option<Time>, j: Judged)
    requires Rightly(s, types, now, last, j)
    requires Running(s) && s.key.serverType in types
    requires now - s.created <= types[s.key.serverType].maxAge + HARD_GRACE
    requires j.at.open != {} && !j.at.lost
    ensures !j.verdict.Terminate?
  {
  }

  /** It is spared by a second sweep too, whatever the first one made of it short of terminating it. */
  lemma SparedAgain(s: Session, v: Verdict, updated: bool, after: Session, types: map<string, ServerType>, now: Time,
                    last: Option<Time>, j: Judged)
    requires Treated(s, v, updated, after) && !v.Terminate? && Rightly(after, types, now, last, j)
    requires Running(s) && s.key.serverType in types
    requires now - s.created <= types[s.key.serverType].maxAge + HARD_GRACE
    requires j.at.open != {} && !j.at.lost
    ensures !j.verdict.Terminate? && Running(after)
  {
    InUseIsNotReaped(after, types, now, last, j);
  }

  /**
    Over whole runs: if under its requests the name is not deleted and its counter is renewed
    within every hour, by requests or by sweeps, a session in use is not terminated.
   */
  lemma TendedIsNotReaped(s: Session, types: map<string, ServerType>, now: Time, last: Option<Time>, start: Time,
                          events: seq<Event>, v: Verdict)
    requires AllTended(Start(start), events)
    requires Rightly(s, types, now, last, Judged(Run(Start(start), events), v))
    requires Running(s) && s.key.serverType in types
    requires now - s.created <= types[s.key.serverType].maxAge + HARD_GRACE
    requires Run(Start(start), events).open != {}
    ensures !v.Terminate?
  {
    TendedIsExact(start, events);
    InUseIsNotReaped(s, types, now, last, Judged(Run(Start(start), events), v));
  }

  /** With a late clamp it is: a run after which a session with an outstanding request is terminated. */
  lemma LateClampIsReaped(start: Time) returns (events: seq<Event>, s: Session, types: map<string, ServerType>, now: Time)
    ensures var at := Run(Start(start), events);
            && Running(s) && s.key.serverType in types
            && now - s.created <= types[s.key.serverType].maxAge + HARD_GRACE
            && at.open != {}
            && Condemned(s, types, at.counter.Value(), None, now)
  {
    events := LateClampLosesARequest(start);
    var key := PodKey("alice", "github");
    s := Session("github-0a1b2c3d", key, Ready, false, Ready, 0, Some(0));
    types, now := map["github" := ServerType(1000, 10)], 100;
  }

  /** After a crash it is not, although nothing is outstanding, however often it is swept. */
  lemma CrashedIsNotReaped(s: Session, types: map<string, ServerType>, now: Time, last: Option<Time>, start: Time,
                           events: seq<Event>, v: Verdict)
    requires OnlyRead(Run(Start(start), [Begin(0)] + [Crash(0)]), events)
    requires Rightly(s, types, now, last, Judged(Run(Run(Start(start), [Begin(0)] + [Crash(0)]), events), v))
    requires Running(s) && s.key.serverType in types
    requires now - s.created <= types[s.key.serverType].maxAge + HARD_GRACE
    ensures Run(Run(Start(start), [Begin(0)] + [Crash(0)]), events).open == {} && !v.Terminate?
  {
    CrashedRequestPins(start, events);
  }

  function Meter(meters: Meters, name: string, now: Time): State {
    if name in meters then meters[name] else Start(now)
  }

  ghost predicate AllInv(meters: Meters) {
    forall name :: name in meters ==> Inv(meters[name])
  }

  /** What a visit leaves of the counter. */
  function Visited(at: State, asked: bool, around: Around, terminated: bool): State {
    var read := if asked && at.counter.Stored? then Step(Run(at, around.between), Refresh) else at;
    if terminated then Step(Run(read, around.amid), Delete) else read
  }

  /** A termination leaves no counter; any other visit leaves the number, and a session it asked for an hour from then. */
  lemma VisitMeans(at: State, asked: bool, around: Around)
    ensures Visited(at, asked, around, true).counter == Missing
    ensures around.between == [] ==>
              var t := Visited(at, asked, around, false);
              && t.counter.Value() == at.counter.Value() && t.open == at.open
              && (asked && at.counter.Stored? ==> t.counter.expires == Some(at.clock + 3600000))
              && (!asked || at.counter.Missing? ==> t == at)
  {
  }

  lemma VisitKeeps(at: State, asked: bool, around: Around, terminated: bool)
    requires Inv(at)
    ensures Inv(Visited(at, asked, around, terminated))
  {
    RunKeeps(at, around.between);
    StepKeeps(Run(at, around.between), Refresh);
    var read := if asked && at.counter.Stored? then Step(Run(at, around.between), Refresh) else at;
    RunKeeps(read, around.amid);
    StepKeeps(Run(read, around.amid), Delete);
  }

  /** The counters after the visits that led to these judgements. */
  ghost function MetersAfter(meters: Meters, sessions: seq<Session>, types: map<string, ServerType>, now: Time,
                             around: seq<Around>, judged: seq<Judged>): Meters
    requires |judged| <= |sessions| == |around|
  {
    if judged == [] then meters
    else
      var n := |judged| - 1;
      var before, s := MetersAfter(meters, sessions, types, now, around, judged[..n]), sessions[n];
      before[s.name := Visited(judged[n].at, Asks(s, types), around[n],
                               judged[n].verdict.Terminate? && around[n].updated)]
  }

  /** Each session was judged on its counter as the earlier visits and the gateways had left it. */
  ghost predicate Traced(meters: Meters, sessions: seq<Session>, types: map<string, ServerType>, now: Time,
                         around: seq<Around>, judged: seq<Judged>)
    requires |judged| <= |sessions| == |around|
  {
    forall i :: 0 <= i < |judged| ==>
      judged[i].at ==
      Run(Meter(MetersAfter(meters, sessions, types, now, around, judged[..i]), sessions[i].name, now), around[i].before)
  }

  lemma TracedNext(meters: Meters, sessions: seq<Session>, types: map<string, ServerType>, now: Time,
                   around: seq<Around>, judged: seq<Judged>, j: Judged)
    requires |judged| < |sessions| == |around| && Traced(meters, sessions, types, now, around, judged)
    requires j.at == Run(Meter(MetersAfter(meters, sessions, types, now, around, judged), sessions[|judged|].name, now),
                         around[|judged|].before)
    ensures Traced(meters, sessions, types, now, around, judged + [j])
  {
    forall i | 0 <= i < |judged| + 1 ensures (judged + [j])[..i] == if i < |judged| then judged[..i] else judged {}
  }

  /** The first sessions have been judged rightly and treated accordingly. */
  ghost predicate Swept(sessions: seq<Session>, types: map<string, ServerType>, now: Time, around: seq<Around>,
                        judged: seq<Judged>, after: seq<Session>)
  {
    && |after| == |judged| <= |sessions| == |around|
    && forall i :: 0 <= i < |judged| ==>
         && Rightly(sessions[i], types, now, around[i].last, judged[i])
         && Treated(sessions[i], judged[i].verdict, around[i].updated, after[i])
  }

  /** All that holds after the first visits. */
  ghost predicate Done(meters: Meters, sessions: seq<Session>, types: map<string, ServerType>, now: Time,
                       around: seq<Around>, judged: seq<Judged>, after: seq<Session>, left: Meters)
  {
    && AllInv(left)
    && Swept(sessions, types, now, around, judged, after)
    && Traced(meters, sessions, types, now, around, judged)
    && left == MetersAfter(meters, sessions, types, now, around, judged)
  }

  lemma SweptNext(sessions: seq<Session>, types: map<string, ServerType>, now: Time, around: seq<Around>,
                  judged: seq<Judged>, after: seq<Session>, j: Judged, next: Session)
    requires Swept(sessions, types, now, around, judged, after) && |judged| < |sessions|
    requires Rightly(sessions[|judged|], types, now, around[|judged|].last, j)
    requires Treated(sessions[|judged|], j.verdict, around[|judged|].updated, next)
    ensures Swept(sessions, types, now, around, judged + [j], after + [next])
  {
  }

  lemma MetersNext(meters: Meters, sessions: seq<Session>, types: map<string, ServerType>, now: Time,
                   around: seq<Around>, judged: seq<Judged>, j: Judged)
    requires |judged| < |sessions| == |around| && Inv(j.at)
    requires AllInv(MetersAfter(meters, sessions, types, now, around, judged))
    ensures var n := |judged|;
            var left := MetersAfter(meters, sessions, types, now, around, judged)
                          [sessions[n].name := Visited(j.at, Asks(sessions[n], types), around[n],
                                                       j.verdict.Terminate? && around[n].updated)];
            AllInv(left) && left == MetersAfter(meters, sessions, types, now, around, judged + [j])
  {
    var n := |judged|;
    var state := Visited(j.at, Asks(sessions[n], types), around[n], j.verdict.Terminate? && around[n].updated);
    VisitKeeps(j.at, Asks(sessions[n], types), around[n], j.verdict.Terminate? && around[n].updated);
    OneMeter(MetersAfter(meters, sessions, types, now, around, judged), sessions[n].name, state);
    assert (judged + [j])[..n] == judged;
  }

  lemma OneMeter(meters: Meters, name: string, s: State)
    requires AllInv(meters) && Inv(s)
    ensures AllInv(meters[name := s])
  {
  }

  /** The visit of one session. */
  method Visit(left: Meters, s: Session, types: map<string, ServerType>, now: Time, around: Around)
    returns (meters: Meters, v: Verdict)
    requires AllInv(left)
    ensures var at := Run(Meter(left, s.name, now), around.before);
            && Rightly(s, types, now, around.last, Judged(at, v))
            && meters == left[s.name := Visited(at, Asks(s, types), around, v.Terminate? && around.updated)]
  {
    RunKeeps(Meter(left, s.name, now), around.before);
    var at := Run(Meter(left, s.name, now), around.before);
    v := Decide(s, types, now, at.counter.Value(), around.last);
    meters := left[s.name := Visited(at, Asks(s, types), around, v.Terminate? && around.updated)];
  }

  /** One sweep, with commands of the gateways between and during the visits. */
  method Sweep(meters: Meters, sessions: seq<Session>, types: map<string, ServerType>, now: Time, around: seq<Around>)
    returns (left: Meters, after: seq<Session>, ghost judged: seq<Judged>)
    requires AllInv(meters) && |sessions| == |around|
    ensures |judged| == |sessions| && Done(meters, sessions, types, now, around, judged, after, left)
  {
    left, after, judged := meters, [], [];
    for i := 0 to |sessions|
      invariant |judged| == i && Done(meters, sessions, types, now, around, judged, after, left)
    {
      ghost var j := Judged(Run(Meter(left, sessions[i].name, now), around[i].before), Keep);
      var v;
      left, v := Visit(left, sessions[i], types, now, around[i]);
      j := j.(verdict := v);
      var next := Write(sessions[i], v, around[i].updated);
      SweptNext(sessions, types, now, around, judged, after, j, next);
      TracedNext(meters, sessions, types, now, around, judged, j);
      MetersNext(meters, sessions, types, now, around, judged, j);
      judged := judged + [j];
      after := after + [next];
    }
  }
}
