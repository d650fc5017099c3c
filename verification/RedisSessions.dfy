/**
  The session half of the Redis routing table: one record per client session
  and one index set per pod, both with a time to live that every put renews.
  Records are keyed here by session id and index sets by pod name. The full Redis
  keys determine them as long as no id begins with `by-pod:`
  (`RedisKeys.SameTextExactlyIf`), and issued ids begin with `jg_`; looking up an
  id that does finds a set, which is an error, and so no session.
 */
module RedisSessions {
  import opened Common
  import opened Routing

  datatype Record = Record(session: McpSession, expires: Time)

  datatype Index = Index(ids: set<string>, expires: Time)

  type Records = map<string, Record>
  type Indexes = map<string, Index>

  /** The sessions a reader finds at a time. */
  function Live(records: Records, now: Time): map<string, McpSession> {
    map id | id in records && now < records[id].expires :: records[id].session
  }

  /** The members a reader finds in a pod's index at a time. */
  function IndexAt(indexes: Indexes, pod: string, now: Time): set<string> {
    if pod in indexes && now < indexes[pod].expires then indexes[pod].ids else {}
  }

  /** Every unexpired session is in its pod's index, and the index expires no earlier. */
  ghost predicate Covered(records: Records, indexes: Indexes, now: Time) {
    forall id :: id in records && now < records[id].expires ==>
      var pod := records[id].session.podName;
      pod in indexes && id in indexes[pod].ids && records[id].expires <= indexes[pod].expires
  }

  /** No record outlives what a put at this time would give it. */
  ghost predicate Bounded(records: Records, latest: Time) {
    forall id :: id in records ==> records[id].session.id == id && records[id].expires <= latest
  }

  /** Each id belongs to one pod: its record says so and no other pod's index has it. */
  ghost predicate Homed(records: Records, indexes: Indexes, home: map<string, string>) {
    && (forall id :: id in records ==> id in home && home[id] == records[id].session.podName)
    && (forall pod, id :: pod in indexes && id in indexes[pod].ids ==> id in home && home[id] == pod)
  }

  /** Time alone never uncovers a session. */
  lemma CoveredLater(records: Records, indexes: Indexes, since: Time, now: Time)
    requires Covered(records, indexes, since) && since <= now
    ensures Covered(records, indexes, now)
    ensures forall id :: id in Live(records, now) ==> id in IndexAt(indexes, Live(records, now)[id].podName, now)
  {
  }

  /** The set as `PutSession` leaves it. */
  function IndexesPut(indexes: Indexes, s: McpSession, now: Time, expires: Time): Indexes {
    indexes[s.podName := Index(IndexAt(indexes, s.podName, now) + {s.id}, expires)]
  }

  /** The sets as `DeleteSession` leaves them; an emptied set disappears. */
  function IndexesDropped(indexes: Indexes, pod: string, id: string, now: Time): Indexes {
    var rest := IndexAt(indexes, pod, now) - {id};
    if rest == {} then indexes - {pod} else indexes[pod := Index(rest, indexes[pod].expires)]
  }

  lemma PutCovers(records: Records, indexes: Indexes, s: McpSession, now: Time, expires: Time)
    requires Covered(records, indexes, now) && Bounded(records, expires) && now < expires
    ensures Covered(records[s.id := Record(s, expires)], IndexesPut(indexes, s, now, expires), now)
  {
  }

  lemma PutHomes(records: Records, indexes: Indexes, s: McpSession, now: Time, expires: Time, home: map<string, string>)
    requires Homed(records, indexes, home) && (s.id in home ==> home[s.id] == s.podName)
    ensures Homed(records[s.id := Record(s, expires)], IndexesPut(indexes, s, now, expires), home[s.id := s.podName])
  {
  }

  lemma PutLives(records: Records, s: McpSession, now: Time, expires: Time)
    requires now < expires
    ensures Live(records[s.id := Record(s, expires)], now) == Live(records, now)[s.id := s]
  {
  }

  lemma DropCovers(records: Records, indexes: Indexes, id: string, now: Time)
    requires Covered(records, indexes, now) && id in records && now < records[id].expires
    ensures Covered(records - {id}, IndexesDropped(indexes, records[id].session.podName, id, now), now)
  {
    var pod := records[id].session.podName;
    assert now < indexes[pod].expires;
    forall other | other in records - {id} && now < records[other].expires && records[other].session.podName == pod
      ensures other in IndexAt(indexes, pod, now) - {id}
    {
    }
  }

  lemma DropHomes(records: Records, indexes: Indexes, pod: string, id: string, now: Time, home: map<string, string>)
    requires Homed(records, indexes, home)
    ensures Homed(records - {id}, IndexesDropped(indexes, pod, id, now), home)
  {
  }

  /**
    The stored records and index sets, with what the code does not keep: the
    time of the latest operation, the pod each id was last put under, and
    whether no id was ever put under a second pod.
   */
  datatype Keyspace = Keyspace(records: Records, indexes: Indexes, clock: Time, home: map<string, string>,
                               faithful: bool)
  {
    /** What holds between operations. */
    ghost predicate Sound(maxAge: nat) {
      && maxAge > 0
      && Covered(records, indexes, clock)
      && Bounded(records, clock + maxAge)
      && (faithful ==> Homed(records, indexes, home))
    }

    function Put(s: McpSession, now: Time, maxAge: nat): Keyspace {
      Keyspace(records[s.id := Record(s, now + maxAge)], IndexesPut(indexes, s, now, now + maxAge), now,
               home[s.id := s.podName], faithful && (s.id in home ==> home[s.id] == s.podName))
    }

    function Drop(id: string, now: Time): Keyspace {
      if id in records && now < records[id].expires then
        this.(records := records - {id}, indexes := IndexesDropped(indexes, records[id].session.podName, id, now),
              clock := now)
      else this.(clock := now)
    }

    /** The second command of a purge, with the ids that the first one read. */
    function Erase(pod: string, ids: set<string>, now: Time): Keyspace {
      this.(records := records - ids, indexes := indexes - {pod}, clock := now)
    }
  }

  lemma PutSound(k: Keyspace, s: McpSession, now: Time, maxAge: nat)
    requires k.Sound(maxAge) && k.clock <= now
    ensures k.Put(s, now, maxAge).Sound(maxAge)
  {
    var n := k.Put(s, now, maxAge);
    assert Covered(n.records, n.indexes, now) by {
      CoveredLater(k.records, k.indexes, k.clock, now);
      PutCovers(k.records, k.indexes, s, now, now + maxAge);
    }
    if n.faithful {
      PutHomes(k.records, k.indexes, s, now, now + maxAge, k.home);
    }
  }

  lemma DropSound(k: Keyspace, id: string, now: Time, maxAge: nat)
    requires k.Sound(maxAge) && k.clock <= now
    ensures k.Drop(id, now).Sound(maxAge)
  {
    var n := k.Drop(id, now);
    CoveredLater(k.records, k.indexes, k.clock, now);
    if id in k.records && now < k.records[id].expires {
      assert Covered(n.records, n.indexes, now) by { DropCovers(k.records, k.indexes, id, now); }
      if k.faithful {
        DropHomes(k.records, k.indexes, k.records[id].session.podName, id, now, k.home);
      }
    }
  }

  lemma DropLives(k: Keyspace, id: string, now: Time)
    ensures Live(k.Drop(id, now).records, now) == Live(k.records, now) - {id}
  {
  }

  /** What was read of the pod's index has every live session of the pod. */
  ghost predicate Complete(records: Records, pod: string, ids: set<string>, now: Time) {
    forall id :: id in Live(records, now) && Live(records, now)[id].podName == pod ==> id in ids
  }

  /** The index, read now, is complete; puts in between can make it incomplete. */
  lemma ReadIsComplete(records: Records, indexes: Indexes, pod: string, now: Time)
    requires Covered(records, indexes, now)
    ensures Complete(records, pod, IndexAt(indexes, pod, now), now)
  {
  }

  /**
    Erasing what was read earlier keeps all sessions covered, and leaves none of the pod's,
    exactly if what was read is still complete.
   */
  lemma EraseCoversExactlyIf(records: Records, indexes: Indexes, pod: string, ids: set<string>, now: Time)
    requires Covered(records, indexes, now)
    ensures Covered(records - ids, indexes - {pod}, now) <==> Complete(records, pod, ids, now)
    ensures (forall id :: id in Live(records - ids, now) ==> Live(records - ids, now)[id].podName != pod)
            <==> Complete(records, pod, ids, now)
  {
    if !Complete(records, pod, ids, now) {
      var id :| id in Live(records, now) && Live(records, now)[id].podName == pod && id !in ids;
      assert id in Live(records - ids, now);
    }
  }

  lemma EraseSound(k: Keyspace, pod: string, ids: set<string>, now: Time, maxAge: nat)
    requires k.Sound(maxAge) && k.clock <= now
    ensures k.Erase(pod, ids, now).Sound(maxAge) <==> Complete(k.records, pod, ids, now)
  {
    CoveredLater(k.records, k.indexes, k.clock, now);
    EraseCoversExactlyIf(k.records, k.indexes, pod, ids, now);
    EraseKeepsRest(k, pod, ids, now, maxAge);
  }

  lemma EraseKeepsRest(k: Keyspace, pod: string, ids: set<string>, now: Time, maxAge: nat)
    requires k.Sound(maxAge) && k.clock <= now
    ensures Bounded(k.records - ids, now + maxAge)
    ensures k.faithful ==> Homed(k.records - ids, k.indexes - {pod}, k.home)
  {
  }

  /** Every live session in the pod's index is on that pod. */
  ghost predicate OwnIndex(records: Records, indexes: Indexes, pod: string, now: Time) {
    forall id :: id in IndexAt(indexes, pod, now) && id in Live(records, now) ==> Live(records, now)[id].podName == pod
  }

  /** An undisturbed purge removes just the pod's own live sessions exactly if its index holds no other pod's. */
  lemma PurgeExactlyIf(records: Records, indexes: Indexes, pod: string, now: Time)
    requires Covered(records, indexes, now)
    ensures Live(records - IndexAt(indexes, pod, now), now) == Apart(Live(records, now), {pod})
            <==> OwnIndex(records, indexes, pod, now)
  {
    ReadIsComplete(records, indexes, pod, now);
    var after, apart := Live(records - IndexAt(indexes, pod, now), now), Apart(Live(records, now), {pod});
    if OwnIndex(records, indexes, pod, now) {
      assert after.Keys == apart.Keys;
    } else {
      var id :| id in IndexAt(indexes, pod, now) && id in Live(records, now) && Live(records, now)[id].podName != pod;
      assert id in apart && id !in after;
    }
  }

  /** If ids keep to their pod, a pod's index holds no other pod's session. */
  lemma PurgeSpares(records: Records, indexes: Indexes, home: map<string, string>, pod: string, now: Time)
    requires Homed(records, indexes, home) && Covered(records, indexes, now)
    ensures Live(records - IndexAt(indexes, pod, now), now) == Apart(Live(records, now), {pod})
  {
    PurgeExactlyIf(records, indexes, pod, now);
  }

  // ----- runs in which purges overlap with everything else -----

  /** A purge between its two commands: what it is for, and the ids it has read. */
  datatype Purge = Purge(pod: string, ids: set<string>)

  datatype World = World(space: Keyspace, purges: map<nat, Purge>)

  /** One command of some process, at a time. */
  datatype Command =
    | Put(s: McpSession, at: Time)
    | Drop(id: string, at: Time)
    | Read(purge: nat, pod: string, at: Time)
    | Erase(purge: nat, at: Time)

  function Step(w: World, c: Command, maxAge: nat): World {
    match c
    case Put(s, at) => w.(space := w.space.Put(s, at, maxAge))
    case Drop(id, at) => w.(space := w.space.Drop(id, at))
    case Read(p, pod, at) =>
      World(w.space.(clock := at), w.purges[p := Purge(pod, IndexAt(w.space.indexes, pod, at))])
    case Erase(p, at) =>
      if p !in w.purges then w
      else World(w.space.Erase(w.purges[p].pod, w.purges[p].ids, at), w.purges - {p})
  }

  /** Time does not go back, and no purge erases with an incomplete reading. */
  ghost predicate Attentive(w: World, commands: seq<Command>, maxAge: nat)
    decreases |commands|
  {
    commands == [] ||
    (&& w.space.clock <= commands[0].at
     && (commands[0].Erase? && commands[0].purge in w.purges ==> CompleteFor(w, commands[0].purge, commands[0].at))
     && Attentive(Step(w, commands[0], maxAge), commands[1..], maxAge))
  }

  ghost predicate CompleteFor(w: World, p: nat, now: Time)
    requires p in w.purges
  {
    Complete(w.space.records, w.purges[p].pod, w.purges[p].ids, now)
  }

  function Run(w: World, commands: seq<Command>, maxAge: nat): World
    decreases |commands|
  {
    if commands == [] then w else Run(Step(w, commands[0], maxAge), commands[1..], maxAge)
  }

  /** A step keeps all sessions covered, and an erasing one does so exactly if its reading is still complete. */
  lemma StepSound(w: World, c: Command, maxAge: nat)
    requires w.space.Sound(maxAge) && w.space.clock <= c.at
    ensures Step(w, c, maxAge).space.Sound(maxAge)
            <==> (c.Erase? && c.purge in w.purges ==> CompleteFor(w, c.purge, c.at))
  {
    match c
    case Put(s, at) => PutSound(w.space, s, at, maxAge);
    case Drop(id, at) => DropSound(w.space, id, at, maxAge);
    case Read(_, _, at) => CoveredLater(w.space.records, w.space.indexes, w.space.clock, at);
    case Erase(p, at) =>
      if p in w.purges {
        EraseSound(w.space, w.purges[p].pod, w.purges[p].ids, at, maxAge);
      }
  }

  /** In every run whose purges erase complete readings, every unexpired session is in its pod's unexpired index. */
  lemma {:induction false} RunSound(w: World, commands: seq<Command>, maxAge: nat)
    requires w.space.Sound(maxAge) && Attentive(w, commands, maxAge)
    ensures Run(w, commands, maxAge).space.Sound(maxAge)
    decreases |commands|
  {
    if commands != [] {
      StepSound(w, commands[0], maxAge);
      RunSound(Step(w, commands[0], maxAge), commands[1..], maxAge);
    }
  }

  /** The ids whose latest put among these is on the pod. */
  ghost function PutOn(puts: seq<McpSession>, pod: string): set<string> {
    if puts == [] then {}
    else
      var s := puts[|puts| - 1];
      var before := PutOn(puts[..|puts| - 1], pod);
      if s.podName == pod then before + {s.id} else before - {s.id}
  }

  function AllPut(k: Keyspace, puts: seq<McpSession>, now: Time, maxAge: nat): Keyspace {
    if puts == [] then k else AllPut(k, puts[..|puts| - 1], now, maxAge).Put(puts[|puts| - 1], now, maxAge)
  }

  lemma {:induction false} AllPutSound(k: Keyspace, puts: seq<McpSession>, now: Time, maxAge: nat)
    requires k.Sound(maxAge) && k.clock <= now
    ensures AllPut(k, puts, now, maxAge).Sound(maxAge) && AllPut(k, puts, now, maxAge).clock <= now
  {
    if puts != [] {
      AllPutSound(k, puts[..|puts| - 1], now, maxAge);
      PutSound(AllPut(k, puts[..|puts| - 1], now, maxAge), puts[|puts| - 1], now, maxAge);
    }
  }

  /** The ids of the live sessions on a pod. */
  ghost function LiveOn(records: Records, pod: string, now: Time): set<string> {
    set id | id in Live(records, now) && Live(records, now)[id].podName == pod
  }

  lemma {:induction false} LiveAfterPuts(k: Keyspace, puts: seq<McpSession>, pod: string, now: Time, maxAge: nat)
    requires maxAge > 0
    ensures LiveOn(AllPut(k, puts, now, maxAge).records, pod, now) <= LiveOn(k.records, pod, now) + PutOn(puts, pod)
    ensures PutOn(puts, pod) <= LiveOn(AllPut(k, puts, now, maxAge).records, pod, now)
  {
    if puts != [] {
      var front, s := puts[..|puts| - 1], puts[|puts| - 1];
      LiveAfterPuts(k, front, pod, now, maxAge);
      var records := AllPut(k, front, now, maxAge).records;
      assert AllPut(k, puts, now, maxAge).records == records[s.id := Record(s, now + maxAge)];
      LiveAfterPut(records, s, pod, now, now + maxAge);
      Shift(LiveOn(records, pod, now), LiveOn(k.records, pod, now), PutOn(front, pod), s.id);
    }
  }

  lemma Shift(live: set<string>, first: set<string>, put: set<string>, id: string)
    requires live <= first + put && put <= live
    ensures live + {id} <= first + (put + {id}) && put + {id} <= live + {id}
    ensures live - {id} <= first + (put - {id}) && put - {id} <= live - {id}
  {
  }

  lemma LiveAfterPut(records: Records, s: McpSession, pod: string, now: Time, expires: Time)
    requires now < expires
    ensures LiveOn(records[s.id := Record(s, expires)], pod, now) ==
            if s.podName == pod then LiveOn(records, pod, now) + {s.id} else LiveOn(records, pod, now) - {s.id}
  {
    PutLives(records, s, now, expires);
  }

  /**
    Whatever is put between the two commands of a purge, everything stays covered and none of
    the pod's sessions is left exactly if each id last put on the pod was among those read.
   */
  lemma PutsDuringPurge(k: Keyspace, puts: seq<McpSession>, pod: string, now: Time, maxAge: nat)
    requires k.Sound(maxAge) && k.clock <= now
    ensures var ids := IndexAt(k.indexes, pod, now);
            AllPut(k, puts, now, maxAge).Erase(pod, ids, now).Sound(maxAge) <==> PutOn(puts, pod) <= ids
  {
    var ids, after := IndexAt(k.indexes, pod, now), AllPut(k, puts, now, maxAge);
    CoveredLater(k.records, k.indexes, k.clock, now);
    ReadIsComplete(k.records, k.indexes, pod, now);
    assert LiveOn(k.records, pod, now) <= ids;
    LiveAfterPuts(k, puts, pod, now, maxAge);
    AllPutSound(k, puts, now, maxAge);
    EraseSound(after, pod, ids, now, maxAge);
    assert Complete(after.records, pod, ids, now) <==> LiveOn(after.records, pod, now) <= ids;
  }

  const HOUR := 3600000

  /** A session put between the two commands of a purge stays live, and the next purge of its pod leaves it too. */
  lemma PutDuringPurgeStays(s: McpSession)
    ensures var start := World(Keyspace(map[], map[], 0, map[], true), map[]);
            var w := Run(start, [Read(0, s.podName, 1), Put(s, 2), Erase(0, 3), Read(1, s.podName, 4), Erase(1, 5)],
                         HOUR);
            && w.space.faithful && Live(w.space.records, 5) == map[s.id := s]
            && !Covered(w.space.records, w.space.indexes, 5)
  {
    var pod := s.podName;
    var w0 := World(Keyspace(map[], map[], 0, map[], true), map[]);
    var w1 := Step(w0, Read(0, pod, 1), HOUR);
    var w2 := Step(w1, Put(s, 2), HOUR);
    var w3 := Step(w2, Erase(0, 3), HOUR);
    assert w3.space.records == map[s.id := Record(s, 2 + HOUR)] && w3.space.indexes == map[];
    var w4 := Step(w3, Read(1, pod, 4), HOUR);
    assert w4.purges[1] == Purge(pod, {});
    var w5 := Step(w4, Erase(1, 5), HOUR);
    assert w5.space.records == map[s.id := Record(s, 2 + HOUR)] && w5.space.indexes == map[];
    var cs := [Read(0, pod, 1), Put(s, 2), Erase(0, 3), Read(1, pod, 4), Erase(1, 5)];
    assert cs[4..] == [Erase(1, 5)] && cs[4..][1..] == [];
    assert Run(w4, cs[4..], HOUR) == Run(w5, [], HOUR) == w5;
    assert cs[3..][1..] == cs[4..] && Run(w3, cs[3..], HOUR) == Run(w4, cs[4..], HOUR);
    assert cs[2..][1..] == cs[3..] && Run(w2, cs[2..], HOUR) == Run(w3, cs[3..], HOUR);
    assert cs[1..][1..] == cs[2..] && Run(w1, cs[1..], HOUR) == Run(w2, cs[2..], HOUR);
  }

  /** The command leaves the record of this id alone. */
  predicate Spares(w: World, c: Command, id: string) {
    match c
    case Put(s, _) => s.id != id
    case Drop(other, _) => other != id
    case Read(_, _, _) => true
    case Erase(p, _) => p !in w.purges || id !in w.purges[p].ids
  }

  predicate AllSpare(w: World, commands: seq<Command>, id: string, maxAge: nat)
    decreases |commands|
  {
    commands == [] ||
    (Spares(w, commands[0], id) && AllSpare(Step(w, commands[0], maxAge), commands[1..], id, maxAge))
  }

  lemma {:induction false} SparedStays(w: World, commands: seq<Command>, id: string, maxAge: nat)
    requires id in w.space.records && AllSpare(w, commands, id, maxAge)
    ensures var after := Run(w, commands, maxAge).space.records; id in after && after[id] == w.space.records[id]
    decreases |commands|
  {
    if commands != [] {
      SparedStays(Step(w, commands[0], maxAge), commands[1..], id, maxAge);
    }
  }

  /** A session that is put is found, as it was put, until its time has come, unless somebody puts or deletes it. */
  lemma PutIsFoundUntil(w: World, s: McpSession, at: Time, commands: seq<Command>, now: Time, maxAge: nat)
    requires AllSpare(Step(w, Put(s, at), maxAge), commands, s.id, maxAge)
    ensures var live := Live(Run(Step(w, Put(s, at), maxAge), commands, maxAge).space.records, now);
            && (now < at + maxAge ==> s.id in live && live[s.id] == s)
            && (now >= at + maxAge ==> s.id !in live)
  {
    SparedStays(Step(w, Put(s, at), maxAge), commands, s.id, maxAge);
  }

  /** Its pod's index names it for just as long, and a session that has expired is deleted without effect. */
  lemma ExpiryIsSharp(k: Keyspace, s: McpSession, at: Time, now: Time, maxAge: nat, id: string)
    ensures s.id in IndexAt(k.Put(s, at, maxAge).indexes, s.podName, now) <==> now < at + maxAge
    ensures id !in Live(k.records, now) ==> k.Drop(id, now) == k.(clock := now)
  {
  }

  class SessionRecords {
    const maxAge: nat
    var state: Keyspace

    ghost predicate Valid()
      reads this
    {
      state.Sound(maxAge)
    }

    constructor (maxAge: nat, now: Time)
      requires maxAge > 0
      ensures Valid() && this.maxAge == maxAge
      ensures state == Keyspace(map[], map[], now, map[], true)
    {
      this.maxAge := maxAge;
      state := Keyspace(map[], map[], now, map[], true);
    }

    method GetSession(id: string, now: Time) returns (r: Option<McpSession>)
      ensures r == if id in Live(state.records, now) then Some(Live(state.records, now)[id]) else None
    {
      r := if id in state.records && now < state.records[id].expires then Some(state.records[id].session) else None;
    }

    method PutSession(s: McpSession, now: Time)
      requires Valid() && state.clock <= now
      modifies this
      ensures Valid() && state == old(state).Put(s, now, maxAge)
      ensures Live(state.records, now) == Live(old(state.records), now)[s.id := s]
    {
      PutSound(state, s, now, maxAge);
      PutLives(state.records, s, now, now + maxAge);
      state := state.Put(s, now, maxAge);
    }

    method DeleteSession(id: string, now: Time)
      requires Valid() && state.clock <= now
      modifies this
      ensures Valid() && state == old(state).Drop(id, now)
      ensures Live(state.records, now) == Live(old(state.records), now) - {id}
    {
      DropSound(state, id, now, maxAge);
      DropLives(state, id, now);
      state := state.Drop(id, now);
    }

    /** The sessions that others put in the meantime. */
    method PutAll(sessions: seq<McpSession>, now: Time)
      requires Valid() && state.clock <= now
      modifies this
      ensures Valid() && state.clock <= now && state == AllPut(old(state), sessions, now, maxAge)
    {
      for i := 0 to |sessions|
        invariant Valid() && state.clock <= now && state == AllPut(old(state), sessions[..i], now, maxAge)
      {
        assert sessions[..i + 1][..i] == sessions[..i];
        PutSession(sessions[i], now);
      }
      assert sessions[..|sessions|] == sessions;
    }

    /**
      Reads the pod's index and deletes what it names, while others put sessions. Everything stays
      covered and none of the pod's sessions is left exactly if none was missed.
     */
    method DeleteSessionsForPod(pod: string, now: Time, between: seq<McpSession>)
      requires Valid() && state.clock <= now
      modifies this
      ensures var ids := IndexAt(old(state.indexes), pod, now);
              && state == AllPut(old(state), between, now, maxAge).Erase(pod, ids, now)
              && (Valid() <==> PutOn(between, pod) <= ids)
      ensures Valid() ==> LiveOn(state.records, pod, now) == {}
      ensures between == [] && old(state.faithful) ==>
                Live(state.records, now) == Apart(Live(old(state.records), now), {pod})
    {
      PurgeMeans(state, between, pod, now, maxAge);
      var ids := IndexAt(state.indexes, pod, now);
      PutAll(between, now);
      state := state.Erase(pod, ids, now);
    }
  }

  /** What a purge with puts in between amounts to. */
  lemma PurgeMeans(k: Keyspace, between: seq<McpSession>, pod: string, now: Time, maxAge: nat)
    requires k.Sound(maxAge) && k.clock <= now
    ensures var ids := IndexAt(k.indexes, pod, now);
            var after := AllPut(k, between, now, maxAge).Erase(pod, ids, now);
            && (after.Sound(maxAge) <==> PutOn(between, pod) <= ids)
            && (after.Sound(maxAge) ==> LiveOn(after.records, pod, now) == {})
            && (between == [] && k.faithful ==> Live(after.records, now) == Apart(Live(k.records, now), {pod}))
  {
    PutsDuringPurge(k, between, pod, now, maxAge);
    AllPutSound(k, between, now, maxAge);
    EraseLeaves(AllPut(k, between, now, maxAge), pod, IndexAt(k.indexes, pod, now), now, maxAge);
    if between == [] && k.faithful {
      CoveredLater(k.records, k.indexes, k.clock, now);
      PurgeSpares(k.records, k.indexes, k.home, pod, now);
    }
  }

  lemma EraseLeaves(k: Keyspace, pod: string, ids: set<string>, now: Time, maxAge: nat)
    requires k.Sound(maxAge) && k.clock <= now
    ensures k.Erase(pod, ids, now).Sound(maxAge) ==> LiveOn(k.records - ids, pod, now) == {}
  {
    CoveredLater(k.records, k.indexes, k.clock, now);
    EraseCoversExactlyIf(k.records, k.indexes, pod, ids, now);
  }

  /** Without that proviso the purge of one pod takes another pod's session with it. */
  lemma SharedIdIsPurged()
    ensures var first, second := McpSession("jg_a", "alice", "jira", "jira-1", "u1", 0),
                                 McpSession("jg_a", "alice", "wiki", "wiki-1", "u2", 1);
            var records: Records := map["jg_a" := Record(second, 11)];
            var indexes := IndexesPut(IndexesPut(map[], first, 0, 10), second, 1, 11);
            && Live(records, 2) == map["jg_a" := second]
            && Live(records - IndexAt(indexes, "jira-1", 2), 2) == map[]
  {
    var first, second := McpSession("jg_a", "alice", "jira", "jira-1", "u1", 0),
                         McpSession("jg_a", "alice", "wiki", "wiki-1", "u2", 1);
    var indexes := IndexesPut(IndexesPut(map[], first, 0, 10), second, 1, 11);
    assert "jira-1"[0] != "wiki-1"[0];
    assert IndexAt(indexes, "jira-1", 2) == {"jg_a"};
  }
}
