/**
  Every interleaving of the child's mutex-guarded regions with exit watchers,
  dying processes, unlocked listing fetches and the clock. The world keeps the
  full history that the code itself forgets.
 */
module ChildRuns {
  import opened Common
  import opened Fingerprints
  import opened ChildSpec

  /** One entry of the complete crash history. */
  datatype Record = Exit(at: Time, session: SessionId) | FailedStart(at: Time)

  /** Why the child manager itself closed a session. */
  datatype Cause = Rotation | Shutdown

  datatype Birth = Birth(gen: nat, credentials: Credentials)

  /** A listing call between its two locked regions. */
  datatype Fetch = Asking(session: SessionId, gen: nat) | Fetched(gen: nat, listing: Listing)

  datatype World = World(
    child: ChildState,
    clock: Time,
    history: seq<Record>,                     // every exit and failed start ever recorded
    cutoff: Time,                             // of the latest prune
    born: map<SessionId, Birth>,              // every session ever started
    watchers: set<SessionId>,                 // sessions whose exit watcher has not run yet
    dead: set<SessionId>,                     // sessions whose process ended by itself
    closed: map<SessionId, Cause>,            // sessions closed by the child manager
    holds: map<nat, Option<SessionId>>,       // open holds, with the session acquired
    fetches: map<nat, Fetch>)

  datatype Event =
    | Session(request: Credentials, outcome: StartOutcome)
    | Acquire(hold: nat, request: Credentials, outcome: StartOutcome)
    | Begin(hold: nat)
    | Release(hold: nat)
    | Die(session: SessionId)
    | Watch(session: SessionId)
    | Close
    | Healthy
    | Lookup(fetch: nat, session: SessionId)
    | Answer(fetch: nat, body: nat)
    | Abandon(fetch: nat)
    | Store(fetch: nat)
    | Tick(elapsed: nat)

  function Init(cfg: Config, start: Time): World {
    World(FRESH, start, [], start - cfg.Window(), map[], {}, {}, map[], map[], map[])
  }

  predicate Alive(w: World, s: SessionId) {
    s in w.born && s !in w.dead && s !in w.closed
  }

  predicate Enabled(w: World, e: Event) {
    match e
    case Session(_, outcome) => outcome.Started? ==> outcome.session !in w.born
    case Acquire(h, _, outcome) => h !in w.holds && (outcome.Started? ==> outcome.session !in w.born)
    case Begin(h) => h !in w.holds
    case Release(h) => h in w.holds
    case Die(s) => Alive(w, s)
    case Watch(s) => s in w.watchers && s in w.born && !Alive(w, s)
    case Close => true
    case Healthy => true
    case Lookup(f, s) => f !in w.fetches && s in w.born
    case Answer(f, _) => f in w.fetches && w.fetches[f].Asking? && Alive(w, w.fetches[f].session)
    case Abandon(f) => f in w.fetches
    case Store(f) => f in w.fetches && w.fetches[f].Fetched?
    case Tick(_) => true
  }

  /** Closing the current session, if there is one, and moving to the next generation. */
  function StopWorld(w: World, cause: Cause): World {
    w.(child := Stopped(w.child),
       closed := if w.child.session.Some? then w.closed[w.child.session.value := cause] else w.closed)
  }

  /** The budget check prunes the child's list. */
  function CheckWorld(cfg: Config, w: World): World {
    w.(child := Pruned(cfg, w.child, w.clock), cutoff := w.clock - cfg.Window())
  }

  function FailWorld(w: World, took: nat): World {
    var at := w.clock + took;
    w.(child := w.child.(restarts := w.child.restarts + [at]), history := w.history + [FailedStart(at)], clock := at)
  }

  function BirthWorld(w: World, request: Credentials, took: nat, s: SessionId): World {
    var gen := w.child.generation + 1;
    w.(child := w.child.(session := Some(s), credentials := request, generation := gen),
       born := w.born[s := Birth(gen, request)],
       watchers := w.watchers + {s},
       clock := w.clock + took)
  }

  function LaunchWorld(cfg: Config, w: World, request: Credentials, outcome: StartOutcome)
    : (World, Result<SessionId, SessionError>)
  {
    var v := CheckWorld(cfg, w);
    if !WithinBudget(cfg, v.child) then (v, Failure(RestartBudget))
    else
      match outcome
      case Refused => (v, Failure(StartFailed))
      case ConnectFailed(took) => (FailWorld(v, took), Failure(StartFailed))
      case Started(took, s) => (BirthWorld(v, request, took, s), Success(s))
  }

  function SessionWorld(cfg: Config, w: World, request: Credentials, outcome: StartOutcome)
    : (World, Result<SessionId, SessionError>)
  {
    if w.child.session.Some? && Rotates(cfg, w.child, request) && w.child.inflight == 0 then
      LaunchWorld(cfg, StopWorld(w, Rotation), request, outcome)
    else if w.child.session.None? then
      LaunchWorld(cfg, w, request, outcome)
    else
      var (c, r) := SessionFor(cfg, w.child, request, w.clock, outcome);
      (w.(child := c), r)
  }

  /** The exit watcher of a session runs. */
  function WatchWorld(w: World, s: SessionId): World
    requires s in w.born
  {
    w.(child := Exited(w.child, w.born[s].gen, w.clock), watchers := w.watchers - {s},
       history := if w.born[s].gen == w.child.generation then w.history + [Exit(w.clock, s)] else w.history)
  }

  function HoldWorld(w: World, h: nat, session: Option<SessionId>): World {
    w.(child := w.child.(inflight := w.child.inflight + 1), holds := w.holds[h := session])
  }

  function Step(cfg: Config, w: World, e: Event): World
    requires Enabled(w, e)
  {
    match e
    case Session(request, outcome) => SessionWorld(cfg, w, request, outcome).0
    case Acquire(h, request, outcome) =>
      var (v, r) := SessionWorld(cfg, w, request, outcome);
      if r.Failure? then v else HoldWorld(v, h, Some(r.value))
    case Begin(h) => HoldWorld(w, h, None)
    case Release(h) =>
      var v := w.(holds := w.holds - {h});
      var c := Ended(w.child);
      if c.generation != w.child.generation then StopWorld(v, Rotation).(child := c) else v.(child := c)
    case Die(s) => w.(dead := w.dead + {s})
    case Watch(s) => WatchWorld(w, s)
    case Close => StopWorld(w, Shutdown)
    case Healthy => CheckWorld(cfg, w)
    case Lookup(f, s) =>
      if CachedListing(w.child, s).Some? then w
      else w.(fetches := w.fetches[f := Asking(s, w.child.generation)])
    case Answer(f, body) =>
      var asking := w.fetches[f];
      w.(fetches := w.fetches[f := Fetched(asking.gen, Listing(asking.session, body))])
    case Abandon(f) => w.(fetches := w.fetches - {f})
    case Store(f) =>
      w.(child := ListingStored(w.child, w.fetches[f].gen, w.fetches[f].listing), fetches := w.fetches - {f})
    case Tick(elapsed) => w.(clock := w.clock + elapsed)
  }

  /** `w` is where the events, each enabled in turn, lead from `v`. */
  ghost predicate Leads(cfg: Config, v: World, events: seq<Event>, w: World)
    decreases |events|
  {
    if events == [] then v == w
    else Enabled(v, events[0]) && Leads(cfg, Step(cfg, v, events[0]), events[1..], w)
  }

  /** The world's bookkeeping takes exactly the transition of the locked region it accompanies. */
  lemma SessionWorldFollowsCode(cfg: Config, w: World, request: Credentials, outcome: StartOutcome)
    ensures var (v, r) := SessionWorld(cfg, w, request, outcome);
            (v.child, r) == SessionFor(cfg, w.child, request, w.clock, outcome)
  {
  }

  /** So does every other event that stands for a locked region. */
  lemma StepFollowsCode(cfg: Config, w: World, e: Event)
    requires Enabled(w, e)
    ensures var c := Step(cfg, w, e).child;
            match e
            case Session(request, outcome) => c == SessionFor(cfg, w.child, request, w.clock, outcome).0
            case Acquire(_, request, outcome) => c == Acquired(cfg, w.child, request, w.clock, outcome).0
            case Begin(_) => c == Begun(w.child)
            case Release(_) => c == Ended(w.child)
            case Watch(s) => c == Exited(w.child, w.born[s].gen, w.clock)
            case Close => c == Stopped(w.child)
            case Healthy => c == Pruned(cfg, w.child, w.clock)
            case Store(f) => c == ListingStored(w.child, w.fetches[f].gen, w.fetches[f].listing)
            case _ => c == w.child
  {
    if e.Session? || e.Acquire? {
      SessionWorldFollowsCode(cfg, w, e.request, e.outcome);
    }
  }

  /**
    Runs leave out nothing that can happen: time passes, the child is closed or asked for its health, processes die
    and stay dead, and watchers and callers go on at any point.
   */
  lemma NothingIsExcluded(cfg: Config, w: World, elapsed: nat, s: SessionId, h: nat, request: Credentials)
    ensures Enabled(w, Tick(elapsed)) && Step(cfg, w, Tick(elapsed)) == w.(clock := w.clock + elapsed)
    ensures Enabled(w, Close) && Enabled(w, Healthy)
    ensures Enabled(w, Session(request, Refused)) && Enabled(w, Session(request, ConnectFailed(elapsed)))
    ensures s !in w.born ==> Enabled(w, Session(request, Started(elapsed, s)))
    ensures h !in w.holds ==> Enabled(w, Begin(h)) && Enabled(w, Acquire(h, request, Refused))
    ensures h in w.holds ==> Enabled(w, Release(h))
    ensures s in w.born && s !in w.dead && s !in w.closed ==>
              Enabled(w, Die(s)) && Step(cfg, w, Die(s)) == w.(dead := w.dead + {s})
    ensures s in w.born && s in w.watchers && (s in w.dead || s in w.closed) ==> Enabled(w, Watch(s))
  {
  }

  /** A listing can be asked for at any time, and is answered by a process that lives, abandoned, or stored. */
  lemma NoFetchIsExcluded(w: World, f: nat, s: SessionId, body: nat)
    ensures f !in w.fetches && s in w.born ==> Enabled(w, Lookup(f, s))
    ensures f in w.fetches ==> Enabled(w, Abandon(f))
    ensures f in w.fetches && w.fetches[f].Fetched? ==> Enabled(w, Store(f))
    ensures f in w.fetches && w.fetches[f].Asking? ==>
              (Enabled(w, Answer(f, body)) <==>
               && w.fetches[f].session in w.born && w.fetches[f].session !in w.dead
               && w.fetches[f].session !in w.closed)
  {
  }

  // ----- the invariant -----

  function Times(history: seq<Record>): (ts: seq<Time>)
    ensures |ts| == |history|
    ensures forall i :: 0 <= i < |ts| ==> ts[i] == history[i].at
  {
    seq(|history|, i requires 0 <= i < |history| => history[i].at)
  }

  /** Sessions, generations and watchers: only the current session is alive. */
  ghost predicate Identity(w: World) {
    && (forall s :: s in w.born ==> w.born[s].gen <= w.child.generation)
    && (forall s, t :: s in w.born && t in w.born && w.born[s].gen == w.born[t].gen ==> s == t)
    && (forall s: SessionId :: Alive(w, s) ==> w.child.session == Some(s))
    && w.watchers <= w.born.Keys
    && w.dead <= w.born.Keys
    && w.closed.Keys <= w.born.Keys
    && (w.child.session.Some? ==>
          var s := w.child.session.value;
          && s in w.born
          && s in w.watchers
          && s !in w.closed
          && w.born[s] == Birth(w.child.generation, w.child.credentials))
    && (forall s :: s in w.watchers && w.born[s].gen == w.child.generation ==> w.child.session == Some(s))
  }

  /** The counter counts the open holds, and a held session was never closed by a rotation. */
  ghost predicate HoldsKept(w: World) {
    && w.child.inflight == |w.holds|
    && (w.child.restartAtIdle ==> w.child.inflight > 0)
    && (forall h :: h in w.holds && w.holds[h].Some? ==>
          var s := w.holds[h].value;
          && s in w.born
          && (w.child.session == Some(s) || s in w.dead || s in w.closed)
          && (s in w.closed ==> w.closed[s] == Shutdown))
  }

  /** Any max+2 successive records span at least one window. */
  ghost predicate Spaced(max: nat, window: nat, times: seq<Time>) {
    forall i, j :: 0 <= i && j == i + max + 1 && j < |times| ==> times[j] - times[i] >= window
  }

  /** One more record at `now` would keep the history spaced. */
  ghost predicate Room(max: nat, window: nat, times: seq<Time>, now: Time) {
    |times| > max ==> times[|times| - 1 - max] <= now - window
  }

  /** The child's list is the whole history pruned at the latest cutoff, and a running child passed the check. */
  ghost predicate BudgetedHistory(max: nat, window: nat, times: seq<Time>, clock: Time, cutoff: Time,
                                  restarts: seq<Time>, running: bool)
  {
    && Ascending(times)
    && (times != [] ==> times[|times| - 1] <= clock)
    && cutoff <= clock - window
    && restarts == After(times, cutoff)
    && Spaced(max, window, times)
    && (running ==> Room(max, window, times, clock))
  }

  ghost predicate Budgeted(cfg: Config, w: World) {
    BudgetedHistory(cfg.MaxRestarts(), cfg.Window(), Times(w.history), w.clock, w.cutoff, w.child.restarts,
                    w.child.session.Some?)
  }

  /** Exits are recorded once per session and only for processes that ended by themselves. */
  ghost predicate ExitsOnce(w: World) {
    && (forall i, j :: 0 <= i < j < |w.history| && w.history[i].Exit? && w.history[j].Exit? ==>
          w.history[i].session != w.history[j].session)
    && (forall i :: 0 <= i < |w.history| && w.history[i].Exit? ==>
          var s := w.history[i].session;
          s in w.born && s in w.dead && s !in w.closed && s !in w.watchers)
  }

  /** Every listing in the cache or on its way there carries its own session's generation. */
  ghost predicate Provenance(w: World) {
    && (w.child.lists.Some? ==>
          w.child.lists.value.origin in w.born && w.born[w.child.lists.value.origin].gen == w.child.listsGen)
    && (forall f :: f in w.fetches ==> Sourced(w, w.fetches[f]))
  }

  ghost predicate Inv(cfg: Config, w: World) {
    Identity(w) && HoldsKept(w) && Budgeted(cfg, w) && ExitsOnce(w) && Provenance(w)
  }

  lemma InitKeeps(cfg: Config, start: Time)
    ensures Inv(cfg, Init(cfg, start))
  {
  }

  lemma StopKeepsIdentity(w: World, cause: Cause)
    requires Identity(w)
    ensures Identity(StopWorld(w, cause))
    ensures forall s: SessionId :: Alive(StopWorld(w, cause), s) ==> Alive(w, s)
  {
    var v := StopWorld(w, cause);
    assert forall s: SessionId :: Alive(v, s) ==> Alive(w, s);
  }

  lemma StopKeepsHolds(w: World, cause: Cause)
    requires Identity(w) && HoldsKept(w) && (w.holds == map[] || cause == Shutdown)
    ensures HoldsKept(StopWorld(w, cause))
  {
  }

  /** Stopping the child is safe when nobody holds a session, or on shutdown. */
  lemma StopKeeps(cfg: Config, w: World, cause: Cause)
    requires Inv(cfg, w)
    requires w.holds == map[] || cause == Shutdown
    ensures Inv(cfg, StopWorld(w, cause))
  {
    StopKeepsIdentity(w, cause);
    StopKeepsHolds(w, cause);
  }

  /** A record made when there is room keeps the history spaced. */
  lemma RecordKeepsSpacing(max: nat, window: nat, times: seq<Time>, clock: Time, cutoff: Time, restarts: seq<Time>,
                           at: Time)
    requires BudgetedHistory(max, window, times, clock, cutoff, restarts, true)
    requires at >= clock && window > 0
    ensures BudgetedHistory(max, window, times + [at], at, cutoff, restarts + [at], false)
  {
    AfterAppend(times, at, cutoff);
    var ts := times + [at];
    forall i, j | 0 <= i <= j < |ts| ensures ts[i] <= ts[j] {
      if 0 < j == |times| {
        assert ts[i] <= times[|times| - 1] || i == j;
      }
    }
  }

  /**
    The check on the pruned list is the check on the whole history, and passing
    it leaves room for one more record.
   */
  lemma CheckKeepsBudget(max: nat, window: nat, times: seq<Time>, clock: Time, cutoff: Time, restarts: seq<Time>,
                         running: bool)
    requires BudgetedHistory(max, window, times, clock, cutoff, restarts, running)
    ensures After(restarts, clock - window) == After(times, clock - window)
    ensures BudgetedHistory(max, window, times, clock, clock - window, After(restarts, clock - window),
                            running || |After(restarts, clock - window)| <= max)
  {
    AfterAfter(times, cutoff, clock - window);
    if |After(times, clock - window)| <= max < |times| {
      FewAfter(times, clock - window, max);
    }
  }

  lemma TimesAppend(history: seq<Record>, r: Record)
    ensures Times(history + [r]) == Times(history) + [r.at]
  {
  }

  ghost predicate RoomNow(cfg: Config, w: World) {
    Room(cfg.MaxRestarts(), cfg.Window(), Times(w.history), w.clock)
  }

  /** Only the records and the times differ. */
  ghost predicate SameSessions(v: World, w: World) {
    v.(child := v.child.(restarts := w.child.restarts), history := w.history, clock := w.clock, cutoff := w.cutoff) == w
  }

  lemma SessionsKept(v: World, w: World)
    requires Identity(w) && HoldsKept(w) && Provenance(w) && SameSessions(v, w)
    ensures Identity(v) && HoldsKept(v) && Provenance(v)
  {
  }

  lemma CheckedBudget(cfg: Config, w: World)
    requires Budgeted(cfg, w)
    ensures var v := CheckWorld(cfg, w); Budgeted(cfg, v) && (WithinBudget(cfg, v.child) ==> RoomNow(cfg, v))
    ensures WithinBudget(cfg, Pruned(cfg, w.child, w.clock))
            <==> |After(Times(w.history), w.clock - cfg.Window())| <= cfg.MaxRestarts()
  {
    CheckKeepsBudget(cfg.MaxRestarts(), cfg.Window(), Times(w.history), w.clock, w.cutoff, w.child.restarts,
                     w.child.session.Some?);
  }

  lemma CheckKeeps(cfg: Config, w: World)
    requires Inv(cfg, w)
    ensures var v := CheckWorld(cfg, w); Inv(cfg, v) && (WithinBudget(cfg, v.child) ==> RoomNow(cfg, v))
  {
    SessionsKept(CheckWorld(cfg, w), w);
    CheckedBudget(cfg, w);
  }

  lemma RecordKeepsBudget(cfg: Config, w: World, r: Record, v: World)
    requires Budgeted(cfg, w) && RoomNow(cfg, w) && r.at >= w.clock
    requires v.history == w.history + [r] && v.child.restarts == w.child.restarts + [r.at]
    requires v.clock == r.at && v.cutoff == w.cutoff && v.child.session.None?
    ensures Budgeted(cfg, v)
  {
    RecordKeepsSpacing(cfg.MaxRestarts(), cfg.Window(), Times(w.history), w.clock, w.cutoff, w.child.restarts, r.at);
    TimesAppend(w.history, r);
  }

  lemma FailKeeps(cfg: Config, w: World, took: nat)
    requires Inv(cfg, w) && w.child.session.None? && RoomNow(cfg, w)
    ensures Inv(cfg, FailWorld(w, took))
  {
    var v := FailWorld(w, took);
    RecordKeepsBudget(cfg, w, FailedStart(v.clock), v);
    SessionsKept(v, w);
    FailKeepsExits(w, took);
  }

  lemma FailKeepsExits(w: World, took: nat)
    requires ExitsOnce(w)
    ensures ExitsOnce(FailWorld(w, took))
  {
    var v := FailWorld(w, took);
    assert forall i :: 0 <= i < |v.history| && v.history[i].Exit? ==> i < |w.history| && v.history[i] == w.history[i];
  }

  lemma BirthKeeps(cfg: Config, w: World, request: Credentials, took: nat, s: SessionId)
    requires Inv(cfg, w) && w.child.session.None? && RoomNow(cfg, w)
    requires s !in w.born
    ensures Inv(cfg, BirthWorld(w, request, took, s))
  {
    BirthKeepsIdentity(w, request, took, s);
    BirthKeepsRecords(cfg, w, request, took, s);
    BirthKeepsProvenance(w, request, took, s);
  }

  lemma BirthKeepsRecords(cfg: Config, w: World, request: Credentials, took: nat, s: SessionId)
    requires HoldsKept(w) && Budgeted(cfg, w) && ExitsOnce(w) && RoomNow(cfg, w)
    requires w.child.session.None? && s !in w.born
    ensures var v := BirthWorld(w, request, took, s); HoldsKept(v) && Budgeted(cfg, v) && ExitsOnce(v)
  {
  }

  lemma BirthKeepsProvenance(w: World, request: Credentials, took: nat, s: SessionId)
    requires Provenance(w) && s !in w.born
    ensures Provenance(BirthWorld(w, request, took, s))
  {
    var v := BirthWorld(w, request, took, s);
    assert forall f: Fetch :: Sourced(w, f) ==> Sourced(v, f);
  }

  lemma BirthKeepsIdentity(w: World, request: Credentials, took: nat, s: SessionId)
    requires Identity(w) && w.child.session.None? && s !in w.born
    ensures Identity(BirthWorld(w, request, took, s))
  {
    var v := BirthWorld(w, request, took, s);
    assert forall t: SessionId :: Alive(v, t) ==> Alive(w, t) || t == s;
  }

  lemma LaunchKeeps(cfg: Config, w: World, request: Credentials, outcome: StartOutcome)
    requires Inv(cfg, w) && w.child.session.None?
    requires outcome.Started? ==> outcome.session !in w.born
    ensures Inv(cfg, LaunchWorld(cfg, w, request, outcome).0)
  {
    CheckKeeps(cfg, w);
    var v := CheckWorld(cfg, w);
    if WithinBudget(cfg, v.child) {
      match outcome
      case Refused =>
      case ConnectFailed(took) => FailKeeps(cfg, v, took);
      case Started(took, s) => BirthKeeps(cfg, v, request, took, s);
    }
  }

  lemma SessionKeeps(cfg: Config, w: World, request: Credentials, outcome: StartOutcome)
    requires Inv(cfg, w)
    requires outcome.Started? ==> outcome.session !in w.born
    ensures Inv(cfg, SessionWorld(cfg, w, request, outcome).0)
  {
    if w.child.session.None? {
      LaunchKeeps(cfg, w, request, outcome);
    } else if Rotates(cfg, w.child, request) && w.child.inflight == 0 {
      StopKeeps(cfg, w, Rotation);
      LaunchKeeps(cfg, StopWorld(w, Rotation), request, outcome);
    } else {
      DeferKeeps(cfg, w, Rotates(cfg, w.child, request));
    }
  }

  /** Holds, their counter and the wish for a restart concern only each other. */
  lemma HoldFrame(cfg: Config, w: World, inflight: nat, restartAtIdle: bool, holds: map<nat, Option<SessionId>>)
    requires Inv(cfg, w)
    ensures var v := w.(child := w.child.(inflight := inflight, restartAtIdle := restartAtIdle), holds := holds);
            HoldsKept(v) ==> Inv(cfg, v)
  {
    var v := w.(child := w.child.(inflight := inflight, restartAtIdle := restartAtIdle), holds := holds);
    SameIdentity(v, w);
  }

  lemma SameIdentity(v: World, w: World)
    requires Identity(w) && v.born == w.born && v.watchers == w.watchers && v.dead == w.dead && v.closed == w.closed
    requires v.child.generation == w.child.generation && v.child.session == w.child.session
    requires v.child.credentials == w.child.credentials
    ensures Identity(v)
  {
  }

  /** Asking for a restart at idle while something is in flight changes nothing else. */
  lemma DeferKeeps(cfg: Config, w: World, rotates: bool)
    requires Inv(cfg, w) && (rotates ==> w.child.inflight > 0)
    ensures Inv(cfg, w.(child := if rotates then w.child.(restartAtIdle := true) else w.child))
  {
    HoldFrame(cfg, w, w.child.inflight, w.child.restartAtIdle || rotates, w.holds);
  }

  lemma TakenIsKept(w: World, h: nat, session: Option<SessionId>)
    requires Identity(w) && HoldsKept(w) && h !in w.holds && (session.Some? ==> session == w.child.session)
    ensures HoldsKept(HoldWorld(w, h, session))
  {
  }

  lemma HoldKeeps(cfg: Config, w: World, h: nat, session: Option<SessionId>)
    requires Inv(cfg, w) && h !in w.holds && (session.Some? ==> session == w.child.session)
    ensures Inv(cfg, HoldWorld(w, h, session))
  {
    TakenIsKept(w, h, session);
    HoldFrame(cfg, w, w.child.inflight + 1, w.child.restartAtIdle, w.holds[h := session]);
  }

  /** Giving up a hold, and with the last one the wish for a restart. */
  function LetGo(w: World, h: nat): World
    requires w.child.inflight > 0
  {
    w.(child := w.child.(inflight := w.child.inflight - 1,
                         restartAtIdle := w.child.restartAtIdle && w.child.inflight > 1),
       holds := w.holds - {h})
  }

  lemma LetGoIsKept(w: World, h: nat)
    requires HoldsKept(w) && h in w.holds
    ensures w.child.inflight > 0 && HoldsKept(LetGo(w, h))
  {
    assert w.holds == (w.holds - {h})[h := w.holds[h]];
  }

  lemma LetGoKeeps(cfg: Config, w: World, h: nat)
    requires Inv(cfg, w) && h in w.holds
    ensures w.child.inflight > 0 && Inv(cfg, LetGo(w, h))
  {
    LetGoIsKept(w, h);
    HoldFrame(cfg, w, w.child.inflight - 1, w.child.restartAtIdle && w.child.inflight > 1, w.holds - {h});
  }

  lemma ReleaseIs(cfg: Config, w: World, h: nat)
    requires h in w.holds && w.child.inflight > 0
    ensures Step(cfg, w, Release(h)) ==
            if w.child.inflight == 1 && w.child.restartAtIdle then StopWorld(LetGo(w, h), Rotation) else LetGo(w, h)
  {
  }

  lemma ReleaseKeeps(cfg: Config, w: World, h: nat)
    requires Inv(cfg, w) && h in w.holds
    ensures Inv(cfg, Step(cfg, w, Release(h)))
  {
    LetGoKeeps(cfg, w, h);
    ReleaseIs(cfg, w, h);
    if w.child.inflight == 1 && w.child.restartAtIdle {
      StopKeeps(cfg, LetGo(w, h), Rotation);
    }
  }

  lemma WatchKeepsIdentity(w: World, s: SessionId)
    requires Identity(w) && Enabled(w, Watch(s))
    ensures Identity(WatchWorld(w, s))
  {
    var v := WatchWorld(w, s);
    assert forall t: SessionId :: Alive(v, t) ==> Alive(w, t);
  }

  lemma WatchKeepsHolds(w: World, s: SessionId)
    requires Identity(w) && HoldsKept(w) && Enabled(w, Watch(s))
    ensures HoldsKept(WatchWorld(w, s))
  {
  }

  lemma WatchKeepsBudget(cfg: Config, w: World, s: SessionId)
    requires Identity(w) && Budgeted(cfg, w) && Enabled(w, Watch(s))
    ensures Budgeted(cfg, WatchWorld(w, s))
  {
    if w.born[s].gen == w.child.generation {
      assert w.child.session == Some(s);
      RecordKeepsBudget(cfg, w, Exit(w.clock, s), WatchWorld(w, s));
    }
  }

  lemma WatchKeepsExits(w: World, s: SessionId)
    requires Identity(w) && ExitsOnce(w) && Enabled(w, Watch(s))
    ensures ExitsOnce(WatchWorld(w, s))
  {
    if w.born[s].gen == w.child.generation {
      assert w.child.session == Some(s) && s in w.dead && s !in w.closed;
    }
  }

  lemma WatchKeeps(cfg: Config, w: World, s: SessionId)
    requires Inv(cfg, w) && Enabled(w, Watch(s))
    ensures Inv(cfg, WatchWorld(w, s))
  {
    WatchKeepsIdentity(w, s);
    WatchKeepsHolds(w, s);
    WatchKeepsBudget(cfg, w, s);
    WatchKeepsExits(w, s);
    SameProvenance(WatchWorld(w, s), w);
  }

  lemma SameProvenance(v: World, w: World)
    requires Provenance(w) && v.born == w.born && v.dead == w.dead && v.closed == w.closed && v.fetches == w.fetches
    requires v.child.lists == w.child.lists && v.child.listsGen == w.child.listsGen
    ensures Provenance(v)
  {
  }

  lemma DieKeeps(cfg: Config, w: World, s: SessionId)
    requires Inv(cfg, w) && Alive(w, s)
    ensures Inv(cfg, w.(dead := w.dead + {s}))
  {
    var v := w.(dead := w.dead + {s});
    assert forall t: SessionId :: Alive(v, t) ==> Alive(w, t);
  }

  /** The listing cache and the fetches in progress concern provenance only. */
  lemma ListingFrame(cfg: Config, w: World, lists: Option<Listing>, listsGen: nat, fetches: map<nat, Fetch>)
    requires Inv(cfg, w)
    ensures var v := w.(child := w.child.(lists := lists, listsGen := listsGen), fetches := fetches);
            Provenance(v) ==> Inv(cfg, v)
  {
  }

  lemma ListKeeps(cfg: Config, w: World, e: Event)
    requires Inv(cfg, w) && Enabled(w, e) && OnListings(e)
    ensures Inv(cfg, Step(cfg, w, e))
  {
    var v := Step(cfg, w, e);
    assert Provenance(v) by { ListKeepsProvenance(cfg, w, e); }
    ListingFrame(cfg, w, v.child.lists, v.child.listsGen, v.fetches);
  }

  /** A fetch in progress carries its own session's generation. */
  ghost predicate Sourced(w: World, fetch: Fetch) {
    match fetch
    case Asking(s, gen) => s in w.born && (Alive(w, s) ==> w.born[s].gen == gen)
    case Fetched(gen, l) => l.origin in w.born && w.born[l.origin].gen == gen
  }

  lemma OneFetch(w: World, f: nat, fetch: Fetch)
    requires Provenance(w) && Sourced(w, fetch)
    ensures Provenance(w.(fetches := w.fetches[f := fetch]))
  {
    var v := w.(fetches := w.fetches[f := fetch]);
    assert forall g: Fetch :: Sourced(w, g) ==> Sourced(v, g);
  }

  lemma FetchDropped(w: World, f: nat)
    requires Provenance(w)
    ensures Provenance(w.(fetches := w.fetches - {f}))
  {
    var v := w.(fetches := w.fetches - {f});
    assert forall g: Fetch :: Sourced(w, g) ==> Sourced(v, g);
  }

  lemma StoreKeepsProvenance(w: World, f: nat)
    requires Provenance(w) && f in w.fetches && w.fetches[f].Fetched?
    ensures var stored := ListingStored(w.child, w.fetches[f].gen, w.fetches[f].listing);
            Provenance(w.(child := stored, fetches := w.fetches - {f}))
  {
    assert Sourced(w, w.fetches[f]);
    FetchDropped(w, f);
    var v := w.(child := ListingStored(w.child, w.fetches[f].gen, w.fetches[f].listing), fetches := w.fetches - {f});
    assert forall g: Fetch :: Sourced(w, g) ==> Sourced(v, g);
  }

  lemma ListKeepsProvenance(cfg: Config, w: World, e: Event)
    requires Identity(w) && Provenance(w) && Enabled(w, e) && OnListings(e)
    ensures Provenance(Step(cfg, w, e))
  {
    match e
    case Lookup(f, s) =>
      assert Alive(w, s) ==> w.child.session == Some(s);
      OneFetch(w, f, Asking(s, w.child.generation));
    case Answer(f, body) =>
      assert Sourced(w, w.fetches[f]);
      OneFetch(w, f, Fetched(w.fetches[f].gen, Listing(w.fetches[f].session, body)));
    case Abandon(f) => FetchDropped(w, f);
    case Store(f) => StoreKeepsProvenance(w, f);
  }

  lemma AcquireKeeps(cfg: Config, w: World, h: nat, request: Credentials, outcome: StartOutcome)
    requires Inv(cfg, w) && Enabled(w, Acquire(h, request, outcome))
    ensures Inv(cfg, Step(cfg, w, Acquire(h, request, outcome)))
  {
    SessionKeeps(cfg, w, request, outcome);
    SuccessIsCurrent(cfg, w, request, outcome);
    var (v, r) := SessionWorld(cfg, w, request, outcome);
    if r.Success? {
      HoldKeeps(cfg, v, h, Some(r.value));
    }
  }

  lemma SuccessIsCurrent(cfg: Config, w: World, request: Credentials, outcome: StartOutcome)
    ensures var (v, r) := SessionWorld(cfg, w, request, outcome);
            v.holds == w.holds && v.dead == w.dead && (r.Success? ==> v.child.session == Some(r.value))
  {
    LaunchIsCurrent(cfg, w, request, outcome);
    LaunchIsCurrent(cfg, StopWorld(w, Rotation), request, outcome);
  }

  lemma LaunchIsCurrent(cfg: Config, w: World, request: Credentials, outcome: StartOutcome)
    ensures var (v, r) := LaunchWorld(cfg, w, request, outcome);
            v.holds == w.holds && v.dead == w.dead && (r.Success? ==> v.child.session == Some(r.value))
  {
  }

  lemma TickKeeps(cfg: Config, w: World, elapsed: nat)
    requires Inv(cfg, w)
    ensures Inv(cfg, w.(clock := w.clock + elapsed))
  {
  }

  predicate ByCaller(e: Event) {
    e.Session? || e.Acquire? || e.Begin? || e.Release?
  }

  lemma CallerStepKeeps(cfg: Config, w: World, e: Event)
    requires Inv(cfg, w) && Enabled(w, e) && ByCaller(e)
    ensures Inv(cfg, Step(cfg, w, e))
  {
    match e
    case Session(request, outcome) => SessionKeeps(cfg, w, request, outcome);
    case Acquire(h, request, outcome) => AcquireKeeps(cfg, w, h, request, outcome);
    case Begin(h) => HoldKeeps(cfg, w, h, None);
    case Release(h) => ReleaseKeeps(cfg, w, h);
  }

  predicate OnListings(e: Event) {
    e.Lookup? || e.Answer? || e.Abandon? || e.Store?
  }

  lemma ProcessStepKeeps(cfg: Config, w: World, e: Event)
    requires Inv(cfg, w) && Enabled(w, e) && !ByCaller(e) && !OnListings(e)
    ensures Inv(cfg, Step(cfg, w, e))
  {
    match e
    case Die(s) => DieKeeps(cfg, w, s);
    case Watch(s) => WatchKeeps(cfg, w, s);
    case Close => StopKeeps(cfg, w, Shutdown);
    case Healthy => CheckKeeps(cfg, w);
    case Tick(elapsed) => TickKeeps(cfg, w, elapsed);
  }

  lemma StepKeeps(cfg: Config, w: World, e: Event)
    requires Inv(cfg, w) && Enabled(w, e)
    ensures Inv(cfg, Step(cfg, w, e))
  {
    if ByCaller(e) {
      CallerStepKeeps(cfg, w, e);
    } else if OnListings(e) {
      ListKeeps(cfg, w, e);
    } else {
      ProcessStepKeeps(cfg, w, e);
    }
  }

  lemma {:induction false} RunKeeps(cfg: Config, v: World, events: seq<Event>, w: World)
    requires Inv(cfg, v) && Leads(cfg, v, events, w)
    ensures Inv(cfg, w)
    decreases |events|
  {
    if events != [] {
      StepKeeps(cfg, v, events[0]);
      RunKeeps(cfg, Step(cfg, v, events[0]), events[1..], w);
    }
  }

  ghost predicate Reachable(cfg: Config, w: World) {
    exists start, events :: Leads(cfg, Init(cfg, start), events, w)
  }

  lemma ReachableInv(cfg: Config, w: World)
    requires Reachable(cfg, w)
    ensures Inv(cfg, w)
  {
    var start, events :| Leads(cfg, Init(cfg, start), events, w);
    InitKeeps(cfg, start);
    RunKeeps(cfg, Init(cfg, start), events, w);
  }

  // ----- crash budget -----

  /** How many times fall into [from, until). */
  function CountWithin(times: seq<Time>, from: Time, until: Time): nat {
    if times == [] then 0
    else CountWithin(times[..|times| - 1], from, until)
         + if from <= times[|times| - 1] < until then 1 else 0
  }

  lemma {:induction false} CountWithinMeans(times: seq<Time>, from: Time, until: Time)
    ensures CountWithin(times, from, until) == |set i | 0 <= i < |times| && from <= times[i] && times[i] < until|
  {
    var all := set i | 0 <= i < |times| && from <= times[i] && times[i] < until;
    if times == [] {
      assert all == {};
    } else {
      var last := |times| - 1;
      CountWithinMeans(times[..last], from, until);
      var front := set i | 0 <= i < last && from <= times[..last][i] && times[..last][i] < until;
      assert all == front + if from <= times[last] < until then {last} else {};
      assert last !in front;
    }
  }

  /** At most as many as fit between the first one inside and the end. */
  lemma {:induction false} CountAtMost(times: seq<Time>, from: Time, until: Time, first: nat)
    requires first <= |times|
    requires forall i :: 0 <= i < first ==> times[i] < from
    ensures CountWithin(times, from, until) <= |times| - first
  {
    if |times| > first {
      CountAtMost(times[..|times| - 1], from, until, first);
    } else if times != [] {
      CountAtMost(times[..|times| - 1], from, until, first - 1);
    }
  }

  lemma {:induction false} SpacedCount(max: nat, window: nat, times: seq<Time>, from: Time)
    requires Ascending(times) && Spaced(max, window, times)
    ensures CountWithin(times, from, from + window) <= max + 1
  {
    if times != [] {
      var last := |times| - 1;
      if !(from <= times[last] < from + window) {
        SpacedCount(max, window, times[..last], from);
      } else if last > max {
        assert times[last - max - 1] < from;
        CountAtMost(times, from, from + window, last - max);
      } else {
        CountAtMost(times, from, from + window, 0);
      }
    }
  }

  /**
    Over a whole run, whatever the code forgot, every interval one window long
    holds at most maxRestarts + 1 recorded exits and failed starts.
   */
  lemma CrashBudget(cfg: Config, w: World, from: Time)
    requires Reachable(cfg, w)
    ensures CountWithin(Times(w.history), from, from + cfg.Window()) <= cfg.MaxRestarts() + 1
  {
    ReachableInv(cfg, w);
    BudgetedCount(cfg, w, from);
  }

  lemma BudgetedCount(cfg: Config, w: World, from: Time)
    requires Budgeted(cfg, w)
    ensures CountWithin(Times(w.history), from, from + cfg.Window()) <= cfg.MaxRestarts() + 1
  {
    SpacedCount(cfg.MaxRestarts(), cfg.Window(), Times(w.history), from);
  }

  /** Forgetting old entries never changes a decision: it is the one the whole history gives. */
  lemma PruningIsHarmless(cfg: Config, w: World)
    requires Reachable(cfg, w)
    ensures WithinBudget(cfg, Pruned(cfg, w.child, w.clock))
            <==> |After(Times(w.history), w.clock - cfg.Window())| <= cfg.MaxRestarts()
  {
    ReachableInv(cfg, w);
    CheckedBudget(cfg, w);
  }

  /** A generation's exit is recorded at most once, and never for a session a rotation or shutdown closed. */
  lemma OnlyCrashesAreRecorded(cfg: Config, w: World)
    requires Reachable(cfg, w)
    ensures forall i, j :: 0 <= i < j < |w.history| && w.history[i].Exit? && w.history[j].Exit? ==>
              w.history[i].session in w.born && w.history[j].session in w.born
              && w.born[w.history[i].session].gen != w.born[w.history[j].session].gen
    ensures forall i :: 0 <= i < |w.history| && w.history[i].Exit? ==>
              w.history[i].session in w.dead && w.history[i].session !in w.closed
  {
    ReachableInv(cfg, w);
  }

  // ----- holds -----

  /** Nothing in the run releases the hold, closes the child or kills the session. */
  ghost predicate Undisturbed(events: seq<Event>, h: nat, s: SessionId) {
    forall i :: 0 <= i < |events| ==> events[i] != Release(h) && events[i] != Close && events[i] != Die(s)
  }

  /** The hold is open and its session is the current one, alive. */
  ghost predicate HeldBy(w: World, h: nat, s: SessionId) {
    h in w.holds && w.holds[h] == Some(s) && w.child.session == Some(s) && s !in w.dead && s !in w.closed
  }

  lemma HeldMeansInFlight(w: World, h: nat)
    requires HoldsKept(w) && h in w.holds
    ensures w.child.inflight == |w.holds - {h}| + 1
  {
    assert w.holds == (w.holds - {h})[h := w.holds[h]];
  }

  /** With a hold open, asking for a session changes at most the wish for a restart. */
  lemma SessionKeepsHeld(cfg: Config, w: World, request: Credentials, outcome: StartOutcome, h: nat, s: SessionId)
    requires HoldsKept(w) && HeldBy(w, h, s)
    ensures var v := SessionWorld(cfg, w, request, outcome).0;
            HeldBy(v, h, s) && v.holds == w.holds && SessionWorld(cfg, w, request, outcome).1 == Success(s)
  {
    HeldMeansInFlight(w, h);
  }

  lemma ReleaseKeepsHeld(cfg: Config, w: World, g: nat, h: nat, s: SessionId)
    requires HoldsKept(w) && HeldBy(w, h, s) && g in w.holds && g != h
    ensures HeldBy(Step(cfg, w, Release(g)), h, s)
  {
    HeldMeansInFlight(w, h);
    assert w.holds - {h} == (w.holds - {h} - {g})[g := w.holds[g]];
    ReleaseIs(cfg, w, g);
  }

  lemma CallerKeepsHeld(cfg: Config, w: World, e: Event, h: nat, s: SessionId)
    requires HoldsKept(w) && Enabled(w, e) && HeldBy(w, h, s) && e != Release(h) && ByCaller(e)
    ensures HeldBy(Step(cfg, w, e), h, s)
  {
    match e
    case Session(request, outcome) => SessionKeepsHeld(cfg, w, request, outcome, h, s);
    case Acquire(_, request, outcome) => SessionKeepsHeld(cfg, w, request, outcome, h, s);
    case Begin(_) =>
    case Release(g) => ReleaseKeepsHeld(cfg, w, g, h, s);
  }

  lemma StepKeepsHeld(cfg: Config, w: World, e: Event, h: nat, s: SessionId)
    requires Identity(w) && HoldsKept(w) && Enabled(w, e) && HeldBy(w, h, s)
    requires e != Release(h) && e != Close && e != Die(s)
    ensures HeldBy(Step(cfg, w, e), h, s)
  {
    if ByCaller(e) {
      CallerKeepsHeld(cfg, w, e, h, s);
    }
  }

  /**
    While the hold is open, no rotation, no other request, no other caller's
    release and no exit watcher takes the acquired session away: it stays the
    child's current session until its own process ends or the child is closed.
   */
  lemma {:induction false} HeldSessionStays(cfg: Config, v: World, events: seq<Event>, w: World, h: nat, s: SessionId)
    requires Inv(cfg, v) && Leads(cfg, v, events, w)
    requires HeldBy(v, h, s) && Undisturbed(events, h, s)
    ensures HeldBy(w, h, s)
    decreases |events|
  {
    if events != [] {
      StepKeepsHeld(cfg, v, events[0], h, s);
      StepKeeps(cfg, v, events[0]);
      HeldSessionStays(cfg, Step(cfg, v, events[0]), events[1..], w, h, s);
    }
  }

  lemma AcquiredIsHeld(cfg: Config, u: World, h: nat, request: Credentials, outcome: StartOutcome)
    requires Inv(cfg, u) && Enabled(u, Acquire(h, request, outcome))
    ensures var v, r := Step(cfg, u, Acquire(h, request, outcome)), SessionFor(cfg, u.child, request, u.clock, outcome).1;
            Inv(cfg, v) && (r.Success? && r.value !in u.dead ==> HeldBy(v, h, r.value))
  {
    AcquireKeeps(cfg, u, h, request, outcome);
    SessionWorldFollowsCode(cfg, u, request, outcome);
    SuccessIsCurrent(cfg, u, request, outcome);
  }

  /** From a successful `Acquire` on, whatever else happens before the release. */
  lemma HoldSafety(cfg: Config, u: World, h: nat, request: Credentials, outcome: StartOutcome,
                   events: seq<Event>, w: World)
    requires Reachable(cfg, u) && Enabled(u, Acquire(h, request, outcome))
    requires Leads(cfg, Step(cfg, u, Acquire(h, request, outcome)), events, w)
    ensures var r := SessionFor(cfg, u.child, request, u.clock, outcome).1;
            r.Success? && r.value !in u.dead && Undisturbed(events, h, r.value) ==>
              w.child.session == Some(r.value) && r.value !in w.closed
  {
    ReachableInv(cfg, u);
    AcquiredIsHeld(cfg, u, h, request, outcome);
    var v, r := Step(cfg, u, Acquire(h, request, outcome)), SessionFor(cfg, u.child, request, u.clock, outcome).1;
    if r.Success? && r.value !in u.dead && Undisturbed(events, h, r.value) {
      HeldSessionStays(cfg, v, events, w, h, r.value);
    }
  }

  /** In no reachable world has a rotation closed a session that somebody still holds. */
  lemma OnlyExitOrShutdownEndsAHold(cfg: Config, w: World, h: nat)
    requires Reachable(cfg, w) && h in w.holds && w.holds[h].Some?
    ensures var s := w.holds[h].value;
            w.child.session == Some(s) || s in w.dead || (s in w.closed && w.closed[s] == Shutdown)
  {
    ReachableInv(cfg, w);
  }

  // ----- credentials -----

  /** With nothing in flight, the session returned runs with the credentials the request brings. */
  lemma CredentialsAreCurrent(cfg: Config, w: World, request: Credentials, outcome: StartOutcome)
    requires Reachable(cfg, w) && Enabled(w, Session(request, outcome)) && w.child.inflight == 0
    ensures var v, r := Step(cfg, w, Session(request, outcome)), SessionFor(cfg, w.child, request, w.clock, outcome).1;
            r.Success? ==>
              && r.value in v.born
              && (cfg.envTokens && request.token != "" ==> v.born[r.value].credentials.token == request.token)
              && (request.secrets != NoSecrets ==> v.born[r.value].credentials.secrets == request.secrets)
  {
    ReachableInv(cfg, w);
    SessionWorldFollowsCode(cfg, w, request, outcome);
    SuccessIsCurrent(cfg, w, request, outcome);
    StepKeeps(cfg, w, Session(request, outcome));
  }

  /**
    In every reachable world, a request whose credentials the current session was started with gets that
    session, and nothing is closed, started or recorded; acquiring it adds just the hold.
   */
  lemma MatchingRequestChangesNothing(cfg: Config, w: World, request: Credentials, outcome: StartOutcome, h: nat)
    requires Reachable(cfg, w) && w.child.session.Some? && w.child.session.value in w.born
    requires Matches(cfg, w.born[w.child.session.value].credentials, request)
    requires outcome.Started? ==> outcome.session !in w.born
    ensures SessionFor(cfg, w.child, request, w.clock, outcome).1 == Success(w.child.session.value)
    ensures Step(cfg, w, Session(request, outcome)) == w
    ensures h !in w.holds ==> Step(cfg, w, Acquire(h, request, outcome)) == HoldWorld(w, h, w.child.session)
  {
    ReachableInv(cfg, w);
    MatchingIsReused(cfg, w.child, request, w.clock, outcome);
    SessionWorldFollowsCode(cfg, w, request, outcome);
  }

  /** Without a session, a start is refused exactly if the full history of the window exceeds the budget. */
  lemma RefusedExactlyIf(cfg: Config, w: World, request: Credentials, outcome: StartOutcome)
    requires Reachable(cfg, w) && w.child.session.None?
    ensures var r := SessionFor(cfg, w.child, request, w.clock, outcome).1;
            var recent := |After(Times(w.history), w.clock - cfg.Window())|;
            && (r == Failure(RestartBudget) <==> recent > cfg.MaxRestarts())
            && (r.Success? <==> recent <= cfg.MaxRestarts() && outcome.Started?)
  {
    PruningIsHarmless(cfg, w);
    StartedExactlyIf(cfg, w.child, request, w.clock, outcome);
  }

  /** Nobody asks for a session in the run. */
  ghost predicate Unasked(events: seq<Event>) {
    forall i :: 0 <= i < |events| ==> !events[i].Session? && !events[i].Acquire?
  }

  lemma UnaskedStep(cfg: Config, v: World, e: Event)
    requires Enabled(v, e) && v.child.session.None? && !e.Session? && !e.Acquire?
    ensures var w := Step(cfg, v, e); w.child.session.None? && w.born == v.born
  {
  }

  lemma {:induction false} UnaskedStaysStopped(cfg: Config, v: World, events: seq<Event>, w: World)
    requires Leads(cfg, v, events, w) && Unasked(events) && v.child.session.None?
    ensures w.child.session.None? && w.born == v.born
    decreases |events|
  {
    if events != [] {
      UnaskedStep(cfg, v, events[0]);
      UnaskedStaysStopped(cfg, Step(cfg, v, events[0]), events[1..], w);
    }
  }

  lemma LastRelease(cfg: Config, w: World, h: nat)
    requires HoldsKept(w) && w.child.restartAtIdle && h in w.holds && w.holds.Keys == {h}
    ensures var v := Step(cfg, w, Release(h));
            && v.child.session.None? && !v.child.restartAtIdle && v.child.inflight == 0 && v.born == w.born
            && (w.child.session.Some? ==> w.child.session.value in v.closed)
  {
    assert w.holds == map[h := w.holds[h]];
    ReleaseIs(cfg, w, h);
  }

  /** Without a session, whoever asks gets a new one with exactly the credentials of that request. */
  lemma StoppedStartsAnew(cfg: Config, u: World, request: Credentials, outcome: StartOutcome)
    requires u.child.session.None? && (outcome.Started? ==> outcome.session !in u.born)
    ensures var (x, r) := SessionWorld(cfg, u, request, outcome);
            r.Success? ==> r.value !in u.born && r.value in x.born && x.born[r.value].credentials == request
  {
  }

  /**
    The last release of a child with a deferred restart stops the old session. Whatever happens
    then, whoever asks next gets a new session, started with exactly the credentials of that request.
   */
  lemma DeferredRestart(cfg: Config, w: World, h: nat, events: seq<Event>, u: World, request: Credentials,
                        outcome: StartOutcome)
    requires Reachable(cfg, w) && w.child.restartAtIdle
    requires h in w.holds && w.holds.Keys == {h}
    requires Leads(cfg, Step(cfg, w, Release(h)), events, u) && Unasked(events)
    requires outcome.Started? ==> outcome.session !in u.born
    ensures var v := Step(cfg, w, Release(h));
            && v.child.session.None? && !v.child.restartAtIdle && v.child.inflight == 0
            && (w.child.session.Some? ==> w.child.session.value in v.closed)
    ensures var (x, r) := SessionWorld(cfg, u, request, outcome);
            r.Success? ==> r.value !in w.born && r.value in x.born && x.born[r.value].credentials == request
  {
    ReachableInv(cfg, w);
    LastRelease(cfg, w, h);
    UnaskedStaysStopped(cfg, Step(cfg, w, Release(h)), events, u);
    StoppedStartsAnew(cfg, u, request, outcome);
  }

  lemma DeferredOnlyWhileHeld(cfg: Config, w: World)
    requires Reachable(cfg, w)
    ensures w.child.restartAtIdle ==> w.holds.Keys != {}
    ensures w.child.inflight == |w.holds|
  {
    ReachableInv(cfg, w);
  }

  // ----- listings -----

  /** A listing served from the cache was read from the very session it is served for. */
  lemma ServedListingIsOwn(cfg: Config, w: World, s: SessionId)
    requires Reachable(cfg, w) && CachedListing(w.child, s).Some?
    ensures CachedListing(w.child, s).value.origin == s
  {
    ReachableInv(cfg, w);
  }
}
