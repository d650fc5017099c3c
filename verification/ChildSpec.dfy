/**
  What each mutex-guarded region of the wrapper's `Child` does to its fields,
  as a function of the old fields. The clock and the outcome of starting a
  process are inputs.
 */
module ChildSpec {
  import opened Common
  import opened Fingerprints

  type SessionId = nat

  datatype Config = Config(envTokens: bool, configuredMax: nat, configuredWindow: nat)
  {
    /** Zero means the default of five restarts. */
    function MaxRestarts(): nat {
      if configuredMax == 0 then 5 else configuredMax
    }

    /** Zero means the default of ten minutes. */
    function Window(): (w: nat)
      ensures w > 0
    {
      if configuredWindow == 0 then 10 * 60 * 1000 else configuredWindow
    }
  }

  /** What a request carries and what a child reads once, when it starts. */
  datatype Credentials = Credentials(token: string, secrets: Fingerprint)

  /** A snapshot of what a child advertises, tagged with the session it was read from. */
  datatype Listing = Listing(origin: SessionId, body: nat)

  /** How an attempt to start a child ends; `took` is the time it needs. */
  datatype StartOutcome =
    | Refused                                 // fails before the process is connected
    | ConnectFailed(took: nat)
    | Started(took: nat, session: SessionId)

  datatype SessionError = RestartBudget | StartFailed

  datatype ChildState = ChildState(
    session: Option<SessionId>,
    credentials: Credentials,
    restarts: seq<Time>,
    generation: nat,
    inflight: nat,
    restartAtIdle: bool,
    lists: Option<Listing>,
    listsGen: nat)

  const FRESH := ChildState(None, Credentials("", NoSecrets), [], 0, 0, false, None, 0)

  /** The recorded times later than the cutoff, in order. */
  function After(times: seq<Time>, cutoff: Time): (kept: seq<Time>)
    ensures |kept| <= |times|
  {
    if times == [] then []
    else
      var kept := After(times[..|times| - 1], cutoff);
      if times[|times| - 1] > cutoff then kept + [times[|times| - 1]] else kept
  }

  /** The budget check forgets what left the window, then counts what remains. */
  function Pruned(cfg: Config, c: ChildState, now: Time): ChildState {
    c.(restarts := After(c.restarts, now - cfg.Window()))
  }

  predicate WithinBudget(cfg: Config, c: ChildState) {
    |c.restarts| <= cfg.MaxRestarts()
  }

  function Stopped(c: ChildState): ChildState {
    c.(session := None, generation := c.generation + 1)
  }

  /** The request brings a token or secrets the running child does not have. */
  predicate Rotates(cfg: Config, c: ChildState, request: Credentials) {
    || (cfg.envTokens && request.token != "" && request.token != c.credentials.token)
    || (request.secrets != NoSecrets && request.secrets != c.credentials.secrets)
  }

  /** Budget check and start, for a child without a session. */
  function Launch(cfg: Config, c: ChildState, request: Credentials, now: Time, outcome: StartOutcome)
    : (ChildState, Result<SessionId, SessionError>)
  {
    var checked := Pruned(cfg, c, now);
    if !WithinBudget(cfg, checked) then (checked, Failure(RestartBudget))
    else
      match outcome
      case Refused => (checked, Failure(StartFailed))
      case ConnectFailed(took) =>
        (checked.(restarts := checked.restarts + [now + took]), Failure(StartFailed))
      case Started(_, session) =>
        (checked.(session := Some(session), credentials := request, generation := checked.generation + 1),
         Success(session))
  }

  /** `sessionLocked`: the session for a request, starting or rotating the child as needed. */
  function SessionFor(cfg: Config, c: ChildState, request: Credentials, now: Time, outcome: StartOutcome)
    : (ChildState, Result<SessionId, SessionError>)
  {
    if c.session.None? then Launch(cfg, c, request, now, outcome)
    else if !Rotates(cfg, c, request) then (c, Success(c.session.value))
    else if c.inflight > 0 then (c.(restartAtIdle := true), Success(c.session.value))
    else Launch(cfg, Stopped(c), request, now, outcome)
  }

  /** A successful `SessionFor` also takes an in-flight hold. */
  function Acquired(cfg: Config, c: ChildState, request: Credentials, now: Time, outcome: StartOutcome)
    : (ChildState, Result<SessionId, SessionError>)
  {
    var (c', r) := SessionFor(cfg, c, request, now, outcome);
    if r.Success? then (c'.(inflight := c'.inflight + 1), r) else (c', r)
  }

  function Begun(c: ChildState): ChildState {
    c.(inflight := c.inflight + 1)
  }

  function Ended(c: ChildState): ChildState {
    var d := if c.inflight > 0 then c.(inflight := c.inflight - 1) else c;
    if d.inflight == 0 && d.restartAtIdle then Stopped(d.(restartAtIdle := false)) else d
  }

  /** The exit watcher of generation `gen`. */
  function Exited(c: ChildState, gen: nat, now: Time): ChildState {
    if c.generation != gen then c
    else c.(restarts := c.restarts + [now], session := None)
  }

  /** The listing a lookup may serve without asking the child. */
  function CachedListing(c: ChildState, session: SessionId): Option<Listing> {
    if c.lists.Some? && c.listsGen == c.generation && c.session == Some(session) then c.lists else None
  }

  /** Storing a listing fetched while the generation was `gen`. */
  function ListingStored(c: ChildState, gen: nat, listing: Listing): ChildState {
    if c.generation == gen then c.(lists := Some(listing), listsGen := gen) else c
  }

  // ----- what a caller gets -----

  /** Zero stands for the defaults of five restarts and ten minutes, anything else for itself. */
  lemma Defaults(cfg: Config)
    ensures cfg.MaxRestarts() == if cfg.configuredMax > 0 then cfg.configuredMax else 5
    ensures cfg.Window() == if cfg.configuredWindow > 0 then cfg.configuredWindow else 600000
  {
  }

  /** Every credential the request brings is the one the child was started with. */
  predicate Matches(cfg: Config, running: Credentials, request: Credentials) {
    && (cfg.envTokens && request.token != "" ==> running.token == request.token)
    && (request.secrets != NoSecrets ==> running.secrets == request.secrets)
  }

  /** A running child with the request's credentials is reused as it is. */
  lemma MatchingIsReused(cfg: Config, c: ChildState, request: Credentials, now: Time, outcome: StartOutcome)
    requires c.session.Some? && Matches(cfg, c.credentials, request)
    ensures SessionFor(cfg, c, request, now, outcome) == (c, Success(c.session.value))
  {
  }

  /** One with other credentials is returned only while it is in use, and is then to be restarted when idle. */
  lemma OthersAreReplaced(cfg: Config, c: ChildState, request: Credentials, now: Time, outcome: StartOutcome)
    requires c.session.Some? && !Matches(cfg, c.credentials, request)
    ensures var (d, r) := SessionFor(cfg, c, request, now, outcome);
            && (c.inflight > 0 ==> r == Success(c.session.value) && d == c.(restartAtIdle := true))
            && (c.inflight == 0 ==>
                  && d.generation > c.generation
                  && d.session == (if r.Success? then Some(r.value) else None)
                  && (r.Success? ==> outcome.Started? && r.value == outcome.session && d.credentials == request))
  {
  }

  /** Without a session one is started exactly if the budget permits and the process comes up. */
  lemma StartedExactlyIf(cfg: Config, c: ChildState, request: Credentials, now: Time, outcome: StartOutcome)
    requires c.session.None?
    ensures var (d, r) := SessionFor(cfg, c, request, now, outcome);
            var few := |After(c.restarts, now - cfg.Window())| <= cfg.MaxRestarts();
            && (r == Failure(RestartBudget) <==> !few)
            && (r.Success? <==> few && outcome.Started?)
            && (r.Success? ==> r.value == outcome.session && d.session == Some(r.value) && d.credentials == request)
            && (r.Failure? ==> d.session.None? && d.generation == c.generation)
  {
  }

  /** A listing stored for the current generation is served to its session, until the generation changes. */
  lemma StoredIsServed(c: ChildState, session: SessionId, listing: Listing)
    requires c.session == Some(session)
    ensures CachedListing(ListingStored(c, c.generation, listing), session) == Some(listing)
    ensures forall gen: nat :: gen != c.generation ==> ListingStored(c, gen, listing) == c
    ensures CachedListing(Stopped(ListingStored(c, c.generation, listing)), session).None?
  {
  }

  // ----- facts about the window -----

  ghost predicate Ascending(times: seq<Time>) {
    forall i, j :: 0 <= i <= j < |times| ==> times[i] <= times[j]
  }

  /** Pruning keeps every time later than the cutoff as often as it was recorded, and no other. */
  lemma {:induction false} AfterMeans(times: seq<Time>, cutoff: Time, t: Time)
    ensures multiset(After(times, cutoff))[t] == if t > cutoff then multiset(times)[t] else 0
  {
    if times != [] {
      AfterMeans(times[..|times| - 1], cutoff, t);
      assert times == times[..|times| - 1] + [times[|times| - 1]];
    }
  }

  /** Pruning twice keeps what pruning at the later cutoff keeps. */
  lemma {:induction false} AfterAfter(times: seq<Time>, earlier: Time, later: Time)
    requires earlier <= later
    ensures After(After(times, earlier), later) == After(times, later)
  {
    if times != [] {
      AfterAfter(times[..|times| - 1], earlier, later);
      var kept := After(times[..|times| - 1], earlier);
      if times[|times| - 1] > earlier {
        assert (kept + [times[|times| - 1]])[..|kept|] == kept;
      }
    }
  }

  /** Appending a time beyond the cutoff commutes with pruning. */
  lemma AfterAppend(times: seq<Time>, t: Time, cutoff: Time)
    requires t > cutoff
    ensures After(times + [t], cutoff) == After(times, cutoff) + [t]
  {
    assert (times + [t])[..|times|] == times;
  }

  /** If at most `n` ascending times are beyond the cutoff, the (n+1)-st from the end is not. */
  lemma {:induction false} FewAfter(times: seq<Time>, cutoff: Time, n: nat)
    requires Ascending(times)
    requires |After(times, cutoff)| <= n < |times|
    ensures times[|times| - 1 - n] <= cutoff
  {
    var init, last := times[..|times| - 1], times[|times| - 1];
    if last > cutoff {
      FewAfter(init, cutoff, n - 1);
    } 
  }
}
