/**
  The wrapper's `Child` object. Every method is one mutex-guarded region and is
  proved to do to the fields what its `ChildSpec` function says.
 */
module Child {
  import opened Common
  import opened Fingerprints
  import opened ChildSpec

  /** A growable slice of crash times that is compacted in place. */
  class RestartLog {
    var buf: array<Time>
    var count: nat

    ghost predicate Valid()
      reads this
    {
      count <= buf.Length
    }

    ghost function Entries(): seq<Time>
      requires Valid()
      reads this, buf
    {
      buf[..count]
    }

    constructor ()
      ensures Valid() && fresh(buf)
      ensures Entries() == []
    {
      buf := new Time[0];
      count := 0;
    }

    method Append(t: Time)
      requires Valid()
      modifies this, buf
      ensures Valid() && (buf == old(buf) || fresh(buf))
      ensures Entries() == old(Entries()) + [t]
    {
      if count == buf.Length {
        var bigger := new Time[2 * count + 1];
        forall i | 0 <= i < count {
          bigger[i] := buf[i];
        }
        assert bigger[..count] == old(Entries());
        buf := bigger;
      }
      buf[count] := t;
      count := count + 1;
      assert buf[..count] == buf[..count - 1] + [t];
    }

    /** Keeps the entries later than the cutoff, sliding them to the front of the same array. */
    method Compact(cutoff: Time)
      requires Valid()
      modifies this`count, buf
      ensures Valid() && buf == old(buf)
      ensures Entries() == After(old(Entries()), cutoff)
    {
      ghost var was := Entries();
      var kept := 0;
      var read := 0;
      while read < count
        invariant 0 <= kept <= read <= count == |was|
        invariant buf[..kept] == After(was[..read], cutoff)
        invariant forall i :: read <= i < count ==> buf[i] == was[i]
      {
        var t := buf[read];
        ghost var front := buf[..kept];
        assert was[..read + 1][..read] == was[..read];
        if t > cutoff {
          buf[kept] := t;
          kept := kept + 1;
          assert buf[..kept] == front + [t];
        }
        read := read + 1;
      }
      assert was[..count] == was;
      count := kept;
    }
  }

  class Child {
    const cfg: Config
    const log: RestartLog
    var session: Option<SessionId>
    var token: string
    var secretsFP: Fingerprint
    var generation: nat
    var inflight: nat
    var restartAtIdle: bool
    var lists: Option<Listing>
    var listsGen: nat

    ghost predicate Valid()
      reads this, log
    {
      log.Valid()
    }

    ghost function State(): ChildState
      requires Valid()
      reads this, log, log.buf
    {
      ChildState(session, Credentials(token, secretsFP), log.Entries(), generation, inflight, restartAtIdle,
                 lists, listsGen)
    }

    constructor (cfg: Config)
      ensures Valid() && fresh(log) && fresh(log.buf) && this.cfg == cfg
      ensures State() == FRESH
    {
      this.cfg := cfg;
      log := new RestartLog();
      session, lists := None, None;
      token, secretsFP := "", NoSecrets;
      generation, inflight, listsGen := 0, 0, 0;
      restartAtIdle := false;
    }

    method RestartAllowedLocked(now: Time) returns (allowed: bool)
      requires Valid()
      modifies log, log.buf
      ensures Valid() && log.buf == old(log.buf)
      ensures State() == Pruned(cfg, old(State()), now)
      ensures allowed == WithinBudget(cfg, State())
    {
      log.Compact(now - cfg.Window());
      allowed := log.count <= cfg.MaxRestarts();
    }

    method StopLocked()
      requires Valid()
      modifies this
      ensures Valid() && State() == Stopped(old(State()))
    {
      session := None;
      generation := generation + 1;
    }

    /** Starts the process; a failed connection is recorded when it is noticed. */
    method StartLocked(request: Credentials, now: Time, outcome: StartOutcome) returns (started: bool)
      requires Valid()
      modifies this, log, log.buf
      ensures Valid() && (log.buf == old(log.buf) || fresh(log.buf))
      ensures started == outcome.Started?
      ensures outcome.Refused? ==> State() == old(State())
      ensures outcome.ConnectFailed? ==>
                State() == old(State()).(restarts := old(State()).restarts + [now + outcome.took])
      ensures outcome.Started? ==>
                State() == old(State()).(session := Some(outcome.session), generation := old(generation) + 1,
                                         credentials := Credentials(request.token, old(secretsFP)))
    {
      match outcome
      case Refused =>
        started := false;
      case ConnectFailed(took) =>
        log.Append(now + took);
        started := false;
      case Started(_, s) =>
        generation := generation + 1;
        session := Some(s);
        token := request.token;
        started := true;
    }

    /** The part of `SessionLocked` that runs when there is no session. */
    method LaunchLocked(request: Credentials, now: Time, outcome: StartOutcome)
      returns (r: Result<SessionId, SessionError>)
      requires Valid()
      modifies this, log, log.buf
      ensures Valid() && (log.buf == old(log.buf) || fresh(log.buf))
      ensures (State(), r) == Launch(cfg, old(State()), request, now, outcome)
    {
      var allowed := RestartAllowedLocked(now);
      if !allowed {
        return Failure(RestartBudget);
      }
      var started := StartLocked(request, now, outcome);
      if !started {
        return Failure(StartFailed);
      }
      secretsFP := request.secrets;
      r := Success(session.value);
    }

    method SessionLocked(request: Credentials, now: Time, outcome: StartOutcome)
      returns (r: Result<SessionId, SessionError>)
      requires Valid()
      modifies this, log, log.buf
      ensures Valid() && (log.buf == old(log.buf) || fresh(log.buf))
      ensures (State(), r) == SessionFor(cfg, old(State()), request, now, outcome)
    {
      if session.Some? {
        if (cfg.envTokens && request.token != "" && request.token != token)
           || (request.secrets != NoSecrets && request.secrets != secretsFP)
        {
          if inflight == 0 {
            StopLocked();
          } else {
            restartAtIdle := true;
            return Success(session.value);
          }
        } else {
          return Success(session.value);
        }
      }
      r := LaunchLocked(request, now, outcome);
    }

    method Acquire(request: Credentials, now: Time, outcome: StartOutcome)
      returns (r: Result<SessionId, SessionError>)
      requires Valid()
      modifies this, log, log.buf
      ensures Valid() && (log.buf == old(log.buf) || fresh(log.buf))
      ensures (State(), r) == Acquired(cfg, old(State()), request, now, outcome)
    {
      r := SessionLocked(request, now, outcome);
      if r.Success? {
        inflight := inflight + 1;
      }
    }

    method Begin()
      requires Valid()
      modifies this
      ensures Valid() && State() == Begun(old(State()))
    {
      inflight := inflight + 1;
    }

    method End()
      requires Valid()
      modifies this
      ensures Valid() && State() == Ended(old(State()))
    {
      if inflight > 0 {
        inflight := inflight - 1;
      }
      if inflight == 0 && restartAtIdle {
        restartAtIdle := false;
        StopLocked();
      }
    }

    method WaitExit(gen: nat, now: Time)
      requires Valid()
      modifies this, log, log.buf
      ensures Valid() && (log.buf == old(log.buf) || fresh(log.buf))
      ensures State() == Exited(old(State()), gen, now)
    {
      if generation != gen {
        return;
      }
      log.Append(now);
      session := None;
    }

    method LookupLists(sess: SessionId) returns (cached: Option<Listing>, gen: nat)
      requires Valid()
      ensures cached == CachedListing(State(), sess)
      ensures gen == generation
    {
      gen := generation;
      cached := if lists.Some? && listsGen == generation && session == Some(sess) then lists else None;
    }

    method StoreLists(gen: nat, listing: Listing)
      requires Valid()
      modifies this
      ensures Valid() && State() == ListingStored(old(State()), gen, listing)
    {
      if generation == gen {
        lists, listsGen := Some(listing), gen;
      }
    }
  }
}
