/** The reaper: which sessions a sweep terminates, and what protects a session that is in use. */
module Reaper {
  import opened Common
  import opened Routing

  datatype Session = Session(name: string, key: PodKey, desired: Phase, deleting: bool, phase: Phase,
                             created: Time, readyAt: Option<Time>)

  datatype ServerType = ServerType(maxAge: Time, idleTimeout: Time)

  datatype Reason = TypeRemoved | StartFailed | HardAge | Age | IdleTimeout

  datatype Verdict = Keep | MarkIdle | Terminate(reason: Reason)

  const HARD_GRACE := 15 * 60 * 1000

  predicate Ending(s: Session) {
    s.desired == Terminating || s.deleting
  }

  predicate Running(s: Session) {
    s.phase == Ready || s.phase == Idle
  }

  /** The time of the last request or, if none is known, of becoming ready or of creation. */
  function LastUse(s: Session, last: Option<Time>): Time {
    if last.Some? then last.value
    else if s.readyAt.Some? then s.readyAt.value
    else s.created
  }

  /** Too old, or unused for too long and not protected by a request. */
  ghost predicate Overdue(s: Session, t: ServerType, count: int, last: Option<Time>, now: Time) {
    || now - s.created > t.maxAge + HARD_GRACE
    || (count == 0 && (now - s.created > t.maxAge || now - LastUse(s, last) > t.idleTimeout))
  }

  /** The sessions to terminate, given what the table says of their counter and of their last use. */
  ghost predicate Condemned(s: Session, types: map<string, ServerType>, count: int, last: Option<Time>, now: Time) {
    && !Ending(s)
    && (|| s.key.serverType !in types
        || s.phase == Failed
        || (Running(s) && Overdue(s, types[s.key.serverType], count, last, now)))
  }

  /** The table is asked only for running sessions of existing types. */
  predicate Asks(s: Session, types: map<string, ServerType>) {
    !Ending(s) && s.key.serverType in types && Running(s)
  }

  /** The decision on one session. */
  method Decide(s: Session, types: map<string, ServerType>, now: Time, inflight: int, last: Option<Time>)
    returns (v: Verdict)
    ensures v.Terminate? <==> Condemned(s, types, inflight, last, now)
    ensures v == MarkIdle <==>
            && Asks(s, types) && s.phase == Ready && !v.Terminate?
            && now - LastUse(s, last) > types[s.key.serverType].idleTimeout
  {
    if Ending(s) {
      return Keep;
    }
    if s.key.serverType !in types {
      return Terminate(TypeRemoved);
    }
    var t := types[s.key.serverType];
    if s.phase == Failed {
      return Terminate(StartFailed);
    }
    if !Running(s) {
      return Keep;
    }
    var age := now - s.created;
    if age > t.maxAge + HARD_GRACE {
      return Terminate(HardAge);
    }
    if age > t.maxAge && inflight == 0 {
      return Terminate(Age);
    }
    var since := if last.Some? then last.value else if s.readyAt.Some? then s.readyAt.value else s.created;
    var idle := now - since;
    if idle > t.idleTimeout && inflight == 0 {
      return Terminate(IdleTimeout);
    }
    if idle > t.idleTimeout && s.phase != Idle {
      return MarkIdle;
    }
    return Keep;
  }

  /** What becomes of a session: an idle mark changes its phase, a termination what is desired, if it is recorded. */
  predicate Treated(s: Session, v: Verdict, updated: bool, after: Session) {
    && after.(phase := s.phase, desired := s.desired) == s
    && after.phase == (if v.MarkIdle? && updated then Idle else s.phase)
    && after.desired == (if v.Terminate? && updated then Terminating else s.desired)
  }

  /** So a session changes in at most one field, and only if the update succeeds. */
  lemma TreatedMeans(s: Session, v: Verdict, updated: bool, after: Session)
    ensures Treated(s, v, updated, after) <==>
            after == if !updated then s
                     else match v
                       case Keep => s
                       case MarkIdle => s.(phase := Idle)
                       case Terminate(_) => s.(desired := Terminating)
  {
    assert after.(phase := s.phase, desired := s.desired) == s ==>
        after == s.(phase := after.phase, desired := after.desired);
  }

  /** Writes the verdict to the session object. */
  method Write(s: Session, v: Verdict, updated: bool) returns (after: Session)
    ensures Treated(s, v, updated, after)
  {
    after := s;
    if updated {
      match v
      case Keep =>
      case MarkIdle => after := s.(phase := Idle);
      case Terminate(_) => after := s.(desired := Terminating);
    }
  }

  /** The conditions for termination, written out over the fields. */
  lemma CondemnedMeans(s: Session, types: map<string, ServerType>, count: int, last: Option<Time>, now: Time)
    ensures Condemned(s, types, count, last, now) <==>
            && s.desired != Terminating && !s.deleting
            && (s.key.serverType in types ==>
                  || s.phase == Failed
                  || (&& (s.phase == Ready || s.phase == Idle)
                      && (|| now > s.created + types[s.key.serverType].maxAge + 900000
                          || (&& count == 0
                              && (|| now > s.created + types[s.key.serverType].maxAge
                                  || now > types[s.key.serverType].idleTimeout +
                                           (if last.Some? then last.value
                                            else if s.readyAt.Some? then s.readyAt.value else s.created))))))
  {
  }

  lemma AsksMeans(s: Session, types: map<string, ServerType>)
    ensures Asks(s, types) <==>
            s.desired != Terminating && !s.deleting && s.key.serverType in types && s.phase in {Ready, Idle}
  {
  }

  /** A session that a sweep marked idle is not terminated by a later one while its counter protects it. */
  lemma IdleMarkProtects(s: Session, updated: bool, after: Session, types: map<string, ServerType>, count: int,
                         last: Option<Time>, now: Time)
    requires Treated(s, MarkIdle, updated, after) && Running(s) && s.key.serverType in types
    requires count != 0 && now - s.created <= types[s.key.serverType].maxAge + HARD_GRACE
    ensures !Condemned(after, types, count, last, now)
  {
  }

  /** A session whose termination was recorded is not visited again. */
  lemma TerminatedIsLeftAlone(s: Session, reason: Reason, after: Session, types: map<string, ServerType>, count: int,
                              last: Option<Time>, now: Time)
    requires Treated(s, Terminate(reason), true, after)
    ensures Ending(after) && !Asks(after, types) && !Condemned(after, types, count, last, now)
  {
  }
}
