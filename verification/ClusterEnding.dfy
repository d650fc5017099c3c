/** The end of a session: exactly when it is absorbing, that it completes, and runs that show what can go wrong. */
module ClusterEnding {
  import opened Common
  import opened Documents
  import opened Cluster
  import opened ClusterSafety

  /** Things only a reconcile driving a session may do, with the session it read. */
  datatype Effect = CreatesPod(uid: nat) | PublishesEntry(uid: nat) | ReportsReady(uid: nat)

  /** What the event makes the reconciler do, beyond moving on. */
  function EffectOf(c: Cluster, e: Event): Option<Effect> {
    var s, a := At(c, e.name), Outcome(c, e);
    if !(a.Call? && a.ok && s.running.Some?) then None
    else
      match s.running.value
      case CreatePod(sess) => if s.pod.None? then Some(CreatesPod(sess.uid)) else None
      case Publish(sess, _) => Some(PublishesEntry(sess.uid))
      case Report(sess, Ready) => if Current(s, sess.version) then Some(ReportsReady(sess.uid)) else None
      case _ => None
  }

  /**
    Nothing else has these effects: a session turns ready, a pod appears and an entry is added only in an event that
    counts as such, for the session it concerns.
   */
  lemma EffectsAreAll(c: Cluster, e: Event, ip: IP)
    requires c.allow.Valid() && !e.action.DeliverAllow?
    ensures var s, t := At(c, e.name), At(Step(c, e), e.name);
            && (t.session.Some? && t.session.value.phase == Ready && t.session != s.session
                && !(s.session.Some? && s.session.value.phase == Ready) ==>
                  EffectOf(c, e) == Some(ReportsReady(s.running.value.sess.uid)))
            && (s.pod.None? && t.pod.Some? ==> EffectOf(c, e) == Some(CreatesPod(t.pod.value.owner)))
    ensures var before, after := c.allow.present.content, Step(c, e).allow.present.content;
            ip in after && !(ip in before && before[ip] == after[ip]) ==>
              EffectOf(c, e).Some? && EffectOf(c, e).value.PublishesEntry? && after[ip] == e.name
  {
  }

  /** Some event of the run makes the reconciler act for this session. */
  ghost predicate Acts(c: Cluster, n: Name, uid: nat, events: seq<Event>)
    decreases |events|
  {
    && events != []
    && (|| ActsNow(c, n, uid, events[0])
        || Acts(Step(c, events[0]), n, uid, events[1..]))
  }

  predicate ActsNow(c: Cluster, n: Name, uid: nat, e: Event) {
    e.name == n && EffectOf(c, e).Some? && EffectOf(c, e).value.uid == uid
  }

  /** The rest of a reconcile at this point creates nothing, publishes nothing and reports nothing ready. */
  predicate Harmless(r: Reconcile) {
    || r.Teardown() || r.AddFinalizer? || r.Report?
    || ((r.GetType? || r.Isolate? || r.GetPod?) && r.sess.phase == Ready)
  }

  /** Reading this makes the reconciler act for the session. */
  predicate Stirring(read: Session, uid: nat) {
    read.uid == uid && read.Drivable() && read.phase != Ready
  }

  ghost predicate Over(s: Slot, uid: nat) {
    s.session.Some? && s.session.value.uid == uid ==> s.session.value.Ending()
  }

  /** The session is ending or gone, and neither the cache, now or later, nor a reconcile in progress makes it stir. */
  ghost predicate Quiet(s: Slot, uid: nat) {
    && Over(s, uid)
    && (forall read :: Readable(s, read) ==> !Stirring(read, uid))
    && (s.running.Some? && s.running.value.sess.uid == uid ==> Harmless(s.running.value))
  }

  /** The cache shows the end, and no earlier reconcile is in progress. */
  ghost predicate SeenEnding(s: Slot, uid: nat) {
    && s.cached.Some? && s.cached.value.uid == uid && s.cached.value.Ending()
    && (s.running.Some? && s.running.value.sess.uid == uid ==> s.running.value.Teardown())
  }

  lemma SeenIsQuiet(s: Slot, next: nat, uid: nat)
    requires SlotInv(s, next) && SeenEnding(s, uid)
    ensures Quiet(s, uid)
  {
    assert Readable(s, s.cached.value);
    StartKeepsAllEnding(s);
  }

  lemma RunningStaysHarmless(s: Slot, a: Action, next: nat, uid: nat)
    requires Quiet(s, uid) && uid < next
    ensures var t := SlotStep(s, a, next);
            t.running.Some? && t.running.value.sess.uid == uid ==> Harmless(t.running.value)
  {
    if s.cached.Some? {
      assert Readable(s, s.cached.value);
    }
  }

  lemma SlotStepKeepsQuiet(s: Slot, a: Action, next: nat, uid: nat)
    requires SlotInv(s, next) && Quiet(s, uid) && uid < next
    ensures Quiet(SlotStep(s, a, next), uid)
  {
    var t := SlotStep(s, a, next);
    SessionMoves(s, a, next);
    RunningStaysHarmless(s, a, next, uid);
    forall read | Readable(t, read) ensures !Stirring(read, uid) {
      ReadableBefore(s, a, next, read);
    }
  }

  lemma QuietDoesNotAct(c: Cluster, n: Name, uid: nat, e: Event)
    requires Inv(c) && Quiet(At(c, n), uid)
    ensures !ActsNow(c, n, uid, e)
  {
  }

  /**
    From then on no reconcile creates a pod for the session, publishes an
    allowlist entry for it or reports it ready, in any continuation.
   */
  lemma {:induction false} EndingIsAbsorbing(c: Cluster, n: Name, uid: nat, events: seq<Event>)
    requires Inv(c) && Quiet(At(c, n), uid) && uid < c.next
    ensures !Acts(c, n, uid, events) && Quiet(At(Run(c, events), n), uid)
    decreases |events|
  {
    if events != [] {
      var e, d := events[0], Step(c, events[0]);
      StepKeeps(c, e);
      QuietDoesNotAct(c, n, uid, e);
      if e.name == n && !e.action.DeliverAllow? {
        SlotStepKeepsQuiet(At(c, n), Outcome(c, e), c.next, uid);
      }
      EndingIsAbsorbing(d, n, uid, events[1..]);
    }
  }

  const SERVING := Call(true, true, Serving("10.0.0.1"))

  lemma ActsLater(c: Cluster, n: Name, uid: nat, e: Event, events: seq<Event>)
    requires Acts(Step(c, e), n, uid, events)
    ensures Acts(c, n, uid, [e] + events)
  {
    assert ([e] + events)[1..] == events;
  }

  function CallsBeforeActing(r: Reconcile): nat {
    if r.GetType? then 3 else if r.Isolate? then 2 else if r.GetPod? then 1 else 0
  }

  /** The cache catches up with the allowlist. */
  function CatchUp(c: Cluster): Action {
    DeliverAllow(if c.allow.pending == [] then 0 else |c.allow.pending| - 1)
  }

  /** A reconcile in progress that would create a pod or publish an entry next does so, once nothing is in its way. */
  lemma LastCallActs(c: Cluster, n: Name, uid: nat) returns (events: seq<Event>)
    requires At(c, n).running.Some? && At(c, n).running.value.sess.uid == uid
    requires At(c, n).running.value.CreatePod? || At(c, n).running.value.Publish?
    ensures Acts(c, n, uid, events)
  {
    var clear := Event(n, if At(c, n).running.value.CreatePod? then RemovePod else CatchUp(c));
    assert ActsNow(Step(c, clear), n, uid, Event(n, SERVING));
    assert Acts(Step(c, clear), n, uid, [Event(n, SERVING)]);
    ActsLater(c, n, uid, clear, [Event(n, SERVING)]);
    events := [clear] + [Event(n, SERVING)];
  }

  /** A reconcile that drives a session and has not ended yet can be let run until it acts. */
  lemma {:induction false} DrivingActs(c: Cluster, n: Name, uid: nat) returns (events: seq<Event>)
    requires At(c, n).running.Some? && At(c, n).running.value.sess.uid == uid && !Harmless(At(c, n).running.value)
    ensures Acts(c, n, uid, events)
    decreases CallsBeforeActing(At(c, n).running.value)
  {
    if At(c, n).running.value.CreatePod? || At(c, n).running.value.Publish? {
      events := LastCallActs(c, n, uid);
    } else {
      var later := DrivingActs(Step(c, Event(n, SERVING)), n, uid);
      ActsLater(c, n, uid, Event(n, SERVING), later);
      events := [Event(n, SERVING)] + later;
    }
  }

  /** From a cache that shows a stirring version, the reconciler can start over and act. */
  lemma CachedActs(c: Cluster, n: Name, uid: nat) returns (events: seq<Event>)
    requires At(c, n).cached.Some? && Stirring(At(c, n).cached.value, uid)
    ensures Acts(c, n, uid, events)
  {
    var d := Step(c, Event(n, Crash));
    events := DrivingActs(Step(d, Event(n, Start)), n, uid);
    ActsLater(d, n, uid, Event(n, Start), events);
    events := [Event(n, Start)] + events;
    ActsLater(c, n, uid, Event(n, Crash), events);
    events := [Event(n, Crash)] + events;
  }

  /** A stale version of an ended session, in the cache, on its way there or in a reconcile, can still be acted on. */
  lemma StaleReadActs(c: Cluster, n: Name, uid: nat) returns (events: seq<Event>)
    requires Over(At(c, n), uid) && !Quiet(At(c, n), uid)
    ensures Acts(c, n, uid, events)
  {
    var s := At(c, n);
    if s.running.Some? && s.running.value.sess.uid == uid && !Harmless(s.running.value) {
      events := DrivingActs(c, n, uid);
    } else {
      var read :| Readable(s, read) && Stirring(read, uid);
      if s.cached == Some(read) {
        events := CachedActs(c, n, uid);
      } else {
        var i :| 0 <= i < |s.pending| && s.pending[i] == Some(read);
        events := CachedActs(Step(c, Event(n, Deliver(i))), n, uid);
        ActsLater(c, n, uid, Event(n, Deliver(i)), events);
        events := [Event(n, Deliver(i))] + events;
      }
    }
  }

  /** Some continuation acts for the session. */
  ghost predicate MayAct(c: Cluster, n: Name, uid: nat) {
    exists events :: Acts(c, n, uid, events)
  }

  /** So the end of a session is absorbing exactly if no version that makes the reconciler stir is left. */
  lemma AbsorbingExactlyWhenQuiet(c: Cluster, n: Name, uid: nat)
    requires Inv(c) && uid < c.next && Over(At(c, n), uid)
    ensures MayAct(c, n, uid) <==> !Quiet(At(c, n), uid)
    ensures SeenEnding(At(c, n), uid) ==> Quiet(At(c, n), uid)
  {
    if SeenEnding(At(c, n), uid) {
      SeenIsQuiet(At(c, n), c.next, uid);
    }
    if Quiet(At(c, n), uid) {
      forall events ensures !Acts(c, n, uid, events) {
        EndingIsAbsorbing(c, n, uid, events);
      }
    } else {
      var events := StaleReadActs(c, n, uid);
    }
  }

  /** Even a reconcile that read the session before its end cannot report it ready afterwards. */
  lemma ReadyIsNeverReportedLate(c: Cluster, e: Event)
    requires Inv(c) && EffectOf(c, e).Some? && EffectOf(c, e).value.ReportsReady?
    ensures var s := At(c, e.name); s.session.Some? && s.session.value.Drivable()
  {
  }

  // ----- termination completes -----

  /** The cache catches up with the session and the allowlist. */
  function Refreshed(c: Cluster, n: Name): Cluster {
    Step(Step(c, Event(n, Relist)), Event(n, CatchUp(c)))
  }

  /** A teardown reconcile without a failing call, up to the withdrawal of entries ... */
  function Opened(c: Cluster, n: Name): Cluster {
    Step(Step(Step(c, Event(n, Start)), Event(n, SUCCEED)), Event(n, SUCCEED))
  }

  /** ... and its last two calls. */
  function Closed(c: Cluster, n: Name): Cluster {
    Step(Step(c, Event(n, SUCCEED)), Event(n, SUCCEED))
  }

  function CleanTeardown(c: Cluster, n: Name): Cluster {
    Closed(Opened(Refreshed(c, n), n), n)
  }

  lemma TeardownKeeps(c: Cluster, n: Name)
    requires Inv(c)
    ensures Inv(Refreshed(c, n)) && Inv(Opened(c, n)) && Inv(Closed(c, n))
  {
    StepKeeps(c, Event(n, Relist));
    StepKeeps(Step(c, Event(n, Relist)), Event(n, CatchUp(c)));
    StepKeeps(c, Event(n, Start));
    StepKeeps(Step(c, Event(n, Start)), Event(n, SUCCEED));
    StepKeeps(Step(Step(c, Event(n, Start)), Event(n, SUCCEED)), Event(n, SUCCEED));
    StepKeeps(c, Event(n, SUCCEED));
    StepKeeps(Step(c, Event(n, SUCCEED)), Event(n, SUCCEED));
  }

  lemma CleanTeardownKeeps(c: Cluster, n: Name)
    requires Inv(c)
    ensures Inv(CleanTeardown(c, n))
  {
    TeardownKeeps(c, n);
    TeardownKeeps(Refreshed(c, n), n);
    TeardownKeeps(Opened(Refreshed(c, n), n), n);
  }

  lemma Refreshes(c: Cluster, n: Name)
    requires c.allow.Valid()
    ensures var d := Refreshed(c, n);
            && At(d, n) == At(c, n).(cached := At(c, n).session, pending := [])
            && d.allow.cached == d.allow.present && d.allow.pending == []
  {
  }

  lemma Opens(c: Cluster, n: Name)
    requires At(c, n).running.None? && At(c, n).session.Some? && At(c, n).session.value.Ending()
    requires At(c, n).cached == At(c, n).session
    ensures var s, t := At(c, n), At(Opened(c, n), n);
            && t.session.Some? && t.session.value.deleting == s.session.value.deleting
            && t.session.value.finalizer == s.session.value.finalizer && t.session.value.phase == Terminating
            && t.running == Some(Unpublish(t.session.value))
            && (t.pod.Some? ==> t.pod.value.deleting)
            && Opened(c, n).allow == c.allow
  {
    assert At(Step(c, Event(n, Start)), n).running == Some(MarkStatus(At(c, n).session.value));
  }

  lemma Closes(c: Cluster, n: Name)
    requires At(c, n).session.Some? && At(c, n).running == Some(Unpublish(At(c, n).session.value))
    requires At(c, n).session.value.deleting ==> At(c, n).session.value.finalizer
    requires c.allow.cached == c.allow.present && c.allow.pending == []
    ensures var s, t := At(c, n), At(Closed(c, n), n);
            && t.running.None? && t.pod == s.pod
            && (t.session.Some? ==> !s.session.value.deleting && t.session.value.deleting)
            && n !in Closed(c, n).allow.present.content.Values
  {
    assert At(Step(c, Event(n, SUCCEED)), n).running == Some(Finish(At(c, n).session.value));
    assert n !in Step(c, Event(n, SUCCEED)).allow.present.content.Values;
  }

  /** It deletes the pod, withdraws the entries and brings the object one step closer to its removal. */
  lemma OneTeardown(c: Cluster, n: Name)
    requires Inv(c) && At(c, n).running.None? && At(c, n).session.Some? && At(c, n).session.value.Ending()
    ensures var d := CleanTeardown(c, n);
            && At(d, n).running.None?
            && (At(d, n).session.Some? ==> !At(c, n).session.value.deleting && At(d, n).session.value.deleting)
            && (At(d, n).pod.Some? ==> At(d, n).pod.value.deleting)
            && n !in d.allow.present.content.Values
  {
    Refreshes(c, n);
    Opens(Refreshed(c, n), n);
    Closes(Opened(Refreshed(c, n), n), n);
  }

  /** Two error-free reconciles of an ending session remove it together with everything that belongs to it. */
  lemma TwoReconcilesRemove(c: Cluster, n: Name)
    requires Inv(c) && At(c, n).running.None? && At(c, n).session.Some? && At(c, n).session.value.Ending()
    ensures var d := CleanTeardown(c, n);
            var last := if At(d, n).session.Some? then CleanTeardown(d, n) else d;
            && At(last, n).session.None?
            && (At(last, n).pod.Some? ==> At(last, n).pod.value.deleting)
            && n !in last.allow.present.content.Values
  {
    OneTeardown(c, n);
    CleanTeardownKeeps(c, n);
    var d := CleanTeardown(c, n);
    if At(d, n).session.Some? {
      OneTeardown(d, n);
    }
  }

  // ----- termination completes among other actors -----

  /** The stored session, if it is this one, is marked for deletion; or it is not this one. */
  ghost predicate Marked(s: Slot, uid: nat) {
    s.session.Some? && s.session.value.uid == uid ==> s.session.value.deleting
  }

  ghost predicate Gone(s: Slot, uid: nat) {
    s.session.Some? ==> s.session.value.uid != uid
  }

  lemma SlotStepKeepsEnd(s: Slot, a: Action, next: nat, uid: nat)
    requires SlotInv(s, next) && uid < next
    ensures Marked(s, uid) ==> Marked(SlotStep(s, a, next), uid)
    ensures Gone(s, uid) ==> Gone(SlotStep(s, a, next), uid)
  {
    SessionMoves(s, a, next);
  }

  /** No actor takes a deletion back or brings a removed session back. */
  lemma {:induction false} RunKeepsEnd(c: Cluster, n: Name, uid: nat, events: seq<Event>)
    requires Inv(c) && uid < c.next
    ensures Inv(Run(c, events)) && uid < Run(c, events).next
    ensures Marked(At(c, n), uid) ==> Marked(At(Run(c, events), n), uid)
    ensures Gone(At(c, n), uid) ==> Gone(At(Run(c, events), n), uid)
    decreases |events|
  {
    if events != [] {
      var e := events[0];
      StepKeeps(c, e);
      if e.name == n && !e.action.DeliverAllow? {
        SlotStepKeepsEnd(At(c, n), Outcome(c, e), c.next, uid);
      }
      RunKeepsEnd(Step(c, e), n, uid, events[1..]);
    }
  }

  /** The event is the successful last call of a teardown reconcile of this session. */
  predicate Finishes(c: Cluster, e: Event, uid: nat) {
    var s, a := At(c, e.name), Outcome(c, e);
    a.Call? && a.ok && s.running.Some? && s.running.value.Finish? && s.running.value.sess.uid == uid
  }

  lemma FinishMarks(c: Cluster, e: Event, uid: nat)
    requires Inv(c) && Finishes(c, e, uid)
    ensures Marked(At(Step(c, e), e.name), uid)
  {
  }

  lemma FinishRemoves(c: Cluster, e: Event, uid: nat)
    requires Inv(c) && Finishes(c, e, uid) && Marked(At(c, e.name), uid)
    requires Current(At(c, e.name), At(c, e.name).running.value.sess.version)
    ensures Gone(At(Step(c, e), e.name), uid)
  {
  }

  /** What a teardown has seen to by its last call. */
  lemma FinishIsClean(c: Cluster, e: Event, uid: nat)
    requires Inv(c) && Finishes(c, e, uid)
    ensures var s := At(Step(c, e), e.name); s.pod.Some? ==> s.pod.value.deleting
    ensures AllowAccounted(c) ==> e.name !in Step(c, e).allow.present.content.Values
  {
  }

  /**
    Whatever other actors do before, between, during and after them: a teardown reconcile that reaches its last call
    leaves the session marked for deletion or gone, and a second one that does so with a current read leaves it gone
    for good. Each then leaves no pod that is not being deleted and, if withdrawals are attentive, no entry.
   */
  lemma TwoFinishedTeardownsRemove(c: Cluster, uid: nat, first: Event, middle: seq<Event>, second: Event,
                                   rest: seq<Event>)
    requires Inv(c) && uid < c.next && first.name == second.name
    requires Finishes(c, first, uid)
    requires var d := Run(Step(c, first), middle);
             Finishes(d, second, uid) && Current(At(d, second.name), At(d, second.name).running.value.sess.version)
    ensures Marked(At(Step(c, first), first.name), uid)
    ensures var d := Step(Run(Step(c, first), middle), second);
            && Gone(At(d, first.name), uid) && Gone(At(Run(d, rest), first.name), uid)
            && (At(d, first.name).pod.Some? ==> At(d, first.name).pod.value.deleting)
            && (AllowAccounted(Run(Step(c, first), middle)) ==> first.name !in d.allow.present.content.Values)
  {
    FinishMarks(c, first, uid);
    StepKeeps(c, first);
    RunKeepsEnd(Step(c, first), first.name, uid, middle);
    var d := Run(Step(c, first), middle);
    FinishRemoves(d, second, uid);
    FinishIsClean(d, second, uid);
    StepKeeps(d, second);
    RunKeepsEnd(Step(d, second), first.name, uid, rest);
  }

  // ----- whose session a teardown ends -----

  /** A teardown ends the session it is for as long as that carries the finalizer: no other can take its place. */
  lemma GuardedIsNotReplaced(s: Slot, a: Action, next: nat)
    requires s.running.Some? && s.running.value.Teardown() && GuardedAs(s, s.running.value.sess.uid) && !Unguards(s, a)
    ensures GuardedAs(SlotStep(s, a, next), s.running.value.sess.uid)
  {
    GuardStays(s, a, next);
  }

  /**
    Once another session has taken its place, a teardown deletes that one exactly in a successful last call
    for a session it read as terminating but not deleted, because it deletes by name.
   */
  lemma TeardownEndsAnotherExactlyIf(s: Slot, a: Action, next: nat)
    requires Fresh(s, next) && a.Call? && s.running.Some? && s.running.value.Teardown()
    requires s.session.Some? && s.session.value.uid != s.running.value.sess.uid && !s.session.value.deleting
    ensures var t := SlotStep(s, a, next);
            (t.session.None? || t.session.value.deleting)
            <==> a.ok && s.running.value.Finish? && !s.running.value.sess.deleting
    ensures var t := SlotStep(s, a, next);
            t.session != s.session <==> a.ok && s.running.value.Finish? && !s.running.value.sess.deleting
  {
  }
}
