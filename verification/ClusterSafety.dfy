/**
  What every step of the session lifecycle protocol keeps, and what follows for
  whole runs: no orphaned pods, and exactly when allowlist entries are orphaned.
 */
module ClusterSafety {
  import opened Common
  import opened Cluster

  ghost predicate Guarded(s: Slot) {
    s.session.Some? && s.session.value.finalizer
  }

  /** A version the reconciler may still read. */
  ghost predicate Readable(s: Slot, read: Session) {
    s.cached == Some(read) || Some(read) in s.pending
  }

  /** What a read of a session, however old, still says about the stored one. */
  ghost predicate ReadOf(session: Option<Session>, read: Session, next: nat) {
    && read.uid < next && read.version < next
    && (session.Some? ==>
          var now := session.value;
          && (read.version == now.version ==> read == now)
          && (read.uid == now.uid && read.Ending() ==> now.Ending())
          && (read.uid == now.uid && read.deleting ==> now.deleting))
  }

  /** In the order the cache will show them, a session that is ending stays so. */
  ghost predicate InOrder(versions: seq<Option<Session>>) {
    forall i, j :: 0 <= i < j < |versions| && versions[i].Some? && versions[j].Some? ==>
      versions[i].value.uid == versions[j].value.uid && versions[i].value.Ending() ==> versions[j].value.Ending()
  }

  ghost predicate Fresh(s: Slot, next: nat) {
    && (s.session.Some? ==>
          s.session.value.uid < next && s.session.value.version < next
          && (s.session.value.deleting ==> s.session.value.finalizer))
    && (forall read :: Readable(s, read) ==> ReadOf(s.session, read, next))
    && (s.running.Some? ==> ReadOf(s.session, s.running.value.sess, next))
    && InOrder([s.cached] + s.pending)
  }

  ghost predicate GuardedAs(s: Slot, uid: nat) {
    Guarded(s) && s.session.value.uid == uid
  }

  /** Whoever drives a session, now or from a later read, finds its finalizer in place. */
  ghost predicate Anchored(s: Slot) {
    && (forall read :: Readable(s, read) && read.Drivable() ==> GuardedAs(s, read.uid))
    && (s.running.Some? ==>
          var r := s.running.value;
          if r.Teardown() then
            r.sess.Ending() && (forall read :: Readable(s, read) && read.uid == r.sess.uid ==> read.Ending())
          else if r.AddFinalizer? then !r.sess.Ending()
          else r.sess.Drivable() && GuardedAs(s, r.sess.uid))
  }

  ghost predicate PodAccounted(s: Slot) {
    && (s.pod.Some? && !s.pod.value.deleting ==>
          GuardedAs(s, s.pod.value.owner) && s.isolation == Some(s.pod.value.owner))
    && (s.running.Some? && (s.running.value.Unpublish? || s.running.value.Finish?) ==>
          s.pod.Some? ==> s.pod.value.deleting)
    && Prepared(s)
  }

  ghost predicate SlotInv(s: Slot, next: nat) {
    Fresh(s, next) && Anchored(s) && PodAccounted(s)
  }

  ghost predicate Inv(c: Cluster) {
    c.allow.Valid() && forall n :: n in c.slots ==> SlotInv(c.slots[n], c.next)
  }

  // ----- how one name's objects move -----

  /** A stored session stays, goes, is new, or is the same one in a new version, as far on its way out as before. */
  ghost predicate Moves(before: Option<Session>, after: Option<Session>, next: nat) {
    || after == before
    || after.None?
    || (&& after.value.version == next
        && (after.value.deleting ==> after.value.finalizer)
        && (|| after.value.uid == next
            || (&& before.Some? && after.value.uid == before.value.uid
                && (before.value.Ending() ==> after.value.Ending())
                && (before.value.deleting ==> after.value.deleting))))
  }

  lemma CallMoves(s: Slot, r: Reconcile, ok: bool, typeFound: bool, view: PodView, next: nat)
    requires s.session.Some? && s.session.value.deleting ==> s.session.value.finalizer
    ensures Moves(s.session, Called(s, r, ok, typeFound, view, next).session, next)
  {
  }

  lemma SessionMoves(s: Slot, a: Action, next: nat)
    requires s.session.Some? && s.session.value.deleting ==> s.session.value.finalizer
    ensures Moves(s.session, Effected(s, a, next).session, next)
  {
    if a.Call? && s.running.Some? {
      CallMoves(s, s.running.value, a.ok, a.typeFound, a.pod, next);
    }
  }

  lemma ReadStays(before: Option<Session>, after: Option<Session>, read: Session, next: nat)
    requires ReadOf(before, read, next) && Moves(before, after, next)
    requires before.Some? ==> before.value.uid < next
    ensures ReadOf(after, read, next + 1)
  {
  }

  /** Nothing can be read that could not be read before or was not just stored. */
  lemma ReadableBefore(s: Slot, a: Action, next: nat, read: Session)
    requires Readable(SlotStep(s, a, next), read)
    ensures Readable(s, read) || SlotStep(s, a, next).session == Some(read)
  {
    var t := Effected(s, a, next);
    assert Readable(t, read) ==> Readable(s, read) || t.session == Some(read);
  }

  lemma SuffixInOrder(versions: seq<Option<Session>>, k: nat)
    requires InOrder(versions) && k <= |versions|
    ensures InOrder(versions[k..])
  {
  }

  lemma AppendInOrder(versions: seq<Option<Session>>, after: Option<Session>, next: nat)
    requires InOrder(versions)
    requires forall read :: Some(read) in versions ==> ReadOf(after, read, next)
    ensures InOrder(versions + [after])
  {
    var longer := versions + [after];
    forall i, j | 0 <= i < j < |longer| && longer[i].Some? && longer[j].Some?
      ensures longer[i].value.uid == longer[j].value.uid && longer[i].value.Ending() ==> longer[j].value.Ending()
    {
      assert Some(longer[i].value) in versions;
    }
  }

  /** What the cache will show, oldest first. */
  function Chain(s: Slot): seq<Option<Session>> {
    [s.cached] + s.pending
  }

  lemma EffectedInOrder(s: Slot, a: Action, next: nat)
    requires InOrder(Chain(s))
    ensures InOrder(Chain(Effected(s, a, next)))
  {
    var t := Effected(s, a, next);
    if a.Deliver? && a.skip < |s.pending| {
      SuffixInOrder(Chain(s), a.skip + 1);
      assert Chain(t) == Chain(s)[a.skip + 1..];
    } else if a.Relist? {
      assert Chain(t) == [s.session];
    } else {
      assert Chain(t) == Chain(s);
    }
  }

  lemma ReadsStay(s: Slot, a: Action, next: nat)
    requires Fresh(s, next)
    ensures forall read :: Readable(SlotStep(s, a, next), read) ==> ReadOf(SlotStep(s, a, next).session, read, next + 1)
  {
    var t := SlotStep(s, a, next);
    SessionMoves(s, a, next);
    forall read | Readable(t, read) ensures ReadOf(t.session, read, next + 1) {
      ReadableBefore(s, a, next, read);
      if Readable(s, read) {
        ReadStays(s.session, t.session, read, next);
      }
    }
  }

  lemma StepInOrder(s: Slot, a: Action, next: nat)
    requires Fresh(s, next)
    ensures InOrder(Chain(SlotStep(s, a, next)))
  {
    var t := Effected(s, a, next);
    EffectedInOrder(s, a, next);
    if t.session != s.session {
      SessionMoves(s, a, next);
      forall read | Some(read) in Chain(t) ensures ReadOf(t.session, read, next + 1) {
        assert Readable(s, read);
        ReadStays(s.session, t.session, read, next);
      }
      AppendInOrder(Chain(t), t.session, next + 1);
      assert Chain(SlotStep(s, a, next)) == Chain(t) + [t.session];
    }
  }

  /** A reconcile continues with what it read, with its own last write, or with what the cache shows. */
  lemma RunningBefore(s: Slot, a: Action, next: nat)
    requires SlotStep(s, a, next).running.Some?
    ensures var read := SlotStep(s, a, next).running.value.sess;
            || (s.running.Some? && s.running.value.sess == read)
            || SlotStep(s, a, next).session == Some(read)
            || s.cached == Some(read)
  {
  }

  lemma StepKeepsFresh(s: Slot, a: Action, next: nat)
    requires Fresh(s, next)
    ensures Fresh(SlotStep(s, a, next), next + 1)
  {
    var t := SlotStep(s, a, next);
    SessionMoves(s, a, next);
    ReadsStay(s, a, next);
    StepInOrder(s, a, next);
    if t.running.Some? {
      RunningBefore(s, a, next);
      assert s.cached == Some(t.running.value.sess) ==> Readable(s, t.running.value.sess);
      if s.running.Some? && s.running.value.sess == t.running.value.sess {
        ReadStays(s.session, t.session, t.running.value.sess, next);
      }
    }
  }

  /** The call that takes the finalizer away. */
  predicate Unguards(s: Slot, a: Action) {
    && a.Call? && a.ok && s.running.Some? && s.running.value.Finish?
    && s.running.value.sess.deleting && Current(s, s.running.value.sess.version)
  }

  lemma GuardStays(s: Slot, a: Action, next: nat)
    requires Guarded(s) && !Unguards(s, a)
    ensures GuardedAs(SlotStep(s, a, next), s.session.value.uid)
  {
  }

  /** That call meets nothing readable that could still be driven. */
  lemma UnguardsAlone(s: Slot, a: Action, next: nat, read: Session)
    requires Fresh(s, next) && Anchored(s) && Unguards(s, a) && Readable(s, read)
    ensures !read.Drivable()
  {
  }

  lemma StepKeepsReadsAnchored(s: Slot, a: Action, next: nat)
    requires Fresh(s, next) && Anchored(s)
    ensures var t := SlotStep(s, a, next);
            forall read :: Readable(t, read) && read.Drivable() ==> GuardedAs(t, read.uid)
  {
    var t := SlotStep(s, a, next);
    forall read | Readable(t, read) && read.Drivable() ensures GuardedAs(t, read.uid) {
      ReadableBefore(s, a, next, read);
      if Readable(s, read) {
        if Unguards(s, a) {
          UnguardsAlone(s, a, next, read);
        } else {
          GuardStays(s, a, next);
        }
      }
    }
  }

  /** Teardown of a session: all that can be read of it is ending. */
  ghost predicate AllEnding(s: Slot, uid: nat) {
    forall read :: Readable(s, read) && read.uid == uid ==> read.Ending()
  }

  lemma StartKeepsAllEnding(s: Slot)
    requires InOrder(Chain(s)) && s.cached.Some? && s.cached.value.Ending()
    ensures AllEnding(s, s.cached.value.uid)
  {
    forall read | Readable(s, read) && read.uid == s.cached.value.uid ensures read.Ending() {
      if s.cached != Some(read) {
        var i :| 0 <= i < |s.pending| && s.pending[i] == Some(read);
        assert Chain(s)[0] == s.cached && Chain(s)[i + 1] == Some(read);
      }
    }
  }

  lemma StepKeepsAllEnding(s: Slot, a: Action, next: nat, uid: nat)
    requires Fresh(s, next) && AllEnding(s, uid) && uid < next
    requires s.session.Some? && s.session.value.uid == uid ==> s.session.value.Ending()
    ensures AllEnding(SlotStep(s, a, next), uid)
  {
    var t := SlotStep(s, a, next);
    SessionMoves(s, a, next);
    forall read | Readable(t, read) && read.uid == uid ensures read.Ending() {
      ReadableBefore(s, a, next, read);
    }
  }

  /** The next step of a reconcile is of the same kind, on the same read or on the version it has just written. */
  lemma NextCall(s: Slot, a: Action, next: nat)
    requires SlotStep(s, a, next).running.Some?
    ensures var t := SlotStep(s, a, next);
            var r := t.running.value;
            || (s.running.None? && s.cached.Some? && a == Start && r == Entry(s.cached.value))
            || (&& s.running.Some?
                && r.Teardown() == s.running.value.Teardown() && r.AddFinalizer? == s.running.value.AddFinalizer?
                && (|| r.sess == s.running.value.sess
                    || (r.Teardown() && Current(s, s.running.value.sess.version) && t.session == Some(r.sess)
                        && r.sess == s.session.value.(phase := Terminating, version := next))))
  {
  }

  lemma StartKeepsAnchored(s: Slot, next: nat)
    requires Fresh(s, next) && Anchored(s) && s.running.None? && s.cached.Some?
    ensures Anchored(Then(s, Entry(s.cached.value)))
  {
    var t := Then(s, Entry(s.cached.value));
    assert Readable(s, s.cached.value);
    assert forall read :: Readable(t, read) <==> Readable(s, read);
    if s.cached.value.Ending() {
      StartKeepsAllEnding(s);
    }
  }

  lemma TeardownKeepsAnchored(s: Slot, a: Action, next: nat)
    requires Fresh(s, next) && Anchored(s) && s.running.Some? && s.running.value.Teardown()
    requires SlotStep(s, a, next).running.Some?
    ensures var t := SlotStep(s, a, next);
            t.running.value.sess.Ending() && AllEnding(t, t.running.value.sess.uid)
  {
    NextCall(s, a, next);
    StepKeepsAllEnding(s, a, next, s.running.value.sess.uid);
  }

  lemma StepKeepsAnchored(s: Slot, a: Action, next: nat)
    requires Fresh(s, next) && Anchored(s)
    ensures Anchored(SlotStep(s, a, next))
  {
    var t := SlotStep(s, a, next);
    StepKeepsReadsAnchored(s, a, next);
    if t.running.Some? {
      NextCall(s, a, next);
      if s.running.None? {
        StartKeepsAnchored(s, next);
      } else if s.running.value.Teardown() {
        TeardownKeepsAnchored(s, a, next);
      } else if !s.running.value.AddFinalizer? {
        GuardStays(s, a, next);
      }
    }
  }

  lemma StepKeepsOwned(s: Slot, a: Action, next: nat)
    requires SlotInv(s, next)
    ensures var t := SlotStep(s, a, next);
            t.pod.Some? && !t.pod.value.deleting ==>
              GuardedAs(t, t.pod.value.owner) && t.isolation == Some(t.pod.value.owner)
  {
    if Guarded(s) && !Unguards(s, a) {
      GuardStays(s, a, next);
    }
  }

  lemma StepKeepsCleared(s: Slot, a: Action, next: nat)
    requires SlotInv(s, next)
    ensures var t := SlotStep(s, a, next);
            t.running.Some? && (t.running.value.Unpublish? || t.running.value.Finish?) ==>
              t.pod.Some? ==> t.pod.value.deleting
  {
  }

  /** A reconcile about to create a pod finds the isolation objects of its session. */
  ghost predicate Prepared(s: Slot) {
    s.running.Some? && (s.running.value.GetPod? || s.running.value.CreatePod?) ==>
      s.isolation == Some(s.running.value.sess.uid)
  }

  lemma StepKeepsPrepared(s: Slot, a: Action, next: nat)
    requires Prepared(s)
    requires s.running.Some? && (s.running.value.GetPod? || s.running.value.CreatePod?) ==>
               GuardedAs(s, s.running.value.sess.uid)
    ensures Prepared(SlotStep(s, a, next))
  {
  }

  lemma SlotStepKeeps(s: Slot, a: Action, next: nat)
    requires SlotInv(s, next)
    ensures SlotInv(SlotStep(s, a, next), next + 1)
  {
    StepKeepsFresh(s, a, next);
    StepKeepsAnchored(s, a, next);
    StepKeepsOwned(s, a, next);
    StepKeepsCleared(s, a, next);
    StepKeepsPrepared(s, a, next);
  }

  lemma Later(s: Slot, next: nat)
    requires SlotInv(s, next)
    ensures SlotInv(s, next + 1)
  {
  }

  lemma StepKeeps(c: Cluster, e: Event)
    requires Inv(c)
    ensures Inv(Step(c, e))
  {
    var d := Step(c, e);
    if e.action.DeliverAllow? {
      c.allow.DeliverKeeps(e.action.skip);
    } else {
      c.allow.WriteKeeps(Desired(c.allow.cached, e.name, At(c, e.name), e.action));
    }
    forall n | n in d.slots ensures SlotInv(d.slots[n], d.next) {
      if n == e.name && !e.action.DeliverAllow? {
        SlotStepKeeps(At(c, n), Outcome(c, e), c.next);
      } else {
        Later(c.slots[n], c.next);
      }
    }
  }

  lemma {:induction false} RunKeeps(c: Cluster, events: seq<Event>)
    requires Inv(c)
    ensures Inv(Run(c, events))
    decreases |events|
  {
    if events != [] {
      StepKeeps(c, events[0]);
      RunKeeps(Step(c, events[0]), events[1..]);
    }
  }

  // ----- no orphans -----

  /**
    However the actors interleave, a pod that is not being deleted belongs to the
    existing session of its name, which carries the finalizer, and it is under
    isolation objects of that session.
   */
  lemma NeverOrphans(events: seq<Event>, n: Name)
    ensures var s := At(Run(INITIAL, events), n);
            s.pod.Some? && !s.pod.value.deleting ==>
              && s.session.Some? && s.session.value.finalizer
              && s.pod.value.owner == s.session.value.uid && s.isolation == Some(s.session.value.uid)
  {
    RunKeeps(INITIAL, events);
  }

  /** Isolation objects are collected exactly if their session is gone. */
  lemma GarbageExactlyIf(s: Slot, next: nat)
    requires s.isolation.Some?
    ensures SlotStep(s, CollectGarbage, next).isolation ==
            if s.session.Some? && s.session.value.uid == s.isolation.value then s.isolation else None
  {
  }

  /** Published entries name guarded sessions, and none whose teardown has withdrawn its entries. */
  ghost predicate AllowAccounted(c: Cluster) {
    forall ip :: ip in c.allow.present.content ==>
      var s := At(c, c.allow.present.content[ip]);
      Guarded(s) && !(s.running.Some? && s.running.value.Finish?)
  }

  /** The event is a teardown's successful withdrawal. */
  predicate Withdraws(c: Cluster, e: Event) {
    var s := At(c, e.name);
    Outcome(c, e).Call? && Outcome(c, e).ok && s.running.Some? && s.running.value.Unpublish?
  }

  /** If the name has entries, the cached allowlist shows one. */
  predicate Shows(c: Cluster, n: Name) {
    n in c.allow.present.content.Values ==> n in c.allow.cached.content.Values
  }

  /** A successful withdrawal leaves no entry behind exactly if the cache showed one or there was none. */
  lemma WithdrawnExactlyIfShown(c: Cluster, e: Event)
    requires Inv(c) && Withdraws(c, e)
    ensures e.name !in Step(c, e).allow.present.content.Values <==> Shows(c, e.name)
  {
    var seen := c.allow.cached.content;
    if e.name in seen.Values {
      var ip :| ip in seen && seen[ip] == e.name;
      assert ip !in Without(seen, e.name);
    } else {
      assert Without(seen, e.name) == seen;
    }
  }

  /** The guard ends only in the name's own teardown, after its withdrawal. */
  lemma GuardEnds(s: Slot, a: Action, next: nat)
    requires Guarded(s) && !(s.running.Some? && s.running.value.Finish?)
    ensures Guarded(SlotStep(s, a, next))
    ensures var t := SlotStep(s, a, next);
            t.running.Some? && t.running.value.Finish? ==>
              a.Call? && a.ok && s.running.Some? && s.running.value.Unpublish?
  {
  }

  /** The allowlist gains entries only for a session that is being driven. */
  lemma AllowGains(c: Cluster, e: Event, ip: IP)
    requires Inv(c) && ip in Step(c, e).allow.present.content
    ensures var m := Step(c, e).allow.present.content[ip];
            || (ip in c.allow.present.content && c.allow.present.content[ip] == m)
            || (m == e.name && At(c, m).running.Some? && At(c, m).running.value.Publish?)
  {
  }

  lemma AllowStepKeeps(c: Cluster, e: Event)
    requires Inv(c) && AllowAccounted(c)
    requires Withdraws(c, e) ==> Shows(c, e.name)
    ensures AllowAccounted(Step(c, e))
  {
    var s, d := At(c, e.name), Step(c, e);
    forall ip | ip in d.allow.present.content
      ensures var t := At(d, d.allow.present.content[ip]); Guarded(t) && !(t.running.Some? && t.running.value.Finish?)
    {
      AllowGains(c, e, ip);
      if d.allow.present.content[ip] == e.name && !e.action.DeliverAllow? {
        if Withdraws(c, e) {
          WithdrawnExactlyIfShown(c, e);
        }
        GuardEnds(s, Outcome(c, e), c.next);
      }
    }
  }

  /** No withdrawal in the run misses an entry that the cache does not show yet. */
  ghost predicate Attentive(c: Cluster, events: seq<Event>)
    decreases |events|
  {
    events == [] ||
    ((Withdraws(c, events[0]) ==> Shows(c, events[0].name)) && Attentive(Step(c, events[0]), events[1..]))
  }

  lemma {:induction false} RunKeepsAllow(c: Cluster, events: seq<Event>)
    requires Inv(c) && AllowAccounted(c) && Attentive(c, events)
    ensures AllowAccounted(Run(c, events))
    decreases |events|
  {
    if events != [] {
      StepKeeps(c, events[0]);
      AllowStepKeeps(c, events[0]);
      RunKeepsAllow(Step(c, events[0]), events[1..]);
    }
  }

  /** Then every published entry belongs to an existing session that carries the finalizer. */
  lemma NeverOrphanEntries(events: seq<Event>, ip: IP)
    requires Attentive(INITIAL, events)
    ensures var c := Run(INITIAL, events);
            ip in c.allow.present.content ==>
              var s := At(c, c.allow.present.content[ip]); s.session.Some? && s.session.value.finalizer
  {
    RunKeepsAllow(INITIAL, events);
  }

  /**
    Where a teardown comes to its withdrawal with a current read of a deleted session,
    two more successful calls remove the session, and an entry outlives it exactly if
    the cached allowlist did not show it.
   */
  lemma EntryOutlivesExactlyIfMissed(c: Cluster, n: Name, sess: Session)
    requires Inv(c) && At(c, n).running == Some(Unpublish(sess)) && At(c, n).session == Some(sess)
    requires sess.deleting && Withdraws(c, Event(n, SUCCEED))
    ensures var d := Step(Step(c, Event(n, SUCCEED)), Event(n, SUCCEED));
            At(d, n).session.None? && (n in d.allow.present.content.Values <==> !Shows(c, n))
  {
    WithdrawnExactlyIfShown(c, Event(n, SUCCEED));
  }
}
