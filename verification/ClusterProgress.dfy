/** What a reconcile with a current read and successful calls makes of a session, case by case and on the way to ready. */
module ClusterProgress {
  import opened Common
  import opened Documents
  import opened Cluster
  import opened ClusterSafety

  /** Nothing is in progress and the cache shows the session and the allowlist as stored. */
  ghost predicate Settled(c: Cluster, n: Name) {
    && At(c, n).running.None? && At(c, n).session.Some? && At(c, n).cached == At(c, n).session
    && c.allow.cached == c.allow.present && c.allow.pending == []
  }

  /** The same call several times; once a reconcile is over, further calls do nothing. */
  function Calls(c: Cluster, n: Name, a: Action, k: nat): Cluster {
    if k == 0 then c else Step(Calls(c, n, a, k - 1), Event(n, a))
  }

  /** A whole reconcile whose calls succeed, and which finds the server type or not and the pod like this. */
  function Reconciled(c: Cluster, n: Name, typeFound: bool, view: PodView): Cluster {
    Calls(Step(c, Event(n, Start)), n, Call(true, typeFound, view), 5)
  }

  lemma CallsNext(c: Cluster, n: Name, a: Action)
    ensures Calls(c, n, a, 1) == Step(c, Event(n, a))
    ensures Calls(c, n, a, 2) == Step(Calls(c, n, a, 1), Event(n, a))
    ensures Calls(c, n, a, 3) == Step(Calls(c, n, a, 2), Event(n, a))
    ensures Calls(c, n, a, 4) == Step(Calls(c, n, a, 3), Event(n, a))
    ensures Calls(c, n, a, 5) == Step(Calls(c, n, a, 4), Event(n, a))
  {
    assert Calls(c, n, a, 0) == c;
  }

  /** A call that does not write the allowlist. */
  lemma PlainCall(c: Cluster, n: Name, a: Action)
    requires a.Call?
    requires At(c, n).running.Some? ==> !At(c, n).running.value.Publish? && !At(c, n).running.value.Unpublish?
    ensures var d := Step(c, Event(n, a));
            At(d, n) == SlotStep(At(c, n), a, c.next) && d.allow == c.allow && d.next == c.next + 1
  {
  }

  /** The reconcile is at the point where it has isolated the pod to be. */
  lemma ToIsolation(c: Cluster, n: Name, view: PodView)
    requires Settled(c, n) && At(c, n).session.value.Drivable()
    ensures var s, c0, a := At(c, n), Step(c, Event(n, Start)), Call(true, true, view);
            var d := Calls(c0, n, a, 2);
            && At(d, n) == Then(s.(isolation := Some(s.session.value.uid)), GetPod(s.session.value))
            && d.allow == c.allow && d.next == c.next + 3
  {
    var a, c0 := Call(true, true, view), Step(c, Event(n, Start));
    var sess := At(c, n).session.value;
    assert At(c0, n) == Then(At(c, n), GetType(sess));
    CallsNext(c0, n, a);
    PlainCall(c0, n, a);
    var c1 := Calls(c0, n, a, 1);
    assert At(c1, n) == Then(At(c, n), Isolate(sess));
    PlainCall(c1, n, a);
  }

  /** The reconcile is at the point where it has read the pod. */
  lemma ToThePod(c: Cluster, n: Name, view: PodView)
    requires Settled(c, n) && At(c, n).session.value.Drivable()
    ensures var s, a := At(c, n), Call(true, true, view);
            var d := Calls(Step(c, Event(n, Start)), n, a, 3);
            && At(d, n) == AfterPod(s.(isolation := Some(s.session.value.uid)), s.session.value, view)
            && d.allow == c.allow && d.next == c.next + 4
  {
    var a, c0 := Call(true, true, view), Step(c, Event(n, Start));
    ToIsolation(c, n, view);
    CallsNext(c0, n, a);
    PlainCall(Calls(c0, n, a, 2), n, a);
  }

  /** A report stores the phase of a session that has not changed since it was read. */
  lemma Reports(s: Slot, a: Action, sess: Session, phase: Phase, next: nat)
    requires a.Call? && a.ok && s.running == Some(Report(sess, phase)) && s.session == Some(sess)
    ensures var t := SlotStep(s, a, next);
            && t.session == Some(sess.(phase := phase, version := next)) && t.running.None?
            && t.pod == s.pod && t.isolation == s.isolation
  {
  }

  lemma Rests(c: Cluster, n: Name, a: Action)
    requires a.Call? && At(c, n).running.None?
    ensures At(Step(c, Event(n, a)), n) == At(c, n) && Step(c, Event(n, a)).allow == c.allow
  {
  }

  /** A missing server type fails the session. */
  lemma WithoutTypeFails(c: Cluster, n: Name, view: PodView)
    requires Settled(c, n) && At(c, n).session.value.Drivable()
    ensures var t := At(Reconciled(c, n, false, view), n);
            && t.session.Some? && t.session.value.phase == Failed && t.session.value.uid == At(c, n).session.value.uid
            && t.running.None? && t.pod == At(c, n).pod
  {
    var a, c0 := Call(true, false, view), Step(c, Event(n, Start));
    var sess := At(c, n).session.value;
    assert At(c0, n) == Then(At(c, n), GetType(sess));
    CallsNext(c0, n, a);
    var c1, c2 := Calls(c0, n, a, 1), Calls(c0, n, a, 2);
    PlainCall(c0, n, a);
    assert At(c1, n) == Then(At(c, n), Report(sess, Failed));
    PlainCall(c1, n, a);
    Reports(At(c1, n), a, sess, Failed, c1.next);
    Rests(c2, n, a);
    Rests(Calls(c0, n, a, 3), n, a);
    Rests(Calls(c0, n, a, 4), n, a);
  }

  /** The phase a reconcile is to store, for what it finds of the pod. */
  function PhaseFor(phase: Phase, view: PodView): Phase {
    match view
    case Missing => if phase in {Ready, Idle} then Failed else Starting
    case Broken => Failed
    case Unready => Starting
    case Serving(_) => Ready
  }

  /** A pod that is missing or broken, or not ready yet under another phase, is reported at once. */
  lemma ReportedAtOnce(c: Cluster, n: Name, view: PodView, phase: Phase)
    requires Settled(c, n) && At(c, n).session.value.Drivable()
    requires var s := At(c, n);
             AfterPod(s.(isolation := Some(s.session.value.uid)), s.session.value, view).running
             == Some(Report(s.session.value, phase))
    ensures var s, t := At(c, n), At(Reconciled(c, n, true, view), n);
            && t.session == Some(s.session.value.(phase := phase, version := c.next + 4)) && t.running.None?
            && t.pod == s.pod && t.isolation == Some(s.session.value.uid)
    ensures Reconciled(c, n, true, view).allow == c.allow
  {
    var a, c0 := Call(true, true, view), Step(c, Event(n, Start));
    ToThePod(c, n, view);
    CallsNext(c0, n, a);
    var c3, c4 := Calls(c0, n, a, 3), Calls(c0, n, a, 4);
    PlainCall(c3, n, a);
    Reports(At(c3, n), a, At(c, n).session.value, phase, c3.next);
    Rests(c4, n, a);
  }

  lemma NothingToReport(c: Cluster, n: Name, view: PodView)
    requires Settled(c, n) && At(c, n).session.value.Drivable()
    requires var s := At(c, n); AfterPod(s.(isolation := Some(s.session.value.uid)), s.session.value, view).running.None?
    ensures var s, t := At(c, n), At(Reconciled(c, n, true, view), n);
            t.session == s.session && t.running.None? && t.pod == s.pod && t.isolation == Some(s.session.value.uid)
    ensures Reconciled(c, n, true, view).allow == c.allow
  {
    var a, c0 := Call(true, true, view), Step(c, Event(n, Start));
    ToThePod(c, n, view);
    CallsNext(c0, n, a);
    Rests(Calls(c0, n, a, 3), n, a);
    Rests(Calls(c0, n, a, 4), n, a);
  }

  /** A missing pod of a session that was never ready is created. */
  lemma CreatesMissing(c: Cluster, n: Name)
    requires Settled(c, n) && At(c, n).session.value.Drivable() && At(c, n).session.value.phase !in {Ready, Idle}
    ensures var s, t := At(c, n), At(Reconciled(c, n, true, Missing), n);
            && t.session == Some(s.session.value.(phase := Starting, version := c.next + 5)) && t.running.None?
            && t.pod == (if s.pod.None? then Some(Pod(s.session.value.uid, false)) else s.pod)
            && t.isolation == Some(s.session.value.uid)
    ensures Reconciled(c, n, true, Missing).allow == c.allow
  {
    var a, c0 := Call(true, true, Missing), Step(c, Event(n, Start));
    ToThePod(c, n, Missing);
    CallsNext(c0, n, a);
    CreateAndReport(Calls(c0, n, a, 3), n, At(c, n).session.value, a);
  }

  lemma CreateAndReport(c: Cluster, n: Name, sess: Session, a: Action)
    requires a.Call? && a.ok && At(c, n).running == Some(CreatePod(sess)) && At(c, n).session == Some(sess)
    ensures var s, d := At(c, n), Step(Step(c, Event(n, a)), Event(n, a));
            && At(d, n).session == Some(sess.(phase := Starting, version := c.next + 1)) && At(d, n).running.None?
            && At(d, n).pod == (if s.pod.None? then Some(Pod(sess.uid, false)) else s.pod)
            && At(d, n).isolation == s.isolation && d.allow == c.allow
  {
    var c1 := Step(c, Event(n, a));
    PlainCall(c, n, a);
    assert At(c1, n).running == Some(Report(sess, Starting));
    PlainCall(c1, n, a);
    Reports(At(c1, n), a, sess, Starting, c1.next);
  }

  /** A serving pod is published and the session reported ready. */
  lemma PublishesServing(c: Cluster, n: Name, ip: IP)
    requires Settled(c, n) && At(c, n).session.value.Drivable() && At(c, n).session.value.phase != Ready
    ensures var s, d := At(c, n), Reconciled(c, n, true, Serving(ip));
            && At(d, n).session == Some(s.session.value.(phase := Ready, version := c.next + 5)) && At(d, n).running.None?
            && At(d, n).pod == s.pod && At(d, n).isolation == Some(s.session.value.uid)
            && d.allow.present.content == c.allow.present.content[ip := n]
  {
    var a, c0 := Call(true, true, Serving(ip)), Step(c, Event(n, Start));
    ToThePod(c, n, Serving(ip));
    CallsNext(c0, n, a);
    var c3, c4 := Calls(c0, n, a, 3), Calls(c0, n, a, 4);
    assert At(c3, n).running == Some(Publish(At(c, n).session.value, ip));
    assert Outcome(c3, Event(n, a)) == a;
    assert At(c4, n).running == Some(Report(At(c, n).session.value, Ready));
    PlainCall(c4, n, a);
    Reports(At(c4, n), a, At(c, n).session.value, Ready, c4.next);
  }

  /**
    A reconcile with a current read and successful calls stores the phase that fits what it finds: failed for a broken
    pod and for one that is missing from a session that was ready, which is not given another; starting for a pod
    just created or not ready yet; ready, with its entry published, for one that serves.
   */
  lemma ReconcileReports(c: Cluster, n: Name, view: PodView)
    requires Settled(c, n) && At(c, n).session.value.Drivable()
    ensures var s, d := At(c, n), Reconciled(c, n, true, view);
            var t := At(d, n);
            && t.session.Some? && t.session.value.uid == s.session.value.uid && t.running.None?
            && t.session.value.phase == PhaseFor(s.session.value.phase, view)
            && t.isolation == Some(s.session.value.uid)
            && t.pod == (if view == Missing && s.session.value.phase !in {Ready, Idle} && s.pod.None?
                         then Some(Pod(s.session.value.uid, false)) else s.pod)
            && (view.Serving? && s.session.value.phase != Ready ==>
                  d.allow.present.content == c.allow.present.content[view.ip := n])
            && (!view.Serving? || s.session.value.phase == Ready ==> d.allow == c.allow)
  {
    var phase := At(c, n).session.value.phase;
    match view
    case Missing => if phase in {Ready, Idle} { ReportedAtOnce(c, n, view, Failed); } else { CreatesMissing(c, n); }
    case Broken => ReportedAtOnce(c, n, view, Failed);
    case Unready => if phase != Starting { ReportedAtOnce(c, n, view, Starting); } else { NothingToReport(c, n, view); }
    case Serving(ip) => if phase != Ready { PublishesServing(c, n, ip); } else { NothingToReport(c, n, view); }
  }

  /**
    A failing call changes nothing and ends the reconcile, except that failing to isolate or to create fails the
    session, and that a teardown goes on when it cannot report itself.
   */
  lemma FailingCall(s: Slot, r: Reconcile, typeFound: bool, view: PodView, next: nat)
    requires s.running == Some(r)
    ensures var t := Called(s, r, false, typeFound, view, next);
            && t.session == s.session && t.pod == s.pod && t.isolation == s.isolation
            && t.running == (if r.Isolate? || r.CreatePod? then Some(Report(r.sess, Failed))
                             else if r.MarkStatus? then Some(DeletePod(r.sess)) else None)
  {
  }

  /** A reconcile of a session that is not ending and has no finalizer adds it and does nothing else. */
  lemma AddsFinalizer(c: Cluster, n: Name, typeFound: bool, view: PodView)
    requires Settled(c, n) && !At(c, n).session.value.Ending() && !At(c, n).session.value.finalizer
    ensures var s, t := At(c, n), At(Reconciled(c, n, typeFound, view), n);
            && t.session == Some(s.session.value.(finalizer := true, version := c.next + 1))
            && t.running.None? && t.pod == s.pod && t.isolation == s.isolation
    ensures Reconciled(c, n, typeFound, view).allow == c.allow
  {
    var a, c0 := Call(true, typeFound, view), Step(c, Event(n, Start));
    CallsNext(c0, n, a);
    assert At(c0, n).running == Some(AddFinalizer(At(c, n).session.value));
    PlainCall(c0, n, a);
    Rests(Calls(c0, n, a, 1), n, a);
    Rests(Calls(c0, n, a, 2), n, a);
    Rests(Calls(c0, n, a, 3), n, a);
    Rests(Calls(c0, n, a, 4), n, a);
  }

  /** The cache catches up with the session of a name. */
  lemma SettlesAgain(c: Cluster, n: Name)
    requires At(c, n).running.None? && At(c, n).session.Some?
    requires c.allow.cached == c.allow.present && c.allow.pending == []
    ensures var d := Step(c, Event(n, Relist));
            && Settled(d, n) && At(d, n) == At(c, n).(cached := At(c, n).session, pending := []) && d.allow == c.allow
  {
  }

  /**
    Three such reconciles, with the cache catching up in between, take a new session all the way: to its finalizer,
    to a pod of its own under isolation, and to ready with its entry published.
   */
  lemma BecomesReady(c: Cluster, n: Name, ip: IP)
    requires Settled(c, n) && !At(c, n).session.value.Ending() && !At(c, n).session.value.finalizer
    requires At(c, n).session.value.phase == Pending && At(c, n).pod.None?
    ensures var c1 := Step(Reconciled(c, n, true, Missing), Event(n, Relist));
            var c2 := Step(Reconciled(c1, n, true, Missing), Event(n, Relist));
            var d := Reconciled(c2, n, true, Serving(ip));
            var s, uid := At(d, n), At(c, n).session.value.uid;
            && s.session.Some? && s.session.value.uid == uid
            && s.session.value.phase == Ready && s.session.value.finalizer
            && s.pod == Some(Pod(uid, false)) && s.isolation == Some(uid)
            && d.allow.present.content == c.allow.present.content[ip := n]
  {
    AddsFinalizer(c, n, true, Missing);
    SettlesAgain(Reconciled(c, n, true, Missing), n);
    var c1 := Step(Reconciled(c, n, true, Missing), Event(n, Relist));
    CreatesMissing(c1, n);
    SettlesAgain(Reconciled(c1, n, true, Missing), n);
    var c2 := Step(Reconciled(c1, n, true, Missing), Event(n, Relist));
    PublishesServing(c2, n, ip);
  }
}
