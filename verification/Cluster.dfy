/**
  The session lifecycle protocol: gateway, reaper, kubelet, garbage collector,
  informer and the reconciler's individual API calls, in any interleaving. The
  reconciler reads sessions and the allowlist from an informer cache that lags
  behind and moves on version by version, its other reads may return anything,
  any call may fail, and it may crash between calls. Writes to a session and to
  the allowlist use optimistic concurrency.
 */
module Cluster {
  import opened Common
  import opened Documents

  type Name = string
  type IP = string

  datatype Phase = Pending | Starting | Ready | Idle | Terminating | Failed

  /** A Session object; every write gives it a new version. */
  datatype Session = Session(uid: nat, version: nat, terminate: bool, deleting: bool, finalizer: bool, phase: Phase)
  {
    /** Deletion was requested or the desired phase is Terminating. */
    predicate Ending() {
      terminate || deleting
    }

    /** What the reconciler must read before it drives a session towards a pod. */
    predicate Drivable() {
      finalizer && !Ending()
    }
  }

  datatype Pod = Pod(owner: nat, deleting: bool)

  /** The next API call of a reconcile that read `sess`. */
  datatype Reconcile =
    | MarkStatus(sess: Session)
    | DeletePod(sess: Session)
    | Unpublish(sess: Session)
    | Finish(sess: Session)
    | AddFinalizer(sess: Session)
    | GetType(sess: Session)
    | Isolate(sess: Session)
    | GetPod(sess: Session)
    | CreatePod(sess: Session)
    | Publish(sess: Session, ip: IP)
    | Report(sess: Session, phase: Phase)
  {
    predicate Teardown() {
      MarkStatus? || DeletePod? || Unpublish? || Finish?
    }
  }

  /** Everything stored under one session name. */
  datatype Slot = Slot(
    session: Option<Session>,
    cached: Option<Session>,                  // what the informer cache shows
    pending: seq<Option<Session>>,            // what was stored since, oldest first
    pod: Option<Pod>,
    isolation: Option<nat>,                   // owner of the isolation objects
    running: Option<Reconcile>)

  datatype Cluster = Cluster(
    slots: map<Name, Slot>,
    allow: Document<Text<map<IP, Name>>>,     // the published egress allowlist
    next: nat)                                // source of fresh uids and versions

  /** What reading the pod shows the reconciler. */
  datatype PodView = Missing | Broken | Unready | Serving(ip: IP)

  datatype Action =
    | Create
    | Delete
    | MarkTerminating(version: nat)
    | MarkIdle(version: nat)
    | EvictPod
    | RemovePod
    | CollectGarbage
    | Deliver(skip: nat)
    | Relist
    | DeliverAllow(skip: nat)
    | Start
    | Call(ok: bool, typeFound: bool, pod: PodView)
    | Crash

  datatype Event = Event(name: Name, action: Action)

  const EMPTY := Slot(None, None, [], None, None, None)
  /** A call that succeeds. */
  const SUCCEED := Call(true, true, Missing)
  const DEPLOYED: Text<map<IP, Name>> := Text(map[], false)
  const INITIAL := Cluster(map[], Document(DEPLOYED, DEPLOYED, []), 0)

  function At(c: Cluster, n: Name): Slot {
    if n in c.slots then c.slots[n] else EMPTY
  }

  /** Deleting an object: marked while a finalizer is present, removed otherwise. */
  function Deleted(s: Slot, unused: nat): Slot {
    if s.session.None? then s
    else if s.session.value.finalizer then
      s.(session := Some(s.session.value.(deleting := true, version := unused)))
    else s.(session := None)
  }

  function PodDeleted(s: Slot): Slot {
    if s.pod.Some? then s.(pod := Some(s.pod.value.(deleting := true))) else s
  }

  /** The stored session is still the version that was read. */
  predicate Current(s: Slot, version: nat) {
    s.session.Some? && s.session.value.version == version
  }

  function WithPhase(s: Slot, phase: Phase, unused: nat): Slot
    requires s.session.Some?
  {
    s.(session := Some(s.session.value.(phase := phase, version := unused)))
  }

  function WithFinalizer(s: Slot, unused: nat): Slot
    requires s.session.Some?
  {
    s.(session := Some(s.session.value.(finalizer := true, version := unused)))
  }

  /** Removing the finalizer of an object marked for deletion removes the object. */
  function WithoutFinalizer(s: Slot, unused: nat): Slot
    requires s.session.Some?
  {
    if s.session.value.deleting then s.(session := None)
    else s.(session := Some(s.session.value.(finalizer := false, version := unused)))
  }

  /** Where a reconcile that reads `sess` begins. */
  function Entry(sess: Session): Reconcile {
    if sess.Ending() then MarkStatus(sess)
    else if !sess.finalizer then AddFinalizer(sess)
    else GetType(sess)
  }

  function Then(s: Slot, r: Reconcile): Slot {
    s.(running := Some(r))
  }

  function Done(s: Slot): Slot {
    s.(running := None)
  }

  /** What the reconciler does after reading the pod. */
  function AfterPod(s: Slot, sess: Session, view: PodView): Slot {
    match view
    case Missing =>
      if sess.phase == Ready || sess.phase == Idle then Then(s, Report(sess, Failed)) else Then(s, CreatePod(sess))
    case Broken => Then(s, Report(sess, Failed))
    case Unready => if sess.phase != Starting then Then(s, Report(sess, Starting)) else Done(s)
    case Serving(ip) => if sess.phase != Ready then Then(s, Publish(sess, ip)) else Done(s)
  }

  /** One API call of the reconcile in progress, as far as this name's objects are concerned. */
  function Called(s: Slot, r: Reconcile, ok: bool, typeFound: bool, view: PodView, unused: nat): Slot {
    match r
    case MarkStatus(sess) =>
      if sess.phase != Terminating && ok && Current(s, sess.version) then
        var t := WithPhase(s, Terminating, unused);
        Then(t, DeletePod(t.session.value))
      else Then(s, DeletePod(sess))
    case DeletePod(sess) => if ok then Then(PodDeleted(s), Unpublish(sess)) else Done(s)
    case Unpublish(sess) => if ok then Then(s, Finish(sess)) else Done(s)
    case Finish(sess) =>
      if !ok then Done(s)
      else if !sess.deleting then Done(Deleted(s, unused))
      else if sess.finalizer && Current(s, sess.version) then Done(WithoutFinalizer(s, unused))
      else Done(s)
    case AddFinalizer(sess) => Done(if ok && Current(s, sess.version) then WithFinalizer(s, unused) else s)
    case GetType(sess) => if !ok then Done(s) else Then(s, if typeFound then Isolate(sess) else Report(sess, Failed))
    case Isolate(sess) =>
      if ok then Then(s.(isolation := Some(sess.uid)), GetPod(sess)) else Then(s, Report(sess, Failed))
    case GetPod(sess) => if ok then AfterPod(s, sess, view) else Done(s)
    case CreatePod(sess) =>
      if !ok then Then(s, Report(sess, Failed))
      else Then(if s.pod.None? then s.(pod := Some(Pod(sess.uid, false))) else s, Report(sess, Starting))
    case Publish(sess, _) => if ok then Then(s, Report(sess, Ready)) else Done(s)
    case Report(sess, phase) => Done(if ok && Current(s, sess.version) then WithPhase(s, phase, unused) else s)
  }

  /** The effect of an action on one name's objects; a disabled action changes nothing. */
  function Effected(s: Slot, a: Action, unused: nat): Slot {
    match a
    case Create =>
      if s.session.Some? then s else s.(session := Some(Session(unused, unused, false, false, false, Pending)))
    case Delete => Deleted(s, unused)
    case MarkTerminating(version) =>
      if Current(s, version) then s.(session := Some(s.session.value.(terminate := true, version := unused))) else s
    case MarkIdle(version) => if Current(s, version) then WithPhase(s, Idle, unused) else s
    case EvictPod => PodDeleted(s)
    case RemovePod => s.(pod := None)
    case CollectGarbage =>
      if s.isolation.Some? && !(s.session.Some? && s.session.value.uid == s.isolation.value)
      then s.(isolation := None) else s
    case Deliver(skip) =>
      if skip < |s.pending| then s.(cached := s.pending[skip], pending := s.pending[skip + 1..]) else s
    case Relist => s.(cached := s.session, pending := [])
    case DeliverAllow(_) => s
    case Start => if s.running.None? && s.cached.Some? then Then(s, Entry(s.cached.value)) else s
    case Call(ok, typeFound, view) =>
      if s.running.Some? then Called(s, s.running.value, ok, typeFound, view, unused) else s
    case Crash => Done(s)
  }

  /** Every stored version is on its way to the cache. */
  function SlotStep(s: Slot, a: Action, unused: nat): Slot {
    var t := Effected(s, a, unused);
    if t.session == s.session then t else t.(pending := t.pending + [t.session])
  }

  function Without(allow: map<IP, Name>, n: Name): map<IP, Name> {
    map ip | ip in allow && allow[ip] != n :: allow[ip]
  }

  /** What the action means to make of the allowlist it reads. */
  function Desired(seen: Text<map<IP, Name>>, n: Name, s: Slot, a: Action): Text<map<IP, Name>> {
    if !(a.Call? && a.ok && s.running.Some?) then seen
    else
      match s.running.value
      case Publish(_, ip) => Text(seen.content[ip := n], true)
      case Unpublish(_) => Text(Without(seen.content, n), true)
      case _ => seen
  }

  function AllowWrite(c: Cluster, e: Event): Option<Document<Text<map<IP, Name>>>> {
    c.allow.Write(Desired(c.allow.cached, e.name, At(c, e.name), e.action))
  }

  /** A call that runs into a conflict fails. */
  function Outcome(c: Cluster, e: Event): Action {
    if AllowWrite(c, e).None? && e.action.Call? then e.action.(ok := false) else e.action
  }

  function Step(c: Cluster, e: Event): Cluster {
    if e.action.DeliverAllow? then c.(allow := c.allow.Deliver(e.action.skip), next := c.next + 1)
    else
      Cluster(c.slots[e.name := SlotStep(At(c, e.name), Outcome(c, e), c.next)],
              if AllowWrite(c, e).Some? then AllowWrite(c, e).value else c.allow,
              c.next + 1)
  }

  /** What the other actors write: each a field or two of the stored session, and only of the version they read. */
  lemma ActorsWrite(s: Slot, version: nat, unused: nat)
    ensures SlotStep(s, MarkTerminating(version), unused).session ==
            if s.session.Some? && s.session.value.version == version
            then Some(s.session.value.(terminate := true, version := unused)) else s.session
    ensures SlotStep(s, MarkIdle(version), unused).session ==
            if s.session.Some? && s.session.value.version == version
            then Some(s.session.value.(phase := Idle, version := unused)) else s.session
    ensures SlotStep(s, Create, unused).session ==
            if s.session.None? then Some(Session(unused, unused, false, false, false, Pending)) else s.session
    ensures SlotStep(s, Delete, unused).session ==
            if s.session.None? || !s.session.value.finalizer then None
            else Some(s.session.value.(deleting := true, version := unused))
    ensures s.session.Some? ==>
              WithoutFinalizer(s, unused).session ==
              if s.session.value.deleting then None else Some(s.session.value.(finalizer := false, version := unused))
  {
  }

  function Run(c: Cluster, events: seq<Event>): Cluster
    decreases |events|
  {
    if events == [] then c else Run(Step(c, events[0]), events[1..])
  }
}
