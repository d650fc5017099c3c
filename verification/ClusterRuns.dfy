/** Runs of the session lifecycle protocol that show what can go wrong. */
module ClusterRuns {
  import opened Common
  import opened Documents
  import opened Cluster
  import opened ClusterSafety
  import opened ClusterEnding

  type List = Document<Text<map<IP, Name>>>

  const NAME := "github-0a1b2c3d"
  const OTHER := "jira-0a1b2c3d"
  const ADDRESS := "10.0.0.1"

  /** The run leads to these objects of the name and this allowlist. */
  ghost predicate Reaches(events: seq<Event>, n: Name, s: Slot, allow: List) {
    var c := Run(INITIAL, events);
    At(c, n) == s && c.allow == allow && c.next == |events|
  }

  lemma {:induction false} RunOneMore(c: Cluster, events: seq<Event>, e: Event)
    ensures Run(c, events + [e]) == Step(Run(c, events), e)
    decreases |events|
  {
    if events == [] {
      assert (events + [e])[1..] == [];
    } else {
      RunOneMore(Step(c, events[0]), events[1..], e);
      assert (events + [e])[1..] == events[1..] + [e];
    }
  }

  /** One more action that does not concern the allowlist. */
  lemma Next(events: seq<Event>, n: Name, s: Slot, allow: List, a: Action) returns (more: seq<Event>, t: Slot)
    requires Reaches(events, n, s, allow) && !a.DeliverAllow?
    requires a.Call? && s.running.Some? ==> !s.running.value.Publish? && !s.running.value.Unpublish?
    ensures t == SlotStep(s, a, |events|) && Reaches(more, n, t, allow) && more == events + [Event(n, a)]
  {
    more, t := events + [Event(n, a)], SlotStep(s, a, |events|);
    RunOneMore(INITIAL, events, Event(n, a));
  }

  /** One more successful call that writes the allowlist, of which the cache shows the latest version. */
  lemma NextWrites(events: seq<Event>, n: Name, s: Slot, allow: List) returns (more: seq<Event>, t: Slot)
    requires Reaches(events, n, s, allow) && allow.pending == []
    requires Desired(allow.cached, n, s, SUCCEED) != allow.cached
    ensures var desired := Desired(allow.cached, n, s, SUCCEED);
            Reaches(more, n, t, Document(desired, allow.cached, [desired]))
    ensures t == SlotStep(s, SUCCEED, |events|) && more == events + [Event(n, SUCCEED)]
  {
    more, t := events + [Event(n, SUCCEED)], SlotStep(s, SUCCEED, |events|);
    RunOneMore(INITIAL, events, Event(n, SUCCEED));
  }

  // ----- a deleted session gets a pod -----

  /** Created, given its finalizer, and shown to the cache. */
  lemma Adopted(start: seq<Event>, n: Name, allow: List) returns (events: seq<Event>, s: Slot)
    requires Reaches(start, n, EMPTY, allow)
    ensures Reaches(events, n, s, allow) && |events| == |start| + 5
    ensures var v := Session(|start|, |start| + 3, false, false, true, Pending);
            s == Slot(Some(v), Some(v), [], None, None, None)
  {
    events, s := Next(start, n, EMPTY, allow, Create);
    events, s := Next(events, n, s, allow, Relist);
    events, s := Next(events, n, s, allow, Start);
    events, s := Next(events, n, s, allow, SUCCEED);
    events, s := Next(events, n, s, allow, Relist);
  }

  /** Deleted before its next reconcile, which reads the version before. */
  lemma StillDriven() returns (events: seq<Event>, s: Slot)
    ensures Reaches(events, NAME, s, INITIAL.allow) && |events| == 7
    ensures var v := Session(0, 3, false, false, true, Pending);
            var deleted := v.(deleting := true, version := 5);
            s == Slot(Some(deleted), Some(v), [Some(deleted)], None, None, Some(GetType(v)))
  {
    events, s := Adopted([], NAME, INITIAL.allow);
    events, s := Next(events, NAME, s, INITIAL.allow, Delete);
    events, s := Next(events, NAME, s, INITIAL.allow, Start);
  }

  /** A deleted session gets a pod. */
  lemma EndedSessionGetsAPod() returns (events: seq<Event>)
    ensures var s := At(Run(INITIAL, events), NAME);
            s.session.Some? && s.session.value.deleting && s.pod == Some(Pod(s.session.value.uid, false))
  {
    var s;
    events, s := StillDriven();
    events, s := Next(events, NAME, s, INITIAL.allow, SUCCEED);
    events, s := Next(events, NAME, s, INITIAL.allow, SUCCEED);
    events, s := Next(events, NAME, s, INITIAL.allow, SUCCEED);
    events, s := Next(events, NAME, s, INITIAL.allow, SUCCEED);
  }

  // ----- a teardown ends another session -----

  /** A session without finalizer is marked terminating, shown to the cache, and deleted. */
  lemma Vanished() returns (events: seq<Event>, s: Slot)
    ensures Reaches(events, NAME, s, INITIAL.allow) && |events| == 4
    ensures s.session.None? && s.cached == Some(Session(0, 1, true, false, false, Pending))
    ensures s.running.None? && s.pod.None?
  {
    events, s := Next([], NAME, EMPTY, INITIAL.allow, Create);
    events, s := Next(events, NAME, s, INITIAL.allow, MarkTerminating(0));
    events, s := Next(events, NAME, s, INITIAL.allow, Relist);
    events, s := Next(events, NAME, s, INITIAL.allow, Delete);
  }

  /** Its successor is created, and the old session is still read and torn down. */
  lemma SuccessorFound() returns (events: seq<Event>, s: Slot)
    ensures Reaches(events, NAME, s, INITIAL.allow) && |events| == 8
    ensures s.session == Some(Session(4, 4, false, false, false, Pending))
    ensures s.running == Some(Unpublish(Session(0, 1, true, false, false, Pending)))
  {
    events, s := Vanished();
    events, s := Next(events, NAME, s, INITIAL.allow, Create);
    events, s := Next(events, NAME, s, INITIAL.allow, Start);
    events, s := Next(events, NAME, s, INITIAL.allow, SUCCEED);
    events, s := Next(events, NAME, s, INITIAL.allow, SUCCEED);
  }

  /** The teardown of a session that is long gone removes its successor, which nobody asked to end. */
  lemma TeardownRemovesASuccessor() returns (events: seq<Event>)
    ensures |events| == 10
    ensures var before := At(Run(INITIAL, events[..9]), NAME);
            before.session == Some(Session(4, 4, false, false, false, Pending))
    ensures At(Run(INITIAL, events), NAME).session.None?
  {
    var s;
    events, s := SuccessorFound();
    assert Desired(DEPLOYED, NAME, s, SUCCEED) != DEPLOYED;
    events, s := NextWrites(events, NAME, s, INITIAL.allow);
    ghost var nine, allow := events, Run(INITIAL, events).allow;
    events, s := Next(events, NAME, s, allow, SUCCEED);
    assert events[..9] == nine;
  }

  // ----- an entry outlives its session -----

  const TIDY: Text<map<IP, Name>> := Text(map[], true)

  /** The allowlist as the program has written it once, shown by the cache. */
  const WRITTEN: List := Document(TIDY, TIDY, [])

  /** Another session is terminated before it was ever driven, and the cache shows that. */
  lemma OtherTerminates() returns (events: seq<Event>, s: Slot)
    ensures Reaches(events, OTHER, s, INITIAL.allow) && |events| == 3 && (forall e :: e in events ==> e.name == OTHER)
    ensures var v := Session(0, 1, true, false, false, Pending); s == Slot(Some(v), Some(v), [], None, None, None)
  {
    events, s := Next([], OTHER, EMPTY, INITIAL.allow, Create);
    events, s := Next(events, OTHER, s, INITIAL.allow, MarkTerminating(0));
    events, s := Next(events, OTHER, s, INITIAL.allow, Relist);
  }

  /** Its entries, of which there are none, are about to be withdrawn. */
  lemma OtherWithdraws() returns (events: seq<Event>, s: Slot)
    ensures Reaches(events, OTHER, s, INITIAL.allow) && (forall e :: e in events ==> e.name == OTHER)
    ensures s.running.Some? && s.running.value.Unpublish?
  {
    events, s := OtherTerminates();
    events, s := Next(events, OTHER, s, INITIAL.allow, Start);
    events, s := Next(events, OTHER, s, INITIAL.allow, SUCCEED);
    events, s := Next(events, OTHER, s, INITIAL.allow, SUCCEED);
  }

  lemma {:induction false} OthersLeave(events: seq<Event>, c: Cluster, n: Name)
    requires forall e :: e in events ==> e.name != n
    ensures At(Run(c, events), n) == At(c, n)
    decreases |events|
  {
    if events != [] {
      assert events[0] in events && forall e :: e in events[1..] ==> e in events;
      OthersLeave(events[1..], Step(c, events[0]), n);
    }
  }

  /** Its withdrawal writes the list in the program's own form, and the cache shows that. */
  lemma ListWritten() returns (events: seq<Event>)
    ensures Reaches(events, NAME, EMPTY, WRITTEN)
  {
    var s;
    events, s := OtherWithdraws();
    assert Without(map[], OTHER) == map[];
    assert Desired(DEPLOYED, OTHER, s, SUCCEED) == TIDY;
    events, s := NextWrites(events, OTHER, s, INITIAL.allow);
    var e := Event(OTHER, DeliverAllow(0));
    RunOneMore(INITIAL, events, e);
    events := events + [e];
    assert OTHER[0] != NAME[0];
    OthersLeave(events, INITIAL, NAME);
  }

  /** A reconcile is about to create the pod. */
  lemma Creating(start: seq<Event>) returns (events: seq<Event>, s: Slot)
    requires Reaches(start, NAME, EMPTY, WRITTEN)
    ensures Reaches(events, NAME, s, WRITTEN) && |events| == |start| + 9
    ensures var v := Session(|start|, |start| + 3, false, false, true, Pending);
            s == Slot(Some(v), Some(v), [], None, Some(|start|), Some(CreatePod(v)))
  {
    events, s := Adopted(start, NAME, WRITTEN);
    events, s := Next(events, NAME, s, WRITTEN, Start);
    events, s := Next(events, NAME, s, WRITTEN, SUCCEED);
    events, s := Next(events, NAME, s, WRITTEN, SUCCEED);
    events, s := Next(events, NAME, s, WRITTEN, SUCCEED);
  }

  /** The pod has been created and the cache shows that. */
  lemma Launched(start: seq<Event>) returns (events: seq<Event>, s: Slot)
    requires Reaches(start, NAME, EMPTY, WRITTEN)
    ensures Reaches(events, NAME, s, WRITTEN) && |events| == |start| + 12
    ensures var v := Session(|start|, |start| + 10, false, false, true, Starting);
            s == Slot(Some(v), Some(v), [], Some(Pod(|start|, false)), Some(|start|), None)
  {
    events, s := Creating(start);
    events, s := Next(events, NAME, s, WRITTEN, SUCCEED);
    events, s := Next(events, NAME, s, WRITTEN, SUCCEED);
    events, s := Next(events, NAME, s, WRITTEN, Relist);
  }

  /** The pod serves, and its entry is about to be published. */
  lemma Publishing(start: seq<Event>) returns (events: seq<Event>, s: Slot)
    requires Reaches(start, NAME, EMPTY, WRITTEN)
    ensures Reaches(events, NAME, s, WRITTEN) && |events| == |start| + 16
    ensures var v := Session(|start|, |start| + 10, false, false, true, Starting);
            s == Slot(Some(v), Some(v), [], Some(Pod(|start|, false)), Some(|start|), Some(Publish(v, ADDRESS)))
  {
    events, s := Launched(start);
    events, s := Next(events, NAME, s, WRITTEN, Start);
    events, s := Next(events, NAME, s, WRITTEN, SUCCEED);
    events, s := Next(events, NAME, s, WRITTEN, SUCCEED);
    events, s := Next(events, NAME, s, WRITTEN, SERVING);
  }

  const FILLED: Text<map<IP, Name>> := Text(map[ADDRESS := NAME], true)

  /** The entry is published, which the cached list does not show yet. */
  const PUBLISHED: List := Document(FILLED, TIDY, [FILLED])

  lemma Published(start: seq<Event>) returns (events: seq<Event>, s: Slot)
    requires Reaches(start, NAME, EMPTY, WRITTEN)
    ensures Reaches(events, NAME, s, PUBLISHED) && |events| == |start| + 17
    ensures var v := Session(|start|, |start| + 10, false, false, true, Starting);
            s == Slot(Some(v), Some(v), [], Some(Pod(|start|, false)), Some(|start|), Some(Report(v, Ready)))
  {
    events, s := Publishing(start);
    assert ADDRESS in FILLED.content && ADDRESS !in TIDY.content;
    assert Desired(TIDY, NAME, s, SUCCEED) == FILLED;
    events, s := NextWrites(events, NAME, s, WRITTEN);
  }

  /** The session became ready, was deleted, and the cache shows that. */
  lemma Doomed(start: seq<Event>) returns (events: seq<Event>, s: Slot)
    requires Reaches(start, NAME, EMPTY, WRITTEN)
    ensures Reaches(events, NAME, s, PUBLISHED)
    ensures var v := Session(|start|, |start| + 18, false, true, true, Ready);
            s == Slot(Some(v), Some(v), [], Some(Pod(|start|, false)), Some(|start|), None)
  {
    events, s := Published(start);
    events, s := Next(events, NAME, s, PUBLISHED, SUCCEED);
    events, s := Next(events, NAME, s, PUBLISHED, Delete);
    events, s := Next(events, NAME, s, PUBLISHED, Relist);
  }

  /** Its teardown comes to the withdrawal. */
  lemma Withdrawing() returns (events: seq<Event>, s: Slot)
    ensures Reaches(events, NAME, s, PUBLISHED)
    ensures s.session.Some? && s.session.value.deleting && s.running == Some(Unpublish(s.session.value))
  {
    events := ListWritten();
    events, s := Doomed(events);
    events, s := Next(events, NAME, s, PUBLISHED, Start);
    events, s := Next(events, NAME, s, PUBLISHED, SUCCEED);
    events, s := Next(events, NAME, s, PUBLISHED, SUCCEED);
  }

  /** A session torn down before the cache shows its entry is removed and leaves the entry behind. */
  lemma EntryOutlivesItsSession() returns (events: seq<Event>)
    ensures var c := Run(INITIAL, events); At(c, NAME).session.None? && NAME in c.allow.present.content.Values
  {
    var s;
    events, s := Withdrawing();
    var c, e := Run(INITIAL, events), Event(NAME, SUCCEED);
    RunKeeps(INITIAL, events);
    assert FILLED.content[ADDRESS] == NAME && Without(TIDY.content, NAME) == TIDY.content;
    EntryOutlivesExactlyIfMissed(c, NAME, s.session.value);
    RunOneMore(INITIAL, events, e);
    RunOneMore(INITIAL, events + [e], e);
    events := events + [e] + [e];
  }
}
