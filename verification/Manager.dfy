/**
  The session manager over the in-process table and the local backend. Its
  calls do not overlap; readiness watchers run at any time.
 */
module Manager {
  import opened Common
  import opened Routing
  import opened MemoryTable
  import opened LocalBackend

  datatype EnsureError =
    | UnknownType | NotGranted | CapReached | SpawnFailed | PodFailed | ColdStart | Cancelled | StatusFailed

  datatype Limits = Limits(perUser: int, perType: int, total: int)

  /** What a caller asks for, as the configuration and the policy see it. */
  datatype Ask = Ask(key: PodKey, known: bool, granted: bool, limits: Limits, configHash: string)

  /** What happens around one poll of the cold-start hold. */
  datatype Poll = Poll(watches: seq<Watch>, now: Time, cancelled: bool)

  const TICK := 500

  /** The ticker fires every 500ms at the earliest, so poll `j` ends no earlier than `j` ticks after the start. */
  ghost predicate Ticking(polls: nat -> Poll, start: Time) {
    forall j: nat :: polls(j).now >= start + TICK * j
  }

  /** Table and backend hold the same keys, under the same names and tokens. */
  ghost predicate Agree(hash: Hash, pods: Pods, backend: map<PodKey, nat>, entries: seq<Entry>) {
    && pods.Keys == backend.Keys
    && (forall k {:trigger pods[k]} :: k in pods ==>
          && backend[k] < |entries|
          && pods[k].name == PodName(hash, k)
          && pods[k].token == entries[backend[k]].token)
  }

  /** A new pod goes with a new entry that got its token. */
  lemma AgreeOnNew(hash: Hash, pods: Pods, backend: map<PodKey, nat>, entries: seq<Entry>, p: Pod, e: Entry)
    requires Agree(hash, pods, backend, entries) && p.name == PodName(hash, p.key) && p.token == e.token
    ensures Agree(hash, pods[p.key := p], backend[p.key := |entries|], entries + [e])
  {
  }

  /** Only the pod under this key may change, and not if it is ready. */
  ghost predicate OnlyColdKey(before: Pods, after: Pods, key: PodKey) {
    || after == before
    || (&& !(key in before && before[key].phase == Ready)
        && (after == before - {key} || (key in after && after == before[key := after[key]])))
  }

  /** Locating a cold pod and then holding for it touches nothing else. */
  lemma ColdSteps(before: Pods, p: Pod, middle: Pods, after: Pods)
    requires !(p.key in before && before[p.key].phase == Ready)
    requires middle == before[p.key := p]
    requires after == middle || after == middle - {p.key} || (p.key in after && after == middle[p.key := after[p.key]])
    ensures OnlyColdKey(before, after, p.key)
  {
    assert middle - {p.key} == before - {p.key};
    if p.key in after {
      assert after == before[p.key := after[p.key]];
    }
  }

  /** The entries when the first polls have been made. */
  ghost function Reported(entries: seq<Entry>, polls: nat -> Poll, count: nat): (r: seq<Entry>)
    ensures |r| == |entries|
  {
    if count == 0 then entries else WatchedAll(Reported(entries, polls, count - 1), polls(count - 1).watches)
  }

  /** A poll finds the entry neither ready nor failed, the deadline not passed and the caller still there. */
  ghost predicate Waits(entries: seq<Entry>, polls: nat -> Poll, j: nat, i: nat, deadline: Time)
    requires i < |entries|
  {
    && Reported(entries, polls, j + 1)[i].phase !in {Ready, Failed}
    && polls(j).now <= deadline && !polls(j).cancelled
  }

  ghost predicate AllWait(entries: seq<Entry>, polls: nat -> Poll, n: nat, i: nat, deadline: Time)
    requires i < |entries|
  {
    forall j: nat :: j < n ==> Waits(entries, polls, j, i, deadline)
  }

  /** So far all polls have waited, and these are the entries now. */
  ghost predicate Waited(entries: seq<Entry>, polls: nat -> Poll, n: nat, i: nat, deadline: Time, now: seq<Entry>) {
    i < |entries| && now == Reported(entries, polls, n) && AllWait(entries, polls, n, i, deadline)
  }

  /** One more poll; if it waits too, there is room for another within the budget. */
  lemma WaitedNext(entries: seq<Entry>, polls: nat -> Poll, n: nat, i: nat, start: Time, budget: nat, before: seq<Entry>,
                   after: seq<Entry>)
    requires Waited(entries, polls, n, i, start + budget, before) && after == WatchedAll(before, polls(n).watches)
    requires Ticking(polls, start)
    ensures after == Reported(entries, polls, n + 1) && |after| == |entries|
    ensures after[i].phase !in {Ready, Failed} && polls(n).now <= start + budget && !polls(n).cancelled ==>
              Waited(entries, polls, n + 1, i, start + budget, after) && n + 1 < budget / TICK + 2
  {
    if polls(n).now <= start + budget {
      assert TICK * n <= budget;
    }
  }

  /** What comes of a pod whose entry, after a poll, is `e`. */
  ghost predicate Ends(pod: Pod, e: Entry, poll: Poll, deadline: Time, r: Result<Pod, EnsureError>) {
    && (r.Success? <==> e.phase == Ready)
    && (r.Success? ==> r.value == pod.(phase := Ready, endpoint := e.endpoint))
    && (r == Failure(PodFailed) <==> e.phase == Failed)
    && (r == Failure(ColdStart) <==> e.phase !in {Ready, Failed} && poll.now > deadline)
    && (r == Failure(Cancelled) <==> e.phase !in {Ready, Failed} && poll.now <= deadline && poll.cancelled)
    && (r.Success? || r.error in {PodFailed, ColdStart, Cancelled})
  }

  predicate Exceeds(c: Counts, limits: Limits) {
    c.perUser >= limits.perUser || c.perType >= limits.perType || c.total >= limits.total
  }

  class Manager {
    const hash: Hash
    const table: Memory
    const backend: Backend

    ghost predicate Valid()
      reads this, table, backend
    {
      table.Valid() && backend.Valid() && Agree(hash, table.pods, backend.pods, backend.entries)
    }

    constructor (hash: Hash)
      ensures Valid() && this.hash == hash && fresh(table) && fresh(backend)
      ensures table.pods == map[] && table.sessions == map[] && table.inflight == map[]
    {
      this.hash := hash;
      table := new Memory();
      backend := new Backend();
    }

    method Watches(ws: seq<Watch>)
      requires Valid()
      modifies backend`entries
      ensures Valid() && backend.entries == WatchedAll(old(backend.entries), ws)
    {
      for i := 0 to |ws|
        invariant Valid() && backend.entries == WatchedAll(old(backend.entries), ws[..i])
      {
        assert ws[..i + 1][..i] == ws[..i];
        backend.WatchReady(ws[i]);
      }
      assert ws[..|ws|] == ws;
    }

    method BecomeReady(pod: Pod, endpoint: string, now: Time) returns (ready: Pod)
      requires Valid() && pod.key in table.pods && table.pods[pod.key] == pod
      modifies table
      ensures Valid() && table.sessions == old(table.sessions)
      ensures ready == pod.(phase := Ready, endpoint := endpoint)
      ensures table.pods == old(table.pods)[pod.key := ready]
      ensures table.active == old(table.active)[pod.name := now]
    {
      ready := pod.(phase := Ready, endpoint := endpoint);
      table.PutPod(ready);
      table.Touch(pod.name, now);
    }

    /** A pod that failed to start is forgotten on both sides, without looking for sessions. */
    method Forget(key: PodKey)
      requires Valid()
      modifies table, backend`pods
      ensures Valid() && table.sessions == old(table.sessions)
      ensures table.pods == old(table.pods) - {key} && backend.pods == old(backend.pods) - {key}
    {
      backend.Release(key);
      table.DeletePod(key);
    }

    /** The table after a hold. */
    static ghost function Held(pods: Pods, key: PodKey, r: Result<Pod, EnsureError>): Pods {
      if r.Success? then pods[key := r.value] else if r.error.PodFailed? then pods - {key} else pods
    }

    /** One poll: no outcome means to go on. */
    method PollOnce(pod: Pod, poll: Poll, deadline: Time) returns (r: Option<Result<Pod, EnsureError>>)
      requires Valid() && pod.key in table.pods && table.pods[pod.key] == pod
      modifies table, backend
      ensures Valid() && table.sessions == old(table.sessions)
      ensures backend.entries == WatchedAll(old(backend.entries), poll.watches)
      ensures var e := backend.entries[old(backend.pods)[pod.key]];
              && (r.None? <==> e.phase !in {Ready, Failed} && poll.now <= deadline && !poll.cancelled)
              && (r.Some? ==> Ends(pod, e, poll, deadline, r.value))
      ensures table.pods == if r.Some? then Held(old(table.pods), pod.key, r.value) else old(table.pods)
      ensures backend.pods == if r == Some(Failure(PodFailed)) then old(backend.pods) - {pod.key} else old(backend.pods)
    {
      Watches(poll.watches);
      var st := backend.Status(pod.key);
      if st.None? {
        return Some(Failure(StatusFailed));
      }
      if st.value.phase == Ready {
        var ready := BecomeReady(pod, st.value.endpoint, poll.now);
        return Some(Success(ready));
      }
      if st.value.phase == Failed {
        Forget(pod.key);
        return Some(Failure(PodFailed));
      }
      if poll.now > deadline {
        return Some(Failure(ColdStart));
      }
      if poll.cancelled {
        return Some(Failure(Cancelled));
      }
      r := None;
    }

    /**
      Polls the backend until the pod is ready, has failed, the budget is spent or the caller gives up: every
      poll but the last finds nothing of the kind, and the outcome is what the last one finds.
     */
    method Hold(pod: Pod, budget: nat, start: Time, polls: nat -> Poll)
      returns (r: Result<Pod, EnsureError>, count: nat)
      requires Valid() && pod.key in table.pods && table.pods[pod.key] == pod
      requires Ticking(polls, start)
      modifies table, backend
      ensures Valid()
      ensures 1 <= count <= budget / 500 + 2
      ensures table.sessions == old(table.sessions)
      ensures backend.entries == Reported(old(backend.entries), polls, count)
      ensures var i := old(backend.pods)[pod.key];
              && AllWait(old(backend.entries), polls, count - 1, i, start + budget)
              && Ends(pod, backend.entries[i], polls(count - 1), start + budget, r)
      ensures backend.pods == if r == Failure(PodFailed) then old(backend.pods) - {pod.key} else old(backend.pods)
      ensures table.pods == Held(old(table.pods), pod.key, r)
    {
      ghost var most, entries, i := budget / TICK + 2, backend.entries, backend.pods[pod.key];
      count := 0;
      while true
        invariant Valid() && table.pods == old(table.pods) && table.sessions == old(table.sessions)
        invariant backend.pods == old(backend.pods)
        invariant count < most && Waited(entries, polls, count, i, start + budget, backend.entries)
        decreases most - count
      {
        ghost var before := backend.entries;
        var found := PollOnce(pod, polls(count), start + budget);
        WaitedNext(entries, polls, count, i, start, budget, before, backend.entries);
        count := count + 1;
        if found.Some? {
          return found.value, count;
        }
      }
    }

    /** The hold, as far as it matters to callers. */
    method Await(pod: Pod, budget: nat, start: Time, polls: nat -> Poll) returns (r: Result<Pod, EnsureError>)
      requires Valid() && pod.key in table.pods && table.pods[pod.key] == pod
      requires Ticking(polls, start)
      modifies table, backend
      ensures Valid() && table.sessions == old(table.sessions)
      ensures table.pods == Held(old(table.pods), pod.key, r)
      ensures r.Success? || r.error in {PodFailed, ColdStart, Cancelled}
      ensures r.Success? ==>
                && pod.key in backend.pods && backend.entries[backend.pods[pod.key]].phase == Ready
                && r.value == pod.(phase := Ready, endpoint := backend.entries[backend.pods[pod.key]].endpoint)
      ensures r == Failure(ColdStart) || r == Failure(Cancelled) ==>
                pod.key in backend.pods && backend.entries[backend.pods[pod.key]].phase !in {Ready, Failed}
    {
      var count;
      r, count := Hold(pod, budget, start, polls);
    }

    /** Puts a pending pod into the table and starts it, or leaves everything as it was. */
    method Spawn(ask: Ask, token: string, now: Time, start: Option<string>) returns (pod: Pod, ok: bool)
      requires Valid() && ask.key !in table.pods
      modifies table, backend
      ensures Valid() && table.sessions == old(table.sessions)
      ensures ok == start.Some?
      ensures pod == Pod(ask.key, PodName(hash, ask.key), "", Pending, now, ask.configHash, token)
      ensures table.pods == if ok then old(table.pods)[ask.key := pod] else old(table.pods)
    {
      pod := Pod(ask.key, PodName(hash, ask.key), "", Pending, now, ask.configHash, token);
      assert table.pods[pod.key := pod] - {pod.key} == table.pods;
      if start.Some? {
        AgreeOnNew(hash, table.pods, backend.pods, backend.entries, pod, Entry(Starting, start.value, token));
      }
      table.PutPod(pod);
      ok := backend.Ensure(ask.key, token, start);
      if !ok {
        table.DeletePod(ask.key);
      }
    }

    /** The pod to hold for: the one in the table or, caps permitting, a new one. */
    method Locate(ask: Ask, token: string, now: Time, start: Option<string>) returns (r: Result<Pod, EnsureError>)
      requires Valid()
      modifies table, backend
      ensures Valid() && table.sessions == old(table.sessions)
      ensures r.Failure? ==> table.pods == old(table.pods) && r.error in {CapReached, SpawnFailed}
      ensures r == Failure(SpawnFailed) <==>
              && ask.key !in old(table.pods) && start.None?
              && !Exceeds(CountsOf(old(table.pods), ask.key.subject, ask.key.serverType), ask.limits)
      ensures r == Failure(CapReached) <==>
              ask.key !in old(table.pods)
              && Exceeds(CountsOf(old(table.pods), ask.key.subject, ask.key.serverType), ask.limits)
      ensures r.Success? ==>
                && r.value.key == ask.key
                && table.pods == old(table.pods)[ask.key := r.value]
                && (ask.key in old(table.pods) ==> r.value == old(table.pods)[ask.key])
                && (ask.key !in old(table.pods) ==>
                      r.value == Pod(ask.key, PodName(hash, ask.key), "", Pending, now, ask.configHash, token))
    {
      var found := table.GetPod(ask.key);
      if found.Some? {
        return Success(found.value);
      }
      var c := table.CountPods(ask.key.subject, ask.key.serverType);
      if Exceeds(c, ask.limits) {
        return Failure(CapReached);
      }
      var pod, spawned := Spawn(ask, token, now, start);
      r := if spawned then Success(pod) else Failure(SpawnFailed);
    }

    /** Refusals come first, a ready pod is returned as it is, and a cold one is what the hold makes of it. */
    method EnsurePod(ask: Ask, token: string, now: Time, start: Option<string>, budget: nat, polls: nat -> Poll)
      returns (r: Result<Pod, EnsureError>)
      requires Valid() && Ticking(polls, now)
      modifies table, backend
      ensures Valid()
      ensures table.sessions == old(table.sessions)
      ensures OnlyColdKey(old(table.pods), table.pods, ask.key)
      ensures r == Failure(UnknownType) <==> !ask.known
      ensures r == Failure(NotGranted) <==> ask.known && !ask.granted
      ensures r == Failure(CapReached) <==>
              ask.known && ask.granted && ask.key !in old(table.pods)
              && Exceeds(CountsOf(old(table.pods), ask.key.subject, ask.key.serverType), ask.limits)
      ensures r == Failure(SpawnFailed) <==>
              ask.known && ask.granted && ask.key !in old(table.pods) && start.None?
              && !Exceeds(CountsOf(old(table.pods), ask.key.subject, ask.key.serverType), ask.limits)
      ensures ask.known && ask.granted && ask.key in old(table.pods) && old(table.pods)[ask.key].phase == Ready ==>
                r == Success(old(table.pods)[ask.key])
      ensures r.Success? ==>
                && ask.known && ask.granted
                && r.value.phase == Ready && r.value.key == ask.key
                && table.pods == old(table.pods)[ask.key := r.value]
                && r.value.token == if ask.key in old(table.pods) then old(table.pods)[ask.key].token else token
      ensures r.Success? && !(ask.key in old(table.pods) && old(table.pods)[ask.key].phase == Ready) ==>
                && ask.key in backend.pods && backend.entries[backend.pods[ask.key]].phase == Ready
                && r.value.endpoint == backend.entries[backend.pods[ask.key]].endpoint
      ensures r.Failure? && r.error !in {UnknownType, NotGranted, CapReached, SpawnFailed, PodFailed} ==>
                ask.key in backend.pods && backend.entries[backend.pods[ask.key]].phase !in {Ready, Failed}
      ensures r == Failure(PodFailed) ==> ask.key !in table.pods
    {
      if !ask.known {
        return Failure(UnknownType);
      }
      if !ask.granted {
        return Failure(NotGranted);
      }
      var located := Locate(ask, token, now, start);
      if located.Failure? {
        return located;
      }
      if located.value.phase == Ready {
        assert table.pods == old(table.pods);
        return located;
      }
      ghost var middle := table.pods;
      r := Await(located.value, budget, now, polls);
      ColdSteps(old(table.pods), located.value, middle, table.pods);
    }

    method Release(key: PodKey)
      requires Valid()
      modifies table, backend
      ensures Valid()
      ensures table.pods == old(table.pods) - {key}
      ensures table.sessions == Apart(old(table.sessions), {PodName(hash, key)})
    {
      backend.Release(key);
      table.DeleteSessionsForPod(PodName(hash, key));
      table.DeletePod(key);
    }

    method ReleaseNext(key: PodKey, ghost keys: set<PodKey>, ghost pods: Pods, ghost sessions: Sessions)
      requires Valid()
      requires table.pods == pods - keys && table.sessions == Apart(sessions, Names(hash, keys))
      modifies table, backend
      ensures Valid()
      ensures table.pods == pods - (keys + {key}) && table.sessions == Apart(sessions, Names(hash, keys + {key}))
    {
      ApartTwice(sessions, Names(hash, keys), {PodName(hash, key)});
      assert Names(hash, keys) + {PodName(hash, key)} == Names(hash, keys + {key});
      assert pods - keys - {key} == pods - (keys + {key});
      Release(key);
    }

    /** Releases the listed pods one by one. */
    method ReleaseListed(pods: seq<Pod>)
      requires Valid()
      modifies table, backend
      ensures Valid()
      ensures table.pods == old(table.pods) - KeysOf(pods)
      ensures table.sessions == Apart(old(table.sessions), Names(hash, KeysOf(pods)))
    {
      ghost var before, sessions := table.pods, table.sessions;
      ApartTwice(sessions, {}, {});
      assert Names(hash, {}) == {} && KeysOf([]) == {} && before - {} == before;
      for i := 0 to |pods|
        invariant Valid() && table.pods == before - KeysOf(pods[..i])
        invariant table.sessions == Apart(sessions, Names(hash, KeysOf(pods[..i])))
      {
        KeysOfNext(pods, i);
        ReleaseNext(pods[i].key, KeysOf(pods[..i]), before, sessions);
      }
      assert pods[..|pods|] == pods;
    }

    /** Releases every pod of the subject; the empty subject means everybody's. */
    method ReleaseAll(subject: string)
      requires Valid()
      modifies table, backend
      ensures Valid()
      ensures table.pods == old(table.pods) - Matching(old(table.pods), subject).Keys
      ensures table.sessions == Apart(old(table.sessions), Names(hash, Matching(old(table.pods), subject).Keys))
    {
      var pods := table.ListPods(subject);
      AllKeysListed(pods, Matching(table.pods, subject));
      ReleaseListed(pods);
    }
  }

  ghost function Names(hash: Hash, keys: set<PodKey>): set<string> {
    set k | k in keys :: PodName(hash, k)
  }
}
