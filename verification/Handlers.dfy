/**
  The per-server data plane over the session manager: client session ids are
  bound to the incarnation of the pod that issued them. Handlers do not overlap.
 */
module Handlers {
  import opened Common
  import opened Routing
  import opened MemoryTable
  import opened Manager

  datatype Verb = Post | Get | Delete

  datatype Request = Request(verb: Verb, subject: string, adapter: string, sessionId: string)
  {
    function Key(): PodKey {
      PodKey(subject, adapter)
    }
  }

  /** Everything a request meets besides the tables. */
  datatype Setting = Setting(
    known: bool, granted: bool, secretsFound: bool, limits: Limits, configHash: string,
    podToken: string, now: Time, start: Option<string>, budget: nat, polls: nat -> Poll,
    tokenIssued: bool,                        // the downstream token and the secrets were obtained after the spawn
    newId: string,
    upstream: string)                         // the session id the pod answered with, if any

  datatype Response =
    | NotFound
    | NoContent
    | Refused
    | Unavailable(error: EnsureError)
    | Forwarded(pod: Pod, upstreamSession: string)

  /**
    Every stored session names the pod of its own user and server type, that pod
    is ready, and it is the incarnation the session was born on.
   */
  ghost predicate Bound(hash: Hash, pods: Pods, sessions: Sessions, incarnation: map<PodKey, nat>,
                        born: map<string, nat>)
  {
    forall id {:trigger sessions[id]} :: id in sessions ==>
      var s := sessions[id];
      var k := PodKey(s.subject, s.serverType);
      && s.id == id
      && k in pods && pods[k].phase == Ready
      && s.podName == PodName(hash, k)
      && id in born && k in incarnation && born[id] == incarnation[k]
  }

  function Incarnated(before: Pods, after: Pods, incarnation: map<PodKey, nat>, key: PodKey, number: nat)
    : map<PodKey, nat>
  {
    if key !in before && key in after then incarnation[key := number] else incarnation
  }

  /** Ensuring a pod, successfully or not, keeps every session bound, although it may delete a pod without a purge. */
  lemma EnsureKeepsBound(hash: Hash, before: Pods, after: Pods, key: PodKey, sessions: Sessions,
                         incarnation: map<PodKey, nat>, born: map<string, nat>, number: nat)
    requires Bound(hash, before, sessions, incarnation, born) && OnlyColdKey(before, after, key)
    requires before.Keys <= incarnation.Keys
    ensures Bound(hash, after, sessions, Incarnated(before, after, incarnation, key, number), born)
    ensures after.Keys <= Incarnated(before, after, incarnation, key, number).Keys
  {
  }

  /** Deleting pods together with the sessions of their names keeps the others bound. */
  lemma PurgeKeepsBound(hash: Hash, pods: Pods, keys: set<PodKey>, sessions: Sessions,
                        incarnation: map<PodKey, nat>, born: map<string, nat>)
    requires Bound(hash, pods, sessions, incarnation, born)
    ensures Bound(hash, pods - keys, Apart(sessions, Names(hash, keys)), incarnation, born)
  {
  }

  /** The session belongs to a ready pod, and an id already in use keeps its owner. */
  ghost predicate Issued(hash: Hash, pods: Pods, sessions: Sessions, s: McpSession) {
    var k := PodKey(s.subject, s.serverType);
    && k in pods && pods[k].phase == Ready && s.podName == PodName(hash, k)
    && (s.id in sessions ==> k == PodKey(sessions[s.id].subject, sessions[s.id].serverType))
  }

  lemma RegisterKeepsBound(hash: Hash, pods: Pods, sessions: Sessions, incarnation: map<PodKey, nat>,
                           born: map<string, nat>, s: McpSession)
    requires Bound(hash, pods, sessions, incarnation, born) && pods.Keys <= incarnation.Keys
    requires Issued(hash, pods, sessions, s)
    ensures s.id in sessions ==> Bound(hash, pods, sessions[s.id := s], incarnation, born)
    ensures s.id !in sessions ==>
              Bound(hash, pods, sessions[s.id := s], incarnation,
                    born[s.id := incarnation[PodKey(s.subject, s.serverType)]])
  {
  }

  /** The request names a stored session of its own user. */
  predicate Owns(sessions: Sessions, req: Request) {
    req.sessionId in sessions && sessions[req.sessionId].subject == req.subject
  }

  /** ... and one issued for the server type the request is sent to. */
  predicate OwnsHere(sessions: Sessions, req: Request) {
    Owns(sessions, req) && sessions[req.sessionId].serverType == req.adapter
  }

  /** A stored session has one owner, its subject, and one server type it can be used for. */
  lemma OneOwner(sessions: Sessions, a: Request, b: Request)
    requires a.sessionId == b.sessionId && a.sessionId in sessions
    ensures Owns(sessions, a) <==> a.subject == sessions[a.sessionId].subject
    ensures Owns(sessions, a) && Owns(sessions, b) ==> a.subject == b.subject
    ensures OwnsHere(sessions, a) <==> a.Key() == PodKey(sessions[a.sessionId].subject, sessions[a.sessionId].serverType)
    ensures OwnsHere(sessions, a) && OwnsHere(sessions, b) ==> a.Key() == b.Key()
  {
  }

  predicate WasReady(pods: Pods, req: Request) {
    req.Key() in pods && pods[req.Key()].phase == Ready
  }

  /**
    Which answer a request gets: the refusals in their order, and with a ready pod in the table always a decision
    about the session and the downstream token.
   */
  ghost predicate Answered(pods: Pods, sessions: Sessions, req: Request, w: Setting, resp: Response) {
    && (resp == Unavailable(UnknownType) <==> !w.known)
    && (resp == Unavailable(NotGranted) <==> w.known && !w.granted)
    && (w.known && w.granted && !w.secretsFound ==> resp == Refused)
    && (resp == NotFound ==> req.sessionId != "" && !OwnsHere(sessions, req))
    && (resp == Refused ==> !w.secretsFound || !w.tokenIssued)
    && (w.known && w.granted && w.secretsFound && req.Key() in pods && pods[req.Key()].phase == Ready ==>
          if req.sessionId != "" && !OwnsHere(sessions, req) then resp == NotFound
          else if !w.tokenIssued then resp == Refused
          else resp.Forwarded? && resp.pod == pods[req.Key()])
  }

  function Named(sessions: Sessions, req: Request): Option<McpSession> {
    if req.sessionId != "" && req.sessionId in sessions then Some(sessions[req.sessionId]) else None
  }

  /** The session is the caller's own, it is answered by the incarnation that issued it, under its own upstream id. */
  ghost predicate Honoured(sessions: Sessions, born: map<string, nat>, incarnation: map<PodKey, nat>, req: Request,
                           upstream: string)
  {
    && OwnsHere(sessions, req) && sessions[req.sessionId].upstream == upstream
    && req.sessionId in born && req.Key() in incarnation && born[req.sessionId] == incarnation[req.Key()]
  }

  /** The session an answered request leaves to be stored: none unless the pod started one just now. */
  function Started(req: Request, w: Setting, podName: string, existing: Option<McpSession>): Option<McpSession> {
    if w.upstream == "" then None
    else match existing
      case Some(s) => if s.upstream == "" then Some(s.(upstream := w.upstream)) else None
      case None =>
        if req.verb == Post
        then Some(McpSession(w.newId, req.subject, req.adapter, podName, w.upstream, w.now))
        else None
  }

  function Registered(sessions: Sessions, s: Option<McpSession>): Sessions {
    if s.Some? then sessions[s.value.id := s.value] else sessions
  }

  /** What an answer leaves in the table: the id the pod answered with, for a session that had none, and nothing else. */
  lemma RegisteredMeans(sessions: Sessions, req: Request, w: Setting, podName: string)
    requires w.newId !in sessions
    ensures var after := Registered(sessions, Started(req, w, podName, Named(sessions, req)));
            var named := req.sessionId != "" && req.sessionId in sessions;
            && (w.upstream == "" ==> after == sessions)
            && (w.upstream != "" && named && sessions[req.sessionId].id == req.sessionId
                && sessions[req.sessionId].upstream == "" ==>
                  after == sessions[req.sessionId := sessions[req.sessionId].(upstream := w.upstream)])
            && (named && sessions[req.sessionId].upstream != "" ==> after == sessions)
            && (w.upstream != "" && !named && req.verb == Post ==>
                  after == sessions[w.newId := McpSession(w.newId, req.subject, req.adapter, podName, w.upstream, w.now)])
            && (!named && req.verb != Post ==> after == sessions)
  {
  }

  /** For one user, pod names determine the server type. */
  lemma OwnNames(hash: Hash, subject: string, a: string, b: string)
    requires PodName(hash, PodKey(subject, a)) == PodName(hash, PodKey(subject, b))
    ensures a == b
  {
    var name := PodName(hash, PodKey(subject, a));
    assert |a| == |b|;
    assert a == name[..|a|] == b;
  }

  class Server {
    const manager: Manager
    ghost var incarnation: map<PodKey, nat>   // number of the latest incarnation of each pod
    ghost var spawned: nat                    // incarnations so far
    ghost var born: map<string, nat>          // incarnation each session id was issued on

    ghost predicate Valid()
      reads this, manager, manager.table, manager.backend
    {
      && manager.Valid()
      && manager.table.pods.Keys <= incarnation.Keys
      && Bound(manager.hash, manager.table.pods, manager.table.sessions, incarnation, born)
      && (forall k :: k in incarnation ==> incarnation[k] < spawned)
      && (forall id :: id in born ==> born[id] < spawned)
    }

    /** The pod is the caller's, ready and in the table. */
    ghost predicate ReadyFor(req: Request, pod: Pod)
      reads manager.table
    {
      && req.Key() in manager.table.pods && manager.table.pods[req.Key()] == pod && pod.phase == Ready
      && pod.name == PodName(manager.hash, req.Key())
    }

    constructor (hash: Hash)
      ensures Valid() && fresh(manager) && fresh(manager.table) && fresh(manager.backend)
    {
      manager := new Manager(hash);
      incarnation, spawned, born := map[], 0, map[];
    }

    /** A pod that is new in the table is a new incarnation. */
    ghost method NoteIncarnation(before: Pods, key: PodKey)
      requires manager.Valid() && OnlyColdKey(before, manager.table.pods, key) && before.Keys <= incarnation.Keys
      requires Bound(manager.hash, before, manager.table.sessions, incarnation, born)
      requires forall k :: k in incarnation ==> incarnation[k] < spawned
      requires forall id :: id in born ==> born[id] < spawned
      modifies this`incarnation, this`spawned
      ensures Valid()
      ensures key !in before && key in manager.table.pods ==> incarnation == old(incarnation)[key := old(spawned)]
      ensures !(key !in before && key in manager.table.pods) ==> incarnation == old(incarnation)
    {
      EnsureKeepsBound(manager.hash, before, manager.table.pods, key, manager.table.sessions, incarnation, born, spawned);
      incarnation := Incarnated(before, manager.table.pods, incarnation, key, spawned);
      spawned := spawned + 1;
    }

    method Ensure(req: Request, w: Setting) returns (r: Result<Pod, EnsureError>)
      requires Valid() && Ticking(w.polls, w.now)
      modifies this, manager.table, manager.backend
      ensures Valid() && born == old(born)
      ensures manager.table.sessions == old(manager.table.sessions)
      ensures OnlyColdKey(old(manager.table.pods), manager.table.pods, req.Key())
      ensures req.Key() !in old(manager.table.pods) && req.Key() in manager.table.pods ==>
                && req.Key() in incarnation
                && (forall id :: id in born ==> born[id] != incarnation[req.Key()])
                && (forall k :: k in old(incarnation) ==> old(incarnation)[k] != incarnation[req.Key()])
      ensures req.Key() in old(manager.table.pods) || req.Key() !in manager.table.pods ==> incarnation == old(incarnation)
      ensures r == Failure(UnknownType) <==> !w.known
      ensures r == Failure(NotGranted) <==> w.known && !w.granted
      ensures w.known && w.granted && WasReady(old(manager.table.pods), req) ==>
                r == Success(old(manager.table.pods)[req.Key()])
      ensures r.Success? ==>
                && r.value.phase == Ready && req.Key() in manager.table.pods
                && manager.table.pods[req.Key()] == r.value
                && r.value.name == PodName(manager.hash, req.Key())
    {
      ghost var before := manager.table.pods;
      var ask := Ask(req.Key(), w.known, w.granted, w.limits, w.configHash);
      r := manager.EnsurePod(ask, w.podToken, w.now, w.start, w.budget, w.polls);
      NoteIncarnation(before, req.Key());
    }

    /** Ends a session; the pod stays. */
    method EndSession(req: Request) returns (resp: Response)
      requires Valid()
      modifies manager.table
      ensures Valid() && manager.table.pods == old(manager.table.pods)
      ensures resp == NoContent || resp == NotFound
      ensures resp == NoContent <==> Owns(old(manager.table.sessions), req)
      ensures manager.table.sessions ==
              if resp == NoContent then old(manager.table.sessions) - {req.sessionId} else old(manager.table.sessions)
    {
      var s := manager.table.GetSession(req.sessionId);
      if s.None? || s.value.subject != req.subject {
        return NotFound;
      }
      manager.table.DeleteSession(req.sessionId);
      resp := NoContent;
    }

    /** Stores a session of a ready pod: one just issued, or a stored one that the pod has now answered for. */
    method Register(s: McpSession)
      requires Valid() && Issued(manager.hash, manager.table.pods, manager.table.sessions, s)
      modifies this`born, manager.table`sessions
      ensures Valid() && manager.table.sessions == old(manager.table.sessions)[s.id := s]
      ensures s.id in old(manager.table.sessions) ==> born == old(born)
      ensures s.id !in old(manager.table.sessions) ==>
                born == old(born)[s.id := incarnation[PodKey(s.subject, s.serverType)]]
    {
      RegisterKeepsBound(manager.hash, manager.table.pods, manager.table.sessions, incarnation, born, s);
      if s.id !in manager.table.sessions {
        born := born[s.id := incarnation[PodKey(s.subject, s.serverType)]];
      }
      manager.table.PutSession(s);
    }

    /** What follows an answer: the session, if the pod has just started one, is registered. */
    method Settle(req: Request, w: Setting, pod: Pod, existing: Option<McpSession>)
      requires Valid() && ReadyFor(req, pod) && w.newId !in manager.table.sessions
      requires existing.Some? ==>
                 && existing.value.id in manager.table.sessions
                 && manager.table.sessions[existing.value.id] == existing.value
      modifies this`born, manager.table`sessions
      ensures Valid()
      ensures manager.table.sessions == Registered(old(manager.table.sessions), Started(req, w, pod.name, existing))
    {
      var ms := existing;
      if ms.None? && req.verb == Post {
        ms := Some(McpSession(w.newId, req.subject, req.adapter, pod.name, "", w.now));
      }
      if ms.Some? && w.upstream != "" && ms.value.upstream == "" {
        Register(ms.value.(upstream := w.upstream));
      }
    }

    /** Forwards to a ready pod inside an in-flight bracket. */
    method Forward(req: Request, w: Setting, pod: Pod, existing: Option<McpSession>) returns (resp: Response)
      requires Valid() && ReadyFor(req, pod) && w.newId !in manager.table.sessions
      requires existing.Some? ==>
                 && existing.value.id in manager.table.sessions
                 && manager.table.sessions[existing.value.id] == existing.value
      modifies this`born, manager.table`sessions, manager.table`active, manager.table`inflight
      ensures Valid()
      ensures resp == Forwarded(pod, if existing.Some? then existing.value.upstream else "")
      ensures manager.table.sessions == Registered(old(manager.table.sessions), Started(req, w, pod.name, existing))
      ensures manager.table.active == old(manager.table.active)[pod.name := w.now]
      ensures Count(manager.table.inflight, pod.name) == Count(old(manager.table.inflight), pod.name)
    {
      var _ := manager.table.InFlight(pod.name, 1);
      manager.table.Touch(pod.name, w.now);
      Settle(req, w, pod, existing);
      var _ := manager.table.InFlight(pod.name, -1);
      resp := Forwarded(pod, if existing.Some? then existing.value.upstream else "");
    }

    /** The session a request names, if it is the caller's own and lives on this pod. */
    method Resolve(req: Request, pod: Pod) returns (r: Option<McpSession>)
      requires Valid() && pod.name == PodName(manager.hash, req.Key())
      ensures r.Some? <==> OwnsHere(manager.table.sessions, req)
      ensures r.Some? ==> r.value == manager.table.sessions[req.sessionId]
      ensures r.Some? ==> Honoured(manager.table.sessions, born, incarnation, req, r.value.upstream)
    {
      r := manager.table.GetSession(req.sessionId);
      if r.Some? && r.value.subject == req.subject && r.value.podName == pod.name {
        OwnNames(manager.hash, req.subject, r.value.serverType, req.adapter);
      } else {
        r := None;
      }
    }

    /** The part of a request that follows a successful `Ensure`. */
    method Serve(req: Request, w: Setting, pod: Pod) returns (resp: Response)
      requires Valid() && ReadyFor(req, pod) && w.newId !in manager.table.sessions
      modifies this`born, manager.table`sessions, manager.table`active, manager.table`inflight
      ensures Valid()
      ensures resp == NotFound || resp == Refused || (resp.Forwarded? && resp.pod == pod)
      ensures resp.Forwarded? <==> w.tokenIssued && (req.sessionId == "" || OwnsHere(old(manager.table.sessions), req))
      ensures resp == NotFound <==>
              req.sessionId != "" && !OwnsHere(old(manager.table.sessions), req)
      ensures manager.table.sessions ==
              if resp.Forwarded?
              then Registered(old(manager.table.sessions),
                              Started(req, w, pod.name, Named(old(manager.table.sessions), req)))
              else old(manager.table.sessions)
      ensures resp.Forwarded? && req.sessionId != "" ==>
                Honoured(old(manager.table.sessions), old(born), incarnation, req, resp.upstreamSession)
      ensures resp.Forwarded? && req.sessionId == "" ==> resp.upstreamSession == ""
    {
      var existing: Option<McpSession> := None;
      if req.sessionId != "" {
        existing := Resolve(req, pod);
        if existing.None? {
          return NotFound;
        }
      }
      if !w.tokenIssued {
        return Refused;
      }
      resp := Forward(req, w, pod, existing);
    }

    /** A request to a server type, from the checks to the answer. */
    method Proxy(req: Request, w: Setting) returns (resp: Response)
      requires Valid() && Ticking(w.polls, w.now) && req.verb != Delete
      requires w.newId !in manager.table.sessions
      modifies this, manager.table, manager.backend
      ensures Valid() && resp != NoContent
      ensures resp.Forwarded? ==>
                && w.known && w.granted && w.secretsFound && w.tokenIssued
                && req.Key() in manager.table.pods && manager.table.pods[req.Key()] == resp.pod
                && resp.pod.phase == Ready
      ensures resp.Forwarded? && req.sessionId != "" ==>
                Honoured(old(manager.table.sessions), old(born), incarnation, req, resp.upstreamSession)
      ensures resp.Forwarded? && req.sessionId == "" ==> resp.upstreamSession == ""
      ensures manager.table.sessions ==
              if resp.Forwarded?
              then Registered(old(manager.table.sessions),
                              Started(req, w, resp.pod.name, Named(old(manager.table.sessions), req)))
              else old(manager.table.sessions)
      ensures Answered(old(manager.table.pods), old(manager.table.sessions), req, w, resp)
    {
      if !w.known {
        return Unavailable(UnknownType);
      }
      if !w.granted {
        return Unavailable(NotGranted);
      }
      if !w.secretsFound {
        return Refused;
      }
      var ensured := Ensure(req, w);
      if ensured.Failure? {
        return Unavailable(ensured.error);
      }
      resp := Serve(req, w, ensured.value);
    }

    /**
      One request. A session id is honoured only for the user and server type it
      was issued to, and only by the pod incarnation it was issued on.
     */
    method AdapterMCP(req: Request, w: Setting) returns (resp: Response)
      requires Valid() && Ticking(w.polls, w.now)
      requires w.newId !in manager.table.sessions
      modifies this, manager.table, manager.backend
      ensures Valid()
      ensures req.verb == Delete ==>
                resp == (if Owns(old(manager.table.sessions), req) then NoContent else NotFound)
      ensures resp == NoContent ==> req.verb == Delete
      ensures resp.Forwarded? ==>
                && w.known && w.granted && w.secretsFound && w.tokenIssued
                && req.Key() in manager.table.pods && manager.table.pods[req.Key()] == resp.pod
                && resp.pod.phase == Ready
      ensures resp.Forwarded? && req.sessionId != "" ==>
                Honoured(old(manager.table.sessions), old(born), incarnation, req, resp.upstreamSession)
      ensures resp.Forwarded? && req.sessionId == "" ==> resp.upstreamSession == ""
      ensures manager.table.sessions ==
              if resp == NoContent then old(manager.table.sessions) - {req.sessionId}
              else if resp.Forwarded?
              then Registered(old(manager.table.sessions),
                              Started(req, w, resp.pod.name, Named(old(manager.table.sessions), req)))
              else old(manager.table.sessions)
      ensures req.verb != Delete ==> Answered(old(manager.table.pods), old(manager.table.sessions), req, w, resp)
    {
      if req.verb == Delete {
        resp := EndSession(req);
      } else {
        resp := Proxy(req, w);
      }
    }

    method Release(key: PodKey)
      requires Valid()
      modifies manager.table, manager.backend
      ensures Valid() && manager.table.pods == old(manager.table.pods) - {key}
    {
      PurgeKeepsBound(manager.hash, manager.table.pods, {key}, manager.table.sessions, incarnation, born);
      assert Names(manager.hash, {key}) == {PodName(manager.hash, key)};
      manager.Release(key);
    }

    method ReleaseAll(subject: string)
      requires Valid()
      modifies manager.table, manager.backend
      ensures Valid()
      ensures manager.table.pods == old(manager.table.pods) - Matching(old(manager.table.pods), subject).Keys
    {
      PurgeKeepsBound(manager.hash, manager.table.pods, Matching(manager.table.pods, subject).Keys,
                      manager.table.sessions, incarnation, born);
      manager.ReleaseAll(subject);
    }
  }
}
