/** The routing table's vocabulary: pod keys, pods, client sessions and what a table must answer. */
module Routing {
  import opened Common

  datatype Phase = Pending | Starting | Ready | Idle | Terminating | Failed | Gone

  /** One pod per user and server type. */
  datatype PodKey = PodKey(subject: string, serverType: string)

  datatype Pod = Pod(key: PodKey, name: string, endpoint: string, phase: Phase, createdAt: Time, configHash: string,
                     token: string)

  /** A client session bound to one pod. */
  datatype McpSession = McpSession(id: string, subject: string, serverType: string, podName: string,
                                   upstream: string, createdAt: Time)

  type Hash = string -> string

  const HASH_LENGTH := 8

  /** `<serverType>-<userHash>`, the name a pod has in every incarnation. */
  function PodName(hash: Hash, key: PodKey): string {
    key.serverType + "-" + hash(key.subject)
  }

  /** The truncated hash is eight characters long and separates the subjects in play. */
  ghost predicate Separates(hash: Hash, subjects: set<string>) {
    && (forall s :: s in subjects ==> |hash(s)| == HASH_LENGTH)
    && (forall s, t :: s in subjects && t in subjects && hash(s) == hash(t) ==> s == t)
  }

  /** Then pod names separate the keys, whatever the server types look like. */
  lemma NamesSeparate(hash: Hash, subjects: set<string>, a: PodKey, b: PodKey)
    requires Separates(hash, subjects) && a.subject in subjects && b.subject in subjects
    requires PodName(hash, a) == PodName(hash, b)
    ensures a == b
  {
    var name := PodName(hash, a);
    assert |a.serverType| == |b.serverType| == |name| - HASH_LENGTH - 1;
    assert a.serverType == name[..|a.serverType|] == b.serverType;
    assert hash(a.subject) == name[|a.serverType| + 1..] == hash(b.subject);
  }

  type Pods = map<PodKey, Pod>

  /** The pods a listing for the subject covers; the empty subject means all. */
  function Matching(pods: Pods, subject: string): Pods {
    map k | k in pods && (subject == "" || k.subject == subject) :: pods[k]
  }

  /** The list holds every pod of the map exactly once, in some order. */
  ghost predicate Lists(out: seq<Pod>, pods: Pods) {
    && |out| == |pods|
    && (forall i :: 0 <= i < |out| ==> out[i].key in pods && pods[out[i].key] == out[i])
    && (forall i, j :: 0 <= i < j < |out| ==> out[i].key != out[j].key)
  }

  /** Pods that are going away are not held against a user or a server type. */
  predicate Counted(p: Pod) {
    p.phase != Gone && p.phase != Terminating
  }

  function OfUser(subject: string): Pod -> bool {
    p => Counted(p) && p.key.subject == subject
  }

  function OfType(serverType: string): Pod -> bool {
    p => Counted(p) && p.key.serverType == serverType
  }

  ghost function Such(pods: Pods, f: Pod -> bool): set<PodKey> {
    set k | k in pods && f(pods[k])
  }

  datatype Counts = Counts(perUser: nat, perType: nat, total: nat)

  ghost function CountsOf(pods: Pods, subject: string, serverType: string): Counts {
    Counts(|Such(pods, OfUser(subject))|, |Such(pods, OfType(serverType))|, |pods|)
  }

  /** Neither gone nor terminating pods count for a user or a type; in total all pods do. */
  lemma CountsMean(pods: Pods, subject: string, serverType: string)
    ensures CountsOf(pods, subject, serverType).perUser ==
            |set k | k in pods && pods[k].key.subject == subject && pods[k].phase !in {Gone, Terminating}|
    ensures CountsOf(pods, subject, serverType).perType ==
            |set k | k in pods && pods[k].key.serverType == serverType && pods[k].phase !in {Gone, Terminating}|
    ensures CountsOf(pods, subject, serverType).total == |pods|
  {
    assert Such(pods, OfUser(subject)) ==
           set k | k in pods && pods[k].key.subject == subject && pods[k].phase !in {Gone, Terminating};
    assert Such(pods, OfType(serverType)) ==
           set k | k in pods && pods[k].key.serverType == serverType && pods[k].phase !in {Gone, Terminating};
  }

  /** Every pod is stored under its own key. */
  ghost predicate Keyed(pods: Pods) {
    forall k :: k in pods ==> pods[k].key == k
  }

  function Tally(listed: seq<Pod>, f: Pod -> bool): nat {
    if listed == [] then 0
    else Tally(listed[..|listed| - 1], f) + if f(listed[|listed| - 1]) then 1 else 0
  }

  lemma SuchNext(pods: Pods, p: Pod, f: Pod -> bool)
    requires p.key !in pods
    ensures |Such(pods[p.key := p], f)| == |Such(pods, f)| + if f(p) then 1 else 0
  {
    assert Such(pods[p.key := p], f) == Such(pods, f) + if f(p) then {p.key} else {};
  }

  /** Tallying over a listing counts the pods of the table. */
  lemma {:induction false} TallyCounts(listed: seq<Pod>, pods: Pods, f: Pod -> bool)
    requires Lists(listed, pods)
    ensures Tally(listed, f) == |Such(pods, f)|
  {
    if listed == [] {
      assert pods == map[];
    } else {
      var last := listed[|listed| - 1];
      var rest := pods - {last.key};
      assert pods == rest[last.key := last];
      TallyCounts(listed[..|listed| - 1], rest, f);
      SuchNext(rest, last, f);
    }
  }

  method CountListed(listed: seq<Pod>, ghost pods: Pods, subject: string, serverType: string) returns (c: Counts)
    requires Lists(listed, pods)
    ensures c == CountsOf(pods, subject, serverType)
  {
    var perUser, perType := 0, 0;
    for i := 0 to |listed|
      invariant perUser == Tally(listed[..i], OfUser(subject))
      invariant perType == Tally(listed[..i], OfType(serverType))
    {
      assert listed[..i + 1][..i] == listed[..i];
      if Counted(listed[i]) {
        if listed[i].key.subject == subject {
          perUser := perUser + 1;
        }
        if listed[i].key.serverType == serverType {
          perType := perType + 1;
        }
      }
    }
    assert listed[..|listed|] == listed;
    TallyCounts(listed, pods, OfUser(subject));
    TallyCounts(listed, pods, OfType(serverType));
    c := Counts(perUser, perType, |listed|);
  }

  /** Listing one more pod. */
  lemma ListsOneMore(out: seq<Pod>, pods: Pods, p: Pod)
    requires Lists(out, pods) && p.key !in pods
    ensures Lists(out + [p], pods[p.key := p])
  {
  }

  /** A duplicate-free listing of the right length misses nothing. */
  lemma {:induction false} ListsEverything(listed: seq<Pod>, pods: Pods)
    requires Lists(listed, pods)
    ensures forall p :: p in listed <==> p.key in pods && pods[p.key] == p
  {
    if listed != [] {
      var last := listed[|listed| - 1];
      var init, rest := listed[..|listed| - 1], pods - {last.key};
      assert pods == rest[last.key := last];
      ListsEverything(init, rest);
      assert listed == init + [last];
    } else {
      assert pods == map[];
    }
  }

  function KeysOf(listed: seq<Pod>): set<PodKey> {
    set p | p in listed :: p.key
  }

  lemma KeysOfNext(listed: seq<Pod>, i: nat)
    requires i < |listed|
    ensures KeysOf(listed[..i + 1]) == KeysOf(listed[..i]) + {listed[i].key}
    ensures KeysOf(listed[..0]) == {} && listed[..|listed|] == listed
  {
  }

  lemma {:induction false} AllKeysListed(listed: seq<Pod>, pods: Pods)
    requires Lists(listed, pods)
    ensures KeysOf(listed) == pods.Keys
  {
    if listed != [] {
      var last := listed[|listed| - 1];
      var init, rest := listed[..|listed| - 1], pods - {last.key};
      assert pods == rest[last.key := last];
      AllKeysListed(init, rest);
      KeysOfNext(listed, |listed| - 1);
    } else {
      assert pods == map[];
    }
  }

  /** Walking a map key by key, what is listed grows by the key taken, and in the end it is the whole map. */
  lemma WalkStep(out: seq<Pod>, wanted: Pods, todo: set<PodKey>, k: PodKey)
    requires Keyed(wanted) && k in todo && k in wanted && Lists(out, wanted - todo)
    ensures Lists(out + [wanted[k]], wanted - (todo - {k}))
  {
    assert (wanted - todo)[k := wanted[k]] == wanted - (todo - {k});
    ListsOneMore(out, wanted - todo, wanted[k]);
  }

  lemma WalkEnds(wanted: Pods)
    ensures wanted - {} == wanted && Lists([], wanted - wanted.Keys)
  {
    assert wanted - wanted.Keys == map[];
  }

  type Sessions = map<string, McpSession>

  /** The sessions on pods of other names. */
  function Apart(sessions: Sessions, names: set<string>): Sessions {
    map id | id in sessions && sessions[id].podName !in names :: sessions[id]
  }

  lemma ApartTwice(sessions: Sessions, a: set<string>, b: set<string>)
    ensures Apart(Apart(sessions, a), b) == Apart(sessions, a + b)
    ensures Apart(sessions, {}) == sessions
  {
  }
}
