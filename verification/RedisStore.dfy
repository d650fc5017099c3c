/** The contents of Redis that stand for a table of pods, and how writes keep them so. */
module RedisStore {
  import opened Common
  import opened Routing
  import opened RedisKeys

  /** A pod as stored: everything but the token. */
  datatype PodRecord = PodRecord(subject: string, serverType: string, name: string, endpoint: string, phase: Phase,
                                 createdAt: Time, configHash: string)

  datatype Value =
    | PodValue(rec: PodRecord)
    | TextValue(text: string)
    | SetValue(members: set<string>)

  type Store = map<string, Value>

  /** The key prefix, the user hash and the subjects it has to separate. */
  datatype Env = Env(prefix: string, hash: Hash, subjects: set<string>)
  {
    function Of(k: Key): string {
      Render(prefix, k)
    }

    function Record(k: PodKey): string {
      Of(PodRecordKey(k.serverType, hash(k.subject)))
    }

    function Token(k: PodKey): string {
      Of(TokenKey(PodName(hash, k)))
    }
  }

  function Recorded(p: Pod): PodRecord {
    PodRecord(p.key.subject, p.key.serverType, p.name, p.endpoint, p.phase, p.createdAt, p.configHash)
  }

  function Rebuilt(key: PodKey, rec: PodRecord, token: string): Pod {
    Pod(key, rec.name, rec.endpoint, rec.phase, rec.createdAt, rec.configHash, token)
  }

  const BAR := '|'

  /** What the gateway puts: pods named after their key, with a token, for configured server types. */
  ghost predicate Admissible(env: Env, p: Pod) {
    && p.key.subject in env.subjects
    && BAR !in p.key.serverType
    && p.name == PodName(env.hash, p.key)
    && p.token != ""
  }

  ghost predicate AdmissibleTable(env: Env, pods: Pods) {
    Keyed(pods) && forall k {:trigger Admissible(env, pods[k])} :: k in pods ==> Admissible(env, pods[k])
  }

  function Entry(k: PodKey): string {
    k.serverType + [BAR] + k.subject
  }

  ghost function Entries(pods: Pods): set<string> {
    set k | k in pods :: Entry(k)
  }

  ghost function TypesOf(pods: Pods, subject: string): set<string> {
    set k | k in pods && k.subject == subject :: k.serverType
  }

  ghost predicate SetIs(store: Store, key: string, members: set<string>) {
    if key in store then store[key] == SetValue(members) else members == {}
  }

  ghost predicate RecordsRepresent(env: Env, store: Store, pods: Pods) {
    forall k: PodKey {:trigger env.Record(k)} :: k.subject in env.subjects ==>
      if k in pods
      then env.Record(k) in store && store[env.Record(k)] == PodValue(Recorded(pods[k]))
      else env.Record(k) !in store
  }

  ghost predicate TokensRepresent(env: Env, store: Store, pods: Pods) {
    forall k {:trigger env.Token(k)} :: k in pods ==>
      env.Token(k) in store && store[env.Token(k)] == TextValue(pods[k].token)
  }

  ghost predicate IndexesRepresent(env: Env, store: Store, pods: Pods) {
    && SetIs(store, env.Of(AllKey), Entries(pods))
    && (forall s {:trigger TypesOf(pods, s)} :: s in env.subjects ==> SetIs(store, env.Of(UserKey(s)), TypesOf(pods, s)))
  }

  /** The store holds exactly these pods: records, tokens and both kinds of index. */
  ghost predicate Represents(env: Env, store: Store, pods: Pods) {
    && Separates(env.hash, env.subjects)
    && AdmissibleTable(env, pods)
    && RecordsRepresent(env, store, pods)
    && TokensRepresent(env, store, pods)
    && IndexesRepresent(env, store, pods)
  }

  function Members(store: Store, key: string): set<string> {
    if key in store && store[key].SetValue? then store[key].members else {}
  }

  /** SADD */
  function Added(store: Store, key: string, member: string): Store {
    store[key := SetValue(Members(store, key) + {member})]
  }

  /** SREM, which removes a set that becomes empty. */
  function Removed(store: Store, key: string, member: string): Store {
    var rest := Members(store, key) - {member};
    if key !in store then store
    else if rest == {} then store - {key}
    else store[key := SetValue(rest)]
  }

  /** The transaction of `PutPod`. */
  function WithPod(env: Env, store: Store, p: Pod): Store {
    var s0 := store[env.Record(p.key) := PodValue(Recorded(p))];
    var s1 := Added(s0, env.Of(UserKey(p.key.subject)), p.key.serverType);
    var s2 := Added(s1, env.Of(AllKey), Entry(p.key));
    if p.token != "" then s2[env.Of(TokenKey(p.name)) := TextValue(p.token)] else s2
  }

  /** The transaction of `DeletePod`. */
  function WithoutPod(env: Env, store: Store, key: PodKey): Store {
    var name := PodName(env.hash, key);
    var s0 := store - {env.Record(key), env.Token(key), env.Of(ActiveKey(name)), env.Of(InFlightKey(name))};
    var s1 := Removed(s0, env.Of(UserKey(key.subject)), key.serverType);
    Removed(s1, env.Of(AllKey), Entry(key))
  }

  /** An index entry determines the key, whatever characters the subject holds. */
  lemma EntryIsInjective(a: PodKey, b: PodKey)
    requires BAR !in a.serverType && BAR !in b.serverType && Entry(a) == Entry(b)
    ensures a == b
  {
    var e := Entry(a);
    assert e[|a.serverType|] == BAR && e[|b.serverType|] == BAR;
    assert forall i :: 0 <= i < |a.serverType| ==> e[i] == a.serverType[i] && a.serverType[i] in a.serverType;
    assert forall i :: 0 <= i < |b.serverType| ==> e[i] == b.serverType[i] && b.serverType[i] in b.serverType;
    assert |a.serverType| == |b.serverType|;
    assert a.serverType == e[..|a.serverType|] == b.serverType;
    assert a.subject == e[|a.serverType| + 1..] == b.subject;
  }

  /** Without that condition it fails: an entry is shared exactly if there is a second bar. */
  lemma EntrySharedExactlyIf(k: PodKey)
    ensures (exists j: PodKey :: j != k && Entry(j) == Entry(k)) <==> BAR in k.serverType || BAR in k.subject
  {
    if BAR in k.serverType {
      var i :| 0 <= i < |k.serverType| && k.serverType[i] == BAR;
      var j := PodKey(k.serverType[i + 1..] + [BAR] + k.subject, k.serverType[..i]);
      assert k.serverType == k.serverType[..i] + [BAR] + k.serverType[i + 1..];
      assert Entry(j) == Entry(k) && |j.serverType| < |k.serverType|;
    } else if BAR in k.subject {
      var i :| 0 <= i < |k.subject| && k.subject[i] == BAR;
      var j := PodKey(k.subject[i + 1..], k.serverType + [BAR] + k.subject[..i]);
      assert k.subject == k.subject[..i] + [BAR] + k.subject[i + 1..];
      assert Entry(j) == Entry(k) && |j.serverType| > |k.serverType|;
    } else if j: PodKey :| j != k && Entry(j) == Entry(k) {
      OneBar(j, k);
    }
  }

  lemma OneBar(j: PodKey, k: PodKey)
    requires Entry(j) == Entry(k) && BAR !in k.serverType && BAR !in k.subject
    ensures j == k
  {
    var e := Entry(k);
    assert forall i :: 0 <= i < |e| && i != |k.serverType| ==>
        e[i] == (if i < |k.serverType| then k.serverType[i] else k.subject[i - |k.serverType| - 1]) && e[i] != BAR;
    assert e[|j.serverType|] == BAR;
    assert j.serverType == e[..|j.serverType|] && k.serverType == e[..|k.serverType|];
    assert j.subject == e[|j.serverType| + 1..] && k.subject == e[|k.serverType| + 1..];
  }

  /** The keys of one pod's records collide neither with another pod's nor with an index. */
  lemma RecordsApart(env: Env, a: PodKey, b: PodKey)
    requires Separates(env.hash, env.subjects) && a.subject in env.subjects && b.subject in env.subjects
    ensures env.Record(a) == env.Record(b) ==> a == b
    ensures env.Token(a) == env.Token(b) ==> a == b
    ensures env.Record(a) != env.Token(b)
  {
    RenderIsInjective(env.prefix);
    if env.Token(a) == env.Token(b) {
      NamesSeparate(env.hash, env.subjects, a, b);
    }
  }

  lemma IndexesApart(env: Env, a: PodKey, s: string)
    requires Separates(env.hash, env.subjects) && a.subject in env.subjects
    ensures env.Record(a) != env.Of(AllKey) && env.Token(a) != env.Of(AllKey)
    ensures env.Record(a) != env.Of(UserKey(s)) && env.Token(a) != env.Of(UserKey(s))
    ensures env.Of(UserKey(s)) != env.Of(AllKey)
    ensures env.Of(UserKey(s)) == env.Of(UserKey(a.subject)) ==> s == a.subject
    ensures env.Of(ActiveKey(PodName(env.hash, a))) !in {env.Of(AllKey), env.Of(UserKey(s))}
    ensures env.Of(InFlightKey(PodName(env.hash, a))) !in {env.Of(AllKey), env.Of(UserKey(s))}
  {
    RenderIsInjective(env.prefix);
  }

  lemma PutKeepsRecords(env: Env, store: Store, pods: Pods, p: Pod)
    requires Represents(env, store, pods) && Admissible(env, p)
    ensures RecordsRepresent(env, WithPod(env, store, p), pods[p.key := p])
  {
    var after := WithPod(env, store, p);
    forall k: PodKey | k.subject in env.subjects
      ensures if k in pods[p.key := p]
              then env.Record(k) in after
                   && after[env.Record(k)] == PodValue(Recorded(pods[p.key := p][k]))
              else env.Record(k) !in after
    {
      RecordsApart(env, k, p.key);
      IndexesApart(env, k, p.key.subject);
    }
  }

  lemma PutKeepsTokens(env: Env, store: Store, pods: Pods, p: Pod)
    requires Represents(env, store, pods) && Admissible(env, p)
    ensures TokensRepresent(env, WithPod(env, store, p), pods[p.key := p])
  {
    forall k | k in pods[p.key := p]
      ensures var after := WithPod(env, store, p);
              env.Token(k) in after && after[env.Token(k)] == TextValue(pods[p.key := p][k].token)
    {
      assert k != p.key ==> Admissible(env, pods[k]);
      RecordsApart(env, k, p.key);
      RecordsApart(env, p.key, k);
      IndexesApart(env, k, p.key.subject);
    }
  }

  lemma PutKeepsAll(env: Env, store: Store, pods: Pods, p: Pod)
    requires Represents(env, store, pods) && Admissible(env, p)
    ensures SetIs(WithPod(env, store, p), env.Of(AllKey), Entries(pods[p.key := p]))
  {
    assert Entries(pods[p.key := p]) == Entries(pods) + {Entry(p.key)};
    IndexesApart(env, p.key, p.key.subject);
  }

  lemma PutKeepsUser(env: Env, store: Store, pods: Pods, p: Pod, s: string)
    requires Separates(env.hash, env.subjects) && Admissible(env, p)
    requires SetIs(store, env.Of(UserKey(s)), TypesOf(pods, s))
    ensures SetIs(WithPod(env, store, p), env.Of(UserKey(s)), TypesOf(pods[p.key := p], s))
  {
    IndexesApart(env, p.key, s);
    assert TypesOf(pods[p.key := p], s) == TypesOf(pods, s) + if s == p.key.subject then {p.key.serverType} else {};
  }

  lemma PutKeepsIndexes(env: Env, store: Store, pods: Pods, p: Pod)
    requires Represents(env, store, pods) && Admissible(env, p)
    ensures IndexesRepresent(env, WithPod(env, store, p), pods[p.key := p])
  {
    PutKeepsAll(env, store, pods, p);
    forall s | s in env.subjects
      ensures SetIs(WithPod(env, store, p), env.Of(UserKey(s)), TypesOf(pods[p.key := p], s))
    {
      PutKeepsUser(env, store, pods, p, s);
    }
  }

  lemma PutKeepsAdmissible(env: Env, pods: Pods, p: Pod)
    requires AdmissibleTable(env, pods) && Admissible(env, p)
    ensures AdmissibleTable(env, pods[p.key := p])
  {
  }

  lemma PutKeeps(env: Env, store: Store, pods: Pods, p: Pod)
    requires Represents(env, store, pods) && Admissible(env, p)
    ensures Represents(env, WithPod(env, store, p), pods[p.key := p])
  {
    PutKeepsAdmissible(env, pods, p);
    PutKeepsRecords(env, store, pods, p);
    PutKeepsTokens(env, store, pods, p);
    PutKeepsIndexes(env, store, pods, p);
  }

  /** Removing a member leaves every other key alone. */
  lemma RemovedElsewhere(store: Store, key: string, member: string, other: string)
    requires other != key
    ensures var after := Removed(store, key, member);
            (other in after <==> other in store) && (other in store ==> after[other] == store[other])
  {
  }

  lemma DeleteElsewhere(env: Env, store: Store, key: PodKey, other: string)
    requires other !in {env.Record(key), env.Token(key), env.Of(UserKey(key.subject)), env.Of(AllKey)}
    requires other != env.Of(ActiveKey(PodName(env.hash, key))) && other != env.Of(InFlightKey(PodName(env.hash, key)))
    ensures var after := WithoutPod(env, store, key);
            (other in after <==> other in store) && (other in store ==> after[other] == store[other])
  {
    var name := PodName(env.hash, key);
    var s0 := store - {env.Record(key), env.Token(key), env.Of(ActiveKey(name)), env.Of(InFlightKey(name))};
    var s1 := Removed(s0, env.Of(UserKey(key.subject)), key.serverType);
    RemovedElsewhere(s0, env.Of(UserKey(key.subject)), key.serverType, other);
    RemovedElsewhere(s1, env.Of(AllKey), Entry(key), other);
  }

  /** Records and tokens are neither activity nor in-flight records. */
  lemma ActivityApart(env: Env, a: PodKey, name: string)
    requires Separates(env.hash, env.subjects) && a.subject in env.subjects
    ensures env.Record(a) !in {env.Of(ActiveKey(name)), env.Of(InFlightKey(name))}
    ensures env.Token(a) !in {env.Of(ActiveKey(name)), env.Of(InFlightKey(name))}
  {
    RenderIsInjective(env.prefix);
  }

  /** A delete leaves none of the pod's keys behind, known or not. */
  lemma DeleteLeavesNothing(env: Env, store: Store, key: PodKey)
    requires Separates(env.hash, env.subjects) && key.subject in env.subjects
    ensures var after, name := WithoutPod(env, store, key), PodName(env.hash, key);
            && env.Record(key) !in after && env.Token(key) !in after
            && env.Of(ActiveKey(name)) !in after && env.Of(InFlightKey(name)) !in after
  {
    var name := PodName(env.hash, key);
    var gone := {env.Record(key), env.Token(key), env.Of(ActiveKey(name)), env.Of(InFlightKey(name))};
    var s1 := Removed(store - gone, env.Of(UserKey(key.subject)), key.serverType);
    IndexesApart(env, key, key.subject);
    forall k | k in gone ensures k !in WithoutPod(env, store, key) {
      RemovedElsewhere(store - gone, env.Of(UserKey(key.subject)), key.serverType, k);
      RemovedElsewhere(s1, env.Of(AllKey), Entry(key), k);
    }
  }

  lemma DeleteKeepsOthers(env: Env, store: Store, key: PodKey, k: PodKey)
    requires Separates(env.hash, env.subjects) && key.subject in env.subjects && k.subject in env.subjects && k != key
    ensures var after := WithoutPod(env, store, key);
            && (env.Record(k) in after <==> env.Record(k) in store)
            && (env.Record(k) in store ==> after[env.Record(k)] == store[env.Record(k)])
            && (env.Token(k) in after <==> env.Token(k) in store)
            && (env.Token(k) in store ==> after[env.Token(k)] == store[env.Token(k)])
  {
    RecordsApart(env, k, key);
    RecordsApart(env, key, k);
    IndexesApart(env, k, key.subject);
    ActivityApart(env, k, PodName(env.hash, key));
    DeleteElsewhere(env, store, key, env.Record(k));
    DeleteElsewhere(env, store, key, env.Token(k));
  }

  lemma DeleteKeepsRecords(env: Env, store: Store, pods: Pods, key: PodKey)
    requires Represents(env, store, pods) && key.subject in env.subjects
    ensures RecordsRepresent(env, WithoutPod(env, store, key), pods - {key})
  {
    DeleteLeavesNothing(env, store, key);
    var after := WithoutPod(env, store, key);
    forall k: PodKey | k.subject in env.subjects
      ensures if k in pods - {key} then env.Record(k) in after && after[env.Record(k)] == PodValue(Recorded(pods[k]))
              else env.Record(k) !in after
    {
      if k != key {
        DeleteKeepsOthers(env, store, key, k);
      }
    }
  }

  lemma DeleteKeepsTokens(env: Env, store: Store, pods: Pods, key: PodKey)
    requires Represents(env, store, pods) && key.subject in env.subjects
    ensures TokensRepresent(env, WithoutPod(env, store, key), pods - {key})
  {
    var after := WithoutPod(env, store, key);
    forall k | k in pods - {key} ensures env.Token(k) in after && after[env.Token(k)] == TextValue(pods[k].token) {
      assert Admissible(env, pods[k]);
      DeleteKeepsOthers(env, store, key, k);
    }
  }

  /** The part of the deletion that concerns an index set. */
  lemma RemovedIs(store: Store, key: string, members: set<string>, member: string)
    requires SetIs(store, key, members)
    ensures SetIs(Removed(store, key, member), key, members - {member})
  {
  }

  lemma DeleteKeepsAll(env: Env, store: Store, pods: Pods, key: PodKey)
    requires Represents(env, store, pods) && key.subject in env.subjects && BAR !in key.serverType
    ensures SetIs(WithoutPod(env, store, key), env.Of(AllKey), Entries(pods - {key}))
  {
    var name := PodName(env.hash, key);
    var s0 := store - {env.Record(key), env.Token(key), env.Of(ActiveKey(name)), env.Of(InFlightKey(name))};
    var s1 := Removed(s0, env.Of(UserKey(key.subject)), key.serverType);
    IndexesApart(env, key, key.subject);
    RemovedElsewhere(s0, env.Of(UserKey(key.subject)), key.serverType, env.Of(AllKey));
    assert SetIs(s1, env.Of(AllKey), Entries(pods));
    RemovedIs(s1, env.Of(AllKey), Entries(pods), Entry(key));
    forall k | k in pods && Entry(k) == Entry(key) ensures k == key {
      assert Admissible(env, pods[k]);
      EntryIsInjective(k, key);
    }
    assert Entries(pods) - {Entry(key)} == Entries(pods - {key});
  }

  lemma TypesWithout(pods: Pods, key: PodKey, s: string)
    ensures TypesOf(pods - {key}, s) == TypesOf(pods, s) - if s == key.subject then {key.serverType} else {}
  {
  }

  lemma DeleteKeepsUser(env: Env, store: Store, pods: Pods, key: PodKey, s: string)
    requires Separates(env.hash, env.subjects) && key.subject in env.subjects
    requires SetIs(store, env.Of(UserKey(s)), TypesOf(pods, s))
    ensures SetIs(WithoutPod(env, store, key), env.Of(UserKey(s)), TypesOf(pods - {key}, s))
  {
    var name := PodName(env.hash, key);
    var s0 := store - {env.Record(key), env.Token(key), env.Of(ActiveKey(name)), env.Of(InFlightKey(name))};
    var s1 := Removed(s0, env.Of(UserKey(key.subject)), key.serverType);
    IndexesApart(env, key, s);
    TypesWithout(pods, key, s);
    assert SetIs(s0, env.Of(UserKey(s)), TypesOf(pods, s));
    if s == key.subject {
      RemovedIs(s0, env.Of(UserKey(s)), TypesOf(pods, s), key.serverType);
    } else {
      RemovedElsewhere(s0, env.Of(UserKey(key.subject)), key.serverType, env.Of(UserKey(s)));
    }
    RemovedElsewhere(s1, env.Of(AllKey), Entry(key), env.Of(UserKey(s)));
  }

  lemma DeleteKeeps(env: Env, store: Store, pods: Pods, key: PodKey)
    requires Represents(env, store, pods) && key.subject in env.subjects && BAR !in key.serverType
    ensures Represents(env, WithoutPod(env, store, key), pods - {key})
  {
    DeleteKeepsRecords(env, store, pods, key);
    DeleteKeepsTokens(env, store, pods, key);
    DeleteKeepsAll(env, store, pods, key);
    forall s | s in env.subjects
      ensures SetIs(WithoutPod(env, store, key), env.Of(UserKey(s)), TypesOf(pods - {key}, s))
    {
      DeleteKeepsUser(env, store, pods, key, s);
    }
  }

  function StoredToken(env: Env, store: Store, name: string): string {
    var key := env.Of(TokenKey(name));
    if key in store && store[key].TextValue? then store[key].text else ""
  }

  /** What a read of the store rebuilds. */
  function StoredPod(env: Env, store: Store, key: PodKey): Option<Pod> {
    if env.Record(key) in store && store[env.Record(key)].PodValue? then
      var rec := store[env.Record(key)].rec;
      Some(Rebuilt(key, rec, StoredToken(env, store, rec.name)))
    else None
  }

  /**
    A put pod is read back as it was put exactly when it has a token or the
    store holds none for its name: an empty token does not overwrite an old one.
   */
  lemma ReadBack(env: Env, store: Store, p: Pod)
    requires Separates(env.hash, env.subjects) && p.key.subject in env.subjects && p.name == PodName(env.hash, p.key)
    ensures StoredPod(env, WithPod(env, store, p), p.key) == Some(p)
            <==> p.token != "" || StoredToken(env, store, p.name) == ""
  {
    RecordsApart(env, p.key, p.key);
    IndexesApart(env, p.key, p.key.subject);
    var after := WithPod(env, store, p);
    assert after[env.Record(p.key)] == PodValue(Recorded(p));
    assert p.token == "" ==> StoredToken(env, after, p.name) == StoredToken(env, store, p.name);
  }
}
