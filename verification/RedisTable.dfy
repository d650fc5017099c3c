/** The Redis routing table of one gateway process: the store behind an in-process cache. */
module RedisTable {
  import opened Common
  import opened Routing
  import opened MemoryTable
  import opened RedisKeys
  import opened RedisStore

  /** Every cached pod is the one a read of the store would rebuild. */
  ghost predicate Coherent(cache: Pods, pods: Pods) {
    forall k :: k in cache ==> k in pods && cache[k] == pods[k]
  }

  /** Reads an index entry back: the server type ends at the first bar. */
  method ParseEntry(e: string) returns (r: Option<PodKey>)
    ensures BAR !in e ==> r == None
    ensures forall k: PodKey :: e == Entry(k) ==> (r == Some(k) <==> BAR !in k.serverType)
  {
    for i := 0 to |e|
      invariant BAR !in e[..i]
    {
      if e[i] == BAR {
        r := Some(PodKey(e[i + 1..], e[..i]));
        assert e == Entry(r.value);
        forall k: PodKey | e == Entry(k) ensures r == Some(k) <==> BAR !in k.serverType {
          if BAR !in k.serverType {
            EntryIsInjective(r.value, k);
          }
        }
        return;
      }
    }
    assert e[..|e|] == e;
    assert forall k: PodKey :: Entry(k)[|k.serverType|] == BAR;
    r := None;
  }

  /** Reads back all entries of the index of pods. */
  method ParseEntries(entries: set<string>, ghost keys: set<PodKey>) returns (parsed: set<PodKey>)
    requires forall k :: k in keys ==> BAR !in k.serverType
    requires entries == set k | k in keys :: Entry(k)
    ensures parsed == keys
  {
    parsed := {};
    var todo := entries;
    while todo != {}
      invariant todo <= entries
      invariant parsed == set k | k in keys && Entry(k) !in todo
      decreases |todo|
    {
      var e :| e in todo;
      ghost var k :| k in keys && Entry(k) == e;
      var r := ParseEntry(e);
      forall j | j in keys && Entry(j) == e ensures j == k {
        EntryIsInjective(j, k);
      }
      if r.Some? {
        parsed := parsed + {r.value};
      }
      todo := todo - {e};
    }
  }

  /** Some of the pods, all of subjects in play. */
  ghost predicate Part(env: Env, wanted: Pods, pods: Pods) {
    Keyed(wanted) && forall k :: k in wanted ==> k.subject in env.subjects && k in pods && pods[k] == wanted[k]
  }

  lemma MatchingIsPart(env: Env, pods: Pods, subject: string)
    requires AdmissibleTable(env, pods)
    ensures Part(env, Matching(pods, subject), pods)
  {
    forall k | k in pods ensures k.subject in env.subjects {
      assert Admissible(env, pods[k]);
    }
  }

  /** How the store answers an operation. */
  datatype Io = Up | Down | TokenLost

  datatype StoreError = StoreDown

  /** The cache answers for this key. */
  predicate Served(cache: Pods, key: PodKey) {
    key in cache && cache[key].phase == Ready
  }

  lemma CacheOne(cache: Pods, pods: Pods, key: PodKey, p: Pod)
    requires Coherent(cache, pods)
    ensures Coherent(cache[key := p], pods) <==> key in pods && pods[key] == p
  {
    assert cache[key := p][key] == p;
  }

  lemma LostTokenDiffers(env: Env, pods: Pods, key: PodKey)
    requires AdmissibleTable(env, pods)
    ensures key in pods ==> pods[key].key == key && pods[key].(token := "") != pods[key]
  {
    if key in pods {
      assert Admissible(env, pods[key]);
    }
  }

  /** The keys whose read fails and which the cache cannot answer for. */
  function Unread(cache: Pods, fails: set<PodKey>): set<PodKey> {
    set k | k in fails && !Served(cache, k)
  }

  /** Reading one key changes what the cache answers for that key only. */
  lemma ServedElsewhere(before: Pods, after: Pods, key: PodKey, k: PodKey)
    requires after - {key} == before - {key} && k != key
    ensures Served(after, k) <==> Served(before, k)
  {
    assert k in after - {key} <==> k in before - {key};
    assert k in before ==> (after - {key})[k] == (before - {key})[k];
  }

  class Redis {
    const env: Env
    const mem: Memory
    var store: Store
    ghost var pods: Pods

    ghost predicate Valid()
      reads this, mem
    {
      mem.Valid() && Represents(env, store, pods) && Coherent(mem.pods, pods)
    }

    constructor (env: Env)
      requires Separates(env.hash, env.subjects)
      ensures Valid() && fresh(mem) && this.env == env
      ensures pods == map[]
    {
      this.env := env;
      mem := new Memory();
      store, pods := map[], map[];
    }

    /** Reads a pod from the store. The token is read last, and failing to read it goes unnoticed. */
    method Fetch(key: PodKey, io: Io) returns (r: Result<Option<Pod>, StoreError>)
      requires Represents(env, store, pods) && key.subject in env.subjects
      ensures r == match io
                   case Down => Failure(StoreDown)
                   case Up => Success(if key in pods then Some(pods[key]) else None)
                   case TokenLost => Success(if key in pods then Some(pods[key].(token := "")) else None)
    {
      if io == Down {
        return Failure(StoreDown);
      }
      var recordKey := Build(env.prefix, ["pod", key.serverType, env.hash(key.subject)]);
      assert recordKey == env.Record(key);
      if recordKey !in store {
        return Success(None);
      }
      var rec := store[recordKey].rec;
      assert rec == Recorded(pods[key]);
      var tokenKey := Build(env.prefix, ["podtok", rec.name]);
      assert tokenKey == env.Token(key) by { assert Admissible(env, pods[key]); }
      var token := if io == Up then store[tokenKey].text else "";
      r := Success(Some(Rebuilt(key, rec, token)));
    }

    /**
      Caches what was read of a key. The cache is coherent then exactly if that is what the store
      holds now, be it that the token was lost or that the pod changed since.
     */
    method Cache(key: PodKey, read: Option<Pod>)
      requires Valid() && (read.Some? ==> read.value.key == key)
      modifies mem
      ensures mem.pods == if read.Some? then old(mem.pods)[key := read.value] else old(mem.pods) - {key}
      ensures Valid() <==> read.None? || (key in pods && pods[key] == read.value)
    {
      if read.None? {
        mem.DeletePod(key);
      } else {
        CacheOne(mem.pods, pods, key, read.value);
        mem.PutPod(read.value);
      }
    }

    /**
      Answers from the cache if it has the pod ready, otherwise from the store. The cache
      stays coherent unless just the token was lost: then a pod without its token is cached.
     */
    method GetPod(key: PodKey, io: Io) returns (r: Result<Option<Pod>, StoreError>)
      requires Valid() && key.subject in env.subjects
      modifies mem
      ensures mem.pods - {key} == old(mem.pods) - {key}
      ensures Served(old(mem.pods), key) || io == Up ==>
                Valid() && r == Success(if key in pods then Some(pods[key]) else None)
      ensures !Served(old(mem.pods), key) && io == Down ==> Valid() && r == Failure(StoreDown)
      ensures !Served(old(mem.pods), key) && io == TokenLost ==>
                && r == Success(if key in pods then Some(pods[key].(token := "")) else None)
                && (Valid() <==> key !in pods)
    {
      var hit := mem.GetPod(key);
      if hit.Some? && hit.value.phase == Ready {
        return Success(hit);
      }
      r := Fetch(key, io);
      if r.Success? {
        LostTokenDiffers(env, pods, key);
        Cache(key, r.value);
      }
    }

    /**
      A read of the store that a delete overtakes before it is cached: the deleted pod is cached, and if it was
      ready every later read is answered from there.
     */
    method GetPodOvertaken(key: PodKey) returns (r: Result<Option<Pod>, StoreError>)
      requires Valid() && key.subject in env.subjects && BAR !in key.serverType && !Served(mem.pods, key)
      modifies this, mem
      ensures pods == old(pods) - {key}
      ensures Valid() <==> key !in old(pods)
      ensures key in old(pods) && old(pods)[key].phase == Ready ==> Served(mem.pods, key)
    {
      r := Fetch(key, Up);
      LostTokenDiffers(env, pods, key);
      var _ := DeletePod(key, true);
      Cache(key, r.value);
    }

    /** A failed transaction changes nothing. */
    method PutPod(p: Pod, up: bool) returns (ok: bool)
      requires Valid() && Admissible(env, p)
      modifies this, mem
      ensures Valid() && ok == up && pods == if up then old(pods)[p.key := p] else old(pods)
    {
      if !up {
        return false;
      }
      PutKeeps(env, store, pods, p);
      store := WithPod(env, store, p);
      pods := pods[p.key := p];
      mem.PutPod(p);
      ok := true;
    }

    /** The cache forgets the pod even if the transaction fails. */
    method DeletePod(key: PodKey, up: bool) returns (ok: bool)
      requires Valid() && key.subject in env.subjects && BAR !in key.serverType
      modifies this, mem
      ensures Valid() && ok == up && pods == if up then old(pods) - {key} else old(pods)
    {
      if up {
        DeleteKeeps(env, store, pods, key);
        store := WithoutPod(env, store, key);
        pods := pods - {key};
      }
      mem.DeletePod(key);
      ok := up;
    }

    /** The keys the index sets name for a subject, or for everybody. */
    method IndexedKeys(subject: string) returns (keys: set<PodKey>)
      requires Valid() && (subject == "" || subject in env.subjects)
      ensures keys == Matching(pods, subject).Keys
    {
      if subject != "" {
        var key := Build(env.prefix, ["pods:by-user", subject]);
        assert key == env.Of(UserKey(subject));
        var types := Members(store, key);
        assert types == TypesOf(pods, subject);
        keys := set t | t in types :: PodKey(subject, t);
      } else {
        var key := Build(env.prefix, ["pods:all"]);
        assert key == env.Of(AllKey);
        var entries := Members(store, key);
        assert entries == Entries(pods);
        assert forall k :: k in pods ==> Admissible(env, pods[k]);
        keys := ParseEntries(entries, pods.Keys);
      }
    }

    /** A pod of the table, unless its read fails. */
    method ReadOne(k: PodKey, fails: bool) returns (p: Option<Pod>)
      requires Valid() && k in pods && k.subject in env.subjects
      modifies mem
      ensures Valid() && mem.pods - {k} == old(mem.pods) - {k}
      ensures p == if fails && !Served(old(mem.pods), k) then None else Some(pods[k])
    {
      var r := GetPod(k, if fails then Down else Up);
      p := if r.Success? then r.value else None;
    }

    /** One more pod, unless it is to be skipped. */
    method CollectOne(k: PodKey, fails: set<PodKey>, out: seq<Pod>, ghost all: Pods, ghost cache: Pods,
                      ghost todo: set<PodKey>) returns (more: seq<Pod>)
      requires Valid() && Part(env, all, pods) && k in todo && k in all
      requires Collected(out, all, cache, mem.pods, fails, todo)
      modifies mem
      ensures Valid() && Collected(more, all, cache, mem.pods, fails, todo - {k})
    {
      CollectStep(env, out, all, pods, cache, fails, todo, k);
      ghost var before := mem.pods;
      var p := ReadOne(k, k in fails);
      SameServedNext(cache, before, mem.pods, todo, k);
      more := if p.Some? then out + [p.value] else out;
    }

    /** The pods under the keys, read one by one; a pod that cannot be read is skipped. */
    method Collect(keys: set<PodKey>, fails: set<PodKey>, ghost all: Pods) returns (out: seq<Pod>)
      requires Valid() && keys == all.Keys && Part(env, all, pods)
      modifies mem
      ensures Valid()
      ensures Lists(out, all - Unread(old(mem.pods), fails))
    {
      ghost var cache := mem.pods;
      var todo := keys;
      out := [];
      CollectStarts(all, cache, fails);
      while todo != {}
        invariant Valid() && todo <= all.Keys && Collected(out, all, cache, mem.pods, fails, todo)
        decreases |todo|
      {
        var k :| k in todo;
        out := CollectOne(k, fails, out, all, cache, todo);
        todo := todo - {k};
      }
    }

    /** Fails if the index cannot be read; pods that cannot be read are missing from the list, without an error. */
    method ListPods(subject: string, up: bool, fails: set<PodKey>) returns (r: Result<seq<Pod>, StoreError>)
      requires Valid() && (subject == "" || subject in env.subjects)
      modifies mem
      ensures Valid()
      ensures r.Success? == up
      ensures up ==> Lists(r.value, Matching(pods, subject) - Unread(old(mem.pods), fails))
    {
      if !up {
        return Failure(StoreDown);
      }
      var keys := IndexedKeys(subject);
      MatchingIsPart(env, pods, subject);
      var out := Collect(keys, fails, Matching(pods, subject));
      r := Success(out);
    }

    /** So pods that cannot be read are not counted. */
    method CountPods(subject: string, serverType: string, up: bool, fails: set<PodKey>)
      returns (r: Result<Counts, StoreError>)
      requires Valid()
      modifies mem
      ensures Valid()
      ensures r == if up then Success(CountsOf(pods - Unread(old(mem.pods), fails), subject, serverType))
                   else Failure(StoreDown)
    {
      ghost var counted := pods - Unread(mem.pods, fails);
      var all := ListPods("", up, fails);
      if all.Failure? {
        return Failure(StoreDown);
      }
      assert Matching(pods, "") == pods;
      var c := CountListed(all.value, counted, subject, serverType);
      r := Success(c);
    }
  }

  /** Listed are the pods that are not to be skipped and not still to do, for which the cache is as it was. */
  ghost predicate Collected(out: seq<Pod>, all: Pods, cache: Pods, now: Pods, fails: set<PodKey>, todo: set<PodKey>) {
    Lists(out, all - Unread(cache, fails) - todo) && SameServed(cache, now, todo)
  }

  lemma CollectStarts(all: Pods, cache: Pods, fails: set<PodKey>)
    ensures Collected([], all, cache, cache, fails, all.Keys)
    ensures all - Unread(cache, fails) - {} == all - Unread(cache, fails)
  {
    assert all - Unread(cache, fails) - all.Keys == map[];
  }

  lemma CollectStep(env: Env, out: seq<Pod>, all: Pods, pods: Pods, cache: Pods, fails: set<PodKey>, todo: set<PodKey>,
                    k: PodKey)
    requires Part(env, all, pods) && k in todo && k in all && Lists(out, all - Unread(cache, fails) - todo)
    ensures k.subject in env.subjects && k in pods
    ensures Lists(if k in fails && !Served(cache, k) then out else out + [pods[k]],
                  all - Unread(cache, fails) - (todo - {k}))
  {
    var wanted := all - Unread(cache, fails);
    if k in Unread(cache, fails) {
      assert wanted - (todo - {k}) == wanted - todo;
    } else {
      WalkStep(out, wanted, todo, k);
    }
  }

  /** The cache answers for the same of these keys. */
  ghost predicate SameServed(before: Pods, after: Pods, keys: set<PodKey>) {
    forall k :: k in keys ==> (Served(after, k) <==> Served(before, k))
  }

  lemma SameServedNext(cache: Pods, before: Pods, after: Pods, todo: set<PodKey>, k: PodKey)
    requires SameServed(cache, before, todo) && after - {k} == before - {k}
    ensures SameServed(cache, after, todo - {k})
  {
    forall j | j in todo - {k} ensures Served(after, j) <==> Served(cache, j) {
      ServedElsewhere(before, after, k, j);
    }
  }
}
