/** The Redis table gives the answers of the in-process table, operation by operation. */
module Refinement {
  import opened Common
  import opened Routing
  import opened MemoryTable
  import opened RedisStore
  import opened RedisTable

  datatype Op =
    | Get(key: PodKey)
    | Put(pod: Pod)
    | Delete(key: PodKey)
    | List(subject: string)
    | CountFor(subject: string, serverType: string)

  /** What a caller learns; a listing's order is unspecified, so it is given by its length and its members. */
  datatype Answer =
    | Done
    | Found(pod: Option<Pod>)
    | Listed(length: nat, pods: set<Pod>)
    | Counted(counts: Counts)
    | NoAnswer

  /** Subjects the hash separates, server types without a bar, pods named after their key and carrying a token. */
  ghost predicate InPlay(env: Env, op: Op) {
    match op
    case Get(k) => k.subject in env.subjects
    case Put(p) => Admissible(env, p)
    case Delete(k) => k.subject in env.subjects && BAR !in k.serverType
    case List(subject) => subject == "" || subject in env.subjects
    case CountFor(_, _) => true
  }

  /** Two complete listings of the same pods have the same members. */
  lemma ListingsAgree(a: seq<Pod>, b: seq<Pod>, pods: Pods)
    requires Lists(a, pods) && Lists(b, pods)
    ensures (set p | p in a) == (set p | p in b)
  {
    ListsEverything(a, pods);
    ListsEverything(b, pods);
  }

  method OnMemory(t: Memory, op: Op) returns (a: Answer, ghost listed: seq<Pod>)
    requires t.Valid()
    modifies t
    ensures t.Valid()
    ensures t.pods == Applied(old(t.pods), op)
    ensures Answers(a, listed, op, old(t.pods))
  {
    listed := [];
    match op
    case Get(k) => var r := t.GetPod(k); a := Found(r);
    case Put(p) => t.PutPod(p); a := Done;
    case Delete(k) => t.DeletePod(k); a := Done;
    case List(subject) => var out := t.ListPods(subject); listed := out; a := Listed(|out|, set p | p in out);
    case CountFor(subject, serverType) => var c := t.CountPods(subject, serverType); a := Counted(c);
  }

  /** A reachable store means an answer; without it there may be none, and then nothing has changed. */
  method OnRedis(t: Redis, op: Op, up: bool) returns (a: Answer, ghost listed: seq<Pod>)
    requires t.Valid() && InPlay(t.env, op)
    modifies t, t.mem
    ensures t.Valid() && (up ==> a != NoAnswer)
    ensures t.pods == if a == NoAnswer then old(t.pods) else Applied(old(t.pods), op)
    ensures a == NoAnswer || Answers(a, listed, op, old(t.pods))
  {
    if op.Put? {
      var ok := t.PutPod(op.pod, up);
      a, listed := if ok then Done else NoAnswer, [];
    } else if op.Delete? {
      var ok := t.DeletePod(op.key, up);
      a, listed := if ok then Done else NoAnswer, [];
    } else {
      a, listed := ReadRedis(t, op, up);
    }
  }

  lemma NothingUnread(cache: Pods, pods: Pods, op: Op)
    ensures pods - Unread(cache, {}) == pods
    ensures op.List? ==> Matching(pods, op.subject) - Unread(cache, {}) == Matching(pods, op.subject)
  {
    assert Unread(cache, {}) == {};
  }

  method ReadRedis(t: Redis, op: Op, up: bool) returns (a: Answer, ghost listed: seq<Pod>)
    requires t.Valid() && InPlay(t.env, op) && !op.Put? && !op.Delete?
    modifies t.mem
    ensures t.Valid() && (up ==> a != NoAnswer)
    ensures a == NoAnswer || Answers(a, listed, op, t.pods)
  {
    listed := [];
    NothingUnread(t.mem.pods, t.pods, op);
    match op
    case Get(k) =>
      var r := t.GetPod(k, if up then Up else Down);
      a := if r.Success? then Found(r.value) else NoAnswer;
    case List(subject) =>
      var r := t.ListPods(subject, up, {});
      if r.Success? {
        listed := r.value;
        a := Listed(|r.value|, set p | p in r.value);
      } else {
        a := NoAnswer;
      }
    case CountFor(subject, serverType) =>
      var r := t.CountPods(subject, serverType, up, {});
      a := if r.Success? then Counted(r.value) else NoAnswer;
  }

  /** The answer a table with these pods owes; `listed` is the listing behind a `Listed` answer. */
  ghost predicate Answers(a: Answer, listed: seq<Pod>, op: Op, pods: Pods) {
    match op
    case Get(k) => a == Found(if k in pods then Some(pods[k]) else None)
    case Put(_) => a == Done
    case Delete(_) => a == Done
    case List(subject) => Lists(listed, Matching(pods, subject)) && a == Listed(|listed|, set p | p in listed)
    case CountFor(subject, serverType) => a == Counted(CountsOf(pods, subject, serverType))
  }

  function Applied(pods: Pods, op: Op): Pods {
    match op
    case Put(p) => pods[p.key := p]
    case Delete(k) => pods - {k}
    case _ => pods
  }

  /** The pods after those operations that did not fail. */
  function PodsAfter(ops: seq<Op>, answers: seq<Answer>): Pods
    requires |ops| == |answers|
  {
    if ops == [] then map[]
    else
      var last := |ops| - 1;
      var before := PodsAfter(ops[..last], answers[..last]);
      if answers[last] == NoAnswer then before else Applied(before, ops[last])
  }

  /** The right answer, or a failure. */
  ghost predicate Owed(a: Answer, op: Op, pods: Pods) {
    a == NoAnswer || exists listed :: Answers(a, listed, op, pods)
  }

  lemma AnswerIsUnique(a: Answer, la: seq<Pod>, b: Answer, lb: seq<Pod>, op: Op, pods: Pods)
    requires Answers(a, la, op, pods) && Answers(b, lb, op, pods)
    ensures a == b
  {
    if op.List? {
      ListingsAgree(la, lb, Matching(pods, op.subject));
    }
  }

  /** One operation on both tables; the in-process table is spared an operation that failed. */
  method OnBoth(m: Memory, r: Redis, op: Op, up: bool) returns (a: Answer, b: Answer)
    requires m.Valid() && r.Valid() && m != r.mem && m.pods == r.pods && InPlay(r.env, op)
    modifies m, r, r.mem
    ensures m.Valid() && r.Valid()
    ensures m.pods == r.pods == if b == NoAnswer then old(m.pods) else Applied(old(m.pods), op)
    ensures a == b && Owed(a, op, old(m.pods)) && (up ==> a != NoAnswer)
  {
    ghost var pods := m.pods;
    ghost var la, lb;
    b, lb := OnRedis(r, op, up);
    if b == NoAnswer {
      return NoAnswer, NoAnswer;
    }
    a, la := OnMemory(m, op);
    AnswerIsUnique(a, la, b, lb, op, pods);
  }

  ghost predicate AllOwed(answers: seq<Answer>, ops: seq<Op>) {
    && |answers| == |ops|
    && forall i :: 0 <= i < |ops| ==> Owed(answers[i], ops[i], PodsAfter(ops[..i], answers[..i]))
  }

  lemma OneMoreOwed(answers: seq<Answer>, ops: seq<Op>, a: Answer, op: Op)
    requires AllOwed(answers, ops) && Owed(a, op, PodsAfter(ops, answers))
    ensures AllOwed(answers + [a], ops + [op])
    ensures PodsAfter(ops + [op], answers + [a]) ==
            if a == NoAnswer then PodsAfter(ops, answers) else Applied(PodsAfter(ops, answers), op)
  {
    forall i | 0 <= i < |ops| + 1
      ensures Owed((answers + [a])[i], (ops + [op])[i], PodsAfter((ops + [op])[..i], (answers + [a])[..i]))
    {
      assert (ops + [op])[..i] == ops[..i] && (answers + [a])[..i] == answers[..i];
      assert ops[..|ops|] == ops && answers[..|ops|] == answers;
    }
    assert (ops + [op])[..|ops|] == ops && (answers + [a])[..|ops|] == answers;
  }

  /**
    Run side by side from empty tables, the two give the same, right answers to every
    sequence of operations. While the store is down an operation may fail, and then it has
    no effect.
   */
  method Lockstep(env: Env, ops: seq<Op>, up: seq<bool>) returns (memory: seq<Answer>, redis: seq<Answer>)
    requires Separates(env.hash, env.subjects) && |up| == |ops|
    requires forall i :: 0 <= i < |ops| ==> InPlay(env, ops[i])
    ensures AllOwed(memory, ops)
    ensures memory == redis
    ensures forall i :: 0 <= i < |ops| && up[i] ==> redis[i] != NoAnswer
  {
    var m := new Memory();
    var r := new Redis(env);
    memory, redis := [], [];
    for i := 0 to |ops|
      invariant m.Valid() && r.Valid() && r.env == env && m != r.mem
      invariant fresh(m) && fresh(r) && fresh(r.mem)
      invariant AllOwed(memory, ops[..i]) && memory == redis
      invariant m.pods == r.pods == PodsAfter(ops[..i], memory)
      invariant forall k :: 0 <= k < i && up[k] ==> redis[k] != NoAnswer
    {
      var a, b := OnBoth(m, r, ops[i], up[i]);
      OneMoreOwed(memory, ops[..i], a, ops[i]);
      assert ops[..i + 1] == ops[..i] + [ops[i]];
      memory, redis := memory + [a], redis + [b];
    }
    assert ops[..|ops|] == ops;
  }
}
