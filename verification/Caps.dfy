/** The pod caps when calls overlap: counting and putting are two steps, so the check can be overtaken. */
module Caps {
  import opened Routing
  import opened Manager

  type CallId = nat

  /** Fixed caps: what each user is granted, what each server type allows, and the total. */
  datatype Caps = Caps(perUser: string -> int, perType: string -> int, total: int)
  {
    function For(key: PodKey): Limits {
      Limits(perUser(key.subject), perType(key.serverType), total)
    }
  }

  datatype Event =
    | Admit(call: CallId, key: PodKey)   // a call misses the pod, counts, and passes the check or is refused
    | Enter(call: CallId, pod: Pod)      // it puts its pending pod
    | Abandon(call: CallId)              // the put fails
    | Settle(pod: Pod)                   // a hold puts its pod as ready, even if it was deleted meanwhile
    | Remove(key: PodKey)

  /** `pending` holds the calls between their count and their put; `revived` counts deleted pods put back by holds. */
  datatype State = State(pods: Pods, pending: map<CallId, PodKey>, revived: nat)

  ghost function Step(caps: Caps, s: State, e: Event): State {
    match e
    case Admit(c, key) =>
      if c in s.pending || Exceeds(CountsOf(s.pods, key.subject, key.serverType), caps.For(key)) then s
      else s.(pending := s.pending[c := key])
    case Enter(c, p) =>
      if c in s.pending && p.key == s.pending[c] && p.phase == Pending
      then s.(pods := s.pods[p.key := p], pending := s.pending - {c})
      else s
    case Abandon(c) => s.(pending := s.pending - {c})
    case Settle(p) =>
      if p.phase != Ready then s
      else s.(pods := s.pods[p.key := p], revived := s.revived + if p.key in s.pods then 0 else 1)
    case Remove(key) => s.(pods := s.pods - {key})
  }

  ghost function Run(caps: Caps, events: seq<Event>): State {
    if events == [] then State(map[], map[], 0)
    else Step(caps, Run(caps, events[..|events| - 1]), events[|events| - 1])
  }

  /** At no time are more than `k` calls between their count and their put. */
  ghost predicate Overlap(caps: Caps, events: seq<Event>, k: nat) {
    && |Run(caps, events).pending| <= k
    && (events != [] ==> Overlap(caps, events[..|events| - 1], k))
  }

  /** How far `k` overlapping calls can push a count. */
  function Ceiling(cap: int, k: nat): int {
    if cap <= 0 then 0 else cap + k - 1
  }

  function ByUser(subject: string): PodKey -> bool { (key: PodKey) => key.subject == subject }
  function ByType(serverType: string): PodKey -> bool { (key: PodKey) => key.serverType == serverType }
  function Anyone(): PodKey -> bool { (key: PodKey) => true }

  ghost function Members(pods: Pods, g: PodKey -> bool): set<PodKey> {
    set key | key in pods && g(key)
  }

  ghost function Waiting(pending: map<CallId, PodKey>, g: PodKey -> bool): set<CallId> {
    set c | c in pending && g(pending[c])
  }

  /** Pods in the group, and calls about to add one, stay under the ceiling of the group's cap. */
  ghost predicate Held(s: State, g: PodKey -> bool, cap: int, k: nat) {
    |Members(s.pods, g)| + |Waiting(s.pending, g)| <= Ceiling(cap, k) + s.revived
  }

  ghost predicate Present(pods: Pods) {
    forall key :: key in pods ==> pods[key].key == key && Counted(pods[key])
  }

  lemma WaitingIsPending(pending: map<CallId, PodKey>, g: PodKey -> bool)
    ensures |Waiting(pending, g)| <= |pending|
  {
    SubsetSize(Waiting(pending, g), pending.Keys);
    assert |pending.Keys| == |pending|;
  }

  lemma {:induction false} SubsetSize<T>(a: set<T>, b: set<T>)
    requires a <= b
    ensures |a| <= |b|
  {
    if a != {} {
      var x :| x in a;
      SubsetSize(a - {x}, b - {x});
    }
  }

  lemma AdmitKeeps(s: State, c: CallId, key: PodKey, g: PodKey -> bool, cap: int, k: nat)
    requires Held(s, g, cap, k) && c !in s.pending
    requires g(key) ==> |Members(s.pods, g)| < cap
    requires |s.pending[c := key]| <= k
    ensures Held(s.(pending := s.pending[c := key]), g, cap, k)
  {
    WaitingIsPending(s.pending[c := key], g);
    assert !g(key) ==> Waiting(s.pending[c := key], g) == Waiting(s.pending, g);
  }

  lemma MembersGrow(pods: Pods, p: Pod, g: PodKey -> bool)
    ensures |Members(pods[p.key := p], g)| <= |Members(pods, g)| + if g(p.key) then 1 else 0
  {
    assert Members(pods[p.key := p], g) == Members(pods, g) + if g(p.key) then {p.key} else {};
  }

  lemma WaitingShrinks(pending: map<CallId, PodKey>, c: CallId, g: PodKey -> bool)
    requires c in pending
    ensures |Waiting(pending, g)| == |Waiting(pending - {c}, g)| + if g(pending[c]) then 1 else 0
  {
    assert Waiting(pending, g) == Waiting(pending - {c}, g) + if g(pending[c]) then {c} else {};
  }

  lemma EnterKeeps(s: State, c: CallId, p: Pod, g: PodKey -> bool, cap: int, k: nat)
    requires Held(s, g, cap, k) && c in s.pending && p.key == s.pending[c]
    ensures Held(s.(pods := s.pods[p.key := p], pending := s.pending - {c}), g, cap, k)
  {
    MembersGrow(s.pods, p, g);
    WaitingShrinks(s.pending, c, g);
  }

  lemma LessIsHeld(s: State, pods: Pods, pending: map<CallId, PodKey>, g: PodKey -> bool, cap: int, k: nat)
    requires Held(s, g, cap, k)
    requires pods.Keys <= s.pods.Keys && pending.Keys <= s.pending.Keys
    requires forall c :: c in pending ==> pending[c] == s.pending[c]
    ensures Held(s.(pods := pods, pending := pending), g, cap, k)
  {
    SubsetSize(Members(pods, g), Members(s.pods, g));
    SubsetSize(Waiting(pending, g), Waiting(s.pending, g));
  }

  lemma SettleKeeps(s: State, p: Pod, g: PodKey -> bool, cap: int, k: nat)
    requires Held(s, g, cap, k)
    ensures Held(s.(pods := s.pods[p.key := p], revived := s.revived + if p.key in s.pods then 0 else 1), g, cap, k)
  {
    if p.key in s.pods {
      LessIsHeld(s, s.pods[p.key := p], s.pending, g, cap, k);
    } else {
      MembersGrow(s.pods, p, g);
    }
  }

  /** The group is one of those the check looks at when a call for a member of it is admitted. */
  ghost predicate Checked(caps: Caps, g: PodKey -> bool, cap: int) {
    || (g == Anyone() && cap == caps.total)
    || (exists u :: g == ByUser(u) && cap == caps.perUser(u))
    || (exists t :: g == ByType(t) && cap == caps.perType(t))
  }

  lemma CountsAreMembers(pods: Pods, subject: string, serverType: string)
    requires Present(pods)
    ensures CountsOf(pods, subject, serverType) ==
            Counts(|Members(pods, ByUser(subject))|, |Members(pods, ByType(serverType))|, |Members(pods, Anyone())|)
  {
    assert Such(pods, OfUser(subject)) == Members(pods, ByUser(subject));
    assert Such(pods, OfType(serverType)) == Members(pods, ByType(serverType));
    assert Members(pods, Anyone()) == pods.Keys;
    assert |pods.Keys| == |pods|;
  }

  lemma PassedCheck(caps: Caps, pods: Pods, key: PodKey, g: PodKey -> bool, cap: int)
    requires Present(pods) && Checked(caps, g, cap) && g(key)
    requires !Exceeds(CountsOf(pods, key.subject, key.serverType), caps.For(key))
    ensures |Members(pods, g)| < cap
  {
    CountsAreMembers(pods, key.subject, key.serverType);
  }

  lemma StepKeepsPresent(caps: Caps, s: State, e: Event)
    requires Present(s.pods)
    ensures Present(Step(caps, s, e).pods)
  {
  }

  lemma AdmitStepKeeps(caps: Caps, s: State, c: CallId, key: PodKey, g: PodKey -> bool, cap: int, k: nat)
    requires Present(s.pods) && Held(s, g, cap, k) && Checked(caps, g, cap)
    requires |Step(caps, s, Admit(c, key)).pending| <= k
    ensures Held(Step(caps, s, Admit(c, key)), g, cap, k)
  {
    if c !in s.pending && !Exceeds(CountsOf(s.pods, key.subject, key.serverType), caps.For(key)) {
      if g(key) {
        PassedCheck(caps, s.pods, key, g, cap);
      }
      AdmitKeeps(s, c, key, g, cap, k);
    }
  }

  /** Whatever else happens, no call passes the check. */
  lemma OtherStepKeeps(caps: Caps, s: State, e: Event, g: PodKey -> bool, cap: int, k: nat)
    requires Held(s, g, cap, k) && !e.Admit?
    ensures Held(Step(caps, s, e), g, cap, k)
  {
    match e
    case Enter(c, p) =>
      if c in s.pending && p.key == s.pending[c] {
        EnterKeeps(s, c, p, g, cap, k);
      }
    case Abandon(c) => LessIsHeld(s, s.pods, s.pending - {c}, g, cap, k);
    case Settle(p) => SettleKeeps(s, p, g, cap, k);
    case Remove(key) => LessIsHeld(s, s.pods - {key}, s.pending, g, cap, k);
  }

  lemma StepKeeps(caps: Caps, s: State, e: Event, g: PodKey -> bool, cap: int, k: nat)
    requires Present(s.pods) && Held(s, g, cap, k) && Checked(caps, g, cap)
    requires |Step(caps, s, e).pending| <= k
    ensures Held(Step(caps, s, e), g, cap, k)
  {
    if e.Admit? {
      AdmitStepKeeps(caps, s, e.call, e.key, g, cap, k);
    } else {
      OtherStepKeeps(caps, s, e, g, cap, k);
    }
  }

  lemma {:induction false} RunHeld(caps: Caps, events: seq<Event>, g: PodKey -> bool, cap: int, k: nat)
    requires k >= 1 && Overlap(caps, events, k) && Checked(caps, g, cap)
    ensures Present(Run(caps, events).pods) && Held(Run(caps, events), g, cap, k)
  {
    if events == [] {
      assert Members(map[], g) == {} && Waiting(map[], g) == {};
    } else {
      RunHeld(caps, events[..|events| - 1], g, cap, k);
      StepKeepsPresent(caps, Run(caps, events[..|events| - 1]), events[|events| - 1]);
      StepKeeps(caps, Run(caps, events[..|events| - 1]), events[|events| - 1], g, cap, k);
    }
  }

  /**
    With at most `k` calls between count and put, no count ever exceeds its cap by more than
    `k - 1`, apart from deleted pods that holds have put back.
   */
  lemma CapsUnderOverlap(caps: Caps, events: seq<Event>, k: nat, subject: string, serverType: string)
    requires k >= 1 && Overlap(caps, events, k)
    ensures var s := Run(caps, events);
            var c := CountsOf(s.pods, subject, serverType);
            && c.perUser <= Ceiling(caps.perUser(subject), k) + s.revived
            && c.perType <= Ceiling(caps.perType(serverType), k) + s.revived
            && c.total <= Ceiling(caps.total, k) + s.revived
  {
    RunHeld(caps, events, ByUser(subject), caps.perUser(subject), k);
    RunHeld(caps, events, ByType(serverType), caps.perType(serverType), k);
    RunHeld(caps, events, Anyone(), caps.total, k);
    CountsAreMembers(Run(caps, events).pods, subject, serverType);
  }

  /** No hold puts a pod back that was deleted meanwhile. */
  ghost predicate NothingRevived(caps: Caps, events: seq<Event>) {
    events == [] ||
    var front, e := events[..|events| - 1], events[|events| - 1];
    NothingRevived(caps, front) && (e.Settle? && e.pod.phase == Ready ==> e.pod.key in Run(caps, front).pods)
  }

  lemma RevivedStep(caps: Caps, s: State, e: Event)
    ensures Step(caps, s, e).revived ==
            s.revived + if e.Settle? && e.pod.phase == Ready && e.pod.key !in s.pods then 1 else 0
  {
  }

  /** Then none is counted as put back, and otherwise the last such hold adds just one. */
  lemma {:induction false} RevivedMeans(caps: Caps, events: seq<Event>)
    ensures NothingRevived(caps, events) <==> Run(caps, events).revived == 0
    ensures events != [] ==> Run(caps, events).revived <= Run(caps, events[..|events| - 1]).revived + 1
  {
    if events != [] {
      RevivedMeans(caps, events[..|events| - 1]);
      RevivedStep(caps, Run(caps, events[..|events| - 1]), events[|events| - 1]);
    }
  }

  lemma CeilingMeans(cap: int, k: nat)
    ensures cap >= 1 ==> Ceiling(cap, k) == cap + k - 1
    ensures cap < 1 ==> Ceiling(cap, k) == 0
  {
  }

  /** Calls that do not overlap, and holds that put nothing back, respect the caps exactly. */
  lemma CapsInSequence(caps: Caps, events: seq<Event>, subject: string, serverType: string)
    requires Overlap(caps, events, 1) && NothingRevived(caps, events)
    requires caps.perUser(subject) >= 0 && caps.perType(serverType) >= 0 && caps.total >= 0
    ensures var c := CountsOf(Run(caps, events).pods, subject, serverType);
            c.perUser <= caps.perUser(subject) && c.perType <= caps.perType(serverType) && c.total <= caps.total
  {
    RevivedMeans(caps, events);
    CapsUnderOverlap(caps, events, 1, subject, serverType);
  }

  // The bound is tight: one user with a pod of each of many server types, or the other way round.

  function Nth(one: bool, i: nat): PodKey {
    var name := seq(i, _ => 'a');
    if one then PodKey("one", name) else PodKey(name, "one")
  }

  function Fresh(key: PodKey): Pod {
    Pod(key, "", "", Pending, 0, "", "")
  }

  ghost function FirstPods(one: bool, n: nat): Pods {
    map key | key in (set i: nat | i < n :: Nth(one, i)) :: Fresh(key)
  }

  ghost function Between(one: bool, n: nat, m: nat): map<CallId, PodKey> {
    map i: nat | n <= i < m :: Nth(one, i)
  }

  function Uniform(cap: int): Caps {
    Caps(_ => cap, _ => cap, cap)
  }

  /** The part of the key that tells the pods apart. */
  function Varying(one: bool, key: PodKey): string {
    if one then key.serverType else key.subject
  }

  lemma NthDiffer(one: bool, i: nat, j: nat)
    requires i != j
    ensures Varying(one, Nth(one, i)) != Varying(one, Nth(one, j))
  {
    assert |Varying(one, Nth(one, i))| != |Varying(one, Nth(one, j))|;
  }

  lemma {:induction false} FirstPodsAre(one: bool, n: nat)
    ensures |FirstPods(one, n)| == n
  {
    if n == 0 {
      assert FirstPods(one, n) == map[];
    } else {
      FirstPodsAre(one, n - 1);
      FirstPodsGrow(one, n - 1);
    }
  }

  lemma FirstPodsGrow(one: bool, n: nat)
    ensures Nth(one, n) !in FirstPods(one, n)
    ensures FirstPods(one, n + 1) == FirstPods(one, n)[Nth(one, n) := Fresh(Nth(one, n))]
  {
    forall i: nat | i < n ensures Nth(one, i) != Nth(one, n) {
      NthDiffer(one, i, n);
    }
  }

  /** The count of the one user or of the one type. */
  function Common(one: bool, c: Counts): nat {
    if one then c.perUser else c.perType
  }

  /** All pods count for the one; whatever else is asked, they also make the total. */
  lemma FirstTotals(one: bool, n: nat, other: string)
    ensures var c := if one then CountsOf(FirstPods(one, n), "one", other) else CountsOf(FirstPods(one, n), other, "one");
            Common(one, c) == n && c.total == n
  {
    var pods := FirstPods(one, n);
    FirstPodsAre(one, n);
    assert |pods.Keys| == |pods|;
    if one {
      assert Such(pods, OfUser("one")) == pods.Keys;
    } else {
      assert Such(pods, OfType("one")) == pods.Keys;
    }
  }

  /** The next pod is the first of its type or of its user. */
  lemma NextIsNew(one: bool, n: nat, i: nat)
    requires n <= i
    ensures var c := CountsOf(FirstPods(one, n), Nth(one, i).subject, Nth(one, i).serverType);
            (if one then c.perType else c.perUser) == 0
  {
    var pods := FirstPods(one, n);
    forall key | key in pods ensures Varying(one, key) != Varying(one, Nth(one, i)) {
      var j: nat :| j < n && key == Nth(one, j);
      NthDiffer(one, i, j);
    }
    if one {
      assert Such(pods, OfType(Nth(one, i).serverType)) == {};
    } else {
      assert Such(pods, OfUser(Nth(one, i).subject)) == {};
    }
  }

  lemma BetweenSize(one: bool, n: nat, m: nat)
    requires n <= m
    ensures |Between(one, n, m)| == m - n
    decreases m
  {
    if n < m {
      BetweenSize(one, n, m - 1);
      assert Between(one, n, m) == Between(one, n, m - 1)[m - 1 := Nth(one, m - 1)];
    }
  }

  ghost predicate At(one: bool, cap: int, k: nat, events: seq<Event>, n: nat, m: nat) {
    && Overlap(Uniform(cap), events, k)
    && Run(Uniform(cap), events) == State(FirstPods(one, n), Between(one, n, m), 0)
  }

  lemma RunNext(caps: Caps, events: seq<Event>, e: Event, k: nat)
    requires Overlap(caps, events, k) && |Step(caps, Run(caps, events), e).pending| <= k
    ensures Run(caps, events + [e]) == Step(caps, Run(caps, events), e) && Overlap(caps, events + [e], k)
  {
    assert (events + [e])[..|events|] == events;
  }

  lemma Passes(one: bool, cap: int, n: nat, m: nat)
    requires n <= m && n < cap
    ensures var key := Nth(one, m);
            !Exceeds(CountsOf(FirstPods(one, n), key.subject, key.serverType), Uniform(cap).For(key))
  {
    FirstTotals(one, n, Varying(one, Nth(one, m)));
    NextIsNew(one, n, m);
  }

  lemma OneAdmitted(one: bool, cap: int, k: nat, events: seq<Event>, n: nat, m: nat) returns (more: seq<Event>)
    requires At(one, cap, k, events, n, m) && n <= m < n + k && n < cap
    ensures At(one, cap, k, more, n, m + 1)
  {
    Passes(one, cap, n, m);
    BetweenSize(one, n, m + 1);
    assert Between(one, n, m)[m := Nth(one, m)] == Between(one, n, m + 1);
    assert m !in Between(one, n, m);
    RunNext(Uniform(cap), events, Admit(m, Nth(one, m)), k);
    more := events + [Admit(m, Nth(one, m))];
  }

  lemma OneEntered(one: bool, cap: int, k: nat, events: seq<Event>, n: nat, m: nat) returns (more: seq<Event>)
    requires At(one, cap, k, events, n, m) && n < m <= n + k
    ensures At(one, cap, k, more, n + 1, m)
  {
    BetweenSize(one, n + 1, m);
    FirstPodsGrow(one, n);
    assert Between(one, n, m) - {n} == Between(one, n + 1, m);
    RunNext(Uniform(cap), events, Enter(n, Fresh(Nth(one, n))), k);
    more := events + [Enter(n, Fresh(Nth(one, n)))];
  }

  lemma {:induction false} ManyAdmitted(one: bool, cap: int, k: nat, events: seq<Event>, n: nat, m: nat)
    returns (more: seq<Event>)
    requires At(one, cap, k, events, n, m) && n <= m <= n + k && n < cap
    ensures At(one, cap, k, more, n, n + k)
    decreases n + k - m
  {
    more := events;
    if m < n + k {
      more := OneAdmitted(one, cap, k, more, n, m);
      more := ManyAdmitted(one, cap, k, more, n, m + 1);
    }
  }

  lemma {:induction false} ManyEntered(one: bool, cap: int, k: nat, events: seq<Event>, n: nat, m: nat)
    returns (more: seq<Event>)
    requires At(one, cap, k, events, n, m) && n <= m <= n + k
    ensures At(one, cap, k, more, m, m)
    decreases m - n
  {
    more := events;
    if n < m {
      more := OneEntered(one, cap, k, more, n, m);
      more := ManyEntered(one, cap, k, more, n + 1, m);
    }
  }

  lemma StartsAt(one: bool, cap: int, k: nat)
    ensures At(one, cap, k, [], 0, 0)
  {
    assert Between(one, 0, 0) == map[] && FirstPods(one, 0) == map[];
  }

  lemma {:induction false} Filled(one: bool, cap: int, k: nat, start: seq<Event>, n: nat) returns (events: seq<Event>)
    requires At(one, cap, k, start, 0, 0) && n <= cap && k >= 1
    ensures At(one, cap, k, events, n, n)
  {
    events := start;
    if n > 0 {
      events := Filled(one, cap, k, start, n - 1);
      events := OneAdmitted(one, cap, k, events, n - 1, n - 1);
      events := OneEntered(one, cap, k, events, n - 1, n);
    }
  }

  lemma Pushed(one: bool, cap: int, k: nat) returns (events: seq<Event>)
    requires cap >= 1 && k >= 1
    ensures Overlap(Uniform(cap), events, k) && Run(Uniform(cap), events).pods == FirstPods(one, Ceiling(cap, k))
    ensures Run(Uniform(cap), events).revived == 0
  {
    StartsAt(one, cap, k);
    events := Filled(one, cap, k, [], cap - 1);
    events := ManyAdmitted(one, cap, k, events, cap - 1, cap - 1);
    events := ManyEntered(one, cap, k, events, cap - 1, cap - 1 + k);
  }

  /**
    For every cap and every `k` some run reaches the ceiling, for a user or for a type as well as
    in total, without a pod put back. So only calls in sequence are sure to respect the caps.
   */
  lemma CeilingIsReached(one: bool, cap: int, k: nat) returns (events: seq<Event>)
    requires cap >= 1 && k >= 1
    ensures Overlap(Uniform(cap), events, k) && Run(Uniform(cap), events).revived == 0
    ensures var c := CountsOf(Run(Uniform(cap), events).pods, "one", "one");
            Common(one, c) == Ceiling(cap, k) && c.total == Ceiling(cap, k)
  {
    events := Pushed(one, cap, k);
    FirstTotals(one, Ceiling(cap, k), "one");
  }

  lemma NobodyExceeds(cap: int, key: PodKey)
    requires cap >= 1
    ensures !Exceeds(CountsOf(map[], key.subject, key.serverType), Uniform(cap).For(key))
  {
    assert Such(map[], OfUser(key.subject)) == {} && Such(map[], OfType(key.serverType)) == {};
  }

  /** A pod is put and, while its hold goes on, deleted. */
  lemma PutAndDeleted(one: bool, cap: int, key: PodKey) returns (events: seq<Event>)
    requires cap >= 1
    ensures At(one, cap, 1, events, 0, 0)
  {
    var caps := Uniform(cap);
    StartsAt(one, cap, 1);
    NobodyExceeds(cap, key);
    var s1 := State(map[], map[0 := key], 0);
    assert Step(caps, State(map[], map[], 0), Admit(0, key)) == s1;
    RunNext(caps, [], Admit(0, key), 1);
    var s2 := State(map[key := Fresh(key)], map[], 0);
    assert Step(caps, s1, Enter(0, Fresh(key))) == s2;
    RunNext(caps, [] + [Admit(0, key)], Enter(0, Fresh(key)), 1);
    assert Step(caps, s2, Remove(key)) == State(map[], map[], 0);
    RunNext(caps, [] + [Admit(0, key)] + [Enter(0, Fresh(key))], Remove(key), 1);
    events := [] + [Admit(0, key)] + [Enter(0, Fresh(key))] + [Remove(key)];
  }

  lemma PutBack(cap: int, events: seq<Event>) returns (more: seq<Event>)
    requires cap >= 1 && At(true, cap, 1, events, cap, cap)
    ensures Overlap(Uniform(cap), more, 1) && |Run(Uniform(cap), more).pods| == cap + 1
  {
    var back := Fresh(Nth(true, cap)).(phase := Ready);
    FirstPodsGrow(true, cap);
    FirstPodsAre(true, cap);
    BetweenSize(true, cap, cap);
    RunNext(Uniform(cap), events, Settle(back), 1);
    more := events + [Settle(back)];
  }

  /** A hold that puts its deleted pod back exceeds the cap even when calls do not overlap. */
  lemma RevivedPodExceeds(cap: int) returns (events: seq<Event>)
    requires cap >= 1
    ensures Overlap(Uniform(cap), events, 1) && |Run(Uniform(cap), events).pods| == cap + 1
  {
    events := PutAndDeleted(true, cap, Nth(true, cap));
    events := Filled(true, cap, 1, events, cap);
    events := PutBack(cap, events);
  }
}
