/** Access policy: grants derived from configured groups, and which tools they show. */
module Policy {
  import opened Strings

  datatype Group = Group(name: string, admin: bool, podsPerUser: int, lazy: bool, serverTypes: seq<string>)

  datatype Config = Config(servers: seq<string>, groups: seq<Group>, always: set<string>, podsPerUser: int,
                           adminScope: string, lazy: bool, lazyForGroups: seq<string>, lazyForClients: seq<string>)

  datatype Principal = Principal(subject: string, groups: seq<string>, scopes: seq<string>)

  datatype Grants = Grants(subject: string, serverTypes: seq<string>, groups: seq<string>, admin: bool,
                           podsPerUser: int, lazy: bool)

  /** The case-insensitive prefix test on client names. */
  type PrefixFold = (string, string) -> bool

  const ALL := "*"

  predicate Applies(c: Config, p: Principal, g: Group) {
    g.name in p.groups || g.name in c.always
  }

  predicate Opens(servers: seq<string>, g: Group, t: string) {
    t in servers && (t in g.serverTypes || ALL in g.serverTypes)
  }

  // What grants must be, in terms of the set of groups that apply.

  ghost function HeldIn(c: Config, p: Principal, groups: seq<Group>): set<Group> {
    set g | g in groups && Applies(c, p, g)
  }

  ghost function Held(c: Config, p: Principal): set<Group> {
    HeldIn(c, p, c.groups)
  }

  ghost function Types(servers: seq<string>, held: set<Group>): set<string> {
    set g, t | g in held && t in servers && Opens(servers, g, t) :: t
  }

  ghost function Names(held: set<Group>): set<string> {
    set g | g in held :: g.name
  }

  ghost predicate IsCap(base: int, held: set<Group>, cap: int) {
    && cap >= base && (forall g :: g in held ==> cap >= g.podsPerUser)
    && (cap == base || exists g :: g in held && g.podsPerUser == cap)
  }

  ghost predicate Lazy(c: Config, held: set<Group>, client: string, fold: PrefixFold) {
    || c.lazy
    || (exists g :: g in held && g.lazy)
    || (exists n :: n in c.lazyForGroups && n in Names(held))
    || (client != "" && exists n :: n in c.lazyForClients && fold(client, n))
  }

  ghost predicate IsGrants(c: Config, p: Principal, client: string, fold: PrefixFold, r: Grants) {
    var held := Held(c, p);
    && r.subject == p.subject
    && StrictlySorted(r.serverTypes) && Elements(r.serverTypes) == Types(c.servers, held) - {""}
    && StrictlySorted(r.groups) && Elements(r.groups) == Names(held) - {""}
    && (r.admin <==> c.adminScope in p.scopes || exists g :: g in held && g.admin)
    && IsCap(c.podsPerUser, held, r.podsPerUser)
    && (r.lazy <==> Lazy(c, held, client, fold))
  }

  // The properties.

  /** Same settings; only the order and repetition of groups may differ. */
  ghost predicate SameButGroups(c: Config, d: Config) {
    d.(groups := c.groups) == c
  }

  /**
    Grants depend on which groups are configured and which the caller is in, not
    on the order they are listed in.
   */
  lemma OrderFree(c: Config, d: Config, p: Principal, q: Principal, client: string, fold: PrefixFold,
                  r: Grants, s: Grants)
    requires SameButGroups(c, d) && (forall g :: g in c.groups <==> g in d.groups)
    requires q.(groups := p.groups) == p && (forall n :: n in p.groups <==> n in q.groups)
    requires IsGrants(c, p, client, fold, r) && IsGrants(d, q, client, fold, s)
    ensures r == s
  {
    assert Held(c, p) == Held(d, q);
    SortedIsUnique(r.serverTypes, s.serverTypes);
    SortedIsUnique(r.groups, s.groups);
  }

  /** Listing the same things in another order. */
  lemma PermutationFree(c: Config, d: Config, p: Principal, q: Principal, client: string, fold: PrefixFold,
                        r: Grants, s: Grants)
    requires SameButGroups(c, d) && multiset(c.groups) == multiset(d.groups)
    requires q.(groups := p.groups) == p && multiset(p.groups) == multiset(q.groups)
    requires IsGrants(c, p, client, fold, r) && IsGrants(d, q, client, fold, s)
    ensures r == s
  {
    forall g ensures g in c.groups <==> g in d.groups {
      assert g in multiset(c.groups) <==> g in multiset(d.groups);
    }
    forall n ensures n in p.groups <==> n in q.groups {
      assert n in multiset(p.groups) <==> n in multiset(q.groups);
    }
    OrderFree(c, d, p, q, client, fold, r, s);
  }

  /** The groups that count are the configured ones the caller is in or everybody is in. */
  lemma HeldMeans(c: Config, p: Principal, g: Group)
    ensures g in Held(c, p) <==> g in c.groups && (g.name in p.groups || g.name in c.always)
  {
  }

  /** Every granted type is configured and opened by such a group, by name or by the star. */
  lemma TypesAreGranted(c: Config, p: Principal, client: string, fold: PrefixFold, r: Grants, t: string)
    requires IsGrants(c, p, client, fold, r)
    ensures t in r.serverTypes <==>
            && t != "" && t in c.servers
            && exists g :: g in c.groups && (g.name in p.groups || g.name in c.always)
                           && (t in g.serverTypes || "*" in g.serverTypes)
  {
    assert t in r.serverTypes <==> t in Elements(r.serverTypes);
    if g :| g in c.groups && (g.name in p.groups || g.name in c.always) && (t in g.serverTypes || "*" in g.serverTypes) {
      HeldMeans(c, p, g);
    }
  }

  /** The other grants, written out the same way. */
  lemma GrantsMean(c: Config, p: Principal, client: string, fold: PrefixFold, r: Grants)
    requires IsGrants(c, p, client, fold, r)
    ensures r.subject == p.subject
    ensures forall n :: n in r.groups <==>
              n != "" && (n in p.groups || n in c.always) && exists g :: g in c.groups && g.name == n
    ensures r.admin <==>
            || c.adminScope in p.scopes
            || exists g :: g in c.groups && (g.name in p.groups || g.name in c.always) && g.admin
    ensures r.podsPerUser >= c.podsPerUser
    ensures forall g :: g in c.groups && (g.name in p.groups || g.name in c.always) ==> r.podsPerUser >= g.podsPerUser
    ensures || r.podsPerUser == c.podsPerUser
            || exists g :: g in c.groups && (g.name in p.groups || g.name in c.always) && g.podsPerUser == r.podsPerUser
    ensures r.lazy <==>
            || c.lazy
            || (exists g :: g in c.groups && (g.name in p.groups || g.name in c.always)
                            && (g.lazy || g.name in c.lazyForGroups))
            || (client != "" && exists n :: n in c.lazyForClients && fold(client, n))
  {
    forall n ensures n in r.groups <==>
                     n != "" && (n in p.groups || n in c.always) && exists g :: g in c.groups && g.name == n {
      assert n in r.groups <==> n in Elements(r.groups);
      if g :| g in c.groups && g.name == n && (n in p.groups || n in c.always) {
        HeldMeans(c, p, g);
      }
    }
    forall g | g in c.groups ensures g in Held(c, p) <==> g.name in p.groups || g.name in c.always {
      HeldMeans(c, p, g);
    }
  }

  /** A caller in no configured group, where none is everybody's, gets nothing beyond the base cap. */
  lemma OutsiderGetsNothing(c: Config, p: Principal, client: string, fold: PrefixFold, r: Grants)
    requires IsGrants(c, p, client, fold, r)
    requires forall g :: g in c.groups ==> g.name !in p.groups && g.name !in c.always
    requires c.adminScope !in p.scopes
    ensures r.serverTypes == [] && r.groups == [] && !r.admin && r.podsPerUser == c.podsPerUser
  {
    assert Held(c, p) == {};
    NoElements(r.serverTypes);
    NoElements(r.groups);
  }

  /** At least as much is granted. */
  ghost predicate Covers(r: Grants, s: Grants) {
    && Elements(r.serverTypes) <= Elements(s.serverTypes)
    && Elements(r.groups) <= Elements(s.groups)
    && r.podsPerUser <= s.podsPerUser
    && (r.admin ==> s.admin)
  }

  /** Configuring a further group, or putting the caller into one, takes nothing away. */
  lemma Monotone(c: Config, d: Config, p: Principal, q: Principal, client: string, fold: PrefixFold,
                 r: Grants, s: Grants)
    requires SameButGroups(c, d) && (forall g :: g in c.groups ==> g in d.groups)
    requires q.(groups := p.groups) == p && (forall n :: n in p.groups ==> n in q.groups)
    requires IsGrants(c, p, client, fold, r) && IsGrants(d, q, client, fold, s)
    ensures Covers(r, s)
  {
    assert Held(c, p) <= Held(d, q);
    assert Types(c.servers, Held(c, p)) <= Types(c.servers, Held(d, q));
    assert Names(Held(c, p)) <= Names(Held(d, q));
  }

  // The code.

  method SortedUnique(input: seq<string>) returns (out: seq<string>)
    ensures StrictlySorted(out) && Elements(out) == Elements(input) - {""}
  {
    var seen: set<string> := {};
    out := [];
    for i := 0 to |input|
      invariant seen == Elements(out) == Elements(input[..i]) - {""}
      invariant forall j, k :: 0 <= j < k < |out| ==> out[j] != out[k]
    {
      assert Elements(input[..i + 1]) == Elements(input[..i]) + {input[i]};
      var s := input[i];
      if s == "" || s in seen {
        continue;
      }
      assert forall x :: x in out ==> x in Elements(out);
      assert Elements(out + [s]) == Elements(out) + {s};
      seen := seen + {s};
      out := out + [s];
    }
    assert input[..|input|] == input;
    out := SortDistinct(out);
  }

  lemma ElementsAppend(a: seq<string>, b: seq<string>)
    ensures Elements(a + b) == Elements(a) + Elements(b)
  {
  }

  /** The server types a group opens, looked at up to the i-th entry of its list. */
  ghost function OpenedBy(servers: seq<string>, listed: seq<string>): set<string> {
    set t | t in servers && (t in listed || ALL in listed)
  }

  lemma OpenedNext(servers: seq<string>, listed: seq<string>, i: nat)
    requires i < |listed|
    ensures OpenedBy(servers, listed[..i + 1]) ==
            OpenedBy(servers, listed[..i]) +
            if listed[i] == ALL then Elements(servers) else if listed[i] in servers then {listed[i]} else {}
  {
    assert listed[..i + 1] == listed[..i] + [listed[i]];
  }

  method AddTypes(servers: seq<string>, g: Group, types: seq<string>) returns (out: seq<string>)
    ensures Elements(out) == Elements(types) + Types(servers, {g})
  {
    out := types;
    for i := 0 to |g.serverTypes|
      invariant Elements(out) == Elements(types) + OpenedBy(servers, g.serverTypes[..i])
    {
      OpenedNext(servers, g.serverTypes, i);
      var st := g.serverTypes[i];
      if st == ALL {
        ElementsAppend(out, servers);
        out := out + servers;
        continue;
      }
      if st in servers {
        ElementsAppend(out, [st]);
        out := out + [st];
      }
    }
    assert g.serverTypes[..|g.serverTypes|] == g.serverTypes;
    assert Types(servers, {g}) == OpenedBy(servers, g.serverTypes);
  }

  lemma HeldNext(c: Config, p: Principal, groups: seq<Group>, i: nat)
    requires i < |groups|
    ensures HeldIn(c, p, groups[..i + 1]) ==
            HeldIn(c, p, groups[..i]) + if Applies(c, p, groups[i]) then {groups[i]} else {}
  {
    assert groups[..i + 1] == groups[..i] + [groups[i]];
  }

  lemma OneMoreHeld(servers: seq<string>, held: set<Group>, g: Group)
    ensures Types(servers, held + {g}) == Types(servers, held) + Types(servers, {g})
    ensures Names(held + {g}) == Names(held) + {g.name}
  {
  }

  lemma CapNext(base: int, held: set<Group>, g: Group, cap: int)
    requires IsCap(base, held, cap)
    ensures IsCap(base, held + {g}, if g.podsPerUser > cap then g.podsPerUser else cap)
  {
    assert g in held + {g};
    if cap != base {
      var h :| h in held && h.podsPerUser == cap;
      assert h in held + {g};
    }
  }

  /** What the loop over the configured groups has gathered so far. */
  datatype Gathered = Gathered(types: seq<string>, groups: seq<string>, admin: bool, cap: int, lazy: bool)

  ghost predicate From(c: Config, p: Principal, held: set<Group>, a: Gathered) {
    && Elements(a.types) == Types(c.servers, held)
    && Elements(a.groups) == Names(held)
    && (a.admin <==> c.adminScope in p.scopes || exists g :: g in held && g.admin)
    && IsCap(c.podsPerUser, held, a.cap)
    && (a.lazy <==> c.lazy || exists g :: g in held && g.lazy)
  }

  lemma FlagsNext(held: set<Group>, g: Group)
    ensures (exists h :: h in held + {g} && h.admin) <==> g.admin || exists h :: h in held && h.admin
    ensures (exists h :: h in held + {g} && h.lazy) <==> g.lazy || exists h :: h in held && h.lazy
  {
    assert g in held + {g};
    assert forall h :: h in held ==> h in held + {g};
  }

  method AddGroup(c: Config, p: Principal, ghost held: set<Group>, a: Gathered, g: Group) returns (b: Gathered)
    requires From(c, p, held, a)
    ensures From(c, p, held + {g}, b)
  {
    OneMoreHeld(c.servers, held, g);
    FlagsNext(held, g);
    CapNext(c.podsPerUser, held, g, a.cap);
    ElementsAppend(a.groups, [g.name]);
    var groups, admin, cap, lazy := a.groups + [g.name], a.admin, a.cap, a.lazy;
    if g.admin {
      admin := true;
    }
    if g.podsPerUser > cap {
      cap := g.podsPerUser;
    }
    if g.lazy {
      lazy := true;
    }
    var types := AddTypes(c.servers, g, a.types);
    b := Gathered(types, groups, admin, cap, lazy);
  }

  method Gather(c: Config, p: Principal) returns (a: Gathered)
    ensures From(c, p, Held(c, p), a)
  {
    a := Gathered([], [], c.adminScope in p.scopes, c.podsPerUser, c.lazy);
    for i := 0 to |c.groups|
      invariant From(c, p, HeldIn(c, p, c.groups[..i]), a)
    {
      HeldNext(c, p, c.groups, i);
      if !Applies(c, p, c.groups[i]) {
        continue;
      }
      a := AddGroup(c, p, HeldIn(c, p, c.groups[..i]), a, c.groups[i]);
    }
    assert c.groups[..|c.groups|] == c.groups;
  }

  method AnyShared(a: seq<string>, b: seq<string>) returns (r: bool)
    ensures r <==> exists n :: n in a && n in b
  {
    r := false;
    for i := 0 to |a|
      invariant r <==> exists n :: n in a[..i] && n in b
    {
      ghost var before := r;
      for j := 0 to |b|
        invariant r <==> before || a[i] in b[..j]
      {
        if b[j] == a[i] {
          r := true;
        }
      }
      assert b[..|b|] == b;
      assert a[..i + 1] == a[..i] + [a[i]];
    }
    assert a[..|a|] == a;
  }

  method AnyClient(client: string, prefixes: seq<string>, fold: PrefixFold) returns (r: bool)
    ensures r <==> client != "" && exists n :: n in prefixes && fold(client, n)
  {
    r := false;
    for i := 0 to |prefixes|
      invariant r <==> client != "" && exists n :: n in prefixes[..i] && fold(client, n)
    {
      assert prefixes[..i + 1] == prefixes[..i] + [prefixes[i]];
      if client != "" && fold(client, prefixes[i]) {
        r := true;
      }
    }
    assert prefixes[..|prefixes|] == prefixes;
  }

  method DeriveGrants(c: Config, p: Principal, client: string, fold: PrefixFold) returns (r: Grants)
    ensures IsGrants(c, p, client, fold, r)
  {
    var a := Gather(c, p);
    var byGroup := AnyShared(c.lazyForGroups, a.groups);
    var byClient := AnyClient(client, c.lazyForClients, fold);
    assert forall n :: n in a.groups <==> n in Elements(a.groups);
    var types := SortedUnique(a.types);
    var groups := SortedUnique(a.groups);
    r := Grants(p.subject, types, groups, a.admin, a.cap, a.lazy || byGroup || byClient);
  }

  // Tool visibility.

  datatype Expose = Everything | Allow(names: seq<string>) | Deny(names: seq<string>)

  datatype Tools = Tools(expose: Expose, groups: map<string, seq<string>>, rename: map<string, string>)

  datatype ToolRule = Hidden | Visible(name: string)

  predicate Admits(e: Expose, upstream: string) {
    match e
    case Everything => true
    case Allow(names) => upstream in names
    case Deny(names) => upstream !in names
  }

  /** Which tools a holder of the grants sees, and under what name. */
  ghost function RuleFor(tools: Tools, g: Grants, upstream: string): ToolRule {
    if && Admits(tools.expose, upstream)
       && (|| upstream !in tools.groups
           || g.admin
           || exists n :: n in tools.groups[upstream] && n in g.groups)
    then Visible(if upstream in tools.rename then tools.rename[upstream] else upstream)
    else Hidden
  }

  method DecideTool(tools: Tools, g: Grants, upstream: string) returns (r: ToolRule)
    ensures r == RuleFor(tools, g, upstream)
  {
    match tools.expose {
      case Everything =>
      case Allow(names) => if upstream !in names { return Hidden; }
      case Deny(names) => if upstream in names { return Hidden; }
    }
    if upstream in tools.groups && !g.admin {
      var groups := tools.groups[upstream];
      var visible := false;
      for i := 0 to |groups|
        invariant !visible && forall k :: 0 <= k < i ==> groups[k] !in g.groups
      {
        if groups[i] in g.groups {
          visible := true;
          break;
        }
      }
      if !visible {
        return Hidden;
      }
    }
    var name := upstream;
    if upstream in tools.rename {
      name := tools.rename[upstream];
    }
    r := Visible(name);
  }

  /** Which tools the lists, the groups and the grants hide, and what the others are called. */
  lemma ToolsShown(tools: Tools, g: Grants, upstream: string)
    ensures tools.expose.Allow? && upstream !in tools.expose.names ==> RuleFor(tools, g, upstream) == Hidden
    ensures tools.expose.Deny? && upstream in tools.expose.names ==> RuleFor(tools, g, upstream) == Hidden
    ensures upstream in tools.groups && !g.admin && (forall n :: n in g.groups ==> n !in tools.groups[upstream]) ==>
              RuleFor(tools, g, upstream) == Hidden
    ensures (&& (tools.expose.Allow? ==> upstream in tools.expose.names)
             && (tools.expose.Deny? ==> upstream !in tools.expose.names)
             && (upstream in tools.groups && !g.admin ==> exists n :: n in g.groups && n in tools.groups[upstream]))
            ==> RuleFor(tools, g, upstream) ==
                Visible(if upstream in tools.rename then tools.rename[upstream] else upstream)
  {
  }

  /** A tool that is shown stays shown, under the same name, when more is granted. */
  lemma ToolsStayVisible(tools: Tools, r: Grants, s: Grants, upstream: string)
    requires Covers(r, s) && RuleFor(tools, r, upstream).Visible?
    ensures RuleFor(tools, s, upstream) == RuleFor(tools, r, upstream)
  {
    if upstream in tools.groups && !r.admin {
      var n :| n in tools.groups[upstream] && n in r.groups;
      assert n in Elements(r.groups) && n in Elements(s.groups);
    }
  }
}
