/** Namespaced tool names `<adapter><separator><tool>`, and where the eager and the lazy mode send them. */
module ToolNames {
  import opened Common
  import opened Strings
  import opened Policy

  // Names.

  function Exposed(server: string, sep: string, tool: string): string {
    server + sep + tool
  }

  /** The separator cannot begin inside a server name. */
  predicate Separable(server: string, sep: string) {
    sep != "" && sep[0] !in server
  }

  const DEFAULT_SEPARATOR := "__"

  /** Configured server names are lower-case letters, digits and dashes, so the default separator is safe. */
  lemma DefaultIsSeparable(server: string)
    requires forall ch :: ch in server ==> 'a' <= ch <= 'z' || '0' <= ch <= '9' || ch == '-'
    ensures Separable(server, DEFAULT_SEPARATOR)
  {
  }

  predicate OccursAt(s: string, sep: string, i: nat) {
    i + |sep| <= |s| && s[i..i + |sep|] == sep
  }

  /** Splits around the first occurrence of the separator. */
  method Cut(s: string, sep: string) returns (before: string, after: string, found: bool)
    ensures found ==> s == before + sep + after && (forall i: nat :: i < |before| ==> !OccursAt(s, sep, i))
    ensures !found ==> before == s && after == "" && (forall i: nat :: !OccursAt(s, sep, i))
  {
    var k := 0;
    while k + |sep| <= |s|
      invariant k <= |s| + 1
      invariant forall i: nat :: i < k ==> !OccursAt(s, sep, i)
    {
      if s[k..k + |sep|] == sep {
        assert s == s[..k] + s[k..k + |sep|] + s[k + |sep|..];
        return s[..k], s[k + |sep|..], true;
      }
      k := k + 1;
    }
    return s, "", false;
  }

  /** A first cut of an exposed name is at the end of the server name. */
  lemma FirstCut(server: string, sep: string, tool: string, before: string, after: string)
    requires Separable(server, sep)
    requires Exposed(server, sep, tool) == before + sep + after
    requires forall i: nat :: i < |before| ==> !OccursAt(Exposed(server, sep, tool), sep, i)
    ensures before == server && after == tool
  {
    var s := Exposed(server, sep, tool);
    assert OccursAt(s, sep, |server|);
    assert s[|before|] == sep[0];
    assert forall i :: 0 <= i < |server| ==> s[i] == server[i] && s[i] != sep[0];
    assert |before| == |server|;
    assert before == s[..|before|] && server == s[..|server|];
    assert after == s[|before| + |sep|..] && tool == s[|server| + |sep|..];
  }

  /** Cutting recovers server and tool. */
  method Resolve(server: string, sep: string, tool: string) returns (before: string, after: string)
    requires Separable(server, sep)
    ensures before == server && after == tool
  {
    var found;
    before, after, found := Cut(Exposed(server, sep, tool), sep);
    assert OccursAt(Exposed(server, sep, tool), sep, |server|);
    FirstCut(server, sep, tool, before, after);
  }

  /** So exposed names never collide across servers. */
  lemma ExposedIsInjective(a: string, x: string, b: string, y: string, sep: string)
    requires Separable(a, sep) && Separable(b, sep)
    requires Exposed(a, sep, x) == Exposed(b, sep, y)
    ensures a == b && x == y
  {
    var s := Exposed(a, sep, x);
    assert s[|a|] == sep[0] && s[|b|] == sep[0];
    assert forall i :: 0 <= i < |a| ==> s[i] == a[i];
    assert forall i :: 0 <= i < |b| ==> s[i] == b[i];
    assert |a| == |b|;
    assert a == s[..|a|] && b == s[..|b|];
    assert x == s[|a| + |sep|..] && y == s[|b| + |sep|..];
  }

  // Routes.

  datatype Target = Target(server: string, upstream: string)

  /** The configured servers, and the tool listings of those that answered. */
  datatype Catalog = Catalog(servers: map<string, Tools>, listings: map<string, seq<string>>, sep: string)

  /** Exposed names of one server, each with the upstream tool listed last under it. */
  ghost function Back(g: Grants, tools: Tools, prefix: string, raw: seq<string>): map<string, string> {
    if raw == [] then map[]
    else
      var t := raw[|raw| - 1];
      var rest := Back(g, tools, prefix, raw[..|raw| - 1]);
      match RuleFor(tools, g, t)
      case Hidden => rest
      case Visible(name) => rest[prefix + name := t]
  }

  ghost function Owned(server: string, back: map<string, string>): map<string, Target> {
    map k | k in back :: Target(server, back[k])
  }

  ghost function RoutesOf(g: Grants, c: Catalog, server: string): map<string, Target> {
    if server in c.servers && server in c.listings
    then Owned(server, Back(g, c.servers[server], server + c.sep, c.listings[server]))
    else map[]
  }

  /** Where each exposed name goes; later servers win. */
  ghost function Routes(g: Grants, c: Catalog, names: seq<string>): map<string, Target> {
    if names == [] then map[]
    else Routes(g, c, names[..|names| - 1]) + RoutesOf(g, c, names[|names| - 1])
  }

  /** The tools of one server the caller sees, and the way back to upstream names. */
  method ToolsFor(g: Grants, tools: Tools, prefix: string, raw: seq<string>)
    returns (out: seq<string>, back: map<string, string>)
    ensures back == Back(g, tools, prefix, raw) && Elements(out) == back.Keys
  {
    out, back := [], map[];
    for i := 0 to |raw|
      invariant back == Back(g, tools, prefix, raw[..i]) && Elements(out) == back.Keys
    {
      assert raw[..i + 1][..i] == raw[..i];
      var rule := DecideTool(tools, g, raw[i]);
      if rule.Hidden? {
        continue;
      }
      var name := prefix + rule.name;
      assert Elements(out + [name]) == Elements(out) + {name};
      out := out + [name];
      back := back[name := raw[i]];
    }
    assert raw[..|raw|] == raw;
  }

  method AddAll(registry: map<string, Target>, server: string, out: seq<string>, back: map<string, string>)
    returns (r: map<string, Target>)
    requires Elements(out) == back.Keys
    ensures r == registry + Owned(server, back)
  {
    r := registry;
    for i := 0 to |out|
      invariant r == registry + map k | k in out[..i] && k in back :: Target(server, back[k])
    {
      assert out[i] in Elements(out);
      assert out[..i + 1] == out[..i] + [out[i]];
      r := r[out[i] := Target(server, back[out[i]])];
    }
    assert out[..|out|] == out;
    assert forall k :: k in back ==> k in Elements(out);
  }

  /** Eager mode registers one handler per exposed name; registering a name again replaces its handler. */
  method AddEagerTools(g: Grants, c: Catalog, names: seq<string>) returns (registry: map<string, Target>)
    ensures registry == Routes(g, c, names)
  {
    registry := map[];
    for i := 0 to |names|
      invariant registry == Routes(g, c, names[..i])
    {
      assert names[..i + 1][..i] == names[..i];
      var name := names[i];
      if name !in c.servers || name !in c.listings {
        continue;
      }
      var out, back := ToolsFor(g, c.servers[name], name + c.sep, c.listings[name]);
      registry := AddAll(registry, name, out, back);
    }
    assert names[..|names|] == names;
  }

  /** Where the two tables of the lazy mode send a name. */
  ghost predicate Sends(owner: map<string, string>, back: map<string, string>, routes: map<string, Target>) {
    && owner.Keys == back.Keys == routes.Keys
    && forall k :: k in routes ==> routes[k] == Target(owner[k], back[k])
  }

  lemma OwnedNext(routes: map<string, Target>, server: string, more: map<string, string>, todo: set<string>, k: string)
    requires k in todo && k in more
    ensures routes + Owned(server, more - (todo - {k})) ==
            (routes + Owned(server, more - todo))[k := Target(server, more[k])]
  {
  }

  lemma SendsNext(owner: map<string, string>, back: map<string, string>, routes: map<string, Target>, k: string,
                  t: Target)
    requires Sends(owner, back, routes)
    ensures Sends(owner[k := t.server], back[k := t.upstream], routes[k := t])
  {
  }

  lemma OwnedAll(routes: map<string, Target>, server: string, more: map<string, string>)
    ensures routes + Owned(server, more - more.Keys) == routes && more - {} == more
  {
  }

  method Merge(owner: map<string, string>, back: map<string, string>, server: string, more: map<string, string>,
               ghost routes: map<string, Target>)
    returns (owner': map<string, string>, back': map<string, string>)
    requires Sends(owner, back, routes)
    ensures Sends(owner', back', routes + Owned(server, more))
  {
    owner', back' := owner, back;
    var todo := more.Keys;
    ghost var sent := routes;
    OwnedAll(routes, server, more);
    while todo != {}
      invariant todo <= more.Keys
      invariant Sends(owner', back', sent)
      invariant sent == routes + Owned(server, more - todo)
      decreases |todo|
    {
      var k :| k in todo;
      OwnedNext(routes, server, more, todo, k);
      SendsNext(owner', back', sent, k, Target(server, more[k]));
      back' := back'[k := more[k]];
      owner' := owner'[k := server];
      todo := todo - {k};
      sent := sent[k := Target(server, more[k])];
    }
  }

  /** Lazy mode enumerates the same tools into a table of owners and one of upstream names. */
  method AllTools(g: Grants, c: Catalog, names: seq<string>)
    returns (owner: map<string, string>, back: map<string, string>)
    ensures Sends(owner, back, Routes(g, c, names))
  {
    owner, back := map[], map[];
    for i := 0 to |names|
      invariant Sends(owner, back, Routes(g, c, names[..i]))
    {
      assert names[..i + 1][..i] == names[..i];
      var name := names[i];
      if name !in c.servers || name !in c.listings {
        continue;
      }
      var _, more := ToolsFor(g, c.servers[name], name + c.sep, c.listings[name]);
      owner, back := Merge(owner, back, name, more, Routes(g, c, names[..i]));
    }
    assert names[..|names|] == names;
  }

  /** Both modes send every name to the same server and upstream tool, whatever the renames and the separator. */
  method EagerAndLazyAgree(g: Grants, c: Catalog, names: seq<string>, name: string)
    returns (eager: Option<Target>, lazy: Option<Target>)
    ensures eager == lazy
    ensures eager.Some? <==> name in Routes(g, c, names)
    ensures eager.Some? ==> eager.value == Routes(g, c, names)[name]
  {
    var registry := AddEagerTools(g, c, names);
    eager := if name in registry then Some(registry[name]) else None;
    var owner, back := AllTools(g, c, names);
    lazy := if name in owner then Some(Target(owner[name], back[name])) else None;
  }

  // What the routes mean.

  /** The caller may use this tool of this server. */
  ghost predicate Shown(g: Grants, c: Catalog, names: seq<string>, t: Target) {
    && t.server in names && t.server in c.servers && t.server in c.listings
    && t.upstream in c.listings[t.server]
    && RuleFor(c.servers[t.server], g, t.upstream).Visible?
  }

  ghost function NameOf(g: Grants, c: Catalog, t: Target): string
    requires t.server in c.servers && RuleFor(c.servers[t.server], g, t.upstream).Visible?
  {
    Exposed(t.server, c.sep, RuleFor(c.servers[t.server], g, t.upstream).name)
  }

  lemma {:induction false} BackMeans(g: Grants, tools: Tools, prefix: string, raw: seq<string>)
    ensures var back := Back(g, tools, prefix, raw);
            && (forall k :: k in back ==>
                  back[k] in raw && RuleFor(tools, g, back[k]).Visible? && k == prefix + RuleFor(tools, g, back[k]).name)
            && (forall t :: t in raw && RuleFor(tools, g, t).Visible? ==> prefix + RuleFor(tools, g, t).name in back)
  {
    if raw != [] {
      var rest, last := raw[..|raw| - 1], raw[|raw| - 1];
      BackMeans(g, tools, prefix, rest);
      assert raw == rest + [last];
    }
  }

  /** Only tools the caller may use are routed, each under its own name. */
  ghost predicate Sound(g: Grants, c: Catalog, names: seq<string>, routes: map<string, Target>) {
    forall k :: k in routes ==> Shown(g, c, names, routes[k]) && NameOf(g, c, routes[k]) == k
  }

  /** The name of every tool the caller may use is routed. */
  ghost predicate Complete(g: Grants, c: Catalog, names: seq<string>, routes: map<string, Target>) {
    forall t :: Shown(g, c, names, t) ==> NameOf(g, c, t) in routes
  }

  lemma RoutesOfMean(g: Grants, c: Catalog, server: string)
    ensures Sound(g, c, [server], RoutesOf(g, c, server)) && Complete(g, c, [server], RoutesOf(g, c, server))
  {
    if server in c.servers && server in c.listings {
      BackMeans(g, c.servers[server], server + c.sep, c.listings[server]);
    }
  }

  lemma SoundTogether(g: Grants, c: Catalog, m: seq<string>, n: seq<string>,
                      a: map<string, Target>, b: map<string, Target>)
    requires Sound(g, c, m, a) && Sound(g, c, n, b)
    ensures Sound(g, c, m + n, a + b)
  {
    forall k | k in a + b ensures Shown(g, c, m + n, (a + b)[k]) && NameOf(g, c, (a + b)[k]) == k {
      if k in b {
        assert (a + b)[k] == b[k];
        assert Shown(g, c, n, b[k]);
      } else {
        assert (a + b)[k] == a[k];
        assert Shown(g, c, m, a[k]);
      }
    }
  }

  lemma CompleteTogether(g: Grants, c: Catalog, m: seq<string>, n: seq<string>,
                         a: map<string, Target>, b: map<string, Target>)
    requires Complete(g, c, m, a) && Complete(g, c, n, b)
    ensures Complete(g, c, m + n, a + b)
  {
    forall t | Shown(g, c, m + n, t) ensures NameOf(g, c, t) in a + b {
      assert Shown(g, c, m, t) || Shown(g, c, n, t);
    }
  }

  /** The routes are the visible tools: none else, and none missing. */
  lemma {:induction false} RoutesMean(g: Grants, c: Catalog, names: seq<string>)
    ensures Sound(g, c, names, Routes(g, c, names)) && Complete(g, c, names, Routes(g, c, names))
  {
    if names != [] {
      var front, last := names[..|names| - 1], names[|names| - 1];
      RoutesMean(g, c, front);
      RoutesOfMean(g, c, last);
      SoundTogether(g, c, front, [last], Routes(g, c, front), RoutesOf(g, c, last));
      CompleteTogether(g, c, front, [last], Routes(g, c, front), RoutesOf(g, c, last));
      assert names == front + [last];
    }
  }

  /** Every tool the caller may use is reached by its name. */
  ghost predicate ReachesAll(g: Grants, c: Catalog, names: seq<string>) {
    forall t :: Shown(g, c, names, t) ==>
      NameOf(g, c, t) in Routes(g, c, names) && Routes(g, c, names)[NameOf(g, c, t)] == t
  }

  /** On no server do two tools the caller sees have the same name. */
  ghost predicate InjectiveRenames(g: Grants, c: Catalog, names: seq<string>) {
    forall t, u ::
      (&& Shown(g, c, names, t) && Shown(g, c, names, u) && t.server == u.server
       && RuleFor(c.servers[t.server], g, t.upstream) == RuleFor(c.servers[u.server], g, u.upstream))
      ==> t == u
  }

  /**
    If the separator cannot begin inside a server name, all tools are reached
    exactly when renames are injective on each server.
   */
  lemma ReachedIffInjective(g: Grants, c: Catalog, names: seq<string>)
    requires forall n :: n in names ==> Separable(n, c.sep)
    ensures ReachesAll(g, c, names) <==> InjectiveRenames(g, c, names)
  {
    RoutesMean(g, c, names);
    if InjectiveRenames(g, c, names) {
      forall t | Shown(g, c, names, t) ensures Routes(g, c, names)[NameOf(g, c, t)] == t {
        var u := Routes(g, c, names)[NameOf(g, c, t)];
        ExposedIsInjective(t.server, RuleFor(c.servers[t.server], g, t.upstream).name,
                           u.server, RuleFor(c.servers[u.server], g, u.upstream).name, c.sep);
      }
    }
  }

  /** Two tools renamed alike: one of them cannot be reached. */
  lemma SharedRenameHidesATool()
    ensures exists g: Grants, c: Catalog, names: seq<string> ::
              (forall n :: n in names ==> Separable(n, c.sep)) && !ReachesAll(g, c, names)
  {
    var tools := Tools(Everything, map[], map["a" := "x", "b" := "x"]);
    var c := Catalog(map["s" := tools], map["s" := ["a", "b"]], "__");
    var g := Grants("u", ["s"], [], false, 1, false);
    var t, u := Target("s", "a"), Target("s", "b");
    assert Shown(g, c, ["s"], t) && Shown(g, c, ["s"], u);
    assert !InjectiveRenames(g, c, ["s"]);
    ReachedIffInjective(g, c, ["s"]);
  }
}
