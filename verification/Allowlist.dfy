/** The egress allowlist: rules rendered as `host:port` text, and the matcher that works on the text. */
module Allowlist {
  import opened Common

  /** Hosts a server type may reach, each on some ports; a host may be `*.example.com`. */
  datatype Rule = Rule(host: string, ports: seq<int>)

  datatype AllowEntry = AllowEntry(session: string, serverType: string, hosts: seq<string>)

  function Digit(n: nat): char
    requires n < 10
  {
    '0' + n as char
  }

  function Digits(n: nat): (s: string)
    ensures s != [] && forall c :: c in s ==> '0' <= c <= '9'
  {
    if n < 10 then [Digit(n)] else Digits(n / 10) + [Digit(n % 10)]
  }

  /** Decimal notation. */
  function Decimal(n: int): string {
    if n < 0 then "-" + Digits(-n) else Digits(n)
  }

  /** Reads decimal digits back. */
  ghost function Read(s: string): int {
    if s == [] then 0 else 10 * Read(s[..|s| - 1]) + (s[|s| - 1] as int - '0' as int)
  }

  lemma {:induction false} ReadDigits(n: nat)
    ensures Read(Digits(n)) == n
  {
    var s := Digits(n);
    if n < 10 {
      assert s[..|s| - 1] == [];
    } else {
      ReadDigits(n / 10);
      assert s[..|s| - 1] == Digits(n / 10);
    }
  }

  lemma DecimalIsInjective(m: int, n: int)
    requires Decimal(m) == Decimal(n)
    ensures m == n
  {
    var s := Decimal(m);
    assert m >= 0 ==> s[0] in Digits(m);
    assert n >= 0 ==> s[0] in Digits(n);
    if m < 0 {
      assert Digits(-m) == s[1..] == Digits(-n);
      ReadDigits(-m);
      ReadDigits(-n);
    } else {
      ReadDigits(m);
      ReadDigits(n);
    }
  }

  function Rendered(host: string, port: int): string {
    host + ":" + Decimal(port)
  }

  lemma LastColon(host: string, port: int)
    ensures var s := Rendered(host, port);
            s[|host|] == ':' && (forall i :: |host| < i < |s| ==> s[i] != ':')
  {
    var s, d := Rendered(host, port), Decimal(port);
    assert ':' !in d;
    forall i | |host| < i < |s| ensures s[i] != ':' {
      assert s[i] == d[i - |host| - 1];
    }
  }

  /** The last colon separates host and port, so the text determines both, even if the host holds colons. */
  lemma RenderedIsInjective(g: string, m: int, h: string, n: int)
    requires Rendered(g, m) == Rendered(h, n)
    ensures g == h && m == n
  {
    var s := Rendered(g, m);
    LastColon(g, m);
    LastColon(h, n);
    assert g == s[..|g|] && h == s[..|h|];
    assert Decimal(m) == s[|g| + 1..] && Decimal(n) == s[|h| + 1..];
    DecimalIsInjective(m, n);
  }

  predicate HasSuffix(s: string, suffix: string) {
    |suffix| <= |s| && s[|s| - |suffix|..] == suffix
  }

  function TrimSuffix(s: string, suffix: string): string {
    if HasSuffix(s, suffix) then s[..|s| - |suffix|] else s
  }

  predicate Wildcard(h: string) {
    "*." <= h
  }

  /** The textual test of one list element against the wanted `host:port`. */
  predicate Accepts(h: string, want: string) {
    || h == want
    || (Wildcard(h) && HasSuffix(want, h[1..]) && multiset(TrimSuffix(want, h[1..]))['.'] == 0)
  }

  /** What a rule means: this very host, or one dot-free (possibly empty) label in place of the star. */
  ghost predicate Permits(rule: string, host: string) {
    || rule == host
    || (Wildcard(rule) && exists first: string :: '.' !in first && host == first + rule[1..])
  }

  lemma WildcardRendered(rule: string, p: int)
    ensures Wildcard(Rendered(rule, p)) <==> Wildcard(rule)
    ensures Wildcard(rule) ==> Rendered(rule, p)[1..] == Rendered(rule[1..], p)
  {
    var h := Rendered(rule, p);
    assert |rule| < 2 ==> h[|rule|] == ':';
    assert |rule| >= 2 ==> h[..2] == rule[..2];
  }

  lemma PrefixedRendered(first: string, rest: string, p: int)
    ensures first + Rendered(rest, p) == Rendered(first + rest, p)
  {
  }

  lemma AcceptedIsPermitted(rule: string, p: int, host: string, port: int)
    requires Accepts(Rendered(rule, p), Rendered(host, port))
    ensures p == port && Permits(rule, host)
  {
    var h, want := Rendered(rule, p), Rendered(host, port);
    if h == want {
      RenderedIsInjective(rule, p, host, port);
    } else {
      WildcardRendered(rule, p);
      var first := TrimSuffix(want, h[1..]);
      assert want == first + h[1..];
      PrefixedRendered(first, rule[1..], p);
      RenderedIsInjective(first + rule[1..], p, host, port);
      assert '.' !in first;
    }
  }

  lemma PermittedIsAccepted(rule: string, host: string, port: int)
    requires Permits(rule, host)
    ensures Accepts(Rendered(rule, port), Rendered(host, port))
  {
    if rule != host {
      var h, want := Rendered(rule, port), Rendered(host, port);
      WildcardRendered(rule, port);
      var first: string :| '.' !in first && host == first + rule[1..];
      PrefixedRendered(first, rule[1..], port);
      assert want == first + h[1..];
      assert TrimSuffix(want, h[1..]) == first;
    }
  }

  /** The texts of all rules, in order. */
  ghost function Texts(rules: seq<Rule>): seq<string> {
    if rules == [] then []
    else Texts(rules[..|rules| - 1]) + Column(rules[|rules| - 1].host, rules[|rules| - 1].ports)
  }

  ghost function Column(host: string, ports: seq<int>): seq<string> {
    seq(|ports|, i requires 0 <= i < |ports| => Rendered(host, ports[i]))
  }

  lemma ColumnIs(host: string, ports: seq<int>, h: string)
    ensures h in Column(host, ports) <==> exists p :: p in ports && h == Rendered(host, p)
  {
    if p :| p in ports && h == Rendered(host, p) {
      var i :| 0 <= i < |ports| && ports[i] == p;
      assert Column(host, ports)[i] == h;
    }
  }

  lemma {:induction false} TextsAre(rules: seq<Rule>, h: string)
    ensures h in Texts(rules) <==> exists r, p :: r in rules && p in r.ports && h == Rendered(r.host, p)
  {
    if rules != [] {
      var front, last := rules[..|rules| - 1], rules[|rules| - 1];
      TextsAre(front, h);
      assert rules == front + [last];
      ColumnIs(last.host, last.ports, h);
    }
  }

  lemma ColumnNext(host: string, ports: seq<int>, j: nat)
    requires j < |ports|
    ensures Column(host, ports[..j + 1]) == Column(host, ports[..j]) + [Rendered(host, ports[j])]
  {
  }

  lemma TextsNext(rules: seq<Rule>, i: nat)
    requires i < |rules|
    ensures Texts(rules[..i + 1]) == Texts(rules[..i]) + Column(rules[i].host, rules[i].ports)
  {
    assert rules[..i + 1][..i] == rules[..i];
  }

  method EntryFor(session: string, serverType: string, rules: seq<Rule>) returns (e: AllowEntry)
    ensures e == AllowEntry(session, serverType, Texts(rules))
  {
    var hosts := [];
    for i := 0 to |rules|
      invariant hosts == Texts(rules[..i])
    {
      var r := rules[i];
      ghost var before := hosts;
      for j := 0 to |r.ports|
        invariant hosts == before + Column(r.host, r.ports[..j])
      {
        ColumnNext(r.host, r.ports, j);
        hosts := hosts + [Rendered(r.host, r.ports[j])];
      }
      assert r.ports[..|r.ports|] == r.ports;
      TextsNext(rules, i);
    }
    assert rules[..|rules|] == rules;
    e := AllowEntry(session, serverType, hosts);
  }

  /** Lower-cased, without one trailing dot. */
  function Normal(lower: string -> string, host: string): string {
    lower(TrimSuffix(host, "."))
  }

  /** Spelling does not matter: only the lower-cased host, without a trailing dot. */
  lemma NormalMeans(lower: string -> string, host: string)
    ensures Normal(lower, host + ".") == lower(host)
    ensures host == "" || host[|host| - 1] != '.' ==> Normal(lower, host) == lower(host)
  {
    assert (host + ".")[|host|..] == "." && (host + ".")[..|host|] == host;
    if host != "" && host[|host| - 1] != '.' {
      assert host[|host| - 1..] == [host[|host| - 1]];
    }
  }

  /** A rule means itself, or any one dot-free label in place of a leading star. */
  lemma PermitsMeans(rule: string, host: string)
    ensures Permits(rule, host) <==>
            || host == rule
            || exists first: string, rest: string ::
                 rule == "*." + rest && '.' !in first && host == first + "." + rest
  {
    if Wildcard(rule) {
      assert rule == "*." + rule[2..] && rule[1..] == "." + rule[2..];
      if first: string :| '.' !in first && host == first + rule[1..] {
        assert host == first + "." + rule[2..];
      }
    }
    if first: string, rest: string :| rule == "*." + rest && '.' !in first && host == first + "." + rest {
      assert rule[1..] == "." + rest && host == first + rule[1..];
    }
  }

  method Allows(entries: map<string, AllowEntry>, srcIP: string, lower: string -> string, host: string, port: int)
    returns (e: Option<AllowEntry>, ok: bool)
    ensures e == if srcIP in entries then Some(entries[srcIP]) else None
    ensures ok <==> e.Some? && exists h :: h in e.value.hosts && Accepts(h, Rendered(Normal(lower, host), port))
  {
    if srcIP !in entries {
      return None, false;
    }
    var hosts := entries[srcIP].hosts;
    var want := Rendered(Normal(lower, host), port);
    for i := 0 to |hosts|
      invariant forall k :: 0 <= k < i ==> !Accepts(hosts[k], want)
    {
      var h := hosts[i];
      assert h in hosts;
      if h == want {
        assert Accepts(h, want);
        return Some(entries[srcIP]), true;
      }
      if Wildcard(h) {
        var suffix := h[1..];
        if HasSuffix(want, suffix) && multiset(TrimSuffix(want, suffix))['.'] == 0 {
          return Some(entries[srcIP]), true;
        }
      }
    }
    return Some(entries[srcIP]), false;
  }

  /** The proxy lets through exactly what the server type's rules permit. */
  lemma MatcherIsTheRules(rules: seq<Rule>, host: string, port: int)
    ensures (exists h :: h in Texts(rules) && Accepts(h, Rendered(host, port))) <==>
            (exists r :: r in rules && port in r.ports && Permits(r.host, host))
  {
    var want := Rendered(host, port);
    if h :| h in Texts(rules) && Accepts(h, want) {
      TextsAre(rules, h);
      var r, p :| r in rules && p in r.ports && h == Rendered(r.host, p);
      AcceptedIsPermitted(r.host, p, host, port);
    }
    if r :| r in rules && port in r.ports && Permits(r.host, host) {
      PermittedIsAccepted(r.host, host, port);
      TextsAre(rules, Rendered(r.host, port));
    }
  }

  /** Two spellings of a host get the same answer. */
  lemma SameHostSameAnswer(rules: seq<Rule>, lower: string -> string, g: string, h: string, port: int)
    requires lower(g) == lower(h) && (g == "" || g[|g| - 1] != '.') && (h == "" || h[|h| - 1] != '.')
    ensures (exists t :: t in Texts(rules) && Accepts(t, Rendered(Normal(lower, g + "."), port))) <==>
            (exists t :: t in Texts(rules) && Accepts(t, Rendered(Normal(lower, h), port)))
  {
    NormalMeans(lower, g);
    NormalMeans(lower, h);
  }

  /** A session's published entry lets a request through exactly if its server type's rules permit the normal host. */
  method Enforce(session: string, serverType: string, rules: seq<Rule>, srcIP: string, lower: string -> string,
                 host: string, port: int) returns (ok: bool)
    ensures ok <==> exists r :: r in rules && port in r.ports && Permits(r.host, Normal(lower, host))
  {
    var entry := EntryFor(session, serverType, rules);
    var _, allowed := Allows(map[srcIP := entry], srcIP, lower, host, port);
    MatcherIsTheRules(rules, Normal(lower, host), port);
    ok := allowed;
  }
}
