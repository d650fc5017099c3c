/** The proxy egress adapter: publishing and withdrawing allowlist entries of session pods. */
module Egress {
  import opened Allowlist
  import opened Documents
  import Cluster

  type Entries = map<string, AllowEntry>

  /** Which session each published IP belongs to; this is the allowlist of the lifecycle protocol. */
  ghost function Owners(entries: Entries): map<Cluster.IP, Cluster.Name> {
    map ip | ip in entries :: entries[ip].session
  }

  function Others(entries: Entries, session: string): Entries {
    map ip | ip in entries && entries[ip].session != session :: entries[ip]
  }

  /** Dropping a session's entries is the protocol's withdrawal, and it changes the one iff it changes the other. */
  lemma OthersAreWithout(entries: Entries, session: string)
    ensures Owners(Others(entries, session)) == Cluster.Without(Owners(entries), session)
    ensures Others(entries, session) == entries <==> session !in Owners(entries).Values
  {
    var owners := Owners(entries);
    if session in owners.Values {
      var ip :| ip in owners && owners[ip] == session;
      assert ip in entries && ip !in Others(entries, session);
    } else {
      forall ip | ip in entries ensures entries[ip].session != session {
        assert ip in owners && owners[ip] in owners.Values;
      }
    }
  }

  class Adapter {
    var doc: Document<Text<Entries>>
    ghost var rules: map<string, seq<Rule>>   // what each published entry was derived from

    ghost predicate Valid()
      reads this
    {
      && doc.Valid()
      && rules.Keys == doc.present.content.Keys
      && forall ip :: ip in doc.present.content ==> doc.present.content[ip].hosts == Texts(rules[ip])
    }

    /** The list as it was deployed, which is empty. */
    constructor ()
      ensures Valid() && doc == Document(Text(map[], false), Text(map[], false), [])
    {
      doc, rules := Document(Text(map[], false), Text(map[], false), []), map[];
    }

    method Deliver(skip: nat)
      requires Valid()
      modifies this`doc
      ensures Valid() && doc == old(doc).Deliver(skip)
    {
      doc.DeliverKeeps(skip);
      doc := doc.Deliver(skip);
    }

    /** Publishes a pod's entry; on success it is stored, or the cached list already had it. */
    method OnReady(session: string, serverType: string, rs: seq<Rule>, ip: string) returns (ok: bool)
      requires Valid()
      modifies this
      ensures Valid()
      ensures var e := AllowEntry(session, serverType, Texts(rs));
              var found := old(doc.cached.tidy) && ip in old(doc.cached.content) && old(doc.cached.content)[ip] == e;
              && (!ok || found ==> doc == old(doc))
              && (ok && !found ==> doc.present == Text(old(doc.present.content)[ip := e], true))
    {
      var entry := EntryFor(session, serverType, rs);
      var desired := Text(doc.cached.content[ip := entry], true);
      assert ip in doc.cached.content && doc.cached.content[ip] == entry ==>
          doc.cached.content[ip := entry] == doc.cached.content;
      assert doc.cached == Text(doc.cached.content, doc.cached.tidy);
      assert desired.content[ip] == entry;
      doc.WriteKeeps(desired);
      var written := doc.Write(desired);
      ok := written.Some?;
      if ok {
        if written.value != doc {
          rules := rules[ip := rs];
        }
        doc := written.value;
      }
    }

    /**
      Withdraws the entries of the session that the cached list shows. On success none is
      left exactly if the cached list showed one or there was none.
     */
    method OnCleanup(session: string) returns (ok: bool)
      requires Valid()
      modifies this
      ensures Valid()
      ensures !ok ==> doc == old(doc)
      ensures ok ==> if old(doc.cached.tidy) && session !in Owners(old(doc.cached.content)).Values then doc == old(doc)
                     else doc.present == Text(Others(old(doc.present.content), session), true)
      ensures ok ==> Owners(doc.present.content) ==
                     if session in Owners(old(doc.cached.content)).Values
                     then Cluster.Without(Owners(old(doc.present.content)), session)
                     else Owners(old(doc.present.content))
      ensures ok ==> (session !in Owners(doc.present.content).Values <==>
                      (session in Owners(old(doc.present.content)).Values ==>
                         session in Owners(old(doc.cached.content)).Values))
    {
      var rest := Drop(doc.cached.content, session);
      var desired := Text(rest, true);
      OthersAreWithout(doc.cached.content, session);
      OthersAreWithout(doc.present.content, session);
      doc.WriteKeeps(desired);
      var written := doc.Write(desired);
      ok := written.Some?;
      if ok {
        if written.value != doc {
          rules := map ip | ip in rest && ip in rules :: rules[ip];
        }
        doc := written.value;
      }
    }

    /** The loop over the entries. */
    static method Drop(entries: Entries, session: string) returns (rest: Entries)
      ensures rest == Others(entries, session)
    {
      rest := entries;
      var todo := entries.Keys;
      while todo != {}
        invariant todo <= entries.Keys
        invariant rest == map ip | ip in entries && (ip in todo || entries[ip].session != session) :: entries[ip]
        decreases |todo|
      {
        var ip :| ip in todo;
        if rest[ip].session == session {
          rest := rest - {ip};
        }
        todo := todo - {ip};
      }
    }

    /** What the proxy then lets a pod reach is what the rules of its server type permit. */
    method Connect(srcIP: string, lower: string -> string, host: string, port: int) returns (ok: bool)
      requires Valid()
      ensures ok <==> srcIP in doc.present.content
                      && exists r :: r in rules[srcIP] && port in r.ports && Permits(r.host, Normal(lower, host))
    {
      if srcIP in doc.present.content {
        MatcherIsTheRules(rules[srcIP], Normal(lower, host), port);
      }
      var _, allowed := Allows(doc.present.content, srcIP, lower, host, port);
      ok := allowed;
    }
  }
}
