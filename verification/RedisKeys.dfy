/** How the routing table names its records in Redis, and why no two records share a name. */
module RedisKeys {
  import opened Routing

  datatype Key =
    | PodRecordKey(serverType: string, hash: string)
    | TokenKey(pod: string)
    | ActiveKey(pod: string)
    | InFlightKey(pod: string)
    | UserKey(subject: string)
    | AllKey
    | SessionKey(id: string)
    | PodSessionsKey(pod: string)

  /** The arguments of the key builder. */
  function Parts(k: Key): seq<string> {
    match k
    case PodRecordKey(t, h) => ["pod", t, h]
    case TokenKey(pod) => ["podtok", pod]
    case ActiveKey(pod) => ["active", pod]
    case InFlightKey(pod) => ["inflight", pod]
    case UserKey(subject) => ["pods:by-user", subject]
    case AllKey => ["pods:all"]
    case SessionKey(id) => ["sess", id]
    case PodSessionsKey(pod) => ["sess:by-pod", pod]
  }

  /** The parts with colons between them. */
  function Joined(parts: seq<string>): string {
    if parts == [] then ""
    else if |parts| == 1 then parts[0]
    else Joined(parts[..|parts| - 1]) + ":" + parts[|parts| - 1]
  }

  /** The key builder. */
  method Build(prefix: string, parts: seq<string>) returns (key: string)
    ensures key == prefix + Joined(parts)
  {
    key := prefix;
    for i := 0 to |parts|
      invariant key == prefix + Joined(parts[..i])
    {
      assert parts[..i + 1][..i] == parts[..i];
      if i > 0 {
        key := key + ":";
      }
      key := key + parts[i];
    }
    assert parts[..|parts|] == parts;
  }

  const BY_POD := "by-pod:"

  /** The hash part has its fixed length. */
  predicate WellFormed(k: Key) {
    k.PodRecordKey? ==> |k.hash| == HASH_LENGTH
  }

  /** A session id that makes its record look like a pod's index of sessions. */
  predicate Imitates(a: Key, b: Key) {
    a.SessionKey? && b.PodSessionsKey? && a.id == BY_POD + b.pod
  }

  function Text(k: Key): string {
    Joined(Parts(k))
  }

  lemma JoinedTwo(a: string, b: string)
    ensures Joined([a, b]) == a + ":" + b
  {
    assert [a, b][..1] == [a];
  }

  lemma JoinedThree(a: string, b: string, c: string)
    ensures Joined([a, b, c]) == a + ":" + b + ":" + c
  {
    assert [a, b, c][..2] == [a, b];
    JoinedTwo(a, b);
  }

  lemma TextOf(k: Key)
    ensures Text(k) ==
            match k
            case PodRecordKey(t, h) => "pod:" + t + ":" + h
            case TokenKey(pod) => "podtok:" + pod
            case ActiveKey(pod) => "active:" + pod
            case InFlightKey(pod) => "inflight:" + pod
            case UserKey(subject) => "pods:by-user:" + subject
            case AllKey => "pods:all"
            case SessionKey(id) => "sess:" + id
            case PodSessionsKey(pod) => "sess:by-pod:" + pod
  {
    match k
    case PodRecordKey(t, h) => JoinedThree("pod", t, h); assert "pod" + ":" == "pod:";
    case TokenKey(pod) => JoinedTwo("podtok", pod); assert "podtok" + ":" == "podtok:";
    case ActiveKey(pod) => JoinedTwo("active", pod); assert "active" + ":" == "active:";
    case InFlightKey(pod) => JoinedTwo("inflight", pod); assert "inflight" + ":" == "inflight:";
    case UserKey(subject) => JoinedTwo("pods:by-user", subject); assert "pods:by-user" + ":" == "pods:by-user:";
    case AllKey =>
    case SessionKey(id) => JoinedTwo("sess", id); assert "sess" + ":" == "sess:";
    case PodSessionsKey(pod) => JoinedTwo("sess:by-pod", pod); assert "sess:by-pod" + ":" == "sess:by-pod:";
  }

  /** Sessions and indexes of sessions count as one family here. */
  function Family(k: Key): nat {
    match k
    case PodRecordKey(_, _) => 0
    case TokenKey(_) => 1
    case ActiveKey(_) => 2
    case InFlightKey(_) => 3
    case UserKey(_) => 4
    case AllKey => 5
    case SessionKey(_) => 6
    case PodSessionsKey(_) => 6
  }

  /** The family of a record can be read off a few characters of its name. */
  lemma FamilyIsReadable(k: Key)
    ensures var t := Text(k);
            |t| >= 4 && Family(k) ==
            if t[0] == 'a' then 2 else if t[0] == 'i' then 3 else if t[0] == 's' then 6
            else if t[3] == ':' then 0 else if t[3] == 't' then 1
            else if |t| > 5 && t[5] == 'b' then 4 else 5
  {
    TextOf(k);
  }

  /** What follows `sess:` in the name of a session record or of an index of sessions. */
  function AfterSess(k: Key): string
    requires Family(k) == 6
  {
    if k.SessionKey? then k.id else BY_POD + k.pod
  }

  lemma SessText(k: Key)
    requires Family(k) == 6
    ensures |Text(k)| >= 5 && Text(k)[5..] == AfterSess(k) && Text(k)[..5] == "sess:"
  {
    TextOf(k);
    assert "sess:by-pod:" == "sess:" + BY_POD;
    assert Text(k) == "sess:" + AfterSess(k);
  }

  lemma SameRest(a: Key, b: Key)
    requires WellFormed(a) && WellFormed(b) && Text(a) == Text(b) && Family(a) == Family(b) != 6
    ensures a == b
  {
    TextOf(a);
    TextOf(b);
    var t := Text(a);
    match a
    case PodRecordKey(ta, ha) =>
      var cut := |t| - HASH_LENGTH;
      assert t[cut..] == ha && t[cut..] == b.hash;
      assert t[4..cut - 1] == ta;
      assert t[4..cut - 1] == b.serverType;
    case TokenKey(pod) => assert t[7..] == pod == b.pod;
    case ActiveKey(pod) => assert t[7..] == pod == b.pod;
    case InFlightKey(pod) => assert t[9..] == pod == b.pod;
    case UserKey(subject) => assert t[13..] == subject == b.subject;
    case AllKey =>
  }

  lemma SameSess(a: Key, b: Key)
    requires Family(a) == Family(b) == 6
    ensures Text(a) == Text(b) <==> a == b || Imitates(a, b) || Imitates(b, a)
  {
    SessText(a);
    SessText(b);
    assert Text(a) == Text(a)[..5] + Text(a)[5..] && Text(b) == Text(b)[..5] + Text(b)[5..];
    if a.PodSessionsKey? && b.PodSessionsKey? {
      assert AfterSess(a)[|BY_POD|..] == a.pod && AfterSess(b)[|BY_POD|..] == b.pod;
    }
  }

  /** Two records share a name exactly if they are the same or a session id imitates an index of sessions. */
  lemma SameTextExactlyIf(a: Key, b: Key)
    requires WellFormed(a) && WellFormed(b)
    ensures Text(a) == Text(b) <==> a == b || Imitates(a, b) || Imitates(b, a)
  {
    FamilyIsReadable(a);
    FamilyIsReadable(b);
    if Family(a) == Family(b) == 6 {
      SameSess(a, b);
    } else if Text(a) == Text(b) {
      SameRest(a, b);
    }
  }

  /** The full name of a record. */
  function Render(prefix: string, k: Key): string {
    prefix + Text(k)
  }

  /** The keys of the pod operations: none of them belongs to a session. */
  predicate OfPods(k: Key) {
    WellFormed(k) && !k.SessionKey? && !k.PodSessionsKey?
  }

  lemma RenderIsInjective(prefix: string)
    ensures forall a, b :: OfPods(a) && WellFormed(b) && Render(prefix, a) == Render(prefix, b) ==> a == b
  {
    forall a, b | OfPods(a) && WellFormed(b) && Render(prefix, a) == Render(prefix, b) ensures a == b {
      assert Render(prefix, a)[|prefix|..] == Text(a);
      assert Render(prefix, b)[|prefix|..] == Text(b);
      SameTextExactlyIf(a, b);
    }
  }
}
