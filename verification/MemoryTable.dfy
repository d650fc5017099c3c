/** The in-process routing table. */
module MemoryTable {
  import opened Common
  import opened Routing

  /** Deltas move the counter but never below zero. */
  function Adjusted(n: nat, delta: int): nat {
    if n + delta < 0 then 0 else n + delta
  }

  function Count(inflight: map<string, nat>, name: string): nat {
    if name in inflight then inflight[name] else 0
  }

  lemma ListStarts(pods: Pods, subject: string)
    ensures var wanted := Matching(pods, subject); wanted - {} == wanted && Lists([], wanted - pods.Keys)
  {
    assert Matching(pods, subject) - pods.Keys == map[];
  }

  /** Looking at one more key, whether it matches or not. */
  lemma ListStep(out: seq<Pod>, pods: Pods, subject: string, todo: set<PodKey>, k: PodKey)
    requires Keyed(pods) && k in todo && k in pods && Lists(out, Matching(pods, subject) - todo)
    ensures Lists(if subject == "" || k.subject == subject then out + [pods[k]] else out,
                  Matching(pods, subject) - (todo - {k}))
  {
    if subject == "" || k.subject == subject {
      WalkStep(out, Matching(pods, subject), todo, k);
    } else {
      assert Matching(pods, subject) - (todo - {k}) == Matching(pods, subject) - todo;
    }
  }

  class Memory {
    var pods: Pods
    var sessions: Sessions
    var active: map<string, Time>
    var inflight: map<string, nat>

    ghost predicate Valid()
      reads this
    {
      Keyed(pods)
    }

    constructor ()
      ensures Valid()
      ensures pods == map[] && sessions == map[] && active == map[] && inflight == map[]
    {
      pods, sessions, active, inflight := map[], map[], map[], map[];
    }

    method GetPod(key: PodKey) returns (r: Option<Pod>)
      ensures r == if key in pods then Some(pods[key]) else None
    {
      r := if key in pods then Some(pods[key]) else None;
    }

    method PutPod(p: Pod)
      requires Valid()
      modifies this`pods
      ensures Valid() && pods == old(pods)[p.key := p]
    {
      pods := pods[p.key := p];
    }

    /** Forgets the pod and, if it was known, its activity. */
    method DeletePod(key: PodKey)
      requires Valid()
      modifies this`pods, this`active, this`inflight
      ensures Valid() && pods == old(pods) - {key}
      ensures key in old(pods) ==> active == old(active) - {old(pods)[key].name}
      ensures key in old(pods) ==> inflight == old(inflight) - {old(pods)[key].name}
      ensures key !in old(pods) ==> active == old(active) && inflight == old(inflight)
    {
      if key in pods {
        active := active - {pods[key].name};
        inflight := inflight - {pods[key].name};
      }
      pods := pods - {key};
    }

    method ListPods(subject: string) returns (out: seq<Pod>)
      requires Valid()
      ensures Lists(out, Matching(pods, subject))
    {
      out := [];
      var todo := pods.Keys;
      ghost var wanted := Matching(pods, subject);
      ListStarts(pods, subject);
      while todo != {}
        invariant todo <= pods.Keys && Lists(out, wanted - todo)
        decreases |todo|
      {
        var k :| k in todo;
        ListStep(out, pods, subject, todo, k);
        if subject == "" || k.subject == subject {
          out := out + [pods[k]];
        }
        todo := todo - {k};
      }
    }

    method CountPods(subject: string, serverType: string) returns (c: Counts)
      requires Valid()
      ensures c == CountsOf(pods, subject, serverType)
    {
      var all := ListPods("");
      assert Matching(pods, "") == pods;
      c := CountListed(all, pods, subject, serverType);
    }

    method GetSession(id: string) returns (r: Option<McpSession>)
      ensures r == if id in sessions then Some(sessions[id]) else None
    {
      r := if id in sessions then Some(sessions[id]) else None;
    }

    method PutSession(s: McpSession)
      modifies this`sessions
      ensures sessions == old(sessions)[s.id := s]
    {
      sessions := sessions[s.id := s];
    }

    method DeleteSession(id: string)
      modifies this`sessions
      ensures sessions == old(sessions) - {id}
    {
      sessions := sessions - {id};
    }

    method DeleteSessionsForPod(podName: string)
      modifies this`sessions
      ensures sessions == Apart(old(sessions), {podName})
    {
      var todo := sessions.Keys;
      while todo != {}
        invariant todo <= old(sessions).Keys
        invariant sessions == map id | id in old(sessions) && (id in todo || old(sessions)[id].podName != podName)
                                :: old(sessions)[id]
        decreases |todo|
      {
        var id :| id in todo;
        if sessions[id].podName == podName {
          sessions := sessions - {id};
        }
        todo := todo - {id};
      }
    }

    method Touch(podName: string, at: Time)
      modifies this`active
      ensures active == old(active)[podName := at]
    {
      active := active[podName := at];
    }

    method LastActive(podName: string) returns (r: Option<Time>)
      ensures r == if podName in active then Some(active[podName]) else None
    {
      r := if podName in active then Some(active[podName]) else None;
    }

    method InFlight(podName: string, delta: int) returns (n: nat)
      modifies this`inflight
      ensures n == Adjusted(Count(old(inflight), podName), delta)
      ensures inflight == old(inflight)[podName := n]
    {
      n := Adjusted(Count(inflight, podName), delta);
      inflight := inflight[podName := n];
    }
  }
}
