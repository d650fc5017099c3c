/** The laptop provisioner: which entries exist and what is known about them. */
module LocalBackend {
  import opened Common
  import opened Routing

  /** A started process; its readiness watcher keeps writing to it even after it was released. */
  datatype Entry = Entry(phase: Phase, endpoint: string, token: string)

  /** A readiness watcher reporting on the entry it was started for. */
  datatype Watch = Watch(entry: nat, ready: bool)

  function Watched(entries: seq<Entry>, w: Watch): (r: seq<Entry>)
    ensures |r| == |entries|
    ensures forall i :: 0 <= i < |r| ==> r[i].token == entries[i].token && r[i].endpoint == entries[i].endpoint
    ensures forall i :: 0 <= i < |r| && i != w.entry ==> r[i] == entries[i]
    ensures w.entry < |entries| ==> r[w.entry].phase == (if w.ready then Ready else Failed)
  {
    if w.entry < |entries|
    then entries[w.entry := entries[w.entry].(phase := if w.ready then Ready else Failed)]
    else entries
  }

  /** The entries after several reports, in order. */
  ghost function WatchedAll(entries: seq<Entry>, ws: seq<Watch>): (r: seq<Entry>)
    ensures |r| == |entries|
  {
    if ws == [] then entries else Watched(WatchedAll(entries, ws[..|ws| - 1]), ws[|ws| - 1])
  }

  class Backend {
    var pods: map<PodKey, nat>                // the entry that currently stands for a key
    var entries: seq<Entry>                   // every entry ever created

    ghost predicate Valid()
      reads this
    {
      forall k :: k in pods ==> pods[k] < |entries|
    }

    constructor ()
      ensures Valid() && pods == map[] && entries == []
    {
      pods, entries := map[], [];
    }

    /** Starts the pod unless it exists; `start` is the new process's endpoint, or none if it cannot start. */
    method Ensure(key: PodKey, token: string, start: Option<string>) returns (ok: bool)
      requires Valid()
      modifies this
      ensures Valid()
      ensures var running := key in old(pods) && old(entries)[old(pods)[key]].phase !in {Gone, Failed};
              && ok == (running || start.Some?)
              && (running || start.None? ==> pods == old(pods) && entries == old(entries))
              && (!running && start.Some? ==>
                    entries == old(entries) + [Entry(Starting, start.value, token)]
                    && pods == old(pods)[key := |old(entries)|])
    {
      if key in pods && entries[pods[key]].phase != Gone && entries[pods[key]].phase != Failed {
        return true;
      }
      if start.None? {
        return false;
      }
      pods := pods[key := |entries|];
      entries := entries + [Entry(Starting, start.value, token)];
      ok := true;
    }

    method Status(key: PodKey) returns (r: Option<Entry>)
      requires Valid()
      ensures r == if key in pods then Some(entries[pods[key]]) else None
    {
      r := if key in pods then Some(entries[pods[key]]) else None;
    }

    method Release(key: PodKey)
      requires Valid()
      modifies this`pods
      ensures Valid() && pods == old(pods) - {key}
    {
      pods := pods - {key};
    }

    method WatchReady(w: Watch)
      requires Valid()
      modifies this`entries
      ensures Valid() && entries == Watched(old(entries), w)
    {
      if w.entry < |entries| {
        entries := entries[w.entry := entries[w.entry].(phase := if w.ready then Ready else Failed)];
      }
    }
  }
}
