/** The TCBs of os/schedule.c in memory. Rings, the sleep list and blocked lists all run through their links. */
module ThreadNodes {
  import opened RingNodes
  import opened SchedModel

  /** What add_thread sets for good. */
  datatype Info = Info(id: Tid, priority: nat)

  /** What changes; since is history, the moment the thread last joined a waiting list. */
  datatype Vars = Vars(state: ThreadState, resumeTick: nat, since: nat)

  ghost function Ids(c: seq<Node<Info, Vars>>): (ids: seq<Tid>)
    ensures |ids| == |c| && forall i :: 0 <= i < |c| ==> ids[i] == c[i].info.id
  {
    if c == [] then [] else [c[0].info.id] + Ids(c[1..])
  }
}
