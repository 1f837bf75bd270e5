/** Public status snapshots and their projection (spotter-svc/src/status.rs). */
module Status {
  import opened Wrappers

  /** What the owner publishes about committed state; the collections are carried through unread. */
  datatype PublicStatus = PublicStatus(
    state: string,
    lastSync: Option<string>,
    url: string,
    matchedAsset: Option<string>,
    monitors: seq<string>,
    configured: bool,
    generation: nat)

  /** The scheduler's projection: the deadline of the next automatic attempt, with the
      configuration generation it was computed for. */
  datatype Schedule = Schedule(generation: nat, next: Option<nat>)

  datatype Response =
    | Brief(state: string, lastSync: Option<string>, next: Option<nat>, url: string)
    | Full(state: string, lastSync: Option<string>, next: Option<nat>, url: string,
           matchedAsset: Option<string>, monitors: seq<string>)

  /** Everything the owner published is carried over, except that a brief response leaves out the assets; a
      deadline is shown exactly if there is one for the configuration that the status was published under. */
  function ProjectStatus(status: PublicStatus, schedule: Schedule, full: bool): (response: Response)
    ensures response.next.Some? <==>
              status.configured && status.generation == schedule.generation && schedule.next.Some?
    ensures response.next.Some? ==> response.next == schedule.next
    ensures response.state == status.state && response.lastSync == status.lastSync && response.url == status.url
    ensures response.Full? <==> full
    ensures full ==> response.matchedAsset == status.matchedAsset && response.monitors == status.monitors
  {
    var next := if status.configured && status.generation == schedule.generation then schedule.next else None;
    if full then Full(status.state, status.lastSync, next, status.url, status.matchedAsset, status.monitors)
    else Brief(status.state, status.lastSync, next, status.url)
  }
}
