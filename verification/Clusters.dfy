/** The two clusters a migration acts on, seen through external calls that may fail. */
module Clusters {
  import opened MirrorText
  import opened Wrappers

  datatype VmStatus = Active | Shutoff | Errored | OtherStatus

  /** What `get_vm` answers about the virtual machine. */
  datatype VmDetails = VmDetails(status: VmStatus, ips: seq<string>, floatingIps: seq<string>, volumeIds: seq<string>)

  datatype Phase =
    | Pending | Preflight | Disk | Memory | Cutover | Bgp | Cleanup | Done | Failed | Aborted

  datatype Event = Event(phase: Phase, pct: real)

  datatype Volume = Volume(image: string, sizeGb: nat)

  /** The agent a gRPC stub talks to; calling through a missing stub always raises. */
  datatype Client = NoClient | ToSource | ToDest

  /** The libvirt job counters one monitor poll reads. */
  datatype JobInfo = NoJob | Job(total: nat, processed: nat)

  /** External calls; `Announce` and `Withdraw` act on the destination's own speaker. */
  datatype Verb =
    | Enter(event: Event) | MarkFailed
    | GetVm | StopServer | GetServer | DeleteVm | GetVolume | CreateVolume(sizeGb: nat)
    | ImageInfo | MirrorStatus | Demote | PromoteRemote | PromoteLocal | ForcePromote
    | Announce | Withdraw | RemoteAnnounce(client: Client) | RemoteWithdraw(client: Client)
    | Migrate | AbortJob

  datatype Reply = Accepted | Refused | Raised

  datatype Attempt = Attempt(verb: Verb, arg: string, reply: Reply)

  /** Everything outside the engine. `trace` lists every call made so far; a call's index in it is its tick. */
  datatype World = World(
    trace: seq<Attempt>,
    src: set<string>,          // images primary on the source
    dst: set<string>,          // images primary on the destination
    srcRoutes: set<string>,    // prefixes the source speaker announces
    dstRoutes: set<string>,    // prefixes the destination speaker announces
    row: Option<Event>,        // state and progress of the migration's database row, if there is one
    events: seq<Event>,        // committed migration events
    volumes: seq<Volume>)      // volumes registered at the destination

  /** The answers the outside gives, by tick where they vary, and the deployment's settings. */
  datatype Env = Env(
    raises: nat -> bool,
    refuses: nat -> bool,
    description: (nat, string) -> string,   // what `rbd mirror image status` prints about an image
    behind: (nat, string) -> nat,            // how many journal entries its mirror really is behind
    mirrored: (nat, string) -> bool,
    status: nat -> VmStatus,
    sizeGb: string -> nat,
    vm: VmDetails,
    samples: seq<JobInfo>,
    sourceClient: bool,
    destClient: bool,
    defaultLag: int,           // mirror_lag_threshold_bytes
    maxLag: int)               // migration_max_lag_bytes

  function SourceClient(e: Env): Client {
    if e.sourceClient then ToSource else NoClient
  }

  function DestClient(e: Env): Client {
    if e.destClient then ToDest else NoClient
  }

  predicate Remote(verb: Verb) {
    verb.PromoteRemote? || verb.RemoteAnnounce? || verb.RemoteWithdraw?
  }

  predicate Stubless(verb: Verb) {
    (verb.RemoteAnnounce? || verb.RemoteWithdraw?) && verb.client.NoClient?
  }

  /** Only a servicer can turn its failure into a reply; every other failure raises. */
  function ReplyTo(e: Env, tick: nat, verb: Verb): Reply {
    if e.raises(tick) || Stubless(verb) then Raised
    else if Remote(verb) && e.refuses(tick) then Refused
    else Accepted
  }

  function Effect(w: World, verb: Verb, arg: string): World {
    match verb
    case Enter(event) =>
      w.(row := if w.row.Some? then Some(event) else None, events := w.events + [event])
    case MarkFailed =>
      w.(row := if w.row.Some? then Some(Event(Failed, w.row.value.pct)) else None)
    case CreateVolume(sizeGb) => w.(volumes := w.volumes + [Volume(arg, sizeGb)])
    case Demote => w.(src := w.src - {arg})
    case PromoteRemote => w.(dst := w.dst + {arg})
    case PromoteLocal => w.(src := w.src + {arg})
    case ForcePromote => w.(src := w.src + {arg})
    case Announce => w.(dstRoutes := w.dstRoutes + {arg})
    case Withdraw => w.(dstRoutes := w.dstRoutes - {arg})
    case RemoteAnnounce(client) =>
      if client.ToSource? then w.(srcRoutes := w.srcRoutes + {arg})
      else w.(dstRoutes := w.dstRoutes + {arg})
    case RemoteWithdraw(client) =>
      if client.ToSource? then w.(srcRoutes := w.srcRoutes - {arg})
      else w.(dstRoutes := w.dstRoutes - {arg})
    case _ => w
  }

  /** The world after one call: an effect only if the call was accepted, a trace entry always. */
  function After(e: Env, w: World, verb: Verb, arg: string): World {
    var reply := ReplyTo(e, |w.trace|, verb);
    var done := if reply.Accepted? then Effect(w, verb, arg) else w;
    done.(trace := w.trace + [Attempt(verb, arg, reply)])
  }

  /** The lag the client reads off the description; nothing else of the status is looked at. */
  function Reading(e: Env, tick: nat, image: string): int {
    LagBytes(e.description(tick, image))
  }

  /** `max_lag_bytes or default`: both a missing and a zero limit mean the default. */
  function Limit(e: Env, maxLag: Option<int>): int {
    if maxLag.Some? && maxLag.value != 0 then maxLag.value else e.defaultLag
  }

  /** How often a loop that sleeps `interval` while less than `timeout` has elapsed polls: the rounded-up quotient. */
  function Polls(timeout: nat, interval: nat): nat
    requires interval > 0
  {
    (timeout + interval - 1) / interval
  }

  datatype Polled = Polled(w: World, ok: bool)

  /** Up to `polls` lag readings, stopping at the first within `limit`; an error or running out is a failure. */
  function PollSync(e: Env, image: string, limit: int, polls: nat, w: World): Polled
    decreases polls
  {
    if polls == 0 then Polled(w, false)
    else
      var w' := After(e, w, MirrorStatus, image);
      if ReplyTo(e, |w.trace|, MirrorStatus).Raised? then Polled(w', false)
      else if Reading(e, |w.trace|, image) <= limit then Polled(w', true)
      else PollSync(e, image, limit, polls - 1, w')
  }

  /** Up to `polls` status readings, stopping at the target or at the error status. */
  function PollVm(e: Env, id: string, target: VmStatus, polls: nat, w: World): Polled
    decreases polls
  {
    if polls == 0 then Polled(w, false)
    else
      var w' := After(e, w, GetServer, id);
      if ReplyTo(e, |w.trace|, GetServer).Raised? then Polled(w', false)
      else if e.status(|w.trace|) == target then Polled(w', true)
      else if e.status(|w.trace|).Errored? then Polled(w', false)
      else PollVm(e, id, target, polls - 1, w')
  }
}
