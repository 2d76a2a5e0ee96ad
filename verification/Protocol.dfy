/**
 The language both migration engines speak: a run is a sequence of commands, executed in order until
 one of them raises or asks to stop; the failure path then marks the row and unwinds the rollbacks.
 */
module Protocol {
  import opened Clusters
  import opened Text
  import opened Wrappers

  /** A rollback handler. `ReclaimDisks` reads the image list when it runs, as the original does. */
  datatype Handler = ReclaimDisks | ReverseRoutes(prefixes: seq<string>) | AbortTunnel

  /** The engine's own fields; `ran` lists the handlers invoked so far. */
  datatype Ctx = Ctx(
    phase: Phase, pct: real, images: seq<string>, stack: seq<Handler>, ran: seq<Handler>, aborted: bool)

  datatype State = State(w: World, c: Ctx)

  datatype Cmd =
    | Do(verb: Verb, arg: string)      // an exception propagates
    | Try(verb: Verb, arg: string)     // an exception is swallowed
    | Move(event: Event)               // a state transition
    | Observe(event: Event)            // a transition made by the progress monitor, which swallows exceptions
    | Check(image: string)             // preflight_check, raising unless it answers ok
    | Sync(image: string, limit: Option<int>, timeout: nat)
    | AwaitVm(id: string, target: VmStatus)
    | Copy(image: string)              // register one image at the destination
    | Collect                          // read the image names off the VM
    | Register(handler: Handler)
    | Guard(holds: bool)               // raise unless it holds
    | CheckAbort
    | Interrupt                        // `abort` called by somebody else at this point

  datatype Result = Ran(s: State) | Threw(s: State) | Quit(s: State)

  const SYNC_INTERVAL: nat := 5
  const VM_TIMEOUT: nat := 120
  const VM_INTERVAL: nat := 3
  const DEFAULT_SIZE: nat := 10

  function ImageOf(volume: string): string { VOLUME + volume }

  function ImagesOf(volumes: seq<string>): seq<string> {
    seq(|volumes|, i requires 0 <= i < |volumes| => ImageOf(volumes[i]))
  }

  function Invoke(e: Env, s: State, verb: Verb, arg: string): State {
    s.(w := After(e, s.w, verb, arg))
  }

  predicate Raises(e: Env, s: State, verb: Verb) {
    ReplyTo(e, |s.w.trace|, verb).Raised?
  }

  function Settle(e: Env, s: State, verb: Verb, arg: string): Result {
    if Raises(e, s, verb) then Threw(Invoke(e, s, verb, arg)) else Ran(Invoke(e, s, verb, arg))
  }

  function Entering(s: State, event: Event): State {
    s.(c := s.c.(phase := event.phase, pct := event.pct))
  }

  /** The first volume whose id occurs in the image name. */
  function MatchVolume(volumes: seq<string>, image: string): Option<string> {
    if volumes == [] then None
    else if Contains(image, volumes[0]) then Some(volumes[0])
    else MatchVolume(volumes[1..], image)
  }

  function CopyImage(e: Env, s: State, image: string): Result {
    match MatchVolume(e.vm.volumeIds, image)
    case None => Settle(e, s, CreateVolume(DEFAULT_SIZE), image)
    case Some(id) =>
      var sizeGb := if Raises(e, s, GetVolume) then DEFAULT_SIZE else e.sizeGb(id);
      Settle(e, Invoke(e, s, GetVolume, id), CreateVolume(sizeGb), image)
  }

  function CheckImage(e: Env, s: State, image: string): Result {
    var s1 := Invoke(e, s, ImageInfo, image);
    if Raises(e, s, ImageInfo) || !e.mirrored(|s.w.trace|, image) then Threw(s1)
    else
      var s2 := Invoke(e, s1, MirrorStatus, image);
      if Raises(e, s1, MirrorStatus) || Reading(e, |s1.w.trace|, image) > Limit(e, Some(e.maxLag)) then Threw(s2)
      else Ran(s2)
  }

  function Judge(s: State, p: Polled): Result {
    if p.ok then Ran(s.(w := p.w)) else Threw(s.(w := p.w))
  }

  /** Force-promotes each image at the source; a failure does not stop the loop. */
  function Reclaim(e: Env, images: seq<string>, w: World): World
    decreases |images|
  {
    if images == [] then w else Reclaim(e, images[1..], After(e, w, ForcePromote, images[0]))
  }

  /** Withdraws each prefix here and announces it through `client`; a failing withdraw ends the loop. */
  function ReverseAll(e: Env, prefixes: seq<string>, client: Client, w: World): Polled
    decreases |prefixes|
  {
    if prefixes == [] then Polled(w, true)
    else
      var w1 := After(e, w, Withdraw, prefixes[0]);
      if ReplyTo(e, |w.trace|, Withdraw).Raised? then Polled(w1, false)
      else ReverseAll(e, prefixes[1..], client, After(e, w1, RemoteAnnounce(client), prefixes[0]))
  }

  function RunHandler(e: Env, h: Handler, s: State): State {
    var w := match h {
      case ReclaimDisks => Reclaim(e, s.c.images, s.w)
      case ReverseRoutes(prefixes) => ReverseAll(e, prefixes, DestClient(e), s.w).w
      case AbortTunnel => After(e, s.w, AbortJob, "")
    };
    State(w, s.c.(ran := s.c.ran + [h]))
  }

  /** `_run_rollbacks` over a stack: last registered, first run. */
  function Unwind(e: Env, stack: seq<Handler>, s: State): State
    decreases |stack|
  {
    if stack == [] then s
    else Unwind(e, stack[..|stack| - 1], RunHandler(e, stack[|stack| - 1], s))
  }

  datatype Outcome = Finished(ok: bool, s: State) | Escaped(s: State)

  /** The failure path: if the row cannot be marked, the exception escapes and nothing is rolled back. */
  function Fail(e: Env, s: State): Outcome {
    var s1 := Invoke(e, s, MarkFailed, "");
    if Raises(e, s, MarkFailed) then Escaped(s1) else Finished(false, Unwind(e, s1.c.stack, s1))
  }

  /** `abort`, run to its end; its own failure goes to whoever called it. */
  function Abort(e: Env, s: State): State {
    Fail(e, s.(c := s.c.(aborted := true))).s
  }

  function Step(e: Env, c: Cmd, s: State): Result {
    match c
    case Do(verb, arg) => Settle(e, s, verb, arg)
    case Try(verb, arg) => Ran(Invoke(e, s, verb, arg))
    case Move(event) => Settle(e, Entering(s, event), Enter(event), "")
    case Observe(event) => Ran(Invoke(e, Entering(s, event), Enter(event), ""))
    case Check(image) => CheckImage(e, s, image)
    case Sync(image, limit, timeout) =>
      Judge(s, PollSync(e, image, Limit(e, limit), Polls(timeout, SYNC_INTERVAL), s.w))
    case AwaitVm(id, target) => Judge(s, PollVm(e, id, target, Polls(VM_TIMEOUT, VM_INTERVAL), s.w))
    case Copy(image) => CopyImage(e, s, image)
    case Collect => Ran(s.(c := s.c.(images := s.c.images + ImagesOf(e.vm.volumeIds))))
    case Register(handler) => Ran(s.(c := s.c.(stack := s.c.stack + [handler])))
    case Guard(holds) => if holds then Ran(s) else Threw(s)
    case CheckAbort => if s.c.aborted then Quit(s) else Ran(s)
    case Interrupt => Ran(Abort(e, s))
  }

  function Exec(e: Env, p: seq<Cmd>, s: State): Result
    decreases |p|
  {
    if p == [] then Ran(s)
    else
      var r := Step(e, p[0], s);
      if r.Ran? then Exec(e, p[1..], r.s) else r
  }

  function Run(e: Env, p: seq<Cmd>, s: State): Outcome {
    var r := Exec(e, p, s);
    if r.Ran? then Finished(true, r.s) else if r.Quit? then Finished(false, r.s) else Fail(e, r.s)
  }

  // ---------- composing and splitting executions ----------

  lemma {:induction false} ExecConcat(e: Env, p: seq<Cmd>, q: seq<Cmd>, s: State)
    ensures Exec(e, p + q, s) == var r := Exec(e, p, s); if r.Ran? then Exec(e, q, r.s) else r
    decreases |p|
  {
    if p == [] {
      assert p + q == q;
    } else {
      assert (p + q)[1..] == p[1..] + q;
      var r := Step(e, p[0], s);
      if r.Ran? {
        ExecConcat(e, p[1..], q, r.s);
      }
    }
  }

  lemma ExecOne(e: Env, c: Cmd, s: State)
    ensures Exec(e, [c], s) == Step(e, c, s)
  {
    assert [c][1..] == [];
  }

  lemma ExecThree(e: Env, p: seq<Cmd>, s: State)
    requires |p| == 3
    ensures Exec(e, p, s) ==
            var a := Step(e, p[0], s);
            if !a.Ran? then a else
            var b := Step(e, p[1], a.s);
            if !b.Ran? then b else Step(e, p[2], b.s)
  {
    assert p[1..][1..][1..] == [];
    var a := Step(e, p[0], s);
    if a.Ran? {
      var b := Step(e, p[1], a.s);
      assert Exec(e, p[1..], a.s) == if b.Ran? then Exec(e, p[1..][1..], b.s) else b;
    }
  }

  /** The first `k` commands have all completed. */
  predicate Reaches(e: Env, p: seq<Cmd>, s: State, k: nat) {
    k <= |p| && Exec(e, p[..k], s).Ran?
  }

  /** The state in which command `k` starts. */
  function At(e: Env, p: seq<Cmd>, s: State, k: nat): State
    requires k <= |p|
  {
    Exec(e, p[..k], s).s
  }

  /** Command `k` is the one that ends the run early. */
  predicate StopsAt(e: Env, p: seq<Cmd>, s: State, k: nat) {
    k < |p| && Reaches(e, p, s, k) && !Step(e, p[k], At(e, p, s, k)).Ran?
  }

  lemma ReachNext(e: Env, p: seq<Cmd>, s: State, k: nat)
    requires k < |p| && Reaches(e, p, s, k)
    ensures Exec(e, p[..k + 1], s) == Step(e, p[k], At(e, p, s, k))
  {
    assert p[..k + 1] == p[..k] + [p[k]];
    ExecConcat(e, p[..k], [p[k]], s);
    var s1 := At(e, p, s, k);
    var r := Step(e, p[k], s1);
    assert [p[k]][1..] == [];
    assert Exec(e, [p[k]], s1) == r;
  }

  /** Reaching a command means every earlier one was reached and completed. */
  lemma ReachPrevious(e: Env, p: seq<Cmd>, s: State, j: nat, k: nat)
    requires j < k && Reaches(e, p, s, k)
    ensures Reaches(e, p, s, j)
    ensures Step(e, p[j], At(e, p, s, j)) == Ran(At(e, p, s, j + 1))
    ensures Reaches(e, p, s, j + 1)
  {
    assert p[..k] == p[..j] + p[j..k];
    ExecConcat(e, p[..j], p[j..k], s);
    assert p[..k] == p[..j + 1] + p[j + 1..k];
    ExecConcat(e, p[..j + 1], p[j + 1..k], s);
    ReachNext(e, p, s, j);
  }

  /** A run that does not complete has one command where it ends. */
  lemma {:induction false} StopExists(e: Env, p: seq<Cmd>, s: State, m: nat) returns (k: nat)
    requires m <= |p| && !Exec(e, p[..m], s).Ran?
    ensures k < m && StopsAt(e, p, s, k) && Exec(e, p[..m], s) == Step(e, p[k], At(e, p, s, k))
  {
    var n := m - 1;
    assert p[..m] == p[..n] + [p[n]];
    ExecConcat(e, p[..n], [p[n]], s);
    if Reaches(e, p, s, n) {
      ReachNext(e, p, s, n);
      k := n;
    } else {
      k := StopExists(e, p, s, n);
    }
  }

  lemma StopResult(e: Env, p: seq<Cmd>, s: State, k: nat)
    requires StopsAt(e, p, s, k)
    ensures Exec(e, p, s) == Step(e, p[k], At(e, p, s, k))
  {
    assert p == p[..k + 1] + p[k + 1..];
    ReachNext(e, p, s, k);
    ExecConcat(e, p[..k + 1], p[k + 1..], s);
  }
}
