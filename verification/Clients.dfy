/** The clients the engine calls, over one mutable outside world. */
module Clients {
  import opened Clusters
  import opened Protocol
  import opened Discipline
  import opened Engines
  import opened Traces
  import opened Staleness
  import opened Compensation
  import opened Wrappers

  /** The outside: one call at a time, each of which may raise. */
  class Environment {
    const e: Env
    var w: World

    constructor (e: Env, w: World)
      ensures this.e == e && this.w == w
    {
      this.e := e;
      this.w := w;
    }

    method Call(verb: Verb, arg: string) returns (reply: Reply)
      modifies this
      ensures w == After(e, old(w), verb, arg)
      ensures reply == ReplyTo(e, |old(w).trace|, verb)
    {
      reply := ReplyTo(e, |w.trace|, verb);
      w := After(e, w, verb, arg);
    }
  }

  /** How a wait ends: its test met, out of time, or a reading that raised or (for a VM) showed the error status. */
  datatype WaitResult = Met | TimedOut | Broken

  /** `elapsed` seconds into a loop of `interval` sleeps, this many polls are left. */
  lemma PollsLeft(timeout: nat, interval: nat, elapsed: nat, done: nat)
    requires interval > 0 && elapsed == done * interval && done <= Polls(timeout, interval)
    ensures elapsed < timeout <==> done < Polls(timeout, interval)
    ensures done == Polls(timeout, interval) && timeout > 0 ==> timeout <= elapsed < timeout + interval
  {
    PollsIsCeiling(timeout, interval);
    var n := Polls(timeout, interval);
    if done < n {
      Times(done, n - 1, interval);
    } else if timeout > 0 {
      assert n * interval == (n - 1) * interval + interval;
    }
  }

  /** The poll count is the rounded-up quotient of the timeout by the interval. */
  lemma PollsIsCeiling(timeout: nat, interval: nat)
    requires interval > 0
    ensures var n := Polls(timeout, interval);
      if timeout == 0 then n == 0 else (n - 1) * interval < timeout <= n * interval
  {
    var n := Polls(timeout, interval);
    var x := timeout + interval - 1;
    assert x == n * interval + x % interval;
    assert (n - 1) * interval == n * interval - interval;
    if timeout == 0 {
      assert n * interval < 1 * interval;
    }
  }

  /** From this tick on the VM's status was read as `target`. */
  predicate Saw(e: Env, trace: seq<Attempt>, from: nat, id: string, target: VmStatus) {
    exists t | from <= t < |trace| :: trace[t] == Attempt(GetServer, id, Accepted) && e.status(t) == target
  }

  lemma SawTarget(e: Env, id: string, target: VmStatus, polls: nat, w: World)
    ensures var r := PollVm(e, id, target, polls, w);
      w.trace <= r.w.trace && (r.ok ==> Saw(e, r.w.trace, |w.trace|, id, target))
  {
    PollVmGrows(e, id, target, polls, w, (v: Verb) => v.GetServer?);
    if PollVm(e, id, target, polls, w).ok {
      var t := VmSample(e, id, target, polls, w);
    }
  }

  class CephRbdClient {
    const env: Environment

    constructor (env: Environment)
      ensures this.env == env
    {
      this.env := env;
    }

    /** The lag of an image, or nothing if the command raised. */
    method GetMirrorStatus(image: string) returns (lag: Option<int>)
      modifies env
      ensures env.w == After(env.e, old(env.w), MirrorStatus, image)
      ensures lag == if ReplyTo(env.e, |old(env.w).trace|, MirrorStatus).Raised? then None
                     else Some(Reading(env.e, |old(env.w).trace|, image))
    {
      var tick := |env.w.trace|;
      var reply := env.Call(MirrorStatus, image);
      lag := if reply.Raised? then None else Some(Reading(env.e, tick, image));
    }

    /**
     Polls until the lag is within the limit or the timeout has elapsed. Success comes after less than
     the timeout's sleep, a timeout after at least the timeout and less than one interval more.
     */
    method WaitForSync(image: string, maxLag: Option<int>, timeout: nat, interval: nat)
      returns (result: WaitResult, ghost slept: nat)
      requires interval > 0
      modifies env
      ensures PollSync(env.e, image, Limit(env.e, maxLag), Polls(timeout, interval), old(env.w)) ==
              Polled(env.w, result.Met?)
      ensures result.Met? || result.Broken? ==> slept < timeout
      ensures result.TimedOut? && timeout > 0 ==> timeout <= slept < timeout + interval
      ensures result.TimedOut? ==> |env.w.trace| == |old(env.w).trace| + Polls(timeout, interval)
    {
      hide Reading;
      var threshold := Limit(env.e, maxLag);
      var elapsed := 0;
      slept := 0;
      ghost var done := 0;
      ghost var n := Polls(timeout, interval);
      PollsLeft(timeout, interval, 0, 0);
      while elapsed < timeout
        invariant done <= n && slept == elapsed == done * interval
        invariant elapsed < timeout <==> done < n
        invariant done == n && timeout > 0 ==> timeout <= elapsed < timeout + interval
        invariant |env.w.trace| == |old(env.w).trace| + done
        invariant PollSync(env.e, image, threshold, n, old(env.w)) ==
                  PollSync(env.e, image, threshold, n - done, env.w)
        decreases n - done
      {
        var lag := GetMirrorStatus(image);
        if lag.None? {
          return Broken, slept;
        }
        if lag.value <= threshold {
          return Met, slept;
        }
        elapsed := elapsed + interval;
        slept := elapsed;
        done := done + 1;
        PollsLeft(timeout, interval, elapsed, done);
      }
      result := TimedOut;
    }

    method Demote(image: string) returns (raised: bool)
      modifies env
      ensures env.w == After(env.e, old(env.w), Verb.Demote, image)
      ensures raised <==> ReplyTo(env.e, |old(env.w).trace|, Verb.Demote).Raised?
    {
      var reply := env.Call(Verb.Demote, image);
      raised := reply.Raised?;
    }

    method Promote(image: string, force: bool) returns (raised: bool)
      modifies env
      ensures var verb := if force then ForcePromote else PromoteLocal;
        env.w == After(env.e, old(env.w), verb, image) &&
        (raised <==> ReplyTo(env.e, |old(env.w).trace|, verb).Raised?)
    {
      var reply := env.Call(if force then ForcePromote else PromoteLocal, image);
      raised := reply.Raised?;
    }

    /** Whether the image exists, is mirrored and lags no more than the limit. */
    method PreflightCheck(image: string, ghost c: Ctx) returns (ok: bool)
      modifies env
      ensures CheckImage(env.e, State(old(env.w), c), image) == if ok then Ran(State(env.w, c))
          else Threw(State(env.w, c))
    {
      var tick := |env.w.trace|;
      var info := env.Call(ImageInfo, image);
      if info.Raised? || !env.e.mirrored(tick, image) {
        return false;
      }
      var lag := GetMirrorStatus(image);
      if lag.None? {
        return false;
      }
      ok := lag.value <= Limit(env.e, Some(env.e.maxLag));
    }
  }

  class OpenStackClient {
    const env: Environment

    constructor (env: Environment)
      ensures this.env == env
    {
      this.env := env;
    }

    method GetVm(id: string) returns (vm: Option<VmDetails>)
      modifies env
      ensures env.w == After(env.e, old(env.w), Verb.GetVm, id)
      ensures vm == if ReplyTo(env.e, |old(env.w).trace|, Verb.GetVm).Raised? then None else Some(env.e.vm)
    {
      var reply := env.Call(Verb.GetVm, id);
      vm := if reply.Raised? then None else Some(env.e.vm);
    }

    /**
     Polls until the VM has the target status; an error status or an exception ends the wait at once. The sleeping
     times are bounded as those of the wait for an image.
     */
    method WaitVmStatus(id: string, target: VmStatus, timeout: nat, interval: nat)
      returns (result: WaitResult, ghost slept: nat)
      requires interval > 0
      modifies env
      ensures PollVm(env.e, id, target, Polls(timeout, interval), old(env.w)) == Polled(env.w, result.Met?)
      ensures result.Met? || result.Broken? ==> slept < timeout
      ensures result.TimedOut? && timeout > 0 ==> timeout <= slept < timeout + interval
      ensures result.TimedOut? ==> |env.w.trace| == |old(env.w).trace| + Polls(timeout, interval)
    {
      var elapsed := 0;
      slept := 0;
      ghost var done := 0;
      ghost var n := Polls(timeout, interval);
      PollsLeft(timeout, interval, 0, 0);
      while elapsed < timeout
        invariant done <= n && slept == elapsed == done * interval
        invariant elapsed < timeout <==> done < n
        invariant done == n && timeout > 0 ==> timeout <= elapsed < timeout + interval
        invariant |env.w.trace| == |old(env.w).trace| + done
        invariant PollVm(env.e, id, target, n, old(env.w)) == PollVm(env.e, id, target, n - done, env.w)
        decreases n - done
      {
        var tick := |env.w.trace|;
        var reply := env.Call(GetServer, id);
        if reply.Raised? {
          return Broken, slept;
        }
        if env.e.status(tick) == target {
          return Met, slept;
        }
        if env.e.status(tick).Errored? {
          return Broken, slept;
        }
        elapsed := elapsed + interval;
        slept := elapsed;
        done := done + 1;
        PollsLeft(timeout, interval, elapsed, done);
      }
      result := TimedOut;
    }

    method StopVm(id: string, ghost j: Job, ghost c: Ctx) returns (raised: bool)
      requires j.vmId == id
      modifies env
      ensures Exec(env.e, Engines.StopVm(j), State(old(env.w), c)) ==
              if raised then Threw(State(env.w, c)) else Ran(State(env.w, c))
      ensures var t := |old(env.w).trace|;
        t < |env.w.trace| && env.w.trace[t].verb == StopServer && env.w.trace[t].arg == id &&
        (!raised ==> !env.w.trace[t].reply.Raised? && Saw(env.e, env.w.trace, t + 1, id, Shutoff))
    {
      ghost var s0 := State(env.w, c);
      ghost var p := Engines.StopVm(j);
      assert p[..0] == [];
      var reply := env.Call(StopServer, id);
      ReachNext(env.e, p, s0, 0);
      if reply.Raised? {
        StopResult(env.e, p, s0, 0);
        return true;
      }
      ghost var w := env.w;
      var result, slept := WaitVmStatus(id, Shutoff, VM_TIMEOUT, VM_INTERVAL);
      SawTarget(env.e, id, Shutoff, Polls(VM_TIMEOUT, VM_INTERVAL), w);
      ReachNext(env.e, p, s0, 1);
      assert p[..2] == p;
      raised := !result.Met?;
    }

    method DeleteVm(id: string)
      modifies env
      ensures env.w == After(env.e, old(env.w), Verb.DeleteVm, id)
    {
      var reply := env.Call(Verb.DeleteVm, id);
    }

    method GetVolume(id: string) returns (sizeGb: Option<nat>)
      modifies env
      ensures env.w == After(env.e, old(env.w), Verb.GetVolume, id)
      ensures sizeGb == if ReplyTo(env.e, |old(env.w).trace|, Verb.GetVolume).Raised? then None
          else Some(env.e.sizeGb(id))
    {
      var reply := env.Call(Verb.GetVolume, id);
      sizeGb := if reply.Raised? then None else Some(env.e.sizeGb(id));
    }

    method CreateVolumeFromRbd(image: string, sizeGb: nat) returns (raised: bool)
      modifies env
      ensures env.w == After(env.e, old(env.w), CreateVolume(sizeGb), image)
      ensures raised <==> ReplyTo(env.e, |old(env.w).trace|, CreateVolume(sizeGb)).Raised?
    {
      var reply := env.Call(CreateVolume(sizeGb), image);
      raised := reply.Raised?;
    }
  }

  class BgpManager {
    const env: Environment

    constructor (env: Environment)
      ensures this.env == env
    {
      this.env := env;
    }

    method Handoff(prefixes: seq<string>, source: Client, ghost c: Ctx) returns (raised: bool)
      modifies env
      ensures Exec(env.e, Engines.Handoff(prefixes, source), State(old(env.w), c)) ==
              if raised then Threw(State(env.w, c)) else Ran(State(env.w, c))
    {
      ghost var s0 := State(env.w, c);
      ghost var p := Engines.Handoff(prefixes, source);
      assert p[..0] == [];
      var i := 0;
      while i < |prefixes|
        invariant 0 <= i <= |prefixes|
        invariant Exec(env.e, p[..i], s0) == Ran(State(env.w, c))
      {
        assert p[i] == Do(Announce, prefixes[i]);
        ReachNext(env.e, p, s0, i);
        var reply := env.Call(Announce, prefixes[i]);
        if reply.Raised? {
          StopResult(env.e, p, s0, i);
          return true;
        }
        i := i + 1;
      }
      i := 0;
      while i < |prefixes|
        invariant 0 <= i <= |prefixes|
        invariant Exec(env.e, p[..|prefixes| + i], s0) == Ran(State(env.w, c))
      {
        assert p[|prefixes| + i] == Try(RemoteWithdraw(source), prefixes[i]);
        ReachNext(env.e, p, s0, |prefixes| + i);
        var reply := env.Call(RemoteWithdraw(source), prefixes[i]);
        i := i + 1;
      }
      assert p[..2 * |prefixes|] == p;
      raised := false;
    }

    /** Withdraws here and announces through `source`; a failing withdraw raises and ends the loop. */
    method Rollback(prefixes: seq<string>, source: Client) returns (raised: bool)
      modifies env
      ensures ReverseAll(env.e, prefixes, source, old(env.w)) == Polled(env.w, !raised)
      ensures Reversing(New(old(env.w), env.w), prefixes, source)
    {
      hide Reversing, New, Extends;
      ReverseReverses(env.e, prefixes, source, env.w);
      var i := 0;
      while i < |prefixes|
        invariant 0 <= i <= |prefixes|
        invariant ReverseAll(env.e, prefixes, source, old(env.w)) == ReverseAll(env.e, prefixes[i..], source, env.w)
      {
        assert prefixes[i..][0] == prefixes[i] && prefixes[i..][1..] == prefixes[i + 1..];
        var withdrawn := env.Call(Withdraw, prefixes[i]);
        if withdrawn.Raised? {
          return true;
        }
        var reply := env.Call(RemoteAnnounce(source), prefixes[i]);
        i := i + 1;
      }
      raised := false;
    }
  }
}
