/**
 The order both engines keep among the commands that can do damage. It is stated once, as what may
 follow what; the safety results are proved for every command sequence that keeps it, with `abort`
 called any number of times anywhere, and the engines' own sequences are shown to keep it.
 */
module Discipline {
  import opened Clusters
  import opened Protocol

  /** What the caller hands to an engine. */
  datatype Job = Job(live: bool, vmId: string, preset: seq<string>, destHost: string)

  function Images(e: Env, j: Job): seq<string> {
    j.preset + ImagesOf(e.vm.volumeIds)
  }

  function PrefixesOf(ips: seq<string>): seq<string> {
    seq(|ips|, i requires 0 <= i < |ips| => ips[i] + "/32")
  }

  /** Floating addresses if there are any, otherwise the fixed ones. */
  function Prefixes(e: Env): seq<string> {
    PrefixesOf(if e.vm.floatingIps != [] then e.vm.floatingIps else e.vm.ips)
  }

  /** Without a stub for the destination the promote lands on the local cluster. */
  function Promote(e: Env): Verb {
    if e.destClient then PromoteRemote else PromoteLocal
  }

  const RECLAIM := Register(ReclaimDisks)

  predicate AllDone(before: seq<Cmd>, verb: Verb, args: seq<string>) {
    forall i | 0 <= i < |args| :: Do(verb, args[i]) in before
  }

  predicate NoSync(before: seq<Cmd>) {
    forall c | c in before :: !c.Sync?
  }

  predicate NoDelete(before: seq<Cmd>) {
    forall c | c in before :: !(c.Try? && c.verb.DeleteVm?)
  }

  predicate CleaningUp(before: seq<Cmd>) {
    exists c | c in before :: c.Move? && c.event.phase.Cleanup?
  }

  /** The image has been waited for, with a limit that means the default one. */
  predicate Awaited(e: Env, before: seq<Cmd>, image: string) {
    exists c | c in before :: c.Sync? && c.image == image && Limit(e, c.limit) == e.defaultLag
  }

  /** The source VM has stopped writing: shut off (cold) or moved away (live). */
  predicate Quiesced(e: Env, j: Job, before: seq<Cmd>) {
    if j.live then Do(Migrate, "") in before
    else AwaitVm(j.vmId, Shutoff) in before || (e.vm.status.Shutoff? && Do(GetVm, j.vmId) in before)
  }

  predicate AllowedCall(e: Env, j: Job, before: seq<Cmd>, verb: Verb, arg: string) {
    match verb
    case Demote =>
      arg in Images(e, j) && Collect in before && Check(arg) in before &&
      RECLAIM !in before && Awaited(e, before, arg) && Quiesced(e, j, before)
    case PromoteRemote => e.destClient && arg in Images(e, j) && RECLAIM in before
    case PromoteLocal => !e.destClient && arg in Images(e, j) && RECLAIM in before
    case GetVm => NoSync(before)
    case Migrate =>
      NoSync(before) && Register(AbortTunnel) in before && Do(Migrate, "") !in before && arg == "" &&
      j.live && j.destHost != "" && e.vm.status.Active?
    case StopServer => !j.live && e.vm.status.Active? && arg == j.vmId
    case MirrorStatus => true
    case Announce => arg in Prefixes(e)
    case _ => false
  }

  /** May `c` be issued once the commands `before` have completed? A failed guard never completes. */
  predicate Allowed(e: Env, j: Job, before: seq<Cmd>, c: Cmd) {
    Guard(false) in before || AllowedCmd(e, j, before, c)
  }

  predicate AllowedCmd(e: Env, j: Job, before: seq<Cmd>, c: Cmd) {
    match c
    case Do(verb, arg) => AllowedCall(e, j, before, verb, arg)
    case Try(verb, arg) =>
      (verb == RemoteWithdraw(SourceClient(e)) && arg in Prefixes(e)) ||
      (verb.DeleteVm? && arg == j.vmId && NoDelete(before) && RECLAIM in before && CleaningUp(before) &&
       AllDone(before, Promote(e), Images(e, j)) && AllDone(before, Announce, Prefixes(e)))
    case AwaitVm(id, target) =>
      NoSync(before) && target.Shutoff? && id == j.vmId && !j.live && Do(StopServer, j.vmId) in before
    case Register(handler) =>
      handler.ReclaimDisks? ==> RECLAIM !in before && Collect in before && AllDone(before, Demote, Images(e, j))
    case Collect => Collect !in before
    case _ => true
  }

  predicate Follows(e: Env, j: Job, p: seq<Cmd>) {
    forall k | 0 <= k < |p| :: Allowed(e, j, p[..k], p[k])
  }

  /** `q` keeps the discipline when it continues after `before`. */
  predicate Continues(e: Env, j: Job, before: seq<Cmd>, q: seq<Cmd>) {
    forall k | 0 <= k < |q| :: Allowed(e, j, before + q[..k], q[k])
  }

  lemma ContinuesConcat(e: Env, j: Job, before: seq<Cmd>, q: seq<Cmd>, r: seq<Cmd>)
    requires Continues(e, j, before, q) && Continues(e, j, before + q, r)
    ensures Continues(e, j, before, q + r)
  {
    forall k | 0 <= k < |q + r|
      ensures Allowed(e, j, before + (q + r)[..k], (q + r)[k])
    {
      if k < |q| {
        assert (q + r)[..k] == q[..k];
      } else {
        assert before + (q + r)[..k] == before + q + r[..k - |q|];
      }
    }
  }

  lemma FollowsConcat(e: Env, j: Job, p: seq<Cmd>, q: seq<Cmd>)
    requires Follows(e, j, p) && Continues(e, j, p, q)
    ensures Follows(e, j, p + q)
  {
    forall k | 0 <= k < |p + q|
      ensures Allowed(e, j, (p + q)[..k], (p + q)[k])
    {
      if k < |p| {
        assert (p + q)[..k] == p[..k];
      } else {
        assert (p + q)[..k] == p + q[..k - |p|];
      }
    }
  }

  // ---------- calls to `abort` woven into a run ----------

  /** The engine's own commands, without the aborts that arrived in between. */
  function Strip(p: seq<Cmd>): seq<Cmd> {
    if p == [] then []
    else if p[|p| - 1].Interrupt? then Strip(p[..|p| - 1])
    else Strip(p[..|p| - 1]) + [p[|p| - 1]]
  }

  lemma {:induction false} StripMembers(p: seq<Cmd>)
    ensures forall c :: c in Strip(p) <==> c in p && !c.Interrupt?
  {
    if p != [] {
      var q := p[..|p| - 1];
      StripMembers(q);
      assert p == q + [p[|p| - 1]];
    }
  }

  lemma {:induction false} StripConcat(p: seq<Cmd>, q: seq<Cmd>)
    ensures Strip(p + q) == Strip(p) + Strip(q)
    decreases |q|
  {
    if q == [] {
      assert p + q == p;
    } else {
      assert (p + q)[..|p + q| - 1] == p + q[..|q| - 1];
      StripConcat(p, q[..|q| - 1]);
    }
  }

  lemma {:induction false} StripNone(p: seq<Cmd>)
    requires Interrupt !in p
    ensures Strip(p) == p
  {
    if p != [] {
      StripNone(p[..|p| - 1]);
    }
  }

  /** Where a command of the engine sits in its own sequence. */
  lemma {:induction false} StripPrefix(p: seq<Cmd>, k: nat)
    requires k <= |p|
    ensures Strip(p[..k]) <= Strip(p)
    ensures k < |p| && !p[k].Interrupt? ==>
      |Strip(p[..k])| < |Strip(p)| && Strip(p)[|Strip(p[..k])|] == p[k]
    decreases |p| - k
  {
    if k == |p| {
      assert p[..k] == p;
    } else {
      assert p[..k + 1][..k] == p[..k];
      StripPrefix(p, k + 1);
    }
  }

  lemma AllowedStrip(e: Env, j: Job, before: seq<Cmd>, c: Cmd)
    requires Allowed(e, j, Strip(before), c)
    ensures Allowed(e, j, before, c)
  {
    StripMembers(before);
    if Guard(false) !in before && c.Do? && c.verb.Demote? {
      var sync :| sync in Strip(before) && sync.Sync? && sync.image == c.arg && Limit(e, sync.limit) == e.defaultLag;
      assert sync in before;
    }
    if Guard(false) !in before && c.Try? && c.verb.DeleteVm? {
      var move :| move in Strip(before) && move.Move? && move.event.phase.Cleanup?;
      assert move in before;
    }
  }

  /** Aborts do not disturb the order the engine keeps. */
  lemma {:induction false} WovenFollows(e: Env, j: Job, p: seq<Cmd>)
    requires Follows(e, j, Strip(p))
    ensures Follows(e, j, p)
  {
    if p != [] {
      var n := |p| - 1;
      var q := p[..n];
      var base := Strip(p);
      var inner := Strip(q);
      assert base == inner || base == inner + [p[n]];
      assert Follows(e, j, inner) by {
        forall k | 0 <= k < |inner|
          ensures Allowed(e, j, inner[..k], inner[k])
        {
          assert base[..k] == inner[..k] && base[k] == inner[k];
        }
      }
      WovenFollows(e, j, q);
      forall k | 0 <= k < |p|
        ensures Allowed(e, j, p[..k], p[k])
      {
        if k < n {
          assert p[..k] == q[..k] && p[k] == q[k];
        } else if !p[n].Interrupt? {
          assert base[|inner|] == p[n] && base[..|inner|] == inner;
          AllowedStrip(e, j, q, p[n]);
        }
      }
    }
  }
}
