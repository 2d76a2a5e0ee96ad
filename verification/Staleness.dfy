/** How far behind the mirror can be when an image stops being writable at the source. */
module Staleness {
  import opened Clusters
  import opened Protocol
  import opened Traces
  import opened Discipline
  import opened Deletion
  import opened Primaries
  import opened MirrorText
  import opened Wrappers

  /** At this tick the engine saw that the source VM no longer writes. */
  predicate StoppedAt(e: Env, j: Job, trace: seq<Attempt>, t: nat) {
    t < |trace| && !trace[t].reply.Raised? &&
    if j.live then trace[t].verb.Migrate?
    else (trace[t].verb.GetServer? && e.status(t).Shutoff?) || (trace[t].verb.GetVm? && e.vm.status.Shutoff?)
  }

  /** What the mirror of an image really lacks at a tick, at the client's rate of bytes per entry. */
  function Unsynced(e: Env, tick: nat, image: string): int {
    BYTES_PER_ENTRY * e.behind(tick, image)
  }

  /** From this tick on no mirror falls further behind. */
  ghost predicate Quiet(e: Env, from: nat) {
    forall t: nat, t': nat, image | from <= t <= t' :: e.behind(t', image) <= e.behind(t, image)
  }

  /** No reading falls short of what the mirror lacks. */
  ghost predicate NeverUnderstated(e: Env) {
    forall t, image :: Unsynced(e, t, image) <= Reading(e, t, image)
  }

  /** Every description tells the true count of entries behind. */
  ghost predicate Truthful(e: Env) {
    forall t, image :: Tells(e.description(t, image), e.behind(t, image))
  }

  /** Descriptions that tell the true count are read without loss. */
  lemma TruthfulSuffices(e: Env)
    requires Truthful(e)
    ensures NeverUnderstated(e) && forall t, image :: Reading(e, t, image) == Unsynced(e, t, image)
  {
    forall t, image
      ensures Reading(e, t, image) == Unsynced(e, t, image)
    {
      TellsLag(e.description(t, image), e.behind(t, image));
    }
  }

  /** A successful wait read a lag within its limit. */
  lemma {:induction false} SyncSample(e: Env, image: string, limit: int, polls: nat, w: World) returns (t: nat)
    requires PollSync(e, image, limit, polls, w).ok
    ensures |w.trace| <= t < |PollSync(e, image, limit, polls, w).w.trace| && Reading(e, t, image) <= limit
    decreases polls
  {
    var w1 := After(e, w, MirrorStatus, image);
    if Reading(e, |w.trace|, image) <= limit {
      t := |w.trace|;
    } else {
      t := SyncSample(e, image, limit, polls - 1, w1);
    }
  }

  /** A successful wait for the VM read the status it waited for. */
  lemma {:induction false} VmSample(e: Env, id: string, target: VmStatus, polls: nat, w: World) returns (t: nat)
    requires PollVm(e, id, target, polls, w).ok
    ensures var w1 := PollVm(e, id, target, polls, w).w;
      |w.trace| <= t < |w1.trace| && w1.trace[t] == Attempt(GetServer, id, Accepted) && e.status(t) == target
    decreases polls
  {
    var w1 := After(e, w, GetServer, id);
    if e.status(|w.trace|) == target {
      t := |w.trace|;
    } else {
      t := VmSample(e, id, target, polls - 1, w1);
    }
  }

  lemma SyncedSample(e: Env, p: seq<Cmd>, s: State, image: string, k: nat) returns (i: nat, t: nat)
    requires Reaches(e, p, s, k) && Awaited(e, p[..k], image)
    ensures i < k && p[i].Sync? && Reaches(e, p, s, i)
    ensures |At(e, p, s, i).w.trace| <= t < |At(e, p, s, k).w.trace| && Reading(e, t, image) <= e.defaultLag
  {
    i := SyncIndex(e, p, k, image);
    ReachPrevious(e, p, s, i, k);
    ReachedExtends(e, p, s, i + 1, k);
    hide Reading, Awaited, Limit, Polls, PollSync, Extends;
    t := SyncSample(e, image, e.defaultLag, Polls(p[i].timeout, SYNC_INTERVAL), At(e, p, s, i).w);
  }

  lemma SyncIndex(e: Env, p: seq<Cmd>, k: nat, image: string) returns (i: nat)
    requires k <= |p| && Awaited(e, p[..k], image)
    ensures i < k && p[i].Sync? && p[i].image == image && Limit(e, p[i].limit) == e.defaultLag
  {
    i :| 0 <= i < k && p[i].Sync? && p[i].image == image && Limit(e, p[i].limit) == e.defaultLag;
  }

  /** The tick at which a quiesced run saw the VM stop. */
  lemma StopSample(e: Env, j: Job, p: seq<Cmd>, s: State, k: nat) returns (t: nat)
    requires Reaches(e, p, s, k) && Quiesced(e, j, p[..k])
    ensures |s.w.trace| <= t < |At(e, p, s, k).w.trace| && StoppedAt(e, j, At(e, p, s, k).w.trace, t)
  {
    if j.live {
      var i :| 0 <= i < k && p[i] == Do(Migrate, "");
      t := CallSample(e, p, s, i, k);
    } else if AwaitVm(j.vmId, Shutoff) in p[..k] {
      var i :| 0 <= i < k && p[i] == AwaitVm(j.vmId, Shutoff);
      t := AwaitSample(e, p, s, i, k);
    } else {
      var i :| 0 <= i < k && p[i] == Do(GetVm, j.vmId);
      t := CallSample(e, p, s, i, k);
    }
  }

  lemma CallSample(e: Env, p: seq<Cmd>, s: State, i: nat, k: nat) returns (t: nat)
    requires Reaches(e, p, s, k) && i < k && p[i].Do?
    ensures var trace := At(e, p, s, k).w.trace;
      |s.w.trace| <= t < |trace| && trace[t].verb == p[i].verb && !trace[t].reply.Raised?
  {
    CompletedCall(e, p, s, i, k);
    var trace := At(e, p, s, k).w.trace;
    t :| |s.w.trace| <= t < |trace| && trace[t].verb == p[i].verb && trace[t].arg == p[i].arg &&
      !trace[t].reply.Raised?;
  }

  lemma AwaitSample(e: Env, p: seq<Cmd>, s: State, i: nat, k: nat) returns (t: nat)
    requires Reaches(e, p, s, k) && i < k && p[i].AwaitVm?
    ensures var trace := At(e, p, s, k).w.trace;
      |s.w.trace| <= t < |trace| && trace[t] == Attempt(GetServer, p[i].id, Accepted) && e.status(t) == p[i].target
  {
    ReachPrevious(e, p, s, i, k);
    ReachedExtends(e, p, s, 0, i);
    assert p[..0] == [];
    t := AwaitSampleFrom(e, p, s, i, k);
  }

  lemma AwaitSampleFrom(e: Env, p: seq<Cmd>, s: State, i: nat, k: nat) returns (t: nat)
    requires Reaches(e, p, s, k) && i < k && p[i].AwaitVm?
    ensures var trace := At(e, p, s, k).w.trace;
      |At(e, p, s, i).w.trace| <= t < |trace| && trace[t] == Attempt(GetServer, p[i].id, Accepted) &&
      e.status(t) == p[i].target
  {
    ReachPrevious(e, p, s, i, k);
    ReachedExtends(e, p, s, i + 1, k);
    t := VmSample(e, p[i].id, p[i].target, Polls(VM_TIMEOUT, VM_INTERVAL), At(e, p, s, i).w);
    assert At(e, p, s, k).w.trace[t] == At(e, p, s, i + 1).w.trace[t];
  }

  predicate Stops(verb: Verb) {
    verb.Migrate? || verb.GetServer? || verb.GetVm?
  }

  lemma LocateDemote(e: Env, j: Job, p: seq<Cmd>, s: State, t: nat) returns (k: nat)
    requires Follows(e, j, p)
    requires |s.w.trace| <= t < |Run(e, p, s).s.w.trace| && Run(e, p, s).s.w.trace[t].verb.Demote?
    ensures k < |p| && Reaches(e, p, s, k) && p[k] == Do(Demote, Run(e, p, s).s.w.trace[t].arg)
    ensures |At(e, p, s, k).w.trace| == t && At(e, p, s, k).w.trace <= Run(e, p, s).s.w.trace
    ensures AllowedCmd(e, j, p[..k], p[k])
  {
    k := LocateForward(e, p, s, t);
    var s1 := At(e, p, s, k);
    assert AllowedCmd(e, j, p[..k], p[k]);
    AfterExtends(e, s1.w, p[k].verb, p[k].arg);
    assert Step(e, p[k], s1).s.w.trace[t] == Attempt(p[k].verb, p[k].arg, ReplyTo(e, t, p[k].verb));
  }

  lemma NoSyncBefore(p: seq<Cmd>, k: nat)
    requires k <= |p| && NoSync(p[..k])
    ensures forall i | 0 <= i < k :: !p[i].Sync?
  {
    forall i | 0 <= i < k
      ensures !p[i].Sync?
    {
      assert p[i] in p[..k];
    }
  }

  /** Whatever shows that the VM stopped comes before every wait. */
  lemma StopBeforeSync(e: Env, j: Job, p: seq<Cmd>, s: State, i: nat, t: nat)
    requires Follows(e, j, p) && i < |p| && p[i].Sync? && Reaches(e, p, s, i)
    requires |s.w.trace| <= t < |Run(e, p, s).s.w.trace| && Stops(Run(e, p, s).s.w.trace[t].verb)
    ensures t < |At(e, p, s, i).w.trace|
  {
    var q := LocateForward(e, p, s, t);
    assert AllowedCmd(e, j, p[..q], p[q]);
    assert NoSync(p[..q]);
    hide Follows, AllowedCmd, NoSync;
    NoSyncBefore(p, q);
    assert q < i;
    hide Run, Extends;
    ReachPrevious(e, p, s, q, i);
    ReachedExtends(e, p, s, q + 1, i);
  }

  /**
   Every demote comes after the engine saw the source VM stop. If from then on no mirror falls further behind, and
   readings never understate, what the image's mirror lacks at its demote is at most the default threshold, also
   where zero was asked for.
   */
  lemma BoundedStaleness(e: Env, j: Job, p: seq<Cmd>, s: State, t: nat)
    requires Follows(e, j, p)
    requires |s.w.trace| <= t < |Run(e, p, s).s.w.trace| && Run(e, p, s).s.w.trace[t].verb.Demote?
    ensures var trace := Run(e, p, s).s.w.trace;
      (exists q | |s.w.trace| <= q < t :: StoppedAt(e, j, trace, q)) &&
      forall q | |s.w.trace| <= q && StoppedAt(e, j, trace, q) && Quiet(e, q) && NeverUnderstated(e) ::
        Unsynced(e, t, trace[t].arg) <= e.defaultLag
  {
    var trace := Run(e, p, s).s.w.trace;
    var k := LocateDemote(e, j, p, s, t);
    var stop := StopSample(e, j, p, s, k);
    assert StoppedAt(e, j, trace, stop);
    var i, sample := SyncedSample(e, p, s, p[k].arg, k);
    forall q | |s.w.trace| <= q && StoppedAt(e, j, trace, q) && Quiet(e, q) && NeverUnderstated(e)
      ensures Unsynced(e, t, trace[t].arg) <= e.defaultLag
    {
      StopBeforeSync(e, j, p, s, i, q);
      assert q <= sample <= t;
      assert Unsynced(e, sample, p[k].arg) <= Reading(e, sample, p[k].arg);
    }
  }

  // ---------- telling the VM to stop ----------

  /** The VM was told to stop at tick `q`, and seen shut off at the later tick `r`. */
  predicate StoppedOnRequest(e: Env, j: Job, trace: seq<Attempt>, from: nat, until: nat) {
    exists q, r | from <= q < r < until && r < |trace| ::
      trace[q] == Attempt(StopServer, j.vmId, Accepted) &&
      trace[r] == Attempt(GetServer, j.vmId, Accepted) && e.status(r).Shutoff?
  }

  /** A completed wait for SHUTOFF comes after an accepted request. */
  lemma AwaitedStop(e: Env, j: Job, p: seq<Cmd>, s: State, i: nat, k: nat)
    requires Follows(e, j, p) && Reaches(e, p, s, k) && i < k && p[i].AwaitVm?
    ensures var trace := At(e, p, s, k).w.trace; StoppedOnRequest(e, j, trace, |s.w.trace|, |trace|)
  {
    NoFailedGuard(e, p, s, k);
    assert p[..i] <= p[..k];
    assert AllowedCmd(e, j, p[..i], p[i]);
    ReachPrevious(e, p, s, i, k);
    var h :| 0 <= h < i && p[h] == Do(StopServer, j.vmId);
    hide Follows, AllowedCmd;
    CompletedCall(e, p, s, h, i);
    ReachedExtends(e, p, s, i, k);
    var q := RequestTick(e, j, At(e, p, s, i).w.trace, |s.w.trace|);
    var r := AwaitSampleFrom(e, p, s, i, k);
    var trace := At(e, p, s, k).w.trace;
    assert trace[q] == At(e, p, s, i).w.trace[q];
  }

  lemma RequestTick(e: Env, j: Job, trace: seq<Attempt>, from: nat) returns (q: nat)
    requires Succeeded(trace, from, |trace|, StopServer, j.vmId)
    ensures from <= q < |trace| && trace[q] == Attempt(StopServer, j.vmId, Accepted)
  {
    q :| from <= q < |trace| && trace[q] == Attempt(StopServer, j.vmId, Accepted);
  }

  /** An ACTIVE VM of a cold run is told to stop and then seen shut off before any image is demoted. */
  lemma StoppedBeforeDemote(e: Env, j: Job, p: seq<Cmd>, s: State, t: nat)
    requires Follows(e, j, p) && !j.live && e.vm.status.Active?
    requires |s.w.trace| <= t < |Run(e, p, s).s.w.trace| && Run(e, p, s).s.w.trace[t].verb.Demote?
    ensures StoppedOnRequest(e, j, Run(e, p, s).s.w.trace, |s.w.trace|, t)
  {
    var k := LocateDemote(e, j, p, s, t);
    var i :| 0 <= i < k && p[i] == AwaitVm(j.vmId, Shutoff);
    hide Follows, Run;
    AwaitedStop(e, j, p, s, i, k);
    StoppedStays(e, j, At(e, p, s, k).w.trace, Run(e, p, s).s.w.trace, |s.w.trace|);
  }

  lemma StoppedStays(e: Env, j: Job, short: seq<Attempt>, trace: seq<Attempt>, from: nat)
    requires short <= trace && StoppedOnRequest(e, j, short, from, |short|)
    ensures StoppedOnRequest(e, j, trace, from, |short|)
  {
    var q, r :| from <= q < r < |short| && short[q] == Attempt(StopServer, j.vmId, Accepted) &&
      short[r] == Attempt(GetServer, j.vmId, Accepted) && e.status(r).Shutoff?;
    assert trace[q] == short[q] && trace[r] == short[r];
  }

  /** The VM's status is polled only after it was told to stop, and nobody but a cold run of an ACTIVE VM tells it. */
  lemma StopRequested(e: Env, j: Job, p: seq<Cmd>, s: State, t: nat)
    requires Follows(e, j, p) && |s.w.trace| <= t < |Run(e, p, s).s.w.trace|
    ensures var trace := Run(e, p, s).s.w.trace;
      trace[t].verb.GetServer? ==> Succeeded(trace, |s.w.trace|, t, StopServer, j.vmId)
    ensures var a := Run(e, p, s).s.w.trace[t];
      a.verb.StopServer? ==> !j.live && e.vm.status.Active? && a.arg == j.vmId
  {
    var trace := Run(e, p, s).s.w.trace;
    if trace[t].verb.GetServer? || trace[t].verb.StopServer? {
      var k := LocateForward(e, p, s, t);
      assert AllowedCmd(e, j, p[..k], p[k]);
      hide Follows, Run;
      if trace[t].verb.GetServer? {
        var h :| 0 <= h < k && p[h] == Do(StopServer, j.vmId);
        CompletedCall(e, p, s, h, k);
        var q := RequestTick(e, j, At(e, p, s, k).w.trace, |s.w.trace|);
        StepGrows(e, p[k], At(e, p, s, k));
        assert At(e, p, s, k).w.trace <= trace;
        assert trace[q] == At(e, p, s, k).w.trace[q];
      } else {
        AfterExtends(e, At(e, p, s, k).w, p[k].verb, p[k].arg);
        assert Step(e, p[k], At(e, p, s, k)).s.w.trace[t].arg == p[k].arg;
      }
    }
  }

  /** The image was found mirrored, and a reading of its lag stayed within the preflight limit, at these two ticks. */
  predicate PassedPreflight(e: Env, trace: seq<Attempt>, from: nat, until: nat, image: string) {
    exists t | from <= t < until - 1 && t + 1 < |trace| ::
      trace[t] == Attempt(ImageInfo, image, Accepted) && e.mirrored(t, image) &&
      trace[t + 1].verb.MirrorStatus? && Reading(e, t + 1, image) <= Limit(e, Some(e.maxLag))
  }

  /** No image is demoted that has not passed its preflight check earlier in the run. */
  lemma DemotedPassedPreflight(e: Env, j: Job, p: seq<Cmd>, s: State, t: nat)
    requires Follows(e, j, p)
    requires |s.w.trace| <= t < |Run(e, p, s).s.w.trace| && Run(e, p, s).s.w.trace[t].verb.Demote?
    ensures var trace := Run(e, p, s).s.w.trace;
      PassedPreflight(e, trace, |s.w.trace|, t, trace[t].arg)
  {
    var trace := Run(e, p, s).s.w.trace;
    var k := LocateDemote(e, j, p, s, t);
    var image := trace[t].arg;
    var i :| 0 <= i < k && p[i] == Check(image);
    CheckedBefore(e, p, s, i, k);
    assert At(e, p, s, k).w.trace <= trace;
    hide Run, At;
    assert PassedPreflight(e, At(e, p, s, k).w.trace, |s.w.trace|, t, image);
  }

  lemma CheckedBefore(e: Env, p: seq<Cmd>, s: State, i: nat, k: nat)
    requires Reaches(e, p, s, k) && i < k && p[i].Check?
    ensures var trace := At(e, p, s, k).w.trace;
      PassedPreflight(e, trace, |s.w.trace|, |trace|, p[i].image)
  {
    ReachPrevious(e, p, s, i, k);
    ReachedExtends(e, p, s, 0, i);
    assert p[..0] == [];
    ReachedExtends(e, p, s, i + 1, k);
    CheckPassed(e, p[i].image, At(e, p, s, i));
    var trace, from := At(e, p, s, k).w.trace, |At(e, p, s, i).w.trace|;
    assert At(e, p, s, i + 1).w.trace <= trace;
    assert trace[from] == At(e, p, s, i + 1).w.trace[from];
  }

  lemma CheckPassed(e: Env, image: string, s: State)
    requires CheckImage(e, s, image).Ran?
    ensures var trace := CheckImage(e, s, image).s.w.trace;
      var t := |s.w.trace|;
      |trace| == t + 2 && trace[t] == Attempt(ImageInfo, image, Accepted) && e.mirrored(t, image) &&
      trace[t + 1].verb.MirrorStatus? && Reading(e, t + 1, image) <= Limit(e, Some(e.maxLag))
  {
  }

  /** What the demotes made from tick `from` on leave unsynced, in all. */
  function UnsyncedBytes(e: Env, trace: seq<Attempt>, from: nat): int
    decreases |trace| - from
  {
    if from >= |trace| then 0
    else
      (if trace[from].verb.Demote? then Unsynced(e, from, trace[from].arg) else 0) + UnsyncedBytes(e, trace, from + 1)
  }

  function DemoteCalls(trace: seq<Attempt>, from: nat): nat
    decreases |trace| - from
  {
    if from >= |trace| then 0
    else (if trace[from].verb.Demote? then 1 else 0) + DemoteCalls(trace, from + 1)
  }

  function DemoteCmds(p: seq<Cmd>): nat {
    if p == [] then 0
    else DemoteCmds(p[..|p| - 1]) + if p[|p| - 1].Do? && p[|p| - 1].verb.Demote? then 1 else 0
  }

  lemma {:induction false} DemoteCmdsConcat(p: seq<Cmd>, q: seq<Cmd>)
    ensures DemoteCmds(p + q) == DemoteCmds(p) + DemoteCmds(q)
    decreases |q|
  {
    if q == [] {
      assert p + q == p;
    } else {
      assert (p + q)[..|p + q| - 1] == p + q[..|q| - 1];
      DemoteCmdsConcat(p, q[..|q| - 1]);
    }
  }

  lemma {:induction false} DemoteCmdsStrip(p: seq<Cmd>)
    ensures DemoteCmds(p) == DemoteCmds(Strip(p))
  {
    if p != [] {
      DemoteCmdsStrip(p[..|p| - 1]);
      DemoteCmdsConcat(Strip(p[..|p| - 1]), [p[|p| - 1]]);
      assert [p[|p| - 1]][..0] == [];
    }
  }

  lemma {:induction false} DemoteCallsSplit(short: seq<Attempt>, trace: seq<Attempt>, from: nat)
    requires short <= trace && from <= |short|
    ensures DemoteCalls(trace, from) == DemoteCalls(short, from) + DemoteCalls(trace, |short|)
    decreases |short| - from
  {
    if from < |short| {
      DemoteCallsSplit(short, trace, from + 1);
    }
  }

  lemma {:induction false} NoDemoteCalls(trace: seq<Attempt>, from: nat)
    requires forall t | from <= t < |trace| :: !trace[t].verb.Demote?
    ensures DemoteCalls(trace, from) == 0
    decreases |trace| - from
  {
    if from < |trace| {
      NoDemoteCalls(trace, from + 1);
    }
  }

  lemma StepDemotes(e: Env, c: Cmd, s: State)
    requires !(c.Try? && c.verb.Demote?)
    ensures DemoteCalls(Step(e, c, s).s.w.trace, |s.w.trace|) <= if c.Do? && c.verb.Demote? then 1 else 0
  {
    var w1 := Step(e, c, s).s.w;
    if c.Do? && c.verb.Demote? {
      AfterExtends(e, s.w, c.verb, c.arg);
      NoDemoteCalls(w1.trace, |s.w.trace| + 1);
    } else {
      StepGrows(e, c, s);
      NewHolds(e, s.w, w1, verb => Issues(c, verb));
      NoDemoteCalls(w1.trace, |s.w.trace|);
    }
  }

  /** The engine makes no more demote calls than its sequence has demote commands. */
  lemma {:induction false} DemotesCounted(e: Env, p: seq<Cmd>, s: State, k: nat)
    requires k <= |p| && forall c | c in p :: !(c.Try? && c.verb.Demote?)
    ensures DemoteCalls(Exec(e, p[..k], s).s.w.trace, |s.w.trace|) <= DemoteCmds(p[..k])
    decreases k
  {
    if k > 0 {
      var n := k - 1;
      assert p[..k][..n] == p[..n];
      assert p[..k] == p[..n] + [p[n]];
      DemotesCounted(e, p, s, n);
      ExecConcat(e, p[..n], [p[n]], s);
      if Reaches(e, p, s, n) {
        var s1 := At(e, p, s, n);
        ReachNext(e, p, s, n);
        ExecExtends(e, p[..n], s);
        StepGrows(e, p[n], s1);
        StepDemotes(e, p[n], s1);
        DemoteCallsSplit(s1.w.trace, Step(e, p[n], s1).s.w.trace, |s.w.trace|);
      }
    } else {
      assert p[..0] == [];
    }
  }

  lemma RunDemotesCounted(e: Env, p: seq<Cmd>, s: State)
    requires forall c | c in p :: !(c.Try? && c.verb.Demote?)
    ensures DemoteCalls(Run(e, p, s).s.w.trace, |s.w.trace|) <= DemoteCmds(p)
  {
    var x := Exec(e, p, s);
    var r := Run(e, p, s);
    assert p[..|p|] == p;
    DemotesCounted(e, p, s, |p|);
    if x.Threw? {
      FailGrows(e, x.s);
      NewHolds(e, x.s.w, r.s.w, RollbackVerb);
      ExecExtends(e, p, s);
      NoDemoteCalls(r.s.w.trace, |x.s.w.trace|);
      DemoteCallsSplit(x.s.w.trace, r.s.w.trace, |s.w.trace|);
    }
  }

  /** In all, the demotes of a run leave at most the default threshold unsynced per demote command. */
  lemma TotalStaleness(e: Env, j: Job, p: seq<Cmd>, s: State, q: nat)
    requires Follows(e, j, p) && e.defaultLag >= 0
    requires forall c | c in p :: !(c.Try? && c.verb.Demote?)
    requires |s.w.trace| <= q && StoppedAt(e, j, Run(e, p, s).s.w.trace, q) && Quiet(e, q) && NeverUnderstated(e)
    ensures UnsyncedBytes(e, Run(e, p, s).s.w.trace, |s.w.trace|) <= DemoteCmds(p) * e.defaultLag
  {
    var trace := Run(e, p, s).s.w.trace;
    forall t | |s.w.trace| <= t < |trace| && trace[t].verb.Demote?
      ensures Unsynced(e, t, trace[t].arg) <= e.defaultLag
    {
      BoundedStaleness(e, j, p, s, t);
    }
    RunDemotesCounted(e, p, s);
    hide Run, Quiet, StoppedAt;
    SumBound(e, trace, |s.w.trace|);
    Times(DemoteCalls(trace, |s.w.trace|), DemoteCmds(p), e.defaultLag);
  }

  lemma {:induction false} SumBound(e: Env, trace: seq<Attempt>, from: nat)
    requires forall t | from <= t < |trace| && trace[t].verb.Demote? :: Unsynced(e, t, trace[t].arg) <= e.defaultLag
    ensures UnsyncedBytes(e, trace, from) <= DemoteCalls(trace, from) * e.defaultLag
    decreases |trace| - from
  {
    if from < |trace| {
      SumBound(e, trace, from + 1);
    }
  }

  /** A steady lag without errors is waited out exactly within the limit given, or the default one for none or zero. */
  lemma LimitMeans(e: Env, s: State, image: string, limit: Option<int>, timeout: nat, lag: int)
    requires timeout > 0 && forall t :: !e.raises(t) && Reading(e, t, image) == lag
    ensures limit == None || limit == Some(0) ==>
      (Step(e, Sync(image, limit, timeout), s).Ran? <==> lag <= e.defaultLag)
    ensures forall n: int | limit == Some(n) && n != 0 :: Step(e, Sync(image, limit, timeout), s).Ran? <==> lag <= n
  {
    PollsIsPositive(timeout, SYNC_INTERVAL);
    SteadySync(e, image, Limit(e, limit), Polls(timeout, SYNC_INTERVAL), s.w, lag);
  }

  lemma PollsIsPositive(timeout: nat, interval: nat)
    requires timeout > 0 && interval > 0
    ensures Polls(timeout, interval) > 0
  {
    var x := timeout + interval - 1;
    assert x == Polls(timeout, interval) * interval + x % interval;
  }

  /** An image passes its preflight check exactly if it is found mirrored and then read within the preflight limit. */
  lemma CheckPassesIff(e: Env, s: State, image: string)
    ensures var t := |s.w.trace|;
      Step(e, Check(image), s).Ran? <==>
        !e.raises(t) && e.mirrored(t, image) && !e.raises(t + 1) &&
        Reading(e, t + 1, image) <= if e.maxLag == 0 then e.defaultLag else e.maxLag
  {
    hide Reading;
  }

  /**
   The live cut-over asks for zero lag, but zero counts as no limit: with a steady lag and no errors the
   wait succeeds exactly when the lag is within the default threshold.
   */
  lemma ZeroLimitMeansDefault(e: Env, s: State, image: string, lag: int)
    requires forall t :: !e.raises(t) && Reading(e, t, image) == lag
    ensures Step(e, Sync(image, Some(0), 60), s).Ran? <==> lag <= e.defaultLag
  {
    SteadySync(e, image, e.defaultLag, Polls(60, SYNC_INTERVAL), s.w, lag);
  }

  lemma {:induction false} SteadySync(e: Env, image: string, limit: int, polls: nat, w: World, lag: int)
    requires forall t :: !e.raises(t) && Reading(e, t, image) == lag
    ensures PollSync(e, image, limit, polls, w).ok <==> polls > 0 && lag <= limit
    decreases polls
  {
    hide Reading;
    if polls > 0 && lag > limit {
      SteadySync(e, image, limit, polls - 1, After(e, w, MirrorStatus, image), lag);
    }
  }
}
