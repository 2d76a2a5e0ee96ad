/** The migration engines as objects: each method executes the commands its specification names. */
module Engine {
  import opened Clusters
  import opened Text
  import opened Protocol
  import opened Discipline
  import opened Engines
  import opened Primaries
  import opened Traces
  import opened Compensation
  import opened Wrappers
  import Clients

  class MigrationEngine {
    const env: Clients.Environment
    const ceph: Clients.CephRbdClient
    const os: Clients.OpenStackClient
    const bgp: Clients.BgpManager
    const job: Job
    var phase: Phase
    var pct: real
    var images: seq<string>
    var vm: Option<VmDetails>
    var ips: seq<string>
    var rollbacks: seq<Handler>
    var aborted: bool
    ghost var ran: seq<Handler>

    constructor (env: Clients.Environment, job: Job)
      ensures this.env == env && this.job == job && Valid()
      ensures View() == State(env.w, Ctx(Pending, 0.0, job.preset, [], [], false)) && Fresh(job, View())
    {
      this.env := env;
      this.job := job;
      ceph := new Clients.CephRbdClient(env);
      os := new Clients.OpenStackClient(env);
      bgp := new Clients.BgpManager(env);
      phase := Pending;
      pct := 0.0;
      images := job.preset;
      vm := None;
      ips := [];
      rollbacks := [];
      aborted := false;
      ran := [];
    }

    ghost predicate Valid()
    {
      ceph.env == env && os.env == env && bgp.env == env
    }

    ghost function View(): State
      reads this, env
    {
      State(env.w, Ctx(phase, pct, images, rollbacks, ran, aborted))
    }

    /** What a completed preflight has put into the context. */
    ghost predicate Loaded()
      reads this
    {
      images == Discipline.Images(env.e, job) && vm == Some(env.e.vm) &&
      ips == if env.e.vm.floatingIps != [] then env.e.vm.floatingIps else env.e.vm.ips
    }

    /** The outcome of a step that was to execute `p`. */
    ghost predicate Executed(p: seq<Cmd>, before: State, raised: bool)
      reads this, env
    {
      Exec(env.e, p, before) == if raised then Threw(View()) else Ran(View())
    }

    // ---------- shared by both engines ----------

    method Transition(event: Event) returns (raised: bool)
      modifies this`phase, this`pct, env
      ensures Step(env.e, Move(event), old(View())) == if raised then Threw(View()) else Ran(View())
      ensures Step(env.e, Observe(event), old(View())) == Ran(View())
    {
      phase := event.phase;
      pct := event.pct;
      var reply := env.Call(Enter(event), "");
      raised := reply.Raised?;
    }

    /** The handlers, last registered first; an exception in one does not stop the next. */
    method RunRollbacks()
      requires Valid()
      modifies this`ran, env
      ensures View() == Unwind(env.e, rollbacks, old(View()))
      ensures UndoingAll(env.e, rollbacks, images, New(old(env.w), env.w))
    {
      UnwindUndoes(env.e, rollbacks, View());
      var i := |rollbacks|;
      assert rollbacks[..i] == rollbacks;
      while i > 0
        invariant 0 <= i <= |rollbacks|
        invariant Unwind(env.e, rollbacks, old(View())) == Unwind(env.e, rollbacks[..i], View())
      {
        i := i - 1;
        assert rollbacks[..i + 1][..i] == rollbacks[..i];
        RunHandler(rollbacks[i]);
      }
    }

    method RunHandler(h: Handler)
      requires Valid()
      modifies this`ran, env
      ensures View() == Protocol.RunHandler(env.e, h, old(View()))
    {
      match h {
        case ReclaimDisks => RollbackDisk();
        case ReverseRoutes(prefixes) =>
          var raised := bgp.Rollback(prefixes, DestClient(env.e));
        case AbortTunnel =>
          var reply := env.Call(AbortJob, "");
      }
      ran := ran + [h];
    }

    /** Both engines' disk rollback: force-promote every image at the source, whatever happens to each. */
    method RollbackDisk()
      requires Valid()
      modifies env
      ensures env.w == Reclaim(env.e, images, old(env.w))
    {
      var i := 0;
      while i < |images|
        invariant 0 <= i <= |images|
        invariant Reclaim(env.e, images, old(env.w)) == Reclaim(env.e, images[i..], env.w)
      {
        assert images[i..][0] == images[i] && images[i..][1..] == images[i + 1..];
        var raised := ceph.Promote(images[i], true);
        i := i + 1;
      }
    }

    method MarkFailed() returns (raised: bool)
      modifies env
      ensures env.w == After(env.e, old(env.w), Verb.MarkFailed, "")
      ensures raised <==> ReplyTo(env.e, |old(env.w).trace|, Verb.MarkFailed).Raised?
    {
      var reply := env.Call(Verb.MarkFailed, "");
      raised := reply.Raised?;
    }

    /** Marks the row and unwinds; if the row cannot be marked the exception goes to the caller instead. */
    method FailAndUnwind() returns (escaped: bool)
      requires Valid()
      modifies this`ran, env
      ensures Fail(env.e, old(View())) == if escaped then Escaped(View()) else Finished(false, View())
      ensures FailurePath(env.e, rollbacks, images, New(old(env.w), env.w))
    {
      FailUndoes(env.e, View());
      escaped := MarkFailed();
      if !escaped {
        RunRollbacks();
      }
    }

    method Abort() returns (escaped: bool)
      requires Valid()
      modifies this`aborted, this`ran, env
      ensures Step(env.e, Interrupt, old(View())) == Ran(View())
    {
      hide FailurePath;
      aborted := true;
      escaped := FailAndUnwind();
    }

    method RegisterRollback(h: Handler)
      modifies this`rollbacks
      ensures rollbacks == old(rollbacks) + [h]
    {
      rollbacks := rollbacks + [h];
    }

    // ---------- loops over the images ----------

    method CheckAll() returns (raised: bool)
      requires Valid()
      modifies env
      ensures Executed(Checks(images), old(View()), raised)
    {
      ghost var p := Checks(images);
      assert p[..0] == [];
      var i := 0;
      while i < |images|
        invariant 0 <= i <= |images|
        invariant Exec(env.e, p[..i], old(View())) == Ran(View())
      {
        ReachNext(env.e, p, old(View()), i);
        var ok := ceph.PreflightCheck(images[i], View().c);
        if !ok {
          StopResult(env.e, p, old(View()), i);
          return true;
        }
        i := i + 1;
      }
      assert p[..i] == p;
      raised := false;
    }

    method AwaitSyncs() returns (raised: bool)
      requires Valid()
      modifies env
      ensures Executed(Syncs(images, None, 300), old(View()), raised)
    {
      ghost var p := Syncs(images, None, 300);
      assert p[..0] == [];
      var i := 0;
      while i < |images|
        invariant 0 <= i <= |images|
        invariant Exec(env.e, p[..i], old(View())) == Ran(View())
      {
        ReachNext(env.e, p, old(View()), i);
        var result, slept := ceph.WaitForSync(images[i], None, 300, SYNC_INTERVAL);
        if !result.Met? {
          StopResult(env.e, p, old(View()), i);
          return true;
        }
        i := i + 1;
      }
      assert p[..i] == p;
      raised := false;
    }

    method DemoteAll() returns (raised: bool)
      requires Valid()
      modifies env
      ensures Executed(Each(Demote, images), old(View()), raised)
    {
      ghost var p := Each(Demote, images);
      assert p[..0] == [];
      var i := 0;
      while i < |images|
        invariant 0 <= i <= |images|
        invariant Exec(env.e, p[..i], old(View())) == Ran(View())
      {
        ReachNext(env.e, p, old(View()), i);
        raised := ceph.Demote(images[i]);
        if raised {
          StopResult(env.e, p, old(View()), i);
          return;
        }
        i := i + 1;
      }
      assert p[..i] == p;
      raised := false;
    }

    /** Through the destination's agent if there is a stub for it, otherwise on the local cluster. */
    method PromoteAll() returns (raised: bool)
      requires Valid()
      modifies env
      ensures Executed(Each(Promote(env.e), images), old(View()), raised)
    {
      ghost var p := Each(Promote(env.e), images);
      assert p[..0] == [];
      var i := 0;
      while i < |images|
        invariant 0 <= i <= |images|
        invariant Exec(env.e, p[..i], old(View())) == Ran(View())
      {
        ReachNext(env.e, p, old(View()), i);
        if env.e.destClient {
          var reply := env.Call(PromoteRemote, images[i]);
          raised := reply.Raised?;
        } else {
          raised := ceph.Promote(images[i], false);
        }
        if raised {
          StopResult(env.e, p, old(View()), i);
          return;
        }
        i := i + 1;
      }
      assert p[..i] == p;
      raised := false;
    }

    /** Registers one image; a failing size lookup falls back to the default size. */
    method CopyOne(image: string) returns (raised: bool)
      requires Valid() && vm == Some(env.e.vm)
      modifies env
      ensures Step(env.e, Copy(image), old(View())) == if raised then Threw(View()) else Ran(View())
    {
      var volumes := vm.value.volumeIds;
      var sizeGb := DEFAULT_SIZE;
      var i := 0;
      while i < |volumes| && !Contains(image, volumes[i])
        invariant 0 <= i <= |volumes|
        invariant MatchVolume(volumes, image) == MatchVolume(volumes[i..], image)
      {
        assert volumes[i..][0] == volumes[i] && volumes[i..][1..] == volumes[i + 1..];
        i := i + 1;
      }
      if i < |volumes| {
        assert volumes[i..][0] == volumes[i];
        var size := os.GetVolume(volumes[i]);
        if size.Some? {
          sizeGb := size.value;
        }
      }
      raised := os.CreateVolumeFromRbd(image, sizeGb);
    }

    method CopyAll() returns (raised: bool)
      requires Valid() && vm == Some(env.e.vm)
      modifies env
      ensures Executed(Copies(images), old(View()), raised)
    {
      ghost var p := Copies(images);
      assert p[..0] == [];
      var i := 0;
      while i < |images|
        invariant 0 <= i <= |images|
        invariant Exec(env.e, p[..i], old(View())) == Ran(View())
      {
        ReachNext(env.e, p, old(View()), i);
        raised := CopyOne(images[i]);
        if raised {
          StopResult(env.e, p, old(View()), i);
          return;
        }
        i := i + 1;
      }
      assert p[..i] == p;
      raised := false;
    }

    // ---------- cold migration ----------

    method CollectImages(volumes: seq<string>)
      modifies this`images
      ensures images == old(images) + ImagesOf(volumes)
    {
      var i := 0;
      while i < |volumes|
        invariant 0 <= i <= |volumes|
        invariant images == old(images) + ImagesOf(volumes)[..i]
      {
        images := images + [ImageOf(volumes[i])];
        i := i + 1;
      }
    }

    /** Fetches the VM and collects its images and addresses; raises unless its status is acceptable. */
    method LoadVm(ghost statusOk: bool) returns (raised: bool)
      requires Valid() && images == job.preset
      requires statusOk == (env.e.vm.status.Active? || (!job.live && env.e.vm.status.Shutoff?))
      modifies this, env
      ensures Executed([Do(GetVm, job.vmId), Guard(statusOk), Collect], old(View()), raised)
      ensures !raised ==> Loaded()
    {
      ghost var p := [Do(GetVm, job.vmId), Guard(statusOk), Collect];
      ExecThree(env.e, p, View());
      hide Exec;
      vm := os.GetVm(job.vmId);
      if vm.None? {
        return true;
      }
      var status := vm.value.status;
      if !status.Active? && (job.live || !status.Shutoff?) {
        return true;
      }
      CollectImages(vm.value.volumeIds);
      ips := if vm.value.floatingIps != [] then vm.value.floatingIps else vm.value.ips;
      raised := false;
    }

    method StepPreflight(ghost statusOk: bool) returns (raised: bool)
      requires Valid() && images == job.preset
      requires statusOk == (env.e.vm.status.Active? || (!job.live && env.e.vm.status.Shutoff?))
      modifies this, env
      ensures Executed(Preflighting(env.e, job, statusOk), old(View()), raised)
      ensures !raised ==> Loaded()
    {
      ghost var a := [Move(Event(Preflight, 5.0))];
      ghost var b := [Do(GetVm, job.vmId), Guard(statusOk), Collect];
      ghost var c := Checks(Discipline.Images(env.e, job));
      assert Preflighting(env.e, job, statusOk) == a + (b + c);
      ExecConcat(env.e, a, b + c, View());
      ExecOne(env.e, a[0], View());
      raised := Transition(Event(Preflight, 5.0));
      if raised {
        return;
      }
      ExecConcat(env.e, b, c, View());
      raised := LoadVm(statusOk);
      if !raised {
        raised := CheckAll();
      }
    }

    method ColdQuiesceVm() returns (raised: bool)
      requires Valid() && Loaded()
      modifies this`phase, this`pct, env
      ensures Executed(ColdQuiesce(env.e, job), old(View()), raised)
    {
      ghost var a := [Move(Event(Disk, 20.0))];
      ghost var b := if env.e.vm.status.Active? then StopVm(job) else [];
      ExecConcat(env.e, a, b, View());
      ExecOne(env.e, a[0], View());
      raised := Transition(Event(Disk, 20.0));
      if !raised && vm.value.status.Active? {
        raised := os.StopVm(job.vmId, job, View().c);
      }
    }

    /** Promotes the images; the rollback of their demotion is registered first. */
    method RegisterAndPromote() returns (raised: bool)
      requires Valid()
      modifies this`rollbacks, env
      ensures Executed([RECLAIM] + Each(Promote(env.e), images), old(View()), raised)
    {
      ExecConcat(env.e, [RECLAIM], Each(Promote(env.e), images), View());
      ExecOne(env.e, RECLAIM, View());
      RegisterRollback(ReclaimDisks);
      raised := PromoteAll();
    }

    method ColdStepDisk() returns (raised: bool)
      requires Valid() && Loaded()
      modifies this`phase, this`pct, this`rollbacks, env
      ensures Executed(ColdDisk(env.e, job), old(View()), raised)
    {
      ghost var a := ColdQuiesce(env.e, job);
      ghost var b := Syncs(images, None, 300);
      ghost var c := Each(Demote, images);
      ghost var d := [RECLAIM] + Each(Promote(env.e), images);
      ghost var g := [Move(Event(Disk, 50.0))];
      ColdDiskNested(env.e, job);
      ExecConcat(env.e, a, b + (c + (d + g)), View());
      raised := ColdQuiesceVm();
      if raised {
        return;
      }
      ExecConcat(env.e, b, c + (d + g), View());
      raised := AwaitSyncs();
      if raised {
        return;
      }
      ExecConcat(env.e, c, d + g, View());
      raised := DemoteAll();
      if raised {
        return;
      }
      ExecConcat(env.e, d, g, View());
      raised := RegisterAndPromote();
      if raised {
        return;
      }
      ExecOne(env.e, g[0], View());
      raised := Transition(Event(Disk, 50.0));
    }

    lemma ColdDiskNested(e: Env, j: Job)
      ensures var xs := Discipline.Images(e, j);
        ColdDisk(e, j) == ColdQuiesce(e, j) + (Syncs(xs, None, 300) + (Each(Demote, xs) +
          (([RECLAIM] + Each(Promote(e), xs)) + [Move(Event(Disk, 50.0))])))
    {
    }

    method ColdStepCutover() returns (raised: bool)
      requires Valid() && Loaded()
      modifies this`phase, this`pct, env
      ensures Executed(ColdCutover(env.e, job), old(View()), raised)
    {
      ghost var a := [Move(Event(Cutover, 70.0))];
      ExecConcat(env.e, a, Copies(images), View());
      ExecOne(env.e, a[0], View());
      raised := Transition(Event(Cutover, 70.0));
      if !raised {
        raised := CopyAll();
      }
    }

    method PrefixList() returns (prefixes: seq<string>)
      requires Loaded()
      ensures prefixes == Prefixes(env.e)
    {
      prefixes := PrefixesOf(ips);
    }

    method ColdStepBgp() returns (raised: bool)
      requires Valid() && Loaded()
      modifies this`phase, this`pct, this`rollbacks, env
      ensures Executed(ColdBgp(env.e), old(View()), raised)
    {
      ghost var a := [Move(Event(Bgp, 85.0))];
      var prefixes := PrefixList();
      ExecConcat(env.e, a, if ips == [] then [] else HandoffAndRegister(prefixes), View());
      ExecOne(env.e, a[0], View());
      hide HandoffAndRegister;
      raised := Transition(Event(Bgp, 85.0));
      if !raised && ips != [] {
        raised := HandOffRoutes(prefixes);
      }
    }

    ghost function HandoffAndRegister(prefixes: seq<string>): seq<Cmd> {
      Handoff(prefixes, SourceClient(env.e)) + [Register(ReverseRoutes(prefixes))]
    }

    /** The hand-off, and the registration of its rollback if it returns. */
    method HandOffRoutes(prefixes: seq<string>) returns (raised: bool)
      requires Valid()
      modifies this`rollbacks, env
      ensures Executed(HandoffAndRegister(prefixes), old(View()), raised)
    {
      ghost var b := Handoff(prefixes, SourceClient(env.e));
      ghost var c := [Register(ReverseRoutes(prefixes))];
      ExecConcat(env.e, b, c, View());
      hide Handoff, Exec;
      raised := bgp.Handoff(prefixes, SourceClient(env.e), View().c);
      if !raised {
        ExecOne(env.e, c[0], View());
        RegisterRollback(ReverseRoutes(prefixes));
      }
    }

    /** The source VM is deleted; a failure to do so is ignored. */
    method StepCleanup(progress: real) returns (raised: bool)
      requires Valid()
      modifies this`phase, this`pct, env
      ensures Executed(Cleaning(job, progress), old(View()), raised)
    {
      ghost var a := [Move(Event(Cleanup, progress))];
      ghost var b := [Try(DeleteVm, job.vmId)];
      assert Cleaning(job, progress) == a + b;
      ExecConcat(env.e, a, b, View());
      ExecOne(env.e, a[0], View());
      raised := Transition(Event(Cleanup, progress));
      if !raised {
        ExecOne(env.e, b[0], View());
        os.DeleteVm(job.vmId);
      }
    }

    method ColdSteps() returns (raised: bool)
      requires Valid() && Loaded()
      modifies this`phase, this`pct, this`rollbacks, env
      ensures Executed(ColdDisk(env.e, job) + (ColdCutover(env.e, job) +
          (ColdBgp(env.e) + (Cleaning(job, 95.0) + Finish()))),
                       old(View()), raised)
    {
      ghost var b, c, d, f := ColdCutover(env.e, job), ColdBgp(env.e), Cleaning(job, 95.0), Finish();
      ExecConcat(env.e, ColdDisk(env.e, job), b + (c + (d + f)), View());
      raised := ColdStepDisk();
      if raised {
        return;
      }
      ExecConcat(env.e, b, c + (d + f), View());
      raised := ColdStepCutover();
      if raised {
        return;
      }
      ExecConcat(env.e, c, d + f, View());
      raised := ColdStepBgp();
      if raised {
        return;
      }
      ExecConcat(env.e, d, f, View());
      raised := StepCleanup(95.0);
      if raised {
        return;
      }
      ExecOne(env.e, f[0], View());
      raised := Transition(Event(Done, 100.0));
    }

    /** A whole cold migration: what it returns and leaves behind is what its command sequence says. */
    method RunCold() returns (ok: bool, escaped: bool)
      requires Valid() && images == job.preset && !job.live
      modifies this, env
      ensures Run(env.e, ColdProgram(env.e, job), old(View())) ==
              if escaped then Escaped(View()) else Finished(ok, View())
    {
      ghost var a := ColdPreflight(env.e, job);
      ghost var b := ColdDisk(env.e, job) + (ColdCutover(env.e, job) +
        (ColdBgp(env.e) + (Cleaning(job, 95.0) + Finish())));
      ColdNested(env.e, job);
      ExecConcat(env.e, a, [CheckAbort] + b, View());
      var raised := StepPreflight(env.e.vm.status.Active? || env.e.vm.status.Shutoff?);
      if !raised {
        ExecConcat(env.e, [CheckAbort], b, View());
        ExecOne(env.e, CheckAbort, View());
        if aborted {
          return false, false;
        }
        raised := ColdSteps();
      }
      if !raised {
        return true, false;
      }
      ok := false;
      escaped := FailAndUnwind();
    }

    lemma ColdNested(e: Env, j: Job)
      ensures ColdProgram(e, j) ==
        ColdPreflight(e, j) + ([CheckAbort] +
          (ColdDisk(e, j) + (ColdCutover(e, j) + (ColdBgp(e) + (Cleaning(j, 95.0) + Finish())))))
    {
    }

    // ---------- live migration ----------

    method LiveStepDiskSync() returns (raised: bool)
      requires Valid() && Loaded()
      modifies this`phase, this`pct, env
      ensures Executed(LiveDiskSync(env.e, job), old(View()), raised)
    {
      ghost var a := [Move(Event(Disk, 15.0))];
      ghost var p := Each(MirrorStatus, images);
      ExecConcat(env.e, a, p, View());
      ExecOne(env.e, a[0], View());
      raised := Transition(Event(Disk, 15.0));
      if raised {
        return;
      }
      ghost var s0 := View();
      assert p[..0] == [];
      var i := 0;
      while i < |images|
        invariant 0 <= i <= |images|
        invariant Exec(env.e, p[..i], s0) == Ran(View())
        invariant Loaded()
      {
        ReachNext(env.e, p, s0, i);
        var lag := ceph.GetMirrorStatus(images[i]);
        if lag.None? {
          StopResult(env.e, p, s0, i);
          return true;
        }
        i := i + 1;
      }
      assert p[..i] == p;
    }

    /** The tunnel: the monitor's transitions while libvirt copies, then the final one. */
    method RunTunnel() returns (raised: bool)
      requires Valid()
      modifies this`phase, this`pct, env
      ensures Executed(Tunnel(env.e), old(View()), raised)
    {
      ghost var p := Observations(env.e.samples);
      ghost var q := [Do(Migrate, ""), Move(MemoryEvent(100.0))];
      ExecConcat(env.e, p, q, View());
      assert p[..0] == [];
      var i := 0;
      while i < |env.e.samples|
        invariant 0 <= i <= |env.e.samples|
        invariant Exec(env.e, p[..i], old(View())) == Ran(View())
      {
        ReachNext(env.e, p, old(View()), i);
        var swallowed := Transition(MemoryEvent(ProgressPct(env.e.samples[i])));
        i := i + 1;
      }
      assert p[..i] == p;
      ghost var s1 := View();
      assert q[..0] == [] && q[..2] == q;
      ReachNext(env.e, q, s1, 0);
      var reply := env.Call(Migrate, "");
      if reply.Raised? {
        StopResult(env.e, q, s1, 0);
        return true;
      }
      ReachNext(env.e, q, s1, 1);
      raised := Transition(MemoryEvent(100.0));
    }

    method LiveStepMemory() returns (raised: bool)
      requires Valid()
      modifies this`phase, this`pct, this`rollbacks, env
      ensures Executed(LiveMemory(env.e, job), old(View()), raised)
    {
      ghost var p := [Move(Event(Memory, 25.0)), Guard(job.destHost != ""), Register(AbortTunnel)];
      ExecConcat(env.e, p, Tunnel(env.e), View());
      ExecThree(env.e, p, View());
      hide Exec, Tunnel;
      raised := Transition(Event(Memory, 25.0));
      if raised {
        return;
      }
      if job.destHost == "" {
        return true;
      }
      RegisterRollback(AbortTunnel);
      raised := RunTunnel();
    }

    /** Per image: wait (asking for zero lag, which counts as no limit), then demote. */
    method FlushAll() returns (raised: bool)
      requires Valid()
      modifies env
      ensures Executed(Flushes(images), old(View()), raised)
    {
      var i := 0;
      while i < |images|
        invariant 0 <= i <= |images|
        invariant Exec(env.e, Flushes(images[..i]), old(View())) == Ran(View())
      {
        ghost var s1 := View();
        ghost var q := [Sync(images[i], Some(0), 60), Do(Demote, images[i])];
        FlushSplit(env.e, images, i, old(View()));
        assert q[..0] == [] && q[..2] == q;
        ReachNext(env.e, q, s1, 0);
        var result, slept := ceph.WaitForSync(images[i], Some(0), 60, SYNC_INTERVAL);
        if !result.Met? {
          StopResult(env.e, q, s1, 0);
          return true;
        }
        ReachNext(env.e, q, s1, 1);
        raised := ceph.Demote(images[i]);
        if raised {
          return;
        }
        i := i + 1;
      }
      assert images[..i] == images;
      raised := false;
    }

    lemma FlushSplit(e: Env, xs: seq<string>, i: nat, s: State)
      requires i < |xs| && Exec(e, Flushes(xs[..i]), s).Ran?
      ensures var q := [Sync(xs[i], Some(0), 60), Do(Demote, xs[i])];
        var r := Exec(e, q, Exec(e, Flushes(xs[..i]), s).s);
        Exec(e, Flushes(xs[..i + 1]), s) == r && (!r.Ran? ==> Exec(e, Flushes(xs), s) == r)
    {
      var q := [Sync(xs[i], Some(0), 60), Do(Demote, xs[i])];
      assert xs[..i + 1][..i] == xs[..i];
      ExecConcat(e, Flushes(xs[..i]), q, s);
      if !Exec(e, Flushes(xs[..i + 1]), s).Ran? {
        FlushStop(e, xs, i + 1, s);
      }
    }

    lemma {:induction false} FlushStop(e: Env, xs: seq<string>, i: nat, s: State)
      requires i <= |xs| && !Exec(e, Flushes(xs[..i]), s).Ran?
      ensures Exec(e, Flushes(xs), s) == Exec(e, Flushes(xs[..i]), s)
      decreases |xs| - i
    {
      if i == |xs| {
        assert xs[..i] == xs;
      } else {
        assert xs[..i + 1][..i] == xs[..i];
        ExecConcat(e, Flushes(xs[..i]), [Sync(xs[i], Some(0), 60), Do(Demote, xs[i])], s);
        FlushStop(e, xs, i + 1, s);
      }
    }

    method LiveStepCutover() returns (raised: bool)
      requires Valid() && Loaded()
      modifies this`phase, this`pct, this`rollbacks, env
      ensures Executed(LiveCutover(env.e, job), old(View()), raised)
    {
      ghost var a := [Move(Event(Cutover, 80.0))];
      ghost var b := Flushes(images);
      ghost var c := [RECLAIM] + Each(Promote(env.e), images);
      assert LiveCutover(env.e, job) == a + (b + c);
      ExecConcat(env.e, a, b + c, View());
      ExecOne(env.e, a[0], View());
      raised := Transition(Event(Cutover, 80.0));
      if raised {
        return;
      }
      ExecConcat(env.e, b, c, View());
      raised := FlushAll();
      if raised {
        return;
      }
      raised := RegisterAndPromote();
    }

    /** No rollback is registered for the routes here. */
    method LiveStepBgp() returns (raised: bool)
      requires Valid() && Loaded()
      modifies this`phase, this`pct, env
      ensures Executed(LiveBgp(env.e), old(View()), raised)
    {
      ghost var a := [Move(Event(Bgp, 90.0))];
      var prefixes := PrefixList();
      ExecConcat(env.e, a, if ips == [] then [] else Handoff(prefixes, SourceClient(env.e)), View());
      ExecOne(env.e, a[0], View());
      raised := Transition(Event(Bgp, 90.0));
      if !raised && ips != [] {
        raised := bgp.Handoff(prefixes, SourceClient(env.e), View().c);
      }
    }

    method LiveSteps() returns (raised: bool)
      requires Valid() && Loaded()
      modifies this`phase, this`pct, this`rollbacks, env
      ensures Executed(LiveAfterPreflight(env.e, job), old(View()), raised)
    {
      ghost var b, c, d := LiveMemory(env.e, job), LiveCutover(env.e, job), LiveBgp(env.e);
      ghost var f, g := Cleaning(job, 96.0), Finish();
      ExecConcat(env.e, LiveDiskSync(env.e, job), b + (c + (d + (f + g))), View());
      raised := LiveStepDiskSync();
      if raised {
        return;
      }
      ExecConcat(env.e, b, c + (d + (f + g)), View());
      raised := LiveStepMemory();
      if raised {
        return;
      }
      ExecConcat(env.e, c, d + (f + g), View());
      raised := LiveStepCutover();
      if raised {
        return;
      }
      ExecConcat(env.e, d, f + g, View());
      raised := LiveStepBgp();
      if raised {
        return;
      }
      ExecConcat(env.e, f, g, View());
      raised := StepCleanup(96.0);
      if raised {
        return;
      }
      ExecOne(env.e, g[0], View());
      raised := Transition(Event(Done, 100.0));
    }

    /** A whole live migration. */
    method RunLive() returns (ok: bool, escaped: bool)
      requires Valid() && images == job.preset && job.live
      modifies this, env
      ensures Run(env.e, LiveProgram(env.e, job), old(View())) ==
              if escaped then Escaped(View()) else Finished(ok, View())
    {
      ghost var a := LivePreflight(env.e, job);
      ghost var b := LiveAfterPreflight(env.e, job);
      LiveNested(env.e, job);
      ExecConcat(env.e, a, [CheckAbort] + b, View());
      var raised := StepPreflight(env.e.vm.status.Active?);
      if !raised {
        ExecConcat(env.e, [CheckAbort], b, View());
        ExecOne(env.e, CheckAbort, View());
        if aborted {
          return false, false;
        }
        raised := LiveSteps();
      }
      if !raised {
        return true, false;
      }
      ok := false;
      escaped := FailAndUnwind();
    }
  }

  function LiveAfterPreflight(e: Env, j: Job): seq<Cmd> {
    LiveDiskSync(e, j) + (LiveMemory(e, j) + (LiveCutover(e, j) + (LiveBgp(e) + (Cleaning(j, 96.0) + Finish()))))
  }

  lemma LiveNested(e: Env, j: Job)
    ensures LiveProgram(e, j) == LivePreflight(e, j) + ([CheckAbort] + LiveAfterPreflight(e, j))
  {
  }
}
