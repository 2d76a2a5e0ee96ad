/** What whole runs ask of the outside: which calls they make, how often, and only after which others. */
module Requests {
  import opened Clusters
  import opened Protocol
  import opened Traces
  import opened Discipline
  import opened Engines
  import opened Primaries
  import opened Deletion
  import opened Journal
  import opened Polling
  import opened Volumes
  import opened Wrappers

  // ---------- an engine's command stands behind what comes before it in the sequence ----------

  /** What an engine's sequence has in front of a command is in front of it in every run. */
  lemma Behind(p: seq<Cmd>, a: seq<Cmd>, b: seq<Cmd>, k: nat)
    requires Strip(p) == a + b && k < |p| && !p[k].Interrupt? && p[k] !in a
    ensures forall c | c in a :: c in p[..k]
  {
    var m := |Strip(p[..k])|;
    StripPrefix(p, k);
    StripMembers(p[..k]);
    assert forall i | 0 <= i < |a| :: (a + b)[i] in a;
    assert a <= Strip(p[..k]);
  }

  /** Finds the command behind a call that no rollback makes. */
  lemma Asked(e: Env, j: Job, p: seq<Cmd>, s: State, t: nat) returns (k: nat)
    requires Follows(e, j, p)
    requires |s.w.trace| <= t < |Run(e, p, s).s.w.trace| && !RollbackVerb(Run(e, p, s).s.w.trace[t].verb)
    ensures k < |p| && Reaches(e, p, s, k) && AllowedCmd(e, j, p[..k], p[k]) && Guard(false) !in p[..k]
    ensures Issues(p[k], Run(e, p, s).s.w.trace[t].verb)
    ensures |At(e, p, s, k).w.trace| <= t && At(e, p, s, k).w.trace <= Run(e, p, s).s.w.trace
    ensures p[k].Do? || p[k].Try? ==>
      |At(e, p, s, k).w.trace| == t && Run(e, p, s).s.w.trace[t].verb == p[k].verb &&
      Run(e, p, s).s.w.trace[t].arg == p[k].arg
  {
    k := LocateForward(e, p, s, t);
    var s1 := At(e, p, s, k);
    StepGrows(e, p[k], s1);
    assert AllowedCmd(e, j, p[..k], p[k]);
    if p[k].Do? || p[k].Try? {
      AfterExtends(e, s1.w, p[k].verb, p[k].arg);
      assert Step(e, p[k], s1).s.w.trace[t] == Attempt(p[k].verb, p[k].arg, ReplyTo(e, t, p[k].verb));
    }
  }

  // ---------- the memory copy ----------

  /** Where an asked-for memory copy was allowed. */
  lemma CopyAsked(e: Env, j: Job, p: seq<Cmd>, s: State, t: nat) returns (k: nat)
    requires Follows(e, j, p)
    requires |s.w.trace| <= t < |Run(e, p, s).s.w.trace| && Run(e, p, s).s.w.trace[t].verb == Migrate
    ensures k < |p| && Reaches(e, p, s, k) && p[k] == Do(Migrate, "") && |At(e, p, s, k).w.trace| == t
    ensures At(e, p, s, k).w.trace <= Run(e, p, s).s.w.trace
    ensures j.live && j.destHost != "" && e.vm.status.Active? && Do(Migrate, "") !in p[..k]
  {
    k := Asked(e, j, p, s, t);
  }

  /**
   Libvirt is asked to migrate at most once in a run, by a live engine that was given a host, for an ACTIVE VM; before
   that the lag of every image was read once more, after the transition to the disk phase.
   */
  lemma CopyOnce(e: Env, j: Job, p: seq<Cmd>, s: State, t: nat)
    requires RunOf(e, j, p)
    requires |s.w.trace| <= t < |Run(e, p, s).s.w.trace| && Run(e, p, s).s.w.trace[t].verb == Migrate
    ensures var trace := Run(e, p, s).s.w.trace;
      j.live && j.destHost != "" && e.vm.status.Active? &&
      (forall t' | |s.w.trace| <= t' < |trace| && trace[t'].verb == Migrate :: t' == t) &&
      forall image | image in Images(e, j) :: LagRead(trace, |s.w.trace|, t, image)
  {
    var trace := Run(e, p, s).s.w.trace;
    EnginesFollow(e, j, p);
    var k := CopyAsked(e, j, p, s, t);
    forall t' | |s.w.trace| <= t' < |trace| && trace[t'].verb == Migrate
      ensures t' == t
    {
      var k' := CopyAsked(e, j, p, s, t');
      SameCopy(p, k, k');
    }
    hide Follows, RunOf, LagRead, Run;
    forall image | image in Images(e, j)
      ensures LagRead(trace, |s.w.trace|, t, image)
    {
      LagReadBefore(e, j, p, s, k, image);
      LagReadStays(At(e, p, s, k).w.trace, trace, |s.w.trace|, image);
    }
  }

  lemma SameCopy(p: seq<Cmd>, k: nat, k': nat)
    requires k < |p| && p[k] == Do(Migrate, "") && Do(Migrate, "") !in p[..k]
    requires k' < |p| && p[k'] == Do(Migrate, "") && Do(Migrate, "") !in p[..k']
    ensures k == k'
  {
    assert forall i | 0 <= i < k :: p[i] in p[..k];
    assert forall i | 0 <= i < k' :: p[i] in p[..k'];
  }

  /** Behind the committed transition to the disk phase the image's mirror status was read. */
  predicate LagRead(trace: seq<Attempt>, from: nat, until: nat, image: string) {
    exists q, r | from <= q < r < until && r < |trace| ::
      trace[q] == Attempt(Enter(Event(Disk, 15.0)), "", Accepted) && trace[r] == Attempt(MirrorStatus, image, Accepted)
  }

  lemma LagReadStays(short: seq<Attempt>, trace: seq<Attempt>, from: nat, image: string)
    requires short <= trace && LagRead(short, from, |short|, image)
    ensures LagRead(trace, from, |short|, image)
  {
    var q, r :| from <= q < r < |short| && short[q] == Attempt(Enter(Event(Disk, 15.0)), "", Accepted) &&
      short[r] == Attempt(MirrorStatus, image, Accepted);
    assert trace[q] == short[q] && trace[r] == short[r];
  }

  /** The live sequence up to its disk transition. */
  function ToDisk(e: Env, j: Job): seq<Cmd> {
    LivePreflight(e, j) + [CheckAbort, Move(Event(Disk, 15.0))]
  }

  function AfterDisk(e: Env, j: Job): seq<Cmd> {
    LiveMemory(e, j) + LiveCutover(e, j) + LiveBgp(e) + Cleaning(j, 96.0) + Finish()
  }

  lemma DiskShape(e: Env, j: Job)
    ensures LiveProgram(e, j) == ToDisk(e, j) + (Each(MirrorStatus, Images(e, j)) + AfterDisk(e, j))
    ensures LiveProgram(e, j) == (ToDisk(e, j) + Each(MirrorStatus, Images(e, j))) + AfterDisk(e, j)
  {
    hide LivePreflight, LiveMemory, LiveCutover, LiveBgp, Cleaning, Finish, Each;
  }

  lemma DiskReads(e: Env, j: Job, image: string)
    requires image in Images(e, j)
    ensures Do(MirrorStatus, image) !in ToDisk(e, j) && Move(Event(Disk, 15.0)) in ToDisk(e, j)
    ensures Do(Migrate, "") !in ToDisk(e, j) + Each(MirrorStatus, Images(e, j))
    ensures Do(MirrorStatus, image) in ToDisk(e, j) + Each(MirrorStatus, Images(e, j))
  {
    var i :| 0 <= i < |Images(e, j)| && Images(e, j)[i] == image;
    EachIn(ToDisk(e, j), MirrorStatus, Images(e, j));
    assert ToDisk(e, j)[|ToDisk(e, j)| - 1] == Move(Event(Disk, 15.0));
  }

  lemma LagReadBefore(e: Env, j: Job, p: seq<Cmd>, s: State, k: nat, image: string)
    requires RunOf(e, j, p) && j.live && k < |p| && p[k] == Do(Migrate, "") && Reaches(e, p, s, k)
    requires image in Images(e, j)
    ensures LagRead(At(e, p, s, k).w.trace, |s.w.trace|, |At(e, p, s, k).w.trace|, image)
  {
    DiskShape(e, j);
    DiskReads(e, j, image);
    hide LiveProgram, ToDisk, AfterDisk, Each;
    Behind(p, ToDisk(e, j) + Each(MirrorStatus, Images(e, j)), AfterDisk(e, j), k);
    var r :| 0 <= r < k && p[r] == Do(MirrorStatus, image);
    Behind(p, ToDisk(e, j), Each(MirrorStatus, Images(e, j)) + AfterDisk(e, j), r);
    var q :| 0 <= q < r && p[q] == Move(Event(Disk, 15.0));
    MovedThenRead(e, p, s, q, r, k);
  }

  lemma MovedThenRead(e: Env, p: seq<Cmd>, s: State, q: nat, r: nat, k: nat)
    requires Reaches(e, p, s, k) && q < r < k
    requires p[q] == Move(Event(Disk, 15.0)) && p[r].Do? && p[r].verb == MirrorStatus
    ensures LagRead(At(e, p, s, k).w.trace, |s.w.trace|, |At(e, p, s, k).w.trace|, p[r].arg)
  {
    var trace := At(e, p, s, k).w.trace;
    var x := CompletedTick(e, p, s, q, k);
    var y := CompletedTick(e, p, s, r, k);
    ReachPrevious(e, p, s, r, k);
    ReachedExtends(e, p, s, q + 1, r);
    ReachPrevious(e, p, s, q, k);
    assert trace[x] == Attempt(Enter(Event(Disk, 15.0)), "", Accepted);
    assert trace[y] == Attempt(MirrorStatus, p[r].arg, Accepted);
  }

  /** The one call of a completed transition or forward call. */
  lemma CompletedTick(e: Env, p: seq<Cmd>, s: State, i: nat, k: nat) returns (t: nat)
    requires Reaches(e, p, s, k) && i < k && (p[i].Move? || p[i].Do?)
    ensures Reaches(e, p, s, i) && t == |At(e, p, s, i).w.trace| && |s.w.trace| <= t < |At(e, p, s, k).w.trace|
    ensures var verb := if p[i].Move? then Enter(p[i].event) else p[i].verb;
      At(e, p, s, k).w.trace[t] == Attempt(verb, if p[i].Move? then "" else p[i].arg, ReplyTo(e, t, verb)) &&
      !ReplyTo(e, t, verb).Raised?
  {
    t := |At(e, p, s, i).w.trace|;
    ReachPrevious(e, p, s, i, k);
    ReachedExtends(e, p, s, 0, i);
    ReachedExtends(e, p, s, i + 1, k);
    assert p[..0] == [];
    assert At(e, p, s, k).w.trace[t] == At(e, p, s, i + 1).w.trace[t];
  }

  // ---------- a VM in the wrong state ----------

  predicate StatusFits(e: Env, j: Job) {
    e.vm.status.Active? || (!j.live && e.vm.status.Shutoff?)
  }

  function Opening(e: Env, j: Job): seq<Cmd> {
    [Move(Event(Preflight, 5.0)), Do(GetVm, j.vmId), Guard(StatusFits(e, j))]
  }

  lemma OpeningShape(e: Env, j: Job) returns (rest: seq<Cmd>)
    ensures Program(e, j) == Opening(e, j) + rest
  {
    hide Program, LivePreflight, ColdPreflight, Checks, Later, Opening;
    LaterShape(e, j);
    OpeningOf(e, j);
    var checks := [Collect] + Checks(Images(e, j));
    rest := checks + Later(e, j);
    Nested(Opening(e, j), checks, Later(e, j));
  }

  lemma Nested(a: seq<Cmd>, b: seq<Cmd>, c: seq<Cmd>)
    ensures (a + b) + c == a + (b + c)
  {
  }

  lemma OpeningOf(e: Env, j: Job)
    ensures (if j.live then LivePreflight(e, j) else ColdPreflight(e, j)) ==
            Opening(e, j) + ([Collect] + Checks(Images(e, j)))
  {
    hide Checks;
  }

  /** Everything behind preflight. */
  function Later(e: Env, j: Job): seq<Cmd> {
    [CheckAbort] +
    if j.live then
      LiveDiskSync(e, j) + LiveMemory(e, j) + LiveCutover(e, j) + LiveBgp(e) + Cleaning(j, 96.0) + Finish()
    else ColdDisk(e, j) + ColdCutover(e, j) + ColdBgp(e) + Cleaning(j, 95.0) + Finish()
  }

  lemma LaterShape(e: Env, j: Job)
    ensures Program(e, j) == (if j.live then LivePreflight(e, j) else ColdPreflight(e, j)) + Later(e, j)
  {
    hide LivePreflight, LiveDiskSync, LiveMemory, LiveCutover, LiveBgp, Cleaning, Finish, ColdPreflight, ColdDisk,
         ColdCutover, ColdBgp;
  }

  /**
   A VM whose status does not fit the engine is left alone: the run never completes, and beside its rollbacks' calls it
   makes none but the transition to preflight and the look at the VM.
   */
  lemma WrongStatusStops(e: Env, j: Job, p: seq<Cmd>, s: State)
    requires RunOf(e, j, p) && !StatusFits(e, j)
    ensures !Exec(e, p, s).Ran?
    ensures var trace := Run(e, p, s).s.w.trace;
      forall t | |s.w.trace| <= t < |trace| ::
        RollbackVerb(trace[t].verb) || trace[t].verb == Enter(Event(Preflight, 5.0)) || trace[t].verb == GetVm
  {
    var trace := Run(e, p, s).s.w.trace;
    var rest := OpeningShape(e, j);
    var a := Opening(e, j);
    StripMembers(p);
    assert a[2] in a && a[2] in Strip(p);
    if Exec(e, p, s).Ran? {
      assert p[..|p|] == p;
      NoFailedGuard(e, p, s, |p|);
    }
    EnginesFollow(e, j, p);
    hide Follows, RunOf, Program, Run;
    forall t | |s.w.trace| <= t < |trace| && !RollbackVerb(trace[t].verb)
      ensures trace[t].verb == Enter(Event(Preflight, 5.0)) || trace[t].verb == GetVm
    {
      var k := Asked(e, j, p, s, t);
      if p[k] !in a {
        Behind(p, a, rest, k);
      }
    }
  }

  /** Nothing else an engine tests can stop it: if the status fits and a live one was given a host, all guards hold. */
  lemma GuardsHoldIff(e: Env, j: Job)
    ensures (forall c | c in Program(e, j) && c.Guard? :: c.holds) <==>
      StatusFits(e, j) && (j.live ==> j.destHost != "")
  {
    var rest := OpeningShape(e, j);
    assert Opening(e, j)[2] in Program(e, j);
    if j.live {
      LiveGuards(e, j);
    } else {
      ColdGuards(e, j);
    }
  }

  predicate Unguarded(p: seq<Cmd>) {
    forall c | c in p :: !c.Guard?
  }

  lemma ColdGuards(e: Env, j: Job)
    requires !j.live
    ensures forall c | c in ColdProgram(e, j) && c.Guard? :: c == Guard(StatusFits(e, j))
  {
    assert forall c | c in ColdPreflight(e, j) && c.Guard? :: c == Guard(StatusFits(e, j));
    assert Unguarded(ColdDisk(e, j)) && Unguarded(ColdCutover(e, j)) && Unguarded(ColdBgp(e));
    assert Unguarded(Cleaning(j, 95.0) + Finish());
    hide ColdPreflight, ColdDisk, ColdCutover, ColdBgp, Cleaning, Finish;
  }

  lemma {:induction false} FlushesUnguarded(images: seq<string>)
    ensures Unguarded(Flushes(images))
    decreases |images|
  {
    if images != [] {
      FlushesUnguarded(images[..|images| - 1]);
    }
  }

  lemma LiveGuards(e: Env, j: Job)
    requires j.live
    ensures forall c | c in LiveProgram(e, j) && c.Guard? ::
      c == Guard(StatusFits(e, j)) || c == Guard(j.destHost != "")
    ensures Guard(j.destHost != "") in LiveProgram(e, j)
  {
    hide LivePreflight, LiveDiskSync, LiveMemory, LiveCutover, LiveBgp, Cleaning, Finish;
    LiveTailUnguarded(e, j);
    LiveHeadGuards(e, j);
    assert LiveMemory(e, j)[1] in LiveMemory(e, j);
  }

  lemma LiveTailUnguarded(e: Env, j: Job)
    ensures Unguarded(LiveDiskSync(e, j)) && Unguarded(LiveCutover(e, j)) && Unguarded(LiveBgp(e))
    ensures Unguarded(Cleaning(j, 96.0) + Finish())
  {
    FlushesUnguarded(Images(e, j));
    hide Flushes;
  }

  lemma LiveHeadGuards(e: Env, j: Job)
    requires j.live
    ensures forall c | c in LivePreflight(e, j) && c.Guard? :: c == Guard(StatusFits(e, j))
    ensures forall c | c in LiveMemory(e, j) && c.Guard? :: c == Guard(j.destHost != "")
    ensures |LiveMemory(e, j)| > 1 && LiveMemory(e, j)[1] == Guard(j.destHost != "")
  {
  }

  // ---------- how long the waits are ----------

  /** What the waits of an engine ask for: the default limit, five minutes cold; zero, one minute live. */
  lemma WaitsOf(e: Env, j: Job, c: Cmd)
    requires c in Program(e, j)
    ensures c.Sync? ==> if j.live then c.limit == Some(0) && c.timeout == 60 else c.limit == None && c.timeout == 300
  {
    if c.Sync? {
      if j.live {
        LiveWaits(e, j);
      } else {
        ColdWaits(e, j);
      }
    }
  }

  predicate Waitless(p: seq<Cmd>) {
    forall c | c in p :: !c.Sync?
  }

  lemma ColdWaits(e: Env, j: Job)
    ensures forall c | c in ColdProgram(e, j) && c.Sync? :: c.limit == None && c.timeout == 300
  {
    ColdDiskWaits(e, j);
    hide ColdDisk;
    assert Waitless(ColdPreflight(e, j)) && Waitless(ColdCutover(e, j)) && Waitless(ColdBgp(e));
    assert Waitless(Cleaning(j, 95.0) + Finish());
    hide ColdPreflight, ColdCutover, ColdBgp, Cleaning, Finish;
  }

  lemma ColdDiskWaits(e: Env, j: Job)
    ensures forall c | c in ColdDisk(e, j) && c.Sync? :: c.limit == None && c.timeout == 300
  {
    assert Waitless(ColdQuiesce(e, j)) && Waitless(Each(Demote, Images(e, j)) + [RECLAIM]);
    assert Waitless(Each(Promote(e), Images(e, j)));
    assert forall c | c in Syncs(Images(e, j), None, 300) :: c.limit == None && c.timeout == 300;
    hide ColdQuiesce, Syncs, Each;
  }

  lemma {:induction false} FlushesWait(images: seq<string>)
    ensures forall c | c in Flushes(images) && c.Sync? :: c.limit == Some(0) && c.timeout == 60
    decreases |images|
  {
    if images != [] {
      FlushesWait(images[..|images| - 1]);
    }
  }

  lemma LiveWaits(e: Env, j: Job)
    ensures forall c | c in LiveProgram(e, j) && c.Sync? :: c.limit == Some(0) && c.timeout == 60
  {
    FlushesWait(Images(e, j));
    assert Waitless(LivePreflight(e, j)) && Waitless(LiveDiskSync(e, j)) && Waitless(LiveMemory(e, j));
    assert Waitless(LiveBgp(e)) && Waitless(Cleaning(j, 96.0) + Finish());
    assert forall c | c in LiveCutover(e, j) && c.Sync? :: c.limit == Some(0) && c.timeout == 60;
    hide LivePreflight, LiveDiskSync, LiveMemory, LiveCutover, LiveBgp, Cleaning, Finish;
  }

  /**
   How often an engine looks: a cold wait for an image reads its lag at most 60 times, a live one 12 times, the wait for
   the VM its status 40 times; and a wait that fails with no reading raised, nor for the VM an error status read, has
   read that often, every time above the default threshold or short of the target.
   */
  lemma EngineWaits(e: Env, j: Job, p: seq<Cmd>, s: State, k: nat)
    requires RunOf(e, j, p) && k < |p| && Reaches(e, p, s, k) && (p[k].Sync? || p[k].AwaitVm?)
    ensures var from := |At(e, p, s, k).w.trace|;
      var r := Step(e, p[k], At(e, p, s, k));
      var allotted := if p[k].AwaitVm? then 40 else if j.live then 12 else 60;
      from <= |r.s.w.trace| <= from + allotted &&
      (p[k].Sync? && !r.Ran? && Readable(e, from, from + allotted) ==>
        |r.s.w.trace| == from + allotted && AllAbove(e, p[k].image, e.defaultLag, from, from + allotted)) &&
      (p[k].AwaitVm? && !r.Ran? && Readable(e, from, from + allotted) ==>
        from < |r.s.w.trace| && (|r.s.w.trace| == from + allotted || e.status(|r.s.w.trace| - 1).Errored?))
  {
    StripMembers(p);
    assert Polls(60, SYNC_INTERVAL) == 12 && Polls(300, SYNC_INTERVAL) == 60;
    hide Program, Exec, Step, Polls, Strip, Readable, AllAbove;
    WaitsOf(e, j, p[k]);
    if p[k].Sync? {
      SyncPolls(e, p[k], if j.live then 12 else 60, At(e, p, s, k));
    } else {
      AwaitPolls(e, p[k], At(e, p, s, k));
    }
  }

  lemma SyncPolls(e: Env, c: Cmd, n: nat, s: State)
    requires c.Sync? && (c.limit == None || c.limit == Some(0)) && n == Polls(c.timeout, SYNC_INTERVAL)
    ensures var from := |s.w.trace|;
      var r := Step(e, c, s);
      from <= |r.s.w.trace| <= from + n &&
      (!r.Ran? && Readable(e, from, from + n) ==>
        |r.s.w.trace| == from + n && AllAbove(e, c.image, e.defaultLag, from, from + n))
  {
    assert Limit(e, c.limit) == e.defaultLag;
    hide PollSync, AllAbove, Polls, Limit;
    WaitSucceedsIff(e, c.image, e.defaultLag, n, s.w);
    if Readable(e, |s.w.trace|, |s.w.trace| + n) {
      WaitFailsIff(e, c.image, e.defaultLag, n, s.w);
    }
  }

  lemma AwaitPolls(e: Env, c: Cmd, s: State)
    requires c.AwaitVm?
    ensures var from := |s.w.trace|;
      var r := Step(e, c, s);
      from <= |r.s.w.trace| <= from + 40 &&
      (!r.Ran? && Readable(e, from, from + 40) ==>
        from < |r.s.w.trace| && (|r.s.w.trace| == from + 40 || e.status(|r.s.w.trace| - 1).Errored?))
  {
    assert Polls(VM_TIMEOUT, VM_INTERVAL) == 40;
    hide PollVm;
    VmWaitSucceedsIff(e, c.id, c.target, 40, s.w);
  }

  // ---------- what the monitor reports ----------

  /** The figure a monitor reports for one reading: the share of memory processed, at most 99, zero without a job. */
  predicate Reports(info: JobInfo, pct: real) {
    if !info.Job? || info.total == 0 then pct == 0.0
    else if 100 * info.processed >= 99 * info.total then pct == 99.0
    else pct * info.total as real == 100.0 * info.processed as real
  }

  lemma ProgressReports(info: JobInfo)
    ensures Reports(info, ProgressPct(info))
  {
    if info.Job? && info.total > 0 {
      SharePct(info.processed as real, info.total as real);
    }
  }

  lemma SharePct(x: real, n: real)
    requires n > 0.0
    ensures x / n * 100.0 * n == 100.0 * x
    ensures 100.0 * x >= 99.0 * n <==> x / n * 100.0 >= 99.0
  {
    var q := x / n;
    assert q * n == x;
    if q * 100.0 >= 99.0 {
      Scaled(99.0, q * 100.0, n);
    } else {
      assert (99.0 - q * 100.0) * n > 0.0;
    }
  }

  lemma Scaled(a: real, b: real, n: real)
    requires a <= b && n > 0.0
    ensures a * n <= b * n
  {
    assert (b - a) * n >= 0.0;
  }

  /** Every monitor reading is reported as half its figure above 25 percent before the copy is asked for. */
  lemma MonitorReports(e: Env, j: Job, p: seq<Cmd>, s: State, k: nat, i: nat) returns (t: nat, pct: real)
    requires RunOf(e, j, p) && j.live && k < |p| && p[k] == Do(Migrate, "") && Reaches(e, p, s, k) && i < |e.samples|
    ensures Reports(e.samples[i], pct) && |s.w.trace| <= t < |At(e, p, s, k).w.trace|
    ensures At(e, p, s, k).w.trace[t].verb == Enter(Event(Memory, 25.0 + pct / 2.0))
  {
    pct := ProgressPct(e.samples[i]);
    ProgressReports(e.samples[i]);
    var c := Observe(MemoryEvent(pct));
    assert Observations(e.samples)[i] == c;
    assert c in Observations(e.samples);
    MonitorShape(e, j);
    MonitorNoCopy(e, j);
    hide LiveProgram, ToMonitor, BehindMonitor, Observations, ProgressPct;
    Behind(p, ToMonitor(e, j), BehindMonitor(e, j), k);
    var h :| 0 <= h < k && p[h] == c;
    t := ObservedTick(e, p, s, h, k);
  }

  function ToMonitor(e: Env, j: Job): seq<Cmd> {
    LiveBeforeMonitor(e, j) + Observations(e.samples)
  }

  function BehindMonitor(e: Env, j: Job): seq<Cmd> {
    LiveAfterMonitor(e, j)
  }

  lemma MonitorShape(e: Env, j: Job)
    ensures LiveProgram(e, j) == ToMonitor(e, j) + BehindMonitor(e, j)
    ensures forall c | c in Observations(e.samples) :: c in ToMonitor(e, j)
  {
    LiveSplit(e, j);
  }

  lemma MonitorNoCopy(e: Env, j: Job)
    ensures Do(Migrate, "") !in ToMonitor(e, j)
  {
    assert Do(Migrate, "") !in LivePreflight(e, j) && Do(Migrate, "") !in LiveDiskSync(e, j);
    hide LivePreflight, LiveDiskSync;
  }

  lemma ObservedTick(e: Env, p: seq<Cmd>, s: State, i: nat, k: nat) returns (t: nat)
    requires Reaches(e, p, s, k) && i < k && p[i].Observe?
    ensures |s.w.trace| <= t < |At(e, p, s, k).w.trace| && At(e, p, s, k).w.trace[t].verb == Enter(p[i].event)
  {
    t := |At(e, p, s, i).w.trace|;
    ReachPrevious(e, p, s, i, k);
    ReachedExtends(e, p, s, 0, i);
    ReachedExtends(e, p, s, i + 1, k);
    assert p[..0] == [];
    assert At(e, p, s, k).w.trace[t] == At(e, p, s, i + 1).w.trace[t];
  }

  // ---------- registering volumes ----------

  /**
   A volume is registered at the destination only by a cold run, after every image was demoted and every promote of
   one answered.
   */
  lemma RegisteredAfterPromotes(e: Env, j: Job, p: seq<Cmd>, s: State, t: nat)
    requires RunOf(e, j, p)
    requires |s.w.trace| <= t < |Run(e, p, s).s.w.trace| && Run(e, p, s).s.w.trace[t].verb.CreateVolume?
    ensures var trace := Run(e, p, s).s.w.trace;
      !j.live &&
      forall i | 0 <= i < |Images(e, j)| ::
        Succeeded(trace, |s.w.trace|, t, Demote, Images(e, j)[i]) &&
        Answered(trace, |s.w.trace|, t, Promote(e), Images(e, j)[i])
  {
    var trace := Run(e, p, s).s.w.trace;
    EnginesFollow(e, j, p);
    var k := VolumeAsked(e, j, p, s, t);
    CopyBehind(e, j, p, k);
    RegisteredMeansDemoted(e, j, p, s, k);
    var short := At(e, p, s, k).w.trace;
    hide Follows, RunOf, Run, Answered, Succeeded, Reaches, At;
    AllCompleted(e, p, s, k, Demote, Images(e, j));
    AllCompleted(e, p, s, k, Promote(e), Images(e, j));
    forall i | 0 <= i < |Images(e, j)|
      ensures Succeeded(trace, |s.w.trace|, t, Demote, Images(e, j)[i])
      ensures Answered(trace, |s.w.trace|, t, Promote(e), Images(e, j)[i])
    {
      MadeBy(short, trace, |s.w.trace|, t, Demote, Images(e, j)[i]);
      MadeBy(short, trace, |s.w.trace|, t, Promote(e), Images(e, j)[i]);
    }
  }

  lemma VolumeAsked(e: Env, j: Job, p: seq<Cmd>, s: State, t: nat) returns (k: nat)
    requires Follows(e, j, p)
    requires |s.w.trace| <= t < |Run(e, p, s).s.w.trace| && Run(e, p, s).s.w.trace[t].verb.CreateVolume?
    ensures k < |p| && Reaches(e, p, s, k) && p[k].Copy?
    ensures |At(e, p, s, k).w.trace| <= t && At(e, p, s, k).w.trace <= Run(e, p, s).s.w.trace
  {
    k := Asked(e, j, p, s, t);
  }

  lemma MadeBy(short: seq<Attempt>, trace: seq<Attempt>, from: nat, until: nat, verb: Verb, arg: string)
    requires short <= trace && |short| <= until
    ensures Answered(short, from, |short|, verb, arg) ==> Answered(trace, from, until, verb, arg)
    ensures Succeeded(short, from, |short|, verb, arg) ==> Succeeded(trace, from, until, verb, arg)
  {
  }

  lemma CopyBehind(e: Env, j: Job, p: seq<Cmd>, k: nat)
    requires RunOf(e, j, p) && k < |p| && p[k].Copy?
    ensures !j.live && AllDone(p[..k], Promote(e), Images(e, j)) && RECLAIM in p[..k]
  {
    hide LiveProgram, ColdProgram, ColdBeforeCopies, ColdAfterCopies, Copies, Strip;
    StripMembers(p);
    LiveCopyless(e, j);
    assert p[k] in Program(e, j);
    if !j.live {
      CopiesShape(e, j);
      AroundCopyless(e, j);
      PromotesBeforeCopies(e, j);
      assert ColdProgram(e, j) == ColdBeforeCopies(e, j) + (Copies(Images(e, j)) + ColdAfterCopies(e, j));
      Behind(p, ColdBeforeCopies(e, j), Copies(Images(e, j)) + ColdAfterCopies(e, j), k);
    }
  }

  lemma PromotesBeforeCopies(e: Env, j: Job)
    ensures AllDone(ColdBeforeCopies(e, j), Promote(e), Images(e, j)) && RECLAIM in ColdBeforeCopies(e, j)
  {
    EachIn([], Promote(e), Images(e, j));
    assert [] + Each(Promote(e), Images(e, j)) == Each(Promote(e), Images(e, j));
    hide Each;
  }

  lemma {:induction false} FlushesCopyless(images: seq<string>)
    ensures Copyless(Flushes(images))
    decreases |images|
  {
    if images != [] {
      FlushesCopyless(images[..|images| - 1]);
    }
  }

  lemma LiveCopyless(e: Env, j: Job)
    ensures Copyless(LiveProgram(e, j))
  {
    FlushesCopyless(Images(e, j));
    LiveStartCopyless(e, j);
    assert Copyless(LiveBgp(e)) && Copyless(Cleaning(j, 96.0) + Finish());
    hide LivePreflight, LiveDiskSync, LiveMemory, LiveBgp, Cleaning, Finish, Flushes;
    assert Copyless(LiveCutover(e, j));
    hide LiveCutover;
  }

  lemma LiveStartCopyless(e: Env, j: Job)
    ensures Copyless(LivePreflight(e, j)) && Copyless(LiveDiskSync(e, j)) && Copyless(LiveMemory(e, j))
  {
  }
}
