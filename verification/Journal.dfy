/** What a run commits to the database: the event log, the row, and how far the engine's own fields run ahead. */
module Journal {
  import opened Clusters
  import opened Protocol
  import opened Traces
  import opened Discipline
  import opened Engines
  import opened Wrappers

  /** The transitions a command sequence makes by itself, in order. */
  function Planned(p: seq<Cmd>): seq<Event> {
    if p == [] then []
    else
      var c := p[|p| - 1];
      Planned(p[..|p| - 1]) + if c.Move? then [c.event] else []
  }

  /** `log` holds every transition of `p` in order, and any of the monitor's transitions where they belong. */
  predicate Logged(p: seq<Cmd>, log: seq<Event>)
    decreases |p|
  {
    if p == [] then log == []
    else
      var c := p[|p| - 1];
      var q := p[..|p| - 1];
      match c
      case Move(event) => log != [] && log[|log| - 1] == event && Logged(q, log[..|log| - 1])
      case Observe(event) =>
        Logged(q, log) || (log != [] && log[|log| - 1] == event && Logged(q, log[..|log| - 1]))
      case _ => Logged(q, log)
  }

  /** Calls that do not enter a state leave the log alone. */
  lemma {:induction false} LogUntouched(e: Env, w0: World, w1: World)
    requires Extends(e, w0, w1) && forall i | 0 <= i < |New(w0, w1)| :: !New(w0, w1)[i].verb.Enter?
    ensures w1.events == w0.events
    ensures (forall i | 0 <= i < |New(w0, w1)| :: !New(w0, w1)[i].verb.MarkFailed?) ==> w1.row == w0.row
    decreases |w1.trace| - |w0.trace|
  {
    var calls := New(w0, w1);
    if calls != [] {
      var w := After(e, w0, calls[0].verb, calls[0].arg);
      ReplayTrace(e, w, calls[1..]);
      assert New(w, w1) == calls[1..];
      LogUntouched(e, w, w1);
    }
  }

  predicate EntersOnlyBy(c: Cmd) {
    !(c.Do? && (c.verb.Enter? || c.verb.MarkFailed?)) && !(c.Try? && (c.verb.Enter? || c.verb.MarkFailed?))
  }

  /** What one completed command does to the log, the row and the engine's own phase. */
  lemma StepJournal(e: Env, c: Cmd, s: State)
    requires EntersOnlyBy(c) && !c.Move? && !c.Observe?
    ensures var s1 := Step(e, c, s).s;
      s1.w.events == s.w.events && s1.c.phase == s.c.phase && s1.c.pct == s.c.pct &&
      (!c.Interrupt? ==> s1.w.row == s.w.row)
  {
    var s1 := Step(e, c, s).s;
    StepGrows(e, c, s);
    assert forall i | 0 <= i < |New(s.w, s1.w)| :: Issues(c, New(s.w, s1.w)[i].verb);
    LogUntouched(e, s.w, s1.w);
    if c.Interrupt? {
      FailPhase(e, s.(c := s.c.(aborted := true)));
    }
  }

  lemma FailPhase(e: Env, s: State)
    ensures var r := Fail(e, s);
      r.s.c.phase == s.c.phase && r.s.c.pct == s.c.pct && r.s.w.events == s.w.events &&
      r.s.w.row == if r.Finished? && s.w.row.Some? then Some(Event(Failed, s.w.row.value.pct)) else s.w.row
  {
    var s1 := Invoke(e, s, MarkFailed, "");
    if !Raises(e, s, MarkFailed) {
      UnwindJournal(e, s1.c.stack, s1);
    }
  }

  lemma {:induction false} UnwindJournal(e: Env, stack: seq<Handler>, s: State)
    ensures var r := Unwind(e, stack, s);
      r.c.phase == s.c.phase && r.c.pct == s.c.pct && r.w.events == s.w.events && r.w.row == s.w.row
    decreases |stack|
  {
    if stack != [] {
      var n := |stack| - 1;
      var ok := (v: Verb) => v.ForcePromote? || v.Withdraw? || v.RemoteAnnounce? || v.AbortJob?;
      match stack[n] {
        case ReclaimDisks => ReclaimGrows(e, s.c.images, s.w, ok);
        case ReverseRoutes(prefixes) => ReverseGrows(e, prefixes, DestClient(e), s.w, ok);
        case AbortTunnel => AfterGrows(e, s.w, AbortJob, "", ok);
      }
      LogUntouched(e, s.w, RunHandler(e, stack[n], s).w);
      UnwindJournal(e, stack[..n], RunHandler(e, stack[n], s));
    }
  }

  /** The log of a run that reached command `k`, aborts included. */
  lemma {:induction false} ReachedLog(e: Env, p: seq<Cmd>, s: State, k: nat) returns (log: seq<Event>)
    requires Reaches(e, p, s, k) && forall c | c in p :: EntersOnlyBy(c)
    ensures At(e, p, s, k).w.events == s.w.events + log && Logged(p[..k], log)
    ensures Interrupt !in p && s.w.row.Some? ==>
      At(e, p, s, k).w.row == if log == [] then s.w.row else Some(log[|log| - 1])
    ensures Interrupt !in p && s.w.row.None? ==> At(e, p, s, k).w.row.None?
    decreases k
  {
    if k == 0 {
      assert p[..0] == [];
      log := [];
    } else {
      ReachPrevious(e, p, s, k - 1, k);
      var before := ReachedLog(e, p, s, k - 1);
      var c := p[k - 1];
      assert p[..k][..k - 1] == p[..k - 1];
      var s1 := At(e, p, s, k - 1);
      var s2 := At(e, p, s, k);
      log := before;
      if c.Move? || (c.Observe? && s2.w.events != s1.w.events) {
        log := before + [c.event];
        assert log[..|log| - 1] == before;
      } else if !c.Observe? {
        StepJournal(e, c, s1);
      }
    }
  }

  lemma {:induction false} LoggedSplit(p: seq<Cmd>, q: seq<Cmd>, log: seq<Event>) returns (a: seq<Event>, b: seq<Event>)
    requires Logged(p + q, log)
    ensures log == a + b && Logged(p, a) && Logged(q, b)
    decreases |q|
  {
    if q == [] {
      assert p + q == p;
      a, b := log, [];
    } else {
      var n := |q| - 1;
      var c := q[n];
      assert (p + q)[..|p + q| - 1] == p + q[..n];
      if c.Move? || (c.Observe? && !Logged(p + q[..n], log)) {
        a, b := LoggedSplit(p, q[..n], log[..|log| - 1]);
        b := b + [c.event];
        assert b[..|b| - 1] + [c.event] == b;
      } else {
        a, b := LoggedSplit(p, q[..n], log);
      }
    }
  }

  /** Without a monitor the log is the plan itself. */
  lemma {:induction false} LoggedIsPlanned(p: seq<Cmd>, log: seq<Event>)
    requires Logged(p, log) && forall c | c in p :: !c.Observe?
    ensures log == Planned(p)
    decreases |p|
  {
    if p != [] {
      var q := p[..|p| - 1];
      assert forall c | c in q :: c in p;
      assert p[|p| - 1] in p;
      LoggedIsPlanned(q, if p[|p| - 1].Move? then log[..|log| - 1] else log);
    }
  }

  lemma {:induction false} PlannedConcat(p: seq<Cmd>, q: seq<Cmd>)
    ensures Planned(p + q) == Planned(p) + Planned(q)
    decreases |q|
  {
    if q == [] {
      assert p + q == p;
    } else {
      assert (p + q)[..|p + q| - 1] == p + q[..|q| - 1];
      PlannedConcat(p, q[..|q| - 1]);
    }
  }

  lemma {:induction false} PlannedNothing(p: seq<Cmd>)
    requires forall c | c in p :: !c.Move?
    ensures Planned(p) == []
    decreases |p|
  {
    if p != [] {
      assert forall c | c in p[..|p| - 1] :: c in p;
      PlannedNothing(p[..|p| - 1]);
    }
  }

  lemma PlannedOne(c: Cmd)
    ensures Planned([c]) == if c.Move? then [c.event] else []
  {
    assert [c][..0] == [];
  }

  /** A piece of program that makes one transition and then none. */
  lemma PlannedSection(c: Cmd, rest: seq<Cmd>)
    requires c.Move? && forall d | d in rest :: !d.Move?
    ensures Planned([c] + rest) == [c.event]
  {
    PlannedConcat([c], rest);
    PlannedOne(c);
    PlannedNothing(rest);
  }

  lemma PlannedFive(a: seq<Cmd>, b: seq<Cmd>, c: seq<Cmd>, d: seq<Cmd>, f: seq<Cmd>)
    ensures Planned(a + b + c + d + f) == Planned(a) + Planned(b) + Planned(c) + Planned(d) + Planned(f)
  {
    PlannedFour(a, b, c, d);
    PlannedConcat(a + b + c + d, f);
  }

  lemma PlannedFour(a: seq<Cmd>, b: seq<Cmd>, c: seq<Cmd>, d: seq<Cmd>)
    ensures Planned(a + b + c + d) == Planned(a) + Planned(b) + Planned(c) + Planned(d)
  {
    PlannedConcat(a, b);
    PlannedConcat(a + b, c);
    PlannedConcat(a + b + c, d);
  }

  lemma PlannedPrefix(p: seq<Cmd>, k: nat)
    requires k <= |p|
    ensures Planned(p[..k]) <= Planned(p)
  {
    assert p == p[..k] + p[k..];
    PlannedConcat(p[..k], p[k..]);
  }

  // ---------- the two engines ----------

  const COLD_LOG: seq<Event> := [
    Event(Preflight, 5.0), Event(Disk, 20.0), Event(Disk, 50.0), Event(Cutover, 70.0),
    Event(Bgp, 85.0), Event(Cleanup, 95.0), Event(Done, 100.0)]

  const LIVE_HEAD: seq<Event> := [Event(Preflight, 5.0), Event(Disk, 15.0), Event(Memory, 25.0)]

  const LIVE_TAIL: seq<Event> := [
    Event(Memory, 75.0), Event(Cutover, 80.0), Event(Bgp, 90.0), Event(Cleanup, 96.0), Event(Done, 100.0)]

  lemma PreflightPlanned(e: Env, j: Job, statusOk: bool)
    ensures Planned(Preflighting(e, j, statusOk)) == [Event(Preflight, 5.0)]
  {
    var rest := [Do(GetVm, j.vmId), Guard(statusOk), Collect] + Checks(Images(e, j));
    assert Preflighting(e, j, statusOk) == [Move(Event(Preflight, 5.0))] + rest;
    PlannedSection(Move(Event(Preflight, 5.0)), rest);
  }

  lemma CleaningPlanned(j: Job, pct: real)
    ensures Planned(Cleaning(j, pct)) == [Event(Cleanup, pct)] && Planned(Finish()) == [Event(Done, 100.0)]
  {
    assert Cleaning(j, pct) == [Move(Event(Cleanup, pct))] + [Try(DeleteVm, j.vmId)];
    PlannedSection(Move(Event(Cleanup, pct)), [Try(DeleteVm, j.vmId)]);
    PlannedOne(Move(Event(Done, 100.0)));
  }

  lemma ColdDiskPlanned(e: Env, j: Job)
    ensures Planned(ColdDisk(e, j)) == [Event(Disk, 20.0), Event(Disk, 50.0)]
  {
    hide Planned;
    var stop := if e.vm.status.Active? then StopVm(j) else [];
    var rest := stop + Syncs(Images(e, j), None, 300) + Each(Demote, Images(e, j)) + [RECLAIM] +
      Each(Promote(e), Images(e, j));
    var enter := [Move(Event(Disk, 20.0))];
    assert ColdDisk(e, j) == (enter + rest) + [Move(Event(Disk, 50.0))];
    PlannedSection(Move(Event(Disk, 20.0)), rest);
    PlannedConcat(enter + rest, [Move(Event(Disk, 50.0))]);
    PlannedOne(Move(Event(Disk, 50.0)));
  }

  lemma BgpPlanned(e: Env)
    ensures Planned(ColdBgp(e)) == [Event(Bgp, 85.0)] && Planned(LiveBgp(e)) == [Event(Bgp, 90.0)]
  {
    var ps := Prefixes(e);
    PlannedSection(Move(Event(Bgp, 85.0)),
      if ps == [] then [] else Handoff(ps, SourceClient(e)) + [Register(ReverseRoutes(ps))]);
    PlannedSection(Move(Event(Bgp, 90.0)), if ps == [] then [] else Handoff(ps, SourceClient(e)));
  }

  lemma ColdPlanned(e: Env, j: Job)
    ensures Planned(ColdProgram(e, j)) == COLD_LOG
  {
    hide Planned, ColdPreflight, ColdDisk, ColdCutover, ColdBgp, Cleaning, Finish, COLD_LOG;
    ColdHeadPlanned(e, j);
    ColdDiskPlanned(e, j);
    CutoverPlanned(e, j);
    BgpPlanned(e);
    CleaningPlanned(j, 95.0);
    var a := ColdPreflight(e, j) + [CheckAbort];
    PlannedFive(a, ColdDisk(e, j), ColdCutover(e, j), ColdBgp(e), Cleaning(j, 95.0));
    PlannedConcat(a + ColdDisk(e, j) + ColdCutover(e, j) + ColdBgp(e) + Cleaning(j, 95.0), Finish());
    ColdLogParts();
  }

  lemma ColdLogParts()
    ensures [Event(Preflight, 5.0)] + [Event(Disk, 20.0), Event(Disk, 50.0)] + [Event(Cutover, 70.0)] +
            [Event(Bgp, 85.0)] + [Event(Cleanup, 95.0)] + [Event(Done, 100.0)] == COLD_LOG
  {
  }

  lemma CutoverPlanned(e: Env, j: Job)
    ensures Planned(ColdCutover(e, j)) == [Event(Cutover, 70.0)]
  {
    PlannedSection(Move(Event(Cutover, 70.0)), Copies(Images(e, j)));
  }

  lemma ColdHeadPlanned(e: Env, j: Job)
    ensures Planned(ColdPreflight(e, j) + [CheckAbort]) == [Event(Preflight, 5.0)]
  {
    PreflightPlanned(e, j, e.vm.status.Active? || e.vm.status.Shutoff?);
    PlannedOne(CheckAbort);
    PlannedConcat(ColdPreflight(e, j), [CheckAbort]);
  }

  function LiveBeforeMonitor(e: Env, j: Job): seq<Cmd> {
    LivePreflight(e, j) + [CheckAbort] + LiveDiskSync(e, j) + EnterMemory(j)
  }

  function LiveAfterMonitor(e: Env, j: Job): seq<Cmd> {
    LiveCopy() + LiveCutover(e, j) + LiveBgp(e) + Cleaning(j, 96.0) + Finish()
  }

  lemma LiveSplit(e: Env, j: Job)
    ensures LiveProgram(e, j) == LiveBeforeMonitor(e, j) + Observations(e.samples) + LiveAfterMonitor(e, j)
  {
  }

  function EnterMemory(j: Job): seq<Cmd> {
    [Move(Event(Memory, 25.0)), Guard(j.destHost != ""), Register(AbortTunnel)]
  }

  lemma EnterMemoryPlanned(j: Job)
    ensures Planned(EnterMemory(j)) == [Event(Memory, 25.0)]
  {
    var rest := [Guard(j.destHost != ""), Register(AbortTunnel)];
    PlannedSection(Move(Event(Memory, 25.0)), rest);
    assert EnterMemory(j) == [Move(Event(Memory, 25.0))] + rest;
  }

  lemma LiveDiskPlanned(e: Env, j: Job)
    ensures Planned(LiveDiskSync(e, j)) == [Event(Disk, 15.0)]
  {
    PlannedSection(Move(Event(Disk, 15.0)), Each(MirrorStatus, Images(e, j)));
  }

  lemma LiveHeadPlanned(e: Env, j: Job)
    ensures Planned(LiveBeforeMonitor(e, j)) == LIVE_HEAD
  {
    PreflightPlanned(e, j, e.vm.status.Active?);
    PlannedOne(CheckAbort);
    LiveDiskPlanned(e, j);
    EnterMemoryPlanned(j);
    hide Planned, Preflighting, EnterMemory, LiveDiskSync;
    PlannedFour(LivePreflight(e, j), [CheckAbort], LiveDiskSync(e, j), EnterMemory(j));
  }

  lemma {:induction false} FlushesPlanNothing(images: seq<string>)
    ensures forall c | c in Flushes(images) :: !c.Move? && Plain(c)
    decreases |images|
  {
    if images != [] {
      FlushesPlanNothing(images[..|images| - 1]);
    }
  }

  lemma LiveCutoverPlanned(e: Env, j: Job)
    ensures Planned(LiveCutover(e, j)) == [Event(Cutover, 80.0)]
    ensures Planned(LiveCopy()) == [Event(Memory, 75.0)]
  {
    var images := Images(e, j);
    FlushesPlanNothing(images);
    var rest := Flushes(images) + [RECLAIM] + Each(Promote(e), images);
    PlannedSection(Move(Event(Cutover, 80.0)), rest);
    hide Planned, Flushes;
    assert LiveCutover(e, j) == [Move(Event(Cutover, 80.0))] + rest;
    LiveCopyPlanned();
  }

  lemma LiveCopyPlanned()
    ensures Planned(LiveCopy()) == [Event(Memory, 75.0)]
  {
    PlannedOne(Do(Migrate, ""));
    PlannedOne(Move(MemoryEvent(100.0)));
    PlannedConcat([Do(Migrate, "")], [Move(MemoryEvent(100.0))]);
    assert LiveCopy() == [Do(Migrate, "")] + [Move(MemoryEvent(100.0))];
  }

  lemma LiveTailPlanned(e: Env, j: Job)
    ensures Planned(LiveAfterMonitor(e, j)) == LIVE_TAIL
  {
    LiveCutoverPlanned(e, j);
    BgpPlanned(e);
    CleaningPlanned(j, 96.0);
    PlannedFive(LiveCopy(), LiveCutover(e, j), LiveBgp(e), Cleaning(j, 96.0), Finish());
  }

  // ---------- main results ----------

  predicate Plain(c: Cmd) {
    !c.Observe? && !c.Interrupt? && EntersOnlyBy(c) && !(c.Try? && c.verb.Demote?)
  }

  predicate AllPlain(p: seq<Cmd>) {
    forall c | c in p :: Plain(c)
  }

  lemma PlainPrefix(p: seq<Cmd>, k: nat)
    requires AllPlain(p) && k <= |p|
    ensures AllPlain(p[..k]) && forall c | c in p[..k] :: !c.Observe?
  {
    assert forall c | c in p[..k] :: c in p;
    assert forall c | c in p[..k] :: Plain(c);
  }

  lemma HandoffPlain(prefixes: seq<string>, client: Client)
    ensures AllPlain(Handoff(prefixes, client))
  {
  }

  lemma BgpPlain(e: Env)
    ensures AllPlain(ColdBgp(e)) && AllPlain(LiveBgp(e))
  {
    HandoffPlain(Prefixes(e), SourceClient(e));
    hide Handoff;
  }

  lemma ColdPartsPlain(e: Env, j: Job)
    ensures AllPlain(ColdPreflight(e, j) + [CheckAbort]) && AllPlain(ColdCutover(e, j)) && AllPlain(Finish())
    ensures forall pct :: AllPlain(Cleaning(j, pct))
  {
  }

  lemma ColdDiskPlain(e: Env, j: Job)
    ensures AllPlain(ColdDisk(e, j))
  {
  }

  lemma LiveBeforePlain(e: Env, j: Job)
    ensures AllPlain(LiveBeforeMonitor(e, j))
  {
  }

  lemma LiveCutoverPlain(e: Env, j: Job)
    ensures AllPlain(LiveCopy() + LiveCutover(e, j))
  {
    FlushesPlanNothing(Images(e, j));
    forall c | c in LiveCopy() + LiveCutover(e, j)
      ensures Plain(c)
    {
      assert c in LiveCopy() || c == Move(Event(Cutover, 80.0)) || c in Flushes(Images(e, j)) || c == RECLAIM ||
             c in Each(Promote(e), Images(e, j));
    }
  }

  lemma LiveAfterPlain(e: Env, j: Job)
    ensures AllPlain(LiveAfterMonitor(e, j))
  {
    LiveCutoverPlain(e, j);
    BgpPlain(e);
    ColdPartsPlain(e, j);
  }

  /** Only the memory step has a monitor, and no engine calls `abort` on itself. */
  lemma EngineCommands(e: Env, j: Job)
    ensures AllPlain(ColdProgram(e, j))
    ensures AllPlain(LiveBeforeMonitor(e, j)) && AllPlain(LiveAfterMonitor(e, j))
    ensures forall c | c in Program(e, j) :: !c.Interrupt? && EntersOnlyBy(c) && !(c.Try? && c.verb.Demote?)
  {
    ColdPartsPlain(e, j);
    ColdDiskPlain(e, j);
    BgpPlain(e);
    LiveBeforePlain(e, j);
    LiveAfterPlain(e, j);
    LiveSplit(e, j);
  }

  /** Aborts leave no event. */
  lemma {:induction false} LoggedStrip(p: seq<Cmd>, log: seq<Event>)
    requires Logged(p, log)
    ensures Logged(Strip(p), log)
    decreases |p|
  {
    if p != [] {
      var n := |p| - 1;
      var c := p[n];
      var q := p[..n];
      if c.Move? || (c.Observe? && !Logged(q, log)) {
        LoggedStrip(q, log[..|log| - 1]);
      } else {
        LoggedStrip(q, log);
      }
      if !c.Interrupt? {
        assert (Strip(q) + [c])[..|Strip(q)|] == Strip(q);
      }
    }
  }

  /** The events of a whole run, its failure path included, are those of the last command it reached. */
  lemma RunLogged(e: Env, p: seq<Cmd>, s: State) returns (k: nat, log: seq<Event>)
    requires forall c | c in p :: EntersOnlyBy(c)
    ensures Reaches(e, p, s, k) && Logged(p[..k], log) && Run(e, p, s).s.w.events == s.w.events + log
    ensures Exec(e, p, s).Ran? ==> k == |p|
  {
    assert p[..|p|] == p;
    if Exec(e, p, s).Ran? {
      k := |p|;
      log := ReachedLog(e, p, s, k);
    } else {
      k := StopExists(e, p, s, |p|);
      log := ReachedLog(e, p, s, k);
      assert p[k] in p;
      if !p[k].Move? && !p[k].Observe? {
        StepJournal(e, p[k], At(e, p, s, k));
      }
      if Exec(e, p, s).Threw? {
        FailPhase(e, Exec(e, p, s).s);
      }
    }
  }

  /** What an engine's commands can enter, aborts woven in. */
  lemma RunEntersOnly(e: Env, j: Job, p: seq<Cmd>)
    requires RunOf(e, j, p)
    ensures forall c | c in p :: EntersOnlyBy(c)
  {
    EngineCommands(e, j);
    StripMembers(p);
  }

  lemma ColdPrefixLog(e: Env, j: Job, p: seq<Cmd>, k: nat, log: seq<Event>)
    requires !j.live && RunOf(e, j, p) && k <= |p| && Logged(p[..k], log)
    ensures log <= COLD_LOG && (k == |p| ==> log == COLD_LOG)
  {
    var all := ColdProgram(e, j);
    var m := |Strip(p[..k])|;
    LoggedStrip(p[..k], log);
    StripPrefix(p, k);
    EngineCommands(e, j);
    ColdPlanned(e, j);
    assert p[..|p|] == p && all[..|all|] == all;
    hide ColdProgram, Planned, Logged, AllPlain, COLD_LOG;
    assert Strip(p[..k]) == all[..m];
    PlainPrefix(all, m);
    LoggedIsPlanned(all[..m], log);
    PlannedPrefix(all, m);
  }

  /**
   The events of a cold run, aborts included, are at every point and at the end the first ones of the seven-step plan;
   a completed run has them all.
   */
  lemma ColdLog(e: Env, j: Job, p: seq<Cmd>, s: State)
    requires !j.live && RunOf(e, j, p)
    ensures forall k | Reaches(e, p, s, k) ::
      exists log | log <= COLD_LOG :: At(e, p, s, k).w.events == s.w.events + log
    ensures exists log | log <= COLD_LOG :: Run(e, p, s).s.w.events == s.w.events + log
    ensures Exec(e, p, s).Ran? ==> Run(e, p, s).s.w.events == s.w.events + COLD_LOG
  {
    RunEntersOnly(e, j, p);
    hide ColdProgram, Program, RunOf, COLD_LOG;
    forall k | Reaches(e, p, s, k)
      ensures exists log | log <= COLD_LOG :: At(e, p, s, k).w.events == s.w.events + log
    {
      var log := ReachedLog(e, p, s, k);
      ColdPrefixLog(e, j, p, k, log);
    }
    var k, log := RunLogged(e, p, s);
    ColdPrefixLog(e, j, p, k, log);
  }

  /** Monitor readings land strictly between the DISK and the CUTOVER percentages, whatever libvirt reports. */
  predicate MonitorEvents(log: seq<Event>) {
    forall event | event in log :: event.phase.Memory? && 25.0 <= event.pct < 75.0
  }

  lemma {:induction false} ObservationsLogged(samples: seq<JobInfo>, k: nat, log: seq<Event>)
    requires k <= |samples| && Logged(Observations(samples)[..k], log)
    ensures MonitorEvents(log)
    decreases k
  {
    if k > 0 {
      var p := Observations(samples)[..k];
      assert p[..k - 1] == Observations(samples)[..k - 1];
      var event := MemoryEvent(ProgressPct(samples[k - 1]));
      assert p[k - 1] == Observe(event);
      PctRange(samples[k - 1]);
      if Logged(p[..k - 1], log) {
        ObservationsLogged(samples, k - 1, log);
      } else {
        ObservationsLogged(samples, k - 1, log[..|log| - 1]);
        assert log == log[..|log| - 1] + [event];
      }
    }
  }

  lemma PctRange(info: JobInfo)
    ensures 0.0 <= ProgressPct(info) <= 99.0
  {
    if info.Job? && info.total > 0 {
      assert info.processed as real / info.total as real >= 0.0;
    }
  }

  ghost predicate Framed(log: seq<Event>, head: seq<Event>, tail: seq<Event>) {
    exists monitor | MonitorEvents(monitor) :: log <= head + monitor + tail
  }

  /** A prefix of PREFLIGHT DISK MEMORY, any monitor events, MEMORY CUTOVER BGP CLEANUP DONE. */
  ghost predicate LiveLog(log: seq<Event>) {
    Framed(log, LIVE_HEAD, LIVE_TAIL)
  }

  lemma FramedBy(x: seq<Event>, y: seq<Event>, z: seq<Event>, tail: seq<Event>)
    requires MonitorEvents(y) && z <= tail
    ensures Framed(x + y + z, x, tail)
  {
    assert x + y + z <= x + y + tail;
  }

  lemma FramedHead(x: seq<Event>, head: seq<Event>, tail: seq<Event>)
    requires x <= head
    ensures Framed(x, head, tail)
  {
    assert MonitorEvents([]) && x <= head + [] + tail;
  }

  lemma LoggedInThree(
    a: seq<Cmd>, samples: seq<JobInfo>, m: nat, c: seq<Cmd>, n: nat, log: seq<Event>)
    requires AllPlain(a) && AllPlain(c)
    requires m <= |samples| && n <= |c| && Logged(a + Observations(samples)[..m] + c[..n], log)
    ensures Framed(log, Planned(a), Planned(c))
  {
    var b := Observations(samples)[..m];
    var xy, z := LoggedSplit(a + b, c[..n], log);
    var x, y := LoggedSplit(a, b, xy);
    LoggedIsPlanned(a, x);
    ObservationsLogged(samples, m, y);
    PlainPrefix(c, n);
    LoggedIsPlanned(c[..n], z);
    PlannedPrefix(c, n);
    FramedBy(x, y, z, Planned(c));
  }

  lemma LoggedFramed(a: seq<Cmd>, samples: seq<JobInfo>, c: seq<Cmd>, k: nat, log: seq<Event>)
    requires AllPlain(a) && AllPlain(c)
    requires k <= |a + Observations(samples) + c| && Logged((a + Observations(samples) + c)[..k], log)
    ensures Framed(log, Planned(a), Planned(c))
  {
    var b := Observations(samples);
    if k <= |a| {
      assert (a + b + c)[..k] == a[..k];
      PlainPrefix(a, k);
      LoggedIsPlanned(a[..k], log);
      PlannedPrefix(a, k);
      FramedHead(log, Planned(a), Planned(c));
    } else if k <= |a| + |b| {
      assert (a + b + c)[..k] == a + b[..k - |a|] + c[..0];
      LoggedInThree(a, samples, k - |a|, c, 0, log);
    } else {
      assert (a + b + c)[..k] == a + b[..|b|] + c[..k - |a| - |b|];
      LoggedInThree(a, samples, |b|, c, k - |a| - |b|, log);
    }
  }

  lemma LiveFramed(e: Env, j: Job, m: nat, log: seq<Event>)
    requires j.live && m <= |LiveProgram(e, j)| && Logged(LiveProgram(e, j)[..m], log)
    ensures LiveLog(log)
  {
    EngineCommands(e, j);
    LiveSplit(e, j);
    LiveHeadPlanned(e, j);
    LiveTailPlanned(e, j);
    hide LiveProgram, LiveBeforeMonitor, LiveAfterMonitor, Planned, Logged, AllPlain, LIVE_HEAD, LIVE_TAIL,
      Observations;
    LoggedFramed(LiveBeforeMonitor(e, j), e.samples, LiveAfterMonitor(e, j), m, log);
  }

  lemma LivePrefixLog(e: Env, j: Job, p: seq<Cmd>, k: nat, log: seq<Event>)
    requires j.live && RunOf(e, j, p) && k <= |p| && Logged(p[..k], log)
    ensures LiveLog(log)
  {
    hide LiveProgram, Logged, LiveLog;
    var m := |Strip(p[..k])|;
    LoggedStrip(p[..k], log);
    StripPrefix(p, k);
    assert Strip(p[..k]) == LiveProgram(e, j)[..m];
    LiveFramed(e, j, m, log);
  }

  /** The events of a live run at every point and at the end, however its monitor interleaves and aborts arrive. */
  lemma LiveLogHolds(e: Env, j: Job, p: seq<Cmd>, s: State)
    requires j.live && RunOf(e, j, p)
    ensures forall k | Reaches(e, p, s, k) ::
      exists log | LiveLog(log) :: At(e, p, s, k).w.events == s.w.events + log
    ensures exists log | LiveLog(log) :: Run(e, p, s).s.w.events == s.w.events + log
  {
    RunEntersOnly(e, j, p);
    hide LiveProgram, Program, RunOf, LiveLog;
    forall k | Reaches(e, p, s, k)
      ensures exists log | LiveLog(log) :: At(e, p, s, k).w.events == s.w.events + log
    {
      var log := ReachedLog(e, p, s, k);
      LivePrefixLog(e, j, p, k, log);
    }
    var k, log := RunLogged(e, p, s);
    LivePrefixLog(e, j, p, k, log);
  }

  /** The row as a run leaves it: the last committed event, or FAILED with that event's percentage. */
  predicate RowTells(s0: State, log: seq<Event>, row: Option<Event>, failed: bool) {
    if s0.w.row.None? then row.None?
    else
      var last := if log == [] then s0.w.row.value else log[|log| - 1];
      row == Some(if failed then Event(Failed, last.pct) else last)
  }

  predicate Transits(c: Cmd) {
    c.Move? || c.Observe?
  }

  /** The event of the last transition among `p`, committed or not. */
  function Current(p: seq<Cmd>, start: Event): Event {
    if p == [] then start
    else if Transits(p[|p| - 1]) then p[|p| - 1].event
    else Current(p[..|p| - 1], start)
  }

  function Here(c: Ctx): Event {
    Event(c.phase, c.pct)
  }

  /** At every reached command, aborts included, the engine's own phase and progress are its last transition's. */
  lemma {:induction false} PhaseIsLastTransition(e: Env, p: seq<Cmd>, s: State, k: nat)
    requires Reaches(e, p, s, k) && forall c | c in p :: EntersOnlyBy(c)
    ensures Here(At(e, p, s, k).c) == Current(p[..k], Here(s.c))
    decreases k
  {
    if k == 0 {
      assert p[..0] == [];
    } else {
      ReachPrevious(e, p, s, k - 1, k);
      PhaseIsLastTransition(e, p, s, k - 1);
      assert p[..k][..k - 1] == p[..k - 1];
      assert p[k - 1] in p;
      if Transits(p[k - 1]) {
        TransitionStep(e, p[k - 1], At(e, p, s, k - 1));
      } else {
        StepJournal(e, p[k - 1], At(e, p, s, k - 1));
      }
      hide Step, Exec, EntersOnlyBy;
    }
  }

  lemma TransitionStep(e: Env, c: Cmd, s: State)
    requires Transits(c) && Step(e, c, s).Ran?
    ensures var s1 := Step(e, c, s).s;
      Here(s1.c) == c.event &&
      s1.w.events == s.w.events + if Raises(e, s, Enter(c.event)) then [] else [c.event]
  {
  }

  /** Command `m` is the last transition before `k`. */
  predicate LastTransition(p: seq<Cmd>, k: nat, m: nat) {
    m < k <= |p| && Transits(p[m]) && forall i | m < i < k :: !Transits(p[i])
  }

  lemma {:induction false} SinceLastTransition(e: Env, p: seq<Cmd>, s: State, k: nat, m: nat)
    requires LastTransition(p, k, m) && Reaches(e, p, s, k) && forall c | c in p :: EntersOnlyBy(c)
    ensures Reaches(e, p, s, m) && Reaches(e, p, s, m + 1)
    ensures Here(At(e, p, s, k).c) == p[m].event && At(e, p, s, k).w.events == At(e, p, s, m + 1).w.events
    decreases k
  {
    ReachPrevious(e, p, s, m, k);
    ReachPrevious(e, p, s, k - 1, k);
    assert p[k - 1] in p;
    if m < k - 1 {
      SinceLastTransition(e, p, s, k - 1, m);
      StepJournal(e, p[k - 1], At(e, p, s, k - 1));
    }
  }

  /** The database write of transition `m` went through. */
  predicate Committed(e: Env, p: seq<Cmd>, s: State, m: nat)
    requires m < |p| && Transits(p[m])
  {
    !Raises(e, At(e, p, s, m), Enter(p[m].event))
  }

  predicate EndsWith(events: seq<Event>, event: Event) {
    events != [] && events[|events| - 1] == event
  }

  /**
   When the engine's own phase and progress are the last committed event, at any reached command and with aborts:
   exactly if the last transition's write went through, or that transition repeats the event committed before it. A
   run goes on past a failed write only if it was the monitor's, and then each further failure takes the phase further
   ahead.
   */
  lemma PhaseAgreesIff(e: Env, p: seq<Cmd>, s: State, k: nat, m: nat)
    requires LastTransition(p, k, m) && Reaches(e, p, s, k) && forall c | c in p :: EntersOnlyBy(c)
    ensures Here(At(e, p, s, k).c) == p[m].event && (p[m].Move? ==> Committed(e, p, s, m))
    ensures At(e, p, s, k).w.events ==
            At(e, p, s, m).w.events + if Committed(e, p, s, m) then [p[m].event] else []
    ensures EndsWith(At(e, p, s, k).w.events, Here(At(e, p, s, k).c))
        <==> Committed(e, p, s, m) || EndsWith(At(e, p, s, m).w.events, p[m].event)
  {
    SinceLastTransition(e, p, s, k, m);
    ReachPrevious(e, p, s, m, k);
  }

  /**
   How many transitions the engine's own phase is ahead of its log: those since the last one whose write went through.
   */
  function Ahead(e: Env, p: seq<Cmd>, s: State, k: nat): nat
    requires k <= |p|
    decreases k
  {
    if k == 0 then 0
    else if !Transits(p[k - 1]) then Ahead(e, p, s, k - 1)
    else if Committed(e, p, s, k - 1) then 0
    else Ahead(e, p, s, k - 1) + 1
  }

  /** The transitions among `p`, the monitor's included. */
  function Transitions(p: seq<Cmd>): seq<Event> {
    if p == [] then []
    else
      var c := p[|p| - 1];
      Transitions(p[..|p| - 1]) + if Transits(c) then [c.event] else []
  }

  /**
   The engine's own phase is the last of its transitions, and the last committed event the one that many before it.
   */
  lemma {:induction false} AheadTells(e: Env, p: seq<Cmd>, s: State, k: nat)
    requires Reaches(e, p, s, k) && forall c | c in p :: EntersOnlyBy(c)
    ensures var all := Transitions(p[..k]);
      var ahead := Ahead(e, p, s, k);
      var f := At(e, p, s, k);
      ahead <= |all| && Here(f.c) == (if all == [] then Here(s.c) else all[|all| - 1]) &&
      if ahead == |all| then f.w.events == s.w.events else EndsWith(f.w.events, all[|all| - 1 - ahead])
    decreases k
  {
    if k == 0 {
      assert p[..0] == [];
    } else {
      ReachPrevious(e, p, s, k - 1, k);
      AheadTells(e, p, s, k - 1);
      assert p[..k][..k - 1] == p[..k - 1];
      assert p[k - 1] in p;
      if Transits(p[k - 1]) {
        TransitionStep(e, p[k - 1], At(e, p, s, k - 1));
      } else {
        StepJournal(e, p[k - 1], At(e, p, s, k - 1));
      }
      hide Step, Exec, EntersOnlyBy;
    }
  }

  lemma {:induction false} AheadSince(e: Env, p: seq<Cmd>, s: State, k: nat, m: nat)
    requires LastTransition(p, k, m)
    ensures Ahead(e, p, s, k) == Ahead(e, p, s, m + 1)
    decreases k
  {
    if m < k - 1 {
      AheadSince(e, p, s, k - 1, m);
    }
  }

  /** It is at most one transition ahead exactly if one of the last two transitions was committed. */
  lemma AtMostOneAheadIff(e: Env, p: seq<Cmd>, s: State, k: nat, m: nat, before: nat)
    requires LastTransition(p, k, m) && LastTransition(p, m, before)
    ensures Ahead(e, p, s, k) <= 1 <==> Committed(e, p, s, m) || Committed(e, p, s, before)
  {
    AheadSince(e, p, s, k, m);
    AheadSince(e, p, s, m, before);
  }

  lemma {:induction false} CurrentIsLogged(p: seq<Cmd>, log: seq<Event>, start: Event)
    requires Logged(p, log) && forall c | c in p :: !c.Observe?
    ensures Current(p, start) == if log == [] then start else log[|log| - 1]
    decreases |p|
  {
    if p != [] {
      assert p[|p| - 1] in p;
      assert forall c | c in p[..|p| - 1] :: c in p;
      if !p[|p| - 1].Move? {
        CurrentIsLogged(p[..|p| - 1], log, start);
      }
    }
  }

  /** The cold engine has no monitor: wherever it gets, aborts included, its own phase is its last committed event. */
  lemma ColdPhaseAgrees(e: Env, j: Job, p: seq<Cmd>, s: State, k: nat) returns (log: seq<Event>)
    requires !j.live && RunOf(e, j, p) && Reaches(e, p, s, k)
    ensures log <= COLD_LOG && At(e, p, s, k).w.events == s.w.events + log
    ensures Here(At(e, p, s, k).c) == if log == [] then Here(s.c) else log[|log| - 1]
  {
    RunEntersOnly(e, j, p);
    EngineCommands(e, j);
    StripMembers(p);
    hide COLD_LOG, Exec, AllPlain;
    log := ReachedLog(e, p, s, k);
    ColdPrefixLog(e, j, p, k, log);
    PhaseIsLastTransition(e, p, s, k);
    NoMonitor(e, j, p, k);
    CurrentIsLogged(p[..k], log, Here(s.c));
  }

  lemma NoMonitor(e: Env, j: Job, p: seq<Cmd>, k: nat)
    requires !j.live && RunOf(e, j, p) && k <= |p|
    ensures forall c | c in p[..k] :: !c.Observe?
  {
    EngineCommands(e, j);
    StripMembers(p);
    hide ColdProgram, Strip;
    forall c | c in p[..k]
      ensures !c.Observe?
    {
      assert c in p;
      assert c == Interrupt || c in Strip(p);
    }
  }

  /**
   Without aborts, when a run ends early the row is the last committed event, or FAILED with its percentage when the
   failure path could mark it; nothing after the failure commits an event; and the engine's own phase is that of its
   last transition, the raising one included.
   */
  lemma RowAgreesWithLog(e: Env, p: seq<Cmd>, s: State, k: nat) returns (log: seq<Event>)
    requires Interrupt !in p && forall c | c in p :: EntersOnlyBy(c)
    requires StopsAt(e, p, s, k)
    ensures var r := Run(e, p, s);
      Logged(p[..k], log) && r.s.w.events == s.w.events + log &&
      RowTells(s, log, r.s.w.row, r.Finished? && Step(e, p[k], At(e, p, s, k)).Threw?) &&
      Here(r.s.c) == Current(p[..k + 1], Here(s.c))
  {
    log := ReachedLog(e, p, s, k);
    var f := At(e, p, s, k);
    StopResult(e, p, s, k);
    PhaseIsLastTransition(e, p, s, k);
    assert p[..k + 1][..k] == p[..k];
    var t := Step(e, p[k], f);
    if !Transits(p[k]) {
      StepJournal(e, p[k], f);
    }
    if t.Threw? {
      FailPhase(e, t.s);
    }
  }

  /** The engine's last own command, with nothing but aborts behind it. */
  lemma {:induction false} LastOwn(p: seq<Cmd>) returns (d: nat)
    requires Strip(p) != []
    ensures d < |p| && p[d] == Strip(p)[|Strip(p)| - 1] && forall i | d < i < |p| :: p[i] == Interrupt
    decreases |p|
  {
    var n := |p| - 1;
    if p[n].Interrupt? {
      d := LastOwn(p[..n]);
    } else {
      d := n;
    }
  }

  /** An abort between `d` and `k` that could mark the row. */
  predicate MarkedSince(e: Env, p: seq<Cmd>, s: State, d: nat, k: nat)
    requires k <= |p|
  {
    exists i | d < i < k :: !Raises(e, At(e, p, s, i), MarkFailed)
  }

  lemma {:induction false} RowAfterAborts(e: Env, p: seq<Cmd>, s: State, d: nat, k: nat)
    requires d < k && Reaches(e, p, s, k) && forall i | d < i < k :: p[i] == Interrupt
    ensures var was := At(e, p, s, d + 1).w.row;
      At(e, p, s, k).w.row ==
        if was.Some? && MarkedSince(e, p, s, d, k) then Some(Event(Failed, was.value.pct)) else was
    decreases k
  {
    if d + 1 < k {
      ReachPrevious(e, p, s, k - 1, k);
      RowAfterAborts(e, p, s, d, k - 1);
      var f := At(e, p, s, k - 1);
      FailPhase(e, f.(c := f.c.(aborted := true)));
      assert MarkedSince(e, p, s, d, k) <==> MarkedSince(e, p, s, d, k - 1) || !Raises(e, f, MarkFailed);
    }
  }

  /**
   A completed run of either engine has DONE with 100 percent as its last event. The row, if there is one, says so
   too, unless an abort came after that last transition and could mark it failed.
   */
  lemma CompletedRow(e: Env, j: Job, p: seq<Cmd>, s: State) returns (d: nat)
    requires RunOf(e, j, p) && Exec(e, p, s).Ran?
    ensures d < |p| && p[d] == Move(Event(Done, 100.0)) && forall i | d < i < |p| :: p[i] == Interrupt
    ensures var w := Exec(e, p, s).s.w;
      EndsWith(w.events, Event(Done, 100.0)) && (s.w.row.None? ==> w.row.None?) &&
      (s.w.row.Some? ==>
        w.row == Some(Event(if MarkedSince(e, p, s, d, |p|) then Failed else Done, 100.0)))
  {
    LastIsDone(e, j);
    d := LastOwn(p);
    assert p[..|p|] == p;
    RunEntersOnly(e, j, p);
    hide RunOf, Strip, Program;
    SinceLastTransition(e, p, s, |p|, d);
    ReachPrevious(e, p, s, d, |p|);
    RowAfterAborts(e, p, s, d, |p|);
    RowStaysPresent(e, p, s, d);
  }

  lemma LastIsDone(e: Env, j: Job)
    ensures Program(e, j) != [] && Program(e, j)[|Program(e, j)| - 1] == Move(Event(Done, 100.0))
  {
  }

  /** A row neither appears nor disappears during a run. */
  lemma {:induction false} RowStaysPresent(e: Env, p: seq<Cmd>, s: State, k: nat)
    requires Reaches(e, p, s, k) && forall c | c in p :: EntersOnlyBy(c)
    ensures At(e, p, s, k).w.row.Some? <==> s.w.row.Some?
    decreases k
  {
    if k == 0 {
      assert p[..0] == [];
    } else {
      ReachPrevious(e, p, s, k - 1, k);
      RowStaysPresent(e, p, s, k - 1);
      assert p[k - 1] in p;
      var f := At(e, p, s, k - 1);
      if p[k - 1].Interrupt? {
        FailPhase(e, f.(c := f.c.(aborted := true)));
      } else if !Transits(p[k - 1]) {
        StepJournal(e, p[k - 1], f);
      }
    }
  }

  /** A live migration of a VM without volumes whose database goes away when the monitor starts to report. */
  function Silent(): Env {
    Env(t => t >= 4, _ => false, (_, _) => "", (_, _) => 0, (_, _) => true, _ => Shutoff, _ => DEFAULT_SIZE,
        VmDetails(Active, [], [], []), [JobInfo.Job(100, 30), JobInfo.Job(100, 50)], true, true, 0, 0)
  }

  function NoVolumes(): Discipline.Job {
    Discipline.Job.Job(true, "vm", [], "host")
  }

  function SilentStart(): seq<Cmd> {
    [Move(Event(Preflight, 5.0)), Do(GetVm, "vm"), Guard(true)]
  }

  function SilentDisk(): seq<Cmd> {
    [Collect, CheckAbort, Move(Event(Disk, 15.0))]
  }

  function SilentMemory(): seq<Cmd> {
    [Move(Event(Memory, 25.0)), Guard(true), Register(AbortTunnel)]
  }

  function SilentCopy(): seq<Cmd> {
    [Observe(Event(Memory, 40.0)), Observe(Event(Memory, 50.0)), Do(Migrate, "")]
  }

  lemma SilentShape() returns (rest: seq<Cmd>)
    ensures LiveProgram(Silent(), NoVolumes()) == SilentStart() +
        (SilentDisk() + (SilentMemory() + (SilentCopy() + rest)))
  {
    var e, j := Silent(), NoVolumes();
    assert Images(e, j) == [];
    assert ProgressPct(e.samples[0]) == 30.0 && ProgressPct(e.samples[1]) == 50.0;
    assert LivePreflight(e, j) == [Move(Event(Preflight, 5.0)), Do(GetVm, "vm"), Guard(true), Collect];
    assert LiveDiskSync(e, j) == [Move(Event(Disk, 15.0))];
    assert Tunnel(e) == SilentCopy() + [Move(MemoryEvent(100.0))];
    rest := [Move(MemoryEvent(100.0))] + LiveCutover(e, j) + LiveBgp(e) + Cleaning(j, 96.0) + Finish();
  }

  lemma SilentStartRuns(s: State) returns (s1: State)
    requires s.w.trace == [] && s.w.row.Some? && !s.c.aborted
    ensures Exec(Silent(), SilentStart(), s) == Ran(s1)
    ensures |s1.w.trace| == 2 && s1.w.row.Some? && !s1.c.aborted
  {
    ExecThree(Silent(), SilentStart(), s);
    s1 := Exec(Silent(), SilentStart(), s).s;
  }

  lemma SilentDiskRuns(s: State) returns (s1: State)
    requires |s.w.trace| == 2 && s.w.row.Some? && !s.c.aborted
    ensures Exec(Silent(), SilentDisk(), s) == Ran(s1)
    ensures |s1.w.trace| == 3 && s1.w.row.Some?
  {
    ExecThree(Silent(), SilentDisk(), s);
    s1 := Exec(Silent(), SilentDisk(), s).s;
  }

  lemma SilentMemoryRuns(s: State) returns (s1: State)
    requires |s.w.trace| == 3 && s.w.row.Some?
    ensures Exec(Silent(), SilentMemory(), s) == Ran(s1)
    ensures |s1.w.trace| == 4 && EndsWith(s1.w.events, Event(Memory, 25.0)) && s1.w.row == Some(Event(Memory, 25.0))
  {
    ExecThree(Silent(), SilentMemory(), s);
    s1 := Exec(Silent(), SilentMemory(), s).s;
  }

  lemma SilentCopyFails(s: State) returns (s1: State)
    requires |s.w.trace| == 4
    ensures Exec(Silent(), SilentCopy(), s) == Threw(s1)
    ensures |s1.w.trace| == 7 && s1.w.events == s.w.events && s1.w.row == s.w.row && Here(s1.c) == Event(Memory, 50.0)
  {
    ExecThree(Silent(), SilentCopy(), s);
    s1 := Exec(Silent(), SilentCopy(), s).s;
  }

  /**
   So the engine's own phase can be more than one transition ahead of its log: in this live run two monitor writes fail
   unnoticed, then the copy fails, and the engine is left at 50 percent while log and row say 25.
   */
  lemma MonitorRunsAhead(s: State)
    requires s.w.trace == [] && s.w.row.Some? && !s.c.aborted
    ensures var r := Run(Silent(), LiveProgram(Silent(), NoVolumes()), s);
      r.Escaped? && Here(r.s.c) == Event(Memory, 50.0) &&
      EndsWith(r.s.w.events, Event(Memory, 25.0)) && r.s.w.row == Some(Event(Memory, 25.0))
  {
    var e := Silent();
    hide LiveProgram, SilentStart, SilentDisk, SilentMemory, SilentCopy, Exec;
    var rest := SilentShape();
    var s1 := SilentStartRuns(s);
    ExecConcat(e, SilentStart(), SilentDisk() + (SilentMemory() + (SilentCopy() + rest)), s);
    var s2 := SilentDiskRuns(s1);
    ExecConcat(e, SilentDisk(), SilentMemory() + (SilentCopy() + rest), s1);
    var s3 := SilentMemoryRuns(s2);
    ExecConcat(e, SilentMemory(), SilentCopy() + rest, s2);
    var s4 := SilentCopyFails(s3);
    ExecConcat(e, SilentCopy(), rest, s3);
    assert e.raises(|s4.w.trace|);
  }
}
