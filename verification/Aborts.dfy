/** What an abort can stop, and what it does to a run it cannot stop. */
module Aborts {
  import opened Clusters
  import opened Protocol
  import opened Traces
  import opened Discipline
  import opened Engines
  import opened Primaries
  import opened Staleness
  import opened Journal
  import opened Results
  import opened Requests
  import opened MirrorText
  import opened Wrappers

  // ---------- what an abort can stop ----------

  predicate Unstoppable(p: seq<Cmd>) {
    forall c | c in p :: !c.CheckAbort? && !c.Interrupt?
  }

  function Mark(s: State, aborted: bool): State {
    s.(c := s.c.(aborted := aborted))
  }

  lemma StepIgnoresAbort(e: Env, c: Cmd, s: State, aborted: bool)
    requires !c.CheckAbort? && !c.Interrupt?
    ensures var r := Step(e, c, s);
      Step(e, c, Mark(s, aborted)) == if r.Ran? then Ran(Mark(r.s, aborted)) else Threw(Mark(r.s, aborted))
  {
  }

  /** Past the one check, whether an abort has been asked for makes no difference to what is executed. */
  lemma {:induction false} LateAbortIgnored(e: Env, p: seq<Cmd>, s: State, aborted: bool)
    requires Unstoppable(p)
    ensures var r := Exec(e, p, s);
      Exec(e, p, Mark(s, aborted)) == if r.Ran? then Ran(Mark(r.s, aborted)) else Threw(Mark(r.s, aborted))
    decreases |p|
  {
    if p != [] {
      assert p[0] in p;
      StepIgnoresAbort(e, p[0], s, aborted);
      var r := Step(e, p[0], s);
      if r.Ran? {
        assert forall c | c in p[1..] :: c in p;
        LateAbortIgnored(e, p[1..], r.s, aborted);
      }
    }
  }

  lemma {:induction false} AbortSticks(e: Env, p: seq<Cmd>, s: State)
    requires Exec(e, p, s).Ran?
    ensures s.c.aborted || Interrupt in p ==> Exec(e, p, s).s.c.aborted
    decreases |p|
  {
    if p != [] {
      assert Interrupt in p ==> p[0] == Interrupt || Interrupt in p[1..];
      if p[0].Interrupt? {
        FailCalls(e, Mark(s, true));
      } else {
        AbortKept(e, p[0], s);
      }
      AbortSticks(e, p[1..], Step(e, p[0], s).s);
    }
  }

  lemma AbortKept(e: Env, c: Cmd, s: State)
    requires !c.Interrupt?
    ensures Step(e, c, s).s.c.aborted == s.c.aborted
  {
  }

  /** If a prefix without demotes ends the run, no primary has moved. */
  lemma FailsUnmoved(e: Env, j: Job, p: seq<Cmd>, s: State, n: nat)
    requires Follows(e, j, p) && Fresh(j, s) && AtSource(e, j, s.w)
    requires n <= |p| && NoDemote(p[..n]) && !Exec(e, p[..n], s).Ran?
    ensures var r := Run(e, p, s);
      !(r.Finished? && r.ok) && r.s.w.src == s.w.src && r.s.w.dst == s.w.dst
  {
    var k := StopExists(e, p, s, n);
    StopResult(e, p, s, k);
    assert forall c | c in p[..k] :: c in p[..n];
    assert DemotedBy(p[..k]) == {};
    if Exec(e, p, s).Threw? {
      FailureMap(e, j, p, s, k);
    } else {
      ReachedHolds(e, j, p, s, k);
      NoFailedGuard(e, p, s, k);
      ThrowMovesNothing(e, j, p[..k], p[k], At(e, p, s, k));
    }
  }

  lemma AbortedPrefixEnds(e: Env, x: seq<Cmd>, s: State)
    requires Interrupt in x
    ensures !Exec(e, x + [CheckAbort], s).Ran?
  {
    ExecConcat(e, x, [CheckAbort], s);
    var r := Exec(e, x, s);
    if r.Ran? {
      AbortSticks(e, x, s);
      assert Exec(e, [CheckAbort], r.s) == Quit(r.s);
    }
  }

  lemma AbortedRunUnmoved(e: Env, j: Job, p: seq<Cmd>, n: nat, s: State)
    requires Follows(e, j, p) && n < |p| && p[..n + 1] == p[..n] + [CheckAbort]
    requires Interrupt in p[..n] && NoDemote(p[..n + 1])
    requires Fresh(j, s) && AtSource(e, j, s.w)
    ensures var r := Run(e, p, s);
      !(r.Finished? && r.ok) && r.s.w.src == s.w.src && r.s.w.dst == s.w.dst
  {
    AbortedPrefixEnds(e, p[..n], s);
    hide Exec, Run, Follows, AtSource, Fresh, NoDemote;
    FailsUnmoved(e, j, p, s, n + 1);
  }

  lemma CheckIsNoDemote(p: seq<Cmd>)
    requires NoDemote(p)
    ensures NoDemote(p + [CheckAbort])
  {
  }

  /**
   An abort that arrives before the check is honoured: the run stops there, or fails before it, with every
   primary where it was.
   */
  lemma EarlyAbortStops(e: Env, j: Job, p: seq<Cmd>, n: nat, s: State)
    requires RunOf(e, j, p) && n < |p| && p[n] == CheckAbort && Interrupt in p[..n]
    requires Fresh(j, s) && AtSource(e, j, s.w)
    ensures var r := Run(e, p, s);
      !(r.Finished? && r.ok) && r.s.w.src == s.w.src && r.s.w.dst == s.w.dst
  {
    EnginesFollow(e, j, p);
    BeforeCheckNoDemote(e, j, p, n);
    CheckIsNoDemote(p[..n]);
    assert p[..n + 1] == p[..n] + [CheckAbort];
    hide Follows, Run, RunOf, NoDemote;
    AbortedRunUnmoved(e, j, p, n, s);
  }

  // ---------- what an abort cannot stop ----------

  lemma {:induction false} AbortedMeansInterrupt(e: Env, p: seq<Cmd>, s: State)
    requires Exec(e, p, s).Ran? && Exec(e, p, s).s.c.aborted && !s.c.aborted
    ensures Interrupt in p
    decreases |p|
  {
    if p != [] && !p[0].Interrupt? {
      AbortKept(e, p[0], s);
      AbortedMeansInterrupt(e, p[1..], Step(e, p[0], s).s);
    }
  }

  /** A run stops quietly exactly if it reaches its one check with an abort behind it; no later abort stops it. */
  lemma EngineQuitsIff(e: Env, j: Job, p: seq<Cmd>, s: State, n: nat)
    requires RunOf(e, j, p) && Fresh(j, s) && n < |p| && p[n] == CheckAbort
    ensures Exec(e, p, s).Quit? <==> Reaches(e, p, s, n) && Interrupt in p[..n]
  {
    if Exec(e, p, s).Quit? {
      assert p[..|p|] == p;
      var k := StopExists(e, p, s, |p|);
      QuitsAtCheck(e, p[k], At(e, p, s, k));
      OneCheck(e, j, p, k, n);
      AbortedMeansInterrupt(e, p[..n], s);
    }
    if Reaches(e, p, s, n) && Interrupt in p[..n] {
      AbortSticks(e, p[..n], s);
      StopResult(e, p, s, n);
    }
  }

  lemma QuitsAtCheck(e: Env, c: Cmd, s: State)
    requires Step(e, c, s).Quit?
    ensures c.CheckAbort? && s.c.aborted
  {
  }

  /** The part of each engine behind its check. */
  function AfterCheck(e: Env, j: Job): seq<Cmd> {
    if j.live then
      LiveDiskSync(e, j) + LiveMemory(e, j) + LiveCutover(e, j) + LiveBgp(e) + Cleaning(j, 96.0) + Finish()
    else ColdDisk(e, j) + ColdCutover(e, j) + ColdBgp(e) + Cleaning(j, 95.0) + Finish()
  }

  function BeforeCheck(e: Env, j: Job): seq<Cmd> {
    if j.live then LivePreflight(e, j) else ColdPreflight(e, j)
  }

  lemma CheckShape(e: Env, j: Job)
    ensures Program(e, j) == BeforeCheck(e, j) + [CheckAbort] + AfterCheck(e, j)
  {
    hide LivePreflight, LiveDiskSync, LiveMemory, LiveCutover, LiveBgp, Cleaning, Finish, ColdPreflight, ColdDisk,
         ColdCutover, ColdBgp;
  }

  lemma FlushesUnstoppable(images: seq<string>)
    ensures Unstoppable(Flushes(images))
    decreases |images|
  {
    if images != [] {
      FlushesUnstoppable(images[..|images| - 1]);
    }
  }

  lemma DiskUnstoppable(e: Env, j: Job)
    ensures Unstoppable(ColdDisk(e, j)) && Unstoppable(LiveDiskSync(e, j)) && Unstoppable(LiveMemory(e, j))
  {
  }

  lemma TailUnstoppable(e: Env, j: Job)
    ensures Unstoppable(ColdCutover(e, j)) && Unstoppable(ColdBgp(e)) && Unstoppable(LiveBgp(e))
    ensures Unstoppable(LiveCutover(e, j)) && Unstoppable(Finish()) && forall pct :: Unstoppable(Cleaning(j, pct))
  {
    FlushesUnstoppable(Images(e, j));
    HandoffUnstoppable(Prefixes(e), SourceClient(e));
    hide Flushes, Handoff;
  }

  lemma HandoffUnstoppable(prefixes: seq<string>, client: Client)
    ensures Unstoppable(Handoff(prefixes, client))
  {
  }

  lemma AfterCheckUnstoppable(e: Env, j: Job)
    ensures Unstoppable(AfterCheck(e, j))
  {
    DiskUnstoppable(e, j);
    TailUnstoppable(e, j);
    hide LiveDiskSync, LiveMemory, LiveCutover, LiveBgp, Cleaning, Finish, ColdDisk, ColdCutover, ColdBgp;
  }

  lemma PreflightUnstoppable(e: Env, j: Job)
    ensures Unstoppable(BeforeCheck(e, j))
  {
  }

  /** Each engine looks at the abort flag once. Behind that, a set flag changes nothing in what is executed. */
  lemma EngineIgnoresLateAbort(e: Env, j: Job, s: State, aborted: bool)
    ensures Program(e, j) == BeforeCheck(e, j) + [CheckAbort] + AfterCheck(e, j)
    ensures var r := Exec(e, AfterCheck(e, j), s);
      Exec(e, AfterCheck(e, j), Mark(s, aborted)) == if r.Ran? then Ran(Mark(r.s, aborted))
        else Threw(Mark(r.s, aborted))
  {
    CheckShape(e, j);
    AfterCheckUnstoppable(e, j);
    hide AfterCheck, Program;
    LateAbortIgnored(e, AfterCheck(e, j), s, aborted);
  }

  lemma OneCheck(e: Env, j: Job, p: seq<Cmd>, k: nat, n: nat)
    requires RunOf(e, j, p) && k < |p| && p[k] == CheckAbort && n < |p| && p[n] == CheckAbort
    ensures k == n
  {
    CheckShape(e, j);
    AfterCheckUnstoppable(e, j);
    PreflightUnstoppable(e, j);
    StripPrefix(p, k);
    StripPrefix(p, n);
    hide AfterCheck, BeforeCheck, Program;
    CheckPlace(BeforeCheck(e, j), AfterCheck(e, j));
    if k < n {
      StripShorter(p, k, n);
    } else if n < k {
      StripShorter(p, n, k);
    }
  }

  lemma CheckPlace(a: seq<Cmd>, b: seq<Cmd>)
    requires Unstoppable(a) && Unstoppable(b)
    ensures var all := a + [CheckAbort] + b; forall m | 0 <= m < |all| && all[m] == CheckAbort :: m == |a|
  {
    var all := a + [CheckAbort] + b;
    forall m | 0 <= m < |all| && m != |a|
      ensures all[m] != CheckAbort
    {
      assert if m < |a| then all[m] in a else all[m] in b;
    }
  }

  /** No demote comes before the check. */
  lemma BeforeCheckNoDemote(e: Env, j: Job, p: seq<Cmd>, n: nat)
    requires RunOf(e, j, p) && n < |p| && p[n] == CheckAbort
    ensures NoDemote(p[..n])
  {
    CheckShape(e, j);
    AfterCheckUnstoppable(e, j);
    PreflightUnstoppable(e, j);
    PreflightNoDemote(e, j);
    StripPrefix(p, n);
    StripMembers(p[..n]);
    hide AfterCheck, BeforeCheck, Program;
    CheckPlace(BeforeCheck(e, j), AfterCheck(e, j));
    assert Strip(p[..n]) == BeforeCheck(e, j);
  }

  lemma PreflightNoDemote(e: Env, j: Job)
    ensures NoDemote(BeforeCheck(e, j))
  {
  }

  lemma StripShorter(p: seq<Cmd>, k: nat, n: nat)
    requires k < n <= |p| && !p[k].Interrupt?
    ensures |Strip(p[..k])| < |Strip(p[..n])|
  {
    assert p[..n][..k] == p[..k];
    StripPrefix(p[..n], k);
  }

  // ---------- what a late abort does ----------

  /** No call raises, the mirrors read as within the limits, and the VM is seen shut off whenever it is looked at. */
  ghost predicate Answering(e: Env) {
    (forall t :: !e.raises(t)) && (forall t :: e.status(t).Shutoff?) && (forall t, image :: e.mirrored(t, image)) &&
    (forall t, image :: Reading(e, t, image) <= e.defaultLag && Reading(e, t, image) <= Limit(e, Some(e.maxLag)))
  }

  /** Nothing stands in the way of a run that is not aborted: also the VM's status fits and a live one has a host. */
  ghost predicate Unfailing(e: Env, j: Job) {
    Answering(e) && StatusFits(e, j) && (j.live ==> j.destHost != "")
  }

  /** The same for an ACTIVE VM, with a stub for the destination that refuses nothing. */
  ghost predicate Smooth(e: Env) {
    Answering(e) && (forall t :: !e.refuses(t)) && e.vm.status.Active? && e.destClient
  }

  /** A command that cannot fail then. */
  predicate Easy(e: Env, c: Cmd) {
    match c
    case Guard(holds) => holds
    case Sync(_, limit, timeout) => timeout > 0 && Limit(e, limit) == e.defaultLag
    case AwaitVm(_, target) => target.Shutoff?
    case Do(verb, _) => !Stubless(verb)
    case _ => true
  }

  lemma EasyRuns(e: Env, c: Cmd, s: State)
    requires Answering(e) && Easy(e, c) && (c.CheckAbort? ==> !s.c.aborted)
    ensures Step(e, c, s).Ran?
  {
    match c
    case Sync(image, limit, timeout) =>
      assert Polls(timeout, SYNC_INTERVAL) > 0;
      assert Reading(e, |s.w.trace|, image) <= e.defaultLag;
    case AwaitVm(id, target) =>
      assert Polls(VM_TIMEOUT, VM_INTERVAL) > 0;
      assert e.status(|s.w.trace|).Shutoff?;
    case Check(image) =>
      var s1 := Invoke(e, s, ImageInfo, image);
      assert e.mirrored(|s.w.trace|, image) && Reading(e, |s1.w.trace|, image) <= Limit(e, Some(e.maxLag));
    case _ =>
  }

  lemma {:induction false} SmoothReaches(e: Env, p: seq<Cmd>, s: State, k: nat)
    requires Answering(e) && k <= |p| && (forall c | c in p :: Easy(e, c)) && !s.c.aborted
    requires forall i | 0 <= i < |p| && p[i] == CheckAbort :: Interrupt !in p[..i]
    ensures Reaches(e, p, s, k)
    decreases k
  {
    if k == 0 {
      assert p[..0] == [];
    } else {
      SmoothReaches(e, p, s, k - 1);
      var f := At(e, p, s, k - 1);
      if p[k - 1].CheckAbort? && f.c.aborted {
        AbortedMeansInterrupt(e, p[..k - 1], s);
      }
      EasyRuns(e, p[k - 1], f);
      ReachNext(e, p, s, k - 1);
    }
  }

  predicate AllEasy(e: Env, p: seq<Cmd>) {
    forall c | c in p :: Easy(e, c)
  }

  lemma PartsEasy(e: Env, j: Job)
    requires Unfailing(e, j)
    ensures AllEasy(e, BeforeCheck(e, j)) && AllEasy(e, ColdDisk(e, j)) && AllEasy(e, LiveDiskSync(e, j))
    ensures j.live ==> AllEasy(e, LiveMemory(e, j))
  {
    ColdDiskEasy(e, j);
    hide ColdDisk;
  }

  lemma ColdDiskEasy(e: Env, j: Job)
    requires Unfailing(e, j)
    ensures AllEasy(e, ColdDisk(e, j))
  {
  }

  lemma {:induction false} FlushesEasy(e: Env, images: seq<string>)
    ensures AllEasy(e, Flushes(images))
    decreases |images|
  {
    if images != [] {
      FlushesEasy(e, images[..|images| - 1]);
    }
  }

  lemma HandoffEasy(e: Env, prefixes: seq<string>, client: Client)
    ensures AllEasy(e, Handoff(prefixes, client))
  {
  }

  lemma EndsEasy(e: Env, j: Job)
    requires Unfailing(e, j)
    ensures AllEasy(e, ColdCutover(e, j)) && AllEasy(e, ColdBgp(e)) && AllEasy(e, LiveBgp(e))
    ensures AllEasy(e, LiveCutover(e, j)) && AllEasy(e, Finish()) && forall pct :: AllEasy(e, Cleaning(j, pct))
  {
    FlushesEasy(e, Images(e, j));
    HandoffEasy(e, Prefixes(e), SourceClient(e));
    hide Flushes, Handoff;
  }

  lemma EasyTail(e: Env, j: Job)
    requires if j.live then AllEasy(e, LiveDiskSync(e, j)) && AllEasy(e, LiveMemory(e, j))
             else AllEasy(e, ColdDisk(e, j))
    requires AllEasy(e, ColdCutover(e, j)) && AllEasy(e, ColdBgp(e)) && AllEasy(e, LiveBgp(e))
    requires AllEasy(e, LiveCutover(e, j)) && AllEasy(e, Finish()) && forall pct :: AllEasy(e, Cleaning(j, pct))
    ensures AllEasy(e, AfterCheck(e, j))
  {
    hide LiveDiskSync, LiveMemory, LiveCutover, LiveBgp, Cleaning, Finish, ColdDisk, ColdCutover, ColdBgp, Easy;
  }

  lemma AfterCheckEasy(e: Env, j: Job)
    requires Unfailing(e, j)
    ensures AllEasy(e, AfterCheck(e, j))
  {
    PartsEasy(e, j);
    EndsEasy(e, j);
    hide AfterCheck, AllEasy, Unfailing;
    EasyTail(e, j);
  }

  lemma ProgramEasy(e: Env, j: Job)
    requires Unfailing(e, j)
    ensures AllEasy(e, Program(e, j))
  {
    hide BeforeCheck, Program, AfterCheck, Unfailing;
    CheckShape(e, j);
    PartsEasy(e, j);
    AfterCheckEasy(e, j);
  }

  lemma SmoothIsUnfailing(e: Env, j: Job)
    requires Smooth(e) && (j.live ==> j.destHost != "")
    ensures Unfailing(e, j)
  {
    hide Answering;
  }

  lemma SmoothReplies(e: Env, w0: World, w1: World)
    requires Smooth(e) && Extends(e, w0, w1)
    ensures forall a | a in New(w0, w1) && !Stubless(a.verb) :: a.reply.Accepted?
  {
    var calls := New(w0, w1);
    ReplayTrace(e, w0, calls);
    forall i | 0 <= i < |calls| && !Stubless(calls[i].verb)
      ensures calls[i].reply.Accepted?
    {
      var t := |w0.trace| + i;
      assert !e.raises(t) && !e.refuses(t);
      assert w1.trace[t] == calls[i];
    }
  }

  /** With everything going well, a late abort has force-promoted every image. */
  lemma AbortReclaimsAll(e: Env, j: Job, p: seq<Cmd>, s: State, k: nat)
    requires Smooth(e) && Follows(e, j, p) && Fresh(j, s) && AtSource(e, j, s.w)
    requires k < |p| && Reaches(e, p, s, k) && p[k] == Interrupt && RECLAIM in p[..k]
    ensures var w, w1 := At(e, p, s, k).w, Step(e, p[k], At(e, p, s, k)).s.w;
      Extends(e, w, w1) && SetOf(Images(e, j)) <= AcceptedArgs(New(w, w1), ForcePromote)
  {
    var f := At(e, p, s, k);
    var f1 := f.(c := f.c.(aborted := true));
    ReachedHolds(e, j, p, s, k);
    FailForces(e, f1);
    var calls := New(f.w, Abort(e, f).w);
    SmoothReplies(e, f.w, Abort(e, f).w);
    assert Fail(e, f1).Finished?;
    ForcedAll(calls, Images(e, j));
  }

  lemma NewPrefix(e: Env, w0: World, w: World, w1: World, w2: World, verb: Verb)
    requires Extends(e, w0, w) && Extends(e, w, w1) && Extends(e, w1, w2)
    ensures AcceptedArgs(New(w, w1), verb) <= AcceptedArgs(New(w0, w2), verb)
  {
    ExtendsTrans(e, w0, w, w1);
    ExtendsTrans(e, w0, w1, w2);
    AcceptedConcat(New(w0, w), New(w, w1), verb);
    AcceptedConcat(New(w0, w1), New(w1, w2), verb);
  }

  lemma LateAbortForces(e: Env, j: Job, p: seq<Cmd>, s: State)
    requires Smooth(e) && Follows(e, j, p) && Fresh(j, s) && AtSource(e, j, s.w)
    requires Exec(e, p, s).Ran? && AbortedLate(p)
    ensures SetOf(Images(e, j)) <= AcceptedArgs(New(s.w, Exec(e, p, s).s.w), ForcePromote)
  {
    assert p[..|p|] == p;
    var k :| 0 <= k < |p| && p[k] == Interrupt && RECLAIM in p[..k];
    LateAbortForcesFrom(e, j, p, s, k, |p|);
  }

  lemma LateAbortForcesFrom(e: Env, j: Job, p: seq<Cmd>, s: State, k: nat, m: nat)
    requires Smooth(e) && Follows(e, j, p) && Fresh(j, s) && AtSource(e, j, s.w)
    requires k < m && Reaches(e, p, s, m) && p[k] == Interrupt && RECLAIM in p[..k]
    ensures SetOf(Images(e, j)) <= AcceptedArgs(New(s.w, At(e, p, s, m).w), ForcePromote)
  {
    hide Smooth, Follows, Fresh, AtSource, AcceptedArgs, New, Extends, Step;
    ReachPrevious(e, p, s, k, m);
    AbortReclaimsAll(e, j, p, s, k);
    ExecExtends(e, p[..k], s);
    ReachedExtends(e, p, s, k + 1, m);
    NewPrefix(e, s.w, At(e, p, s, k).w, At(e, p, s, k + 1).w, At(e, p, s, m).w, ForcePromote);
  }

  lemma PromotedAll(e: Env, j: Job, p: seq<Cmd>, s: State)
    requires Smooth(e) && Exec(e, p, s).Ran? && AllDone(p, PromoteRemote, Images(e, j))
    ensures SetOf(Images(e, j)) <= AcceptedArgs(New(s.w, Exec(e, p, s).s.w), PromoteRemote)
  {
    var w := Exec(e, p, s).s.w;
    assert p[..|p|] == p;
    ExecExtends(e, p, s);
    SmoothReplies(e, s.w, w);
    forall image | image in Images(e, j)
      ensures image in AcceptedArgs(New(s.w, w), PromoteRemote)
    {
      var n :| 0 <= n < |Images(e, j)| && Images(e, j)[n] == image;
      var i :| 0 <= i < |p| && p[i] == Do(PromoteRemote, image);
      CompletedCall(e, p, s, i, |p|);
      var t :| |s.w.trace| <= t < |w.trace| && w.trace[t].verb == PromoteRemote && w.trace[t].arg == image;
      assert New(s.w, w)[t - |s.w.trace|] == w.trace[t];
      assert w.trace[t] in New(s.w, w);
    }
  }

  /**
   A run in which nothing else goes wrong, with aborts anywhere behind the check: it completes, and it leaves every
   image primary on both sides if an abort arrived after the disk rollback was registered, none otherwise.
   */
  lemma SmoothRunDoublesIff(e: Env, j: Job, p: seq<Cmd>, s: State)
    requires Smooth(e) && (j.live ==> j.destHost != "")
    requires RunOf(e, j, p) && forall i | 0 <= i < |p| && p[i] == CheckAbort :: Interrupt !in p[..i]
    requires Fresh(j, s) && AtSource(e, j, s.w)
    ensures var r := Run(e, p, s);
      r == Finished(true, Exec(e, p, s).s) &&
      r.s.w.src * r.s.w.dst == if AbortedLate(p) then SetOf(Images(e, j)) else {}
  {
    SmoothIsUnfailing(e, j);
    EnginesFollow(e, j, p);
    StripMembers(p);
    assert p[..|p|] == p;
    UnfailingCompletes(e, j, p, s);
    RunDoublyPrimaryExactly(e, j, p, s);
    ReachedMap(e, j, p, s, |p|);
    PromotesPlanned(e, j);
    hide Follows, Strip, Smooth, Program, AllEasy, Easy;
    PromotedAll(e, j, p, s);
    if AbortedLate(p) {
      LateAbortForces(e, j, p, s);
    }
  }

  /** Whatever an unfailing run is answered, it completes, unless an abort comes before its check. */
  lemma UnfailingCompletes(e: Env, j: Job, p: seq<Cmd>, s: State)
    requires Unfailing(e, j) && RunOf(e, j, p) && Fresh(j, s)
    requires forall i | 0 <= i < |p| && p[i] == CheckAbort :: Interrupt !in p[..i]
    ensures Exec(e, p, s).Ran?
  {
    ProgramEasy(e, j);
    StripMembers(p);
    assert p[..|p|] == p;
    hide Program, Strip, Easy;
    SmoothReaches(e, p, s, |p|);
  }

  /**
   Refusals go unnoticed: with a destination that refuses every promote and nothing else in the way, a run without
   aborts returns success, having tried to delete the source VM, with every image of the job primary on neither side.
   */
  lemma RefusedPromotesUnnoticed(e: Env, j: Job, p: seq<Cmd>, s: State)
    requires Unfailing(e, j) && RunOf(e, j, p) && Interrupt !in p && Fresh(j, s) && AtSource(e, j, s.w)
    requires e.destClient && forall t :: e.refuses(t)
    ensures var r := Run(e, p, s);
      r == Finished(true, Exec(e, p, s).s) &&
      (forall image | image in Images(e, j) :: image !in r.s.w.src && image !in r.s.w.dst) &&
      exists t | |s.w.trace| <= t < |r.s.w.trace| :: r.s.w.trace[t].verb.DeleteVm?
  {
    UnfailingCompletes(e, j, p, s);
    var w := Exec(e, p, s).s.w;
    EngineCompleted(e, j, p, s);
    assert !AbortedLate(p);
    ExecExtends(e, p, s);
    NoneAccepted(e, s.w, w);
    CompletedDeletes(e, j, p, s);
  }

  lemma NoneAccepted(e: Env, w0: World, w1: World)
    requires Extends(e, w0, w1) && forall t :: e.refuses(t)
    ensures forall a | a in New(w0, w1) && a.verb == PromoteRemote :: !a.reply.Accepted?
  {
    var calls := New(w0, w1);
    ReplayTrace(e, w0, calls);
    forall i | 0 <= i < |calls| && calls[i].verb == PromoteRemote
      ensures !calls[i].reply.Accepted?
    {
      assert e.refuses(|w0.trace| + i);
      assert w1.trace[|w0.trace| + i] == calls[i];
    }
  }

  /** One abort right after command `i`. */
  function AbortAfter(p: seq<Cmd>, i: nat): seq<Cmd>
    requires i < |p|
  {
    p[..i + 1] + [Interrupt] + p[i + 1..]
  }

  lemma AbortWoven(all: seq<Cmd>, i: nat)
    requires i < |all| && Interrupt !in all && all[i] == RECLAIM
    ensures Strip(AbortAfter(all, i)) == all && AbortedLate(AbortAfter(all, i))
  {
    var a, b := all[..i + 1], all[i + 1..];
    StripConcat(a + [Interrupt], b);
    StripConcat(a, [Interrupt]);
    StripNone(a);
    StripNone(b);
    assert [Interrupt][..0] == [];
    assert all == a + b;
    var p := AbortAfter(all, i);
    assert p[..i + 1] == a && a[i] == RECLAIM && p[i + 1] == Interrupt;
  }

  lemma AbortBehindCheck(all: seq<Cmd>, i: nat, c: nat)
    requires i < |all| && Interrupt !in all && c <= i
    requires forall m | 0 <= m < |all| && all[m] == CheckAbort :: m == c
    ensures var p := AbortAfter(all, i); forall m | 0 <= m < |p| && p[m] == CheckAbort :: Interrupt !in p[..m]
  {
    var p := AbortAfter(all, i);
    forall m | i < m < |p|
      ensures p[m] != CheckAbort
    {
      assert p[m] == if m == i + 1 then Interrupt else all[m - 1];
    }
    forall m | 0 <= m <= i
      ensures Interrupt !in p[..m]
    {
      assert forall q | 0 <= q < m :: p[q] == all[q];
    }
  }

  /** An abort between the registration of the disk rollback and the first promote. */
  lemma LateAbortIsARun(e: Env, j: Job) returns (p: seq<Cmd>)
    ensures RunOf(e, j, p) && AbortedLate(p)
    ensures forall m | 0 <= m < |p| && p[m] == CheckAbort :: Interrupt !in p[..m]
  {
    var all := Program(e, j);
    PromotesPlanned(e, j);
    EngineCommands(e, j);
    CheckShape(e, j);
    AfterCheckUnstoppable(e, j);
    PreflightUnstoppable(e, j);
    CheckPlace(BeforeCheck(e, j), AfterCheck(e, j));
    NoReclaimBefore(e, j);
    hide Program, BeforeCheck, AfterCheck, Unstoppable, AllDone;
    var i :| 0 <= i < |all| && all[i] == RECLAIM;
    var c := |BeforeCheck(e, j)|;
    forall q | 0 <= q < c
      ensures all[q] != RECLAIM
    {
      assert all[q] == BeforeCheck(e, j)[q] && BeforeCheck(e, j)[q] in BeforeCheck(e, j);
    }
    AbortWoven(all, i);
    AbortBehindCheck(all, i, c);
    p := AbortAfter(all, i);
  }

  lemma NoReclaimBefore(e: Env, j: Job)
    ensures RECLAIM !in BeforeCheck(e, j)
  {
    PreflightFollows(e, j, e.vm.status.Active?);
    PreflightFollows(e, j, e.vm.status.Active? || e.vm.status.Shutoff?);
  }

  /** Nothing goes wrong, every mirror is `behind` entries behind, and every description is `description`. */
  function Calm(behind: nat, description: string, threshold: int): Env {
    Env(_ => false, _ => false, (_, _) => description, (_, _) => behind, (_, _) => true, _ => Shutoff,
      _ => DEFAULT_SIZE,
        VmDetails(Active, [], [], ["a"]), [], true, true, threshold, 0)
  }

  function OneImage(live: bool): Job {
    Discipline.Job.Job(live, "vm", [], "host")
  }

  /** Before a migration of one image. */
  function Outset(): State {
    State(World([], {"volume-a"}, {}, {}, {}, None, [], []), Ctx(Pending, 0.0, [], [], [], false))
  }

  lemma CalmIsSmooth(live: bool, behind: nat, description: string, threshold: int)
    requires LagBytes(description) <= threshold
    ensures var e, j, s := Calm(behind, description, threshold), OneImage(live), Outset();
      Smooth(e) && Fresh(j, s) && AtSource(e, j, s.w) && Images(e, j) == ["volume-a"]
  {
    assert ImageOf("a") == "volume-a";
    assert ImagesOf(["a"]) == ["volume-a"];
    assert Images(Calm(behind, description, threshold), OneImage(live)) == ["volume-a"];
  }

  /**
   So the engines do make an image primary twice: in this run of either engine nothing fails, one abort arrives
   between the demotes and the promotes, and the run returns success with the image primary on both sides.
   */
  lemma LateAbortDoubles(live: bool) returns (e: Env, j: Job, p: seq<Cmd>, s: State)
    ensures j.live == live && RunOf(e, j, p) && Fresh(j, s) && AtSource(e, j, s.w) && Images(e, j) == ["volume-a"]
    ensures var r := Run(e, p, s); r.Finished? && r.ok && r.s.w.src * r.s.w.dst == {"volume-a"}
  {
    e, j, s := Calm(0, "", 0), OneImage(live), Outset();
    NoKeyReadsZero("");
    CalmIsSmooth(live, 0, "", 0);
    hide Smooth, Reading, LagBytes;
    p := LateAbortIsARun(e, j);
    SmoothRunDoublesIff(e, j, p, s);
    assert SetOf(["volume-a"]) == {"volume-a"};
  }

  lemma SmoothRunDemotes(e: Env, j: Job, s: State) returns (t: nat)
    requires Smooth(e) && (j.live ==> j.destHost != "") && Fresh(j, s) && AtSource(e, j, s.w)
    requires Images(e, j) == ["volume-a"]
    ensures var r := Run(e, Program(e, j), s);
      r.Finished? && r.ok && |s.w.trace| <= t < |r.s.w.trace| && r.s.w.trace[t] == Attempt(Demote, "volume-a", Accepted)
  {
    hide Smooth, Program, AtSource, RunOf;
    ProgramIsRun(e, j);
    SmoothRunDoublesIff(e, j, Program(e, j), s);
    DemotesPlanned(e, j);
    t := CompletedDemote(e, Program(e, j), s, "volume-a");
  }

  lemma ProgramIsRun(e: Env, j: Job)
    ensures RunOf(e, j, Program(e, j))
    ensures forall i | 0 <= i < |Program(e, j)| && Program(e, j)[i] == CheckAbort :: Interrupt !in Program(e, j)[..i]
  {
    EngineCommands(e, j);
    hide Program;
    StripNone(Program(e, j));
    assert forall c | c in Program(e, j) :: c != Interrupt;
  }

  lemma CompletedDemote(e: Env, p: seq<Cmd>, s: State, image: string) returns (t: nat)
    requires Exec(e, p, s).Ran? && AllDone(p, Demote, [image])
    ensures var w := Exec(e, p, s).s.w; |s.w.trace| <= t < |w.trace| && w.trace[t] == Attempt(Demote, image, Accepted)
  {
    assert p[..|p|] == p;
    assert [image][0] == image;
    var i :| 0 <= i < |p| && p[i] == Do(Demote, image);
    CompletedCall(e, p, s, i, |p|);
    var w := Exec(e, p, s).s.w;
    t :| |s.w.trace| <= t < |w.trace| && w.trace[t] == Attempt(Demote, image, Accepted);
  }

  /**
   Without descriptions that tell the true count nothing bounds what is lost: whatever the mirrors lack and whatever the
   threshold is, a description that is not read as more than the threshold lets either engine demote and complete.
   */
  lemma UnreadLagIsLost(live: bool, behind: nat, description: string, threshold: int)
    returns (e: Env, j: Job, s: State, t: nat)
    requires LagBytes(description) <= threshold
    ensures j.live == live && Fresh(j, s) && AtSource(e, j, s.w) && e.defaultLag == threshold && Quiet(e, 0)
    ensures forall tick, image :: e.description(tick, image) == description && e.behind(tick, image) == behind
    ensures var r := Run(e, Program(e, j), s);
      r.Finished? && r.ok && |s.w.trace| <= t < |r.s.w.trace| && r.s.w.trace[t] ==
        Attempt(Demote, "volume-a", Accepted) &&
      Unsynced(e, t, "volume-a") == 4096 * behind
  {
    e, j, s := Calm(behind, description, threshold), OneImage(live), Outset();
    CalmIsSmooth(live, behind, description, threshold);
    hide Run, Program, Smooth, LagBytes, AtSource;
    t := SmoothRunDemotes(e, j, s);
  }

  lemma DemotesPlanned(e: Env, j: Job)
    ensures AllDone(Program(e, j), Demote, Images(e, j))
  {
    if j.live {
      FlushesAll(Images(e, j));
      LiveShape(e, j);
      hide LiveStart, Flushes, Ending, LiveProgram;
      forall i | 0 <= i < |Images(e, j)|
        ensures Do(Demote, Images(e, j)[i]) in LiveProgram(e, j)
      {
        assert Do(Demote, Images(e, j)[i]) in Flushes(Images(e, j));
      }
    } else {
      EachIn(ColdStart(e, j) + Syncs(Images(e, j), None, 300), Demote, Images(e, j));
      ColdShape(e, j);
      hide ColdStart, Ending, ColdProgram;
    }
  }
}
